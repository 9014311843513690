/** The session slot (`AuthContext`): the signed-in user or none, a flag
    that turns on once the stored session has been looked at, and the
    transitions login, register, logout and profile update, each of which
    keeps the stored session in step with the slot. */
module Auth {
  import opened Common
  import opened Storage

  const USER_KEY := "taskup_user_v1"

  datatype User = User(id: string, name: string, email: string, level: Option<int>, points: Option<int>)

  /** A `Partial<User>`: `None` for every field the patch leaves out. */
  datatype UserPatch = UserPatch(
    id: Option<string>,
    name: Option<string>,
    email: Option<string>,
    level: Option<int>,
    points: Option<int>)

  /** What `JSON.parse` gives for a stored session: a user or `null`, or a
      parse error. */
  datatype Decoded = Decoded(user: Option<User>) | Unreadable

  datatype UserJson = UserJson(stringify: User -> string, parse: string -> Decoded)

  /** A stored user is never the empty string and reads back as itself. */
  ghost predicate LawfulUserJson(json: UserJson) {
    forall u :: json.stringify(u) != "" && json.parse(json.stringify(u)) == Decoded(Some(u))
  }

  /** `{...prev, ...patch}`: every field the patch sets wins. */
  function MergeUser(u: User, p: UserPatch): (r: User)
    ensures p == UserPatch(None, None, None, None, None) ==> r == u
    ensures p.id.Some? ==> r.id == p.id.value
    ensures p.id.None? ==> r.id == u.id
    ensures p.name.Some? ==> r.name == p.name.value
    ensures p.name.None? ==> r.name == u.name
    ensures p.email.Some? ==> r.email == p.email.value
    ensures p.email.None? ==> r.email == u.email
    ensures p.level.Some? ==> r.level == p.level
    ensures p.level.None? ==> r.level == u.level
    ensures p.points.Some? ==> r.points == p.points
    ensures p.points.None? ==> r.points == u.points
  {
    User(p.id.GetOr(u.id), p.name.GetOr(u.name), p.email.GetOr(u.email),
         p.level.OrElse(u.level),
         p.points.OrElse(u.points))
  }

  /** Applying the same patch twice is applying it once. */
  lemma MergeUserIdempotent(u: User, p: UserPatch)
    ensures MergeUser(MergeUser(u, p), p) == MergeUser(u, p)
  {
  }

  /** What the load effect does with the stored text. */
  datatype Restore = Keep | SetUser(user: Option<User>) | Discard

  /** An absent or empty value is ignored; one that parses becomes the user
      (a stored `null` included); one that fails to parse is discarded. */
  function Restoring(entries: map<string, string>, json: UserJson): (r: Restore)
    ensures r == Keep <==> USER_KEY !in entries || entries[USER_KEY] == ""
    ensures r.SetUser? ==> json.parse(entries[USER_KEY]) == Decoded(r.user)
    ensures r == Discard ==> json.parse(entries[USER_KEY]) == Unreadable
  {
    if USER_KEY !in entries || entries[USER_KEY] == "" then Keep
    else match json.parse(entries[USER_KEY])
      case Decoded(u) => SetUser(u)
      case Unreadable => Discard
  }

  /** A session stored by login, register or a profile update is restored
      on the next visit; after logout nothing is restored. */
  lemma RestoreAfterPersist(entries: map<string, string>, json: UserJson, u: User)
    requires LawfulUserJson(json)
    ensures Restoring(entries[USER_KEY := json.stringify(u)], json) == SetUser(Some(u))
    ensures Restoring(entries - {USER_KEY}, json) == Keep
  {
    assert json.parse(json.stringify(u)) == Decoded(Some(u));
  }

  class AuthStore {
    var user: Option<User>
    var ready: bool
    const storage: LocalStorage
    const json: UserJson

    /** Storage mirrors the slot: the text of the user, or no key at all. */
    ghost predicate Persisted()
      reads this, storage
    {
      match user
      case Some(u) => USER_KEY in storage.entries && storage.entries[USER_KEY] == json.stringify(u)
      case None => USER_KEY !in storage.entries
    }

    /** Before the load effect: nobody signed in, not ready. */
    constructor (storage: LocalStorage, json: UserJson)
      ensures this.storage == storage && this.json == json
      ensures user == None && !ready
    {
      this.storage := storage;
      this.json := json;
      user := None;
      ready := false;
    }

    /** The load effect: ready afterwards whatever was found; an unreadable
        session is removed and leaves the slot as it was. */
    method Load()
      modifies this, storage
      ensures ready
      ensures match Restoring(old(storage.entries), json)
              case Keep => user == old(user) && storage.entries == old(storage.entries)
              case SetUser(u) => user == u && storage.entries == old(storage.entries)
              case Discard => user == old(user) && storage.entries == old(storage.entries) - {USER_KEY}
    {
      match Restoring(storage.entries, json) {
        case Keep =>
        case SetUser(u) =>
          user := u;
        case Discard =>
          storage.RemoveItem(USER_KEY);
      }
      ready := true;
    }

    /** `persist`: store the user's text, or remove the key for nobody. */
    method Persist(u: Option<User>)
      modifies this, storage
      ensures user == u && ready == old(ready)
      ensures u.Some? ==> storage.entries == old(storage.entries)[USER_KEY := json.stringify(u.value)]
      ensures u.None? ==> storage.entries == old(storage.entries) - {USER_KEY}
      ensures Persisted()
    {
      if u.Some? {
        storage.SetItem(USER_KEY, json.stringify(u.value));
      } else {
        storage.RemoveItem(USER_KEY);
      }
      user := u;
    }

    method Login(u: User)
      modifies this, storage
      ensures user == Some(u) && ready == old(ready)
      ensures storage.entries == old(storage.entries)[USER_KEY := json.stringify(u)]
      ensures Persisted()
    {
      Persist(Some(u));
    }

    /** Same as `Login`: nothing is checked or created elsewhere. */
    method Register(u: User)
      modifies this, storage
      ensures user == Some(u) && ready == old(ready)
      ensures storage.entries == old(storage.entries)[USER_KEY := json.stringify(u)]
      ensures Persisted()
    {
      Persist(Some(u));
    }

    method Logout()
      modifies this, storage
      ensures user == None && ready == old(ready)
      ensures storage.entries == old(storage.entries) - {USER_KEY}
      ensures Persisted()
    {
      Persist(None);
    }

    /** `updateProfile`: without a user nothing happens; with one, the
        merged record becomes the user and is stored. */
    method UpdateProfile(p: UserPatch)
      modifies this, storage
      ensures ready == old(ready)
      ensures old(user).None? ==> user == None && storage.entries == old(storage.entries)
      ensures old(user).Some? ==>
                user == Some(MergeUser(old(user).value, p))
                && storage.entries == old(storage.entries)[USER_KEY := json.stringify(user.value)]
      ensures old(Persisted()) ==> Persisted()
    {
      if user.Some? {
        var updated := MergeUser(user.value, p);
        storage.SetItem(USER_KEY, json.stringify(updated));
        user := Some(updated);
      }
    }
  }
}
