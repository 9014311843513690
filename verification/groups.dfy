/** The group store (`GroupsContext`): the groups the user belongs to,
    `addGroup` (which refuses a blank key and puts the new group first),
    `joinGroup` (a lookup by id or by name ignoring case, then a key check),
    and the same decode-or-default loader and save effect as the tasks. */
module Groups {
  import opened Common
  import opened Storage
  import opened Tasks

  const GROUPS_KEY := "taskup_groups_v1"

  datatype Group = Group(
    id: string,
    name: string,
    description: Option<string>,
    creatorId: string,
    key: string,
    tasks: seq<Task>)

  /** What `addGroup` is given: a group without its id and tasks. */
  datatype GroupInput = GroupInput(name: string, description: Option<string>, creatorId: string, key: string)

  /** No sample groups are shipped. */
  const SeedGroups: seq<Group> := []

  /** `{id, tasks: [], ...groupData}`: the given fields as they are (the key
      is not trimmed), a fresh id and no tasks. */
  function NewGroup(input: GroupInput, freshId: string): (g: Group)
    ensures g.id == freshId && g.tasks == []
    ensures g.name == input.name && g.description == input.description
            && g.creatorId == input.creatorId && g.key == input.key
  {
    Group(freshId, input.name, input.description, input.creatorId, input.key, [])
  }

  /** The predicate `joinGroup` searches with. */
  predicate Matches(g: Group, query: string) {
    g.id == query || ToLower(g.name) == ToLower(query)
  }

  /** `myGroups.find(...)`: the index of the first group that matches. */
  function FindGroup(groups: seq<Group>, query: string): (r: Option<nat>)
    ensures r.Some? ==> r.value < |groups| && Matches(groups[r.value], query)
    ensures r.Some? ==> forall j :: 0 <= j < r.value ==> !Matches(groups[j], query)
    ensures r.None? <==> forall g :: g in groups ==> !Matches(g, query)
  {
    if groups == [] then None
    else if Matches(groups[0], query) then Some(0)
    else
      var rest := FindGroup(groups[1..], query);
      TailMembers(groups);
      if rest.Some? then Some(rest.value + 1) else None
  }

  lemma TailMembers(groups: seq<Group>)
    requires groups != []
    ensures forall g :: g in groups <==> g == groups[0] || g in groups[1..]
  {
    assert groups == [groups[0]] + groups[1..];
  }

  /** `joinGroup(q, key)`: true exactly when some group matches `q` and the
      first one that does has exactly this key. It never changes the list. */
  function JoinGroup(groups: seq<Group>, query: string, key: string): (ok: bool)
    ensures ok <==> exists i :: 0 <= i < |groups| && Matches(groups[i], query)
                      && (forall j :: 0 <= j < i ==> !Matches(groups[j], query))
                      && groups[i].key == key
    ensures (forall g :: g in groups ==> !Matches(g, query)) ==> !ok
  {
    match FindGroup(groups, query)
    case None => false
    case Some(i) => groups[i].key == key
  }

  /** Case does not matter when joining by name: unless the text is some
      group's id, a query and its lower-case form join the same way. */
  lemma JoinIgnoresCase(groups: seq<Group>, query: string, key: string)
    requires forall g :: g in groups ==> g.id != query && g.id != ToLower(query)
    ensures JoinGroup(groups, query, key) == JoinGroup(groups, ToLower(query), key)
  {
    ToLowerIdempotent(query);
    SameMatchesSameFind(groups, query, ToLower(query));
  }

  lemma {:induction false} SameMatchesSameFind(groups: seq<Group>, q1: string, q2: string)
    requires forall g :: g in groups ==> Matches(g, q1) == Matches(g, q2)
    ensures FindGroup(groups, q1) == FindGroup(groups, q2)
  {
    if groups != [] {
      TailMembers(groups);
      SameMatchesSameFind(groups[1..], q1, q2);
      assert Matches(groups[0], q1) == Matches(groups[0], q2);
    }
  }

  /** The group store. */
  class GroupStore {
    var myGroups: seq<Group>
    const storage: LocalStorage
    const json: Json<Group>

    ghost predicate Saved()
      reads this, storage
    {
      GROUPS_KEY in storage.entries && storage.entries[GROUPS_KEY] == json.stringify(myGroups)
    }

    constructor (storage: LocalStorage, json: Json<Group>)
      modifies storage
      ensures this.storage == storage && this.json == json
      ensures myGroups == LoadOrSeed(old(storage.entries), GROUPS_KEY, json, SeedGroups).items
      ensures storage.entries == old(storage.entries)[GROUPS_KEY := json.stringify(myGroups)]
      ensures Saved()
    {
      this.storage := storage;
      this.json := json;
      var loaded := LoadOrSeed(storage.entries, GROUPS_KEY, json, SeedGroups);
      myGroups := loaded.items;
      new;
      if loaded.entries != storage.entries {
        storage.RemoveItem(GROUPS_KEY);
      }
      Save();
    }

    method Save()
      modifies storage
      ensures storage.entries == old(storage.entries)[GROUPS_KEY := json.stringify(myGroups)]
      ensures Saved()
    {
      storage.SetItem(GROUPS_KEY, json.stringify(myGroups));
    }

    /** `addGroup`: a blank key is refused and nothing changes; otherwise
        the new group goes first and the others follow in their order. */
    method AddGroup(input: GroupInput, freshId: string) returns (added: bool)
      modifies this, storage
      ensures added <==> !IsBlank(input.key)
      ensures added ==> myGroups == [NewGroup(input, freshId)] + old(myGroups)
      ensures added ==> storage.entries == old(storage.entries)[GROUPS_KEY := json.stringify(myGroups)]
      ensures !added ==> myGroups == old(myGroups) && storage.entries == old(storage.entries)
    {
      if IsBlank(input.key) {
        return false;
      }
      myGroups := [NewGroup(input, freshId)] + myGroups;
      Save();
      return true;
    }
  }

  /** Saving and loading again gives the groups back (none when none were
      saved). */
  lemma ReloadAfterSave(entries: map<string, string>, json: Json<Group>, groups: seq<Group>)
    requires Lawful(json)
    ensures LoadOrSeed(entries[GROUPS_KEY := json.stringify(groups)], GROUPS_KEY, json, SeedGroups).items
            == groups
  {
    SaveThenLoad(entries, GROUPS_KEY, json, SeedGroups, groups);
  }
}
