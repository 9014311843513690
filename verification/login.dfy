/** The sign-in form (`Login`): the user record it builds from the typed
    name and e-mail, and the hand-over to the session's `login`. */
module Login {
  import opened Common
  import opened Auth

  const FALLBACK_NAME := "Estudiante"

  /** `name || email.split("@")[0] || "Estudiante"`: the name as typed
      (blank ones included), else the e-mail up to its first '@', else the
      fallback. */
  function DisplayName(name: string, email: string): (r: string)
    ensures r != ""
    ensures name != "" ==> r == name
    ensures name == "" && email != [] && email[0] != '@' ==>
              0 < |r| <= |email| && r == email[..|r|] && '@' !in r && (|r| == |email| || email[|r|] == '@')
    ensures name == "" && (email == [] || email[0] == '@') ==> r == FALLBACK_NAME
  {
    var local := Split(email, '@')[0];
    FirstPieceIsPrefixUpToSep(email, '@');
    if name != "" then name
    else if local != "" then
      assert email[0] == local[0];
      local
    else FALLBACK_NAME
  }

  /** The record `handleSubmit` builds: id "u_" followed by the clock
      reading, level 1, no points, the e-mail as typed. */
  function UserRecord(name: string, email: string, stamp: string): (u: User)
    ensures u.id == "u_" + stamp && u.email == email
    ensures u.level == Some(1) && u.points == Some(0)
    ensures u.name == DisplayName(name, email)
  {
    User("u_" + stamp, DisplayName(name, email), email, Some(1), Some(0))
  }

  class LoginForm {
    var email: string
    var name: string
    const auth: AuthStore

    constructor (auth: AuthStore)
      ensures this.auth == auth && email == "" && name == ""
    {
      this.auth := auth;
      email := "";
      name := "";
    }

    /** `handleSubmit`: the built record becomes the session user and is
        stored; `stamp` is the decimal text of the clock reading. */
    method Submit(stamp: string)
      modifies auth, auth.storage
      ensures auth.user == Some(UserRecord(name, email, stamp)) && auth.ready == old(auth.ready)
      ensures auth.storage.entries == old(auth.storage.entries)[USER_KEY := auth.json.stringify(auth.user.value)]
      ensures auth.Persisted()
    {
      auth.Login(UserRecord(name, email, stamp));
    }
  }
}
