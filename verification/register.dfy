/** The sign-up form (`Register`): the same record as the sign-in form,
    handed to the session's `register`. */
module Register {
  import opened Common
  import opened Auth
  import opened Login

  class RegisterForm {
    var email: string
    var name: string
    const auth: AuthStore

    constructor (auth: AuthStore)
      ensures this.auth == auth && email == "" && name == ""
    {
      this.auth := auth;
      email := "";
      name := "";
    }

    /** `handleSubmit`: the built record becomes the session user and is
        stored; `stamp` is the decimal text of the clock reading. */
    method Submit(stamp: string)
      modifies auth, auth.storage
      ensures auth.user == Some(UserRecord(name, email, stamp)) && auth.ready == old(auth.ready)
      ensures auth.storage.entries == old(auth.storage.entries)[USER_KEY := auth.json.stringify(auth.user.value)]
      ensures auth.Persisted()
    {
      auth.Register(UserRecord(name, email, stamp));
    }
  }
}
