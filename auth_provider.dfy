/**
 * The authentication state container: the current user and whether the
 * persisted identity has been loaded yet, kept in step with the store.
 * There is no credential check: any identity handed to `Login` is accepted.
 */
module AuthProvider {
  import opened Types
  import opened Json
  import opened Storage

  class AuthState {
    var user: Option<User>
    var hydrated: bool
    const store: BrowserStorage

    /** Before hydration: nobody is logged in and `hydrated` is false. */
    constructor (store: BrowserStorage)
      ensures this.store == store
      ensures user == None && !hydrated
    {
      this.store := store;
      user := None;
      hydrated := false;
    }

    /** The mount effect: load the persisted user (or none) and mark the container hydrated. */
    method Hydrate()
      modifies this
      ensures user == UserView(store.inBrowser, store.entries)
      ensures hydrated
    {
      user := store.GetUser();
      hydrated := true;
    }

    method Login(nextUser: User)
      modifies this, store
      ensures user == Some(nextUser) && hydrated == old(hydrated)
      ensures store.entries ==
        if store.inBrowser then old(store.entries)[USER_KEY := Serialize(JUser(nextUser))] else old(store.entries)
      ensures store.inBrowser ==> UserView(store.inBrowser, store.entries) == Some(nextUser)
    {
      store.SaveUser(nextUser);
      user := Some(nextUser);
      SaveUserRoundTrip(old(store.entries), nextUser);
    }

    method Logout()
      modifies this, store
      ensures user == None && hydrated == old(hydrated)
      ensures store.entries == if store.inBrowser then old(store.entries) - {USER_KEY} else old(store.entries)
      ensures UserView(store.inBrowser, store.entries) == None
    {
      store.ClearUser();
      user := None;
      ClearedReadsAsDefault(store.inBrowser, old(store.entries));
    }
  }

  /** `useAuth`: outside an `AuthProvider` there is no context value, and that is a fatal misuse. */
  function UseAuth(context: Option<AuthState>): (r: Result<AuthState>)
    ensures r.Ok? <==> context.Some?
    ensures r.Ok? ==> r.value == context.value
    ensures r.Err? ==> r.message == "useAuth must be used within an AuthProvider"
  {
    match context
    case Some(auth) => Ok(auth)
    case None => Err("useAuth must be used within an AuthProvider")
  }
}
