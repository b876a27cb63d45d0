/**
 * The editor page's gate (src/app/write/page.tsx): a seven-day login check on
 * mount, the login form while unauthenticated, the editor once authenticated.
 */
module WritePage {
  import opened Wrappers
  import opened Strings
  import opened BrowserStorage
  import opened AuthSession

  /** What the page shows. */
  datatype Screen = Spinner | Login | Editor

  class WritePageState {
    var isAuthenticated: bool
    var isLoading: bool

    constructor ()
      ensures !isAuthenticated && isLoading
    {
      isAuthenticated := false;
      isLoading := true;
    }

    /**
     * The mount check: an accepted session authenticates the page, an expired
     * one loses both keys, and loading ends whatever the outcome.
     */
    method CheckAuth(store: Store, now: int)
      modifies this, store
      ensures isAuthenticated == (old(isAuthenticated) || Accepts(old(store.items), now, WriteWindow))
      ensures store.items == AfterCheck(old(store.items), now, WriteWindow)
      ensures !isLoading
    {
      var authStatus := store.GetItem(AuthKey);
      var authTime := store.GetItem(AuthTimeKey);
      if authStatus == Some("true") && Truthy(authTime) {
        var isExpired := Expired(authTime.value, now, WriteWindow);
        if !isExpired {
          isAuthenticated := true;
        } else {
          store.RemoveItem(AuthKey);
          store.RemoveItem(AuthTimeKey);
          assert store.items == old(store.items) - {AuthKey, AuthTimeKey};
        }
      }
      isLoading := false;
    }

    /** The login form's success callback. */
    method HandleAuthSuccess()
      modifies this
      ensures isAuthenticated && isLoading == old(isLoading)
    {
      isAuthenticated := true;
    }

    /** The spinner while loading, then the login form or the editor. */
    function View(): (s: Screen)
      reads this
      ensures s == Editor <==> !isLoading && isAuthenticated
      ensures s == Spinner <==> isLoading
    {
      if isLoading then Spinner
      else if !isAuthenticated then Login
      else Editor
    }
  }
}
