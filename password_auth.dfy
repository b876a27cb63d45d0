/**
 * The full-page login form (src/components/auth/PasswordAuth.tsx). The
 * configured password is a parameter; a `true` result stands for the call
 * of `onSuccess`.
 */
module PasswordAuth {
  import opened Strings
  import opened BrowserStorage
  import opened AuthSession

  const WrongPassword: string := "密码错误，请重新输入"

  class PasswordAuthForm {
    var password: string
    var error: string
    var isLoading: bool

    constructor ()
      ensures password == "" && error == "" && !isLoading
    {
      password := "";
      error := "";
      isLoading := false;
    }

    /** The password field's change handler. */
    method SetPassword(value: string)
      modifies this
      ensures password == value && error == old(error) && isLoading == old(isLoading)
    {
      password := value;
    }

    /**
     * Submit: the previous error is cleared; the configured password grants a
     * session at `now` and reports success, any other sets the error and
     * leaves storage alone; loading is off afterwards either way.
     */
    method HandleSubmit(store: Store, now: nat, configured: string) returns (succeeded: bool)
      modifies this, store
      ensures succeeded <==> old(password) == configured
      ensures succeeded ==> store.items == Granted(old(store.items), now) && error == ""
      ensures !succeeded ==> store.items == old(store.items) && error == WrongPassword
      ensures password == old(password) && !isLoading
    {
      isLoading := true;
      error := "";
      if password == configured {
        store.SetItem(AuthKey, "true");
        store.SetItem(AuthTimeKey, NatToString(now));
        succeeded := true;
      } else {
        error := WrongPassword;
        succeeded := false;
      }
      isLoading := false;
    }
  }
}
