/**
 * The drop-down login form of the header (src/components/auth/PasswordModal.tsx).
 * The configured password is a parameter; the results stand for the calls of
 * `onSuccess` and `onClose`.
 */
module PasswordModal {
  import opened Wrappers
  import opened Strings
  import opened BrowserStorage
  import opened AuthSession

  const WrongPassword: string := "密码错误，请重新输入"

  /** What the open modal shows. */
  datatype ModalView = ModalView(password: string, error: string, isLoading: bool)

  class PasswordModalForm {
    var password: string
    var error: string
    var isLoading: bool

    constructor ()
      ensures password == "" && error == "" && !isLoading
    {
      password := "";
      error := "";
      isLoading := false;
    }

    /** The rendered form: nothing at all while the modal is closed. */
    function View(isOpen: bool): (v: Option<ModalView>)
      reads this
      ensures v.None? <==> !isOpen
      ensures v.Some? ==> v.value.password == password && v.value.error == error
    {
      if !isOpen then None else Some(ModalView(password, error, isLoading))
    }

    /** The password field's change handler. */
    method SetPassword(value: string)
      modifies this
      ensures password == value && error == old(error) && isLoading == old(isLoading)
    {
      password := value;
    }

    /**
     * Submit: the configured password grants a session at `now`, reports
     * success, then closes and clears the field; any other password sets the
     * error and leaves storage and the field alone.
     */
    method HandleSubmit(store: Store, now: nat, configured: string) returns (succeeded: bool, closed: bool)
      modifies this, store
      ensures succeeded <==> old(password) == configured
      ensures closed == succeeded
      ensures succeeded ==> store.items == Granted(old(store.items), now) && password == "" && error == ""
      ensures !succeeded ==> store.items == old(store.items) && password == old(password) && error == WrongPassword
      ensures !isLoading
    {
      isLoading := true;
      error := "";
      if password == configured {
        store.SetItem(AuthKey, "true");
        store.SetItem(AuthTimeKey, NatToString(now));
        succeeded := true;
        closed := true;
        password := "";
      } else {
        error := WrongPassword;
        succeeded, closed := false, false;
      }
      isLoading := false;
    }

    /** Close: the field and the error are cleared before `onClose`. */
    method HandleClose() returns (closed: bool)
      modifies this
      ensures closed && password == "" && error == "" && isLoading == old(isLoading)
    {
      password := "";
      error := "";
      closed := true;
    }
  }
}
