/**
 * The guestbook's entry form (src/app/guestbook/components/GuestbookForm.tsx):
 * validation of the message and the contact, per-field error clearing, and
 * the reset after a successful submit. The submit callback's outcome is a
 * boolean parameter.
 */
module GuestbookForm {
  import opened Wrappers
  import opened Strings

  datatype Field = Identity | Contact | Content

  /** The three text fields of the form. */
  datatype FormData = FormData(identity: string, contact: string, content: string)

  const EmptyData: FormData := FormData("", "", "")

  /** The errors the form can show. */
  datatype FieldError = ContentEmpty | ContentTooShort | ContentTooLong | ContactInvalid

  /** The text shown for each error. */
  function ErrorText(e: FieldError): (t: string)
    ensures t != ""
  {
    match e
    case ContentEmpty => "留言内容不能为空"
    case ContentTooShort => "留言内容至少需要10个字符"
    case ContentTooLong => "留言内容不能超过500个字符"
    case ContactInvalid => "请输入有效的邮箱地址或微信号（以@开头）"
  }

  const MinLength: nat := 10
  const MaxLength: nat := 500

  /** The message's error: blank, shorter than 10 or longer than 500 code units once trimmed. */
  function ContentError(content: string): Option<FieldError> {
    var t := Trim(content);
    if IsBlank(content) then Some(ContentEmpty)
    else if Utf16Length(t) < MinLength then Some(ContentTooShort)
    else if Utf16Length(t) > MaxLength then Some(ContentTooLong)
    else None
  }

  /** A character the class `[^\s@]` matches. */
  predicate AddressChar(c: char) {
    !IsSpace(c) && c != '@'
  }

  /**
   * `/^[^\s@]+@[^\s@]+\.[^\s@]+$/`: one `@` after a non-empty name, and a dot
   * with text on both sides after it, with no whitespace anywhere.
   */
  predicate EmailShaped(s: string) {
    exists i, j | 0 < i && i + 1 < j < |s| - 1 ::
      s[i] == '@' && s[j] == '.' && forall k | 0 <= k < |s| && k != i :: AddressChar(s[k])
  }

  /** `/^@/`: a WeChat handle. */
  predicate WeChatHandle(s: string) {
    StartsWith(s, "@")
  }

  /** The contact's error: a non-blank contact must be a handle or an address, matched untrimmed. */
  function ContactError(contact: string): Option<FieldError> {
    if !IsBlank(contact) && !EmailShaped(contact) && !WeChatHandle(contact) then Some(ContactInvalid)
    else None
  }

  /** The form's errors, one optional entry per validated field. */
  datatype Errors = Errors(content: Option<FieldError>, contact: Option<FieldError>) {
    /** No error is set, as `Object.keys(errors).length === 0` after validation. */
    predicate IsEmpty() {
      content.None? && contact.None?
    }
  }

  const NoErrors: Errors := Errors(None, None)

  /** The errors found by `validateForm`; the identity is never checked. */
  function Validate(data: FormData): Errors {
    Errors(ContentError(data.content), ContactError(data.contact))
  }

  /** The form is valid iff the message is 10 to 500 code units once trimmed and the contact is acceptable. */
  lemma ValidateAccepts(data: FormData)
    ensures Validate(data).IsEmpty() <==>
              MinLength <= Utf16Length(Trim(data.content)) <= MaxLength &&
              (IsBlank(data.contact) || WeChatHandle(data.contact) || EmailShaped(data.contact))
  {
    ContentAccepted(data.content);
    ContactAccepted(data.contact);
  }

  /** An accepted message is between 10 and 500 code units long once trimmed. */
  lemma ContentAccepted(content: string)
    ensures ContentError(content).None? <==> MinLength <= Utf16Length(Trim(content)) <= MaxLength
  {
  }

  /** A contact is accepted iff it is blank, a handle, or address-shaped. */
  lemma ContactAccepted(contact: string)
    ensures ContactError(contact).None? <==> IsBlank(contact) || WeChatHandle(contact) || EmailShaped(contact)
  {
  }

  /** An address with a leading space is refused: the pattern is matched against the untrimmed text. */
  lemma PaddedAddressRefused()
    ensures ContactError(" a@b.c").Some?
  {
    var s := " a@b.c";
    assert IsSpace(s[0]) && !AddressChar(s[0]);
    assert !WeChatHandle(s) by {
      assert s[..1] != "@";
    }
    assert !IsBlank(s) by {
      assert !IsSpace(s[1]);
    }
  }

  /** The same address without the space is accepted. */
  lemma PlainAddressAccepted()
    ensures ContactError("a@b.c").None?
  {
    var t := "a@b.c";
    assert forall k | 0 <= k < |t| && k != 1 :: AddressChar(t[k]);
    assert t[1] == '@' && t[3] == '.';
    assert EmailShaped(t);
  }

  /** Validation never looks at the identity. */
  lemma IdentityNeverChecked(data: FormData, identity: string)
    ensures Validate(data.(identity := identity)) == Validate(data)
  {
  }

  class GuestbookFormState {
    var formData: FormData
    var errors: Errors
    var isSubmitting: bool

    constructor ()
      ensures formData == EmptyData && errors == NoErrors && !isSubmitting
    {
      formData := EmptyData;
      errors := NoErrors;
      isSubmitting := false;
    }

    /** `validateForm`: the errors found replace the old ones; true iff there are none. */
    method ValidateForm() returns (ok: bool)
      modifies this`errors
      ensures errors == Validate(formData)
      ensures ok <==> errors.IsEmpty()
    {
      errors := Validate(formData);
      ok := errors.content.None? && errors.contact.None?;
    }

    /** Typing into a field updates it and clears that field's error only. */
    method HandleInputChange(field: Field, value: string)
      modifies this`formData, this`errors
      ensures formData == match field
                          case Identity => old(formData).(identity := value)
                          case Contact => old(formData).(contact := value)
                          case Content => old(formData).(content := value)
      ensures errors == match field
                        case Identity => old(errors)
                        case Contact => old(errors).(contact := None)
                        case Content => old(errors).(content := None)
    {
      match field {
        case Identity => formData := formData.(identity := value);
        case Contact => formData := formData.(contact := value);
        case Content => formData := formData.(content := value);
      }
      match field {
        case Identity =>
        case Contact =>
          if errors.contact.Some? && ErrorText(errors.contact.value) != "" {
            errors := errors.(contact := None);
          }
        case Content =>
          if errors.content.Some? && ErrorText(errors.content.value) != "" {
            errors := errors.(content := None);
          }
      }
    }

    /**
     * Submit: an invalid form only shows its errors; a valid one is handed to
     * the callback, and when that succeeds all fields and errors are cleared.
     * The result says whether the callback was called.
     */
    method HandleSubmit(callbackSucceeds: bool) returns (submitted: bool)
      modifies this`formData, this`errors, this`isSubmitting
      ensures submitted <==> Validate(old(formData)).IsEmpty()
      ensures !submitted ==> formData == old(formData) && errors == Validate(old(formData)) && isSubmitting == old(isSubmitting)
      ensures submitted && callbackSucceeds ==> formData == EmptyData && errors == NoErrors
      ensures submitted && !callbackSucceeds ==> formData == old(formData) && errors == NoErrors
      ensures submitted ==> !isSubmitting
    {
      submitted := ValidateForm();
      if submitted {
        isSubmitting := true;
        if callbackSucceeds {
          formData := EmptyData;
          errors := NoErrors;
        }
        isSubmitting := false;
      }
    }
  }
}
