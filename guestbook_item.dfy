/**
 * How one guestbook entry is shown (src/app/guestbook/components/GuestbookItem.tsx).
 */
module GuestbookItem {
  import opened Wrappers
  import opened Strings
  import GuestbookForm

  /** A stored entry; identity and contact are optional. */
  datatype Entry = Entry(id: string, identity: OptString, contact: OptString, content: string, timestamp: int, createdAt: string)

  const AnonymousAvatar: string := "匿"
  const AnonymousName: string := "匿名用户"

  /** The avatar: the identity's first character, or 匿. */
  function Avatar(e: Entry): (a: string)
    ensures |a| == 1
    ensures Truthy(e.identity) ==> a == e.identity.value[..1]
    ensures !Truthy(e.identity) ==> a == AnonymousAvatar
  {
    if Truthy(e.identity) then [e.identity.value[0]] else AnonymousAvatar
  }

  /** The name line: the identity, or 匿名用户. */
  function DisplayName(e: Entry): (n: string)
    ensures n != ""
    ensures Truthy(e.identity) ==> n == e.identity.value
    ensures !Truthy(e.identity) ==> n == AnonymousName
  {
    OrElse(e.identity, AnonymousName)
  }

  /** The avatar of a named entry is the first character of the name shown. */
  lemma AvatarStartsName(e: Entry)
    requires Truthy(e.identity)
    ensures StartsWith(DisplayName(e), Avatar(e))
  {
  }

  datatype ContactKind = WeChat | Email

  /** The label rule: a contact starting with `@` is a WeChat handle, anything else an address. */
  function KindOf(contact: string): ContactKind {
    if StartsWith(contact, "@") then WeChat else Email
  }

  /** The contact line: shown only for a non-empty contact, labelled by its kind. */
  function ContactLine(e: Entry): (line: Option<string>)
    ensures line.Some? <==> Truthy(e.contact)
  {
    if !Truthy(e.contact) then None
    else
      match KindOf(e.contact.value)
      case WeChat => Some("微信: " + e.contact.value)
      case Email => Some("邮箱: " + e.contact.value)
  }

  /**
   * For a contact the form accepted, the label agrees with the form's rule:
   * a WeChat label is a handle, an email label is a blank or address-shaped text.
   */
  lemma LabelAgreesWithForm(contact: string)
    requires GuestbookForm.ContactError(contact).None?
    ensures KindOf(contact) == WeChat <==> GuestbookForm.WeChatHandle(contact)
    ensures KindOf(contact) == Email ==> IsBlank(contact) || GuestbookForm.EmailShaped(contact)
  {
    GuestbookForm.ContactAccepted(contact);
  }
}
