/**
 * The login flag shared by the password forms and the two protected pages:
 * a correct password stores `blog-auth` = "true" and `blog-auth-time` = the
 * time in milliseconds; a later check accepts the session while the elapsed
 * time is within the page's window and removes both keys once it is not.
 */
module AuthSession {
  import opened Wrappers
  import opened Strings

  const AuthKey: string := "blog-auth"
  const AuthTimeKey: string := "blog-auth-time"

  const DayMs: int := 24 * 60 * 60 * 1000
  /** The editor page accepts a login for seven days. */
  const WriteWindow: int := 7 * DayMs
  /** The drafts page accepts a login for one day. */
  const DraftsWindow: int := DayMs

  /** The stored keys after a correct password at time `now`. */
  function Granted(items: map<string, string>, now: nat): map<string, string> {
    items[AuthKey := "true"][AuthTimeKey := NatToString(now)]
  }

  /** The flag is "true" and the time is a non-empty text. */
  predicate HasSession(items: map<string, string>) {
    AuthKey in items && items[AuthKey] == "true" && AuthTimeKey in items && items[AuthTimeKey] != ""
  }

  /**
   * `now - parseInt(time) > window`. A time that does not parse is `NaN`,
   * and a comparison with `NaN` is false, so such a session never expires.
   */
  predicate Expired(time: string, now: int, window: int) {
    match ParseInt(time)
    case None => false
    case Some(t) => now - t > window
  }

  /** The page's check accepts the stored session. */
  predicate Accepts(items: map<string, string>, now: int, window: int) {
    HasSession(items) && !Expired(items[AuthTimeKey], now, window)
  }

  /** The stored keys after the check: an expired session loses both keys. */
  function AfterCheck(items: map<string, string>, now: int, window: int): map<string, string> {
    if HasSession(items) && Expired(items[AuthTimeKey], now, window) then items - {AuthKey, AuthTimeKey}
    else items
  }

  /**
   * What the check does to storage: nothing when the flag or the time is
   * missing or the session is accepted; otherwise exactly the two keys go.
   */
  lemma CheckEffect(items: map<string, string>, now: int, window: int)
    ensures !HasSession(items) ==> AfterCheck(items, now, window) == items && !Accepts(items, now, window)
    ensures Accepts(items, now, window) ==> AfterCheck(items, now, window) == items
    ensures HasSession(items) && !Accepts(items, now, window) ==>
              var r := AfterCheck(items, now, window);
              AuthKey !in r && AuthTimeKey !in r &&
              forall k | k != AuthKey && k != AuthTimeKey :: (k in r <==> k in items) && (k in r ==> r[k] == items[k])
  {
  }

  /** A correct password leaves a session whose time reads back as `now`. */
  lemma GrantedStores(items: map<string, string>, now: nat)
    ensures HasSession(Granted(items, now))
    ensures ParseInt(Granted(items, now)[AuthTimeKey]) == Some(now as int)
  {
    var g := Granted(items, now);
    assert g[AuthKey] == "true" && g[AuthTimeKey] == NatToString(now);
    ParseIntNatToString(now);
  }

  /** A login is accepted by a check whose time is at most `window` later, and storage stays. */
  lemma GrantedAccepted(items: map<string, string>, now: nat, later: int, window: int)
    requires later - now <= window
    ensures Accepts(Granted(items, now), later, window)
    ensures AfterCheck(Granted(items, now), later, window) == Granted(items, now)
  {
    GrantedStores(items, now);
    var g := Granted(items, now);
    assert !Expired(g[AuthTimeKey], later, window);
  }

  /** A login checked more than `window` later is refused and both keys are removed. */
  lemma GrantedExpires(items: map<string, string>, now: nat, later: int, window: int)
    requires later - now > window
    ensures !Accepts(Granted(items, now), later, window)
    ensures AfterCheck(Granted(items, now), later, window) == items - {AuthKey, AuthTimeKey}
  {
    GrantedStores(items, now);
    var g := Granted(items, now);
    assert Expired(g[AuthTimeKey], later, window);
    var a, b := Granted(items, now) - {AuthKey, AuthTimeKey}, items - {AuthKey, AuthTimeKey};
    assert a.Keys == b.Keys;
    assert forall k | k in a :: a[k] == b[k];
  }

  /** The comparison is strict: exactly seven days after login the editor still accepts it. */
  lemma SevenDaysExactly(items: map<string, string>, now: nat)
    ensures Accepts(Granted(items, now), now + WriteWindow, WriteWindow)
    ensures !Accepts(Granted(items, now), now + WriteWindow + 1, WriteWindow)
  {
    GrantedAccepted(items, now, now + WriteWindow, WriteWindow);
    GrantedExpires(items, now, now + WriteWindow + 1, WriteWindow);
  }

  /** Whatever the drafts page accepts, the editor page accepts. */
  lemma DraftsStricterThanWrite(items: map<string, string>, now: int)
    requires Accepts(items, now, DraftsWindow)
    ensures Accepts(items, now, WriteWindow)
  {
  }

  /** Two days after login the editor page accepts the session and the drafts page refuses it. */
  lemma WindowsDisagree(items: map<string, string>, now: nat)
    ensures Accepts(Granted(items, now), now + 2 * DayMs, WriteWindow)
    ensures !Accepts(Granted(items, now), now + 2 * DayMs, DraftsWindow)
  {
    GrantedAccepted(items, now, now + 2 * DayMs, WriteWindow);
    GrantedExpires(items, now, now + 2 * DayMs, DraftsWindow);
  }

  /** A stored time that does not parse never expires. */
  lemma UnparsedTimeNeverExpires(items: map<string, string>, now: int, window: int)
    requires HasSession(items) && ParseInt(items[AuthTimeKey]) == None
    ensures Accepts(items, now, window) && AfterCheck(items, now, window) == items
  {
  }
}
