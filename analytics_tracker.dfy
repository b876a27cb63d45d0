/**
 * The visit tracker (src/components/AnalyticsTracker.tsx): the user-agent
 * classifiers and the record it builds for each page view.
 */
module AnalyticsTracker {
  import opened Wrappers
  import opened Strings
  import AnalyticsDataProvider

  // ---------------------------------------------------------------- device type

  datatype DeviceType = Mobile | Desktop | Tablet

  /** The name stored in the record's `deviceType` field. */
  function DeviceName(d: DeviceType): (name: string)
    ensures name in ["mobile", "desktop", "tablet"]
  {
    match d
    case Mobile => "mobile"
    case Desktop => "desktop"
    case Tablet => "tablet"
  }

  /** The alternatives of the mobile pattern. */
  const MobileTokens: seq<string> := ["Android", "webOS", "iPhone", "iPad", "iPod", "BlackBerry", "IEMobile", "Opera Mini"]

  /** `/Android|webOS|iPhone|iPad|iPod|BlackBerry|IEMobile|Opera Mini/i.test(ua)`. */
  predicate MobilePattern(ua: string) {
    exists t | t in MobileTokens :: ContainsIgnoreCase(ua, t)
  }

  /** The characters of the regex class `\w` (without the `u` flag). */
  predicate IsWordChar(c: char) {
    'a' <= c <= 'z' || 'A' <= c <= 'Z' || '0' <= c <= '9' || c == '_'
  }

  /** `\b` at position `k`: a word character on exactly one side. */
  predicate WordBoundaryAt(s: string, k: int)
    requires 0 <= k <= |s|
  {
    (k > 0 && IsWordChar(s[k - 1])) != (k < |s| && IsWordChar(s[k]))
  }

  /**
   * `(?=.*\bMobile\b)` at position `i` of the lower-cased agent: the word
   * `mobile` occurs at or after `i` with no line break in between.
   */
  predicate MobileWordAhead(l: string, i: int)
    requires 0 <= i <= |l|
  {
    exists j | i <= j <= |l| - 6 ::
      OccursAt(l, "mobile", j) && OnOneLine(l, i, j) && WordBoundaryAt(l, j) && WordBoundaryAt(l, j + 6)
  }

  /** `Android` at `i` of the lower-cased agent. */
  predicate AndroidAt(l: string, i: int) {
    OccursAt(l, "android", i)
  }

  /** `/iPad|Android(?=.*\bMobile\b)/i.test(ua)`, the tablet pattern as written. */
  predicate TabletPatternAsWritten(ua: string) {
    var l := Lower(ua);
    Contains(l, "ipad") || exists i | 0 <= i <= |l| - 7 :: AndroidAt(l, i) && MobileWordAhead(l, i + 7)
  }

  /** The device classifier as written: tablet pattern first, then mobile, else desktop. */
  function DeviceTypeAsWritten(ua: string): DeviceType {
    if TabletPatternAsWritten(ua) then Tablet
    else if MobilePattern(ua) then Mobile
    else Desktop
  }

  /**
   * The tablet pattern with the lookahead negated, `/iPad|Android(?!.*\bMobile\b)/i`:
   * an Android agent is a tablet when it does not announce itself as mobile.
   */
  predicate TabletPattern(ua: string) {
    var l := Lower(ua);
    Contains(l, "ipad") || exists i | 0 <= i <= |l| - 7 :: AndroidAt(l, i) && !MobileWordAhead(l, i + 7)
  }

  /** The device classifier with the corrected tablet pattern. */
  function DeviceTypeCorrected(ua: string): DeviceType {
    if TabletPattern(ua) then Tablet
    else if MobilePattern(ua) then Mobile
    else Desktop
  }

  lemma LowerIPad()
    ensures Lower("iPad") == "ipad"
  {
  }

  /** An iPad is a tablet under both patterns. */
  lemma IPadIsTablet(ua: string)
    requires ContainsIgnoreCase(ua, "iPad")
    ensures DeviceTypeAsWritten(ua) == Tablet && DeviceTypeCorrected(ua) == Tablet
  {
    LowerIPad();
  }

  /** As written, an Android agent with the word Mobile later on its line is a tablet. */
  lemma AndroidMobileIsTabletAsWritten(ua: string, i: int)
    requires 0 <= i <= |ua| - 7 && AndroidAt(Lower(ua), i) && MobileWordAhead(Lower(ua), i + 7)
    ensures DeviceTypeAsWritten(ua) == Tablet
  {
  }

  /** Any Android agent matches the mobile pattern. */
  lemma AndroidIsMobilePattern(ua: string, i: int)
    requires AndroidAt(Lower(ua), i)
    ensures MobilePattern(ua)
  {
    assert Lower("Android") == "android";
    assert "Android" in MobileTokens;
  }

  /**
   * With the corrected pattern an Android phone, whose every `Android` is
   * followed by the word Mobile, is mobile unless it is an iPad.
   */
  lemma AndroidPhoneIsMobile(ua: string, i: int)
    requires AndroidAt(Lower(ua), i)
    requires !ContainsIgnoreCase(ua, "iPad")
    requires forall k | 0 <= k <= |ua| - 7 && AndroidAt(Lower(ua), k) :: MobileWordAhead(Lower(ua), k + 7)
    ensures DeviceTypeCorrected(ua) == Mobile
  {
    LowerIPad();
    AndroidIsMobilePattern(ua, i);
  }

  /** With the corrected pattern an Android agent without the word Mobile is a tablet. */
  lemma AndroidWithoutMobileIsTablet(ua: string, i: int)
    requires 0 <= i <= |ua| - 7 && AndroidAt(Lower(ua), i) && !MobileWordAhead(Lower(ua), i + 7)
    ensures DeviceTypeCorrected(ua) == Tablet
  {
  }

  /** An agent matching neither pattern is a desktop. */
  lemma OtherIsDesktop(ua: string)
    requires !TabletPattern(ua) && !MobilePattern(ua)
    ensures DeviceTypeCorrected(ua) == Desktop
  {
  }

  /** The shape of a phone's agent string. */
  const PhoneAgent: string := "Android 13; Mobile"

  /** The lower-cased phone agent. */
  const PhoneAgentLower: string := "android 13; mobile"

  lemma PhoneAgentLowered()
    ensures Lower(PhoneAgent) == PhoneAgentLower
  {
    var l := Lower(PhoneAgent);
    assert |l| == |PhoneAgentLower|;
    forall k | 0 <= k < |l| ensures l[k] == PhoneAgentLower[k] {
      assert l[k] == LowerChar(PhoneAgent[k]);
    }
  }

  /** The phone agent names no iPad. */
  lemma PhoneAgentNoIPad()
    ensures !Contains(PhoneAgentLower, "ipad")
  {
    var l := PhoneAgentLower;
    forall i | 0 <= i <= |l| - 4 ensures !OccursAt(l, "ipad", i) {
      assert l[i] != 'i' || l[i + 1] != 'p';
      assert l[i..i + 4][0] == l[i] && l[i..i + 4][1] == l[i + 1];
    }
  }

  /** The phone agent's only `android` is at its start, and the word mobile follows it. */
  lemma PhoneAgentAndroid()
    ensures AndroidAt(PhoneAgentLower, 0) && MobileWordAhead(PhoneAgentLower, 7)
    ensures forall k | 0 <= k <= |PhoneAgentLower| - 7 && AndroidAt(PhoneAgentLower, k) :: k == 0
  {
    var l := PhoneAgentLower;
    assert OccursAt(l, "mobile", 12) && OnOneLine(l, 7, 12);
    assert WordBoundaryAt(l, 12) && WordBoundaryAt(l, 18);
    forall k | 0 <= k <= |l| - 7 && AndroidAt(l, k) ensures k == 0 {
      assert l[k] == "android"[0] == 'a';
    }
  }

  /** An Android phone's agent: a tablet as written, mobile once corrected. */
  lemma PhoneClassifiedAsTabletAsWritten()
    ensures DeviceTypeAsWritten(PhoneAgent) == Tablet
    ensures DeviceTypeCorrected(PhoneAgent) == Mobile
  {
    PhoneAgentLowered();
    PhoneAgentNoIPad();
    PhoneAgentAndroid();
    assert !TabletPattern(PhoneAgent);
    AndroidIsMobilePattern(PhoneAgent, 0);
  }

  // ---------------------------------------------------------------- browser and system

  /** The browser classifier: the first of Chrome, Firefox, Safari, Edge that occurs, else Other. */
  function GetBrowserInfo(ua: string): string {
    if Contains(ua, "Chrome") then "Chrome"
    else if Contains(ua, "Firefox") then "Firefox"
    else if Contains(ua, "Safari") then "Safari"
    else if Contains(ua, "Edge") then "Edge"
    else "Other"
  }

  /** The system classifier: the first of Windows, Mac, Linux, Android, iOS that occurs, else Other. */
  function GetOSInfo(ua: string): string {
    if Contains(ua, "Windows") then "Windows"
    else if Contains(ua, "Mac") then "macOS"
    else if Contains(ua, "Linux") then "Linux"
    else if Contains(ua, "Android") then "Android"
    else if Contains(ua, "iOS") then "iOS"
    else "Other"
  }

  /** A rule of an ordered classifier: a substring and the name it gives. */
  datatype Rule = Rule(pattern: string, name: string)

  const BrowserRules: seq<Rule> :=
    [Rule("Chrome", "Chrome"), Rule("Firefox", "Firefox"), Rule("Safari", "Safari"), Rule("Edge", "Edge")]

  const OSRules: seq<Rule> :=
    [Rule("Windows", "Windows"), Rule("Mac", "macOS"), Rule("Linux", "Linux"), Rule("Android", "Android"), Rule("iOS", "iOS")]

  /** The index of the first rule whose pattern occurs in `ua`, or `|rules|` when none does. */
  function FirstMatch(ua: string, rules: seq<Rule>): (k: nat)
    ensures k <= |rules|
    ensures forall j | 0 <= j < k :: !Contains(ua, rules[j].pattern)
    ensures k < |rules| ==> Contains(ua, rules[k].pattern)
  {
    if rules == [] then 0
    else if Contains(ua, rules[0].pattern) then 0
    else 1 + FirstMatch(ua, rules[1..])
  }

  /** The name of the first matching rule, or `fallback`. */
  function Classify(ua: string, rules: seq<Rule>, fallback: string): string {
    var k := FirstMatch(ua, rules);
    if k < |rules| then rules[k].name else fallback
  }

  /** The classifier tries the rules in order. */
  lemma ClassifyStep(ua: string, rules: seq<Rule>, fallback: string)
    ensures rules == [] ==> Classify(ua, rules, fallback) == fallback
    ensures rules != [] ==>
              Classify(ua, rules, fallback) ==
              if Contains(ua, rules[0].pattern) then rules[0].name else Classify(ua, rules[1..], fallback)
  {
  }

  /** The browser chain is the first-match classifier over its rules. */
  lemma BrowserIsFirstMatch(ua: string)
    ensures GetBrowserInfo(ua) == Classify(ua, BrowserRules, "Other")
  {
    var r := BrowserRules;
    ClassifyStep(ua, r, "Other");
    ClassifyStep(ua, r[1..], "Other");
    ClassifyStep(ua, r[2..], "Other");
    ClassifyStep(ua, r[3..], "Other");
    ClassifyStep(ua, r[4..], "Other");
    assert r[1..][1..] == r[2..] && r[2..][1..] == r[3..] && r[3..][1..] == r[4..] && r[4..] == [];
  }

  /** The system chain is the first-match classifier over its rules. */
  lemma OSIsFirstMatch(ua: string)
    ensures GetOSInfo(ua) == Classify(ua, OSRules, "Other")
  {
    var r := OSRules;
    ClassifyStep(ua, r, "Other");
    ClassifyStep(ua, r[1..], "Other");
    ClassifyStep(ua, r[2..], "Other");
    ClassifyStep(ua, r[3..], "Other");
    ClassifyStep(ua, r[4..], "Other");
    ClassifyStep(ua, r[5..], "Other");
    assert r[1..][1..] == r[2..] && r[2..][1..] == r[3..] && r[3..][1..] == r[4..];
    assert r[4..][1..] == r[5..] && r[5..] == [];
  }

  /** An agent naming both Chrome and Safari, as Chrome's does, is Chrome. */
  lemma ChromeBeforeSafari(ua: string)
    requires Contains(ua, "Chrome") && Contains(ua, "Safari")
    ensures GetBrowserInfo(ua) == "Chrome"
  {
  }

  /** An agent naming Mac, as Apple's phones do, is macOS unless it names Windows. */
  lemma MacBeforeIOS(ua: string)
    requires Contains(ua, "Mac") && !Contains(ua, "Windows")
    ensures GetOSInfo(ua) == "macOS"
  {
  }

  /** An agent naming both Linux and Android, as Android's do, is Linux unless it names Windows or Mac. */
  lemma LinuxBeforeAndroid(ua: string)
    requires Contains(ua, "Linux") && Contains(ua, "Android")
    requires !Contains(ua, "Windows") && !Contains(ua, "Mac")
    ensures GetOSInfo(ua) == "Linux"
  {
  }

  // ---------------------------------------------------------------- the record sent

  /** What a page passes to the tracker. */
  datatype TrackerProps = TrackerProps(kind: OptString, title: OptString, blogSlug: OptString, blogTitle: OptString)

  /** The record built for one page view. */
  datatype Payload = Payload(
    kind: string,
    path: string,
    title: string,
    userAgent: string,
    referrer: string,
    timestamp: string,
    deviceType: DeviceType,
    browser: string,
    os: string,
    ip: string,
    blogSlug: OptString,
    blogTitle: OptString)

  /** `value || null`: the value when truthy, else nothing. */
  function OrNull(o: OptString): (r: OptString)
    ensures r.Some? <==> Truthy(o)
    ensures r.Some? ==> r == o
  {
    if Truthy(o) then o else None
  }

  /**
   * The visitor's address: the lookup service's answer when it gave a
   * non-empty one, else the device fingerprint.
   */
  function ResolveIp(lookup: OptString, fingerprint: string): string {
    OrElse(lookup, fingerprint)
  }

  /**
   * The record for one page view. The path, document title, agent and referrer
   * come from the browser, `now` from the clock, the address from the lookup.
   */
  function BuildPayload(
    props: TrackerProps, pathname: OptString, documentTitle: OptString, userAgent: string,
    referrer: OptString, now: nat, ip: string): Payload
  {
    Payload(
      OrElse(props.kind, "page_view"),
      OrElse(pathname, "/"),
      OrElse(props.title, OrElse(documentTitle, "Unknown")),
      OrElse(Some(userAgent), "Unknown"),
      OrElse(referrer, ""),
      NatToString(now),
      DeviceTypeAsWritten(userAgent),
      GetBrowserInfo(userAgent),
      GetOSInfo(userAgent),
      ip,
      OrNull(props.blogSlug),
      OrNull(props.blogTitle))
  }

  /**
   * Every field of the record: unsupplied ones take their defaults (the kind
   * `page_view`, the path `/`, the title the document's or `Unknown`, the agent
   * `Unknown`, the referrer empty, no article slug or title), supplied ones are
   * kept, the time is `now` in decimal and the agent is classified with the
   * tablet pattern as written.
   */
  lemma PayloadDefaults(
    props: TrackerProps, pathname: OptString, documentTitle: OptString, userAgent: string,
    referrer: OptString, now: nat, ip: string)
    ensures var p := BuildPayload(props, pathname, documentTitle, userAgent, referrer, now, ip);
            (p.kind == if Truthy(props.kind) then props.kind.value else "page_view") &&
            (p.path == if Truthy(pathname) then pathname.value else "/") &&
            (p.title == if Truthy(props.title) then props.title.value
                        else if Truthy(documentTitle) then documentTitle.value else "Unknown") &&
            (p.userAgent == if userAgent != "" then userAgent else "Unknown") &&
            (p.referrer == if Truthy(referrer) then referrer.value else "") &&
            ParseInt(p.timestamp) == Some(now as int) &&
            (p.blogSlug == if Truthy(props.blogSlug) then props.blogSlug else None) &&
            (p.blogTitle == if Truthy(props.blogTitle) then props.blogTitle else None) &&
            p.ip == ip && p.deviceType == DeviceTypeAsWritten(userAgent) &&
            p.browser == GetBrowserInfo(userAgent) && p.os == GetOSInfo(userAgent)
  {
    ParseIntNatToString(now);
  }

  /** The record as the backend stores it: the article fields are set only when truthy. */
  function Stored(p: Payload): AnalyticsDataProvider.Visit {
    AnalyticsDataProvider.Visit(
      Some(p.path),
      Some(p.ip),
      ParseInt(p.timestamp),
      Some(DeviceName(p.deviceType)),
      Some(p.kind),
      if Truthy(p.blogSlug) then p.blogSlug else None,
      if Truthy(p.blogTitle) then p.blogTitle else None)
  }

  /**
   * A tracked view reads back as the dashboard expects: its time is `now`, its
   * path is never empty, its device is one of the three counted, and its
   * article key is the page's slug, or `unknown` when the page gave none.
   */
  lemma StoredVisitReadsBack(
    props: TrackerProps, pathname: OptString, documentTitle: OptString, userAgent: string,
    referrer: OptString, now: nat, ip: string)
    ensures var v := Stored(BuildPayload(props, pathname, documentTitle, userAgent, referrer, now, ip));
            v.timestamp == Some(now as int) &&
            Truthy(v.path) &&
            v.deviceType.value in ["mobile", "desktop", "tablet"] &&
            (Truthy(props.blogSlug) ==> AnalyticsDataProvider.SlugKey(v) == props.blogSlug.value) &&
            (!Truthy(props.blogSlug) ==> AnalyticsDataProvider.SlugKey(v) == AnalyticsDataProvider.UnknownSlug) &&
            (Truthy(props.kind) ==> v.kind == props.kind) &&
            (!Truthy(props.kind) ==> v.kind == Some("page_view"))
  {
    ParseIntNatToString(now);
  }
}
