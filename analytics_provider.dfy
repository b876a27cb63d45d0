/**
 * The aggregation of stored visit records into the analytics dashboard's
 * figures (src/components/AnalyticsDataProvider.tsx): totals, today's count,
 * distinct visitors by IP, six page buckets, device counts, the top articles
 * and the last seven days.
 */
module AnalyticsDataProvider {
  import opened Wrappers
  import opened Strings
  import opened Lists

  /** Milliseconds in a day; days are taken as fixed windows of this length. */
  const DayMs: int := 24 * 60 * 60 * 1000
  /** How many articles the table keeps. */
  const TopArticles: nat := 10
  /** How many days the daily series covers (today and the six before it). */
  const SeriesDays: nat := 7
  const UnknownSlug: string := "unknown"
  const UnknownTitle: string := "未知标题"

  /**
   * One stored visit as the backend returns it. Every field may be absent;
   * `kind` is the record's `type`; `timestamp` is the stored text read as a
   * number (`None` for `NaN`).
   */
  datatype Visit = Visit(
    path: OptString,
    ip: OptString,
    timestamp: Option<int>,
    deviceType: OptString,
    kind: OptString,
    blogSlug: OptString,
    blogTitle: OptString)

  // ---------------------------------------------------------------- totals

  predicate SinceStart(r: Visit, start: int) {
    r.timestamp.Some? && r.timestamp.value >= start
  }

  function Since(start: int): Visit -> bool {
    (r: Visit) => SinceStart(r, start)
  }

  /** Visits whose timestamp is at or after the start of today. */
  function TodayVisits(rs: seq<Visit>, todayStart: int): (n: nat)
    ensures n <= |rs|
  {
    Count(rs, Since(todayStart))
  }

  /** The IP of one record as a set: empty when the IP is missing or empty. */
  function IpOf(r: Visit): set<string> {
    if Truthy(r.ip) then {r.ip.value} else {}
  }

  /** The distinct non-empty IPs of `rs` (`new Set(rs.map(r => r.ip).filter(Boolean))`). */
  function IpSet(rs: seq<Visit>): (ips: set<string>)
    ensures forall x :: x in ips <==> exists r | r in rs :: Truthy(r.ip) && r.ip.value == x
  {
    if rs == [] then {} else IpOf(rs[0]) + IpSet(rs[1..])
  }

  lemma {:induction false} IpSetBound(rs: seq<Visit>)
    ensures |IpSet(rs)| <= |rs|
  {
    if rs != [] {
      IpSetBound(rs[1..]);
      var a, b := IpOf(rs[0]), IpSet(rs[1..]);
      assert |a + b| <= |a| + |b| by {
        assert a + b == a + (b - a);
      }
    }
  }

  lemma {:induction false} IpSetAppend(a: seq<Visit>, b: seq<Visit>)
    ensures IpSet(a + b) == IpSet(a) + IpSet(b)
  {
    if a == [] {
      assert a + b == b;
    } else {
      assert (a + b)[1..] == a[1..] + b;
      IpSetAppend(a[1..], b);
    }
  }

  /** A filtered sub-collection of the records has a subset of their IPs. */
  lemma {:induction false} IpSetFilter(rs: seq<Visit>, p: Visit -> bool)
    ensures IpSet(Filter(rs, p)) <= IpSet(rs)
  {
    if rs != [] {
      IpSetFilter(rs[1..], p);
      IpSetAppend(if p(rs[0]) then [rs[0]] else [], Filter(rs[1..], p));
    }
  }

  lemma IpSetFilterSnoc(s: seq<Visit>, x: Visit, p: Visit -> bool)
    ensures IpSet(Filter(s + [x], p)) == IpSet(Filter(s, p)) + (if p(x) then IpOf(x) else {})
  {
    FilterAppend(s, [x], p);
    assert Filter([x], p) == (if p(x) then [x] else []) + Filter([], p);
    IpSetAppend(Filter(s, p), Filter([x], p));
    assert IpSet([x]) == IpOf(x) + IpSet([]);
  }

  /** Distinct visitors: never more than the visits. */
  function UniqueVisitors(rs: seq<Visit>): (n: nat)
    ensures n <= |rs|
  {
    IpSetBound(rs);
    |IpSet(rs)|
  }

  // ---------------------------------------------------------------- page buckets

  datatype Page = Homepage | BlogList | AnalyticsPage | Guestbook | Write | Other

  /**
   * The bucket the counting loop puts a visit in: a missing or empty path is
   * the homepage, the four named paths their own pages, and everything else,
   * article pages under `/blog/` included, is `Other`.
   */
  function PageOf(path: OptString): Page {
    var p := OrElse(path, "");
    if p == "/" || p == "" then Homepage
    else if p == "/blog" then BlogList
    else if p == "/analytics" then AnalyticsPage
    else if p == "/guestbook" then Guestbook
    else if p == "/write" then Write
    else if StartsWith(p, "/blog/") then Other
    else Other
  }

  function AtPage(page: Page): Visit -> bool {
    (r: Visit) => PageOf(r.path) == page
  }

  function VisitsTo(rs: seq<Visit>, page: Page): nat {
    Count(rs, AtPage(page))
  }

  lemma {:induction false} PagesPartitionVisits(rs: seq<Visit>)
    ensures VisitsTo(rs, Homepage) + VisitsTo(rs, BlogList) + VisitsTo(rs, AnalyticsPage) +
            VisitsTo(rs, Guestbook) + VisitsTo(rs, Write) + VisitsTo(rs, Other) == |rs|
  {
    if rs != [] {
      PagesPartitionVisits(rs[1..]);
    }
  }

  lemma VisitsToSnoc(s: seq<Visit>, x: Visit)
    ensures forall page :: VisitsTo(s + [x], page) == VisitsTo(s, page) + (if PageOf(x.path) == page then 1 else 0)
  {
    forall page ensures VisitsTo(s + [x], page) == VisitsTo(s, page) + (if PageOf(x.path) == page then 1 else 0) {
      CountSnoc(s, x, AtPage(page));
    }
  }

  /** The counting loop over the records: one counter per bucket, each visit adds one to exactly one. */
  method CountPageVisits(rs: seq<Visit>)
    returns (homepage: nat, blogList: nat, analytics: nat, guestbook: nat, write: nat, other: nat)
    ensures homepage == VisitsTo(rs, Homepage) && blogList == VisitsTo(rs, BlogList)
    ensures analytics == VisitsTo(rs, AnalyticsPage) && guestbook == VisitsTo(rs, Guestbook)
    ensures write == VisitsTo(rs, Write) && other == VisitsTo(rs, Other)
    ensures homepage + blogList + analytics + guestbook + write + other == |rs|
  {
    homepage, blogList, analytics, guestbook, write, other := 0, 0, 0, 0, 0, 0;
    var i := 0;
    while i < |rs|
      invariant 0 <= i <= |rs|
      invariant homepage == VisitsTo(rs[..i], Homepage) && blogList == VisitsTo(rs[..i], BlogList)
      invariant analytics == VisitsTo(rs[..i], AnalyticsPage) && guestbook == VisitsTo(rs[..i], Guestbook)
      invariant write == VisitsTo(rs[..i], Write) && other == VisitsTo(rs[..i], Other)
    {
      match PageOf(rs[i].path) {
        case Homepage => homepage := homepage + 1;
        case BlogList => blogList := blogList + 1;
        case AnalyticsPage => analytics := analytics + 1;
        case Guestbook => guestbook := guestbook + 1;
        case Write => write := write + 1;
        case Other => other := other + 1;
      }
      assert rs[..i + 1] == rs[..i] + [rs[i]];
      VisitsToSnoc(rs[..i], rs[i]);
      i := i + 1;
    }
    assert rs[..|rs|] == rs;
    PagesPartitionVisits(rs);
  }

  /** The distinct IPs of one bucket's visits, the bucket decided as for the visit counts. */
  function PageIps(rs: seq<Visit>, page: Page): set<string> {
    IpSet(Filter(rs, AtPage(page)))
  }

  /** A bucket's distinct visitors are at most its visits and at most all distinct visitors. */
  lemma PageUniqueBounds(rs: seq<Visit>, page: Page)
    ensures |PageIps(rs, page)| <= VisitsTo(rs, page)
    ensures |PageIps(rs, page)| <= UniqueVisitors(rs)
  {
    IpSetBound(Filter(rs, AtPage(page)));
    IpSetFilter(rs, AtPage(page));
    assert |PageIps(rs, page)| <= |IpSet(rs)| by {
      SubsetCard(PageIps(rs, page), IpSet(rs));
    }
  }

  lemma SubsetCard<T>(a: set<T>, b: set<T>)
    requires a <= b
    ensures |a| <= |b|
  {
    assert b == a + (b - a);
  }

  /**
   * The path test the source's per-page unique-visitor filters apply to the raw
   * path: a missing path matches no named page, and both a missing and an empty
   * path count as `Other`, although the visit counter files both under the homepage.
   */
  predicate InPageAsWritten(path: OptString, page: Page) {
    match page
    case Homepage => path == Some("/") || path == Some("")
    case BlogList => path == Some("/blog")
    case AnalyticsPage => path == Some("/analytics")
    case Guestbook => path == Some("/guestbook")
    case Write => path == Some("/write")
    case Other => path !in [Some("/"), Some("/blog"), Some("/analytics"), Some("/guestbook"), Some("/write")]
  }

  function AtPageAsWritten(page: Page): Visit -> bool {
    (r: Visit) => InPageAsWritten(r.path, page)
  }

  /** The per-page distinct IPs exactly as the source computes them. */
  function PageIpsAsWritten(rs: seq<Visit>, page: Page): set<string> {
    IpSet(Filter(rs, AtPageAsWritten(page)))
  }

  /** For the five named pages the source's filter still keeps the bounds. */
  lemma PageUniqueAsWrittenBounds(rs: seq<Visit>, page: Page)
    requires page != Other
    ensures |PageIpsAsWritten(rs, page)| <= VisitsTo(rs, page)
    ensures |PageIpsAsWritten(rs, page)| <= UniqueVisitors(rs)
  {
    var f := Filter(rs, AtPageAsWritten(page));
    IpSetBound(f);
    assert |f| <= VisitsTo(rs, page) by {
      AsWrittenWithinPage(page);
      CountMonotonic(rs, AtPageAsWritten(page), AtPage(page));
    }
    PageIpsAsWrittenWithinAll(rs, page);
  }

  /** Whatever path filter picks them, a bucket's distinct visitors are among all distinct visitors. */
  lemma PageIpsAsWrittenWithinAll(rs: seq<Visit>, page: Page)
    ensures |PageIpsAsWritten(rs, page)| <= UniqueVisitors(rs)
  {
    IpSetFilter(rs, AtPageAsWritten(page));
    SubsetCard(PageIpsAsWritten(rs, page), IpSet(rs));
  }

  /** A visit the source's filter gives to a named page is also counted on that page. */
  lemma AsWrittenWithinPage(page: Page)
    requires page != Other
    ensures forall r: Visit :: AtPageAsWritten(page)(r) ==> AtPage(page)(r)
  {
    forall r: Visit | InPageAsWritten(r.path, page) ensures PageOf(r.path) == page {
      assert r.path.Some?;
    }
  }

  /** One visit with an empty path: no `Other` visit, yet one `Other` visitor in the source. */
  lemma OtherUniqueExceedsVisitsAsWritten()
    ensures var rs := [Visit(Some(""), Some("10.0.0.1"), None, None, None, None, None)];
            VisitsTo(rs, Other) == 0 && |PageIpsAsWritten(rs, Other)| == 1
  {
    var r := Visit(Some(""), Some("10.0.0.1"), None, None, None, None, None);
    var rs := [r];
    assert Filter(rs, AtPage(Other)) == [] + Filter([], AtPage(Other));
    assert Filter(rs, AtPageAsWritten(Other)) == [r] + Filter([], AtPageAsWritten(Other));
    assert IpSet([r]) == IpOf(r) + IpSet([]);
  }

  // ---------------------------------------------------------------- devices

  function WithDevice(device: string): Visit -> bool {
    (r: Visit) => r.deviceType == Some(device)
  }

  function Unclassified(): Visit -> bool {
    (r: Visit) => r.deviceType !in [Some("mobile"), Some("desktop"), Some("tablet")]
  }

  function DeviceCount(rs: seq<Visit>, device: string): nat {
    Count(rs, WithDevice(device))
  }

  /** Each visit is in at most one device count; those with another device type are in none. */
  lemma {:induction false} DevicesPartition(rs: seq<Visit>)
    ensures DeviceCount(rs, "mobile") + DeviceCount(rs, "desktop") + DeviceCount(rs, "tablet") +
            Count(rs, Unclassified()) == |rs|
  {
    if rs != [] {
      DevicesPartition(rs[1..]);
    }
  }

  lemma DeviceCountSnoc(s: seq<Visit>, x: Visit, d: string)
    ensures DeviceCount(s + [x], d) == DeviceCount(s, d) + (if x.deviceType == Some(d) then 1 else 0)
  {
    CountSnoc(s, x, WithDevice(d));
  }

  /** The device loop: three independent tests per record. */
  method CountDevices(rs: seq<Visit>) returns (mobile: nat, desktop: nat, tablet: nat)
    ensures mobile == DeviceCount(rs, "mobile")
    ensures desktop == DeviceCount(rs, "desktop")
    ensures tablet == DeviceCount(rs, "tablet")
    ensures mobile + desktop + tablet == |rs| - Count(rs, Unclassified())
  {
    mobile, desktop, tablet := 0, 0, 0;
    var i := 0;
    while i < |rs|
      invariant 0 <= i <= |rs|
      invariant mobile == DeviceCount(rs[..i], "mobile")
      invariant desktop == DeviceCount(rs[..i], "desktop")
      invariant tablet == DeviceCount(rs[..i], "tablet")
    {
      var r := rs[i];
      assert rs[..i + 1] == rs[..i] + [r];
      DeviceCountSnoc(rs[..i], r, "mobile");
      DeviceCountSnoc(rs[..i], r, "desktop");
      DeviceCountSnoc(rs[..i], r, "tablet");
      if r.deviceType == Some("mobile") { mobile := mobile + 1; }
      if r.deviceType == Some("desktop") { desktop := desktop + 1; }
      if r.deviceType == Some("tablet") { tablet := tablet + 1; }
      i := i + 1;
    }
    assert rs[..|rs|] == rs;
    DevicesPartition(rs);
  }

  // ---------------------------------------------------------------- articles

  predicate IsBlogView(r: Visit) {
    r.kind == Some("blog_view")
  }

  function BlogView(): Visit -> bool {
    (r: Visit) => IsBlogView(r)
  }

  /** The table key of an article view: its slug, or `unknown` when the slug is missing or empty. */
  function SlugKey(r: Visit): (k: string)
    ensures k != []
    ensures Truthy(r.blogSlug) ==> k == r.blogSlug.value
  {
    OrElse(r.blogSlug, UnknownSlug)
  }

  /** The title an entry takes from a view: its title, or the placeholder when missing or empty. */
  function TitleOf(r: Visit): string {
    OrElse(r.blogTitle, UnknownTitle)
  }

  function HasKey(k: string): Visit -> bool {
    (r: Visit) => SlugKey(r) == k
  }

  /**
   * The keys of `rs` in the order they first occur, which is the iteration
   * order of the JavaScript `Map` the views are tallied in.
   */
  function FirstSeen(rs: seq<Visit>): seq<string> {
    if rs == [] then []
    else
      var ks := FirstSeen(rs[..|rs| - 1]);
      var k := SlugKey(rs[|rs| - 1]);
      if k in ks then ks else ks + [k]
  }

  lemma FirstSeenSnoc(s: seq<Visit>, x: Visit)
    ensures FirstSeen(s + [x]) == if SlugKey(x) in FirstSeen(s) then FirstSeen(s) else FirstSeen(s) + [SlugKey(x)]
  {
    assert (s + [x])[..|s|] == s;
  }

  /** The keys listed are exactly those that occur. */
  lemma {:induction false} FirstSeenKeys(rs: seq<Visit>)
    ensures forall k :: k in FirstSeen(rs) <==> Count(rs, HasKey(k)) > 0
  {
    if rs != [] {
      var s, x := rs[..|rs| - 1], rs[|rs| - 1];
      assert rs == s + [x];
      FirstSeenKeys(s);
      FirstSeenSnoc(s, x);
      forall k ensures k in FirstSeen(rs) <==> Count(rs, HasKey(k)) > 0 {
        CountSnoc(s, x, HasKey(k));
      }
    }
  }

  /** Each key is listed once. */
  lemma {:induction false} FirstSeenDistinct(rs: seq<Visit>)
    ensures Distinct(FirstSeen(rs))
  {
    if rs != [] {
      var s, x := rs[..|rs| - 1], rs[|rs| - 1];
      assert rs == s + [x];
      FirstSeenDistinct(s);
      FirstSeenSnoc(s, x);
      var ks := FirstSeen(s);
      if SlugKey(x) !in ks {
        var r := ks + [SlugKey(x)];
        forall i, j | 0 <= i < j < |r| ensures r[i] != r[j] {
          if j == |ks| {
            assert r[i] == ks[i];
          } else {
            assert r[i] == ks[i] && r[j] == ks[j];
          }
        }
      }
    }
  }

  /** The title of the first view with key `k`: the one the table entry keeps. */
  function FirstTitle(rs: seq<Visit>, k: string): string
    requires Count(rs, HasKey(k)) > 0
  {
    if SlugKey(rs[0]) == k then TitleOf(rs[0]) else FirstTitle(rs[1..], k)
  }

  lemma {:induction false} FirstTitleSnoc(s: seq<Visit>, x: Visit, k: string)
    requires Count(s, HasKey(k)) > 0
    ensures Count(s + [x], HasKey(k)) > 0 && FirstTitle(s + [x], k) == FirstTitle(s, k)
  {
    CountSnoc(s, x, HasKey(k));
    assert (s + [x])[0] == s[0];
    if SlugKey(s[0]) != k {
      assert (s + [x])[1..] == s[1..] + [x];
      FirstTitleSnoc(s[1..], x, k);
    }
  }

  lemma {:induction false} FirstTitleNew(s: seq<Visit>, x: Visit)
    requires Count(s, HasKey(SlugKey(x))) == 0
    ensures Count(s + [x], HasKey(SlugKey(x))) == 1 && FirstTitle(s + [x], SlugKey(x)) == TitleOf(x)
  {
    CountSnoc(s, x, HasKey(SlugKey(x)));
    if s != [] {
      assert (s + [x])[0] == s[0] && (s + [x])[1..] == s[1..] + [x];
      FirstTitleNew(s[1..], x);
    }
  }

  /** One entry of the article table while it is being filled. */
  datatype BlogTally = BlogTally(title: string, slug: string, views: nat, ips: set<string>)

  /** The entry for key `k` once the views `rs` have been tallied. */
  function TallyOf(rs: seq<Visit>, k: string): BlogTally
    requires Count(rs, HasKey(k)) > 0
  {
    BlogTally(FirstTitle(rs, k), k, Count(rs, HasKey(k)), IpSet(Filter(rs, HasKey(k))))
  }

  /** One more view leaves the entries of other keys as they were. */
  lemma TallySnocOther(s: seq<Visit>, x: Visit, k: string)
    requires SlugKey(x) != k
    ensures Count(s + [x], HasKey(k)) == Count(s, HasKey(k))
    ensures Count(s, HasKey(k)) > 0 ==> TallyOf(s + [x], k) == TallyOf(s, k)
  {
    CountSnoc(s, x, HasKey(k));
    IpSetFilterSnoc(s, x, HasKey(k));
    if Count(s, HasKey(k)) > 0 {
      FirstTitleSnoc(s, x, k);
    }
  }

  /** One more view of a key already present: one view more, its IP added. */
  lemma TallySnocSeen(s: seq<Visit>, x: Visit)
    requires Count(s, HasKey(SlugKey(x))) > 0
    ensures var k := SlugKey(x);
            Count(s + [x], HasKey(k)) == Count(s, HasKey(k)) + 1 &&
            TallyOf(s + [x], k) == TallyOf(s, k).(views := TallyOf(s, k).views + 1, ips := TallyOf(s, k).ips + IpOf(x))
  {
    var k := SlugKey(x);
    CountSnoc(s, x, HasKey(k));
    IpSetFilterSnoc(s, x, HasKey(k));
    FirstTitleSnoc(s, x, k);
  }

  /** The first view of a key: a new entry with its title, one view and its IP. */
  lemma TallySnocNew(s: seq<Visit>, x: Visit)
    requires Count(s, HasKey(SlugKey(x))) == 0
    ensures var k := SlugKey(x);
            Count(s + [x], HasKey(k)) == 1 && TallyOf(s + [x], k) == BlogTally(TitleOf(x), k, 1, IpOf(x))
  {
    var k := SlugKey(x);
    FirstTitleNew(s, x);
    IpSetFilterSnoc(s, x, HasKey(k));
    assert Filter(s, HasKey(k)) == [];
  }

  /** A table holding exactly the entries of the views `s`. */
  ghost predicate TallyTable(s: seq<Visit>, table: map<string, BlogTally>) {
    forall k :: EntryRight(s, table, k)
  }

  /** The entry a view updates: the one under its key, or a fresh one with no views. */
  function EntryFor(table: map<string, BlogTally>, r: Visit): BlogTally {
    if SlugKey(r) in table then table[SlugKey(r)] else BlogTally(TitleOf(r), SlugKey(r), 0, {})
  }

  /** One pass of the tally loop's body keeps the table exact. */
  lemma AddViewTally(s: seq<Visit>, table: map<string, BlogTally>, r: Visit, t: BlogTally)
    requires TallyTable(s, table) && t == EntryFor(table, r)
    ensures TallyTable(s + [r], table[SlugKey(r) := t.(views := t.views + 1, ips := t.ips + IpOf(r))])
  {
    var t' := table[SlugKey(r) := t.(views := t.views + 1, ips := t.ips + IpOf(r))];
    forall k ensures EntryRight(s + [r], t', k) {
      AddViewKey(s, table, r, t, k);
    }
  }

  /** The table entry of key `k` after one pass, given it was right before. */
  ghost predicate EntryRight(s: seq<Visit>, table: map<string, BlogTally>, k: string) {
    (k in table <==> Count(s, HasKey(k)) > 0) &&
    (k in table ==> Count(s, HasKey(k)) > 0 && table[k] == TallyOf(s, k))
  }

  lemma AddViewKey(s: seq<Visit>, table: map<string, BlogTally>, r: Visit, t: BlogTally, k: string)
    requires TallyTable(s, table) && t == EntryFor(table, r)
    ensures EntryRight(s + [r], table[SlugKey(r) := t.(views := t.views + 1, ips := t.ips + IpOf(r))], k)
  {
    assert EntryRight(s, table, k);
    if k != SlugKey(r) {
      AddViewOther(s, table, r, t, k);
    } else {
      AddViewOwn(s, table, r, t);
    }
  }

  lemma AddViewOther(s: seq<Visit>, table: map<string, BlogTally>, r: Visit, t: BlogTally, k: string)
    requires EntryRight(s, table, k) && k != SlugKey(r)
    ensures EntryRight(s + [r], table[SlugKey(r) := t.(views := t.views + 1, ips := t.ips + IpOf(r))], k)
  {
    TallySnocOther(s, r, k);
  }

  lemma AddViewOwn(s: seq<Visit>, table: map<string, BlogTally>, r: Visit, t: BlogTally)
    requires EntryRight(s, table, SlugKey(r)) && t == EntryFor(table, r)
    ensures EntryRight(s + [r], table[SlugKey(r) := t.(views := t.views + 1, ips := t.ips + IpOf(r))], SlugKey(r))
  {
    if SlugKey(r) in table {
      TallySnocSeen(s, r);
    } else {
      TallySnocNew(s, r);
      assert {} + IpOf(r) == IpOf(r);
    }
  }

  /**
   * The tally loop over the article views: a map from key to entry plus the
   * keys in insertion order. Each entry holds the first view's title, the
   * number of views with that key and their distinct IPs.
   */
  method TallyBlogViews(bv: seq<Visit>) returns (order: seq<string>, table: map<string, BlogTally>)
    ensures order == FirstSeen(bv)
    ensures TallyTable(bv, table)
  {
    order, table := [], map[];
    var i := 0;
    while i < |bv|
      invariant 0 <= i <= |bv|
      invariant order == FirstSeen(bv[..i])
      invariant TallyTable(bv[..i], table)
    {
      var r := bv[i];
      var key := SlugKey(r);
      ghost var s, before := bv[..i], table;
      assert bv[..i + 1] == s + [r];
      assert key in table <==> key in order by {
        FirstSeenKeys(s);
        assert EntryRight(s, table, key);
      }
      FirstSeenSnoc(s, r);
      var t := if key in table then table[key] else BlogTally(TitleOf(r), key, 0, {});
      if key !in table {
        order := order + [key];
      }
      table := table[key := t.(views := t.views + 1, ips := t.ips + IpOf(r))];
      AddViewTally(s, before, r, t);
      assert TallyTable(bv[..i + 1], table);
      assert order == FirstSeen(bv[..i + 1]);
      i := i + 1;
    }
    assert bv[..|bv|] == bv;
  }

  /** One row of the article table. */
  datatype BlogStat = BlogStat(
    title: string, slug: string, views: nat, uniqueViews: nat, todayViews: nat, todayUniqueViews: nat)

  function Views(): BlogStat -> int {
    (b: BlogStat) => b.views
  }

  /** The article views among the records. */
  function ArticleViews(records: seq<Visit>): seq<Visit> {
    Filter(records, BlogView())
  }

  /** The row for key `k` before today's figures are filled in. */
  function RowOf(bv: seq<Visit>, k: string): BlogStat
    requires Count(bv, HasKey(k)) > 0
  {
    BlogStat(FirstTitle(bv, k), k, Count(bv, HasKey(k)), |IpSet(Filter(bv, HasKey(k)))|, 0, 0)
  }

  /** The rows of all keys, in the table's insertion order. */
  function Rows(bv: seq<Visit>): (rows: seq<BlogStat>)
    ensures |rows| == |FirstSeen(bv)|
    ensures forall j | 0 <= j < |rows| :: Count(bv, HasKey(rows[j].slug)) > 0 && rows[j] == RowOf(bv, rows[j].slug)
  {
    FirstSeenKeys(bv);
    var ks := FirstSeen(bv);
    seq(|ks|, j requires 0 <= j < |ks| => RowOf(bv, ks[j]))
  }

  lemma RowsDistinct(bv: seq<Visit>)
    ensures Distinct(Rows(bv))
    ensures forall k | Count(bv, HasKey(k)) > 0 :: RowOf(bv, k) in Rows(bv)
  {
    FirstSeenKeys(bv);
    FirstSeenDistinct(bv);
    var ks, rows := FirstSeen(bv), Rows(bv);
    forall i, j | 0 <= i < j < |rows| ensures rows[i] != rows[j] {
      assert rows[i].slug == ks[i] && rows[j].slug == ks[j];
    }
    forall k | Count(bv, HasKey(k)) > 0 ensures RowOf(bv, k) in rows {
      var j :| 0 <= j < |ks| && ks[j] == k;
      assert rows[j] == RowOf(bv, k);
    }
  }

  /** The first rows by views. */
  function Top(rows: seq<BlogStat>): seq<BlogStat> {
    Take(SortDesc(rows, Views()), TopArticles)
  }

  /** The first rows by views are sorted, and there are ten of them unless there are fewer rows. */
  lemma TopSorted(rows: seq<BlogStat>)
    ensures SortedDesc(Top(rows), Views())
    ensures |Top(rows)| == if |rows| <= TopArticles then |rows| else TopArticles
  {
    var sorted := SortDesc(rows, Views());
    assert forall i | 0 <= i < |Top(rows)| :: Top(rows)[i] == sorted[i];
  }

  /** The first rows by views are rows, none twice. */
  lemma TopMembers(rows: seq<BlogStat>)
    requires Distinct(rows)
    ensures Distinct(Top(rows))
    ensures forall i | 0 <= i < |Top(rows)| :: Top(rows)[i] in rows
  {
    var sorted, top := SortDesc(rows, Views()), Top(rows);
    SortedMembers(rows, Views());
    PermutationDistinct(rows, sorted);
    forall i | 0 <= i < |top| ensures top[i] in rows {
      assert top[i] == sorted[i];
    }
    forall i, j | 0 <= i < j < |top| ensures top[i] != top[j] {
      assert top[i] == sorted[i] && top[j] == sorted[j];
    }
  }

  /** A row left out has no more views than the last row kept, and then ten rows are kept. */
  lemma TopLeftOut(rows: seq<BlogStat>, x: BlogStat)
    requires x in rows && x !in Top(rows)
    ensures |Top(rows)| == TopArticles && x.views <= Top(rows)[TopArticles - 1].views
  {
    var sorted, top := SortDesc(rows, Views()), Top(rows);
    SortedMembers(rows, Views());
    var m :| 0 <= m < |sorted| && sorted[m] == x;
    assert forall i | 0 <= i < |top| :: top[i] == sorted[i];
    assert m >= |top|;
    assert top[TopArticles - 1] == sorted[TopArticles - 1];
  }

  /** A record counted among today's views of the row `slug`: its raw slug must equal the row's. */
  predicate IsTodayViewOf(r: Visit, todayStart: int, slug: string) {
    SinceStart(r, todayStart) && IsBlogView(r) && r.blogSlug == Some(slug)
  }

  function TodayViewOf(todayStart: int, slug: string): Visit -> bool {
    (r: Visit) => IsTodayViewOf(r, todayStart, slug)
  }

  /** A row with today's views of its article and their distinct IPs filled in. */
  function WithToday(b: BlogStat, records: seq<Visit>, todayStart: int): BlogStat {
    var today := Filter(records, TodayViewOf(todayStart, b.slug));
    b.(todayViews := |today|, todayUniqueViews := |IpSet(today)|)
  }

  function KeyedView(k: string): Visit -> bool {
    (r: Visit) => IsBlogView(r) && SlugKey(r) == k
  }

  /** Every key that occurs is some view's key, and so not empty. */
  lemma {:induction false} KeyNonEmpty(rs: seq<Visit>, k: string)
    requires Count(rs, HasKey(k)) > 0
    ensures k != []
  {
    if SlugKey(rs[0]) != k {
      KeyNonEmpty(rs[1..], k);
    }
  }

  /** A row's figures nest: distinct viewers within views, today's views within all, today's viewers within today's views. */
  lemma RowBounds(records: seq<Visit>, todayStart: int, k: string)
    requires Count(ArticleViews(records), HasKey(k)) > 0
    ensures var b := WithToday(RowOf(ArticleViews(records), k), records, todayStart);
            b.uniqueViews <= b.views && b.todayViews <= b.views && b.todayUniqueViews <= b.todayViews
  {
    var bv := ArticleViews(records);
    IpSetBound(Filter(bv, HasKey(k)));
    IpSetBound(Filter(records, TodayViewOf(todayStart, k)));
    KeyNonEmpty(bv, k);
    CountMonotonic(records, TodayViewOf(todayStart, k), KeyedView(k));
    CountFilter(records, BlogView(), HasKey(k), KeyedView(k));
  }

  /** Rows ordered by views, the first ten kept, today's figures added. */
  function RankRows(rows: seq<BlogStat>, records: seq<Visit>, todayStart: int): seq<BlogStat> {
    var top := Top(rows);
    seq(|top|, j requires 0 <= j < |top| => WithToday(top[j], records, todayStart))
  }

  /** The article table the dashboard shows. */
  function BlogTable(records: seq<Visit>, todayStart: int): seq<BlogStat> {
    RankRows(Rows(ArticleViews(records)), records, todayStart)
  }

  /** Every row of the table is the row of its own key, with figures that nest. */
  lemma BlogTableRows(records: seq<Visit>, todayStart: int)
    ensures var stats := BlogTable(records, todayStart);
            forall i | 0 <= i < |stats| ::
              Count(ArticleViews(records), HasKey(stats[i].slug)) > 0 &&
              stats[i] == WithToday(RowOf(ArticleViews(records), stats[i].slug), records, todayStart) &&
              stats[i].uniqueViews <= stats[i].views && stats[i].todayViews <= stats[i].views &&
              stats[i].todayUniqueViews <= stats[i].todayViews
  {
    var bv, stats := ArticleViews(records), BlogTable(records, todayStart);
    var rows := Rows(bv);
    RowsDistinct(bv);
    TopMembers(rows);
    var top := Top(rows);
    forall i | 0 <= i < |stats|
      ensures Count(bv, HasKey(stats[i].slug)) > 0 && stats[i] == WithToday(RowOf(bv, stats[i].slug), records, todayStart)
      ensures stats[i].uniqueViews <= stats[i].views && stats[i].todayViews <= stats[i].views &&
              stats[i].todayUniqueViews <= stats[i].todayViews
    {
      assert top[i] in rows;
      RowBounds(records, todayStart, stats[i].slug);
    }
  }

  /** No article appears twice in the table. */
  lemma BlogTableDistinct(records: seq<Visit>, todayStart: int)
    ensures var stats := BlogTable(records, todayStart);
            forall i, j | 0 <= i < j < |stats| :: stats[i].slug != stats[j].slug
  {
    var bv, stats := ArticleViews(records), BlogTable(records, todayStart);
    var rows := Rows(bv);
    RowsDistinct(bv);
    TopMembers(rows);
    var top := Top(rows);
    forall i, j | 0 <= i < j < |stats| ensures stats[i].slug != stats[j].slug {
      assert top[i] in rows && top[j] in rows;
    }
  }

  lemma RankRowsSorted(rows: seq<BlogStat>, records: seq<Visit>, todayStart: int)
    ensures var ranked := RankRows(rows, records, todayStart);
            |ranked| == (if |rows| <= TopArticles then |rows| else TopArticles) && SortedDesc(ranked, Views())
  {
    TopSorted(rows);
    var top := Top(rows);
    var ranked := RankRows(rows, records, todayStart);
    assert forall i | 0 <= i < |ranked| :: ranked[i].views == top[i].views;
  }

  lemma RankRowsTop(rows: seq<BlogStat>, records: seq<Visit>, todayStart: int, x: BlogStat)
    requires x in rows
    requires forall i | 0 <= i < |RankRows(rows, records, todayStart)| :: RankRows(rows, records, todayStart)[i].slug != x.slug
    ensures |RankRows(rows, records, todayStart)| == TopArticles
    ensures x.views <= RankRows(rows, records, todayStart)[TopArticles - 1].views
  {
    var top := Top(rows);
    var ranked := RankRows(rows, records, todayStart);
    assert forall m | 0 <= m < |top| :: top[m].slug == ranked[m].slug != x.slug;
    assert x !in top;
    TopLeftOut(rows, x);
    assert ranked[TopArticles - 1].views == top[TopArticles - 1].views;
  }

  /** The table holds the ten most viewed articles, or all when there are fewer, from most views to least. */
  lemma BlogTableSorted(records: seq<Visit>, todayStart: int)
    ensures var stats, n := BlogTable(records, todayStart), |FirstSeen(ArticleViews(records))|;
            |stats| == (if n <= TopArticles then n else TopArticles) && SortedDesc(stats, Views())
  {
    RankRowsSorted(Rows(ArticleViews(records)), records, todayStart);
  }

  /** An article left out of the table has no more views than its last row. */
  lemma BlogTableTop(records: seq<Visit>, todayStart: int, k: string)
    requires Count(ArticleViews(records), HasKey(k)) > 0
    requires forall i | 0 <= i < |BlogTable(records, todayStart)| :: BlogTable(records, todayStart)[i].slug != k
    ensures |BlogTable(records, todayStart)| == TopArticles
    ensures Count(ArticleViews(records), HasKey(k)) <= BlogTable(records, todayStart)[TopArticles - 1].views
  {
    var bv := ArticleViews(records);
    var rows, x := Rows(bv), RowOf(bv, k);
    RowsDistinct(bv);
    assert x in rows && x.slug == k && x.views == Count(bv, HasKey(k));
    assert BlogTable(records, todayStart) == RankRows(rows, records, todayStart);
    RankRowsTop(rows, records, todayStart, x);
  }

  /**
   * The article computation: the views tallied by key in a map, the entries
   * listed in insertion order, ordered by views (ties keep that order), the
   * first ten kept and today's figures added to each.
   */
  method ComputeBlogStats(records: seq<Visit>, todayStart: int) returns (stats: seq<BlogStat>)
    ensures stats == BlogTable(records, todayStart)
  {
    var bv := Filter(records, BlogView());
    var order, table := TallyBlogViews(bv);
    FirstSeenKeys(bv);
    forall j | 0 <= j < |order| ensures order[j] in table && table[order[j]] == TallyOf(bv, order[j]) {
      assert EntryRight(bv, table, order[j]);
    }
    var rows := seq(|order|, j requires 0 <= j < |order| =>
      var t := table[order[j]]; BlogStat(t.title, t.slug, t.views, |t.ips|, 0, 0));
    assert rows == Rows(bv);
    var top := Take(SortDesc(rows, Views()), TopArticles);
    stats := seq(|top|, j requires 0 <= j < |top| => WithToday(top[j], records, todayStart));
  }

  // ---------------------------------------------------------------- the last seven days

  /** One day of the series; the day is identified by its first millisecond. */
  datatype DayStat = DayStat(dayStart: int, visits: nat, uniqueVisitors: nat)

  /** A visit whose timestamp lies in the day starting at `dayStart`, both ends included. */
  predicate InDay(r: Visit, dayStart: int) {
    r.timestamp.Some? && dayStart <= r.timestamp.value <= dayStart + DayMs - 1
  }

  function OnDay(dayStart: int): Visit -> bool {
    (r: Visit) => InDay(r, dayStart)
  }

  /** The figures of the day starting at `dayStart`. */
  function DayOf(records: seq<Visit>, dayStart: int): (d: DayStat)
    ensures d.dayStart == dayStart && d.uniqueVisitors <= d.visits
  {
    var dayRecords := Filter(records, OnDay(dayStart));
    IpSetBound(dayRecords);
    DayStat(dayStart, |dayRecords|, |IpSet(dayRecords)|)
  }

  /** The first millisecond of the day `i` days before today. */
  function DayStart(todayStart: int, i: int): int {
    todayStart - i * DayMs
  }

  lemma DayStartStep(todayStart: int, i: int)
    ensures DayStart(todayStart, i - 1) == DayStart(todayStart, i) + DayMs
  {
  }

  /** The series loop: today first, then each of the six days before it. */
  method DailyStats(records: seq<Visit>, todayStart: int) returns (days: seq<DayStat>)
    ensures days == Series(records, todayStart, SeriesDays)
  {
    days := [];
    var i := 0;
    while i <= SeriesDays - 1
      invariant 0 <= i <= SeriesDays
      invariant days == Series(records, todayStart, i)
    {
      var startOfDay := todayStart - i * DayMs;
      var endOfDay := startOfDay + DayMs - 1;
      var dayRecords := Filter(records, (r: Visit) => r.timestamp.Some? && r.timestamp.value >= startOfDay && r.timestamp.value <= endOfDay);
      assert dayRecords == Filter(records, OnDay(DayStart(todayStart, i))) by {
        FilterSame(records, (r: Visit) => r.timestamp.Some? && r.timestamp.value >= startOfDay && r.timestamp.value <= endOfDay, OnDay(DayStart(todayStart, i)));
      }
      days := days + [DayStat(startOfDay, |dayRecords|, |IpSet(dayRecords)|)];
      SeriesSnoc(records, todayStart, i);
      i := i + 1;
    }
  }

  /** The series of the last `n` days, newest first. */
  function Series(records: seq<Visit>, todayStart: int, n: nat): (days: seq<DayStat>)
    ensures |days| == n
    ensures forall i | 0 <= i < n :: days[i] == DayOf(records, DayStart(todayStart, i))
  {
    seq(n, i requires 0 <= i < n => DayOf(records, DayStart(todayStart, i)))
  }

  lemma SeriesSnoc(records: seq<Visit>, todayStart: int, n: nat)
    ensures Series(records, todayStart, n + 1) == Series(records, todayStart, n) + [DayOf(records, DayStart(todayStart, n))]
  {
  }

  /** Visits whose timestamp lies in the last `n` days, today included. */
  predicate InLastDays(r: Visit, todayStart: int, n: nat) {
    r.timestamp.Some? && DayStart(todayStart, n - 1) <= r.timestamp.value <= todayStart + DayMs - 1
  }

  function LastDays(todayStart: int, n: nat): Visit -> bool {
    (r: Visit) => InLastDays(r, todayStart, n)
  }

  /** The last `n` days are the last `n - 1` and the day before them. */
  lemma WindowSplit(r: Visit, todayStart: int, n: nat)
    requires n >= 1
    ensures !(InLastDays(r, todayStart, n - 1) && InDay(r, DayStart(todayStart, n - 1)))
    ensures InLastDays(r, todayStart, n) <==> InLastDays(r, todayStart, n - 1) || InDay(r, DayStart(todayStart, n - 1))
  {
    DayStartStep(todayStart, n - 1);
  }

  /** The visits of a series, added up. */
  function SumVisits(days: seq<DayStat>): nat {
    if days == [] then 0 else SumVisits(days[..|days| - 1]) + days[|days| - 1].visits
  }

  /** The days are disjoint windows: together they count each visit of the last `n` days once. */
  lemma {:induction false} SeriesCoversLastDays(records: seq<Visit>, todayStart: int, n: nat)
    ensures SumVisits(Series(records, todayStart, n)) == Count(records, LastDays(todayStart, n))
  {
    if n == 0 {
      DayStartStep(todayStart, 0);
      CountNone(records, LastDays(todayStart, 0));
    } else {
      SeriesCoversLastDays(records, todayStart, n - 1);
      SumVisitsStep(records, todayStart, n);
      LastDaysStep(records, todayStart, n);
    }
  }

  /** Adding one older day to the series adds that day's visits. */
  lemma SumVisitsStep(records: seq<Visit>, todayStart: int, n: nat)
    requires n >= 1
    ensures SumVisits(Series(records, todayStart, n)) ==
            SumVisits(Series(records, todayStart, n - 1)) + Count(records, OnDay(DayStart(todayStart, n - 1)))
  {
    SeriesSnoc(records, todayStart, n - 1);
    var days := Series(records, todayStart, n);
    assert days[..n - 1] == Series(records, todayStart, n - 1);
  }

  /** The visits of the last `n` days are those of the last `n - 1` plus those of the day before them. */
  lemma LastDaysStep(records: seq<Visit>, todayStart: int, n: nat)
    requires n >= 1
    ensures Count(records, LastDays(todayStart, n)) ==
            Count(records, LastDays(todayStart, n - 1)) + Count(records, OnDay(DayStart(todayStart, n - 1)))
  {
    var p, q, pq := LastDays(todayStart, n - 1), OnDay(DayStart(todayStart, n - 1)), LastDays(todayStart, n);
    forall x ensures !(p(x) && q(x)) && (pq(x) <==> p(x) || q(x)) {
      WindowSplit(x, todayStart, n);
    }
    CountDisjoint(records, p, q, pq);
  }

  /** The series never counts more visits than there are records. */
  lemma SeriesBound(records: seq<Visit>, todayStart: int)
    ensures SumVisits(Series(records, todayStart, SeriesDays)) <= |records|
  {
    SeriesCoversLastDays(records, todayStart, SeriesDays);
  }

  /** Today's entry of the series counts only visits that the today figure counts too. */
  lemma FirstDayWithinToday(records: seq<Visit>, todayStart: int)
    ensures DayOf(records, todayStart).visits <= TodayVisits(records, todayStart)
  {
    CountMonotonic(records, OnDay(todayStart), Since(todayStart));
  }
  // ---------------------------------------------------------------- the summary

  datatype PageStat = PageStat(visits: nat, uniqueVisitors: nat)

  datatype PageStats = PageStats(
    homepage: PageStat, blogList: PageStat, analytics: PageStat,
    guestbook: PageStat, write: PageStat, other: PageStat)

  datatype DeviceStats = DeviceStats(mobile: nat, desktop: nat, tablet: nat)

  /** Everything the dashboard shows. */
  datatype AnalyticsData = AnalyticsData(
    totalVisits: nat,
    uniqueVisitors: nat,
    todayVisits: nat,
    pageStats: PageStats,
    deviceStats: DeviceStats,
    blogStats: seq<BlogStat>,
    dailyStats: seq<DayStat>)

  /** The figures shown before any data has arrived, and kept when fetching fails. */
  const InitialAnalytics: AnalyticsData :=
    AnalyticsData(0, 0, 0,
      PageStats(PageStat(0, 0), PageStat(0, 0), PageStat(0, 0), PageStat(0, 0), PageStat(0, 0), PageStat(0, 0)),
      DeviceStats(0, 0, 0), [], [])

  /** A bucket's figures: its visits as the counter files them, its distinct IPs as the source's path filters pick them. */
  function PageStatOf(records: seq<Visit>, page: Page): PageStat {
    PageStat(VisitsTo(records, page), |PageIpsAsWritten(records, page)|)
  }

  /** The summary of the fetched records. */
  function Summary(records: seq<Visit>, todayStart: int): AnalyticsData {
    AnalyticsData(
      |records|,
      UniqueVisitors(records),
      TodayVisits(records, todayStart),
      PageStats(
        PageStatOf(records, Homepage), PageStatOf(records, BlogList), PageStatOf(records, AnalyticsPage),
        PageStatOf(records, Guestbook), PageStatOf(records, Write), PageStatOf(records, Other)),
      DeviceStats(DeviceCount(records, "mobile"), DeviceCount(records, "desktop"), DeviceCount(records, "tablet")),
      BlogTable(records, todayStart),
      Series(records, todayStart, SeriesDays))
  }

  /** The whole computation, one step after another as the source runs them. */
  method Aggregate(records: seq<Visit>, todayStart: int) returns (data: AnalyticsData)
    ensures data == Summary(records, todayStart)
  {
    var totalVisits := |records|;
    var todayVisits := |Filter(records, Since(todayStart))|;
    var uniqueVisitors := |IpSet(records)|;
    var homepage, blogList, analytics, guestbook, write, other := CountPageVisits(records);
    var pageStats := PageStats(
      PageStat(homepage, |PageIpsAsWritten(records, Homepage)|), PageStat(blogList, |PageIpsAsWritten(records, BlogList)|),
      PageStat(analytics, |PageIpsAsWritten(records, AnalyticsPage)|), PageStat(guestbook, |PageIpsAsWritten(records, Guestbook)|),
      PageStat(write, |PageIpsAsWritten(records, Write)|), PageStat(other, |PageIpsAsWritten(records, Other)|));
    var mobile, desktop, tablet := CountDevices(records);
    var blogStats := ComputeBlogStats(records, todayStart);
    var dailyStats := DailyStats(records, todayStart);
    data := AnalyticsData(totalVisits, uniqueVisitors, todayVisits, pageStats,
      DeviceStats(mobile, desktop, tablet), blogStats, dailyStats);
  }

  /** How the summary's figures relate to one another. */
  lemma SummaryConsistent(records: seq<Visit>, todayStart: int)
    ensures var d := Summary(records, todayStart);
            d.uniqueVisitors <= d.totalVisits && d.todayVisits <= d.totalVisits &&
            d.deviceStats.mobile + d.deviceStats.desktop + d.deviceStats.tablet <= d.totalVisits &&
            |d.blogStats| <= TopArticles && |d.dailyStats| == SeriesDays &&
            SumVisits(d.dailyStats) <= d.totalVisits &&
            d.dailyStats[0].visits <= d.todayVisits
  {
    DevicesPartition(records);
    BlogTableSorted(records, todayStart);
    SeriesBound(records, todayStart);
    FirstDayWithinToday(records, todayStart);
  }

  /** The six page buckets split the visits. */
  lemma SummaryPages(records: seq<Visit>, todayStart: int)
    ensures var d, p := Summary(records, todayStart), Summary(records, todayStart).pageStats;
            p.homepage.visits + p.blogList.visits + p.analytics.visits +
            p.guestbook.visits + p.write.visits + p.other.visits == d.totalVisits
  {
    PagesPartitionVisits(records);
  }

  function StatFor(p: PageStats, page: Page): PageStat {
    match page
    case Homepage => p.homepage
    case BlogList => p.blogList
    case AnalyticsPage => p.analytics
    case Guestbook => p.guestbook
    case Write => p.write
    case Other => p.other
  }

  /**
   * Every bucket's distinct visitors fit within all distinct visitors, and a
   * named page's fit within its visits; the `other` bucket's need not (see
   * `OtherUniqueExceedsVisitsAsWritten`).
   */
  lemma SummaryPageVisitors(records: seq<Visit>, todayStart: int, page: Page)
    ensures var d := Summary(records, todayStart);
            StatFor(d.pageStats, page).uniqueVisitors <= d.uniqueVisitors &&
            (page != Other ==> StatFor(d.pageStats, page).uniqueVisitors <= StatFor(d.pageStats, page).visits)
  {
    PageIpsAsWrittenWithinAll(records, page);
    if page != Other {
      PageUniqueAsWrittenBounds(records, page);
    }
  }

  /** What a fetch brings back: a failure (an error status or a thrown error), or a body whose `results` may be missing. */
  datatype Response = Failed | Fetched(results: Option<seq<Visit>>)

  /** The dashboard hook's state. */
  class AnalyticsState {
    var analytics: AnalyticsData
    var isLoading: bool

    constructor ()
      ensures analytics == InitialAnalytics && isLoading
    {
      analytics := InitialAnalytics;
      isLoading := true;
    }

    /**
     * One fetch: on success the summary of the results (none when missing)
     * replaces the figures; on failure they stay as they were. Loading ends either way.
     */
    method FetchAnalytics(response: Response, todayStart: int)
      modifies this
      ensures !isLoading
      ensures response.Failed? ==> analytics == old(analytics)
      ensures response.Fetched? ==> analytics == Summary(response.results.GetOr([]), todayStart)
    {
      if response.Fetched? {
        var records := response.results.GetOr([]);
        var data := Aggregate(records, todayStart);
        analytics := data;
      }
      isLoading := false;
    }
  }
}
