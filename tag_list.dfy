/**
 * The tag cloud: every trimmed, non-blank name from the posts' `tags` and
 * `keywords` lists is counted in one dictionary, the entries are sorted by
 * count with the most used first, and an expand button appears once there
 * are more than six tags.
 */
module TagList {
  import opened Wrappers
  import opened Strings
  import opened Lists
  import opened Blogs

  // ---------------------------------------------------------------- the names counted

  /** A counted name: non-empty and already trimmed. */
  predicate CleanName(n: string) {
    n != "" && Trim(n) == n
  }

  /** The names a list contributes: each non-blank entry, trimmed, in order. */
  function CleanNames(xs: seq<string>): seq<string> {
    if xs == [] then []
    else
      var last := xs[|xs| - 1];
      var rest := CleanNames(xs[..|xs| - 1]);
      if IsBlank(last) then rest else rest + [Trim(last)]
  }

  /** Every name a list contributes is non-empty and trimmed. */
  lemma {:induction false} CleanNamesClean(xs: seq<string>)
    ensures forall k | 0 <= k < |CleanNames(xs)| :: CleanName(CleanNames(xs)[k])
  {
    if xs != [] {
      var last := xs[|xs| - 1];
      var rest := CleanNames(xs[..|xs| - 1]);
      CleanNamesClean(xs[..|xs| - 1]);
      if !IsBlank(last) {
        TrimIdempotent(last);
        var r := rest + [Trim(last)];
        forall k | 0 <= k < |r| ensures CleanName(r[k]) {
          if k < |rest| {
            assert r[k] == rest[k];
          }
        }
      }
    }
  }

  /** `field && Array.isArray(field)`: only a list contributes names. */
  function FieldNames(f: TagField): seq<string> {
    if f.Items? then CleanNames(f.items) else []
  }

  /** A post's names: its tags, then its keywords. */
  function BlogNames(b: Blog): seq<string> {
    FieldNames(b.tags) + FieldNames(b.keywords)
  }

  /** Every name the posts contribute, post by post. */
  function AllNames(bs: seq<Blog>): seq<string> {
    if bs == [] then [] else AllNames(bs[..|bs| - 1]) + BlogNames(bs[|bs| - 1])
  }

  /** Every counted name is trimmed and non-empty. */
  lemma {:induction false} AllNamesClean(bs: seq<Blog>)
    ensures forall k | 0 <= k < |AllNames(bs)| :: CleanName(AllNames(bs)[k])
  {
    if bs != [] {
      AllNamesClean(bs[..|bs| - 1]);
      var a, b := AllNames(bs[..|bs| - 1]), BlogNames(bs[|bs| - 1]);
      var f, g := FieldNames(bs[|bs| - 1].tags), FieldNames(bs[|bs| - 1].keywords);
      if bs[|bs| - 1].tags.Items? {
        CleanNamesClean(bs[|bs| - 1].tags.items);
      }
      if bs[|bs| - 1].keywords.Items? {
        CleanNamesClean(bs[|bs| - 1].keywords.items);
      }
      forall k | 0 <= k < |a + b| ensures CleanName((a + b)[k]) {
        if k >= |a| {
          if k - |a| < |f| {
            assert (a + b)[k] == f[k - |a|];
          } else {
            assert (a + b)[k] == g[k - |a| - |f|];
          }
        }
      }
    }
  }

  /** A post whose fields are not lists adds nothing to the count. */
  lemma NonListFieldsIgnored(bs: seq<Blog>, b: Blog)
    requires !b.tags.Items? && !b.keywords.Items?
    ensures AllNames(bs + [b]) == AllNames(bs)
  {
    assert (bs + [b])[..|bs|] == bs;
  }

  // ---------------------------------------------------------------- the count

  /** `tagCount[name] = (tagCount[name] || 0) + 1`. */
  function Add(m: map<string, nat>, name: string): map<string, nat> {
    m[name := (if name in m then m[name] else 0) + 1]
  }

  /** The dictionary after counting `names` on top of `m`. */
  function TallyFrom(m: map<string, nat>, names: seq<string>): map<string, nat>
    decreases |names|
  {
    if names == [] then m else TallyFrom(Add(m, names[0]), names[1..])
  }

  lemma {:induction false} TallyFromAppend(m: map<string, nat>, a: seq<string>, b: seq<string>)
    ensures TallyFrom(m, a + b) == TallyFrom(TallyFrom(m, a), b)
    decreases |a|
  {
    if a == [] {
      assert a + b == b;
    } else {
      assert (a + b)[0] == a[0] && (a + b)[1..] == a[1..] + b;
      TallyFromAppend(Add(m, a[0]), a[1..], b);
    }
  }

  lemma TallyFromSnoc(m: map<string, nat>, a: seq<string>, x: string)
    ensures TallyFrom(m, a + [x]) == Add(TallyFrom(m, a), x)
  {
    TallyFromAppend(m, a, [x]);
    assert [x][1..] == [];
  }

  /** The count holds exactly the names seen, each with its number of occurrences added to where it started. */
  lemma {:induction false} TallyFromCounts(m: map<string, nat>, names: seq<string>)
    ensures forall n :: n in TallyFrom(m, names) <==> n in m || n in names
    ensures forall n | n in TallyFrom(m, names) ::
              TallyFrom(m, names)[n] == (if n in m then m[n] else 0) + multiset(names)[n]
    decreases |names|
  {
    if names != [] {
      TallyFromCounts(Add(m, names[0]), names[1..]);
      assert names == [names[0]] + names[1..];
      assert multiset(names) == multiset{names[0]} + multiset(names[1..]);
    }
  }

  /** One more entry counted: its trimmed name is added unless it is blank. */
  lemma CountEachStep(m: map<string, nat>, xs: seq<string>, j: nat)
    requires j < |xs|
    ensures TallyFrom(m, CleanNames(xs[..j + 1])) ==
            if IsBlank(xs[j]) then TallyFrom(m, CleanNames(xs[..j])) else Add(TallyFrom(m, CleanNames(xs[..j])), Trim(xs[j]))
  {
    var ys := xs[..j + 1];
    assert ys[..j] == xs[..j];
    assert ys[j] == xs[j];
    if !IsBlank(xs[j]) {
      TallyFromSnoc(m, CleanNames(xs[..j]), Trim(xs[j]));
    }
  }

  /** Counting from nothing: each name seen, with its number of occurrences. */
  lemma TallyCounts(names: seq<string>)
    ensures forall n :: n in TallyFrom(map[], names) <==> n in names
    ensures forall n | n in TallyFrom(map[], names) :: TallyFrom(map[], names)[n] == multiset(names)[n]
  {
    TallyFromCounts(map[], names);
  }

  /** The inner `forEach`: count each non-blank entry of one list, trimmed. */
  method CountEach(m: map<string, nat>, xs: seq<string>) returns (r: map<string, nat>)
    ensures r == TallyFrom(m, CleanNames(xs))
  {
    r := m;
    for j := 0 to |xs|
      invariant r == TallyFrom(m, CleanNames(xs[..j]))
    {
      var x := xs[j];
      CountEachStep(m, xs, j);
      if x != "" && Trim(x) != "" {
        var name := Trim(x);
        r := r[name := (if name in r then r[name] else 0) + 1];
      }
    }
    assert xs[..|xs|] == xs;
  }

  /** The effect's outer `forEach`: every post's tags, then its keywords, into one dictionary. */
  method CountTags(blogs: seq<Blog>) returns (tagCount: map<string, nat>)
    ensures tagCount == TallyFrom(map[], AllNames(blogs))
  {
    tagCount := map[];
    for i := 0 to |blogs|
      invariant tagCount == TallyFrom(map[], AllNames(blogs[..i]))
    {
      var blog := blogs[i];
      CountTagsStep(blogs, i);
      if blog.tags.Items? {
        tagCount := CountEach(tagCount, blog.tags.items);
      }
      if blog.keywords.Items? {
        tagCount := CountEach(tagCount, blog.keywords.items);
      }
    }
    assert blogs[..|blogs|] == blogs;
  }

  /** One more post counted: its tags, then its keywords. */
  lemma CountTagsStep(blogs: seq<Blog>, i: nat)
    requires i < |blogs|
    ensures TallyFrom(map[], AllNames(blogs[..i + 1])) ==
            TallyFrom(TallyFrom(TallyFrom(map[], AllNames(blogs[..i])), FieldNames(blogs[i].tags)), FieldNames(blogs[i].keywords))
  {
    var before, f, g := AllNames(blogs[..i]), FieldNames(blogs[i].tags), FieldNames(blogs[i].keywords);
    assert blogs[..i + 1][..i] == blogs[..i];
    AppendAssoc(before, f, g);
    TallyFromAppend(map[], before + f, g);
    TallyFromAppend(map[], before, f);
  }

  lemma AppendAssoc<T>(a: seq<T>, b: seq<T>, c: seq<T>)
    ensures a + (b + c) == (a + b) + c
  {
  }

  // ---------------------------------------------------------------- the sorted entries

  /** A tag and the number of times it occurs. */
  datatype Tag = Tag(name: string, count: nat)

  function TagCount(): Tag -> int {
    (t: Tag) => t.count
  }

  /** The distinct names in the order they were first counted, the order `Object.entries` lists them in. */
  function FirstOccurrences(names: seq<string>): (r: seq<string>)
    ensures forall n :: n in r <==> n in names
    ensures Distinct(r)
  {
    if names == [] then []
    else
      var last := names[|names| - 1];
      assert names == names[..|names| - 1] + [last];
      var rest := FirstOccurrences(names[..|names| - 1]);
      if last in rest then rest else rest + [last]
  }

  /** `Object.entries(tagCount).map(([name, count]) => ({ name, count }))`, in the given key order. */
  function Entries(order: seq<string>, counts: map<string, nat>): (r: seq<Tag>)
    requires forall k | 0 <= k < |order| :: order[k] in counts
    ensures |r| == |order|
    ensures forall k | 0 <= k < |order| :: r[k] == Tag(order[k], counts[order[k]])
  {
    if order == [] then [] else [Tag(order[0], counts[order[0]])] + Entries(order[1..], counts)
  }

  /** The entries sorted by `b.count - a.count`, ties kept in key order. */
  function SortedTags(order: seq<string>, counts: map<string, nat>): seq<Tag>
    requires forall k | 0 <= k < |order| :: order[k] in counts
  {
    SortDesc(Entries(order, counts), TagCount())
  }

  /** The tag list computed from the counted names. */
  function TagArray(names: seq<string>): seq<Tag> {
    TallyCounts(names);
    SortedTags(FirstOccurrences(names), TallyFrom(map[], names))
  }

  /**
   * The list is sorted by count, most used first; each name appears once; it
   * holds every counted name with its total number of occurrences across all
   * posts' tags and keywords, and nothing else.
   */
  lemma TagArraySpec(names: seq<string>)
    ensures SortedDesc(TagArray(names), TagCount())
    ensures forall i, j | 0 <= i < j < |TagArray(names)| :: TagArray(names)[i].name != TagArray(names)[j].name
    ensures forall t | t in TagArray(names) :: t.name in names && t.count == multiset(names)[t.name]
    ensures forall n | n in names :: Tag(n, multiset(names)[n]) in TagArray(names)
  {
    TallyCounts(names);
    var e := Entries(FirstOccurrences(names), TallyFrom(map[], names));
    var r := TagArray(names);
    assert r == SortDesc(e, TagCount());
    EntriesExact(names);
    SameMembers(e, r);
    PermutationDistinct(e, r);
    NamesDistinctByCount(r, names);
  }

  /** Distinct tags whose counts are a function of their names have distinct names. */
  lemma NamesDistinctByCount(r: seq<Tag>, names: seq<string>)
    requires Distinct(r)
    requires forall t | t in r :: t.count == multiset(names)[t.name]
    ensures forall i, j | 0 <= i < j < |r| :: r[i].name != r[j].name
  {
    forall i, j | 0 <= i < j < |r| ensures r[i].name != r[j].name {
      assert r[i] in r && r[j] in r;
    }
  }


  /** Entries over distinct keys are distinct, and each is a key paired with its count. */
  lemma EntriesOf(order: seq<string>, counts: map<string, nat>)
    requires forall k | 0 <= k < |order| :: order[k] in counts
    requires Distinct(order)
    ensures var e := Entries(order, counts);
            Distinct(e) &&
            (forall t | t in e :: t.name in order && t.name in counts && t.count == counts[t.name]) &&
            (forall n | n in order :: n in counts && Tag(n, counts[n]) in e)
  {
    var e := Entries(order, counts);
    forall t | t in e ensures t.name in order && t.name in counts && t.count == counts[t.name] {
      var k :| 0 <= k < |e| && e[k] == t;
    }
    forall n | n in order ensures n in counts && Tag(n, counts[n]) in e {
      var k :| 0 <= k < |order| && order[k] == n;
      assert e[k] == Tag(n, counts[n]);
    }
    forall i, j | 0 <= i < j < |e| ensures e[i] != e[j] {
      assert e[i].name == order[i] && e[j].name == order[j];
    }
  }

  /** Before sorting: one entry per distinct name, holding its number of occurrences. */
  lemma EntriesExact(names: seq<string>)
    ensures forall k | 0 <= k < |FirstOccurrences(names)| :: FirstOccurrences(names)[k] in TallyFrom(map[], names)
    ensures var e := Entries(FirstOccurrences(names), TallyFrom(map[], names));
            Distinct(e) &&
            (forall t | t in e :: t.name in names && t.count == multiset(names)[t.name]) &&
            (forall n | n in names :: Tag(n, multiset(names)[n]) in e)
  {
    TallyCounts(names);
    var order := FirstOccurrences(names);
    var tally := TallyFrom(map[], names);
    assert forall k | 0 <= k < |order| :: order[k] in tally;
    EntriesOf(order, tally);
  }

  // ---------------------------------------------------------------- the component

  /** More tags than this collapse the list behind an expand button. */
  const CollapseThreshold: nat := 6

  /** The expand button's text: collapse when open, otherwise the number of tags. */
  function ToggleLabel(expanded: bool, n: nat): string {
    if expanded then "收起" else "展开全部 (" + NatToString(n) + ")"
  }

  /** What the component draws: the tags, whether they are clipped to one row, and the button if any. */
  datatype TagListView = TagListView(tags: seq<Tag>, clipped: bool, toggle: Option<string>)

  class TagListState {
    var tags: seq<Tag>
    var isExpanded: bool

    constructor ()
      ensures tags == [] && !isExpanded
    {
      tags := [];
      isExpanded := false;
    }

    /** The mount effect: count, sort and store the tags. */
    method LoadTags(blogs: seq<Blog>)
      modifies this`tags
      ensures tags == TagArray(AllNames(blogs))
    {
      var tagCount := CountTags(blogs);
      var names := AllNames(blogs);
      TallyCounts(names);
      tags := SortedTags(FirstOccurrences(names), tagCount);
    }

    /** The expand button's handler. */
    method ToggleExpanded()
      modifies this`isExpanded
      ensures isExpanded == !old(isExpanded)
    {
      isExpanded := !isExpanded;
    }

    /** Nothing is drawn without tags; the button appears only beyond six tags. */
    function View(): (v: Option<TagListView>)
      reads this
      ensures v.None? <==> tags == []
      ensures v.Some? ==> v.value.tags == tags && v.value.clipped == !isExpanded
      ensures v.Some? ==> (v.value.toggle.Some? <==> |tags| > CollapseThreshold)
    {
      if tags == [] then None
      else
        Some(TagListView(tags, !isExpanded,
                         if |tags| > CollapseThreshold then Some(ToggleLabel(isExpanded, |tags|)) else None))
    }
  }

  /** The collapsed button names the number of tags, the open one offers to collapse. */
  lemma ToggleLabelNamesCount(n: nat)
    ensures ToggleLabel(false, n) == "展开全部 (" + NatToString(n) + ")"
    ensures ParseInt(NatToString(n)) == Some(n as int)
    ensures ToggleLabel(true, n) == "收起"
  {
    ParseIntNatToString(n);
  }
}
