/**
 * A draft's card on the drafts page: the title (or a placeholder), the
 * summary when there is one, and a plain-text preview of the content. The
 * preview strips Markdown with five global regex replacements in a row, each
 * modelled as the left-to-right scan `String.prototype.replace` performs, and
 * is cut to 100 characters.
 */
module DraftItem {
  import opened Wrappers
  import opened Strings
  import opened BlogEditor

  // ---------------------------------------------------------------- regex building blocks

  /**
   * Where a lazy `.*?` starting at `from` first sees `p`: the least index with
   * no line terminator before it, or none when the line ends first.
   */
  function FindOnLine(s: string, from: nat, p: string): (r: Option<nat>)
    requires from <= |s|
    ensures r.Some? ==> from <= r.value <= |s| - |p| && OccursAt(s, p, r.value) && OnOneLine(s, from, r.value)
    ensures r.Some? ==> forall j | from <= j < r.value :: !OccursAt(s, p, j)
    ensures r.None? ==> forall j | from <= j <= |s| && OnOneLine(s, from, j) :: !OccursAt(s, p, j)
    decreases |s| - from
  {
    if OccursAt(s, p, from) then Some(from)
    else if from == |s| || IsLineTerminator(s[from]) then None
    else FindOnLine(s, from + 1, p)
  }

  /** The length of the leading run of `'#'`. */
  function HashRun(s: string): (n: nat)
    ensures n <= |s| && (forall k | 0 <= k < n :: s[k] == '#') && (n < |s| ==> s[n] != '#')
  {
    if s != [] && s[0] == '#' then 1 + HashRun(s[1..]) else 0
  }

  /** The length of the leading run of whitespace. */
  function SpaceRun(s: string): (n: nat)
    ensures n <= |s| && (forall k | 0 <= k < n :: IsSpace(s[k])) && (n < |s| ==> !IsSpace(s[n]))
  {
    if s != [] && IsSpace(s[0]) then 1 + SpaceRun(s[1..]) else 0
  }

  /**
   * Where a heading marker that starts `s` ends: one to six `#`, then white
   * space, all of which the marker takes.
   */
  function HeadingEnd(s: string): (e: Option<nat>)
    ensures e.Some? ==> 2 <= e.value <= |s|
  {
    var h := HashRun(s);
    if 1 <= h <= 6 && h < |s| && IsSpace(s[h]) then Some(h + SpaceRun(s[h..])) else None
  }

  /**
   * `replace(/#{1,6}\s+/g, '')`: a run of one to six `#` followed by
   * whitespace is dropped together with all of that whitespace. A longer run
   * fails where it starts, so only its last six `#` can go.
   */
  function StripHeadings(s: string): (r: string)
    ensures |r| <= |s|
    decreases |s|
  {
    if s == [] then []
    else
      match HeadingEnd(s)
      case Some(e) => StripHeadings(s[e..])
      case None => [s[0]] + StripHeadings(s[1..])
  }

  /** `replace(/D(.*?)D/g, '$1')` for the delimiter `d`: the text between two delimiters on one line is kept. */
  function Unwrap(s: string, d: string): (r: string)
    requires d != []
    ensures |r| <= |s|
    decreases |s|
  {
    if s == [] then []
    else if OccursAt(s, d, 0) then
      match FindOnLine(s, |d|, d)
      case Some(j) => s[|d|..j] + Unwrap(s[j + |d|..], d)
      case None => [s[0]] + Unwrap(s[1..], d)
    else [s[0]] + Unwrap(s[1..], d)
  }

  /**
   * Where a `O.*?\]\(.*?\)` match that starts with the opener `O` ends: just
   * after the first `)` that follows the first `](` on its line.
   */
  function BracketEnd(s: string, opener: string): (e: Option<nat>)
    requires OccursAt(s, opener, 0)
    ensures e.Some? ==> |opener| + 3 <= e.value <= |s|
  {
    match FindOnLine(s, |opener|, "](")
    case None => None
    case Some(j) =>
      match FindOnLine(s, j + 2, ")")
      case None => None
      case Some(k) => Some(k + 1)
  }

  /** `replace(/O.*?\]\(.*?\)/g, replacement)`: each bracketed reference is replaced by the replacement. */
  function Relabel(s: string, opener: string, replacement: string): (r: string)
    requires |replacement| <= |opener| + 3
    ensures |r| <= |s|
    decreases |s|
  {
    if s == [] then []
    else if OccursAt(s, opener, 0) then
      match BracketEnd(s, opener)
      case Some(e) => replacement + Relabel(s[e..], opener, replacement)
      case None => [s[0]] + Relabel(s[1..], opener, replacement)
    else [s[0]] + Relabel(s[1..], opener, replacement)
  }

  // ---------------------------------------------------------------- the preview

  const ImageLabel: string := "[图片]"
  const LinkLabel: string := "[链接]"

  /** The five replacements in source order: headings, bold, italics, images, then links. */
  function PlainText(content: string): (t: string)
    ensures |t| <= |content|
  {
    var noHeadings := StripHeadings(content);
    var noBold := Unwrap(noHeadings, "**");
    var noItalics := Unwrap(noBold, "*");
    var noImages := Relabel(noItalics, "![", ImageLabel);
    Relabel(noImages, "[", LinkLabel)
  }

  /** The preview's length before the cut. */
  const PreviewLimit: nat := 100

  /** A text over 100 characters is cut to its first 100 and marked with `...`. */
  function Truncate(t: string): (r: string)
    ensures |r| <= PreviewLimit + 3
    ensures |t| <= PreviewLimit ==> r == t
    ensures |t| > PreviewLimit ==> |r| == PreviewLimit + 3 && r[..PreviewLimit] == t[..PreviewLimit] && r[PreviewLimit..] == "..."
  {
    if |t| > PreviewLimit then t[..PreviewLimit] + "..." else t
  }

  /** `getContentPreview`. */
  function ContentPreview(content: string): string {
    Truncate(PlainText(content))
  }

  /** The preview is never longer than 103 characters, nor than the content by more than the marker. */
  lemma ContentPreviewBound(content: string)
    ensures |ContentPreview(content)| <= PreviewLimit + 3
    ensures |ContentPreview(content)| <= |content| + 3
    ensures |content| <= PreviewLimit ==> ContentPreview(content) == PlainText(content)
  {
  }

  // ---------------------------------------------------------------- what the stages leave alone

  lemma {:induction false} StripHeadingsWithoutHash(s: string)
    requires '#' !in s
    ensures StripHeadings(s) == s
    decreases |s|
  {
    if s != [] {
      assert s[0] != '#';
      assert '#' !in s[1..] by {
        forall k | 0 <= k < |s[1..]| ensures s[1..][k] != '#' {
          assert s[1..][k] == s[k + 1];
        }
      }
      StripHeadingsWithoutHash(s[1..]);
    }
  }

  lemma {:induction false} UnwrapWithout(s: string, d: string)
    requires d != [] && d[0] !in s
    ensures Unwrap(s, d) == s
    decreases |s|
  {
    if s != [] {
      assert !OccursAt(s, d, 0);
      assert d[0] !in s[1..] by {
        forall k | 0 <= k < |s[1..]| ensures s[1..][k] != d[0] {
          assert s[1..][k] == s[k + 1];
        }
      }
      UnwrapWithout(s[1..], d);
    }
  }

  lemma {:induction false} RelabelWithout(s: string, opener: string, replacement: string)
    requires |replacement| <= |opener| + 3 && '[' in opener && '[' !in s
    ensures Relabel(s, opener, replacement) == s
    decreases |s|
  {
    if s != [] {
      assert !OccursAt(s, opener, 0);
      assert '[' !in s[1..] by {
        forall k | 0 <= k < |s[1..]| ensures s[1..][k] != '[' {
          assert s[1..][k] == s[k + 1];
        }
      }
      RelabelWithout(s[1..], opener, replacement);
    }
  }

  /** Text with no `#`, `*` or `[` passes through every replacement unchanged. */
  lemma PlainTextWithoutMarkup(s: string)
    requires '#' !in s && '*' !in s && '[' !in s
    ensures PlainText(s) == s
  {
    StripHeadingsWithoutHash(s);
    UnwrapWithout(s, "**");
    UnwrapWithout(s, "*");
    RelabelWithout(s, "![", ImageLabel);
    RelabelWithout(s, "[", LinkLabel);
  }

  // ---------------------------------------------------------------- one step of each scan

  /** A lazy scan stops at the first occurrence on the line. */
  lemma FindOnLineAt(s: string, from: nat, p: string, j: nat)
    requires from <= j && OccursAt(s, p, j) && OnOneLine(s, from, j)
    requires forall i | from <= i < j :: !OccursAt(s, p, i)
    ensures FindOnLine(s, from, p) == Some(j)
  {
    var r := FindOnLine(s, from, p);
    if r.Some? {
      assert !(r.value < j);
    }
  }

  /** The run of whitespace is read off its first non-space character. */
  lemma {:induction false} SpaceRunIs(s: string, n: nat)
    requires n <= |s| && (forall k | 0 <= k < n :: IsSpace(s[k])) && (n == |s| || !IsSpace(s[n]))
    ensures SpaceRun(s) == n
  {
    if n > 0 {
      SpaceRunIs(s[1..], n - 1);
    }
  }

  /** A heading marker of one to six `#` and all the whitespace after it are dropped. */
  lemma StripHeadingsStep(h: string, w: string, y: string)
    requires 1 <= |h| <= 6 && forall k | 0 <= k < |h| :: h[k] == '#'
    requires w != [] && forall k | 0 <= k < |w| :: IsSpace(w[k])
    requires y == [] || !IsSpace(y[0])
    ensures StripHeadings(h + w + y) == StripHeadings(y)
  {
    var s := h + w + y;
    var m := |h| + |w|;
    forall k | 0 <= k < |h| ensures s[k] == '#' {
      assert s[k] == h[k];
    }
    forall k | |h| <= k < m ensures IsSpace(s[k]) {
      assert s[k] == w[k - |h|];
    }
    assert m < |s| ==> s[m] == y[0];
    assert s[m..] == y;
    StripHeadingsAt(s, |h|, m);
  }

  /** The same step, on the positions of the marker and of the end of its whitespace. */
  lemma StripHeadingsAt(s: string, n: nat, m: nat)
    requires 1 <= n <= 6 && n < m <= |s|
    requires forall k | 0 <= k < n :: s[k] == '#'
    requires forall k | n <= k < m :: IsSpace(s[k])
    requires m == |s| || !IsSpace(s[m])
    ensures StripHeadings(s) == StripHeadings(s[m..])
  {
    HeadingEndAt(s, n, m);
  }

  /** A marker of `n` `#` whose white space runs to `m` ends at `m`. */
  lemma HeadingEndAt(s: string, n: nat, m: nat)
    requires 1 <= n <= 6 && n < m <= |s|
    requires forall k | 0 <= k < n :: s[k] == '#'
    requires forall k | n <= k < m :: IsSpace(s[k])
    requires m == |s| || !IsSpace(s[m])
    ensures HeadingEnd(s) == Some(m)
  {
    HashRunIs(s, n);
    var t := s[n..];
    forall k | 0 <= k < m - n ensures IsSpace(t[k]) {
      assert t[k] == s[n + k];
    }
    assert m - n < |t| ==> t[m - n] == s[m];
    SpaceRunIs(t, m - n);
  }

  /**
   * A `#` that starts no marker is kept: its run is longer than six, or
   * reaches the end, or is not followed by white space.
   */
  lemma StripHeadingsKeepHash(s: string)
    requires s != [] && s[0] == '#'
    requires HashRun(s) > 6 || HashRun(s) == |s| || !IsSpace(s[HashRun(s)])
    ensures StripHeadings(s) == [s[0]] + StripHeadings(s[1..])
  {
  }

  /** A character that is not `#` is kept. */
  lemma StripHeadingsKeep(c: char, y: string)
    requires c != '#'
    ensures StripHeadings([c] + y) == [c] + StripHeadings(y)
  {
    assert ([c] + y)[1..] == y;
  }

  /** A delimited span on one line, whose text holds no delimiter character, is unwrapped. */
  lemma UnwrapStep(x: string, y: string, d: string)
    requires d != [] && d[0] !in x
    requires forall k | 0 <= k < |x| :: !IsLineTerminator(x[k])
    ensures Unwrap(d + x + d + y, d) == x + Unwrap(y, d)
  {
    var s := d + x + d + y;
    var j := |d| + |x|;
    assert s[..|d|] == d;
    assert s[j..j + |d|] == d;
    forall i | |d| <= i < j ensures !OccursAt(s, d, i) {
      assert s[i..i + |d|][0] == s[i] == x[i - |d|];
    }
    assert OnOneLine(s, |d|, j) by {
      forall k | |d| <= k < j ensures !IsLineTerminator(s[k]) {
        assert s[k] == x[k - |d|];
      }
    }
    FindOnLineAt(s, |d|, d, j);
    assert s[|d|..j] == x;
    assert s[j + |d|..] == y;
  }

  /** A character that cannot start the delimiter is kept. */
  lemma UnwrapKeep(c: char, y: string, d: string)
    requires d != [] && c != d[0]
    ensures Unwrap([c] + y, d) == [c] + Unwrap(y, d)
  {
    assert ([c] + y)[1..] == y;
  }

  /**
   * A reference `O x](u)` on one line, with no `]` in its label and no `)` in its
   * target, is replaced by the replacement.
   */
  lemma RelabelStep(opener: string, x: string, u: string, y: string, replacement: string)
    requires |replacement| <= |opener| + 3
    requires ']' !in x && ')' !in u
    requires forall k | 0 <= k < |x| :: !IsLineTerminator(x[k])
    requires forall k | 0 <= k < |u| :: !IsLineTerminator(u[k])
    ensures Relabel(opener + x + "](" + u + ")" + y, opener, replacement) == replacement + Relabel(y, opener, replacement)
  {
    var s := opener + x + "](" + u + ")" + y;
    var e := |opener| + |x| + 3 + |u|;
    assert OccursAt(s, opener, 0) by {
      assert s[..|opener|] == opener;
    }
    BracketEndStep(s, opener, x, u, y);
    RelabelAt(s, opener, replacement, e);
    assert s[e..] == y;
  }

  /** Where a reference ends, the scan resumes after writing the replacement. */
  lemma RelabelAt(s: string, opener: string, replacement: string, e: nat)
    requires |replacement| <= |opener| + 3 && OccursAt(s, opener, 0) && BracketEnd(s, opener) == Some(e)
    ensures Relabel(s, opener, replacement) == replacement + Relabel(s[e..], opener, replacement)
  {
  }

  lemma BracketEndStep(s: string, opener: string, x: string, u: string, y: string)
    requires s == opener + x + "](" + u + ")" + y && OccursAt(s, opener, 0)
    requires ']' !in x && ')' !in u
    requires forall k | 0 <= k < |x| :: !IsLineTerminator(x[k])
    requires forall k | 0 <= k < |u| :: !IsLineTerminator(u[k])
    ensures BracketEnd(s, opener) == Some(|opener| + |x| + 3 + |u|)
  {
    var j := |opener| + |x|;
    var k := j + 2 + |u|;
    assert s[j..j + 2] == "](";
    assert s[k..k + 1] == ")";
    forall i | |opener| <= i < j ensures s[i] != ']' && !IsLineTerminator(s[i]) {
      assert s[i] == x[i - |opener|];
    }
    forall i | j + 2 <= i < k ensures s[i] != ')' && !IsLineTerminator(s[i]) {
      assert s[i] == u[i - j - 2];
    }
    BracketEndAt(s, opener, j, k);
  }

  /** The end of a reference, on the positions of its `](` and of its `)`. */
  lemma BracketEndAt(s: string, opener: string, j: nat, k: nat)
    requires OccursAt(s, opener, 0) && |opener| <= j && OccursAt(s, "](", j) && j + 2 <= k && OccursAt(s, ")", k)
    requires forall i | |opener| <= i < j :: s[i] != ']' && !IsLineTerminator(s[i])
    requires forall i | j + 2 <= i < k :: s[i] != ')' && !IsLineTerminator(s[i])
    ensures BracketEnd(s, opener) == Some(k + 1)
  {
    FirstAt(s, |opener|, "](", j);
    FirstAt(s, j + 2, ")", k);
  }

  /** A scan from `from` finds `p` at `j` when no character before it on the line starts `p`. */
  lemma FirstAt(s: string, from: nat, p: string, j: nat)
    requires p != [] && from <= j && OccursAt(s, p, j)
    requires forall i | from <= i < j :: s[i] != p[0] && !IsLineTerminator(s[i])
    ensures FindOnLine(s, from, p) == Some(j)
  {
    forall i | from <= i < j ensures !OccursAt(s, p, i) {
      assert s[i..i + |p|][0] == s[i];
    }
    assert OnOneLine(s, from, j);
    FindOnLineAt(s, from, p, j);
  }

  /** A character that cannot start the opener is kept. */
  lemma RelabelKeep(c: char, y: string, opener: string, replacement: string)
    requires |replacement| <= |opener| + 3 && opener != [] && c != opener[0]
    ensures Relabel([c] + y, opener, replacement) == [c] + Relabel(y, opener, replacement)
  {
    assert ([c] + y)[1..] == y;
  }

  /** A bold span of plain text on one line previews as its text. */
  lemma PlainTextBold(x: string)
    requires '#' !in x && '*' !in x && '[' !in x
    requires forall k | 0 <= k < |x| :: !IsLineTerminator(x[k])
    ensures PlainText("**" + x + "**") == x
  {
    var s := "**" + x + "**";
    assert '#' !in s by {
      forall k | 0 <= k < |s| ensures s[k] != '#' {
        if 2 <= k < 2 + |x| {
          assert s[k] == x[k - 2];
        }
      }
    }
    StripHeadingsWithoutHash(s);
    UnwrapStep(x, [], "**");
    assert s == "**" + x + "**" + [];
    assert Unwrap(s, "**") == x;
    UnwrapWithout(x, "*");
    assert "!["[1] == '[';
    RelabelWithout(x, "![", ImageLabel);
    RelabelWithout(x, "[", LinkLabel);
  }

  /** A heading of plain text previews as its text, the marker and its whitespace gone. */
  lemma PlainTextHeading(h: string, w: string, y: string)
    requires 1 <= |h| <= 6 && forall k | 0 <= k < |h| :: h[k] == '#'
    requires w != [] && forall k | 0 <= k < |w| :: IsSpace(w[k])
    requires y == [] || !IsSpace(y[0])
    requires '#' !in y && '*' !in y && '[' !in y
    ensures PlainText(h + w + y) == y
  {
    StripHeadingsStep(h, w, y);
    StripHeadingsWithoutHash(y);
    UnwrapWithout(y, "**");
    UnwrapWithout(y, "*");
    assert "!["[1] == '[';
    RelabelWithout(y, "![", ImageLabel);
    RelabelWithout(y, "[", LinkLabel);
  }

  // ---------------------------------------------------------------- examples

  /** A heading marker and its space are dropped. */
  lemma HeadingMarkerDropped()
    ensures StripHeadings("## Hi") == "Hi"
  {
    assert "## Hi" == "##" + " " + "Hi";
    StripHeadingsStep("##", " ", "Hi");
    StripHeadingsWithoutHash("Hi");
  }

  /**
   * Seven `#` are one too many: the match fails at the first, which stays, and
   * the other six go with the white space.
   */
  lemma LongMarkerKeepsFirst(h: string, w: string, y: string)
    requires |h| == 6 && forall k | 0 <= k < |h| :: h[k] == '#'
    requires w != [] && forall k | 0 <= k < |w| :: IsSpace(w[k])
    requires y == [] || !IsSpace(y[0])
    ensures StripHeadings("#" + (h + w + y)) == "#" + StripHeadings(y)
  {
    var t := h + w + y;
    forall k | 0 <= k < 6 ensures t[k] == '#' {
      assert t[k] == h[k];
    }
    assert t[6] == w[0];
    HashRunIs(t, 6);
    StripHeadingsLongRun(t);
    StripHeadingsStep(h, w, y);
  }

  /** A `#` in front of a run of six `#` makes the run too long, so that `#` is kept. */
  lemma StripHeadingsLongRun(t: string)
    requires HashRun(t) == 6
    ensures StripHeadings(['#'] + t) == ['#'] + StripHeadings(t)
  {
    var s := ['#'] + t;
    assert s[1..] == t;
    assert HashRun(s) == 7;
  }

  /** The run of `#` is read off its first non-`#` character. */
  lemma {:induction false} HashRunIs(s: string, n: nat)
    requires n <= |s| && (forall k | 0 <= k < n :: s[k] == '#') && (n == |s| || s[n] != '#')
    ensures HashRun(s) == n
  {
    if n > 0 {
      HashRunIs(s[1..], n - 1);
    }
  }

  /** An image on its own is labelled as an image. */
  lemma ImageLabelled()
    ensures Relabel("![a](b)", "![", ImageLabel) == ImageLabel
  {
    assert "![a](b)" == "![" + "a" + "](" + "b" + ")" + "";
    RelabelStep("![", "a", "b", "", ImageLabel);
  }

  /**
   * The image replacement is itself bracketed, so an image followed directly by a
   * parenthesised text becomes a link replacement in the last replacement.
   */
  lemma ImageLabelThenParensIsLink()
    ensures Relabel(ImageLabel + "(c)", "[", LinkLabel) == LinkLabel
  {
    var s := ImageLabel + "(c)";
    LabelBracketEnd();
    assert s[7..] == [];
  }

  /** In `[图片](c)`, the reference that starts with `[` runs to the end. */
  lemma LabelBracketEnd()
    ensures BracketEnd(ImageLabel + "(c)", "[") == Some(7)
  {
    var s := ImageLabel + "(c)";
    assert s == "[图片](c)";
    LabelCloseAt(s);
    LabelParenAt(s);
  }

  lemma LabelCloseAt(s: string)
    requires s == "[图片](c)"
    ensures FindOnLine(s, 1, "](") == Some(3)
  {
    assert s[3..5] == "](";
    assert FindOnLine(s, 3, "](") == Some(3);
    assert s[2..4] == "片]" && !IsLineTerminator(s[2]);
    assert FindOnLine(s, 2, "](") == Some(3);
    assert s[1..3] == "图片" && !IsLineTerminator(s[1]);
  }

  lemma LabelParenAt(s: string)
    requires s == "[图片](c)"
    ensures FindOnLine(s, 5, ")") == Some(6)
  {
    assert s[5..6] == "c" && s[6..7] == ")";
  }

  // ---------------------------------------------------------------- the card

  /** The title the card shows: the draft's, or 无标题 when it is empty. */
  function CardTitle(d: Post): (t: string)
    ensures t != ""
    ensures d.title != "" ==> t == d.title
    ensures d.title == "" ==> t == "无标题"
  {
    if d.title != "" then d.title else "无标题"
  }

  /** What the card draws: title, summary if any, preview, and the featured badge. */
  datatype Card = Card(title: string, summary: Option<string>, preview: string, featured: bool)

  function CardOf(d: Post): (c: Card)
    ensures c.summary.Some? <==> d.summary != ""
    ensures c.summary.Some? ==> c.summary.value == d.summary
    ensures |c.preview| <= PreviewLimit + 3
    ensures c.title == CardTitle(d) && c.preview == ContentPreview(d.content) && c.featured == d.featured
  {
    Card(CardTitle(d), if d.summary != "" then Some(d.summary) else None, ContentPreview(d.content), d.featured)
  }
}
