/**
 * String helpers shared by the components: JavaScript whitespace and `trim`,
 * prefix and substring tests, ASCII case folding, `split`/`join` on one
 * separator character, `Number.prototype.toString` for naturals and `parseInt`.
 */
module Strings {
  import opened Wrappers

  /** A string optional in the source (`undefined`, `null` or text). */
  type OptString = Option<string>

  /** JavaScript truthiness of an optional string: present and non-empty. */
  predicate Truthy(o: OptString) {
    o.Some? && o.value != ""
  }

  /** `o || fallback` on an optional string. */
  function OrElse(o: OptString, fallback: string): (r: string)
    ensures Truthy(o) ==> r == o.value
    ensures !Truthy(o) ==> r == fallback
  {
    if Truthy(o) then o.value else fallback
  }

  /**
   * The code points JavaScript counts as WhiteSpace or LineTerminator: exactly
   * those that `String.prototype.trim` strips and that the regex class `\s` matches.
   */
  predicate IsSpace(c: char) {
    var n := c as int;
    n == 0x09 || n == 0x0A || n == 0x0B || n == 0x0C || n == 0x0D || n == 0x20 ||
    n == 0xA0 || n == 0x1680 || (0x2000 <= n <= 0x200A) || n == 0x2028 || n == 0x2029 ||
    n == 0x202F || n == 0x205F || n == 0x3000 || n == 0xFEFF
  }

  /** The line terminators: the characters the regex `.` does not match. */
  predicate IsLineTerminator(c: char) {
    var n := c as int;
    n == 0x0A || n == 0x0D || n == 0x2028 || n == 0x2029
  }

  /** No line terminator in `s[i..j]`, so a regex `.*` can span it. */
  predicate OnOneLine(s: string, i: int, j: int)
    requires 0 <= i <= j <= |s|
  {
    forall k | i <= k < j :: !IsLineTerminator(s[k])
  }

  /** Leading whitespace removed. */
  function TrimStart(s: string): (r: string)
    ensures |r| <= |s| && r == s[|s| - |r|..]
    ensures forall i | 0 <= i < |s| - |r| :: IsSpace(s[i])
    ensures r == [] || !IsSpace(r[0])
  {
    if s != [] && IsSpace(s[0]) then TrimStart(s[1..]) else s
  }

  /** Trailing whitespace removed. */
  function TrimEnd(s: string): (r: string)
    ensures |r| <= |s| && r == s[..|r|]
    ensures forall i | |r| <= i < |s| :: IsSpace(s[i])
    ensures r == [] || !IsSpace(r[|r| - 1])
  {
    if s != [] && IsSpace(s[|s| - 1]) then TrimEnd(s[..|s| - 1]) else s
  }

  /** `String.prototype.trim`: a slice of `s` with no whitespace at either end (see `TrimSlice`). */
  function Trim(s: string): (r: string)
    ensures |r| <= |s|
    ensures r == [] || (!IsSpace(r[0]) && !IsSpace(r[|r| - 1]))
    ensures Contains(s, r)
  {
    var t := TrimStart(s);
    var r := TrimEnd(t);
    TrimCuts(s, t, r);
    r
  }

  /** `trim` cuts white space only, and only at the ends: what is left is the slice between the cuts. */
  lemma TrimSlice(s: string)
    ensures exists i, j | 0 <= i <= j <= |s| ::
              Trim(s) == s[i..j] && (forall k | 0 <= k < i :: IsSpace(s[k])) && (forall k | j <= k < |s| :: IsSpace(s[k]))
  {
    TrimCuts(s, TrimStart(s), Trim(s));
  }

  /** The two cuts of `Trim`: `t` drops a whitespace prefix of `s`, `r` a whitespace suffix of `t`. */
  lemma TrimCuts(s: string, t: string, r: string)
    requires |t| <= |s| && t == s[|s| - |t|..] && forall k | 0 <= k < |s| - |t| :: IsSpace(s[k])
    requires |r| <= |t| && r == t[..|r|] && forall k | |r| <= k < |t| :: IsSpace(t[k])
    ensures Contains(s, r)
    ensures exists i, j | 0 <= i <= j <= |s| ::
              r == s[i..j] && (forall k | 0 <= k < i :: IsSpace(s[k])) && (forall k | j <= k < |s| :: IsSpace(s[k]))
  {
    var i := |s| - |t|;
    assert r == s[i..i + |r|];
    assert OccursAt(s, r, i);
    forall k | i + |r| <= k < |s| ensures IsSpace(s[k]) {
      assert s[k] == t[k - i];
    }
  }

  /** `!s.trim()`: the string is empty or consists of whitespace only. */
  function IsBlank(s: string): (b: bool)
    ensures b <==> forall i | 0 <= i < |s| :: IsSpace(s[i])
    ensures b <==> Trim(s) == ""
  {
    var t := TrimStart(s);
    assert t != [] ==> t[0] == s[|s| - |t|];
    TrimEnd(t) == []
  }

  /** Trimming twice is trimming once. */
  lemma TrimIdempotent(s: string)
    ensures Trim(Trim(s)) == Trim(s)
  {
    var r := Trim(s);
    assert TrimStart(r) == r;
    assert TrimEnd(r) == r;
  }

  /** A string with no whitespace at either end is its own trim. */
  lemma TrimOfTrimmed(s: string)
    requires s == [] || (!IsSpace(s[0]) && !IsSpace(s[|s| - 1]))
    ensures Trim(s) == s
  {
    assert TrimStart(s) == s;
    assert TrimEnd(s) == s;
  }

  /** `s.startsWith(p)`. */
  predicate StartsWith(s: string, p: string) {
    |p| <= |s| && s[..|p|] == p
  }

  /** `p` occurs in `s` at index `i`. */
  predicate OccursAt(s: string, p: string, i: int) {
    0 <= i && i + |p| <= |s| && s[i..i + |p|] == p
  }

  /** `s.includes(p)`: `p` occurs somewhere in `s`. */
  predicate Contains(s: string, p: string) {
    exists i | 0 <= i <= |s| - |p| :: OccursAt(s, p, i)
  }

  /** An occurrence widens to any string that has it as a slice. */
  lemma ContainsInConcat(a: string, p: string, b: string)
    ensures Contains(a + p + b, p)
  {
    assert OccursAt(a + p + b, p, |a|);
  }

  /** ASCII upper-case letters folded to lower case; every other character is kept. */
  function LowerChar(c: char): (d: char)
    ensures 'A' <= c <= 'Z' ==> d as int == c as int + 32
    ensures !('A' <= c <= 'Z') ==> d == c
    ensures !('A' <= d <= 'Z')
  {
    if 'A' <= c <= 'Z' then (c as int + 32) as char else c
  }

  /** ASCII case folding of a string: it keeps its length and no upper-case ASCII letter is left. */
  function Lower(s: string): (r: string)
    ensures |r| == |s| && forall i | 0 <= i < |s| :: r[i] == LowerChar(s[i])
    ensures forall i | 0 <= i < |r| :: !('A' <= r[i] <= 'Z')
  {
    seq(|s|, i requires 0 <= i < |s| => LowerChar(s[i]))
  }

  /** Folding twice is folding once. */
  lemma LowerIdempotent(s: string)
    ensures Lower(Lower(s)) == Lower(s)
  {
    var l := Lower(s);
    forall i | 0 <= i < |l| ensures Lower(l)[i] == l[i] {
      assert !('A' <= l[i] <= 'Z');
    }
  }

  /**
   * Case-insensitive substring test, as a JavaScript `/p/i` regex without the `u`
   * flag: for the ASCII patterns the components use, only ASCII letters fold.
   */
  predicate ContainsIgnoreCase(s: string, p: string) {
    Contains(Lower(s), Lower(p))
  }

  /** `s.length`: UTF-16 code units, two for a character outside the Basic Multilingual Plane. */
  function Utf16Length(s: string): (n: nat)
    ensures |s| <= n <= 2 * |s|
    ensures (forall k | 0 <= k < |s| :: (s[k] as int) < 0x10000) ==> n == |s|
  {
    if s == [] then 0 else (if (s[0] as int) < 0x10000 then 1 else 2) + Utf16Length(s[1..])
  }

  // ---------------------------------------------------------------- split / join

  /** `parts.join(sep)`. */
  function Join(parts: seq<string>, sep: string): string {
    if |parts| == 0 then ""
    else if |parts| == 1 then parts[0]
    else parts[0] + sep + Join(parts[1..], sep)
  }

  lemma JoinConsChar(c: char, a: string, rest: seq<string>, sep: string)
    ensures Join([[c] + a] + rest, sep) == [c] + Join([a] + rest, sep)
  {
    if |rest| > 0 {
      assert ([[c] + a] + rest)[1..] == rest;
      assert ([a] + rest)[1..] == rest;
    }
  }

  /**
   * `s.split(sep)` for a one-character separator: at least one part, no part
   * holds the separator, and joining the parts with it gives back `s`.
   */
  function Split(s: string, sep: char): (r: seq<string>)
    ensures |r| >= 1
    ensures forall k | 0 <= k < |r| :: sep !in r[k]
    ensures Join(r, [sep]) == s
  {
    if s == [] then [""]
    else if s[0] == sep then
      var t := Split(s[1..], sep);
      assert Join([""] + t, [sep]) == "" + [sep] + Join(t, [sep]) by {
        assert ([""] + t)[1..] == t;
      }
      [""] + t
    else
      var t := Split(s[1..], sep);
      JoinConsChar(s[0], t[0], t[1..], [sep]);
      assert [t[0]] + t[1..] == t;
      [[s[0]] + t[0]] + t[1..]
  }

  lemma {:induction false} SplitNoSeparator(x: string, sep: char)
    requires sep !in x
    ensures Split(x, sep) == [x]
  {
    if x != [] {
      SplitNoSeparator(x[1..], sep);
    }
  }

  lemma {:induction false} SplitAfterPart(x: string, t: string, sep: char)
    requires sep !in x
    ensures Split(x + [sep] + t, sep) == [x] + Split(t, sep)
  {
    if x == [] {
      assert x + [sep] + t == [sep] + t;
      assert ([sep] + t)[1..] == t;
    } else {
      assert (x + [sep] + t)[1..] == x[1..] + [sep] + t;
      SplitAfterPart(x[1..], t, sep);
      assert [x[0]] + x[1..] == x;
    }
  }

  /** Splitting the join of separator-free parts gives back the parts. */
  lemma {:induction false} SplitJoin(parts: seq<string>, sep: char)
    requires |parts| >= 1
    requires forall k | 0 <= k < |parts| :: sep !in parts[k]
    ensures Split(Join(parts, [sep]), sep) == parts
  {
    if |parts| == 1 {
      SplitNoSeparator(parts[0], sep);
    } else {
      SplitJoin(parts[1..], sep);
      SplitAfterPart(parts[0], Join(parts[1..], [sep]), sep);
      assert [parts[0]] + parts[1..] == parts;
    }
  }

  /** A character in neither the parts nor the separator is not in their join. */
  lemma {:induction false} JoinAvoids(parts: seq<string>, sep: string, c: char)
    requires c !in sep
    requires forall k | 0 <= k < |parts| :: c !in parts[k]
    ensures c !in Join(parts, sep)
  {
    if |parts| > 1 {
      JoinAvoids(parts[1..], sep, c);
    }
  }

  /** Lines each ended by a newline, as a template literal lays them out. */
  function JoinLines(lines: seq<string>): string {
    if lines == [] then "" else lines[0] + "\n" + JoinLines(lines[1..])
  }

  /** Appending after the head and its tail is appending after the whole. */
  lemma ConsAppend<T>(s: seq<T>, c: seq<T>)
    requires s != []
    ensures [s[0]] + (s[1..] + c) == s + c
  {
    assert [s[0]] + s[1..] == s;
  }

  /** Splitting at newlines gives back the lines, then the lines of what follows. */
  lemma {:induction false} SplitLines(lines: seq<string>, rest: string)
    requires forall k | 0 <= k < |lines| :: '\n' !in lines[k]
    ensures Split(JoinLines(lines) + rest, '\n') == lines + Split(rest, '\n')
  {
    if lines != [] {
      var tail := JoinLines(lines[1..]);
      SplitLines(lines[1..], rest);
      assert JoinLines(lines) + rest == lines[0] + ['\n'] + (tail + rest);
      SplitAfterPart(lines[0], tail + rest, '\n');
      ConsAppend(lines, Split(rest, '\n'));
    } else {
      assert JoinLines(lines) + rest == rest;
    }
  }

  // ---------------------------------------------------------------- numbers

  function DigitChar(d: nat): char
    requires d < 10
  {
    "0123456789"[d]
  }

  /** `n.toString()` for a natural number: its decimal digits, no leading zero. */
  function NatToString(n: nat): (r: string)
    ensures |r| >= 1
    ensures forall k | 0 <= k < |r| :: '0' <= r[k] <= '9'
  {
    if n < 10 then [DigitChar(n)] else NatToString(n / 10) + [DigitChar(n % 10)]
  }

  /** The value of an alphanumeric character as a digit of any radix up to 36. */
  function DigitValue(c: char): nat {
    if '0' <= c <= '9' then c as int - '0' as int
    else if 'a' <= c <= 'z' then c as int - 'a' as int + 10
    else if 'A' <= c <= 'Z' then c as int - 'A' as int + 10
    else 36
  }

  predicate IsDigit(c: char, radix: nat) {
    DigitValue(c) < radix
  }

  /** The length of the longest prefix of `s` made of digits of `radix`. */
  function DigitRun(s: string, radix: nat): (n: nat)
    ensures n <= |s|
    ensures forall k | 0 <= k < n :: IsDigit(s[k], radix)
    ensures n < |s| ==> !IsDigit(s[n], radix)
  {
    if s != [] && IsDigit(s[0], radix) then 1 + DigitRun(s[1..], radix) else 0
  }

  /** The value of a digit string, most significant digit first. */
  function DigitsValue(s: string, radix: nat): nat {
    if s == [] then 0
    else DigitsValue(s[..|s| - 1], radix) * radix + DigitValue(s[|s| - 1])
  }

  /** The leading run of `radix` digits of `ds` and its value; `None` when there is none. */
  function LeadingDigits(ds: string, radix: nat): (r: Option<nat>)
    ensures r.Some? <==> ds != [] && IsDigit(ds[0], radix)
  {
    var n := DigitRun(ds, radix);
    if n == 0 then None else Some(DigitsValue(ds[..n], radix))
  }

  /** An unsigned number: a `0x`/`0X` prefix selects radix 16, otherwise radix 10. */
  function ParseMagnitude(u: string): Option<nat> {
    if |u| >= 2 && u[0] == '0' && (u[1] == 'x' || u[1] == 'X') then LeadingDigits(u[2..], 16)
    else LeadingDigits(u, 10)
  }

  /**
   * `parseInt(s)` with no radix argument: leading whitespace is skipped, one sign
   * is read, a `0x`/`0X` prefix selects radix 16, and the longest run of digits
   * is converted; `None` stands for `NaN` (no digit where one is needed).
   */
  function ParseInt(s: string): Option<int> {
    var t := TrimStart(s);
    if t != [] && t[0] == '-' then
      match ParseMagnitude(t[1..])
      case None => None
      case Some(v) => Some(-(v as int))
    else
      var m := ParseMagnitude(if t != [] && t[0] == '+' then t[1..] else t);
      match m
      case None => None
      case Some(v) => Some(v)
  }

  lemma DigitCharValue(d: nat)
    requires d < 10
    ensures DigitValue(DigitChar(d)) == d
  {
    assert "0123456789"[d] as int == '0' as int + d;
  }

  lemma {:induction false} NatToStringValue(n: nat)
    ensures DigitsValue(NatToString(n), 10) == n
  {
    var r := NatToString(n);
    if n < 10 {
      assert r[..|r| - 1] == [];
      DigitCharValue(n);
    } else {
      var q, d := n / 10, n % 10;
      NatToStringValue(q);
      assert r[..|r| - 1] == NatToString(q);
      DigitCharValue(d);
      assert DigitsValue(r, 10) == DigitsValue(NatToString(q), 10) * 10 + d;
      assert q * 10 + d == n;
    }
  }

  lemma {:induction false} DigitRunOfDecimal(r: string)
    requires forall k | 0 <= k < |r| :: '0' <= r[k] <= '9'
    ensures DigitRun(r, 10) == |r|
  {
    if r != [] {
      DigitRunOfDecimal(r[1..]);
    }
  }

  lemma DecimalParse(r: string)
    requires |r| >= 1
    requires forall k | 0 <= k < |r| :: '0' <= r[k] <= '9'
    ensures ParseInt(r) == Some(DigitsValue(r, 10))
  {
    assert !IsSpace(r[0]);
    assert TrimStart(r) == r;
    assert r[0] != '-' && r[0] != '+';
    assert |r| >= 2 ==> r[1] != 'x' && r[1] != 'X';
    DigitRunOfDecimal(r);
    assert r[..|r|] == r;
    assert LeadingDigits(r, 10) == Some(DigitsValue(r, 10));
    assert ParseMagnitude(r) == LeadingDigits(r, 10);
  }

  /** What `Date.now().toString()` writes, `parseInt` reads back. */
  lemma ParseIntNatToString(n: nat)
    ensures ParseInt(NatToString(n)) == Some(n)
  {
    DecimalParse(NatToString(n));
    NatToStringValue(n);
  }
}
