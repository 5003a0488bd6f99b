/** The few .NET string operations the messaging layer relies on, written out
    over `seq<char>`: `Split` with and without a count, `StartsWith`, `Trim`,
    and ASCII case folding. */
module Text {
  import opened Wrappers

  /** `s.Split(new[] { c }, 2)`: the text before the first `c` and everything
      after it, or None when `c` does not occur (the two-part case of the
      source; the one-part case is the None branch). */
  function SplitFirst(s: string, c: char): (r: Option<(string, string)>)
    ensures r.None? <==> c !in s
    ensures r.Some? ==> s == r.value.0 + [c] + r.value.1 && c !in r.value.0
  {
    if |s| == 0 then None
    else if s[0] == c then Some(([], s[1..]))
    else
      match SplitFirst(s[1..], c)
      case None => None
      case Some(p) =>
        assert s == [s[0]] + s[1..];
        Some(([s[0]] + p.0, p.1))
  }

  /** Splitting `a + [c] + b` once at `c` gives back `a` and `b` whenever `a`
      itself holds no `c`. */
  lemma {:induction false} SplitFirstOfJoin(a: string, c: char, b: string)
    requires c !in a
    ensures SplitFirst(a + [c] + b, c) == Some((a, b))
  {
    var s := a + [c] + b;
    if |a| > 0 {
      assert s[0] == a[0] && s[1..] == a[1..] + [c] + b;
      SplitFirstOfJoin(a[1..], c, b);
      assert [a[0]] + a[1..] == a;
    } else {
      assert s[1..] == b;
    }
  }

  /** `parts[0]` of `s.Split(new[] { c }, 2)`: the text before the first `c`,
      or all of `s` when there is none. */
  function FirstField(s: string, c: char): (r: string)
    ensures c !in r
    ensures c !in s ==> r == s
    ensures c in s ==> |r| < |s| && s[..|r|] == r && s[|r|] == c
  {
    match SplitFirst(s, c)
    case None => s
    case Some(p) =>
      assert (p.0 + [c] + p.1)[..|p.0|] == p.0;
      p.0
  }

  /** The separator-joined text of `parts`, the inverse of `Split`. */
  function Join(parts: seq<string>, c: char): string
  {
    if |parts| == 0 then []
    else if |parts| == 1 then parts[0]
    else parts[0] + [c] + Join(parts[1..], c)
  }

  /** `s.Split(c)`: every maximal `c`-free piece of `s`, in order; there is
      always at least one (the empty string splits into one empty piece). */
  function Split(s: string, c: char): (parts: seq<string>)
    ensures |parts| >= 1
    ensures Join(parts, c) == s
    ensures forall i :: 0 <= i < |parts| ==> c !in parts[i]
    decreases |s|
  {
    match SplitFirst(s, c)
    case None => [s]
    case Some(p) =>
      var rest := Split(p.1, c);
      assert ([p.0] + rest)[1..] == rest;
      [p.0] + rest
  }

  /** Splitting a join of `c`-free pieces returns exactly those pieces. */
  lemma {:induction false} SplitOfJoin(parts: seq<string>, c: char)
    requires |parts| >= 1
    requires forall i :: 0 <= i < |parts| ==> c !in parts[i]
    ensures Split(Join(parts, c), c) == parts
  {
    if |parts| == 1 {
      assert Join(parts, c) == parts[0];
    } else {
      var tail := parts[1..];
      SplitOfJoin(tail, c);
      SplitFirstOfJoin(parts[0], c, Join(tail, c));
      assert [parts[0]] + tail == parts;
    }
  }

  /** `s.StartsWith(p)` with ordinal comparison. */
  predicate StartsWith(s: string, p: string)
  {
    |p| <= |s| && s[..|p|] == p
  }

  /** `char.IsWhiteSpace`: the Unicode space separators, line and paragraph
      separators, and the control characters U+0009..U+000D and U+0085. */
  predicate IsWhiteSpace(ch: char)
  {
    || ch == ' ' || ('\t' <= ch <= '\r') || ch == '\U{85}' || ch == '\U{A0}'
    || ch == '\U{1680}' || ('\U{2000}' <= ch <= '\U{200A}') || ch == '\U{2028}'
    || ch == '\U{2029}' || ch == '\U{202F}' || ch == '\U{205F}' || ch == '\U{3000}'
  }

  /** `s.Trim()`: `s` without its leading and trailing white space. */
  function Trim(s: string): (r: string)
    ensures |r| <= |s|
    ensures |r| > 0 ==> !IsWhiteSpace(r[0]) && !IsWhiteSpace(r[|r| - 1])
    ensures forall k :: 0 <= k < |s| && !IsWhiteSpace(s[k]) ==> |r| > 0
    decreases |s|
  {
    if |s| == 0 then s
    else if IsWhiteSpace(s[0]) then Trim(s[1..])
    else if IsWhiteSpace(s[|s| - 1]) then Trim(s[..|s| - 1])
    else s
  }

  /** `Trim` cuts off exactly a white-space prefix and a white-space suffix:
      the result is a slice of the input with only white space around it. */
  predicate SliceBetweenSpace(s: string, r: string, i: nat, j: nat)
  {
    i <= j <= |s| && r == s[i..j] &&
    (forall k :: 0 <= k < i ==> IsWhiteSpace(s[k])) &&
    (forall k :: j <= k < |s| ==> IsWhiteSpace(s[k]))
  }

  lemma {:induction false} TrimSlice(s: string)
    ensures exists i: nat, j: nat :: SliceBetweenSpace(s, Trim(s), i, j)
    decreases |s|
  {
    if |s| == 0 {
      assert SliceBetweenSpace(s, Trim(s), 0, 0);
    } else if IsWhiteSpace(s[0]) {
      var t := s[1..];
      TrimSlice(t);
      var i: nat, j: nat :| SliceBetweenSpace(t, Trim(t), i, j);
      DropFirst(s, Trim(t), i, j);
      assert SliceBetweenSpace(s, Trim(s), i + 1, j + 1);
    } else if IsWhiteSpace(s[|s| - 1]) {
      var t := s[..|s| - 1];
      TrimSlice(t);
      var i: nat, j: nat :| SliceBetweenSpace(t, Trim(t), i, j);
      DropLast(s, Trim(t), i, j);
      assert SliceBetweenSpace(s, Trim(s), i, j);
    } else {
      assert SliceBetweenSpace(s, Trim(s), 0, |s|);
    }
  }

  /** A slice between white space of `s[1..]` is one of `s` when `s[0]` is white space. */
  lemma DropFirst(s: string, r: string, i: nat, j: nat)
    requires |s| > 0 && IsWhiteSpace(s[0]) && SliceBetweenSpace(s[1..], r, i, j)
    ensures SliceBetweenSpace(s, r, i + 1, j + 1)
  {
    var t := s[1..];
    assert r == s[i + 1..j + 1];
    forall k | 0 <= k < i + 1 ensures IsWhiteSpace(s[k]) {
      if k > 0 { assert s[k] == t[k - 1]; }
    }
    forall k | j + 1 <= k < |s| ensures IsWhiteSpace(s[k]) {
      assert s[k] == t[k - 1];
    }
  }

  /** Likewise for `s[..|s| - 1]` when the last character is white space. */
  lemma DropLast(s: string, r: string, i: nat, j: nat)
    requires |s| > 0 && IsWhiteSpace(s[|s| - 1]) && SliceBetweenSpace(s[..|s| - 1], r, i, j)
    ensures SliceBetweenSpace(s, r, i, j)
  {
    var t := s[..|s| - 1];
    assert r == s[i..j];
    forall k | 0 <= k < i ensures IsWhiteSpace(s[k]) {
      assert s[k] == t[k];
    }
    forall k | j <= k < |s| ensures IsWhiteSpace(s[k]) {
      if k < |t| { assert s[k] == t[k]; }
    }
  }

  /** ASCII case folding of one character (A..Z to a..z); other characters
      are left as they are. */
  function ToLowerChar(ch: char): (r: char)
    ensures 'A' <= ch <= 'Z' ==> r as int == ch as int + 32
    ensures !('A' <= ch <= 'Z') ==> r == ch
  {
    if 'A' <= ch <= 'Z' then (ch as int + 32) as char else ch
  }

  /** `s.ToLower()` restricted to ASCII letters. */
  function ToLower(s: string): (r: string)
    ensures |r| == |s|
    ensures forall k :: 0 <= k < |s| ==> r[k] == ToLowerChar(s[k])
  {
    seq(|s|, k requires 0 <= k < |s| => ToLowerChar(s[k]))
  }

  /** `a.Equals(b, StringComparison.OrdinalIgnoreCase)` for strings whose case
      differences are ASCII. */
  predicate EqualsIgnoreCase(a: string, b: string)
  {
    ToLower(a) == ToLower(b)
  }
}
