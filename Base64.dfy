/** Base64 as in section 4 of RFC 4648 (alphabet "A-Za-z0-9+/", `=` padding),
    with the leniency of .NET's `Convert.FromBase64String`: the four characters
    space, tab, CR and LF are skipped wherever they occur, and the unused low
    bits of a padded final group are not checked. */
module Base64 {
  import opened Wrappers

  /** The character of the 6-bit value `i`. */
  function IndexToChar(i: int): (ch: char)
    requires 0 <= i < 64
    ensures IsBase64Char(ch)
  {
    if i < 26 then ('A' as int + i) as char
    else if i < 52 then ('a' as int + i - 26) as char
    else if i < 62 then ('0' as int + i - 52) as char
    else if i == 62 then '+'
    else '/'
  }

  predicate IsBase64Char(ch: char)
  {
    ('A' <= ch <= 'Z') || ('a' <= ch <= 'z') || ('0' <= ch <= '9') || ch == '+' || ch == '/'
  }

  /** The 6-bit value of an alphabet character; the inverse of IndexToChar. */
  function CharToIndex(ch: char): (i: int)
    requires IsBase64Char(ch)
    ensures 0 <= i < 64 && IndexToChar(i) == ch
  {
    if 'A' <= ch <= 'Z' then ch as int - 'A' as int
    else if 'a' <= ch <= 'z' then ch as int - 'a' as int + 26
    else if '0' <= ch <= '9' then ch as int - '0' as int + 52
    else if ch == '+' then 62
    else 63
  }

  lemma IndexRoundTrip(i: int)
    requires 0 <= i < 64
    ensures CharToIndex(IndexToChar(i)) == i
  {
  }

  /** The four characters of one full group of three bytes. */
  function EncodeGroup(b0: byte, b1: byte, b2: byte): (g: string)
    ensures |g| == 4 && IsBase64Char(g[0]) && IsBase64Char(g[1]) && IsBase64Char(g[2]) && IsBase64Char(g[3])
  {
    [ IndexToChar(b0 as int / 4),
      IndexToChar((b0 as int % 4) * 16 + b1 as int / 16),
      IndexToChar((b1 as int % 16) * 4 + b2 as int / 64),
      IndexToChar(b2 as int % 64) ]
  }

  /** `Convert.ToBase64String`: padded, without line breaks. */
  function Encode(b: seq<byte>): (s: string)
    ensures |s| == (|b| + 2) / 3 * 4
    ensures |s| % 4 == 0
    ensures |b| > 0 ==> |s| > 0
    decreases |b|
  {
    if |b| == 0 then []
    else if |b| == 1 then
      [IndexToChar(b[0] as int / 4), IndexToChar((b[0] as int % 4) * 16), '=', '=']
    else if |b| == 2 then
      [ IndexToChar(b[0] as int / 4), IndexToChar((b[0] as int % 4) * 16 + b[1] as int / 16),
        IndexToChar((b[1] as int % 16) * 4), '=' ]
    else EncodeGroup(b[0], b[1], b[2]) + Encode(b[3..])
  }

  /** Encode writes only alphabet characters and padding. */
  lemma {:induction false} EncodeAlphabet(b: seq<byte>)
    ensures forall k :: 0 <= k < |Encode(b)| ==> IsBase64Char(Encode(b)[k]) || Encode(b)[k] == '='
    decreases |b|
  {
    if |b| >= 3 {
      EncodeAlphabet(b[3..]);
      var g := EncodeGroup(b[0], b[1], b[2]);
      assert Encode(b) == g + Encode(b[3..]);
    }
  }

  /** The characters `Convert.FromBase64String` skips. */
  predicate IsSkipped(ch: char)
  {
    ch == ' ' || ch == '\t' || ch == '\r' || ch == '\n'
  }

  function StripSkipped(s: string): (r: string)
    ensures |r| <= |s|
    ensures forall k :: 0 <= k < |r| ==> !IsSkipped(r[k])
  {
    if |s| == 0 then []
    else if IsSkipped(s[0]) then StripSkipped(s[1..])
    else [s[0]] + StripSkipped(s[1..])
  }

  /** Stripping works character by character: a skipped character vanishes,
      any other is kept, and the pieces of a text are stripped in order. */
  lemma {:induction false} StripSkippedAppend(a: string, b: string)
    ensures StripSkipped(a + b) == StripSkipped(a) + StripSkipped(b)
    ensures |a| == 1 ==> StripSkipped(a) == if IsSkipped(a[0]) then [] else a
    decreases |a|
  {
    if |a| > 0 {
      assert (a + b)[0] == a[0] && (a + b)[1..] == a[1..] + b;
      StripSkippedAppend(a[1..], b);
    } else {
      assert a + b == b;
    }
  }

  lemma {:induction false} StripNothing(s: string)
    requires forall k :: 0 <= k < |s| ==> !IsSkipped(s[k])
    ensures StripSkipped(s) == s
  {
    if |s| > 0 {
      StripNothing(s[1..]);
      assert [s[0]] + s[1..] == s;
    }
  }

  /** The bytes of the last group of an input, which alone may carry padding:
      `xxxx` gives three bytes, `xxx=` two and `xx==` one. */
  function DecodeLastGroup(c0: char, c1: char, c2: char, c3: char): Option<seq<byte>>
  {
    if !IsBase64Char(c0) || !IsBase64Char(c1) then None
    else if IsBase64Char(c2) && IsBase64Char(c3) then Some(DecodeFull(c0, c1, c2, c3))
    else if IsBase64Char(c2) && c3 == '=' then
      var i0, i1, i2 := CharToIndex(c0), CharToIndex(c1), CharToIndex(c2);
      Some([(i0 * 4 + i1 / 16) as byte, ((i1 % 16) * 16 + i2 / 4) as byte])
    else if c2 == '=' && c3 == '=' then
      var i0, i1 := CharToIndex(c0), CharToIndex(c1);
      Some([(i0 * 4 + i1 / 16) as byte])
    else None
  }

  function DecodeFull(c0: char, c1: char, c2: char, c3: char): (r: seq<byte>)
    requires IsBase64Char(c0) && IsBase64Char(c1) && IsBase64Char(c2) && IsBase64Char(c3)
    ensures |r| == 3
  {
    var i0, i1, i2, i3 := CharToIndex(c0), CharToIndex(c1), CharToIndex(c2), CharToIndex(c3);
    [(i0 * 4 + i1 / 16) as byte, ((i1 % 16) * 16 + i2 / 4) as byte, ((i2 % 4) * 64 + i3) as byte]
  }

  /** Decodes a skip-free text whose length is a multiple of four. */
  function DecodeGroups(t: string): Option<seq<byte>>
    requires |t| % 4 == 0
    decreases |t|
  {
    if |t| == 0 then Some([])
    else if |t| == 4 then DecodeLastGroup(t[0], t[1], t[2], t[3])
    else if IsBase64Char(t[0]) && IsBase64Char(t[1]) && IsBase64Char(t[2]) && IsBase64Char(t[3]) then
      match DecodeGroups(t[4..])
      case None => None
      case Some(rest) => Some(DecodeFull(t[0], t[1], t[2], t[3]) + rest)
    else None
  }

  /** `Convert.FromBase64String`; None stands for its FormatException. */
  function Decode(s: string): Option<seq<byte>>
  {
    var t := StripSkipped(s);
    if |t| % 4 != 0 then None else DecodeGroups(t)
  }

  lemma FullGroupRoundTrip(b0: byte, b1: byte, b2: byte)
    ensures var g := EncodeGroup(b0, b1, b2);
      DecodeFull(g[0], g[1], g[2], g[3]) == [b0, b1, b2]
  {
    var x0, x1, x2 := b0 as int, b1 as int, b2 as int;
    IndexRoundTrip(x0 / 4);
    IndexRoundTrip((x0 % 4) * 16 + x1 / 16);
    IndexRoundTrip((x1 % 16) * 4 + x2 / 64);
    IndexRoundTrip(x2 % 64);
    assert ((x0 % 4) * 16 + x1 / 16) / 16 == x0 % 4;
    assert ((x0 % 4) * 16 + x1 / 16) % 16 == x1 / 16;
    assert ((x1 % 16) * 4 + x2 / 64) / 4 == x1 % 16;
    assert ((x1 % 16) * 4 + x2 / 64) % 4 == x2 / 64;
  }

  lemma OneByteRoundTrip(b0: byte)
    ensures var g := Encode([b0]); DecodeLastGroup(g[0], g[1], g[2], g[3]) == Some([b0])
  {
    var x0 := b0 as int;
    var i0, i1 := x0 / 4, (x0 % 4) * 16;
    IndexRoundTrip(i0);
    IndexRoundTrip(i1);
    assert i0 * 4 + i1 / 16 == x0;
  }

  lemma TwoBytesRoundTrip(b0: byte, b1: byte)
    ensures var g := Encode([b0, b1]); DecodeLastGroup(g[0], g[1], g[2], g[3]) == Some([b0, b1])
  {
    var x0, x1 := b0 as int, b1 as int;
    var i0, i1, i2 := x0 / 4, (x0 % 4) * 16 + x1 / 16, (x1 % 16) * 4;
    IndexRoundTrip(i0);
    IndexRoundTrip(i1);
    IndexRoundTrip(i2);
    assert i1 / 16 == x0 % 4 && i1 % 16 == x1 / 16 && i2 / 4 == x1 % 16;
    assert i0 * 4 + i1 / 16 == x0;
    assert (i1 % 16) * 16 + i2 / 4 == x1;
  }

  lemma LastFullGroup(b: seq<byte>)
    requires |b| == 3
    ensures DecodeGroups(Encode(b)) == Some(b)
  {
    var g := EncodeGroup(b[0], b[1], b[2]);
    assert Encode(b[3..]) == [];
    assert Encode(b) == g + [] == g;
    FullGroupRoundTrip(b[0], b[1], b[2]);
    assert [b[0], b[1], b[2]] == b;
  }

  lemma DecodeGroupsCons(g: string, rest: string, r: seq<byte>)
    requires |g| == 4 && IsBase64Char(g[0]) && IsBase64Char(g[1]) && IsBase64Char(g[2]) && IsBase64Char(g[3])
    requires |rest| % 4 == 0 && |rest| > 0 && DecodeGroups(rest) == Some(r)
    ensures DecodeGroups(g + rest) == Some(DecodeFull(g[0], g[1], g[2], g[3]) + r)
  {
    var t := g + rest;
    assert t[..4] == g && t[4..] == rest;
    assert t[0] == g[0] && t[1] == g[1] && t[2] == g[2] && t[3] == g[3];
  }

  lemma InnerGroup(b: seq<byte>)
    requires |b| > 3
    requires DecodeGroups(Encode(b[3..])) == Some(b[3..])
    ensures DecodeGroups(Encode(b)) == Some(b)
  {
    var g := EncodeGroup(b[0], b[1], b[2]);
    var rest := Encode(b[3..]);
    assert Encode(b) == g + rest;
    assert IsBase64Char(g[0]) && IsBase64Char(g[1]) && IsBase64Char(g[2]) && IsBase64Char(g[3]);
    DecodeGroupsCons(g, rest, b[3..]);
    FullGroupRoundTrip(b[0], b[1], b[2]);
    SplitAtThree(b);
  }

  lemma SplitAtThree(b: seq<byte>)
    requires |b| >= 3
    ensures [b[0], b[1], b[2]] + b[3..] == b
  {
    assert b[..3] == [b[0], b[1], b[2]];
    assert b[..3] + b[3..] == b;
  }

  lemma {:induction false} GroupsRoundTrip(b: seq<byte>)
    ensures DecodeGroups(Encode(b)) == Some(b)
    decreases |b|
  {
    if |b| == 1 {
      assert b == [b[0]];
      OneByteRoundTrip(b[0]);
    } else if |b| == 2 {
      assert b == [b[0], b[1]];
      TwoBytesRoundTrip(b[0], b[1]);
    } else if |b| == 3 {
      LastFullGroup(b);
    } else if |b| > 3 {
      GroupsRoundTrip(b[3..]);
      InnerGroup(b);
    }
  }

  /** Decoding what Encode produced gives the original bytes back. */
  lemma RoundTrip(b: seq<byte>)
    ensures Decode(Encode(b)) == Some(b)
  {
    var s := Encode(b);
    EncodeAlphabet(b);
    StripNothing(s);
    GroupsRoundTrip(b);
    assert Decode(s) == DecodeGroups(s);
  }

  /** A text whose length, once the skipped characters are removed, is not a
      multiple of four never decodes. */
  lemma BadLengthFails(s: string)
    requires |StripSkipped(s)| % 4 != 0
    ensures Decode(s) == None
  {
  }
}
