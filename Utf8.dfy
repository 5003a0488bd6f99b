/** UTF-8 as in RFC 3629, the way `Encoding.UTF8` of .NET applies it.
    A Dafny `char` is a Unicode scalar value, so encoding never fails;
    decoding never fails either: every maximal ill-formed subpart is replaced
    by one U+FFFD, following the well-formed byte sequences of Table 3-7 of
    the Unicode Standard. */
module Utf8 {
  import opened Wrappers

  const Replacement: char := '\U{FFFD}'

  /** The bytes of one scalar value: the shortest form of RFC 3629, section 3. */
  function EncodeChar(c: char): (bs: seq<byte>)
    ensures 1 <= |bs| <= 4
  {
    var cp := c as int;
    if cp < 0x80 then [cp as byte]
    else if cp < 0x800 then [(0xC0 + cp / 64) as byte, (0x80 + cp % 64) as byte]
    else if cp < 0x10000 then
      [(0xE0 + cp / 4096) as byte, (0x80 + (cp / 64) % 64) as byte, (0x80 + cp % 64) as byte]
    else
      [ (0xF0 + cp / 262144) as byte, (0x80 + (cp / 4096) % 64) as byte,
        (0x80 + (cp / 64) % 64) as byte, (0x80 + cp % 64) as byte ]
  }

  /** `Encoding.UTF8.GetBytes`. */
  function Encode(s: string): seq<byte>
  {
    if |s| == 0 then [] else EncodeChar(s[0]) + Encode(s[1..])
  }

  /** The length of the well-formed sequence a lead byte opens; 0 for the bytes
      that never open one (80..C1 and F5..FF). */
  function SequenceLength(b: byte): nat
  {
    if b <= 0x7F then 1
    else if 0xC2 <= b <= 0xDF then 2
    else if 0xE0 <= b <= 0xEF then 3
    else if 0xF0 <= b <= 0xF4 then 4
    else 0
  }

  /** Whether `b` may stand at position `k` (1 <= k) of a sequence opened by
      `lead`: the second byte has the narrowed ranges of Table 3-7 after E0, ED,
      F0 and F4; every other continuation byte is in 80..BF. */
  predicate ContinuationAllowed(lead: byte, k: nat, b: byte)
  {
    if k == 1 then
      (if lead == 0xE0 then 0xA0 <= b <= 0xBF
       else if lead == 0xED then 0x80 <= b <= 0x9F
       else if lead == 0xF0 then 0x90 <= b <= 0xBF
       else if lead == 0xF4 then 0x80 <= b <= 0x8F
       else 0x80 <= b <= 0xBF)
    else 0x80 <= b <= 0xBF
  }

  /** How many bytes from position `k` on continue the sequence opened by
      `bs[0]`, up to its length `n`: the end of the maximal subpart. */
  function SubpartEnd(bs: seq<byte>, n: nat, k: nat): (j: nat)
    requires 1 <= k <= n <= 4 && k <= |bs|
    ensures k <= j <= n && j <= |bs|
    ensures forall i :: k <= i < j ==> i < |bs| && ContinuationAllowed(bs[0], i, bs[i])
    ensures j < n ==> j >= |bs| || !ContinuationAllowed(bs[0], j, bs[j])
    decreases n - k
  {
    if k == n || k >= |bs| || !ContinuationAllowed(bs[0], k, bs[k]) then k
    else SubpartEnd(bs, n, k + 1)
  }

  /** The scalar value a well-formed sequence of length `n` stands for. */
  function CodePoint(bs: seq<byte>, n: nat): (cp: int)
    requires 2 <= n <= 4 && |bs| >= n && SequenceLength(bs[0]) == n
    requires forall i :: 1 <= i < n ==> ContinuationAllowed(bs[0], i, bs[i])
    ensures 0 <= cp < 0xD800 || 0xE000 <= cp < 0x110000
  {
    var b0, b1 := bs[0] as int, bs[1] as int - 0x80;
    if n == 2 then (b0 - 0xC0) * 64 + b1
    else if n == 3 then
      var b2 := bs[2] as int - 0x80;
      assert ContinuationAllowed(bs[0], 1, bs[1]) && ContinuationAllowed(bs[0], 2, bs[2]);
      assert 0 <= b1 < 64 && 0 <= b2 < 64;
      assert b0 == 0xED ==> b1 < 32;
      assert b0 == 0xE0 ==> b1 >= 32;
      assert b0 < 0xED ==> (b0 - 0xE0) * 4096 + b1 * 64 + b2 < 0xD000;
      assert b0 > 0xED ==> (b0 - 0xE0) * 4096 >= 0xE000;
      (b0 - 0xE0) * 4096 + b1 * 64 + b2
    else
      var b2, b3 := bs[2] as int - 0x80, bs[3] as int - 0x80;
      assert ContinuationAllowed(bs[0], 1, bs[1]) && ContinuationAllowed(bs[0], 2, bs[2]);
      assert ContinuationAllowed(bs[0], 3, bs[3]);
      assert 0 <= b1 < 64 && 0 <= b2 < 64 && 0 <= b3 < 64;
      assert b0 == 0xF4 ==> b1 < 16;
      assert b0 < 0xF4 ==> (b0 - 0xF0) * 262144 + b1 * 4096 + b2 * 64 + b3 < 0x100000;
      (b0 - 0xF0) * 262144 + b1 * 4096 + b2 * 64 + b3
  }

  /** The first character of `bs` and how many bytes it takes. */
  function DecodeFirst(bs: seq<byte>): (r: (char, nat))
    requires |bs| >= 1
    ensures 1 <= r.1 <= |bs|
  {
    var n := SequenceLength(bs[0]);
    if n == 1 then (bs[0] as int as char, 1)
    else if n == 0 then (Replacement, 1)
    else
      var j := SubpartEnd(bs, n, 1);
      if j == n then (CodePoint(bs, n) as char, n) else (Replacement, j)
  }

  /** `Encoding.UTF8.GetString`. */
  function Decode(bs: seq<byte>): string
    decreases |bs|
  {
    if |bs| == 0 then []
    else
      var r := DecodeFirst(bs);
      [r.0] + Decode(bs[r.1..])
  }

  lemma DecodeFirstOneByte(c: char, rest: seq<byte>)
    requires c as int < 0x80
    ensures DecodeFirst(EncodeChar(c) + rest) == (c, 1)
  {
  }

  lemma DecodeFirstTwoBytes(c: char, rest: seq<byte>)
    requires 0x80 <= c as int < 0x800
    ensures DecodeFirst(EncodeChar(c) + rest) == (c, 2)
  {
    var cp := c as int;
    var bs := EncodeChar(c) + rest;
    assert bs[0] as int == 0xC0 + cp / 64 && bs[1] as int == 0x80 + cp % 64;
    assert SubpartEnd(bs, 2, 1) == 2;
    assert CodePoint(bs, 2) == cp;
  }

  lemma DecodeFirstThreeBytes(c: char, rest: seq<byte>)
    requires 0x800 <= c as int < 0x10000
    ensures DecodeFirst(EncodeChar(c) + rest) == (c, 3)
  {
    var cp := c as int;
    var bs := EncodeChar(c) + rest;
    var x0, x1, x2 := cp / 4096, (cp / 64) % 64, cp % 64;
    assert cp == x0 * 4096 + x1 * 64 + x2;
    assert bs[0] as int == 0xE0 + x0 && bs[1] as int == 0x80 + x1 && bs[2] as int == 0x80 + x2;
    assert x0 == 0 ==> x1 >= 32;
    assert x0 == 13 ==> x1 < 32;
    assert ContinuationAllowed(bs[0], 1, bs[1]);
    assert SubpartEnd(bs, 3, 2) == 3;
    assert SubpartEnd(bs, 3, 1) == 3;
    assert CodePoint(bs, 3) == cp;
  }

  /** The four six-bit digits of a supplementary-plane scalar value. */
  lemma FourByteDigits(cp: int)
    requires 0x10000 <= cp < 0x110000
    ensures var x0, x1, x2, x3 := cp / 262144, (cp / 4096) % 64, (cp / 64) % 64, cp % 64;
      && cp == x0 * 262144 + x1 * 4096 + x2 * 64 + x3
      && 0 <= x0 <= 4 && 0 <= x1 < 64 && 0 <= x2 < 64 && 0 <= x3 < 64
      && (x0 == 0 ==> x1 >= 16) && (x0 == 4 ==> x1 < 16)
  {
  }

  lemma DecodeFirstFourBytes(c: char, rest: seq<byte>)
    requires 0x10000 <= c as int
    ensures DecodeFirst(EncodeChar(c) + rest) == (c, 4)
  {
    var cp := c as int;
    var bs := EncodeChar(c) + rest;
    var x0, x1, x2, x3 := cp / 262144, (cp / 4096) % 64, (cp / 64) % 64, cp % 64;
    FourByteDigits(cp);
    assert bs[0] as int == 0xF0 + x0 && bs[1] as int == 0x80 + x1;
    assert bs[2] as int == 0x80 + x2 && bs[3] as int == 0x80 + x3;
    assert ContinuationAllowed(bs[0], 1, bs[1]);
    assert SubpartEnd(bs, 4, 3) == 4;
    assert SubpartEnd(bs, 4, 2) == 4;
    assert SubpartEnd(bs, 4, 1) == 4;
    assert CodePoint(bs, 4) == cp;
  }

  /** The first character decoded from an encoding is the one encoded, and it
      takes exactly its own bytes. */
  lemma DecodeFirstOfEncoding(c: char, rest: seq<byte>)
    ensures DecodeFirst(EncodeChar(c) + rest) == (c, |EncodeChar(c)|)
  {
    var cp := c as int;
    if cp < 0x80 { DecodeFirstOneByte(c, rest); }
    else if cp < 0x800 { DecodeFirstTwoBytes(c, rest); }
    else if cp < 0x10000 { DecodeFirstThreeBytes(c, rest); }
    else { DecodeFirstFourBytes(c, rest); }
  }

  /** Decoding an encoding gives the original text back: UTF-8 is injective
      on scalar values. */
  lemma {:induction false} RoundTrip(s: string)
    ensures Decode(Encode(s)) == s
  {
    if |s| > 0 {
      var head, rest := EncodeChar(s[0]), Encode(s[1..]);
      DecodeFirstOfEncoding(s[0], rest);
      assert Encode(s) == head + rest;
      assert (head + rest)[|head|..] == rest;
      RoundTrip(s[1..]);
      assert [s[0]] + s[1..] == s;
    }
  }

  /** A lone continuation byte is an ill-formed subpart of its own and turns
      into a single U+FFFD. */
  lemma StrayContinuation(b: byte, rest: seq<byte>)
    requires 0x80 <= b <= 0xBF
    ensures Decode([b] + rest) == [Replacement] + Decode(rest)
  {
    assert ([b] + rest)[1..] == rest;
  }
}
