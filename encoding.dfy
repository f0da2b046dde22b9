/** The two byte codecs the placeholder cover goes through:
    `Buffer.from(svg, 'utf8')` and `.toString('base64')` (RFC 4648 section 4
    alphabet, `=` padding). */
module Encoding {

  newtype byte = x: int | 0 <= x < 256

  // ------------------------------------------------------------- UTF-8

  /** One scalar value as UTF-8 (RFC 3629 section 3). */
  function Utf8Char(c: char): (r: seq<byte>)
    ensures 1 <= |r| <= 4
    ensures (c as int < 0x80) <==> |r| == 1
    ensures |r| == 1 ==> r[0] as int == c as int
  {
    var n := c as int;
    if n < 0x80 then [n as byte]
    else if n < 0x800 then [(0xC0 + n / 64) as byte, (0x80 + n % 64) as byte]
    else if n < 0x10000 then
      [(0xE0 + n / 4096) as byte, (0x80 + (n / 64) % 64) as byte, (0x80 + n % 64) as byte]
    else
      [(0xF0 + n / 262144) as byte, (0x80 + (n / 4096) % 64) as byte,
       (0x80 + (n / 64) % 64) as byte, (0x80 + n % 64) as byte]
  }

  function Utf8(s: string): (r: seq<byte>)
    ensures |r| >= |s|
  {
    if s == [] then [] else Utf8Char(s[0]) + Utf8(s[1..])
  }

  predicate IsAscii(s: string) {
    forall i :: 0 <= i < |s| ==> s[i] as int < 0x80
  }

  /** Encoding distributes over concatenation. */
  lemma {:induction false} Utf8Append(a: string, b: string)
    ensures Utf8(a + b) == Utf8(a) + Utf8(b)
  {
    if a == [] {
      assert a + b == b;
    } else {
      assert (a + b)[1..] == a[1..] + b;
      Utf8Append(a[1..], b);
    }
  }

  /** ASCII text encodes to one byte per character, with the same values. */
  lemma {:induction false} Utf8Ascii(s: string)
    requires IsAscii(s)
    ensures |Utf8(s)| == |s|
    ensures forall i :: 0 <= i < |s| ==> Utf8(s)[i] as int == s[i] as int
  {
    if s != [] {
      Utf8Ascii(s[1..]);
    }
  }

  /** The encoding of text starting with ASCII `p` starts with the bytes of
      `p`. */
  lemma Utf8AsciiPrefix(s: string, p: string)
    requires |p| <= |s| && s[..|p|] == p && IsAscii(p)
    ensures |Utf8(s)| >= |p|
    ensures forall i :: 0 <= i < |p| ==> Utf8(s)[i] as int == p[i] as int
  {
    assert s == p + s[|p|..];
    Utf8Append(p, s[|p|..]);
    Utf8Ascii(p);
  }

  // ------------------------------------------------------------- base64

  function Digit(i: int): (c: char)
    requires 0 <= i < 64
  {
    if i < 26 then ('A' as int + i) as char
    else if i < 52 then ('a' as int + i - 26) as char
    else if i < 62 then ('0' as int + i - 52) as char
    else if i == 62 then '+'
    else '/'
  }

  /** The inverse of `Digit`; -1 outside the alphabet. */
  function DigitValue(c: char): (i: int)
    ensures -1 <= i < 64
    ensures 0 <= i ==> Digit(i) == c
  {
    if 'A' <= c <= 'Z' then c as int - 'A' as int
    else if 'a' <= c <= 'z' then c as int - 'a' as int + 26
    else if '0' <= c <= '9' then c as int - '0' as int + 52
    else if c == '+' then 62
    else if c == '/' then 63
    else -1
  }

  lemma DigitValueOfDigit(i: int)
    requires 0 <= i < 64
    ensures DigitValue(Digit(i)) == i
  {
  }

  /** Three bytes as four digits: the 24 bits cut into four 6-bit slices. */
  function Quad(a: byte, b: byte, c: byte): (r: string)
    ensures |r| == 4
  {
    [Digit(a as int / 4), Digit((a as int % 4) * 16 + b as int / 16),
     Digit((b as int % 16) * 4 + c as int / 64), Digit(c as int % 64)]
  }

  function Base64(b: seq<byte>): (r: string)
    ensures r == [] <==> b == []
  {
    if |b| >= 3 then Quad(b[0], b[1], b[2]) + Base64(b[3..])
    else if |b| == 2 then Quad(b[0], b[1], 0)[..3] + "="
    else if |b| == 1 then Quad(b[0], 0, 0)[..2] + "=="
    else ""
  }

  /** Whole groups of three bytes encode independently of what follows, so
      the first four characters depend only on the first three bytes. */
  lemma {:induction false} Base64Append(a: seq<byte>, b: seq<byte>)
    requires |a| % 3 == 0
    ensures Base64(a + b) == Base64(a) + Base64(b)
  {
    if a == [] {
      assert a + b == b;
    } else {
      assert (a + b)[3..] == a[3..] + b;
      assert (a + b)[..3] == a[..3];
      Base64Append(a[3..], b);
    }
  }

  lemma Base64Prefix(b: seq<byte>)
    requires |b| >= 3
    ensures Base64(b)[..4] == Quad(b[0], b[1], b[2])
  {
  }

  // ---------------------------------------------- decoding, for the round trip

  /** Four characters of the alphabet. */
  predicate IsGroup(s: string) {
    |s| >= 4 && DigitValue(s[0]) >= 0 && DigitValue(s[1]) >= 0
    && DigitValue(s[2]) >= 0 && DigitValue(s[3]) >= 0
  }

  function Unquad(s: string): (r: seq<byte>)
    requires |s| == 4 && IsGroup(s)
    ensures |r| == 3
  {
    var v0, v1, v2, v3 := DigitValue(s[0]), DigitValue(s[1]), DigitValue(s[2]), DigitValue(s[3]);
    [(v0 * 4 + v1 / 16) as byte, ((v1 % 16) * 16 + v2 / 4) as byte, ((v2 % 4) * 64 + v3) as byte]
  }

  lemma QuadRoundTrip(a: byte, b: byte, c: byte)
    ensures IsGroup(Quad(a, b, c))
    ensures Unquad(Quad(a, b, c)) == [a, b, c]
  {
    var x, y, z := a as int, b as int, c as int;
    var v0, v1, v2, v3 := x / 4, (x % 4) * 16 + y / 16, (y % 16) * 4 + z / 64, z % 64;
    DigitValueOfDigit(v0);
    DigitValueOfDigit(v1);
    DigitValueOfDigit(v2);
    DigitValueOfDigit(v3);
    assert v1 / 16 == x % 4 && v1 % 16 == y / 16;
    assert v2 / 4 == y % 16 && v2 % 4 == z / 64;
  }

  /** Decoding of unpadded whole groups (the only shape the round trip below
      needs). */
  function DecodeGroups(s: string): seq<byte>
    decreases |s|
  {
    if IsGroup(s) then Unquad(s[..4]) + DecodeGroups(s[4..])
    else []
  }

  lemma DecodeGroupsCons(q: string, rest: string)
    requires |q| == 4 && IsGroup(q)
    ensures DecodeGroups(q + rest) == Unquad(q) + DecodeGroups(rest)
  {
    var e := q + rest;
    assert e[..4] == q;
    assert e[4..] == rest;
    assert e[0] == q[0] && e[1] == q[1] && e[2] == q[2] && e[3] == q[3];
  }

  lemma Base64Cons(b: seq<byte>)
    requires |b| >= 3
    ensures Base64(b) == Quad(b[0], b[1], b[2]) + Base64(b[3..])
  {
  }

  /** One group of three bytes survives the trip. */
  lemma GroupStep(b: seq<byte>)
    requires |b| >= 3
    ensures DecodeGroups(Base64(b)) == b[..3] + DecodeGroups(Base64(b[3..]))
  {
    assert [b[0], b[1], b[2]] == b[..3];
    var q := Quad(b[0], b[1], b[2]);
    Base64Cons(b);
    QuadRoundTrip(b[0], b[1], b[2]);
    DecodeGroupsCons(q, Base64(b[3..]));
  }

  /** Encoding a whole number of groups loses nothing. */
  lemma {:induction false} Base64RoundTrip(b: seq<byte>, groups: nat)
    requires |b| == 3 * groups
    ensures DecodeGroups(Base64(b)) == b
  {
    if b != [] {
      var rest := b[3..];
      GroupStep(b);
      Base64RoundTrip(rest, groups - 1);
      assert b == b[..3] + rest;
    }
  }
}
