/** The JavaScript string operations the services rely on, over Dafny
    strings: `toLowerCase` on the ASCII range, `trim`, `split` on one
    character, `join`, `startsWith`/`endsWith`/`includes`, `replace` of the
    first occurrence of a string, decimal printing of integers and decimal
    parsing of digit strings. */
module Text {
  import opened Wrappers

  // ---------------------------------------------------------- truthiness

  /** An optional string is truthy in JavaScript when it is set and
      non-empty. */
  predicate Truthy(o: Option<string>) {
    o.Some? && o.value != ""
  }

  /** `o || fallback` for an optional string. */
  function OrElse(o: Option<string>, fallback: string): string {
    if Truthy(o) then o.value else fallback
  }

  // ---------------------------------------------------------------- case

  function LowerChar(c: char): char {
    if 'A' <= c <= 'Z' then (c as int + 32) as char else c
  }

  function ToLower(s: string): (r: string)
    ensures |r| == |s|
    ensures forall i :: 0 <= i < |s| ==> r[i] == LowerChar(s[i])
  {
    if s == [] then [] else [LowerChar(s[0])] + ToLower(s[1..])
  }

  // ---------------------------------------------------------------- trim

  /** The characters `String.prototype.trim` removes: white space and line
      terminators. */
  predicate IsWhite(c: char) {
    || c == ' ' || c == '\t' || c == '\n' || c == '\r'
    || c == '\U{000B}' || c == '\U{000C}' || c == '\U{00A0}' || c == '\U{1680}'
    || ('\U{2000}' <= c <= '\U{200A}')
    || c == '\U{2028}' || c == '\U{2029}' || c == '\U{202F}' || c == '\U{205F}'
    || c == '\U{3000}' || c == '\U{FEFF}'
  }

  function TrimStart(s: string): (r: string)
    ensures |r| <= |s| && r == s[|s| - |r|..]
    ensures r == [] || !IsWhite(r[0])
    ensures forall i :: 0 <= i < |s| - |r| ==> IsWhite(s[i])
  {
    if s != [] && IsWhite(s[0]) then TrimStart(s[1..]) else s
  }

  function TrimEnd(s: string): (r: string)
    ensures |r| <= |s| && r == s[..|r|]
    ensures r == [] || !IsWhite(r[|r| - 1])
    ensures forall i :: |r| <= i < |s| ==> IsWhite(s[i])
  {
    if s != [] && IsWhite(s[|s| - 1]) then TrimEnd(s[..|s| - 1]) else s
  }

  function Trim(s: string): (r: string)
    ensures |r| <= |s|
    ensures r == [] || (!IsWhite(r[0]) && !IsWhite(r[|r| - 1]))
  {
    TrimEnd(TrimStart(s))
  }

  /** A string with no white space at either end is its own trim; in
      particular trimming twice is trimming once. */
  lemma TrimOfTrimmed(s: string)
    requires s == [] || (!IsWhite(s[0]) && !IsWhite(s[|s| - 1]))
    ensures Trim(s) == s
  {
  }

  lemma TrimIdempotent(s: string)
    ensures Trim(Trim(s)) == Trim(s)
  {
    TrimOfTrimmed(Trim(s));
  }

  /** Trimming keeps a suffix that starts and ends with non-white
      characters. */
  lemma TrimKeepsSuffix(a: string, p: string)
    requires p != [] && !IsWhite(p[0]) && !IsWhite(p[|p| - 1])
    ensures EndsWith(Trim(a + p), p)
  {
    var s := a + p;
    var t := TrimStart(s);
    assert s[|a|] == p[0];
    var k := |s| - |t|;
    assert k <= |a|;
    assert t[|t| - |p|..] == p by {
      assert t == s[k..];
      assert s[|a|..] == p;
    }
    var r := TrimEnd(t);
    assert |r| == |t|;
  }

  /** A string made only of white space trims to the empty string. */
  lemma {:induction false} TrimAllWhite(s: string)
    requires forall i :: 0 <= i < |s| ==> IsWhite(s[i])
    ensures TrimStart(s) == [] && Trim(s) == []
  {
    if s != [] {
      TrimAllWhite(s[1..]);
    }
  }

  // ---------------------------------------------------------------- search

  predicate StartsWith(s: string, p: string) {
    |p| <= |s| && s[..|p|] == p
  }

  predicate EndsWith(s: string, p: string) {
    |p| <= |s| && s[|s| - |p|..] == p
  }

  predicate OccursAt(s: string, p: string, i: int) {
    0 <= i && i + |p| <= |s| && s[i..i + |p|] == p
  }

  /** `s.includes(p)`. */
  predicate Contains(s: string, p: string) {
    exists i | 0 <= i <= |s| - |p| :: OccursAt(s, p, i)
  }

  lemma StartsWithConcat(a: string, b: string)
    ensures StartsWith(a + b, a)
    ensures (a + b)[|a|..] == b
  {
    assert (a + b)[..|a|] == a;
  }

  lemma EndsWithConcat(a: string, b: string)
    ensures EndsWith(a + b, b)
    ensures (a + b)[..|a|] == a
  {
    assert (a + b)[|a|..] == b;
  }

  /** A pattern whose first character does not occur is not contained. */
  lemma AbsentFirstChar(s: string, p: string)
    requires |p| >= 1 && p[0] !in s
    ensures !Contains(s, p)
  {
    forall i | 0 <= i <= |s| - |p|
      ensures !OccursAt(s, p, i)
    {
      assert s[i] in s;
    }
  }

  /** Index of the first occurrence of `p` in `s` at or after `from`, or -1. */
  function FindFrom(s: string, p: string, from: nat): (k: int)
    requires from <= |s|
    ensures k == -1 || (from <= k && OccursAt(s, p, k))
    ensures forall j :: from <= j && (k == -1 || j < k) ==> !OccursAt(s, p, j)
    decreases |s| - from
  {
    if OccursAt(s, p, from) then from
    else if from == |s| then -1
    else FindFrom(s, p, from + 1)
  }

  /** `s.replace(p, r)` with a string pattern: only the first occurrence. */
  function ReplaceFirst(s: string, p: string, r: string): (t: string)
    ensures FindFrom(s, p, 0) == -1 ==> t == s
    ensures FindFrom(s, p, 0) >= 0 ==>
      var k := FindFrom(s, p, 0); t == s[..k] + r + s[k + |p|..]
  {
    var k := FindFrom(s, p, 0);
    if k < 0 then s else s[..k] + r + s[k + |p|..]
  }

  /** When `p` first occurs right after the prefix `a`, replacing it by the
      empty string gives back `a`. */
  lemma RemoveFirstAfterPrefix(a: string, p: string)
    requires forall j :: 0 <= j < |a| ==> !OccursAt(a + p, p, j)
    ensures ReplaceFirst(a + p, p, "") == a
  {
    var s := a + p;
    assert OccursAt(s, p, |a|);
    var k := FindFrom(s, p, 0);
    assert k == |a|;
    assert s[..k] == a;
  }

  // ---------------------------------------------------------------- split / join

  /** `s.split(c)` for a one-character separator: always at least one part,
      and no part holds the separator. */
  function Split(s: string, c: char): (parts: seq<string>)
    ensures |parts| >= 1
    ensures forall i :: 0 <= i < |parts| ==> c !in parts[i]
  {
    if s == [] then [""]
    else
      var rest := Split(s[1..], c);
      if s[0] == c then [""] + rest
      else [[s[0]] + rest[0]] + rest[1..]
  }

  function Join(parts: seq<string>, c: char): string
    requires |parts| >= 1
  {
    if |parts| == 1 then parts[0] else parts[0] + [c] + Join(parts[1..], c)
  }

  /** Joining the parts of a split gives the string back. */
  lemma {:induction false} JoinSplit(s: string, c: char)
    ensures Join(Split(s, c), c) == s
  {
    if s != [] {
      var rest := Split(s[1..], c);
      JoinSplit(s[1..], c);
      if s[0] == c {
        assert Split(s, c) == [""] + rest;
        assert ([""] + rest)[1..] == rest;
      } else {
        var ps := Split(s, c);
        assert ps == [[s[0]] + rest[0]] + rest[1..];
        if |rest| == 1 {
          assert Join(ps, c) == [s[0]] + rest[0];
        } else {
          assert ps[1..] == rest[1..];
          assert Join(rest, c) == rest[0] + [c] + Join(rest[1..], c);
          assert Join(ps, c) == ([s[0]] + rest[0]) + [c] + Join(rest[1..], c);
        }
        assert s == [s[0]] + s[1..];
      }
    }
  }

  /** Splitting a join of separator-free parts gives the parts back. */
  lemma {:induction false} SplitJoin(parts: seq<string>, c: char)
    requires |parts| >= 1
    requires forall i :: 0 <= i < |parts| ==> c !in parts[i]
    ensures Split(Join(parts, c), c) == parts
    decreases |parts|, |parts[0]|
  {
    if |parts| == 1 {
      SplitNoSeparator(parts[0], c);
    } else if parts[0] == [] {
      var tail := Join(parts[1..], c);
      assert Join(parts, c) == [c] + tail;
      assert ([c] + tail)[1..] == tail;
      SplitJoin(parts[1..], c);
      assert parts == [""] + parts[1..];
    } else {
      var p0 := parts[0];
      var shorter := [p0[1..]] + parts[1..];
      assert shorter[1..] == parts[1..];
      assert c !in p0[1..];
      assert forall i :: 1 <= i < |shorter| ==> shorter[i] == parts[i];
      SplitJoin(shorter, c);
      var s := Join(parts, c);
      assert s == [p0[0]] + Join(shorter, c);
      assert s[1..] == Join(shorter, c);
      assert s[0] == p0[0] && p0[0] != c;
      assert p0 == [p0[0]] + p0[1..];
      assert parts == [[p0[0]] + p0[1..]] + parts[1..];
    }
  }

  lemma {:induction false} SplitNoSeparator(s: string, c: char)
    requires c !in s
    ensures Split(s, c) == [s]
  {
    if s != [] {
      SplitNoSeparator(s[1..], c);
      assert s == [s[0]] + s[1..];
    }
  }

  /** The text after the last `c` (`s.split(c).pop()`); the whole string
      when there is no `c`. */
  function LastSegment(s: string, c: char): (r: string)
    ensures c !in r
  {
    var parts := Split(s, c);
    parts[|parts| - 1]
  }

  /** The last segment is a suffix of `s`, and, when `s` holds a `c`, it is
      preceded by one. */
  lemma {:induction false} LastSegmentIsSuffix(s: string, c: char)
    ensures EndsWith(s, LastSegment(s, c))
    ensures c !in s ==> LastSegment(s, c) == s
    ensures c in s ==> |LastSegment(s, c)| < |s| && s[|s| - |LastSegment(s, c)| - 1] == c
  {
    if c !in s {
      SplitNoSeparator(s, c);
    } else {
      var rest := Split(s[1..], c);
      LastSegmentIsSuffix(s[1..], c);
      assert s == [s[0]] + s[1..];
      var ps := Split(s, c);
      if s[0] == c {
        assert ps[|ps| - 1] == rest[|rest| - 1];
      } else {
        assert c in s[1..];
        SplitSepCount(s[1..], c);
        assert ps[|ps| - 1] == rest[|rest| - 1];
      }
    }
  }

  /** A string holding the separator splits into at least two parts. */
  lemma {:induction false} SplitSepCount(s: string, c: char)
    ensures c in s <==> |Split(s, c)| >= 2
  {
    if s != [] {
      SplitSepCount(s[1..], c);
      assert c in s <==> (s[0] == c || c in s[1..]);
    }
  }

  // ---------------------------------------------------------------- digits

  predicate IsDigit(c: char) { '0' <= c <= '9' }

  predicate AllDigits(s: string) {
    forall i :: 0 <= i < |s| ==> IsDigit(s[i])
  }

  function DigitChar(d: nat): (c: char)
    requires d < 10
    ensures IsDigit(c)
  {
    ('0' as int + d) as char
  }

  /** `String(n)` for a non-negative integer: its decimal digits. */
  function NatToString(n: nat): (s: string)
    ensures |s| >= 1 && AllDigits(s)
  {
    if n < 10 then [DigitChar(n)] else NatToString(n / 10) + [DigitChar(n % 10)]
  }

  /** `parseInt(s, 10)` of a non-empty string of decimal digits. */
  function ParseDigits(s: string): nat
    requires AllDigits(s)
  {
    if s == [] then 0
    else ParseDigits(s[..|s| - 1]) * 10 + (s[|s| - 1] as int - '0' as int)
  }

  /** Reading back a printed number gives the number. */
  lemma {:induction false} ParsePrinted(n: nat)
    ensures ParseDigits(NatToString(n)) == n
  {
    var s := NatToString(n);
    if n < 10 {
      assert s[..0] == [];
    } else {
      ParsePrinted(n / 10);
      assert s[..|s| - 1] == NatToString(n / 10);
    }
  }

  /** Distinct numbers print differently. */
  lemma PrintedInjective(a: nat, b: nat)
    requires NatToString(a) == NatToString(b)
    ensures a == b
  {
    ParsePrinted(a);
    ParsePrinted(b);
  }

  /** Leading zeros do not change the value read. */
  lemma {:induction false} ParseLeadingZero(s: string)
    requires AllDigits(s)
    ensures AllDigits("0" + s) && ParseDigits("0" + s) == ParseDigits(s)
  {
    var t := "0" + s;
    if s != [] {
      assert t[..|t| - 1] == "0" + s[..|s| - 1];
      ParseLeadingZero(s[..|s| - 1]);
    }
  }

  /** `String(n).padStart(width, '0')`. */
  function PadStart(s: string, width: nat): (r: string)
    ensures |r| == if |s| < width then width else |s|
    ensures EndsWith(r, s)
    decreases width - |s|
  {
    if |s| < width then PadStart("0" + s, width) else s
  }

  /** Zero-padding a printed number still reads back as that number. */
  lemma {:induction false} ParsePadded(s: string, width: nat)
    requires AllDigits(s)
    ensures AllDigits(PadStart(s, width)) && ParseDigits(PadStart(s, width)) == ParseDigits(s)
    decreases width - |s|
  {
    if |s| < width {
      ParseLeadingZero(s);
      ParsePadded("0" + s, width);
    }
  }

  /** What `Number(s)` gives for a string, as far as this model interprets
      it: surrounding white space is ignored, an all-white string is 0, a
      string of decimal digits is its value; any other string (signs,
      fractions, exponents, hexadecimal, "Infinity", garbage that yields
      NaN) is kept uninterpreted. */
  datatype JsNumber = Decimal(n: nat) | Uninterpreted(raw: string)

  function ToNumber(s: string): (r: JsNumber)
    ensures Trim(s) == [] ==> r == Decimal(0)
    ensures Trim(s) != [] && AllDigits(Trim(s)) ==> r == Decimal(ParseDigits(Trim(s)))
    ensures !AllDigits(Trim(s)) ==> r == Uninterpreted(s)
  {
    var t := Trim(s);
    if t == [] then Decimal(0)
    else if AllDigits(t) then Decimal(ParseDigits(t))
    else Uninterpreted(s)
  }

  /** A printed number converts back to itself. */
  lemma NumberOfPrinted(n: nat)
    ensures ToNumber(NatToString(n)) == Decimal(n)
  {
    var s := NatToString(n);
    assert !IsWhite(s[0]) && !IsWhite(s[|s| - 1]);
    TrimOfTrimmed(s);
    ParsePrinted(n);
  }
}
