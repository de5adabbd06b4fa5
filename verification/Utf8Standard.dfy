/** UTF-8 as RFC 3629 defines it: section 3 says which octets encode a code point, section 4
    gives the grammar of valid octet sequences. Nothing here follows the codec's own code. */
module Utf8Standard {
  import opened Options
  import opened CharacterCodes

  /** Unicode scalar values: all code points but the surrogates. */
  predicate IsScalar(cp: bv32) {
    cp <= 0x10ffff && !(0xd800 <= cp <= 0xdfff)
  }

  type Scalar = cp: bv32 | IsScalar(cp)

  // The grammar of section 4.

  predicate Tail(b: bv8) { 0x80 <= b <= 0xbf }

  predicate Char1(a: bv8) { a <= 0x7f }

  predicate Char2(a: bv8, b: bv8) { 0xc2 <= a <= 0xdf && Tail(b) }

  predicate Char3(a: bv8, b: bv8, c: bv8) {
    Tail(c)
    && ((a == 0xe0 && 0xa0 <= b <= 0xbf) || (0xe1 <= a <= 0xec && Tail(b))
        || (a == 0xed && 0x80 <= b <= 0x9f) || (0xee <= a <= 0xef && Tail(b)))
  }

  predicate Char4(a: bv8, b: bv8, c: bv8, d: bv8) {
    Tail(c) && Tail(d)
    && ((a == 0xf0 && 0x90 <= b <= 0xbf) || (0xf1 <= a <= 0xf3 && Tail(b)) || (a == 0xf4 && 0x80 <= b <= 0x8f))
  }

  /** Length of the character that starts at i and ends by `end`; 0 when there is none. */
  function CharLength(s: seq<bv8>, i: nat, end: nat): (n: nat)
    requires i <= end <= |s|
    ensures i + n <= end && n <= 4
  {
    if i < end && Char1(s[i]) then 1
    else if i + 1 < end && Char2(s[i], s[i + 1]) then 2
    else if i + 2 < end && Char3(s[i], s[i + 1], s[i + 2]) then 3
    else if i + 3 < end && Char4(s[i], s[i + 1], s[i + 2], s[i + 3]) then 4
    else 0
  }

  // The payload bits of section 3, from the most significant one down.

  function Value2(a: bv8, b: bv8): bv32 {
    ((a & 0x1f) as bv32 << 6) | (b & 0x3f) as bv32
  }

  function Value3(a: bv8, b: bv8, c: bv8): bv32 {
    ((a & 0xf) as bv32 << 12) | ((b & 0x3f) as bv32 << 6) | (c & 0x3f) as bv32
  }

  function Value4(a: bv8, b: bv8, c: bv8, d: bv8): bv32 {
    ((a & 0x7) as bv32 << 18) | ((b & 0x3f) as bv32 << 12) | ((c & 0x3f) as bv32 << 6) | (d & 0x3f) as bv32
  }

  /** The code point of the character at i. */
  function CharValue(s: seq<bv8>, i: nat, end: nat): bv32
    requires i <= end <= |s| && CharLength(s, i, end) > 0
  {
    var n := CharLength(s, i, end);
    if n == 1 then s[i] as bv32
    else if n == 2 then Value2(s[i], s[i + 1])
    else if n == 3 then Value3(s[i], s[i + 1], s[i + 2])
    else Value4(s[i], s[i + 1], s[i + 2], s[i + 3])
  }

  /** The low six bits of a number behind the marker of a tail octet. */
  function TailOf(bits: bv32): bv8 {
    0x80 | ((bits & 0x3f) as bv8)
  }

  /** Section 3: the number of octets depends on the range, the bits are spread over them. */
  function Encode(cp: Scalar): (s: seq<bv8>)
    ensures 1 <= |s| <= 4
  {
    if cp <= 0x7f then [cp as bv8]
    else if cp <= 0x7ff then [0xc0 | ((cp >> 6) as bv8), TailOf(cp)]
    else if cp <= 0xffff then [0xe0 | ((cp >> 12) as bv8), TailOf(cp >> 6), TailOf(cp)]
    else assert IsScalar(cp); [0xf0 | ((cp >> 18) as bv8), TailOf(cp >> 12), TailOf(cp >> 6), TailOf(cp)]
  }

  lemma Bits2(a: bv8, b: bv8)
    requires Char2(a, b)
    ensures var cp := Value2(a, b);
      0x80 <= cp <= 0x7ff && (0xc0 | ((cp >> 6) as bv8)) == a && TailOf(cp) == b
  {
  }

  lemma Bits3(a: bv8, b: bv8, c: bv8)
    requires Char3(a, b, c)
    ensures var cp := Value3(a, b, c);
      0x800 <= cp <= 0xffff && IsScalar(cp) && (0xe0 | ((cp >> 12) as bv8)) == a && TailOf(cp >> 6) == b && TailOf(cp) == c
  {
  }

  lemma Bits4(a: bv8, b: bv8, c: bv8, d: bv8)
    requires Char4(a, b, c, d)
    ensures var cp := Value4(a, b, c, d);
      0x10000 <= cp <= 0x10ffff && (0xf0 | ((cp >> 18) as bv8)) == a
      && TailOf(cp >> 12) == b && TailOf(cp >> 6) == c && TailOf(cp) == d
  {
  }

  lemma Bits1Back(cp: bv32)
    requires cp <= 0x7f
    ensures Char1(cp as bv8) && (cp as bv8) as bv32 == cp
  {
  }

  lemma Bits2Back(cp: bv32)
    requires 0x80 <= cp <= 0x7ff
    ensures var a, b := 0xc0 | ((cp >> 6) as bv8), TailOf(cp); Char2(a, b) && Value2(a, b) == cp
  {
  }

  lemma Bits3Back(cp: bv32)
    requires 0x800 <= cp <= 0xffff && IsScalar(cp)
    ensures var a, b, c := 0xe0 | ((cp >> 12) as bv8), TailOf(cp >> 6), TailOf(cp); Char3(a, b, c) && Value3(a, b, c) == cp
  {
  }

  lemma Bits4Back(cp: bv32)
    requires 0x10000 <= cp <= 0x10ffff
    ensures var a, b, c, d := 0xf0 | ((cp >> 18) as bv8), TailOf(cp >> 12), TailOf(cp >> 6), TailOf(cp);
      Char4(a, b, c, d) && Value4(a, b, c, d) == cp
  {
  }

  /** Re-encoding a character gives its octets: only shortest forms are characters. */
  lemma CharIsEncoding(s: seq<bv8>, i: nat, end: nat)
    requires i <= end <= |s| && CharLength(s, i, end) > 0
    ensures IsScalar(CharValue(s, i, end))
    ensures s[i..i + CharLength(s, i, end)] == Encode(CharValue(s, i, end))
  {
    var n := CharLength(s, i, end);
    if n == 1 {
      assert s[i..i + 1] == [s[i]];
      Bits1(s[i]);
    } else if n == 2 {
      assert s[i..i + 2] == [s[i], s[i + 1]];
      Encode2(s[i], s[i + 1]);
    } else if n == 3 {
      assert s[i..i + 3] == [s[i], s[i + 1], s[i + 2]];
      Encode3(s[i], s[i + 1], s[i + 2]);
    } else {
      assert s[i..i + 4] == [s[i], s[i + 1], s[i + 2], s[i + 3]];
      Encode4(s[i], s[i + 1], s[i + 2], s[i + 3]);
    }
  }

  lemma Bits1(a: bv8)
    requires Char1(a)
    ensures IsScalar(a as bv32) && Encode(a as bv32) == [a]
  {
  }

  lemma Encode2(a: bv8, b: bv8)
    requires Char2(a, b)
    ensures var cp := Value2(a, b); IsScalar(cp) && Encode(cp) == [a, b]
  {
    Bits2(a, b);
  }

  lemma Encode3(a: bv8, b: bv8, c: bv8)
    requires Char3(a, b, c)
    ensures var cp := Value3(a, b, c); IsScalar(cp) && Encode(cp) == [a, b, c]
  {
    Bits3(a, b, c);
  }

  lemma Encode4(a: bv8, b: bv8, c: bv8, d: bv8)
    requires Char4(a, b, c, d)
    ensures var cp := Value4(a, b, c, d); IsScalar(cp) && Encode(cp) == [a, b, c, d]
  {
    Bits4(a, b, c, d);
  }

  lemma EncodeIsChar(cp: bv32)
    requires IsScalar(cp)
    ensures var e := Encode(cp); CharLength(e, 0, |e|) == |e| && CharValue(e, 0, |e|) == cp
  {
    if cp <= 0x7f { Bits1Back(cp); }
    else if cp <= 0x7ff { Bits2Back(cp); }
    else if cp <= 0xffff { Bits3Back(cp); }
    else { Bits4Back(cp); }
  }

  /** The character at i, if one ends by `end`. */
  function Read(s: seq<bv8>, i: nat, end: nat): Option<Char<Scalar>> {
    if i <= end <= |s| && CharLength(s, i, end) > 0 then ReadChar(s, i, end) else None
  }

  function ReadChar(s: seq<bv8>, i: nat, end: nat): Option<Char<Scalar>>
    requires i <= end <= |s| && CharLength(s, i, end) > 0
  {
    CharIsEncoding(s, i, end);
    Some(Char(CharValue(s, i, end), CharLength(s, i, end)))
  }

  /** An encoded scalar value is read back, whatever follows it. */
  lemma EncodingIsRead(s: seq<bv8>, i: nat, end: nat, cp: Scalar)
    requires Starts(s, i, end, Encode(cp))
    ensures Read(s, i, end) == Some(Char(cp, |Encode(cp)|))
  {
    var e := Encode(cp);
    forall k | 0 <= k < |e| ensures e[k] == s[i + k] { assert s[i..i + |e|][k] == s[i + k]; }
    EncodeIsChar(cp);
    SameChar(s, i, end, e);
  }

  /** What starts at i depends on the octets of the character only. */
  lemma SameChar(s: seq<bv8>, i: nat, end: nat, e: seq<bv8>)
    requires i + |e| <= end <= |s| && e != [] && CharLength(e, 0, |e|) == |e|
    requires forall k :: 0 <= k < |e| ==> e[k] == s[i + k]
    ensures CharLength(s, i, end) == |e| && CharValue(s, i, end) == CharValue(e, 0, |e|)
  {
  }

  /** Reading and encoding characters are inverse to each other. */
  lemma Utf8Inverse()
    ensures Inverse(Read, Encode)
  {
    forall s: seq<bv8>, i: nat, end: nat | i <= end <= |s| && Read(s, i, end).Some?
      ensures var c := Read(s, i, end).value; Starts(s, i, end, Encode(c.value)) && c.length == |Encode(c.value)|
    {
      CharIsEncoding(s, i, end);
    }
    forall s: seq<bv8>, i: nat, end: nat, cp: Scalar | Starts(s, i, end, Encode(cp))
      ensures Read(s, i, end) == Some(Char(cp, |Encode(cp)|))
    {
      EncodingIsRead(s, i, end, cp);
    }
  }

  // Whole texts.

  function EncodeAll(cps: seq<Scalar>): seq<bv8> {
    Concat(Encode, cps)
  }

  /** The octets are the encoding of some sequence of scalar values. */
  ghost predicate ValidText(s: seq<bv8>) {
    exists cps: seq<Scalar> :: EncodeAll(cps) == s
  }

  /** Where reading characters from i on stops. */
  function ValidEnd(s: seq<bv8>, i: nat, end: nat): (r: nat)
    requires i <= end <= |s|
    ensures i <= r <= end
  {
    Stop(Read, s, i, end)
  }

  /** The scalar values read until then. */
  function Scalars(s: seq<bv8>, i: nat, end: nat): seq<Scalar>
    requires i <= end <= |s|
  {
    Values(Read, s, i, end)
  }

  lemma ReadOn(s: seq<bv8>, i: nat, end: nat)
    requires i <= end <= |s|
    ensures match Read(s, i, end)
      case None => ValidEnd(s, i, end) == i && Scalars(s, i, end) == []
      case Some(c) =>
        0 < c.length <= end - i && s[i..i + c.length] == Encode(c.value)
        && ValidEnd(s, i, end) == ValidEnd(s, i + c.length, end)
        && Scalars(s, i, end) == [c.value] + Scalars(s, i + c.length, end)
  {
    if Read(s, i, end).Some? { CharIsEncoding(s, i, end); }
  }

  lemma ValidTextIsValid(s: seq<bv8>)
    ensures ValidText(s) <==> Valid(Encode, s)
  {
    if ValidText(s) {
      var cps: seq<Scalar> :| EncodeAll(cps) == s;
      assert Concat(Encode, cps) == s;
    }
    if Valid(Encode, s) {
      var cps: seq<Scalar> :| Concat(Encode, cps) == s;
      assert EncodeAll(cps) == s;
    }
  }

  /** A range is valid text exactly when reading it reaches its end. */
  lemma ValidIffReadToEnd(s: seq<bv8>, i: nat, end: nat)
    requires i <= end <= |s|
    ensures ValidText(s[i..end]) <==> ValidEnd(s, i, end) == end
    ensures EncodeAll(Scalars(s, i, end)) == s[i..ValidEnd(s, i, end)]
  {
    Utf8Inverse();
    ValidIffRead(Read, Encode, s, i, end);
    ValidTextIsValid(s[i..end]);
    ValuesEncode(Read, Encode, s, i, end);
  }

  /** The sequence of scalar values behind a text is unique. */
  lemma EncodeAllInjective(a: seq<Scalar>, b: seq<Scalar>)
    requires EncodeAll(a) == EncodeAll(b)
    ensures a == b
  {
    Utf8Inverse();
    ConcatInjective(Read, Encode, a, b);
  }

  /** Reading stops at the end of the longest valid prefix. */
  lemma LongestValidPrefix(s: seq<bv8>, i: nat, end: nat, j: nat)
    requires i <= j <= end <= |s|
    ensures ValidText(s[i..ValidEnd(s, i, end)])
    ensures ValidText(s[i..j]) ==> j <= ValidEnd(s, i, end)
  {
    Utf8Inverse();
    LongestPrefix(Read, Encode, s, i, end, j);
    ValidTextIsValid(s[i..ValidEnd(s, i, end)]);
    ValidTextIsValid(s[i..j]);
  }

  /** Encoded scalar values are read back in full, whatever follows them. */
  lemma EncodedIsRead(s: seq<bv8>, i: nat, k: nat, end: nat, cps: seq<Scalar>)
    requires i <= k <= end <= |s| && s[i..k] == EncodeAll(cps)
    ensures ValidEnd(s, i, end) == ValidEnd(s, k, end)
    ensures Scalars(s, i, end) == cps + Scalars(s, k, end)
  {
    Utf8Inverse();
    ConcatReads(Read, Encode, s, i, k, end, cps);
  }

  /** Encoding whole sequences and reading them back is the identity, in both directions. */
  lemma Utf32RoundTrip(cps: seq<Scalar>)
    ensures var t := EncodeAll(cps); ValidEnd(t, 0, |t|) == |t| && Scalars(t, 0, |t|) == cps
  {
    var t := EncodeAll(cps);
    assert t[0..|t|] == t;
    EncodedIsRead(t, 0, |t|, |t|, cps);
    ReadOn(t, |t|, |t|);
    assert cps + [] == cps;
  }
}
