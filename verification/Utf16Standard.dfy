/** UTF-16 as section 2 of RFC 2781 defines it. */
module Utf16Standard {
  import opened Options
  import opened CharacterCodes
  import opened Utf8Standard

  predicate Lead(w: bv16) { 0xd800 <= w <= 0xdbff }

  predicate Trail(w: bv16) { 0xdc00 <= w <= 0xdfff }

  /** Section 2.1. */
  function Units(cp: Scalar): (s: seq<bv16>)
    ensures 1 <= |s| <= 2
  {
    if cp <= 0xffff then [cp as bv16]
    else
      assert IsScalar(cp);
      [0xd800 | (((cp - 0x10000) >> 10) as bv16), 0xdc00 | (((cp - 0x10000) & 0x3ff) as bv16)]
  }

  /** Section 2.2. */
  function PairValue(w1: bv16, w2: bv16): bv32 {
    ((((w1 & 0x3ff) as bv32) << 10) | (w2 & 0x3ff) as bv32) + 0x10000
  }

  function ReadUnits(s: seq<bv16>, i: nat, end: nat): Option<Char<Scalar>> {
    if !(i < end <= |s|) then None
    else if !Lead(s[i]) && !Trail(s[i]) then
      var cp: Scalar := s[i] as bv32;
      Some(Char(cp, 1))
    else if i + 1 < end && Lead(s[i]) && Trail(s[i + 1]) then
      PairIsScalar(s[i], s[i + 1]);
      var cp: Scalar := PairValue(s[i], s[i + 1]);
      Some(Char(cp, 2))
    else None
  }

  lemma PairIsScalar(w1: bv16, w2: bv16)
    requires Lead(w1) && Trail(w2)
    ensures var cp := PairValue(w1, w2); IsScalar(cp) && 0x10000 <= cp
    ensures var cp := PairValue(w1, w2);
      (0xd800 | (((cp - 0x10000) >> 10) as bv16)) == w1 && (0xdc00 | (((cp - 0x10000) & 0x3ff) as bv16)) == w2
  {
  }

  lemma PairBack(cp: bv32)
    requires IsScalar(cp) && 0x10000 <= cp
    ensures (cp - 0x10000) >> 10 <= 0x3ff
    ensures var w1, w2 := 0xd800 | (((cp - 0x10000) >> 10) as bv16), 0xdc00 | (((cp - 0x10000) & 0x3ff) as bv16);
      Lead(w1) && Trail(w2) && PairValue(w1, w2) == cp
  {
  }

  lemma SingleBack(cp: bv32)
    requires IsScalar(cp) && cp <= 0xffff
    ensures var w := cp as bv16; !Lead(w) && !Trail(w) && w as bv32 == cp
  {
  }

  lemma UnitsOfPair(w1: bv16, w2: bv16)
    requires Lead(w1) && Trail(w2)
    ensures IsScalar(PairValue(w1, w2)) && Units(PairValue(w1, w2)) == [w1, w2]
  {
    PairIsScalar(w1, w2);
  }

  lemma UnitsOfSingle(w: bv16)
    requires !Lead(w) && !Trail(w)
    ensures IsScalar(w as bv32) && Units(w as bv32) == [w]
  {
  }

  lemma ReadIsUnits(s: seq<bv16>, i: nat, end: nat)
    requires i <= end <= |s| && ReadUnits(s, i, end).Some?
    ensures var c := ReadUnits(s, i, end).value; Starts(s, i, end, Units(c.value)) && c.length == |Units(c.value)|
  {
    if Lead(s[i]) {
      UnitsOfPair(s[i], s[i + 1]);
      assert s[i..i + 2] == [s[i], s[i + 1]];
    } else {
      UnitsOfSingle(s[i]);
      assert s[i..i + 1] == [s[i]];
    }
  }

  lemma UnitsAreRead(s: seq<bv16>, i: nat, end: nat, cp: Scalar)
    requires Starts(s, i, end, Units(cp))
    ensures ReadUnits(s, i, end) == Some(Char(cp, |Units(cp)|))
  {
    var u := Units(cp);
    assert u[0] == s[i..i + |u|][0] == s[i];
    if cp <= 0xffff {
      SingleBack(cp);
    } else {
      assert u[1] == s[i..i + |u|][1] == s[i + 1];
      PairBack(cp);
    }
  }

  /** Reading and writing UTF-16 are inverse to each other. */
  lemma Utf16Inverse()
    ensures Inverse(ReadUnits, Units)
  {
    forall s: seq<bv16>, i: nat, end: nat | i <= end <= |s| && ReadUnits(s, i, end).Some?
      ensures var c := ReadUnits(s, i, end).value; Starts(s, i, end, Units(c.value)) && c.length == |Units(c.value)|
    {
      ReadIsUnits(s, i, end);
    }
    forall s: seq<bv16>, i: nat, end: nat, cp: Scalar | Starts(s, i, end, Units(cp))
      ensures ReadUnits(s, i, end) == Some(Char(cp, |Units(cp)|))
    {
      UnitsAreRead(s, i, end, cp);
    }
  }

  function UnitsAll(cps: seq<Scalar>): seq<bv16> {
    Concat(Units, cps)
  }

  /** Where reading stops: at the end, or at the first surrogate that is not paired. */
  function PairedEnd(s: seq<bv16>, i: nat, end: nat): (r: nat)
    requires i <= end <= |s|
    ensures i <= r <= end
  {
    Stop(ReadUnits, s, i, end)
  }

  function UnitScalars(s: seq<bv16>, i: nat, end: nat): seq<Scalar>
    requires i <= end <= |s|
  {
    Values(ReadUnits, s, i, end)
  }

  lemma ReadUnitsOn(s: seq<bv16>, i: nat, end: nat)
    requires i <= end <= |s|
    ensures match ReadUnits(s, i, end)
      case None => PairedEnd(s, i, end) == i && UnitScalars(s, i, end) == []
      case Some(c) =>
        0 < c.length <= end - i
        && PairedEnd(s, i, end) == PairedEnd(s, i + c.length, end)
        && UnitScalars(s, i, end) == [c.value] + UnitScalars(s, i + c.length, end)
  {
  }

  /** Surrogates come in pairs, a leading one right before a trailing one, and never alone. */
  predicate Paired(s: seq<bv16>, i: nat, end: nat)
    requires i <= end <= |s|
  {
    forall k :: i <= k < end ==> PairedAt(s, i, end, k)
  }

  predicate PairedAt(s: seq<bv16>, i: nat, end: nat, k: nat)
    requires i <= k < end <= |s|
  {
    (Lead(s[k]) ==> k + 1 < end && Trail(s[k + 1])) && (Trail(s[k]) ==> i < k && Lead(s[k - 1]))
  }

  lemma {:induction false} PairedIffReadToEnd(s: seq<bv16>, i: nat, end: nat)
    requires i <= end <= |s|
    ensures Paired(s, i, end) <==> PairedEnd(s, i, end) == end
    decreases end - i
  {
    if i < end {
      ReadUnitsOn(s, i, end);
      match ReadUnits(s, i, end)
      case None => assert !PairedAt(s, i, end, i);
      case Some(c) =>
        PairedIffReadToEnd(s, i + c.length, end);
        PairedTail(s, i, c.length, end);
    }
  }

  lemma PairedTail(s: seq<bv16>, i: nat, n: nat, end: nat)
    requires i < i + n <= end <= |s|
    requires (n == 1 && !Lead(s[i]) && !Trail(s[i])) || (n == 2 && Lead(s[i]) && Trail(s[i + 1]))
    ensures Paired(s, i, end) <==> Paired(s, i + n, end)
  {
    var j := i + n;
    assert PairedAt(s, i, end, i) && (n == 2 ==> PairedAt(s, i, end, i + 1));
    forall k | j <= k < end ensures PairedAt(s, i, end, k) <==> PairedAt(s, j, end, k) {
      assert k == j ==> !Lead(s[k - 1]);
    }
    if Paired(s, j, end) {
      forall k | i <= k < end ensures PairedAt(s, i, end, k) {
        if k >= j { assert PairedAt(s, j, end, k); }
      }
    }
    if Paired(s, i, end) {
      forall k | j <= k < end ensures PairedAt(s, j, end, k) { assert PairedAt(s, i, end, k); }
    }
  }

  /** UTF-16 to UTF-8 and back: well-paired units come back unchanged. */
  lemma Utf16RoundTrip(s: seq<bv16>)
    requires Paired(s, 0, |s|)
    ensures var t := EncodeAll(UnitScalars(s, 0, |s|));
      ValidEnd(t, 0, |t|) == |t| && UnitsAll(Scalars(t, 0, |t|)) == s
  {
    var cps := UnitScalars(s, 0, |s|);
    var t := EncodeAll(cps);
    PairedIffReadToEnd(s, 0, |s|);
    Utf16Inverse();
    ValuesEncode(ReadUnits, Units, s, 0, |s|);
    assert s[0..|s|] == s && t[0..|t|] == t;
    EncodedIsRead(t, 0, |t|, |t|, cps);
    NoneLeft(t);
    assert cps + [] == cps;
  }

  lemma NoneLeft(t: seq<bv8>)
    ensures Scalars(t, |t|, |t|) == []
  {
    ReadOn(t, |t|, |t|);
  }

  lemma NoUnitLeft(s: seq<bv16>)
    ensures UnitScalars(s, |s|, |s|) == []
  {
    ReadUnitsOn(s, |s|, |s|);
  }

  /** UTF-8 to UTF-16 and back: valid text comes back unchanged. */
  lemma Utf8RoundTrip(t: seq<bv8>)
    requires ValidText(t)
    ensures var s := UnitsAll(Scalars(t, 0, |t|));
      Paired(s, 0, |s|) && EncodeAll(UnitScalars(s, 0, |s|)) == t
  {
    var cps := Scalars(t, 0, |t|);
    var s := UnitsAll(cps);
    assert t[0..|t|] == t && s[0..|s|] == s;
    ValidIffReadToEnd(t, 0, |t|);
    Utf16Inverse();
    ConcatReads(ReadUnits, Units, s, 0, |s|, |s|, cps);
    NoUnitLeft(s);
    assert cps + [] == cps;
    PairedIffReadToEnd(s, 0, |s|);
  }
}
