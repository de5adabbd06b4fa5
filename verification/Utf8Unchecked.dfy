/** The codec's unchecked interface, which trusts its input, and why it agrees with the
    checked one on every input that deserves the trust. Reading outside the buffer is
    excluded by the preconditions and by nothing else. */
module Utf8Unchecked {
  import opened Options
  import opened CharacterCodes
  import opened Utf8Standard
  import opened Utf16Standard
  import opened Utf8Core
  import opened Utf8Checked

  method UncheckedAppend(cp: bv32, result: seq<bv8>) returns (out: seq<bv8>)
    ensures IsScalar(cp) ==> out == result + Encode(cp)
  {
    out := result;
    if cp < 0x80 {
      out := out + [Byte(cp)];
    } else if cp < 0x800 {
      out := out + [Byte((cp >> 6) | 0xc0)];
      out := out + [Byte((cp & 0x3f) | 0x80)];
    } else if cp < 0x10000 {
      out := out + [Byte((cp >> 12) | 0xe0)];
      out := out + [Byte(((cp >> 6) & 0x3f) | 0x80)];
      out := out + [Byte((cp & 0x3f) | 0x80)];
    } else {
      out := out + [Byte((cp >> 18) | 0xf0)];
      out := out + [Byte(((cp >> 12) & 0x3f) | 0x80)];
      out := out + [Byte(((cp >> 6) & 0x3f) | 0x80)];
      out := out + [Byte((cp & 0x3f) | 0x80)];
    }
    if IsScalar(cp) {
      AppendedBits(cp);
      assert out == result + Encode(cp);
    }
  }

  /** How many octets the unchecked decoder reads: an octet that starts nothing counts as one. */
  function Announced(a: bv8): nat {
    if LeadLength(a) == 0 then 1 else LeadLength(a)
  }

  /** Decodes on trust; where a character is, this is the checked result and position. */
  method UncheckedNext(s: seq<bv8>, it0: nat) returns (it: nat, cp: bv32)
    requires it0 < |s| && it0 + Announced(s[it0]) <= |s|
    ensures it == it0 + Announced(s[it0])
    ensures forall end :: Read(s, it0, end).Some? ==> Reads(s, it0, end, cp, it - it0)
  {
    it := it0;
    cp := s[it] as bv32;
    var length := SequenceLength(s[it]);
    match length {
      case 1 =>
      case 2 =>
        it := it + 1;
        cp := ((cp << 6) & 0x7ff) + (s[it] & 0x3f) as bv32;
        Bits2Sum(s[it0], s[it]);
      case 3 =>
        it := it + 1;
        cp := ((cp << 12) & 0xffff) + (((s[it] as bv32) << 6) & 0xfff);
        it := it + 1;
        cp := cp + (s[it] & 0x3f) as bv32;
        Bits3Sum(s[it0], s[it0 + 1], s[it]);
      case 4 =>
        it := it + 1;
        cp := ((cp << 18) & 0x1fffff) + (((s[it] as bv32) << 12) & 0x3ffff);
        it := it + 1;
        cp := cp + (((s[it] as bv32) << 6) & 0xfff);
        it := it + 1;
        cp := cp + (s[it] & 0x3f) as bv32;
        Bits4Sum(s[it0], s[it0 + 1], s[it0 + 2], s[it]);
      case _ =>
    }
    it := it + 1;
    TrustedRead(s, it0, cp);
  }

  lemma TrustedRead(s: seq<bv8>, i: nat, cp: bv32)
    requires i < |s| && i + Announced(s[i]) <= |s|
    requires LeadLength(s[i]) > 0 ==> cp == Payload(s, i)
    ensures forall end :: Read(s, i, end).Some? ==> Reads(s, i, end, cp, Announced(s[i]))
  {
    forall end | Read(s, i, end).Some? ensures Reads(s, i, end, cp, Announced(s[i])) {
      DiagnoseOk(s, i, end);
    }
  }

  /** Goes back to the octet before `it` that is no tail; there must be one. */
  method UncheckedPrior(s: seq<bv8>, it0: nat) returns (it: nat, cp: bv32)
    requires 0 < it0 <= |s| && !Tail(s[StepBack(s, 0, it0)])
    requires var p := StepBack(s, 0, it0); p + Announced(s[p]) <= |s|
    ensures it == StepBack(s, 0, it0)
    ensures Read(s, it, it0).Some? ==> cp == Read(s, it, it0).value.value
  {
    it := it0 - 1;
    while IsTrail(s[it])
      invariant 0 <= it < it0 && StepBack(s, 0, it0) == StepBack(s, 0, it + 1)
      decreases it
    {
      it := it - 1;
    }
    var _, value := UncheckedNext(s, it);
    cp := value;
  }

  method UncheckedDistance(s: seq<bv8>, first: nat, last: nat) returns (dist: nat)
    requires first <= last <= |s| && ValidText(s[first..last])
    ensures forall cps: seq<Scalar> :: EncodeAll(cps) == s[first..last] ==> dist == |cps|
  {
    ValidIffReadToEnd(s, first, last);
    var it := first;
    dist := 0;
    while it < last
      invariant first <= it <= last && ValidEnd(s, it, last) == last
      invariant dist + |Scalars(s, it, last)| == |Scalars(s, first, last)|
      decreases last - it
    {
      ReadOn(s, it, last);
      DiagnoseOk(s, it, last);
      var pos, _ := UncheckedNext(s, it);
      it := pos;
      dist := dist + 1;
    }
    ReadOn(s, last, last);
    forall cps: seq<Scalar> | EncodeAll(cps) == s[first..last] ensures dist == |cps| {
      EncodeAllInjective(cps, Scalars(s, first, last));
    }
  }

  method UncheckedUtf16To8(u: seq<bv16>, start0: nat, end: nat, result0: seq<bv8>) returns (result: seq<bv8>)
    requires start0 <= end <= |u| && Paired(u, start0, end)
    ensures result == Written(result0, UnitScalars(u, start0, end))
  {
    PairedIffReadToEnd(u, start0, end);
    var start := start0;
    result := result0;
    while start != end
      invariant start0 <= start <= end && PairedEnd(u, start, end) == end
      invariant Written(result, UnitScalars(u, start, end)) == Written(result0, UnitScalars(u, start0, end))
      decreases end - start
    {
      ghost var i := start;
      ReadUnitsOn(u, i, end);
      var cp: bv32 := u[start] as bv32;
      start := start + 1;
      if 0xd800 <= cp <= 0xdbff {
        var trail: bv32 := u[start] as bv32;
        start := start + 1;
        PairSum(u[i], u[i + 1]);
        cp := (cp << 10) + trail + SURROGATE_OFFSET;
      }
      WriteOne(result, cp, UnitScalars(u, start, end));
      result := UncheckedAppend(cp, result);
    }
    ReadUnitsOn(u, end, end);
    WriteNone(result);
  }

  method UncheckedUtf8To16(s: seq<bv8>, start0: nat, end: nat, result0: seq<bv16>) returns (result: seq<bv16>)
    requires start0 <= end <= |s| && ValidText(s[start0..end])
    ensures result == WrittenUnits(result0, Scalars(s, start0, end))
  {
    ValidIffReadToEnd(s, start0, end);
    var start := start0;
    result := result0;
    while start < end
      invariant start0 <= start <= end && ValidEnd(s, start, end) == end
      invariant WrittenUnits(result, Scalars(s, start, end)) == WrittenUnits(result0, Scalars(s, start0, end))
      decreases end - start
    {
      ReadOn(s, start, end);
      DiagnoseOk(s, start, end);
      ghost var value: Scalar := Read(s, start, end).value.value;
      var pos, cp := UncheckedNext(s, start);
      start := pos;
      WriteOneUnits(result, value, Scalars(s, start, end));
      result := AppendUnits(cp, result);
    }
    ReadOn(s, end, end);
  }

  method UncheckedUtf32To8(cps: seq<Scalar>, start0: nat, end: nat, result0: seq<bv8>) returns (result: seq<bv8>)
    requires start0 <= end <= |cps|
    ensures result == Written(result0, cps[start0..end])
  {
    var start := start0;
    result := result0;
    while start != end
      invariant start0 <= start <= end
      invariant Written(result, cps[start..end]) == Written(result0, cps[start0..end])
      decreases end - start
    {
      assert cps[start..end] == [cps[start]] + cps[start + 1..end];
      WriteOne(result, cps[start], cps[start + 1..end]);
      result := UncheckedAppend(cps[start], result);
      start := start + 1;
    }
    assert cps[end..end] == [];
    WriteNone(result);
  }

  method UncheckedUtf8To32(s: seq<bv8>, start0: nat, end: nat, result0: seq<bv32>) returns (result: seq<bv32>)
    requires start0 <= end <= |s| && ValidText(s[start0..end])
    ensures result == result0 + Scalars(s, start0, end)
  {
    ValidIffReadToEnd(s, start0, end);
    var start := start0;
    result := result0;
    while start < end
      invariant start0 <= start <= end && ValidEnd(s, start, end) == end
      invariant result + Scalars(s, start, end) == result0 + Scalars(s, start0, end)
      decreases end - start
    {
      ReadOn(s, start, end);
      DiagnoseOk(s, start, end);
      var pos, cp := UncheckedNext(s, start);
      start := pos;
      result := result + [cp];
    }
    ReadOn(s, end, end);
  }
}
