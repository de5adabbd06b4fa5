/** The codec's checked interface: every error is an exception. */
module Utf8Checked {
  import opened Options
  import opened CharacterCodes
  import opened Utf8Standard
  import opened Utf16Standard
  import opened Utf8Core

  datatype Exception =
    | NotEnoughRoomThrown
    | InvalidUtf8Thrown(octet: bv8)
    | InvalidUtf16Thrown(word: bv16)
    | InvalidCodePointThrown(cp: bv32)

  datatype Outcome<T> = Returned(value: T) | Thrown(e: Exception)

  /** The exception for a sequence that cannot be read. It never carries the code point. */
  function ExceptionAt(s: seq<bv8>, i: nat, end: nat): Exception
    requires i < end <= |s|
  {
    match Diagnose(s, i, end)
    case NotEnoughRoom => NotEnoughRoomThrown
    case InvalidCodePoint => InvalidCodePointThrown(0)
    case _ => InvalidUtf8Thrown(s[i])
  }

  /** static_cast<uint8_t> */
  function Byte(x: bv32): bv8 {
    (x & 0xff) as bv8
  }

  /** static_cast<uint16_t> */
  function Word(x: bv32): bv16 {
    (x & 0xffff) as bv16
  }

  method Append(cp: bv32, result: seq<bv8>) returns (r: Outcome<seq<bv8>>)
    ensures r == if IsScalar(cp) then Returned(result + Encode(cp)) else Thrown(InvalidCodePointThrown(cp))
  {
    if !IsCodePointValid(cp) { return Thrown(InvalidCodePointThrown(cp)); }
    var out := result;
    if cp < 0x80 {
      out := out + [Byte(cp)];
    } else if cp < 0x800 {
      out := out + [Byte((cp >> 6) | 0xc0)];
      out := out + [Byte((cp & 0x3f) | 0x80)];
    } else if cp < 0x10000 {
      out := out + [Byte((cp >> 12) | 0xe0)];
      out := out + [Byte(((cp >> 6) & 0x3f) | 0x80)];
      out := out + [Byte((cp & 0x3f) | 0x80)];
    } else {
      out := out + [Byte((cp >> 18) | 0xf0)];
      out := out + [Byte(((cp >> 12) & 0x3f) | 0x80)];
      out := out + [Byte(((cp >> 6) & 0x3f) | 0x80)];
      out := out + [Byte((cp & 0x3f) | 0x80)];
    }
    AppendedBits(cp);
    assert out == result + Encode(cp);
    r := Returned(out);
  }

  lemma AppendedBits(cp: bv32)
    requires IsScalar(cp)
    ensures cp < 0x80 ==> Encode(cp) == [Byte(cp)]
    ensures 0x80 <= cp < 0x800 ==> Encode(cp) == [Byte((cp >> 6) | 0xc0), Byte((cp & 0x3f) | 0x80)]
    ensures 0x800 <= cp < 0x10000 ==>
      Encode(cp) == [Byte((cp >> 12) | 0xe0), Byte(((cp >> 6) & 0x3f) | 0x80), Byte((cp & 0x3f) | 0x80)]
    ensures 0x10000 <= cp ==>
      Encode(cp) == [Byte((cp >> 18) | 0xf0), Byte(((cp >> 12) & 0x3f) | 0x80), Byte(((cp >> 6) & 0x3f) | 0x80), Byte((cp & 0x3f) | 0x80)]
  {
  }

  /** Decoding: the code point and the position behind it, or an exception at the old position. */
  method Next(s: seq<bv8>, it0: nat, end: nat) returns (it: nat, r: Outcome<bv32>)
    requires it0 < end <= |s|
    ensures r.Returned? <==> Read(s, it0, end).Some?
    ensures r.Returned? ==> it0 < it && Reads(s, it0, end, r.value, it - it0)
    ensures r.Thrown? ==> it == it0 && r.e == ExceptionAt(s, it0, end)
  {
    var err, pos, cp := ValidateNext(s, it0, end, 0);
    it := pos;
    match err {
      case UtfOk => r := Returned(cp);
      case NotEnoughRoom => r := Thrown(NotEnoughRoomThrown);
      case InvalidLead => r := Thrown(InvalidUtf8Thrown(s[it]));
      case IncompleteSequence => r := Thrown(InvalidUtf8Thrown(s[it]));
      case OverlongSequence => r := Thrown(InvalidUtf8Thrown(s[it]));
      case InvalidCodePoint => r := Thrown(InvalidCodePointThrown(cp));
    }
  }

  // Going backwards.

  /** The last octet before `it` that is no tail, or else the first one. */
  function StepBack(s: seq<bv8>, start: nat, it: nat): (p: nat)
    requires start < it <= |s|
    ensures start <= p < it
    ensures forall k :: p < k < it ==> Tail(s[k])
    ensures p == start || !Tail(s[p])
  {
    if it - 1 == start || !Tail(s[it - 1]) then it - 1 else StepBack(s, start, it - 1)
  }

  method Prior(s: seq<bv8>, it0: nat, start: nat) returns (it: nat, r: Outcome<bv32>)
    requires start <= it0 <= |s|
    ensures it0 == start ==> it == it0 && r == Thrown(NotEnoughRoomThrown)
    ensures it0 > start ==> it == StepBack(s, start, it0)
    ensures it0 > start && Tail(s[it]) ==> r == Thrown(InvalidUtf8Thrown(s[it]))
    ensures it0 > start && !Tail(s[it]) ==>
      if Read(s, it, it0).Some? then r.Returned? && r.value == Read(s, it, it0).value.value
      else r == Thrown(ExceptionAt(s, it, it0))
  {
    it := it0;
    if it == start { return it, Thrown(NotEnoughRoomThrown); }
    var end := it;
    it := it - 1;
    while IsTrail(s[it])
      invariant start <= it < end && StepBack(s, start, end) == StepBack(s, start, it + 1)
      decreases it
    {
      if it == start { return it, Thrown(InvalidUtf8Thrown(s[it])); }
      it := it - 1;
    }
    var _, peeked := Next(s, it, end);
    r := peeked;
  }

  lemma CharShape(s: seq<bv8>, i: nat, end: nat)
    requires Read(s, i, end).Some?
    ensures var n := Read(s, i, end).value.length;
      0 < n <= end - i && !Tail(s[i]) && (forall k :: i < k < i + n ==> Tail(s[k]))
      && Read(s, i, i + n) == Read(s, i, end)
  {
  }

  lemma StepBackTo(s: seq<bv8>, start: nat, i: nat, it: nat)
    requires start <= i < it <= |s| && !Tail(s[i]) && (forall k :: i < k < it ==> Tail(s[k]))
    ensures StepBack(s, start, it) == i
  {
  }

  /** From behind a character, going back finds its start and its code point again. */
  lemma PriorUndoesNext(s: seq<bv8>, start: nat, i: nat, end: nat)
    requires start <= i && Read(s, i, end).Some?
    ensures var it := i + Read(s, i, end).value.length;
      it <= end && StepBack(s, start, it) == i && !Tail(s[i]) && Read(s, i, it) == Read(s, i, end)
  {
    CharShape(s, i, end);
    StepBackTo(s, start, i, i + Read(s, i, end).value.length);
  }

  /** The position n characters ahead. */
  function Ahead(s: seq<bv8>, i: nat, end: nat, n: nat): (r: nat)
    requires i <= end <= |s|
    ensures i <= r <= end
    decreases n
  {
    if n == 0 || Read(s, i, end).None? then i else
    ReadOn(s, i, end);
    Ahead(s, i + Read(s, i, end).value.length, end, n - 1)
  }

  /** The position n steps back. */
  function Behind(s: seq<bv8>, start: nat, it: nat, n: nat): (r: nat)
    requires start <= it <= |s|
    ensures start <= r <= it
  {
    if n == 0 || it == start then it else Behind(s, start, StepBack(s, start, it), n - 1)
  }

  method Advance(s: seq<bv8>, it0: nat, n: nat, end: nat) returns (it: nat, e: Option<Exception>)
    requires it0 <= end <= |s|
    requires n <= |Scalars(s, it0, end)| || ValidEnd(s, it0, end) < end
    ensures it == Ahead(s, it0, end, n)
    ensures e == if n <= |Scalars(s, it0, end)| then None else Some(ExceptionAt(s, ValidEnd(s, it0, end), end))
  {
    it := it0;
    e := None;
    var i := 0;
    ghost var goal, total, stop := Ahead(s, it0, end, n), |Scalars(s, it0, end)|, ValidEnd(s, it0, end);
    while i < n
      invariant 0 <= i <= n && it0 <= it <= end
      invariant Ahead(s, it, end, n - i) == goal
      invariant |Scalars(s, it, end)| + i == total && ValidEnd(s, it, end) == stop
    {
      ReadOn(s, it, end);
      var pos, r := Next(s, it, end);
      it := pos;
      if r.Thrown? { return it, Some(r.e); }
      i := i + 1;
    }
  }

  lemma {:induction false} AheadByOne(s: seq<bv8>, i: nat, end: nat, n: nat)
    requires i <= end <= |s| && 0 < n <= |Scalars(s, i, end)|
    ensures var p := Ahead(s, i, end, n - 1);
      Read(s, p, end).Some? && Ahead(s, i, end, n) == p + Read(s, p, end).value.length
      && Read(s, p, end).value.value == Scalars(s, i, end)[n - 1]
    decreases n
  {
    ReadOn(s, i, end);
    if n > 1 { AheadByOne(s, i + Read(s, i, end).value.length, end, n - 1); }
  }

  /** n characters forward and n steps back lead to where one started. */
  lemma {:induction false} ForthAndBack(s: seq<bv8>, i: nat, end: nat, n: nat)
    requires i <= end <= |s| && n <= |Scalars(s, i, end)|
    ensures Behind(s, i, Ahead(s, i, end, n), n) == i
  {
    if n > 0 {
      AheadByOne(s, i, end, n);
      PriorUndoesNext(s, i, Ahead(s, i, end, n - 1), end);
      ForthAndBack(s, i, end, n - 1);
    }
  }

  method Distance(s: seq<bv8>, first: nat, last: nat) returns (r: Outcome<nat>)
    requires first <= last <= |s|
    ensures r.Returned? <==> ValidText(s[first..last])
    ensures r.Returned? ==> forall cps: seq<Scalar> :: EncodeAll(cps) == s[first..last] ==> r.value == |cps|
    ensures r.Thrown? ==> ValidEnd(s, first, last) < last && r.e == ExceptionAt(s, ValidEnd(s, first, last), last)
  {
    ValidIffReadToEnd(s, first, last);
    var it, dist := first, 0;
    while it < last
      invariant first <= it <= last && ValidEnd(s, it, last) == ValidEnd(s, first, last)
      invariant dist + |Scalars(s, it, last)| == |Scalars(s, first, last)|
      decreases last - it
    {
      ReadOn(s, it, last);
      var pos, c := Next(s, it, last);
      it := pos;
      if c.Thrown? { return Thrown(c.e); }
      dist := dist + 1;
    }
    ReadOn(s, last, last);
    r := Returned(dist);
    forall cps: seq<Scalar> | EncodeAll(cps) == s[first..last] ensures dist == |cps| {
      EncodeAllInjective(cps, Scalars(s, first, last));
    }
  }

  // Repair.

  /** The first octet from i on that is no tail. */
  function SkipTails(s: seq<bv8>, i: nat, end: nat): (r: nat)
    requires i <= end <= |s|
    ensures i <= r <= end
    ensures forall k :: i <= k < r ==> Tail(s[k])
    ensures r < end ==> !Tail(s[r])
    decreases end - i
  {
    if i < end && Tail(s[i]) then SkipTails(s, i + 1, end) else i
  }

  /** Where repair goes on behind a sequence that cannot be read. */
  function Resume(s: seq<bv8>, i: nat, end: nat): (r: nat)
    requires i < end <= |s|
    ensures i < r <= end
  {
    if Diagnose(s, i, end) == InvalidLead then i + 1 else SkipTails(s, i + 1, end)
  }

  /** The repaired text as scalar values, or None when the text stops within a sequence. */
  function Repaired(s: seq<bv8>, i: nat, end: nat, mark: Scalar): Option<seq<Scalar>>
    requires i <= end <= |s|
    decreases end - i
  {
    if i == end then Some([])
    else if Read(s, i, end).Some? then
      ReadOn(s, i, end);
      var c := Read(s, i, end).value;
      Prepend(c.value, Repaired(s, i + c.length, end, mark))
    else if Diagnose(s, i, end) == NotEnoughRoom then None
    else Prepend(mark, Repaired(s, Resume(s, i, end), end, mark))
  }

  function Prepend(cp: Scalar, rest: Option<seq<Scalar>>): Option<seq<Scalar>> {
    match rest
    case None => None
    case Some(cps) => Some([cp] + cps)
  }

  function Written(out: seq<bv8>, cps: seq<Scalar>): seq<bv8> {
    out + EncodeAll(cps)
  }

  lemma EncodeAllPrepend(cp: Scalar, cps: seq<Scalar>)
    ensures EncodeAll([cp] + cps) == Encode(cp) + EncodeAll(cps)
  {
    assert ([cp] + cps)[1..] == cps;
  }

  lemma WriteOne(out: seq<bv8>, cp: Scalar, cps: seq<Scalar>)
    ensures Written(out + Encode(cp), cps) == Written(out, [cp] + cps)
  {
    EncodeAllPrepend(cp, cps);
    assert out + Encode(cp) + EncodeAll(cps) == out + (Encode(cp) + EncodeAll(cps));
  }

  lemma WriteNone(out: seq<bv8>)
    ensures Written(out, []) == out
  {
  }

  /** Repair with what has been written so far. */
  function RepairFrom(s: seq<bv8>, i: nat, end: nat, out: seq<bv8>, mark: bv32): Outcome<seq<bv8>>
    requires i <= end <= |s|
    decreases end - i
  {
    if i == end then Returned(out)
    else if Read(s, i, end).Some? then
      ReadOn(s, i, end);
      var j := i + Read(s, i, end).value.length;
      RepairFrom(s, j, end, out + s[i..j], mark)
    else if Diagnose(s, i, end) == NotEnoughRoom then Thrown(NotEnoughRoomThrown)
    else if !IsScalar(mark) then Thrown(InvalidCodePointThrown(mark))
    else RepairFrom(s, Resume(s, i, end), end, out + Encode(mark), mark)
  }

  lemma {:induction false} RepairFromMark(s: seq<bv8>, i: nat, end: nat, out: seq<bv8>, mark: Scalar)
    requires i <= end <= |s|
    ensures RepairFrom(s, i, end, out, mark) == match Repaired(s, i, end, mark)
      case Some(cps) => Returned(Written(out, cps))
      case None => Thrown(NotEnoughRoomThrown)
    decreases end - i
  {
    if i == end {
      WriteNone(out);
    } else if Read(s, i, end).Some? {
      ReadOn(s, i, end);
      var c := Read(s, i, end).value;
      var j := i + c.length;
      RepairFromMark(s, j, end, out + s[i..j], mark);
      if Repaired(s, j, end, mark).Some? { WriteOne(out, c.value, Repaired(s, j, end, mark).value); }
    } else if Diagnose(s, i, end) != NotEnoughRoom {
      var j := Resume(s, i, end);
      RepairFromMark(s, j, end, out + Encode(mark), mark);
      if Repaired(s, j, end, mark).Some? { WriteOne(out, mark, Repaired(s, j, end, mark).value); }
    }
  }

  /** A mark that is no scalar value is an error, but only once it is needed. */
  lemma {:induction false} RepairFromBadMark(s: seq<bv8>, i: nat, end: nat, out: seq<bv8>, mark: bv32)
    requires i <= end <= |s| && !IsScalar(mark)
    ensures var stop := ValidEnd(s, i, end);
      RepairFrom(s, i, end, out, mark) == if stop == end then Returned(out + s[i..end])
        else if Diagnose(s, stop, end) == NotEnoughRoom then Thrown(NotEnoughRoomThrown)
        else Thrown(InvalidCodePointThrown(mark))
    decreases end - i
  {
    ReadOn(s, i, end);
    if i == end {
      assert out + s[i..end] == out;
    } else if Read(s, i, end).Some? {
      var j := i + Read(s, i, end).value.length;
      RepairFromBadMark(s, j, end, out + s[i..j], mark);
      JoinSlice(s, i, j, end);
      assert out + s[i..j] + s[j..end] == out + (s[i..j] + s[j..end]);
    }
  }

  function RepairMarked(s: seq<bv8>, j: nat, end: nat, out: seq<bv8>, mark: bv32): Outcome<seq<bv8>>
    requires j <= end <= |s|
  {
    if IsScalar(mark) then RepairFrom(s, j, end, out + Encode(mark), mark) else Thrown(InvalidCodePointThrown(mark))
  }

  /** One round of the repair loop. */
  lemma RepairStep(s: seq<bv8>, i: nat, end: nat, out: seq<bv8>, mark: bv32)
    requires i < end <= |s|
    ensures match Diagnose(s, i, end)
      case UtfOk =>
        Read(s, i, end).Some? && 0 < Read(s, i, end).value.length <= end - i
        && (var j := i + Read(s, i, end).value.length;
            RepairFrom(s, i, end, out, mark) == RepairFrom(s, j, end, out + s[i..j], mark))
      case NotEnoughRoom => RepairFrom(s, i, end, out, mark) == Thrown(NotEnoughRoomThrown)
      case InvalidLead => RepairFrom(s, i, end, out, mark) == RepairMarked(s, i + 1, end, out, mark)
      case _ => RepairFrom(s, i, end, out, mark) == RepairMarked(s, SkipTails(s, i + 1, end), end, out, mark)
  {
    DiagnoseOk(s, i, end);
    ReadOn(s, i, end);
  }

  /** The copying loop of ReplaceInvalid. */
  method CopyOctets(s: seq<bv8>, from: nat, to: nat, out0: seq<bv8>) returns (out: seq<bv8>)
    requires from <= to <= |s|
    ensures out == out0 + s[from..to]
  {
    out := out0;
    var it := from;
    while it != to
      invariant from <= it <= to
      invariant out == out0 + s[from..it]
    {
      out := out + [s[it]];
      it := it + 1;
    }
  }

  /** The skipping loop of ReplaceInvalid. */
  method SkipTrails(s: seq<bv8>, start0: nat, end: nat) returns (start: nat)
    requires start0 <= end <= |s|
    ensures start == SkipTails(s, start0, end)
  {
    start := start0;
    while start != end && IsTrail(s[start])
      invariant start0 <= start <= end && SkipTails(s, start, end) == SkipTails(s, start0, end)
      decreases end - start
    {
      start := start + 1;
    }
  }

  /** Copies valid characters, and writes one mark for each sequence that is not valid. */
  method ReplaceInvalid(s: seq<bv8>, start0: nat, end: nat, out0: seq<bv8>, replacement: bv32) returns (r: Outcome<seq<bv8>>)
    requires start0 <= end <= |s|
    ensures r == RepairFrom(s, start0, end, out0, replacement)
  {
    var start, out := start0, out0;
    while start != end
      invariant start0 <= start <= end
      invariant RepairFrom(s, start, end, out, replacement) == RepairFrom(s, start0, end, out0, replacement)
      decreases end - start
    {
      var pos, written := ReplaceNext(s, start, end, out, replacement);
      if written.Thrown? { return written; }
      start, out := pos, written.value;
    }
    r := Returned(out);
  }

  /** One round of the loop of ReplaceInvalid. */
  method ReplaceNext(s: seq<bv8>, start0: nat, end: nat, out: seq<bv8>, replacement: bv32)
    returns (start: nat, r: Outcome<seq<bv8>>)
    requires start0 < end <= |s|
    ensures r.Returned? ==> start0 < start <= end
    ensures r.Returned? ==> RepairFrom(s, start0, end, out, replacement) == RepairFrom(s, start, end, r.value, replacement)
    ensures r.Thrown? ==> RepairFrom(s, start0, end, out, replacement) == r
  {
    RepairStep(s, start0, end, out, replacement);
    var err, pos, _ := ValidateNext(s, start0, end, 0);
    start := pos;
    match err {
      case UtfOk =>
        var copied := CopyOctets(s, start0, start, out);
        r := Returned(copied);
      case NotEnoughRoom =>
        r := Thrown(NotEnoughRoomThrown);
      case InvalidLead =>
        r := Append(replacement, out);
        start := start + 1;
      case _ =>
        r := Append(replacement, out);
        start := SkipTrails(s, start + 1, end);
    }
  }

  /** Valid text is repaired to itself, so repairing twice is repairing once. */
  lemma {:induction false} RepairKeepsValid(s: seq<bv8>, i: nat, end: nat, mark: Scalar)
    requires i <= end <= |s| && ValidEnd(s, i, end) == end
    ensures Repaired(s, i, end, mark) == Some(Scalars(s, i, end))
    decreases end - i
  {
    ReadOn(s, i, end);
    if i < end { RepairKeepsValid(s, i + Read(s, i, end).value.length, end, mark); }
  }

  lemma RepairIdempotent(s: seq<bv8>, mark: Scalar, again: Scalar)
    requires Repaired(s, 0, |s|, mark).Some?
    ensures var t := EncodeAll(Repaired(s, 0, |s|, mark).value);
      ValidText(t) && Repaired(t, 0, |t|, again) == Repaired(s, 0, |s|, mark)
  {
    var cps := Repaired(s, 0, |s|, mark).value;
    var t := EncodeAll(cps);
    assert t[0..|t|] == t;
    EncodedIsRead(t, 0, |t|, |t|, cps);
    ReadOn(t, |t|, |t|);
    assert cps + [] == cps;
    RepairKeepsValid(t, 0, |t|, again);
  }

  /** The text ends within a sequence: a first octet announces more than what is left, and
      only tails follow it. */
  predicate CutAt(s: seq<bv8>, k: nat, end: nat)
    requires k < end <= |s|
  {
    LeadLength(s[k]) > end - k && forall j :: k < j < end ==> Tail(s[j])
  }

  predicate EndsWithin(s: seq<bv8>, i: nat, end: nat)
    requires i <= end <= |s|
  {
    exists k :: i <= k < end && CutAt(s, k, end)
  }

  lemma {:induction false} TailsRunOut(s: seq<bv8>, j: nat, stop: nat, end: nat)
    requires j <= stop && j <= end <= |s|
    ensures Tails(s, j, stop, end) == NotEnoughRoom <==> end < stop && forall k :: j <= k < end ==> Tail(s[k])
    decreases stop - j
  {
    if j < stop && j < end { TailsRunOut(s, j + 1, stop, end); }
  }

  lemma CutIsDiagnosed(s: seq<bv8>, i: nat, end: nat)
    requires i < end <= |s|
    ensures Diagnose(s, i, end) == NotEnoughRoom <==> CutAt(s, i, end)
  {
    var n := LeadLength(s[i]);
    if n > 0 { TailsRunOut(s, i + 1, i + n, end); }
  }

  lemma EndsWithinLater(s: seq<bv8>, i: nat, j: nat, end: nat)
    requires i < j <= end <= |s| && (forall k :: i < k < j ==> Tail(s[k])) && !CutAt(s, i, end)
    ensures EndsWithin(s, i, end) <==> EndsWithin(s, j, end)
  {
    if EndsWithin(s, i, end) {
      var k :| i <= k < end && CutAt(s, k, end);
      assert k >= j;
    }
    if EndsWithin(s, j, end) {
      var k :| j <= k < end && CutAt(s, k, end);
      assert i <= k;
    }
  }

  /** Repair fails exactly on texts that end within a sequence. */
  lemma {:induction false} RepairFailsIff(s: seq<bv8>, i: nat, end: nat, mark: Scalar)
    requires i <= end <= |s|
    ensures Repaired(s, i, end, mark).None? <==> EndsWithin(s, i, end)
    decreases end - i
  {
    if i < end {
      CutIsDiagnosed(s, i, end);
      DiagnoseOk(s, i, end);
      if Read(s, i, end).Some? {
        CharShape(s, i, end);
        var j := i + Read(s, i, end).value.length;
        RepairFailsIff(s, j, end, mark);
        EndsWithinLater(s, i, j, end);
      } else if !CutAt(s, i, end) {
        var j := Resume(s, i, end);
        RepairFailsIff(s, j, end, mark);
        EndsWithinLater(s, i, j, end);
      }
    }
  }

  // Conversions.

  /** The unit at which a sequence that is not paired is found out. */
  function Unpaired(u: seq<bv16>, i: nat, end: nat): bv16
    requires i < end <= |u|
  {
    if Lead(u[i]) && i + 1 < end then u[i + 1] else u[i]
  }

  const SURROGATE_OFFSET: bv32 := 0x10000 - (0xd800 << 10) - 0xdc00
  const LEAD_OFFSET: bv16 := Word(0xd800 - ((0x10000 as bv32) >> 10))

  method Utf16To8(u: seq<bv16>, start0: nat, end: nat, result0: seq<bv8>) returns (r: Outcome<seq<bv8>>)
    requires start0 <= end <= |u|
    ensures r.Returned? <==> Paired(u, start0, end)
    ensures r.Returned? ==> r.value == Written(result0, UnitScalars(u, start0, end))
    ensures var stop := PairedEnd(u, start0, end);
      r.Thrown? ==> stop < end && r.e == InvalidUtf16Thrown(Unpaired(u, stop, end))
  {
    PairedIffReadToEnd(u, start0, end);
    var start, result := start0, result0;
    while start != end
      invariant start0 <= start <= end
      invariant PairedEnd(u, start, end) == PairedEnd(u, start0, end)
      invariant Written(result, UnitScalars(u, start, end)) == Written(result0, UnitScalars(u, start0, end))
      decreases end - start
    {
      ReadUnitsOn(u, start, end);
      var pos, cp := NextPair(u, start, end);
      if cp.Thrown? { return Thrown(cp.e); }
      start := pos;
      WriteOne(result, cp.value, UnitScalars(u, start, end));
      var appended := Append(cp.value, result);
      result := appended.value;
    }
    ReadUnitsOn(u, end, end);
    WriteNone(result);
    r := Returned(result);
  }

  predicate ReadsUnits(u: seq<bv16>, i: nat, end: nat, cp: bv32, n: nat) {
    var r := ReadUnits(u, i, end);
    r.Some? && r.value.value == cp && r.value.length == n
  }

  /** The body of the loop of Utf16To8: one code point, from one unit or two. */
  method NextPair(u: seq<bv16>, start0: nat, end: nat) returns (start: nat, r: Outcome<bv32>)
    requires start0 < end <= |u|
    ensures r.Returned? <==> ReadUnits(u, start0, end).Some?
    ensures r.Returned? ==> start0 < start && ReadsUnits(u, start0, end, r.value, start - start0)
    ensures r.Thrown? ==> r.e == InvalidUtf16Thrown(Unpaired(u, start0, end))
  {
    start := start0;
    var cp: bv32 := u[start] as bv32;
    start := start + 1;
    if 0xd800 <= cp <= 0xdbff {
      if start == end { return start, Thrown(InvalidUtf16Thrown(Word(cp))); }
      var trail: bv32 := u[start] as bv32;
      start := start + 1;
      if !(0xdc00 <= trail <= 0xdfff) { return start, Thrown(InvalidUtf16Thrown(Word(trail))); }
      PairSum(u[start0], u[start0 + 1]);
      cp := (cp << 10) + trail + SURROGATE_OFFSET;
    } else if 0xdc00 <= cp <= 0xdfff {
      return start, Thrown(InvalidUtf16Thrown(Word(cp)));
    }
    r := Returned(cp);
  }

  /** The offset is negative in 32 bits and the sum wraps around. */
  lemma PairSum(w1: bv16, w2: bv16)
    requires Lead(w1) && Trail(w2)
    ensures ((w1 as bv32) << 10) + (w2 as bv32) + SURROGATE_OFFSET == PairValue(w1, w2)
    ensures IsScalar(PairValue(w1, w2))
  {
  }

  method Utf8To16(s: seq<bv8>, start0: nat, end: nat, result0: seq<bv16>) returns (r: Outcome<seq<bv16>>)
    requires start0 <= end <= |s|
    ensures r.Returned? <==> ValidText(s[start0..end])
    ensures r.Returned? ==> r.value == WrittenUnits(result0, Scalars(s, start0, end))
    ensures r.Thrown? ==> ValidEnd(s, start0, end) < end && r.e == ExceptionAt(s, ValidEnd(s, start0, end), end)
  {
    ValidIffReadToEnd(s, start0, end);
    var start, result := start0, result0;
    while start != end
      invariant start0 <= start <= end
      invariant ValidEnd(s, start, end) == ValidEnd(s, start0, end)
      invariant WrittenUnits(result, Scalars(s, start, end)) == WrittenUnits(result0, Scalars(s, start0, end))
      decreases end - start
    {
      ReadOn(s, start, end);
      var pos, next := Next(s, start, end);
      start := pos;
      if next.Thrown? { return Thrown(next.e); }
      WriteOneUnits(result, next.value, Scalars(s, start, end));
      result := AppendUnits(next.value, result);
    }
    ReadOn(s, end, end);
    r := Returned(result);
  }

  /** What both converters to UTF-16 write for one code point. */
  method AppendUnits(cp: bv32, result0: seq<bv16>) returns (result: seq<bv16>)
    requires IsScalar(cp)
    ensures result == result0 + Units(cp)
  {
    UnitBits(cp);
    result := result0;
    if cp > 0xffff {
      result := result + [Word((cp >> 10) + LEAD_OFFSET as bv32)];
      result := result + [Word((cp & 0x3ff) + 0xdc00)];
    } else {
      result := result + [Word(cp)];
    }
  }

  /** Adding the 16-bit offset to the upper bits subtracts 0x10000 and adds the marker at once. */
  lemma UnitBits(cp: Scalar)
    ensures Units(cp) == if cp > 0xffff then [Word((cp >> 10) + LEAD_OFFSET as bv32), Word((cp & 0x3ff) + 0xdc00)] else [Word(cp)]
  {
    if cp > 0xffff { OffsetBits(cp); }
  }

  lemma OffsetBits(cp: bv32)
    requires IsScalar(cp) && 0x10000 <= cp
    ensures (cp - 0x10000) >> 10 <= 0x3ff
    ensures Word((cp >> 10) + LEAD_OFFSET as bv32) == 0xd800 | (((cp - 0x10000) >> 10) as bv16)
    ensures Word((cp & 0x3ff) + 0xdc00) == 0xdc00 | (((cp - 0x10000) & 0x3ff) as bv16)
  {
  }

  function WrittenUnits(out: seq<bv16>, cps: seq<Scalar>): seq<bv16> {
    out + UnitsAll(cps)
  }

  lemma WriteOneUnits(out: seq<bv16>, cp: Scalar, cps: seq<Scalar>)
    ensures WrittenUnits(out + Units(cp), cps) == WrittenUnits(out, [cp] + cps)
  {
    assert ([cp] + cps)[1..] == cps;
    assert out + Units(cp) + UnitsAll(cps) == out + (Units(cp) + UnitsAll(cps));
  }

  /** The first value that is no scalar value, if any. */
  function FirstBad(cps: seq<bv32>, i: nat, end: nat): (r: nat)
    requires i <= end <= |cps|
    ensures i <= r <= end
    ensures forall k :: i <= k < r ==> IsScalar(cps[k])
    ensures r < end ==> !IsScalar(cps[r])
    decreases end - i
  {
    if i < end && IsScalar(cps[i]) then FirstBad(cps, i + 1, end) else i
  }

  method Utf32To8(cps: seq<bv32>, start0: nat, end: nat, result0: seq<bv8>) returns (r: Outcome<seq<bv8>>)
    requires start0 <= end <= |cps|
    ensures var bad := FirstBad(cps, start0, end);
      r == if bad < end then Thrown(InvalidCodePointThrown(cps[bad])) else Returned(Written(result0, cps[start0..end]))
  {
    var start, result := start0, result0;
    while start != end
      invariant start0 <= start <= end && FirstBad(cps, start, end) == FirstBad(cps, start0, end)
      invariant FirstBad(cps, start0, end) == end ==>
        Written(result, cps[start..end]) == Written(result0, cps[start0..end])
      decreases end - start
    {
      var appended := Append(cps[start], result);
      if appended.Thrown? { return appended; }
      if FirstBad(cps, start0, end) == end {
        assert cps[start..end] == [cps[start]] + cps[start + 1..end];
        WriteOne(result, cps[start], cps[start + 1..end]);
      }
      start := start + 1;
      result := appended.value;
    }
    assert cps[end..end] == [];
    WriteNone(result);
    r := Returned(result);
  }

  method Utf8To32(s: seq<bv8>, start0: nat, end: nat, result0: seq<bv32>) returns (r: Outcome<seq<bv32>>)
    requires start0 <= end <= |s|
    ensures r.Returned? <==> ValidText(s[start0..end])
    ensures r.Returned? ==> r.value == result0 + Scalars(s, start0, end) && EncodeAll(Scalars(s, start0, end)) == s[start0..end]
    ensures r.Thrown? ==> ValidEnd(s, start0, end) < end && r.e == ExceptionAt(s, ValidEnd(s, start0, end), end)
  {
    ValidIffReadToEnd(s, start0, end);
    var start, result := start0, result0;
    while start != end
      invariant start0 <= start <= end
      invariant ValidEnd(s, start, end) == ValidEnd(s, start0, end)
      invariant result + Scalars(s, start, end) == result0 + Scalars(s, start0, end)
      decreases end - start
    {
      ReadOn(s, start, end);
      var pos, next := Next(s, start, end);
      start := pos;
      if next.Thrown? { return Thrown(next.e); }
      result := result + [next.value];
    }
    ReadOn(s, end, end);
    r := Returned(result);
  }
}
