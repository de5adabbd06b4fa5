/** The codec's core: reading one UTF-8 sequence bit by bit and validating it. An iterator
    is a position in the octets; one passed by reference comes back as a result. */
module Utf8Core {
  import opened Options
  import opened CharacterCodes
  import opened Utf8Standard

  datatype UtfError = UtfOk | NotEnoughRoom | InvalidLead | IncompleteSequence | OverlongSequence | InvalidCodePoint

  // What is wrong with a sequence, by the ranges of its octets.

  /** The length a first octet announces. */
  function LeadLength(a: bv8): nat {
    if a <= 0x7f then 1
    else if 0xc0 <= a <= 0xdf then 2
    else if 0xe0 <= a <= 0xef then 3
    else if 0xf0 <= a <= 0xf7 then 4
    else 0
  }

  /** Are all octets in [j, stop) there, and tails? */
  function Tails(s: seq<bv8>, j: nat, stop: nat, end: nat): UtfError
    requires j <= stop && end <= |s|
    decreases stop - j
  {
    if j == stop then UtfOk
    else if j >= end then NotEnoughRoom
    else if !Tail(s[j]) then IncompleteSequence
    else Tails(s, j + 1, stop, end)
  }

  predicate Overlong(a: bv8, b: bv8) {
    a == 0xc0 || a == 0xc1 || (a == 0xe0 && b <= 0x9f) || (a == 0xf0 && b <= 0x8f)
  }

  /** Surrogates, and code points past the last one; the first kind also in an overlong form. */
  predicate NoScalar(a: bv8, b: bv8) {
    (a == 0xed && 0xa0 <= b) || (a == 0xf4 && 0x90 <= b) || 0xf5 <= a
  }

  predicate OverlongSurrogate(a: bv8, b: bv8, c: bv8) {
    a == 0xf0 && b == 0x8d && 0xa0 <= c
  }

  function Diagnose(s: seq<bv8>, i: nat, end: nat): UtfError
    requires i < end <= |s|
  {
    var n := LeadLength(s[i]);
    if n == 0 then InvalidLead
    else if Tails(s, i + 1, i + n, end) != UtfOk then Tails(s, i + 1, i + n, end)
    else if n == 1 then UtfOk
    else if i + 1 < end && NoScalar(s[i], s[i + 1]) then InvalidCodePoint
    else if i + 2 < end && OverlongSurrogate(s[i], s[i + 1], s[i + 2]) then InvalidCodePoint
    else if i + 1 < end && Overlong(s[i], s[i + 1]) then OverlongSequence
    else UtfOk
  }

  lemma TailsUnfold(s: seq<bv8>, j: nat, n: nat, end: nat)
    requires n <= 3 && end <= |s| && Tails(s, j, j + n, end) == UtfOk
    ensures n > 0 ==> j + n <= end
    ensures n >= 1 ==> Tail(s[j])
    ensures n >= 2 ==> Tail(s[j + 1])
    ensures n >= 3 ==> Tail(s[j + 2])
    decreases n
  {
    if n > 0 { TailsUnfold(s, j + 1, n - 1, end); }
  }

  lemma TailsFold(s: seq<bv8>, j: nat, n: nat, end: nat)
    requires n <= 3 && j + n <= end <= |s|
    requires n >= 1 ==> Tail(s[j])
    requires n >= 2 ==> Tail(s[j + 1])
    requires n >= 3 ==> Tail(s[j + 2])
    ensures Tails(s, j, j + n, end) == UtfOk
    decreases n
  {
    if n > 0 { TailsFold(s, j + 1, n - 1, end); }
  }

  /** Nothing is wrong exactly when the grammar has a character here, of that length. */
  lemma DiagnoseOk(s: seq<bv8>, i: nat, end: nat)
    requires i < end <= |s|
    ensures Diagnose(s, i, end) == UtfOk <==> CharLength(s, i, end) > 0
    ensures CharLength(s, i, end) > 0 ==> CharLength(s, i, end) == LeadLength(s[i])
  {
    var n := LeadLength(s[i]);
    if n > 0 && Tails(s, i + 1, i + n, end) == UtfOk { TailsUnfold(s, i + 1, n - 1, end); }
    if CharLength(s, i, end) > 0 { TailsFold(s, i + 1, CharLength(s, i, end) - 1, end); }
  }

  // The functions of the code.

  function IsTrail(b: bv8): (r: bool)
    ensures r == Tail(b)
  {
    b >> 6 == 0x2
  }

  function SequenceLength(lead: bv8): (r: nat)
    ensures r == LeadLength(lead)
  {
    if lead < 0x80 then 1
    else if lead >> 5 == 0x6 then 2
    else if lead >> 4 == 0xe then 3
    else if lead >> 3 == 0x1e then 4
    else 0
  }

  function IsCodePointValid(cp: bv32): (r: bool)
    ensures r == IsScalar(cp)
  {
    cp <= 0x10ffff && !(0xd800 <= cp && cp <= 0xdfff)
  }

  predicate IsOverlongSequence(cp: bv32, length: nat) {
    if cp < 0x80 then length != 1
    else if cp < 0x800 then length != 2
    else if cp < 0x10000 then length != 3
    else false
  }

  method IncreaseSafely(s: seq<bv8>, it0: nat, end: nat) returns (err: UtfError, it: nat)
    requires it0 < end <= |s|
    ensures it == it0 + 1
    ensures err == if it == end then NotEnoughRoom else if !Tail(s[it]) then IncompleteSequence else UtfOk
  {
    it := it0 + 1;
    if it == end { return NotEnoughRoom, it; }
    if !IsTrail(s[it]) { return IncompleteSequence, it; }
    err := UtfOk;
  }

  method GetSequence1(s: seq<bv8>, it0: nat, end: nat) returns (err: UtfError, it: nat, cp: bv32)
    requires it0 <= end <= |s|
    ensures err == if it0 == end then NotEnoughRoom else UtfOk
    ensures err == UtfOk ==> it == it0 && cp == s[it0] as bv32
  {
    if it0 == end { return NotEnoughRoom, it0, 0; }
    it := it0;
    cp := s[it] as bv32;
    err := UtfOk;
  }

  method GetSequence2(s: seq<bv8>, it0: nat, end: nat) returns (err: UtfError, it: nat, cp: bv32)
    requires it0 <= end <= |s|
    ensures err == if it0 == end then NotEnoughRoom else Tails(s, it0 + 1, it0 + 2, end)
    ensures err == UtfOk ==> it == it0 + 1 < end && cp == Value2(s[it0], s[it0 + 1])
  {
    if it0 == end { return NotEnoughRoom, it0, 0; }
    cp := s[it0] as bv32;
    err, it := IncreaseSafely(s, it0, end);
    if err != UtfOk { return; }
    cp := ((cp << 6) & 0x7ff) + (s[it] & 0x3f) as bv32;
    Bits2Sum(s[it0], s[it]);
  }

  method GetSequence3(s: seq<bv8>, it0: nat, end: nat) returns (err: UtfError, it: nat, cp: bv32)
    requires it0 <= end <= |s|
    ensures err == if it0 == end then NotEnoughRoom else Tails(s, it0 + 1, it0 + 3, end)
    ensures err == UtfOk ==> it == it0 + 2 < end && cp == Value3(s[it0], s[it0 + 1], s[it0 + 2])
  {
    if it0 == end { return NotEnoughRoom, it0, 0; }
    cp := s[it0] as bv32;
    err, it := IncreaseSafely(s, it0, end);
    if err != UtfOk { return; }
    assert Tails(s, it, it0 + 3, end) == Tails(s, it + 1, it0 + 3, end);
    cp := ((cp << 12) & 0xffff) + (((s[it] as bv32) << 6) & 0xfff);
    err, it := IncreaseSafely(s, it, end);
    if err != UtfOk { return; }
    assert Tails(s, it, it0 + 3, end) == Tails(s, it + 1, it0 + 3, end) == UtfOk;
    cp := cp + (s[it] & 0x3f) as bv32;
    Bits3Sum(s[it0], s[it0 + 1], s[it]);
  }

  method GetSequence4(s: seq<bv8>, it0: nat, end: nat) returns (err: UtfError, it: nat, cp: bv32)
    requires it0 <= end <= |s|
    ensures err == if it0 == end then NotEnoughRoom else Tails(s, it0 + 1, it0 + 4, end)
    ensures err == UtfOk ==> it == it0 + 3 < end && cp == Value4(s[it0], s[it0 + 1], s[it0 + 2], s[it0 + 3])
  {
    if it0 == end { return NotEnoughRoom, it0, 0; }
    cp := s[it0] as bv32;
    err, it := IncreaseSafely(s, it0, end);
    if err != UtfOk { return; }
    assert Tails(s, it, it0 + 4, end) == Tails(s, it + 1, it0 + 4, end);
    cp := ((cp << 18) & 0x1fffff) + (((s[it] as bv32) << 12) & 0x3ffff);
    err, it := IncreaseSafely(s, it, end);
    if err != UtfOk { return; }
    assert Tails(s, it, it0 + 4, end) == Tails(s, it + 1, it0 + 4, end);
    cp := cp + (((s[it] as bv32) << 6) & 0xfff);
    err, it := IncreaseSafely(s, it, end);
    if err != UtfOk { return; }
    assert Tails(s, it, it0 + 4, end) == Tails(s, it + 1, it0 + 4, end) == UtfOk;
    cp := cp + (s[it] & 0x3f) as bv32;
    Bits4Sum(s[it0], s[it0 + 1], s[it0 + 2], s[it]);
  }

  /** The masks drop the markers, so the sums never carry. */
  lemma Bits2Sum(a: bv8, b: bv8)
    ensures (((a as bv32) << 6) & 0x7ff) + (b & 0x3f) as bv32 == Value2(a, b)
  {
  }

  lemma Bits3Sum(a: bv8, b: bv8, c: bv8)
    ensures (((a as bv32) << 12) & 0xffff) + (((b as bv32) << 6) & 0xfff) + (c & 0x3f) as bv32 == Value3(a, b, c)
  {
  }

  lemma Bits4Sum(a: bv8, b: bv8, c: bv8, d: bv8)
    ensures (((a as bv32) << 18) & 0x1fffff) + (((b as bv32) << 12) & 0x3ffff) + (((c as bv32) << 6) & 0xfff)
              + (d & 0x3f) as bv32 == Value4(a, b, c, d)
  {
  }

  lemma Judge2(a: bv8, b: bv8)
    requires LeadLength(a) == 2 && Tail(b)
    ensures IsScalar(Value2(a, b)) && !NoScalar(a, b)
    ensures IsOverlongSequence(Value2(a, b), 2) <==> Overlong(a, b)
  {
  }

  lemma Judge3(a: bv8, b: bv8, c: bv8)
    requires LeadLength(a) == 3 && Tail(b) && Tail(c)
    ensures IsScalar(Value3(a, b, c)) <==> !NoScalar(a, b)
    ensures IsOverlongSequence(Value3(a, b, c), 3) <==> Overlong(a, b)
  {
  }

  lemma Judge4(a: bv8, b: bv8, c: bv8, d: bv8)
    requires LeadLength(a) == 4 && Tail(b) && Tail(c) && Tail(d)
    ensures IsScalar(Value4(a, b, c, d)) <==> !NoScalar(a, b) && !OverlongSurrogate(a, b, c)
    ensures IsScalar(Value4(a, b, c, d)) ==> (IsOverlongSequence(Value4(a, b, c, d), 4) <==> Overlong(a, b))
  {
  }

  /** There is a character of n octets at i, and cp is its code point. */
  predicate Reads(s: seq<bv8>, i: nat, end: nat, cp: bv32, n: nat) {
    var r := Read(s, i, end);
    r.Some? && r.value.value == cp && r.value.length == n
  }

  /** Reads one sequence: the code point and the position behind it, or the error at the
      old position. */
  method ValidateNext(s: seq<bv8>, it0: nat, end: nat, cp0: bv32) returns (err: UtfError, it: nat, cp: bv32)
    requires it0 < end <= |s|
    ensures err == Diagnose(s, it0, end)
    ensures err == UtfOk <==> Read(s, it0, end).Some?
    ensures err == UtfOk ==> it0 < it && Reads(s, it0, end, cp, it - it0)
    ensures err != UtfOk ==> it == it0 && cp == cp0
  {
    DiagnoseOk(s, it0, end);
    cp := cp0;
    var read: bv32;
    var length := SequenceLength(s[it0]);
    match length {
      case 0 => return InvalidLead, it0, cp;
      case 1 => err, it, read := GetSequence1(s, it0, end);
      case 2 => err, it, read := GetSequence2(s, it0, end);
      case 3 => err, it, read := GetSequence3(s, it0, end);
      case 4 => err, it, read := GetSequence4(s, it0, end);
    }
    if err == UtfOk {
      Judge(s, it0, end, read);
      if IsCodePointValid(read) {
        if !IsOverlongSequence(read, length) {
          cp := read;
          it := it + 1;
          return;
        } else {
          err := OverlongSequence;
        }
      } else {
        err := InvalidCodePoint;
      }
    }
    it := it0;
  }

  /** The payload bits of a sequence, valid or not. */
  function Payload(s: seq<bv8>, i: nat): bv32
    requires i < |s| && i + LeadLength(s[i]) <= |s|
  {
    match LeadLength(s[i])
    case 2 => Value2(s[i], s[i + 1])
    case 3 => Value3(s[i], s[i + 1], s[i + 2])
    case 4 => Value4(s[i], s[i + 1], s[i + 2], s[i + 3])
    case _ => s[i] as bv32
  }

  /** The last checks on a complete sequence find what is wrong with it. */
  lemma Judge(s: seq<bv8>, i: nat, end: nat, cp: bv32)
    requires i < end <= |s|
    requires LeadLength(s[i]) > 0 && Tails(s, i + 1, i + LeadLength(s[i]), end) == UtfOk
    requires i + LeadLength(s[i]) <= end && cp == Payload(s, i)
    ensures Diagnose(s, i, end) == if !IsScalar(cp) then InvalidCodePoint
                                   else if IsOverlongSequence(cp, LeadLength(s[i])) then OverlongSequence else UtfOk
  {
    var n := LeadLength(s[i]);
    TailsUnfold(s, i + 1, n - 1, end);
    if n == 2 { Judge2(s[i], s[i + 1]); }
    if n == 3 { Judge3(s[i], s[i + 1], s[i + 2]); }
    if n == 4 { Judge4(s[i], s[i + 1], s[i + 2], s[i + 3]); }
  }

  /** The end of the longest valid prefix. */
  method FindInvalid(s: seq<bv8>, start: nat, end: nat) returns (result: nat)
    requires start <= end <= |s|
    ensures start <= result <= end && result == ValidEnd(s, start, end)
    ensures ValidText(s[start..result])
    ensures forall j :: start <= j <= end && ValidText(s[start..j]) ==> j <= result
  {
    forall j | start <= j <= end ensures ValidText(s[start..j]) ==> j <= ValidEnd(s, start, end) {
      LongestValidPrefix(s, start, end, j);
    }
    LongestValidPrefix(s, start, end, start);
    result := start;
    while result != end
      invariant start <= result <= end && ValidEnd(s, result, end) == ValidEnd(s, start, end)
      decreases end - result
    {
      ReadOn(s, result, end);
      var err, it, _ := ValidateNext(s, result, end, 0);
      result := it;
      if err != UtfOk { return; }
    }
  }

  method IsValid(s: seq<bv8>, start: nat, end: nat) returns (ok: bool)
    requires start <= end <= |s|
    ensures ok <==> ValidText(s[start..end])
  {
    var invalid := FindInvalid(s, start, end);
    ValidIffReadToEnd(s, start, end);
    ok := invalid == end;
  }
}
