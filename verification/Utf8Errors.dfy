/** What the codec makes of octets that are no character: the exception they call for, and
    where repair goes on behind them. */
module Utf8Errors {
  import opened Options
  import opened Utf8Standard
  import opened Utf8Core
  import opened Utf8Checked

  /** How many octets the first one announces; 0 for one that begins no sequence. */
  function Announced(a: bv8): nat {
    if a < 0x80 then 1 else if a < 0xc0 then 0 else if a < 0xe0 then 2 else if a < 0xf0 then 3
    else if a < 0xf8 then 4 else 0
  }

  /** All octets of the sequence are there, and those behind the first are tails. */
  predicate Complete(s: seq<bv8>, i: nat, end: nat)
    requires i < end <= |s|
  {
    i + Announced(s[i]) <= end && forall k :: i < k < i + Announced(s[i]) ==> Tail(s[k])
  }

  /** The text ends within the sequence, and nothing is wrong before that. */
  predicate CutOff(s: seq<bv8>, i: nat, end: nat)
    requires i < end <= |s|
  {
    i + Announced(s[i]) > end && forall k :: i < k < end ==> Tail(s[k])
  }

  lemma {:induction false} TailsMean(s: seq<bv8>, j: nat, stop: nat, end: nat)
    requires j <= stop && end <= |s|
    ensures var r := Tails(s, j, stop, end);
      (r == UtfOk <==> (stop <= end || j == stop) && forall k :: j <= k < stop ==> k < end && Tail(s[k]))
      && (r == NotEnoughRoom <==> stop > end && j < stop && forall k :: j <= k < end ==> Tail(s[k]))
      && r in {UtfOk, NotEnoughRoom, IncompleteSequence}
    decreases stop - j
  {
    if j < stop && j < end && Tail(s[j]) { TailsMean(s, j + 1, stop, end); }
  }

  /** The number in a sequence of at least two octets, read as section 3 says. */
  function Number(s: seq<bv8>, i: nat): bv32
    requires i < |s| && i + Announced(s[i]) <= |s| && Announced(s[i]) >= 2
  {
    if Announced(s[i]) == 2 then Value2(s[i], s[i + 1])
    else if Announced(s[i]) == 3 then Value3(s[i], s[i + 1], s[i + 2])
    else Value4(s[i], s[i + 1], s[i + 2], s[i + 3])
  }

  /** A text that ends within a sequence throws not_enough_room; a complete sequence of a number
      that is no code point throws invalid_code_point; everything else throws invalid_utf8. */
  lemma ExceptionByOctets(s: seq<bv8>, i: nat, end: nat)
    requires i < end <= |s| && CharLength(s, i, end) == 0
    ensures ExceptionAt(s, i, end) ==
      if CutOff(s, i, end) then NotEnoughRoomThrown
      else if Announced(s[i]) >= 2 && Complete(s, i, end) && !IsScalar(Number(s, i)) then InvalidCodePointThrown(0)
      else InvalidUtf8Thrown(s[i])
  {
    var n := Announced(s[i]);
    assert n == LeadLength(s[i]);
    DiagnoseOk(s, i, end);
    if n > 0 {
      TailsMean(s, i + 1, i + n, end);
      if n >= 2 && Complete(s, i, end) { Judge(s, i, end, Number(s, i)); }
    }
  }

  /** Behind a stray octet repair goes on at the next one; behind a bad sequence it goes on at the
      first octet that is no tail. Either way one mark is written. */
  lemma RepairByOctets(s: seq<bv8>, i: nat, end: nat, mark: Scalar) returns (next: nat)
    requires i < end <= |s| && CharLength(s, i, end) == 0 && !CutOff(s, i, end)
    ensures i < next <= end && Repaired(s, i, end, mark) == Prepend(mark, Repaired(s, next, end, mark))
    ensures Announced(s[i]) == 0 ==> next == i + 1
    ensures Announced(s[i]) >= 2 ==> (forall k :: i < k < next ==> Tail(s[k])) && (next < end ==> !Tail(s[next]))
  {
    var n := Announced(s[i]);
    assert n == LeadLength(s[i]);
    DiagnoseOk(s, i, end);
    next := Resume(s, i, end);
    if n > 0 { TailsMean(s, i + 1, i + n, end); }
  }
}
