/** Positions in a source text with their line and column, moved forwards and backwards. */
module SourceLocations {
  /** The fields of a location; line, col and lastLineLen are 32-bit unsigned numbers. */
  datatype Loc = Loc(it: nat, line: uint32, col: uint32, lastLineLen: uint32)

  type uint32 = x: nat | x < 0x1_0000_0000

  function Wrap(x: int): uint32 {
    x % 0x1_0000_0000
  }

  /** The character at a position, and '\0' at the end. */
  function CharAt(text: string, it: nat): char {
    if it < |text| then text[it] else '\0'
  }

  function Inc(text: string, l: Loc): Loc {
    if l.it >= |text| then l
    else if text[l.it] == '\n' then Loc(l.it + 1, Wrap(l.line + 1), 1, l.col)
    else Loc(l.it + 1, l.line, Wrap(l.col + 1), l.lastLineLen)
  }

  function Dec(text: string, l: Loc): Loc
    requires 0 < l.it <= |text|
  {
    if text[l.it - 1] == '\n' then Loc(l.it - 1, Wrap(l.line - 1), l.lastLineLen, l.lastLineLen)
    else Loc(l.it - 1, l.line, Wrap(l.col - 1), l.lastLineLen)
  }

  function Forth(text: string, l: Loc, n: nat): Loc {
    if n == 0 then l else Inc(text, Forth(text, l, n - 1))
  }

  function Back(text: string, l: Loc, n: nat): (r: Loc)
    requires n <= l.it <= |text|
    ensures r.it == l.it - n
  {
    if n == 0 then l else Dec(text, Back(text, l, n - 1))
  }

  const START := Loc(0, 1, 1, 0)

  // What line and column mean.

  function Newlines(text: string, p: nat): nat
    requires p <= |text|
  {
    if p == 0 then 0 else Newlines(text, p - 1) + (if text[p - 1] == '\n' then 1 else 0)
  }

  /** Where the line of p begins. */
  function LineStart(text: string, p: nat): (s: nat)
    requires p <= |text|
    ensures s <= p
  {
    if p == 0 || text[p - 1] == '\n' then p else LineStart(text, p - 1)
  }

  function LineOf(text: string, p: nat): uint32
    requires p <= |text|
  {
    Wrap(1 + Newlines(text, p))
  }

  function ColumnOf(text: string, p: nat): uint32
    requires p <= |text|
  {
    Wrap(1 + p - LineStart(text, p))
  }

  predicate Exact(text: string, l: Loc) {
    l.it <= |text| && l.line == LineOf(text, l.it) && l.col == ColumnOf(text, l.it)
  }

  /** The location knows the column of the line break right before its own line. */
  predicate Remembers(text: string, l: Loc)
    requires l.it <= |text|
  {
    var s := LineStart(text, l.it);
    s > 0 ==> l.lastLineLen == ColumnOf(text, s - 1)
  }

  /** The location the lexer has after n steps forward. */
  function LocAt(text: string, n: nat): Loc {
    Forth(text, START, n)
  }

  lemma WrapUp(x: int)
    ensures Wrap(Wrap(x) + 1) == Wrap(x + 1)
  {
  }

  lemma WrapDown(x: int)
    ensures Wrap(Wrap(x) - 1) == Wrap(x - 1)
  {
  }

  lemma IncIsExact(text: string, l: Loc)
    requires Exact(text, l) && Remembers(text, l)
    ensures var r := Inc(text, l); Exact(text, r) && Remembers(text, r)
  {
    if l.it < |text| {
      WrapUp(1 + Newlines(text, l.it));
      WrapUp(1 + l.it - LineStart(text, l.it));
    }
  }

  /** After any number of steps forward, line and column are exact. */
  lemma {:induction false} ForthIsExact(text: string, n: nat)
    ensures LocAt(text, n).it == if n <= |text| then n else |text|
    ensures Exact(text, LocAt(text, n)) && Remembers(text, LocAt(text, n))
  {
    if n > 0 {
      ForthIsExact(text, n - 1);
      IncIsExact(text, LocAt(text, n - 1));
    }
  }

  /** The line break that ends the line of p, if there is one before `limit`. */
  function LineEnd(text: string, p: nat, limit: nat): (e: nat)
    requires p <= limit <= |text|
    ensures p <= e <= limit
    ensures forall k :: p <= k < e ==> text[k] != '\n'
    ensures e < limit ==> text[e] == '\n'
    decreases limit - p
  {
    if p == limit || text[p] == '\n' then p else LineEnd(text, p + 1, limit)
  }

  /** Stepping back keeps the line exact. The column is counted from the remembered length
      once a line break has been crossed. */
  lemma {:induction false} BackValues(text: string, l: Loc, n: nat)
    requires Exact(text, l) && n <= l.it
    ensures BackAs(text, l, Back(text, l, n))
  {
    if n > 0 {
      BackValues(text, l, n - 1);
      DecValues(text, l, Back(text, l, n - 1));
    }
  }

  predicate BackAs(text: string, l: Loc, r: Loc)
    requires r.it <= l.it <= |text|
  {
    var e := LineEnd(text, r.it, l.it);
    r.line == LineOf(text, r.it) && r.lastLineLen == l.lastLineLen
    && r.col == (if e == l.it then ColumnOf(text, r.it) else Wrap(l.lastLineLen - (e - r.it)))
  }

  lemma DecValues(text: string, l: Loc, r: Loc)
    requires 0 < r.it <= l.it <= |text| && BackAs(text, l, r)
    ensures BackAs(text, l, Dec(text, r))
  {
    WrapDown(1 + Newlines(text, r.it));
    if text[r.it - 1] != '\n' { DecInLine(text, l, r); }
  }

  lemma DecInLine(text: string, l: Loc, r: Loc)
    requires 0 < r.it <= l.it <= |text| && BackAs(text, l, r) && text[r.it - 1] != '\n'
    ensures BackAs(text, l, Dec(text, r))
  {
    var e := LineEnd(text, r.it, l.it);
    if e == l.it {
      WrapDown(1 + r.it - LineStart(text, r.it));
    } else {
      WrapDown(l.lastLineLen - (e - r.it));
    }
  }

  /** Is the line break that ends the line of p as far to the right as the remembered one? */
  predicate SameWidth(text: string, p: nat, l: Loc)
    requires p <= l.it <= |text|
  {
    var e := LineEnd(text, p, l.it);
    e < l.it ==> ColumnOf(text, e) == l.lastLineLen
  }

  /** Stepping back gives the exact location if and only if no line break is crossed or the
      line reached is as long as the one remembered. */
  lemma BackIsExactIff(text: string, l: Loc, n: nat)
    requires Exact(text, l) && n <= l.it
    ensures Exact(text, Back(text, l, n)) <==> SameWidth(text, l.it - n, l)
  {
    BackValues(text, l, n);
    var q := l.it - n;
    var e := LineEnd(text, q, l.it);
    SameLine(text, q, e);
    Shift(l.lastLineLen, 1 + e - LineStart(text, q), e - q);
  }

  lemma {:induction false} SameLine(text: string, q: nat, e: nat)
    requires q <= e <= |text| && forall k :: q <= k < e ==> text[k] != '\n'
    ensures LineStart(text, e) == LineStart(text, q) && Newlines(text, e) == Newlines(text, q)
    decreases e - q
  {
    if q < e { SameLine(text, q, e - 1); }
  }

  lemma Shift(x: uint32, y: int, d: int)
    ensures Wrap(x - d) == Wrap(y - d) <==> x == Wrap(y)
  {
  }

  /** In particular it is exact while at most one line break is crossed. */
  lemma BackOverOneLineBreak(text: string, l: Loc, n: nat)
    requires Exact(text, l) && Remembers(text, l) && n <= l.it
    requires Newlines(text, l.it) - Newlines(text, l.it - n) <= 1
    ensures Exact(text, Back(text, l, n))
  {
    var q := l.it - n;
    var e := LineEnd(text, q, l.it);
    if e < l.it {
      SameLine(text, q, e);
      NewlinesGrow(text, e + 1, l.it);
      OnlyBreak(text, e + 1, l.it);
    }
    BackIsExactIff(text, l, n);
  }

  lemma {:induction false} NewlinesGrow(text: string, p: nat, q: nat)
    requires p <= q <= |text|
    ensures Newlines(text, p) <= Newlines(text, q)
    decreases q - p
  {
    if p < q { NewlinesGrow(text, p, q - 1); }
  }

  lemma {:induction false} OnlyBreak(text: string, p: nat, q: nat)
    requires 0 < p <= q <= |text| && text[p - 1] == '\n' && Newlines(text, p) == Newlines(text, q)
    ensures LineStart(text, q) == p
    decreases q - p
  {
    if p < q {
      NewlinesGrow(text, p, q - 1);
      OnlyBreak(text, p, q - 1);
    }
  }

  /** The class: one location, moved in place. */
  class SourceLocation {
    const text: string
    var it: nat
    var line: uint32
    var col: uint32
    var lastLineLen: uint32
    var len: nat

    constructor (text: string)
      ensures this.text == text && State() == START && len == 1 && Valid()
    {
      this.text := text;
      it, line, col, lastLineLen, len := 0, 1, 1, 0, 1;
    }

    constructor Copy(from: SourceLocation)
      ensures text == from.text && State() == from.State() && len == from.len
    {
      text := from.text;
      it, line, col, lastLineLen, len := from.it, from.line, from.col, from.lastLineLen, from.len;
    }

    predicate Valid()
      reads this
    {
      it <= |text|
    }

    function State(): Loc
      reads this
    {
      Loc(it, line, col, lastLineLen)
    }

    function Deref(): char
      reads this
    {
      CharAt(text, it)
    }

    predicate HasMore()
      reads this
      requires Valid()
    {
      it != |text|
    }

    function Remaining(): nat
      reads this
      requires Valid()
    {
      |text| - it
    }

    method Increment()
      requires Valid()
      modifies this
      ensures Valid() && State() == Inc(text, old(State())) && len == old(len)
    {
      if it == |text| { return; }
      if text[it] == '\n' {
        line := Wrap(line + 1);
        lastLineLen, col := col, 1;
      } else {
        col := Wrap(col + 1);
      }
      it := it + 1;
    }

    method Decrement()
      requires Valid() && it > 0
      modifies this
      ensures Valid() && State() == Dec(text, old(State())) && len == old(len)
    {
      it := it - 1;
      if text[it] == '\n' {
        line := Wrap(line - 1);
        col := lastLineLen;
      } else {
        col := Wrap(col - 1);
      }
    }

    /** operator+, and operator- for a negative distance */
    method Plus(dist: int) returns (ret: SourceLocation)
      requires Valid() && it + dist >= 0
      ensures fresh(ret) && ret.text == text && ret.Valid() && ret.len == len
      ensures ret.State() == if dist >= 0 then Forth(text, State(), dist) else Back(text, State(), -dist)
      decreases dist < 0
    {
      ret := new SourceLocation.Copy(this);
      if dist < 0 {
        ret := Minus(-dist);
        return;
      }
      var i := 0;
      while i < dist
        invariant 0 <= i <= dist && fresh(ret) && ret.text == text && ret.Valid() && ret.len == len
        invariant ret.State() == Forth(text, State(), i)
      {
        ret.Increment();
        i := i + 1;
      }
    }

    method Minus(dist: int) returns (ret: SourceLocation)
      requires Valid() && it - dist >= 0
      ensures fresh(ret) && ret.text == text && ret.Valid() && ret.len == len
      ensures ret.State() == if dist >= 0 then Back(text, State(), dist) else Forth(text, State(), -dist)
      decreases dist < 0
    {
      ret := new SourceLocation.Copy(this);
      if dist < 0 {
        ret := Plus(-dist);
        return;
      }
      var i := 0;
      while i < dist
        invariant 0 <= i <= dist && fresh(ret) && ret.text == text && ret.Valid() && ret.len == len
        invariant ret.State() == Back(text, State(), i)
      {
        ret.Decrement();
        i := i + 1;
      }
    }

    method AddAssign(dist: int)
      requires Valid() && it + dist >= 0
      modifies this
      ensures Valid() && len == old(len)
      ensures State() == if dist >= 0 then Forth(text, old(State()), dist) else Back(text, old(State()), -dist)
    {
      var sum := Plus(dist);
      it, line, col, lastLineLen, len := sum.it, sum.line, sum.col, sum.lastLineLen, sum.len;
    }

    method SubAssign(dist: int)
      requires Valid() && it - dist >= 0
      modifies this
      ensures Valid() && len == old(len)
      ensures State() == if dist >= 0 then Back(text, old(State()), dist) else Forth(text, old(State()), -dist)
    {
      var difference := Minus(dist);
      it, line, col, lastLineLen, len := difference.it, difference.line, difference.col, difference.lastLineLen, difference.len;
    }
  }
}
