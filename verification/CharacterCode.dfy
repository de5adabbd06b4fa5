/** Codes that write each value as a few units and can be read back without separators.
    UTF-8 and UTF-16 are two of them. */
module CharacterCodes {
  import opened Options

  /** A value read, and the number of units it took. */
  datatype Char<V> = Char(value: V, length: nat)

  /** rd reads at position i the value written there by enc, if there is one before `end`. */
  ghost predicate Inverse<U(!new), V(!new)>(rd: (seq<U>, nat, nat) -> Option<Char<V>>, enc: V -> seq<U>) {
    (forall v :: enc(v) != [])
    && (forall s, i: nat, end: nat :: i <= end <= |s| && rd(s, i, end).Some? ==>
          Starts(s, i, end, enc(rd(s, i, end).value.value)) && rd(s, i, end).value.length == |enc(rd(s, i, end).value.value)|)
    && (forall s, i: nat, end: nat, v {:trigger Starts(s, i, end, enc(v))} :: Starts(s, i, end, enc(v)) ==> rd(s, i, end) == Some(Char(v, |enc(v)|)))
  }

  predicate Starts<U(==)>(s: seq<U>, i: nat, end: nat, e: seq<U>) {
    i + |e| <= end <= |s| && s[i..i + |e|] == e
  }

  function Concat<U, V>(enc: V -> seq<U>, vs: seq<V>): seq<U> {
    if vs == [] then [] else enc(vs[0]) + Concat(enc, vs[1..])
  }

  /** Where reading from i on stops. */
  function Stop<U, V>(rd: (seq<U>, nat, nat) -> Option<Char<V>>, s: seq<U>, i: nat, end: nat): (r: nat)
    requires i <= end <= |s|
    ensures i <= r <= end
    decreases end - i
  {
    match rd(s, i, end)
    case None => i
    case Some(c) => if 0 < c.length <= end - i then Stop(rd, s, i + c.length, end) else i
  }

  /** The values read until then. */
  function Values<U, V>(rd: (seq<U>, nat, nat) -> Option<Char<V>>, s: seq<U>, i: nat, end: nat): seq<V>
    requires i <= end <= |s|
    decreases end - i
  {
    match rd(s, i, end)
    case None => []
    case Some(c) => if 0 < c.length <= end - i then [c.value] + Values(rd, s, i + c.length, end) else []
  }

  /** The units are the encoding of some sequence of values. */
  ghost predicate Valid<U, V(!new)>(enc: V -> seq<U>, s: seq<U>) {
    exists vs :: Concat(enc, vs) == s
  }

  lemma SplitSlice<T>(s: seq<T>, i: nat, k: nat, a: seq<T>, b: seq<T>)
    requires i <= k <= |s| && s[i..k] == a + b
    ensures i + |a| <= k && s[i..i + |a|] == a && s[i + |a|..k] == b
  {
    assert s[i..i + |a|] == s[i..k][..|a|];
    assert s[i + |a|..k] == s[i..k][|a|..];
  }

  lemma JoinSlice<T>(s: seq<T>, i: nat, j: nat, k: nat)
    requires i <= j <= k <= |s|
    ensures s[i..k] == s[i..j] + s[j..k]
  {
  }

  lemma Unshift<T>(a: seq<T>, b: seq<T>)
    requires a != []
    ensures [a[0]] + (a[1..] + b) == a + b
  {
  }

  lemma {:induction false} ValuesEncode<U(!new), V(!new)>(rd: (seq<U>, nat, nat) -> Option<Char<V>>, enc: V -> seq<U>, s: seq<U>, i: nat, end: nat)
    requires Inverse(rd, enc) && i <= end <= |s|
    ensures Concat(enc, Values(rd, s, i, end)) == s[i..Stop(rd, s, i, end)]
    decreases end - i
  {
    match rd(s, i, end)
    case None =>
    case Some(c) =>
      assert enc(c.value) != [];
      ValuesEncode(rd, enc, s, i + c.length, end);
      JoinSlice(s, i, i + c.length, Stop(rd, s, i, end));
  }

  /** From i on the values vs are read, and then what is read from k on. */
  ghost predicate ReadsTo<U(!new), V(!new)>(rd: (seq<U>, nat, nat) -> Option<Char<V>>, s: seq<U>, i: nat, k: nat, end: nat, vs: seq<V>)
    requires i <= end <= |s| && k <= end
  {
    Stop(rd, s, i, end) == Stop(rd, s, k, end)
    && Values(rd, s, i, end) == vs + Values(rd, s, k, end)
  }

  /** One value, and reading on behind it. */
  lemma ReadFirst<U(!new), V(!new)>(rd: (seq<U>, nat, nat) -> Option<Char<V>>, s: seq<U>, i: nat, k: nat, end: nat, n: nat, vs: seq<V>)
    requires i + n <= k <= end <= |s| && n > 0 && vs != [] && rd(s, i, end) == Some(Char(vs[0], n))
    requires ReadsTo(rd, s, i + n, k, end, vs[1..])
    ensures ReadsTo(rd, s, i, k, end, vs)
  {
    Unshift(vs, Values(rd, s, k, end));
  }

  /** Written values are read back in full, whatever follows them. */
  lemma {:induction false} ConcatReads<U(!new), V(!new)>(rd: (seq<U>, nat, nat) -> Option<Char<V>>, enc: V -> seq<U>, s: seq<U>, i: nat, k: nat, end: nat, vs: seq<V>)
    requires Inverse(rd, enc) && i <= k <= end <= |s| && s[i..k] == Concat(enc, vs)
    ensures ReadsTo(rd, s, i, k, end, vs)
    decreases vs
  {
    if vs != [] {
      var n := FirstLength(rd, enc, s, i, k, end, vs);
      ConcatReads(rd, enc, s, i + n, k, end, vs[1..]);
      ReadFirst(rd, s, i, k, end, n, vs);
    }
  }

  lemma FirstLength<U(!new), V(!new)>(rd: (seq<U>, nat, nat) -> Option<Char<V>>, enc: V -> seq<U>, s: seq<U>, i: nat, k: nat, end: nat, vs: seq<V>)
    returns (n: nat)
    requires Inverse(rd, enc) && i <= k <= end <= |s| && vs != [] && s[i..k] == Concat(enc, vs)
    ensures 0 < n && i + n <= k && rd(s, i, end) == Some(Char(vs[0], n))
    ensures s[i + n..k] == Concat(enc, vs[1..])
  {
    var e := enc(vs[0]);
    SplitSlice(s, i, k, e, Concat(enc, vs[1..]));
    assert e != [] && Starts(s, i, end, e);
    n := |e|;
  }

  /** A range is valid exactly when reading it reaches its end. */
  lemma ValidIffRead<U(!new), V(!new)>(rd: (seq<U>, nat, nat) -> Option<Char<V>>, enc: V -> seq<U>, s: seq<U>, i: nat, end: nat)
    requires Inverse(rd, enc) && i <= end <= |s|
    ensures Valid(enc, s[i..end]) <==> Stop(rd, s, i, end) == end
  {
    ValuesEncode(rd, enc, s, i, end);
    if Valid(enc, s[i..end]) {
      var vs :| Concat(enc, vs) == s[i..end];
      ConcatReads(rd, enc, s, i, end, end, vs);
    }
  }

  /** The sequence of values behind valid units is unique. */
  lemma ConcatInjective<U(!new), V(!new)>(rd: (seq<U>, nat, nat) -> Option<Char<V>>, enc: V -> seq<U>, a: seq<V>, b: seq<V>)
    requires Inverse(rd, enc) && Concat(enc, a) == Concat(enc, b)
    ensures a == b
  {
    var s := Concat(enc, a);
    assert s[0..|s|] == s;
    ConcatReads(rd, enc, s, 0, |s|, |s|, a);
    ConcatReads(rd, enc, s, 0, |s|, |s|, b);
    NothingLeft(rd, enc, s);
    assert a == a + [] && b == b + [];
  }

  lemma NothingLeft<U(!new), V(!new)>(rd: (seq<U>, nat, nat) -> Option<Char<V>>, enc: V -> seq<U>, s: seq<U>)
    requires Inverse(rd, enc)
    ensures Values(rd, s, |s|, |s|) == []
  {
  }

  /** Reading stops at the end of the longest valid prefix. */
  lemma LongestPrefix<U(!new), V(!new)>(rd: (seq<U>, nat, nat) -> Option<Char<V>>, enc: V -> seq<U>, s: seq<U>, i: nat, end: nat, j: nat)
    requires Inverse(rd, enc) && i <= j <= end <= |s|
    ensures Valid(enc, s[i..Stop(rd, s, i, end)])
    ensures Valid(enc, s[i..j]) ==> j <= Stop(rd, s, i, end)
  {
    ValuesEncode(rd, enc, s, i, end);
    if Valid(enc, s[i..j]) {
      var vs :| Concat(enc, vs) == s[i..j];
      ConcatReads(rd, enc, s, i, j, end, vs);
    }
  }
}
