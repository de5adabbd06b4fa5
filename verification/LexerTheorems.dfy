/** What the lexer promises: the longest operator is taken, and tokens stand for exactly their
    own text. */
module LexerTheorems {
  import opened SourceLocations
  import opened LexerTables
  import opened Comments
  import opened StringLiterals
  import opened Scanning
  import opened NumberLiterals

  // Maximal munch.

  /** No operator begins with buf followed by what the text has from `it` on. */
  predicate Hopeless(text: string, it: nat, buf: string)
    requires it <= |text|
  {
    forall e :: it <= e <= |text| ==> TypeOfOperator(buf + text[it..e]) == Undefined
  }

  lemma StillHopeless(text: string, it: nat, buf: string)
    requires it < |text| && Hopeless(text, it, buf)
    ensures Hopeless(text, it + 1, buf + [text[it]]) && TypeOfOperator(buf) == Undefined
  {
    assert buf + text[it..it] == buf;
    var i, b := it + 1, buf + [text[it]];
    forall e | i <= e <= |text| ensures TypeOfOperator(b + text[i..e]) == Undefined {
      assert b + text[i..e] == buf + text[it..e];
    }
  }

  /** The whole run of punctuation has been taken. */
  predicate TookRun(text: string, it: nat, buf: string, m: Munched) {
    it < m.it <= |text| && m.buf == buf + text[it..m.it] && (forall k :: it <= k < m.it ==> IsPunctuation(text[k]))
    && (m.it < |text| ==> !IsPunctuation(text[m.it])) && TypeOfOperator(m.buf) == Undefined
  }

  /** Where the table has no operator, the loop takes the whole run. */
  lemma {:induction false} MunchRun(text: string, it: nat, buf: string)
    requires it < |text| && IsPunctuation(text[it]) && Hopeless(text, it, buf)
    ensures TookRun(text, it, buf, Munch(text, it, text[it], buf))
    decreases |text| - it
  {
    var b := buf + [text[it]];
    StillHopeless(text, it, buf);
    assert text[it..it + 1] == [text[it]];
    if it + 1 < |text| {
      StillHopeless(text, it + 1, b);
      if IsPunctuation(text[it + 1]) {
        MunchRun(text, it + 1, b);
        TookMore(text, it, buf, Munch(text, it + 1, text[it + 1], b));
      }
    }
  }

  lemma TookMore(text: string, it: nat, buf: string, m: Munched)
    requires it < |text| && IsPunctuation(text[it]) && TookRun(text, it + 1, buf + [text[it]], m)
    ensures TookRun(text, it, buf, m)
  {
    assert buf + [text[it]] + text[it + 1..m.it] == buf + text[it..m.it];
  }

  lemma MunchFirst(text: string, it: nat)
    requires it < |text| && IsPunctuation(text[it])
    ensures Munch(text, it, text[it], []) ==
      if it + 1 < |text| then Munch(text, it + 1, text[it + 1], [text[it]]) else Munched([text[it]], it + 1)
  {
    assert [] + [text[it]] == [text[it]];
  }

  lemma MunchSecond(text: string, it: nat, c: char)
    requires it < |text|
    ensures Munch(text, it, text[it], [c]) ==
      if !IsPunctuation(text[it]) || (ShortOperator(c) != Undefined && LongOperator(c, text[it]) == Undefined) then Munched([c], it)
      else if it + 1 < |text| then Munch(text, it + 1, text[it + 1], [c, text[it]]) else Munched([c, text[it]], it + 1)
  {
    assert [c] + [text[it]] == [c, text[it]];
  }

  lemma MunchThird(text: string, it: nat, c: char, d: char)
    requires it < |text| && LongOperator(c, d) != Undefined
    ensures Munch(text, it, text[it], [c, d]) == Munched([c, d], it)
  {
  }

  /** How much the loop takes: a two-character operator, else a one-character one. */
  lemma MunchTakes(text: string, it: nat)
    requires it < |text| && IsPunctuation(text[it])
    ensures var m := Munch(text, it, text[it], []); var d := CharAt(text, it + 1);
      (LongOperator(text[it], d) != Undefined ==> m == Munched([text[it], d], it + 2))
      && (LongOperator(text[it], d) == Undefined && ShortOperator(text[it]) != Undefined ==> m == Munched([text[it]], it + 1))
  {
    MunchFirst(text, it);
    if it + 1 < |text| {
      MunchSecond(text, it + 1, text[it]);
      if it + 2 < |text| && LongOperator(text[it], text[it + 1]) != Undefined {
        MunchThird(text, it + 2, text[it], text[it + 1]);
      }
    }
  }

  lemma PrefixType(text: string, it: nat, e: nat)
    requires it < e <= |text|
    ensures TypeOfOperator(text[it..e]) ==
      if e == it + 1 then ShortOperator(text[it]) else if e == it + 2 then LongOperator(text[it], text[it + 1]) else Undefined
  {
    var p := text[it..e];
    assert |p| == e - it && p[0] == text[it];
    if |p| > 1 { assert p[1] == text[it + 1]; }
  }

  lemma NoLongWithoutSecond(c: char)
    ensures LongOperator(c, '\0') == Undefined
  {
  }

  lemma NothingIsHopeless(text: string, it: nat)
    requires it < |text| && ShortOperator(text[it]) == Undefined && LongOperator(text[it], CharAt(text, it + 1)) == Undefined
    ensures Hopeless(text, it, [])
  {
    var none: string := [];
    forall e | it <= e <= |text| ensures TypeOfOperator(none + text[it..e]) == Undefined {
      assert none + text[it..e] == text[it..e];
      if e > it { PrefixType(text, it, e); }
    }
  }

  /** The operator loop finds a table operator exactly when one begins the text here, and then
      the longest one; else it takes the whole run of punctuation. */
  lemma LongestOperator(text: string, it: nat)
    requires it < |text| && IsPunctuation(text[it])
    ensures var m := Munch(text, it, text[it], []);
      it < m.it && m.buf == text[it..m.it] && (forall k :: it <= k < m.it ==> IsPunctuation(text[k]))
      && (TypeOfOperator(m.buf) != Undefined <==> exists e :: it < e <= |text| && TypeOfOperator(text[it..e]) != Undefined)
      && (TypeOfOperator(m.buf) != Undefined ==> forall e :: m.it < e <= |text| ==> TypeOfOperator(text[it..e]) == Undefined)
      && (TypeOfOperator(m.buf) == Undefined ==> m.it == |text| || !IsPunctuation(text[m.it]))
  {
    forall e | it < e <= |text|
      ensures TypeOfOperator(text[it..e]) ==
        if e == it + 1 then ShortOperator(text[it]) else if e == it + 2 then LongOperator(text[it], text[it + 1]) else Undefined
    {
      PrefixType(text, it, e);
    }
    if ShortOperator(text[it]) == Undefined && LongOperator(text[it], CharAt(text, it + 1)) == Undefined {
      NothingIsHopeless(text, it);
      MunchRun(text, it, []);
      var m := Munch(text, it, text[it], []);
      assert [] + text[it..m.it] == text[it..m.it];
    } else {
      SomeOperator(text, it);
    }
  }

  /** An operator of the table has been taken, and no longer one begins there. */
  predicate TookOperator(text: string, it: nat, m: Munched) {
    it < m.it <= it + 2 && m.it <= |text| && m.buf == text[it..m.it] && TypeOfOperator(m.buf) != Undefined
    && (forall k :: it <= k < m.it ==> IsPunctuation(text[k]))
    && (m.it == it + 1 < |text| ==> LongOperator(text[it], text[it + 1]) == Undefined)
  }

  lemma SomeOperator(text: string, it: nat)
    requires it < |text| && IsPunctuation(text[it])
    requires ShortOperator(text[it]) != Undefined || LongOperator(text[it], CharAt(text, it + 1)) != Undefined
    ensures TookOperator(text, it, Munch(text, it, text[it], []))
  {
    MunchTakes(text, it);
    NoLongWithoutSecond(text[it]);
    if LongOperator(text[it], CharAt(text, it + 1)) != Undefined {
      TwoTaken(text, it);
    } else {
      OneTaken(text, it);
    }
  }

  lemma OneTaken(text: string, it: nat)
    requires it < |text| && IsPunctuation(text[it]) && ShortOperator(text[it]) != Undefined
    requires LongOperator(text[it], CharAt(text, it + 1)) == Undefined
    ensures TookOperator(text, it, Munched([text[it]], it + 1))
  {
    assert text[it..it + 1] == [text[it]];
  }

  lemma TwoTaken(text: string, it: nat)
    requires it + 1 < |text| && IsPunctuation(text[it]) && LongOperator(text[it], text[it + 1]) != Undefined
    ensures TookOperator(text, it, Munched([text[it], text[it + 1]], it + 2))
  {
    OperatorsArePunctuation([text[it], text[it + 1]]);
    assert text[it..it + 2] == [text[it], text[it + 1]];
  }

  // Tokens and their text.

  /** The token's location is exact and its length selects its own value from the text. */
  predicate Selects(text: string, token: Token, start: nat) {
    token.loc.it == start && Exact(text, token.loc) && token.len == |token.value|
    && start + token.len <= |text| && text[start..start + token.len] == token.value
  }

  predicate OneLine(text: string, start: nat, it: nat)
    requires start <= it <= |text|
  {
    forall k :: start <= k < it ==> text[k] != '\n'
  }

  lemma CreateTokenSelects(text: string, start: nat, it: nat, kind: TokenType)
    requires start <= it <= |text| && kind != Eof && OneLine(text, start, it)
    ensures Selects(text, CreateToken(text, it, kind, text[start..it]), start)
  {
    LocSelects(text, start, it);
  }

  lemma LocSelects(text: string, start: nat, it: nat)
    requires start <= it <= |text| && OneLine(text, start, it)
    ensures Exact(text, StartLoc(text, it, it - start))
  {
    ForthIsExact(text, it);
    ExactBack(text, LocAt(text, it), start, StartLoc(text, it, it - start));
  }

  lemma ExactBack(text: string, l: Loc, start: nat, r: Loc)
    requires Exact(text, l) && start <= l.it && r == Back(text, l, l.it - start)
    requires OneLine(text, start, l.it)
    ensures Exact(text, r)
  {
    BackIsExactIff(text, l, l.it - start);
  }

  lemma WordOnOneLine(text: string, it: nat, end: nat)
    requires it < end <= |text| && IsIdentifierStart(text[it]) && forall k :: it < k < end ==> IsIdentifierChar(text[k])
    ensures OneLine(text, it, end)
  {
  }

  lemma PunctuationOnOneLine(text: string, it: nat, end: nat)
    requires it < end <= |text| && forall k :: it <= k < end ==> IsPunctuation(text[k])
    ensures OneLine(text, it, end)
  {
  }

  /** A word stands for exactly its own text, in every text. */
  lemma WordSelects(text: string, it: nat, level: Level)
    requires it < |text| && IsIdentifierStart(text[it])
    ensures var scan := WordAt(text, it, level);
      Selects(text, scan.token, it) && scan.it == WordEnd(text, it + 1) == it + scan.token.len && scan.level == level
      && scan.token.kind == WordType(scan.token.value)
  {
    var end := WordEnd(text, it + 1);
    WordOnOneLine(text, it, end);
    CreateTokenSelects(text, it, end, WordType(text[it..end]));
  }

  /** So does an operator or punctuator. */
  lemma OperatorSelects(text: string, it: nat, level: Level)
    requires it < |text| && IsPunctuation(text[it])
    ensures var scan := OperatorAt(text, it, text[it], level);
      Selects(text, scan.token, it) && scan.it == it + scan.token.len
      && scan.token.value == Munch(text, it, text[it], []).buf && scan.token.kind == TypeOfOperator(scan.token.value)
      && scan.level == if scan.token.kind == Undefined then Error else level
  {
    LongestOperator(text, it);
    var m := Munch(text, it, text[it], []);
    PunctuationOnOneLine(text, it, m.it);
    CreateTokenSelects(text, it, m.it, TypeOfOperator(m.buf));
  }
}
