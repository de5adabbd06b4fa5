/** Lexing undoes writing: tokens written with blanks and comments between them are read back. */
module WrittenTexts {
  import opened SourceLocations
  import opened LexerTables
  import opened Comments
  import opened Scanning
  import opened NumberLiterals
  import opened LexerTheorems
  import opened Separators

  // Written tokens.

  /** What is written and what type it should have. */
  datatype Item = Item(kind: TokenType, text: string)

  predicate IsWord(s: string) {
    s != [] && IsIdentifierStart(s[0]) && forall k :: 0 <= k < |s| ==> IsIdentifierChar(s[k])
  }

  predicate IsDecimal(s: string) {
    s != [] && forall k :: 0 <= k < |s| ==> IsDigit(s[k])
  }

  /** An identifier or keyword, an operator or punctuator, or a decimal number. */
  predicate Writable(item: Item) {
    (IsWord(item.text) && item.kind == WordType(item.text))
    || (TypeOfOperator(item.text) == item.kind && item.kind != Undefined)
    || (IsDecimal(item.text) && item.kind == IntegerLiteral)
  }

  /** May a token be followed by c? A comment right behind a `/` would begin one character early. */
  predicate MayFollow(item: Item, c: char) {
    IsBlank(c) || (c == '/' && item.text != "/")
  }

  /** The item's text stands at `it`, followed by a blank, a comment or nothing. */
  predicate StandsAt(text: string, it: nat, item: Item) {
    it + |item.text| <= |text| && text[it..it + |item.text|] == item.text
    && (it + |item.text| < |text| ==> MayFollow(item, text[it + |item.text|]))
  }

  predicate ReadAs(text: string, token: Token, item: Item, it: nat) {
    token.kind == item.kind && token.value == item.text && Selects(text, token, it)
  }

  predicate IsRead(text: string, scan: Scan, item: Item, it: nat) {
    ReadAs(text, scan.token, item, it) && scan.it == it + |item.text| && scan.level == NoError
  }

  lemma {:induction false} WordEndAt(text: string, i: nat, end: nat)
    requires i <= end <= |text| && forall k :: i <= k < end ==> IsIdentifierChar(text[k])
    requires !IsIdentifierChar(CharAt(text, end))
    ensures WordEnd(text, i) == end
    decreases end - i
  {
    if i < end { WordEndAt(text, i + 1, end); }
  }

  lemma WordReadBack(text: string, it: nat, item: Item)
    requires IsWord(item.text) && item.kind == WordType(item.text) && StandsAt(text, it, item)
    ensures BranchOf(text[it], CharAt(text, it + 1)) == WordBranch
    ensures IsRead(text, WordAt(text, it, NoError), item, it)
  {
    var w := item.text;
    forall k | it <= k < it + |w| ensures text[k] == w[k - it] { assert text[it..it + |w|][k - it] == text[k]; }
    assert CharAt(text, it + 1) != '\'' && CharAt(text, it + 1) != '"';
    WordEndAt(text, it + 1, it + |w|);
    WordSelects(text, it, NoError);
    SameWord(text, WordAt(text, it, NoError), item, it);
  }

  lemma SameWord(text: string, scan: Scan, item: Item, it: nat)
    requires item.kind == WordType(item.text) && StandsAt(text, it, item)
    requires Selects(text, scan.token, it) && scan.it == it + |item.text| == it + scan.token.len && scan.level == NoError
    requires scan.token.kind == WordType(scan.token.value)
    ensures IsRead(text, scan, item, it)
  {
    assert scan.token.value == item.text;
  }

  lemma PunctuatorReadBack(text: string, it: nat, item: Item)
    requires TypeOfOperator(item.text) == item.kind && item.kind != Undefined && StandsAt(text, it, item)
    ensures it < |text| && BranchOf(text[it], CharAt(text, it + 1)) == OperatorBranch
    ensures IsRead(text, OperatorAt(text, it, text[it], NoError), item, it)
  {
    var p := item.text;
    OperatorsArePunctuation(p);
    forall k | it <= k < it + |p| ensures text[k] == p[k - it] { assert text[it..it + |p|][k - it] == text[k]; }
    PunctuatorBranch(p, CharAt(text, it + 1));
    MunchTakes(text, it);
    assert Munch(text, it, text[it], []).buf == p;
    OperatorSelects(text, it, NoError);
  }

  /** An operator followed by its second character, a blank or a comment starts no number or literal,
      and nothing of that makes a longer operator of it. */
  lemma PunctuatorBranch(p: string, d: char)
    requires TypeOfOperator(p) != Undefined && if |p| == 2 then d == p[1] else d == '\0' || d == '/' || IsBlank(d)
    ensures BranchOf(p[0], d) == OperatorBranch && (|p| == 1 ==> LongOperator(p[0], d) == Undefined)
  {
    OperatorsArePunctuation(p);
  }

  lemma DecimalReadBack(text: string, it: nat, item: Item)
    requires IsDecimal(item.text) && item.kind == IntegerLiteral && StandsAt(text, it, item)
    ensures BranchOf(text[it], CharAt(text, it + 1)) == NumberBranch
    ensures IsRead(text, NumberAt(text, it, NoError), item, it)
  {
    hide NumberAt, IsRead, IntegerAt;
    DecimalStands(text, it, item);
    DecimalNumber(text, it, item.text);
    NumberIsRead(text, it, item, NumberAt(text, it, NoError));
  }

  lemma NumberIsRead(text: string, it: nat, item: Item, scan: Scan)
    requires StandsAt(text, it, item) && item.kind != Eof && OneLine(text, it, it + |item.text|)
    requires scan == Scan(CreateToken(text, it + |item.text|, item.kind, item.text).(modifiers := {I32}), it + |item.text|, NoError)
    ensures IsRead(text, scan, item, it)
  {
    CreateTokenSelects(text, it, it + |item.text|, item.kind);
  }

  lemma DecimalNumber(text: string, it: nat, digits: string)
    requires it < |text| && IntegerAt(text, it, DecBase, digits, [])
    ensures NumberAt(text, it, NoError)
         == Scan(CreateToken(text, it + |digits|, IntegerLiteral, digits).(modifiers := {I32}), it + |digits|, NoError)
  {
    hide NumberAt, IntegerAt;
    IntegerReadBack(text, it, DecBase, digits, [], NoError);
    assert {I32} + {} == {I32};
  }

  lemma DecimalStands(text: string, it: nat, item: Item)
    requires IsDecimal(item.text) && StandsAt(text, it, item)
    ensures IntegerAt(text, it, DecBase, item.text, []) && OneLine(text, it, it + |item.text|)
    ensures BranchOf(text[it], CharAt(text, it + 1)) == NumberBranch
  {
    SpellsAt(text, it, item.text);
    forall k | it <= k < it + |item.text| ensures IsDigit(text[k]) { assert text[k] == item.text[k - it]; }
  }

  lemma ItemReadBack(text: string, it: nat, item: Item, strict: bool)
    requires Writable(item) && StandsAt(text, it, item)
    ensures it < |text| && IsRead(text, TokenFrom(text, it, NoError, strict), item, it)
  {
    if IsWord(item.text) && item.kind == WordType(item.text) {
      WordReadBack(text, it, item);
    } else if IsDecimal(item.text) && item.kind == IntegerLiteral {
      DecimalReadBack(text, it, item);
    } else {
      PunctuatorReadBack(text, it, item);
    }
    TokenFromBranch(text, it, NoError, strict);
  }

  lemma NoBlankNoComment(item: Item)
    requires Writable(item)
    ensures item.kind != Eof
    ensures item.text != [] && !IsWhitespace(item.text[0])
    ensures item.text[0] == '/' && |item.text| > 1 ==> item.text[1] != '/' && item.text[1] != '*'
  {
    if TypeOfOperator(item.text) != Undefined { OperatorsArePunctuation(item.text); }
  }

  /** Nothing is skipped in front of an item. */
  lemma NothingSkipped(text: string, it: nat, item: Item)
    requires Writable(item) && StandsAt(text, it, item)
    ensures Skip(text, it, NoError) == TokenAt(it)
  {
    NoBlankNoComment(item);
    assert text[it] == item.text[0];
    if |item.text| > 1 { assert text[it + 1] == item.text[1]; }
    if |item.text| == 1 { assert item.text == [item.text[0]]; }
  }

  // Written texts.

  /** An item and what stands between it and the next one. */
  datatype Part = Part(item: Item, gap: seq<Piece>)

  function PartsText(parts: seq<Part>): string {
    if parts == [] then "" else parts[0].item.text + (GapText(parts[0].gap) + PartsText(parts[1..]))
  }

  /** Only the last item may be followed by nothing; a `/` is not followed by a comment. */
  predicate IsWritten(parts: seq<Part>) {
    parts != [] ==>
      Writable(parts[0].item) && IsGap(parts[0].gap)
      && (if parts[0].gap == [] then |parts| == 1 else parts[0].item.text == "/" ==> parts[0].gap[0].Blank?)
      && IsWritten(parts[1..])
  }

  /** The tokens for the items, in order, and the one for the end of the file. */
  predicate AllReadAs(text: string, tokens: seq<Token>, parts: seq<Part>, it: nat) {
    if parts == [] then tokens == [EofToken(text)]
    else
      tokens != [] && ReadAs(text, tokens[0], parts[0].item, it)
      && AllReadAs(text, tokens[1..], parts[1..], it + |parts[0].item.text| + |GapText(parts[0].gap)|)
  }

  /** The text from `it` on is the parts. */
  predicate WrittenAt(text: string, it: nat, parts: seq<Part>) {
    it <= |text| && text[it..] == PartsText(parts)
  }

  lemma GapBegins(gap: seq<Piece>)
    requires IsGap(gap) && gap != []
    ensures GapText(gap) != [] && if gap[0].Blank? then IsBlank(GapText(gap)[0]) else GapText(gap)[0] == '/'
  {
  }

  lemma TailSpells(text: string, it: nat, a: string, b: string)
    requires it <= |text| && text[it..] == a + b
    ensures Spells(text, it, a) && it + |a| <= |text| && text[it + |a|..] == b
  {
    var tail := text[it..];
    assert tail[..|a|] == a && tail[|a|..] == b;
    assert text[it..it + |a|] == tail[..|a|] && text[it + |a|..] == tail[|a|..];
  }

  lemma FollowedByGap(text: string, end: nat, item: Item, gap: seq<Piece>)
    requires IsGap(gap) && gap != [] && Spells(text, end, GapText(gap)) && (item.text == "/" ==> gap[0].Blank?)
    ensures end < |text| && MayFollow(item, text[end])
  {
    GapBegins(gap);
    SpellsChar(text, end, GapText(gap), 0);
  }

  lemma ItemStands(text: string, it: nat, item: Item, gap: seq<Piece>, rest: string)
    requires IsGap(gap) && it <= |text| && text[it..] == item.text + (GapText(gap) + rest)
    requires if gap == [] then rest == "" else item.text == "/" ==> gap[0].Blank?
    ensures StandsAt(text, it, item)
    ensures var end := it + |item.text|; var next := end + |GapText(gap)|;
      SkipsTo(text, end, next) && next <= |text| && text[next..] == rest
  {
    hide MayFollow, SkipsTo, IsGap;
    TailSpells(text, it, item.text, GapText(gap) + rest);
    var end := it + |item.text|;
    TailSpells(text, end, GapText(gap), rest);
    GapIsSkipped(text, end, gap);
    if gap != [] { FollowedByGap(text, end, item, gap); }
  }

  lemma WrittenHead(text: string, it: nat, parts: seq<Part>)
    requires parts != [] && IsWritten(parts) && WrittenAt(text, it, parts)
    ensures StandsAt(text, it, parts[0].item)
    ensures var end := it + |parts[0].item.text|; var next := end + |GapText(parts[0].gap)|;
      SkipsTo(text, end, next) && WrittenAt(text, next, parts[1..])
  {
    hide MayFollow, SkipsTo, Writable, IsGap, StandsAt;
    ItemStands(text, it, parts[0].item, parts[0].gap, PartsText(parts[1..]));
  }

  /** The item stands at `it`, and the lexer somewhere before it with only blanks and comments between. */
  predicate Before(text: string, from: nat, it: nat, item: Item) {
    StandsAt(text, it, item) && SkipsTo(text, from, it)
  }

  lemma OneStep(text: string, from: nat, it: nat, item: Item, strict: bool)
    requires Before(text, from, it, item) && Writable(item)
    ensures IsRead(text, NextToken(text, from, NoError, strict), item, it)
  {
    NothingSkipped(text, it, item);
    NextTokenAt(text, from, it, NoError, strict);
    ItemReadBack(text, it, item, strict);
  }

  /** Reading from `from` on gives one token for each item, and then the end of the file. */
  predicate ReadsParts(read: (nat, Level) -> Scan, text: string, from: nat, it: nat, parts: seq<Part>)
    decreases parts
  {
    var scan := read(from, NoError);
    if parts == [] then scan.token == EofToken(text) && scan.level == NoError
    else
      var end := it + |parts[0].item.text|;
      from < end <= |text| && parts[0].item.kind != Eof && IsRead(text, scan, parts[0].item, it)
      && ReadsParts(read, text, end, end + |GapText(parts[0].gap)|, parts[1..])
  }

  /** Wherever a writable item stands, this reader reads it, and behind all items it reads the end. */
  ghost predicate ReadsAll(read: (nat, Level) -> Scan, text: string) {
    (forall from: nat, it: nat, item :: Before(text, from, it, item) && Writable(item) ==>
      IsRead(text, read(from, NoError), item, it))
    && forall from: nat :: SkipsTo(text, from, |text|) ==> read(from, NoError) == Scan(EofToken(text), |text|, NoError)
  }

  lemma ReaderReadsAll(text: string, strict: bool)
    ensures ReadsAll(Reader(text, strict), text)
  {
    var read := Reader(text, strict);
    forall from: nat, it: nat, item | Before(text, from, it, item) && Writable(item)
      ensures IsRead(text, read(from, NoError), item, it)
    {
      OneStep(text, from, it, item, strict);
    }
    forall from: nat | SkipsTo(text, from, |text|) ensures read(from, NoError) == Scan(EofToken(text), |text|, NoError) {
      assert Skip(text, |text|, NoError) == Ended(NoError);
    }
  }

  lemma EndIsRead(read: (nat, Level) -> Scan, text: string, from: nat, it: nat)
    requires WrittenAt(text, it, []) && SkipsTo(text, from, it) && ReadsAll(read, text)
    ensures read(from, NoError) == Scan(EofToken(text), |text|, NoError)
  {
    hide SkipsTo;
    assert it == |text|;
  }

  lemma FirstIsRead(read: (nat, Level) -> Scan, text: string, from: nat, it: nat, item: Item)
    requires Writable(item) && StandsAt(text, it, item) && SkipsTo(text, from, it) && ReadsAll(read, text)
    ensures from < it + |item.text| <= |text| && item.kind != Eof && IsRead(text, read(from, NoError), item, it)
  {
    hide IsRead;
    NoBlankNoComment(item);
    assert Before(text, from, it, item);
  }

  lemma PartIsRead(read: (nat, Level) -> Scan, text: string, from: nat, it: nat, parts: seq<Part>)
    requires parts != [] && IsWritten(parts) && WrittenAt(text, it, parts) && SkipsTo(text, from, it) && ReadsAll(read, text)
    ensures var end := it + |parts[0].item.text|; var next := end + |GapText(parts[0].gap)|;
      from < end <= |text| && parts[0].item.kind != Eof && IsRead(text, read(from, NoError), parts[0].item, it)
      && IsWritten(parts[1..]) && SkipsTo(text, end, next) && WrittenAt(text, next, parts[1..])
  {
    hide SkipsTo, StandsAt, IsRead, Writable, ReadsAll, WrittenAt, IsGap;
    WrittenHead(text, it, parts);
    FirstIsRead(read, text, from, it, parts[0].item);
  }

  lemma {:induction false} PartsAreRead(read: (nat, Level) -> Scan, text: string, from: nat, it: nat, parts: seq<Part>)
    requires IsWritten(parts) && WrittenAt(text, it, parts) && SkipsTo(text, from, it) && ReadsAll(read, text)
    ensures ReadsParts(read, text, from, it, parts)
    decreases parts
  {
    hide SkipsTo, GapText, IsRead, ReadsAll, WrittenAt, IsWritten;
    if parts == [] {
      EndIsRead(read, text, from, it);
    } else {
      PartIsRead(read, text, from, it, parts);
      var end := it + |parts[0].item.text|;
      PartsAreRead(read, text, end, end + |GapText(parts[0].gap)|, parts[1..]);
    }
  }

  lemma {:induction false} RunParts(
    read: (nat, Level) -> Scan, text: string, from: nat, it: nat, parts: seq<Part>, strict: bool, tokens: seq<Token>)
    returns (more: seq<Token>)
    requires from <= |text| && ReadsParts(read, text, from, it, parts)
    ensures RunWith(read, |text|, from, NoError, strict, tokens) == Run(tokens + more, NoError)
    ensures AllReadAs(text, more, parts, it)
    decreases parts
  {
    hide Selects, GapText;
    var token := read(from, NoError).token;
    if parts == [] {
      more := [token];
    } else {
      var end := it + |parts[0].item.text|;
      var next := end + |GapText(parts[0].gap)|;
      var rest := RunParts(read, text, end, next, parts[1..], strict, tokens + [token]);
      more := [token] + rest;
      Regroup(tokens, token, rest);
      AllReadAsCons(text, token, rest, parts, it);
    }
  }

  lemma AllReadAsCons(text: string, token: Token, rest: seq<Token>, parts: seq<Part>, it: nat)
    requires parts != [] && ReadAs(text, token, parts[0].item, it)
    requires AllReadAs(text, rest, parts[1..], it + |parts[0].item.text| + |GapText(parts[0].gap)|)
    ensures AllReadAs(text, [token] + rest, parts, it)
  {
    hide ReadAs, GapText;
    assert ([token] + rest)[1..] == rest;
  }

  lemma Regroup(a: seq<Token>, t: Token, b: seq<Token>)
    ensures a + [t] + b == a + ([t] + b)
  {
  }

  predicate LexedAs(text: string, run: Run, parts: seq<Part>, it: nat) {
    run.level == NoError && AllReadAs(text, run.tokens, parts, it)
  }

  /** Words, table operators and decimal numbers with any blanks and comments between them, in front
      and behind are read back: the same types and values, at exactly their own text, then the
      end of the file, and no error. */
  lemma LexUndoesWriting(lead: seq<Piece>, parts: seq<Part>, strict: bool)
    requires IsGap(lead) && IsWritten(parts)
    ensures var text := GapText(lead) + PartsText(parts);
      LexedAs(text, RunFrom(text, 0, NoError, strict, []), parts, |GapText(lead)|)
  {
    hide RunWith, SkipsTo, IsGap, IsWritten, LexedAs, ReadsAll, Spells;
    var text := GapText(lead) + PartsText(parts);
    assert text[0..] == text;
    TailSpells(text, 0, GapText(lead), PartsText(parts));
    GapIsSkipped(text, 0, lead);
    ReaderReadsAll(text, strict);
    RunWritten(Reader(text, strict), text, |GapText(lead)|, parts, strict);
  }

  lemma RunWritten(read: (nat, Level) -> Scan, text: string, it: nat, parts: seq<Part>, strict: bool)
    requires IsWritten(parts) && WrittenAt(text, it, parts) && SkipsTo(text, 0, it) && ReadsAll(read, text)
    ensures LexedAs(text, EndRun(RunWith(read, |text|, 0, NoError, strict, [])), parts, it)
  {
    PartsAreRead(read, text, 0, it, parts);
    var more := RunParts(read, text, 0, it, parts, strict, []);
    assert [] + more == more;
    AllReadAsLength(text, more, parts, it);
  }

  /** Where the i-th item begins: behind those before it and what follows them. */
  function BeginOf(parts: seq<Part>, i: nat): nat
    requires i < |parts|
  {
    if i == 0 then 0 else |parts[0].item.text| + |GapText(parts[0].gap)| + BeginOf(parts[1..], i - 1)
  }

  /** The same, token by token: type, value and place of the i-th item, and one token more. */
  lemma {:induction false} AllReadAsMeans(text: string, tokens: seq<Token>, parts: seq<Part>, it: nat, i: nat)
    requires AllReadAs(text, tokens, parts, it) && i < |parts|
    ensures |tokens| == |parts| + 1 && ReadAs(text, tokens[i], parts[i].item, it + BeginOf(parts, i))
    decreases i
  {
    hide ReadAs, GapText;
    AllReadAsLength(text, tokens, parts, it);
    if i > 0 {
      AllReadAsMeans(text, tokens[1..], parts[1..], it + |parts[0].item.text| + |GapText(parts[0].gap)|, i - 1);
      assert tokens[i] == tokens[1..][i - 1] && parts[i] == parts[1..][i - 1];
    }
  }

  lemma {:induction false} AllReadAsLength(text: string, tokens: seq<Token>, parts: seq<Part>, it: nat)
    requires AllReadAs(text, tokens, parts, it)
    ensures |tokens| == |parts| + 1 && tokens[|parts|] == EofToken(text)
    decreases parts
  {
    hide ReadAs, GapText;
    if parts != [] {
      AllReadAsLength(text, tokens[1..], parts[1..], it + |parts[0].item.text| + |GapText(parts[0].gap)|);
    }
  }

  // How a run ends.

  /** The tokens end with the one for the end of the file. */
  predicate ReachesEof(tokens: seq<Token>) {
    tokens != [] && tokens[|tokens| - 1].kind == Eof
  }

  lemma {:induction false} RunWithEnds(read: (nat, Level) -> Scan, bound: nat, it: nat, level: Level, strict: bool, tokens: seq<Token>)
    requires it <= bound && !ReachesEof(tokens)
    requires forall i: nat, l :: i <= bound ==> var scan := read(i, l); i < scan.it <= bound || scan.token.kind == Eof
    ensures var run := RunWith(read, bound, it, level, strict, tokens);
      ReachesEof(run.tokens) <==> !(run.level == Error || (strict && run.level == Warning))
    decreases bound - it
  {
    var scan := read(it, level);
    if !Failing(scan.level, strict) && scan.token.kind != Eof {
      RunWithEnds(read, bound, scan.it, scan.level, strict, tokens + [scan.token]);
    }
  }

  /** Lexing reaches the end of the file if and only if there was no error, and with warnings as
      errors no warning either. */
  lemma RunReachesEofIff(text: string, strict: bool)
    ensures var run := RunFrom(text, 0, NoError, strict, []);
      ReachesEof(run.tokens) <==> !(run.level == Error || (strict && run.level == Warning))
  {
    RunWithEnds(Reader(text, strict), |text|, 0, NoError, strict, []);
  }
}
