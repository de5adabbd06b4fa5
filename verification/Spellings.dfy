/** How each keyword, operator, number and quoted literal is spelled, letter by letter, and that
    just these spellings give its token. */
module Spellings {
  import opened ExpressionSyntax
  import opened SourceLocations
  import opened LexerTables
  import opened StringLiterals
  import opened Scanning
  import opened NumberLiterals
  import Separators

  // Character classes.

  const UPPER := "ABCDEFGHIJKLMNOPQRSTUVWXYZ"
  const LOWER := "abcdefghijklmnopqrstuvwxyz"
  const DIGITS := "0123456789"
  const MARKS := "!\"#$%&'()*+,-./:;<=>?@[\\]^_`{|}~"

  /** The characters from the first to the last one, in the order of their codes. */
  predicate IsRange(s: string, first: char, last: char) {
    |s| == last as int - first as int + 1 && forall k :: 0 <= k < |s| ==> s[k] as int == first as int + k
  }

  lemma InRange(s: string, first: char, last: char, c: char)
    requires IsRange(s, first, last)
    ensures c in s <==> first <= c <= last
  {
    if first <= c <= last {
      assert s[c as int - first as int] == c;
    }
  }

  lemma LettersAndDigits(c: char)
    ensures IsAlpha(c) <==> c in UPPER || c in LOWER
    ensures IsDigit(c) <==> c in DIGITS
    ensures IsIdentifierStart(c) <==> c in UPPER || c in LOWER || c == '_'
    ensures IsIdentifierChar(c) <==> c in UPPER || c in LOWER || c in DIGITS || c == '_'
  {
    InRange(UPPER, 'A', 'Z', c);
    InRange(LOWER, 'a', 'z', c);
    InRange(DIGITS, '0', '9', c);
  }

  lemma PunctuationMarks(c: char)
    ensures IsPunctuation(c) <==> c in MARKS
  {
    InRange(MARKS[..15], '!', '/', c);
    InRange(MARKS[15..22], ':', '@', c);
    InRange(MARKS[22..28], '[', '`', c);
    InRange(MARKS[28..], '{', '~', c);
    assert MARKS == MARKS[..15] + MARKS[15..22] + MARKS[22..28] + MARKS[28..];
  }

  /** A character that is no blank, and below the space or above the tilde, is a token of its own,
      with a warning. */
  lemma UnrecognizedCharacter(text: string, it: nat, strict: bool)
    requires it < |text| && !Separators.IsBlank(text[it]) && (text[it] < ' ' || text[it] > '~')
    ensures var scan := TokenFrom(text, it, NoError, strict);
      scan.token.kind == Default && scan.token.value == [text[it]] && scan.it == it + 1 && scan.level == Warning
  {
  }

  // Words.

  /** The spelling of a keyword, a word for a literal or for an operator. */
  function WordText(t: TokenType): string {
    match t
    case ImportKeyword => "import"
    case ExportKeyword => "export"
    case ModuleKeyword => "module"
    case PackageKeyword => "package"
    case NoMangleKeyword => "nomangle"
    case DefKeyword => "def"
    case IfKeyword => "if"
    case ElseKeyword => "else"
    case WhileKeyword => "while"
    case ForKeyword => "for"
    case ForeachKeyword => "foreach"
    case ReturnKeyword => "return"
    case CastKeyword => "cast"
    case UseKeyword => "use"
    case LetKeyword => "let"
    case MutKeyword => "mut"
    case TrueLiteral => "true"
    case FalseLiteral => "false"
    case OperatorType(op) => OperatorWord(op)
    case _ => ""
  }

  function OperatorWord(op: Operator): string {
    match op
    case And => "and"
    case Or => "or"
    case Not => "not"
    case Rem => "rem"
    case As => "as"
    case _ => ""
  }

  predicate IsReserved(t: TokenType) {
    WordText(t) != ""
  }

  /** Length and first letter tell the words apart. */
  function WordOf(len: nat, first: char): TokenType {
    match len
    case 2 => if first == 'i' then IfKeyword else if first == 'o' then OperatorType(Or) else OperatorType(As)
    case 3 =>
      if first == 'd' then DefKeyword else if first == 'f' then ForKeyword else if first == 'u' then UseKeyword
      else if first == 'l' then LetKeyword else if first == 'm' then MutKeyword else if first == 'a' then OperatorType(And)
      else if first == 'n' then OperatorType(Not) else OperatorType(Rem)
    case 4 => if first == 'e' then ElseKeyword else if first == 'c' then CastKeyword else TrueLiteral
    case 5 => if first == 'w' then WhileKeyword else FalseLiteral
    case 6 =>
      if first == 'i' then ImportKeyword else if first == 'e' then ExportKeyword else if first == 'm' then ModuleKeyword
      else ReturnKeyword
    case 7 => if first == 'p' then PackageKeyword else ForeachKeyword
    case _ => NoMangleKeyword
  }

  lemma WordTextIsUnique(t: TokenType)
    requires IsReserved(t)
    ensures WordOf(|WordText(t)|, WordText(t)[0]) == t
  {
  }

  predicate AllSpelled(table: seq<(string, TokenType)>) {
    forall i :: 0 <= i < |table| ==> table[i].0 == WordText(table[i].1) && IsReserved(table[i].1)
  }

  lemma ModuleWordsAreSpelled()
    ensures AllSpelled(MODULE_WORDS)
  {
    var t := MODULE_WORDS;
    assert t[0].0 == "import" == WordText(t[0].1);
    assert t[1].0 == "export" == WordText(t[1].1);
    assert t[2].0 == "module" == WordText(t[2].1);
    assert t[3].0 == "package" == WordText(t[3].1);
    assert t[4].0 == "nomangle" == WordText(t[4].1);
  }

  lemma FirstStatementWords(i: nat)
    requires 0 <= i < 5
    ensures STATEMENT_WORDS[i].0 == WordText(STATEMENT_WORDS[i].1) && IsReserved(STATEMENT_WORDS[i].1)
  {
    var t := STATEMENT_WORDS;
    assert t[0].0 == "def" == WordText(t[0].1);
    assert t[1].0 == "if" == WordText(t[1].1);
    assert t[2].0 == "else" == WordText(t[2].1);
    assert t[3].0 == "while" == WordText(t[3].1);
    assert t[4].0 == "for" == WordText(t[4].1);
  }

  lemma LastStatementWords(i: nat)
    requires 5 <= i < 9
    ensures STATEMENT_WORDS[i].0 == WordText(STATEMENT_WORDS[i].1) && IsReserved(STATEMENT_WORDS[i].1)
  {
    var t := STATEMENT_WORDS;
    assert t[5].0 == "foreach" == WordText(t[5].1);
    assert t[6].0 == "return" == WordText(t[6].1);
    assert t[7].0 == "cast" == WordText(t[7].1);
    assert t[8].0 == "use" == WordText(t[8].1);
  }

  lemma StatementWordsAreSpelled()
    ensures AllSpelled(STATEMENT_WORDS)
  {
    hide WordText, IsReserved;
    assert |STATEMENT_WORDS| == 9;
    forall i | 0 <= i < 9 ensures STATEMENT_WORDS[i].0 == WordText(STATEMENT_WORDS[i].1) && IsReserved(STATEMENT_WORDS[i].1) {
      if i < 5 { FirstStatementWords(i); } else { LastStatementWords(i); }
    }
  }

  lemma ValueWordsAreSpelled()
    ensures AllSpelled(VALUE_WORDS)
  {
    var t := VALUE_WORDS;
    assert t[0].0 == "let" == WordText(t[0].1);
    assert t[1].0 == "mut" == WordText(t[1].1);
    assert t[2].0 == "true" == WordText(t[2].1);
    assert t[3].0 == "false" == WordText(t[3].1);
  }

  lemma FirstOperatorWords(i: nat)
    requires 0 <= i < 3
    ensures OPERATOR_WORDS[i].0 == WordText(OPERATOR_WORDS[i].1) && IsReserved(OPERATOR_WORDS[i].1)
  {
    var t := OPERATOR_WORDS;
    assert t[0].0 == "and" == WordText(t[0].1);
    assert t[1].0 == "or" == WordText(t[1].1);
    assert t[2].0 == "not" == WordText(t[2].1);
  }

  lemma LastOperatorWords(i: nat)
    requires 3 <= i < 5
    ensures OPERATOR_WORDS[i].0 == WordText(OPERATOR_WORDS[i].1) && IsReserved(OPERATOR_WORDS[i].1)
  {
    var t := OPERATOR_WORDS;
    assert t[3].0 == "rem" == WordText(t[3].1);
    assert t[4].0 == "as" == WordText(t[4].1);
  }

  lemma OperatorWordsAreSpelled()
    ensures AllSpelled(OPERATOR_WORDS)
  {
    hide WordText, IsReserved;
    assert |OPERATOR_WORDS| == 5;
    forall i | 0 <= i < 5 ensures OPERATOR_WORDS[i].0 == WordText(OPERATOR_WORDS[i].1) && IsReserved(OPERATOR_WORDS[i].1) {
      if i < 3 { FirstOperatorWords(i); } else { LastOperatorWords(i); }
    }
  }

  lemma WordsAreSpelled()
    ensures AllSpelled(WORDS)
  {
    ModuleWordsAreSpelled();
    StatementWordsAreSpelled();
    ValueWordsAreSpelled();
    OperatorWordsAreSpelled();
    SpelledBoth(MODULE_WORDS, STATEMENT_WORDS);
    SpelledBoth(MODULE_WORDS + STATEMENT_WORDS, VALUE_WORDS);
    SpelledBoth(MODULE_WORDS + STATEMENT_WORDS + VALUE_WORDS, OPERATOR_WORDS);
  }

  lemma SpelledBoth(a: seq<(string, TokenType)>, b: seq<(string, TokenType)>)
    requires AllSpelled(a) && AllSpelled(b)
    ensures AllSpelled(a + b)
  {
  }

  /** The table has this pair. */
  predicate Lists(table: seq<(string, TokenType)>, s: string, t: TokenType) {
    exists i :: 0 <= i < |table| && table[i] == (s, t)
  }

  lemma ListsBoth(a: seq<(string, TokenType)>, b: seq<(string, TokenType)>, s: string, t: TokenType)
    requires Lists(a, s, t) || Lists(b, s, t)
    ensures Lists(a + b, s, t)
  {
    if Lists(a, s, t) {
      var i :| 0 <= i < |a| && a[i] == (s, t);
      assert (a + b)[i] == (s, t);
    } else {
      var i :| 0 <= i < |b| && b[i] == (s, t);
      assert (a + b)[|a| + i] == (s, t);
    }
  }

  lemma ListsIts(table: seq<(string, TokenType)>, i: nat)
    requires i < |table| && AllSpelled(table)
    ensures Lists(table, WordText(table[i].1), table[i].1)
  {
    assert table[i] == (WordText(table[i].1), table[i].1);
  }

  lemma ModuleList(t: TokenType)
    requires t in {ImportKeyword, ExportKeyword, ModuleKeyword, PackageKeyword, NoMangleKeyword}
    ensures Lists(MODULE_WORDS, WordText(t), t)
  {
    hide Lists, WordText;
    ModuleWordsAreSpelled();
    ListsIts(MODULE_WORDS, match t
      case ImportKeyword => 0
      case ExportKeyword => 1
      case ModuleKeyword => 2
      case PackageKeyword => 3
      case _ => 4);
  }

  lemma StatementList(t: TokenType)
    requires t in {DefKeyword, IfKeyword, ElseKeyword, WhileKeyword, ForKeyword, ForeachKeyword, ReturnKeyword, CastKeyword, UseKeyword}
    ensures Lists(STATEMENT_WORDS, WordText(t), t)
  {
    hide Lists, WordText;
    StatementWordsAreSpelled();
    ListsIts(STATEMENT_WORDS, match t
      case DefKeyword => 0
      case IfKeyword => 1
      case ElseKeyword => 2
      case WhileKeyword => 3
      case ForKeyword => 4
      case ForeachKeyword => 5
      case ReturnKeyword => 6
      case CastKeyword => 7
      case _ => 8);
  }

  lemma ValueList(t: TokenType)
    requires t in {LetKeyword, MutKeyword, TrueLiteral, FalseLiteral}
    ensures Lists(VALUE_WORDS, WordText(t), t)
  {
    hide Lists, WordText;
    ValueWordsAreSpelled();
    ListsIts(VALUE_WORDS, match t
      case LetKeyword => 0
      case MutKeyword => 1
      case TrueLiteral => 2
      case _ => 3);
  }

  lemma OperatorList(op: Operator)
    requires op in {And, Or, Not, Rem, As}
    ensures Lists(OPERATOR_WORDS, WordText(OperatorType(op)), OperatorType(op))
  {
    hide Lists, WordText;
    OperatorWordsAreSpelled();
    ListsIts(OPERATOR_WORDS, match op
      case And => 0
      case Or => 1
      case Not => 2
      case Rem => 3
      case _ => 4);
  }

  lemma SomeTableLists(t: TokenType)
    requires IsReserved(t)
    ensures Lists(MODULE_WORDS, WordText(t), t) || Lists(STATEMENT_WORDS, WordText(t), t)
      || Lists(VALUE_WORDS, WordText(t), t) || Lists(OPERATOR_WORDS, WordText(t), t)
  {
    hide Lists;
    if t in {ImportKeyword, ExportKeyword, ModuleKeyword, PackageKeyword, NoMangleKeyword} {
      ModuleList(t);
    } else if t in {LetKeyword, MutKeyword, TrueLiteral, FalseLiteral} {
      ValueList(t);
    } else if t.OperatorType? {
      OperatorList(t.op);
    } else {
      StatementList(t);
    }
  }

  lemma WordsList(t: TokenType)
    requires IsReserved(t)
    ensures Lists(WORDS, WordText(t), t)
  {
    hide Lists;
    var s := WordText(t);
    SomeTableLists(t);
    if Lists(OPERATOR_WORDS, s, t) {
    } else if Lists(VALUE_WORDS, s, t) {
      ListsBoth(MODULE_WORDS + STATEMENT_WORDS, VALUE_WORDS, s, t);
    } else {
      ListsBoth(MODULE_WORDS, STATEMENT_WORDS, s, t);
      ListsBoth(MODULE_WORDS + STATEMENT_WORDS, VALUE_WORDS, s, t);
    }
    ListsBoth(MODULE_WORDS + STATEMENT_WORDS + VALUE_WORDS, OPERATOR_WORDS, s, t);
  }

  lemma ListsBehind(table: seq<(string, TokenType)>, s: string, t: TokenType)
    requires table != [] && table[0].0 != s
    ensures Lists(table, s, t) <==> Lists(table[1..], s, t)
  {
    if Lists(table, s, t) {
      var i :| 0 <= i < |table| && table[i] == (s, t);
      assert table[1..][i - 1] == (s, t);
    }
    if Lists(table[1..], s, t) {
      var i :| 0 <= i < |table[1..]| && table[1..][i] == (s, t);
      assert table[i + 1] == (s, t);
    }
  }

  /** A word that is looked up is found with a pair of the table, unless it is not in it. */
  lemma {:induction false} LookupLists(table: seq<(string, TokenType)>, s: string, t: TokenType)
    ensures Lookup(table, s) == IdentifierType || Lists(table, s, Lookup(table, s))
    ensures Lists(table, s, t) ==> Lists(table, s, Lookup(table, s))
    decreases table
  {
    if table != [] {
      if table[0].0 == s {
        assert table[0] == (s, Lookup(table, s));
      } else {
        LookupLists(table[1..], s, t);
        ListsBehind(table, s, Lookup(table, s));
        ListsBehind(table, s, t);
      }
    }
  }

  lemma ListedIsSpelled(s: string, t: TokenType)
    requires Lists(WORDS, s, t)
    ensures s == WordText(t) && IsReserved(t)
  {
    WordsAreSpelled();
    var i :| 0 <= i < |WORDS| && WORDS[i] == (s, t);
  }

  /** A word is a keyword if and only if it is spelled like one. */
  lemma WordTypeIff(s: string, t: TokenType)
    requires IsReserved(t)
    ensures WordType(s) == t <==> s == WordText(t)
  {
    assert !IsReserved(IdentifierType);
    hide Lists, WordText;
    LookupLists(WORDS, s, t);
    WordsList(t);
    if Lists(WORDS, s, WordType(s)) { ListedIsSpelled(s, WordType(s)); }
    if s == WordText(t) {
      WordTextIsUnique(t);
      WordTextIsUnique(WordType(s));
    }
  }

  /** And it is an identifier if and only if it is spelled like none. */
  lemma IdentifierIff(s: string)
    ensures WordType(s) == IdentifierType <==> forall t :: IsReserved(t) ==> s != WordText(t)
  {
    hide Lists;
    if WordType(s) == IdentifierType {
      forall t | IsReserved(t) ensures s != WordText(t) { WordTypeIff(s, t); }
    } else {
      LookupLists(WORDS, s, IdentifierType);
      ListedIsSpelled(s, WordType(s));
    }
  }

  // Operators and punctuators.

  function PunctuatorText(t: TokenType): string {
    match t
    case OperatorType(op) => OperatorText(op)
    case ParenOpenType => "("
    case ParenCloseType => ")"
    case BraceOpenType => "{"
    case BraceCloseType => "}"
    case SqrOpenType => "["
    case SqrCloseType => "]"
    case ColonType => ":"
    case SemicolonType => ";"
    case CommaType => ","
    case ArrowType => "->"
    case _ => ""
  }

  function OperatorText(op: Operator): string {
    match op
    case SetTo => "="
    case AddTo => "+="
    case SubTo => "-="
    case MulTo => "*="
    case DivTo => "/="
    case ModTo => "%="
    case Add => "+"
    case Sub => "-"
    case Mul => "*"
    case Div => "/"
    case Mod => "%"
    case And => "&&"
    case Or => "||"
    case Eq => "=="
    case NotEq => "!="
    case Less => "<"
    case Greater => ">"
    case LessEq => "<="
    case GreatEq => ">="
    case Member => "."
    case Not => "!"
    case _ => ""
  }

  lemma ShortIff(c: char, t: TokenType)
    requires t != Undefined
    ensures ShortOperator(c) == t <==> PunctuatorText(t) == [c]
  {
    match t
    case OperatorType(_) =>
    case _ =>
  }

  lemma LongIff(c: char, d: char, t: TokenType)
    requires t != Undefined
    ensures LongOperator(c, d) == t <==> PunctuatorText(t) == [c, d]
  {
    match t
    case OperatorType(_) =>
    case _ =>
  }

  lemma TextIsShort(t: TokenType)
    ensures |PunctuatorText(t)| <= 2
  {
  }

  /** Punctuation is an operator or punctuator if and only if it is spelled like one. */
  lemma OperatorIff(s: string, t: TokenType)
    requires t != Undefined && s != ""
    ensures TypeOfOperator(s) == t <==> s == PunctuatorText(t)
  {
    hide PunctuatorText, ShortOperator, LongOperator;
    TextIsShort(t);
    if |s| == 1 {
      assert s == [s[0]];
      ShortIff(s[0], t);
    } else if |s| == 2 {
      assert s == [s[0], s[1]];
      LongIff(s[0], s[1], t);
    }
  }

  // Numbers.

  function DigitsOf(base: Base): string {
    match base
    case DecBase => "0123456789"
    case BinBase => "01"
    case OctBase => "01234567"
    case HexBase => "0123456789ABCDEFabcdef"
  }

  function Prefix(base: Base, upper: bool): string {
    match base
    case DecBase => ""
    case BinBase => if upper then "0B" else "0b"
    case OctBase => if upper then "0O" else "0o"
    case HexBase => if upper then "0X" else "0x"
  }

  /** How a width is written behind an integer, and a precision behind a float. */
  function SuffixText(m: Modifier): string {
    match m
    case I64 => "i64"
    case I32 => "i32"
    case I16 => "i16"
    case I8 => "i8"
    case ByteInt => "o"
    case F32 => "f32"
    case F64 => "f64"
    case DecimalFloat => "d"
    case LongFloat => "l"
    case _ => ""
  }

  function BaseMark(base: Base): set<Modifier> {
    match base
    case DecBase => {}
    case BinBase => {Bin}
    case OctBase => {Oct}
    case HexBase => {Hex}
  }

  lemma DigitInBase(base: Base, c: char)
    requires c in DigitsOf(base)
    ensures InBase(base, c) && IsAlnum(c)
  {
  }

  /** The text has at `it` s, and then nothing a number could go on with. */
  predicate NumberEnds(text: string, it: nat, s: string) {
    Spells(text, it, s) && var c := CharAt(text, it + |s|); !('0' <= c <= '9') && !('A' <= c <= 'Z') && !('a' <= c <= 'z') && c != '.'
  }

  lemma SpellsThree(text: string, it: nat, a: string, b: string, c: string)
    requires Spells(text, it, a + (b + c))
    ensures Spells(text, it, a) && Spells(text, it + |a|, b) && Spells(text, it + |a| + |b|, c)
  {
    Separators.SpellsBoth(text, it, a, b + c);
    Separators.SpellsBoth(text, it + |a|, b, c);
  }

  lemma SuffixListed(m: Modifier)
    ensures m in {I64, I32, I16, I8, ByteInt} ==> SuffixText(m) in IntModifiers() && IntModifiers()[SuffixText(m)] == m
    ensures m in {F32, F64, DecimalFloat, LongFloat} ==> SuffixText(m) in FloatModifiers() && FloatModifiers()[SuffixText(m)] == m
  {
    assert "i64" != "i32" && "i64" != "i16" && "i32" != "i16";
    assert "f32" != "f64" && "d" != "l";
  }

  lemma PrefixGivesBase(text: string, it: nat, base: Base, upper: bool)
    requires base != DecBase && Spells(text, it, Prefix(base, upper))
    ensures BaseOf(text[it], text[it + 1]) == base
  {
    SpellsAt(text, it, Prefix(base, upper));
    assert text[it] == Prefix(base, upper)[0] && text[it + 1] == Prefix(base, upper)[1];
  }

  /** The integer token the lexer makes of these digits. */
  predicate IsInteger(scan: Scan, digits: string, modifiers: set<Modifier>, end: nat, level: Level) {
    scan.token.kind == IntegerLiteral && scan.token.value == digits && scan.token.modifiers == modifiers
    && scan.it == end && scan.level == level
  }

  /** An integer is written as prefix, digits and suffix; without a suffix it is an i32. */
  lemma WrittenInteger(
    text: string, it: nat, base: Base, upper: bool, digits: string, suffixed: bool, m: Modifier, level: Level)
    requires digits != [] && (forall k :: 0 <= k < |digits| ==> digits[k] in DigitsOf(base))
    requires if suffixed then m in {I64, I32, I16, I8, ByteInt} else m == I32
    requires base == DecBase && digits == "0" && suffixed ==> m != ByteInt
    requires NumberEnds(text, it, Prefix(base, upper) + (digits + if suffixed then SuffixText(m) else ""))
    ensures it < |text|
    ensures IsInteger(NumberAt(text, it, level), digits, {m} + BaseMark(base),
                      it + |Prefix(base, upper)| + |digits| + (if suffixed then |SuffixText(m)| else 0), level)
  {
    hide NumberAt, Spells, Prefix, IntegerAt, DigitsOf;
    var suffix := if suffixed then SuffixText(m) else "";
    SpellsThree(text, it, Prefix(base, upper), digits, suffix);
    SuffixIsWritten(text, it + |Prefix(base, upper)| + |digits|, suffix, m);
    IntegerIsWritten(text, it, base, upper, digits, suffix);
    PrefixLength(base, upper);
    SuffixLetters(m);
    IntegerIsMade(text, it, base, digits, suffix, m, level);
  }

  lemma PrefixLength(base: Base, upper: bool)
    ensures forall it: nat :: DigitStart(it, base) == it + |Prefix(base, upper)|
  {
  }

  lemma SuffixLetters(m: Modifier)
    ensures SuffixText(m) == "o" ==> m == ByteInt
    ensures m in {I64, I32, I16, I8, ByteInt} ==> SuffixText(m) != ""
  {
  }

  lemma SuffixIsWritten(text: string, end: nat, suffix: string, m: Modifier)
    requires NumberEnds(text, end, suffix)
    requires suffix == "" || (m in {I64, I32, I16, I8, ByteInt} && suffix == SuffixText(m))
    ensures Ends(text, end, suffix, IntModifiers()) && (suffix == "" ==> CharAt(text, end) != '.')
    ensures suffix != "" ==> suffix in IntModifiers() && IntModifiers()[suffix] == m
  {
    hide Spells, IntModifiers, SuffixText;
    SuffixListed(m);
  }

  lemma IntegerIsWritten(text: string, it: nat, base: Base, upper: bool, digits: string, suffix: string)
    requires digits != [] && (forall k :: 0 <= k < |digits| ==> digits[k] in DigitsOf(base))
    requires Spells(text, it, Prefix(base, upper)) && Spells(text, it + |Prefix(base, upper)|, digits)
    requires var end := it + |Prefix(base, upper)| + |digits|;
      Ends(text, end, suffix, IntModifiers()) && (suffix == "" ==> CharAt(text, end) != '.')
    ensures it < |text| && IntegerAt(text, it, base, digits, suffix)
  {
    hide Ends, DigitsOf, InBase;
    PrefixLength(base, upper);
    forall k | 0 <= k < |digits| ensures InBase(base, digits[k]) { DigitInBase(base, digits[k]); }
    if base != DecBase { PrefixGivesBase(text, it, base, upper); }
  }

  lemma IntegerIsMade(text: string, it: nat, base: Base, digits: string, suffix: string, m: Modifier, level: Level)
    requires it < |text| && IntegerAt(text, it, base, digits, suffix) && !LooksOctal(base, digits, suffix)
    requires if suffix == "" then m == I32 else suffix in IntModifiers() && IntModifiers()[suffix] == m
    ensures IsInteger(NumberAt(text, it, level), digits, {m} + BaseMark(base),
                      DigitStart(it, base) + |digits| + |suffix|, level)
  {
    hide NumberAt, IntegerAt;
    IntegerReadBack(text, it, base, digits, suffix, level);
  }

  /** The float token the lexer makes of these digits, whatever precision it has. */
  predicate IsFloat(scan: Scan, digits: string, m: Modifier, end: nat, level: Level) {
    scan.token.kind == FloatLiteral && scan.token.value == digits && scan.token.modifiers == {m}
    && scan.it == end && scan.level == level
  }

  /** A decimal number with a point; without a suffix it is an f64. */
  lemma WrittenFloat(text: string, it: nat, digits: string, suffixed: bool, m: Modifier, level: Level)
    requires (forall k :: 0 <= k < |digits| ==> digits[k] in "0123456789.") && '.' in digits
    requires if suffixed then m in {F32, F64, DecimalFloat, LongFloat} else m == F64
    requires NumberEnds(text, it, digits + if suffixed then SuffixText(m) else "")
    ensures it < |text|
    ensures IsFloat(NumberAt(text, it, level), digits, m,
                    it + |digits| + (if suffixed then |SuffixText(m)| else 0), level)
  {
    var suffix := if suffixed then SuffixText(m) else "";
    FloatParts(text, it, digits, suffix);
    FloatIsWritten(text, it, digits, suffix, m);
    FloatIsMade(text, it, digits, suffix, m, level);
  }

  lemma FloatParts(text: string, it: nat, digits: string, suffix: string)
    requires NumberEnds(text, it, digits + suffix)
    ensures Spells(text, it, digits) && NumberEnds(text, it + |digits|, suffix)
  {
    assert [] + (digits + suffix) == digits + suffix;
    SpellsThree(text, it, [], digits, suffix);
  }

  lemma FloatIsMade(text: string, it: nat, digits: string, suffix: string, m: Modifier, level: Level)
    requires it < |text| && FloatAt(text, it, digits, suffix)
    requires if suffix == "" then m == F64 else suffix in FloatModifiers() && FloatModifiers()[suffix] == m
    ensures IsFloat(NumberAt(text, it, level), digits, m, it + |digits| + |suffix|, level)
  {
    hide NumberAt;
    FloatReadBack(text, it, digits, suffix, level);
  }

  lemma FloatIsWritten(text: string, it: nat, digits: string, suffix: string, m: Modifier)
    requires (forall k :: 0 <= k < |digits| ==> digits[k] in "0123456789.") && '.' in digits
    requires Spells(text, it, digits) && NumberEnds(text, it + |digits|, suffix)
    requires suffix == "" || (m in {F32, F64, DecimalFloat, LongFloat} && suffix == SuffixText(m))
    ensures it < |text| && FloatAt(text, it, digits, suffix)
    ensures suffix != "" ==> suffix in FloatModifiers() && FloatModifiers()[suffix] == m
  {
    SuffixListed(m);
    forall k | 0 <= k < |digits| ensures InNumber(DecBase, digits[k]) { PointOrDigit(digits[k]); }
  }

  lemma PointOrDigit(c: char)
    requires c in "0123456789."
    ensures InNumber(DecBase, c)
  {
  }

  // Quoted literals.

  /** A literal as it is written: perhaps a letter, then the quotes with the escaped content. */
  function QuotedText(letter: string, isChar: bool, s: string): string {
    var quote := if isChar then '\'' else '"';
    letter + ([quote] + (Escape(s, quote) + [quote]))
  }

  /** The mark of the token: b or B in front of a character make it a byte, c or C in front of a
      string a C string. */
  function MarkOf(letter: string, isChar: bool): Modifier {
    if isChar then (if letter == "" then CharMark else ByteMark) else if letter == "" then StringMark else CMark
  }

  predicate MayPrefix(letter: string, isChar: bool) {
    letter == "" || if isChar then letter == "b" || letter == "B" else letter == "c" || letter == "C"
  }

  /** A quoted literal gives a token of its kind, with its content and mark, and is read to its end. */
  lemma WrittenQuoted(text: string, it: nat, letter: string, isChar: bool, s: string, strict: bool)
    requires MayPrefix(letter, isChar) && Separate(s, QuoteOf(isChar)) && Spells(text, it, QuotedText(letter, isChar, s))
    ensures it < |text|
    ensures var scan := TokenFrom(text, it, NoError, strict);
      scan.token.kind == (if isChar then CharLiteral else StringLiteral) && scan.token.value == s
      && scan.token.modifiers == {MarkOf(letter, isChar)} && scan.it == it + |QuotedText(letter, isChar, s)| && scan.level == NoError
  {
    hide TokenFrom, QuotedAt, Escape, Separate;
    QuotedParts(text, it, letter, isChar, s);
    var start := it + |letter|;
    QuotedReadBack(text, start, isChar, s, MarkOf(letter, isChar), strict);
    QuotedBranch(text, it, letter, isChar, strict, QuotedAt(text, start, isChar, MarkOf(letter, isChar), NoError));
  }

  lemma QuotedParts(text: string, it: nat, letter: string, isChar: bool, s: string)
    requires MayPrefix(letter, isChar) && Spells(text, it, QuotedText(letter, isChar, s))
    ensures var (start, quote) := (it + |letter|, QuoteOf(isChar));
      start < |text| && text[start] == quote && (letter != "" ==> text[it] == letter[0])
      && Spells(text, start + 1, Escape(s, quote) + [quote])
      && |QuotedText(letter, isChar, s)| == |letter| + |Escape(s, quote)| + 2
  {
    hide Escape;
    var quote := QuoteOf(isChar);
    var body := Escape(s, quote) + [quote];
    SpellsThree(text, it, letter, [quote], body);
    SpellsAt(text, it, letter);
    SpellsAt(text, it + |letter|, [quote]);
    assert [quote][0] == text[it + |letter|];
  }

  lemma QuotedReadBack(text: string, it: nat, isChar: bool, s: string, mark: Modifier, strict: bool)
    requires it < |text| && text[it] == QuoteOf(isChar) && Separate(s, QuoteOf(isChar))
    requires Spells(text, it + 1, Escape(s, QuoteOf(isChar)) + [QuoteOf(isChar)])
    ensures var scan := QuotedAt(text, it, isChar, mark, NoError);
      scan.token.kind == (if isChar then CharLiteral else StringLiteral) && scan.token.value == s
      && scan.token.modifiers == {mark} && scan.it == it + |Escape(s, QuoteOf(isChar))| + 2 && scan.level == NoError
  {
    var body := Escape(s, QuoteOf(isChar)) + [QuoteOf(isChar)];
    SpellsAt(text, it + 1, body);
    assert Follows(text, it, body);
    LiteralRoundTrip(text, it, isChar, s);
  }

  /** Which branch the lexer takes on a quote, and on a letter before one. */
  lemma QuotedBranch(text: string, it: nat, letter: string, isChar: bool, strict: bool, quoted: Scan)
    requires MayPrefix(letter, isChar) && it + |letter| < |text| && text[it + |letter|] == QuoteOf(isChar)
    requires letter != "" ==> text[it] == letter[0]
    requires quoted == QuotedAt(text, it + |letter|, isChar, MarkOf(letter, isChar), NoError) && quoted.level == NoError
    ensures TokenFrom(text, it, NoError, strict) == quoted
  {
    hide QuotedAt, Raise;
  }
}
