/** One token from a text: the lexer's branches as functions from positions to tokens. */
module Scanning {
  import opened SourceLocations
  import opened LexerTables
  import opened Comments
  import opened StringLiterals

  datatype Level = NoError | Warning | Error

  function Raise(level: Level, to: Level): Level {
    if level == Error then Error else to
  }

  /** Whether the lexer counts this as an error. */
  predicate Failing(level: Level, strict: bool) {
    level == Error || (strict && level == Warning)
  }

  datatype Modifier = I64 | I32 | I16 | I8 | ByteInt | Bin | Oct | Hex | F32 | F64 | DecimalFloat | LongFloat
                    | CharMark | ByteMark | StringMark | CMark

  datatype Token = Token(kind: TokenType, value: string, loc: Loc, len: nat, modifiers: set<Modifier>)

  /** The location len steps back from where the lexer stands. */
  function StartLoc(text: string, it: nat, len: nat): (l: Loc)
    requires len <= it <= |text|
    ensures l.it == it - len
  {
    ForthIsExact(text, it);
    Back(text, LocAt(text, it), len)
  }

  /** The token made when the lexer stands at `it`, right behind it. */
  function CreateToken(text: string, it: nat, kind: TokenType, value: string): Token
    requires it <= |text| && (kind != Eof ==> |value| <= it)
  {
    var len := if kind == Eof then 0 else |value|;
    Token(kind, value, StartLoc(text, it, len), len, {})
  }

  datatype Scan = Scan(token: Token, it: nat, level: Level)

  // Blanks and comments.

  datatype Gap = Ended(level: Level) | TokenAt(it: nat)

  function Skip(text: string, it: nat, level: Level): (g: Gap)
    requires it <= |text|
    ensures g.TokenAt? ==> it <= g.it < |text|
    decreases |text| - it
  {
    if it == |text| then Ended(level) else
    var blank := IsWhitespace(text[it]);
    var i := if blank then it + 1 else it;
    if i == |text| then Ended(level) else
    match CommentAt(text, i)
    case CommentEof => Ended(if Opens(text, i) then Raise(level, Warning) else level)
    case CommentTo(stop) => Skip(text, stop, level)
    case NoComment => if blank then Skip(text, i, level) else TokenAt(it)
  }

  // Words.

  function WordEnd(text: string, i: nat): (r: nat)
    requires i <= |text|
    ensures i <= r <= |text|
    ensures forall k :: i <= k < r ==> IsIdentifierChar(text[k])
    ensures !IsIdentifierChar(CharAt(text, r))
    decreases |text| - i
  {
    if IsIdentifierChar(CharAt(text, i)) then WordEnd(text, i + 1) else i
  }

  // Numbers.

  datatype Base = DecBase | BinBase | OctBase | HexBase

  predicate InBase(base: Base, c: char) {
    match base
    case DecBase => IsDigit(c)
    case BinBase => c == '0' || c == '1'
    case OctBase => IsOctDigit(c)
    case HexBase => IsHexDigit(c)
  }

  /** The base that the second character of a number gives it. */
  function BaseOf(c: char, d: char): Base {
    if c != '0' then DecBase
    else if d == 'x' || d == 'X' then HexBase
    else if d == 'o' || d == 'O' then OctBase
    else if d == 'b' || d == 'B' then BinBase
    else DecBase
  }

  datatype Digits = Digits(buf: string, it: nat, float: bool)

  /** The loop over the digits: it takes the current character, whatever it is. */
  function DigitsAt(text: string, it: nat, base: Base, buf: string, float: bool): (r: Digits)
    requires it <= |text|
    ensures it <= r.it <= |text| && (it < |text| ==> it < r.it)
    ensures |r.buf| <= |buf| + (r.it - it) + (if it < |text| then 0 else 1)
    decreases |text| - it
  {
    var b := buf + [CharAt(text, it)];
    var i := if it < |text| then it + 1 else it;
    var c := CharAt(text, i);
    if i < |text| && (InBase(base, c) || c == '.') then DigitsAt(text, i, base, b, float || c == '.')
    else Digits(b, i, float)
  }

  datatype Suffix = Suffix(modifiers: set<Modifier>, rest: string, it: nat)

  function IntModifiers(): map<string, Modifier> {
    map["i64" := I64, "i32" := I32, "i16" := I16, "i8" := I8, "o" := ByteInt]
  }

  function FloatModifiers(): map<string, Modifier> {
    map["f32" := F32, "f64" := F64, "d" := DecimalFloat, "l" := LongFloat]
  }

  /** The loop over a suffix: each modifier may be used once. */
  function SuffixAt(text: string, it: nat, allowed: map<string, Modifier>, buf: string, found: set<Modifier>): (r: Suffix)
    requires it <= |text|
    ensures it <= r.it <= |text|
    decreases |text| - it
  {
    if !IsAlnum(CharAt(text, it)) then Suffix(found, buf, it) else
    var b := buf + [text[it]];
    if b in allowed then SuffixAt(text, it + 1, allowed - {b}, [], found + {allowed[b]})
    else SuffixAt(text, it + 1, allowed, b, found)
  }

  function BaseModifier(base: Base): set<Modifier> {
    match base
    case DecBase => {}
    case BinBase => {Bin}
    case OctBase => {Oct}
    case HexBase => {Hex}
  }

  function OrElse(found: set<Modifier>, default: Modifier): set<Modifier> {
    if found == {} then {default} else found
  }

  /** The rest of an integer behind its digits. */
  function IntegerEnd(text: string, digits: Digits, base: Base, level: Level): (r: Scan)
    requires |digits.buf| <= digits.it <= |text|
    ensures digits.it <= r.it <= |text|
  {
    var suffix := SuffixAt(text, digits.it, IntModifiers(), [], {});
    var token := CreateToken(text, digits.it, IntegerLiteral, digits.buf);
    Scan(token.(modifiers := OrElse(suffix.modifiers, I32) + BaseModifier(base)), suffix.it,
         if suffix.rest != [] then Error else level)
  }

  function FloatEnd(text: string, digits: Digits, base: Base, level: Level): (r: Scan)
    requires |digits.buf| <= digits.it <= |text|
    ensures digits.it <= r.it <= |text|
  {
    var suffix := SuffixAt(text, digits.it, FloatModifiers(), [], {});
    var token := CreateToken(text, digits.it, FloatLiteral, digits.buf);
    Scan(token.(modifiers := OrElse(suffix.modifiers, F64)), suffix.it,
         if suffix.rest != [] || base != DecBase then Error else level)
  }

  /** Where the digits begin: behind the prefix of a base other than ten. */
  function DigitStart(it: nat, base: Base): nat {
    if base == DecBase then it else it + 2
  }

  function NumberAt(text: string, it: nat, level: Level): (r: Scan)
    requires it < |text|
    ensures it < r.it <= |text|
  {
    var base := BaseOf(text[it], CharAt(text, it + 1));
    var digits := DigitsAt(text, DigitStart(it, base), base, [], text[it] == '.');
    if digits.float then FloatEnd(text, digits, base, level) else IntegerEnd(text, digits, base, level)
  }

  lemma NumberFrom(text: string, it: nat, base: Base, digits: Digits, level: Level)
    requires it < |text| && base == BaseOf(text[it], CharAt(text, it + 1))
    requires DigitStart(it, base) <= |text| && DigitsAt(text, DigitStart(it, base), base, [], text[it] == '.') == digits
    ensures |digits.buf| <= digits.it <= |text|
    ensures NumberAt(text, it, level)
         == if digits.float then FloatEnd(text, digits, base, level) else IntegerEnd(text, digits, base, level)
  {
  }

  // Operators.

  datatype Munched = Munched(buf: string, it: nat)

  /** The operator loop: `current` is the character to take, which the lexer has read before. */
  function Munch(text: string, it: nat, current: char, buf: string): (r: Munched)
    requires it <= |text|
    ensures it <= r.it <= |text| && |r.buf| <= |buf| + (r.it - it) + (if it < |text| then 0 else 1)
    decreases |text| - it
  {
    if !IsPunctuation(current) then Munched(buf, it)
    else if TypeOfOperator(buf) != Undefined && TypeOfOperator(buf + [CharAt(text, it)]) == Undefined then Munched(buf, it)
    else if it + 1 >= |text| then Munched(buf + [current], |text|)
    else if text[it] == '\n' then Munched(buf + [current], it + 1)
    else Munch(text, it + 1, text[it + 1], buf + [current])
  }

  function OperatorAt(text: string, it: nat, current: char, level: Level): (r: Scan)
    requires it <= |text| && (it < |text| || it > 0)
    ensures it <= r.it <= |text|
  {
    var m := Munch(text, it, current, []);
    var kind := TypeOfOperator(m.buf);
    Scan(CreateToken(text, m.it, kind, m.buf), m.it, if kind == Undefined then Error else level)
  }

  // Quoted literals.

  lemma {:induction false} CollectedLength(text: string, it: nat, quote: char, buf: string)
    requires it < |text| && IsQuote(quote)
    requires text[it] == '\\' ==> buf != [] && it > 0
    ensures var r := Collect(text, it, quote, buf); |r.buf| < |buf| + (r.it - it)
    decreases |text| - it
  {
    var i := it + 1;
    if i < |text| && text[i] != '\n' {
      if text[i] != quote {
        CollectedLength(text, i, quote, buf + [text[i]]);
      } else if text[it] == '\\' && text[it - 1] != '\\' {
        CollectedLength(text, i, quote, buf[..|buf| - 1] + [text[i]]);
      }
    }
  }

  lemma LiteralLength(text: string, it: nat, isChar: bool)
    requires it < |text| && text[it] == QuoteOf(isChar)
    ensures |LiteralAt(text, it, isChar).value| < LiteralAt(text, it, isChar).stop
  {
    CollectedLength(text, it, QuoteOf(isChar), []);
  }

  /** What reading a literal reports. */
  function LiteralLevel(lit: Literal, level: Level): Level {
    if lit.unclosed then Error else if lit.warned then Raise(level, Warning) else level
  }

  /** A character the lexer makes nothing of. */
  function UnrecognizedAt(text: string, it: nat, current: char, level: Level): (r: Scan)
    requires it <= |text| && (it < |text| || it > 0)
    ensures it <= r.it <= |text| && (it < |text| ==> it < r.it)
  {
    var i := if it < |text| then it + 1 else it;
    Scan(CreateToken(text, i, Default, [current]), i, Raise(level, Warning))
  }

  function QuotedAt(text: string, it: nat, isChar: bool, mark: Modifier, level: Level): (r: Scan)
    requires it < |text| && text[it] == QuoteOf(isChar)
    ensures it < r.it <= |text|
  {
    LiteralLength(text, it, isChar);
    var lit := LiteralAt(text, it, isChar);
    var token := CreateToken(text, lit.stop, if isChar then CharLiteral else StringLiteral, lit.value);
    Scan(token.(modifiers := {mark}), lit.stop, LiteralLevel(lit, level))
  }

  /** After a literal in error the lexer goes on to its next branches with the character it
      had read before, now standing behind the literal. */
  function OrGoOn(text: string, quoted: Scan, current: char, strict: bool): (r: Scan)
    requires 0 < quoted.it <= |text|
    ensures quoted.it <= r.it <= |text|
  {
    if !Failing(quoted.level, strict) then quoted
    else if IsPunctuation(current) then OperatorAt(text, quoted.it, current, quoted.level)
    else UnrecognizedAt(text, quoted.it, current, quoted.level)
  }

  // All branches.

  datatype Branch = ControlBranch | ByteCharBranch | CStringBranch | WordBranch | NumberBranch | StringBranch | CharBranch
                  | OperatorBranch | OtherBranch

  /** The branch taken on a character, given the one behind it. */
  function BranchOf(c: char, d: char): Branch {
    if IsControl(c) && !IsWhitespace(c) then ControlBranch
    else if IsIdentifierStart(c) then
      if (c == 'b' || c == 'B') && d == '\'' then ByteCharBranch
      else if (c == 'c' || c == 'C') && d == '"' then CStringBranch
      else WordBranch
    else if IsDigit(c) || (c == '.' && IsDigit(d)) then NumberBranch
    else if c == '"' then StringBranch
    else if c == '\'' then CharBranch
    else if IsPunctuation(c) then OperatorBranch
    else OtherBranch
  }

  lemma BranchQuotes(c: char, d: char)
    ensures match BranchOf(c, d)
      case ByteCharBranch => d == '\''
      case CStringBranch => d == '"'
      case StringBranch => c == '"'
      case CharBranch => c == '\''
      case _ => true
  {
  }

  function WordAt(text: string, it: nat, level: Level): (r: Scan)
    requires it < |text|
    ensures it < r.it <= |text|
  {
    var end := WordEnd(text, it + 1);
    Scan(CreateToken(text, end, WordType(text[it..end]), text[it..end]), end, level)
  }

  function TokenFrom(text: string, it: nat, level: Level, strict: bool): (r: Scan)
    requires it < |text|
    ensures it < r.it <= |text|
  {
    var c := text[it];
    match BranchOf(c, CharAt(text, it + 1))
    case ControlBranch => UnrecognizedAt(text, it, c, level)
    case ByteCharBranch => OrGoOn(text, QuotedAt(text, it + 1, true, ByteMark, level), c, strict)
    case CStringBranch => OrGoOn(text, QuotedAt(text, it + 1, false, CMark, level), c, strict)
    case WordBranch => WordAt(text, it, level)
    case NumberBranch => NumberAt(text, it, level)
    case StringBranch => OrGoOn(text, QuotedAt(text, it, false, StringMark, level), c, strict)
    case CharBranch => OrGoOn(text, QuotedAt(text, it, true, CharMark, level), c, strict)
    case OperatorBranch => OperatorAt(text, it, c, level)
    case OtherBranch => UnrecognizedAt(text, it, c, level)
  }

  /** What the branches of words, numbers and operators give. */
  lemma TokenFromBranch(text: string, it: nat, level: Level, strict: bool)
    requires it < |text|
    ensures match BranchOf(text[it], CharAt(text, it + 1))
      case WordBranch => TokenFrom(text, it, level, strict) == WordAt(text, it, level)
      case NumberBranch => TokenFrom(text, it, level, strict) == NumberAt(text, it, level)
      case OperatorBranch => TokenFrom(text, it, level, strict) == OperatorAt(text, it, text[it], level)
      case _ => true
  {
  }

  function EofToken(text: string): Token {
    CreateToken(text, |text|, Eof, "EOF")
  }

  function NextToken(text: string, it: nat, level: Level, strict: bool): (r: Scan)
    requires it <= |text|
    ensures it <= r.it <= |text| && (it < r.it || r.token.kind == Eof)
  {
    match Skip(text, it, level)
    case Ended(after) => Scan(EofToken(text), |text|, after)
    case TokenAt(start) => TokenFrom(text, start, level, strict)
  }

  datatype Run = Run(tokens: seq<Token>, level: Level)

  lemma NextTokenAt(text: string, from: nat, it: nat, level: Level, strict: bool)
    requires from <= |text| && Skip(text, from, level) == TokenAt(it)
    ensures NextToken(text, from, level, strict) == TokenFrom(text, it, level, strict)
  {
  }

  /** What a lexer with this text reads at a position. */
  function Reader(text: string, strict: bool): (nat, Level) -> Scan {
    (it: nat, level: Level) =>
      if it <= |text| then NextToken(text, it, level, strict) else Scan(EofToken(text), |text|, level)
  }

  /** All tokens up to the end of the file, or up to the first error. Every token but the last
      is read further on than the one before, or else the loop would end there. */
  function RunWith(read: (nat, Level) -> Scan, bound: nat, it: nat, level: Level, strict: bool, tokens: seq<Token>): Run
    requires it <= bound
    decreases bound - it
  {
    var scan := read(it, level);
    if Failing(scan.level, strict) then Run(tokens, scan.level)
    else if scan.token.kind == Eof || !(it < scan.it <= bound) then Run(tokens + [scan.token], scan.level)
    else RunWith(read, bound, scan.it, scan.level, strict, tokens + [scan.token])
  }

  function RunFrom(text: string, it: nat, level: Level, strict: bool, tokens: seq<Token>): Run
    requires it <= |text|
  {
    EndRun(RunWith(Reader(text, strict), |text|, it, level, strict, tokens))
  }

  /** Having no token at all is an error too. */
  function EndRun(run: Run): Run {
    if run.tokens == [] then run.(level := Error) else run
  }
}
