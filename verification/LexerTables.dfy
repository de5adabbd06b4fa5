/** Character classes and the tables of words and operators. */
module LexerTables {
  import opened ExpressionSyntax

  datatype TokenType =
    | Undefined | Default | Eof | IdentifierType
    | ImportKeyword | ExportKeyword | ModuleKeyword | PackageKeyword | NoMangleKeyword
    | DefKeyword | IfKeyword | ElseKeyword | WhileKeyword | ForKeyword | ForeachKeyword
    | ReturnKeyword | CastKeyword | UseKeyword | LetKeyword | MutKeyword
    | IntegerLiteral | FloatLiteral | StringLiteral | CharLiteral | TrueLiteral | FalseLiteral
    | OperatorType(op: Operator)
    | ParenOpenType | ParenCloseType | BraceOpenType | BraceCloseType | SqrOpenType | SqrCloseType
    | ColonType | SemicolonType | CommaType | ArrowType

  predicate IsAlpha(c: char) {
    'A' <= c <= 'Z' || 'a' <= c <= 'z'
  }

  predicate IsDigit(c: char) {
    '0' <= c <= '9'
  }

  predicate IsAlnum(c: char) {
    IsAlpha(c) || IsDigit(c)
  }

  predicate IsPunctuation(c: char) {
    '!' <= c <= '/' || ':' <= c <= '@' || '[' <= c <= '`' || '{' <= c <= '~'
  }

  predicate IsWhitespace(c: char) {
    '\t' <= c <= '\r' || c == ' '
  }

  predicate IsControl(c: char) {
    IsWhitespace(c) || '\U{E}' <= c <= '\U{1F}' || c == '\U{7F}'
  }

  predicate IsIdentifierStart(c: char) {
    IsAlpha(c) || c == '_'
  }

  predicate IsIdentifierChar(c: char) {
    IsAlnum(c) || c == '_'
  }

  const MODULE_WORDS: seq<(string, TokenType)> := [
    ("import", ImportKeyword), ("export", ExportKeyword), ("module", ModuleKeyword), ("package", PackageKeyword),
    ("nomangle", NoMangleKeyword)]

  const STATEMENT_WORDS: seq<(string, TokenType)> := [
    ("def", DefKeyword), ("if", IfKeyword), ("else", ElseKeyword), ("while", WhileKeyword), ("for", ForKeyword),
    ("foreach", ForeachKeyword), ("return", ReturnKeyword), ("cast", CastKeyword), ("use", UseKeyword)]

  const VALUE_WORDS: seq<(string, TokenType)> := [
    ("let", LetKeyword), ("mut", MutKeyword), ("true", TrueLiteral), ("false", FalseLiteral)]

  const OPERATOR_WORDS: seq<(string, TokenType)> := [
    ("and", OperatorType(And)), ("or", OperatorType(Or)), ("not", OperatorType(Not)), ("rem", OperatorType(Rem)),
    ("as", OperatorType(As))]

  const WORDS: seq<(string, TokenType)> := MODULE_WORDS + STATEMENT_WORDS + VALUE_WORDS + OPERATOR_WORDS

  function Lookup(table: seq<(string, TokenType)>, buf: string): TokenType {
    if table == [] then IdentifierType
    else if table[0].0 == buf then table[0].1
    else Lookup(table[1..], buf)
  }

  predicate NoEof(table: seq<(string, TokenType)>) {
    forall i :: 0 <= i < |table| ==> table[i].1 != Eof
  }

  lemma NoEofInTables()
    ensures NoEof(MODULE_WORDS) && NoEof(STATEMENT_WORDS) && NoEof(VALUE_WORDS) && NoEof(OPERATOR_WORDS)
  {
  }

  lemma NoEofBoth(a: seq<(string, TokenType)>, b: seq<(string, TokenType)>)
    requires NoEof(a) && NoEof(b)
    ensures NoEof(a + b)
  {
  }

  lemma NoEofInWords()
    ensures NoEof(WORDS)
  {
    NoEofInTables();
    NoEofBoth(MODULE_WORDS, STATEMENT_WORDS);
    NoEofBoth(MODULE_WORDS + STATEMENT_WORDS, VALUE_WORDS);
    NoEofBoth(MODULE_WORDS + STATEMENT_WORDS + VALUE_WORDS, OPERATOR_WORDS);
  }

  lemma {:induction false} LookupNoEof(table: seq<(string, TokenType)>, buf: string)
    requires NoEof(table)
    ensures Lookup(table, buf) != Eof
  {
    if table != [] && table[0].0 != buf { LookupNoEof(table[1..], buf); }
  }

  /** The type of a keyword, a literal or an operator word, and else of an identifier. */
  function WordType(buf: string): (t: TokenType)
    ensures t != Eof
  {
    NoEofInWords();
    LookupNoEof(WORDS, buf);
    Lookup(WORDS, buf)
  }

  /** Operators and punctuators of one character. */
  function ShortOperator(c: char): TokenType {
    match c
    case '=' => OperatorType(SetTo)
    case '+' => OperatorType(Add)
    case '-' => OperatorType(Sub)
    case '*' => OperatorType(Mul)
    case '/' => OperatorType(Div)
    case '%' => OperatorType(Mod)
    case '<' => OperatorType(Less)
    case '>' => OperatorType(Greater)
    case '.' => OperatorType(Member)
    case '!' => OperatorType(Not)
    case '(' => ParenOpenType
    case ')' => ParenCloseType
    case '{' => BraceOpenType
    case '}' => BraceCloseType
    case '[' => SqrOpenType
    case ']' => SqrCloseType
    case ':' => ColonType
    case ';' => SemicolonType
    case ',' => CommaType
    case _ => Undefined
  }

  /** Operators and punctuators of two characters. */
  function LongOperator(c: char, d: char): TokenType {
    if d == '=' then
      match c
      case '+' => OperatorType(AddTo)
      case '-' => OperatorType(SubTo)
      case '*' => OperatorType(MulTo)
      case '/' => OperatorType(DivTo)
      case '%' => OperatorType(ModTo)
      case '=' => OperatorType(Eq)
      case '!' => OperatorType(NotEq)
      case '<' => OperatorType(LessEq)
      case '>' => OperatorType(GreatEq)
      case _ => Undefined
    else if c == '&' && d == '&' then OperatorType(And)
    else if c == '|' && d == '|' then OperatorType(Or)
    else if c == '-' && d == '>' then ArrowType
    else Undefined
  }

  /** The type of an operator or punctuator, and Undefined for anything else. */
  function TypeOfOperator(buf: string): (t: TokenType)
    ensures t != Eof
  {
    if |buf| == 1 then ShortOperator(buf[0])
    else if |buf| == 2 then LongOperator(buf[0], buf[1])
    else Undefined
  }

  lemma OperatorsArePunctuation(buf: string)
    requires TypeOfOperator(buf) != Undefined
    ensures 1 <= |buf| <= 2 && IsPunctuation(buf[0]) && (|buf| == 2 ==> IsPunctuation(buf[1]))
  {
  }
}
