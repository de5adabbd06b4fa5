/** The lexer in its own form: a location moved over the text, and an error level. The long
    function for the next token is split into one method for each of its branches. */
module Lexers {
  import opened SourceLocations
  import opened LexerTables
  import opened Comments
  import opened StringLiterals
  import opened Scanning

  datatype CommentReturn = CommentAtEof | CommentFound | CommentNone

  /** With what has been escaped up to rit, the rest gives the whole. */
  predicate UnescapedSoFar(whole: Unescaped, buf: string, rit: nat, isChar: bool, escaped: string, warned: bool)
    requires rit <= |buf|
  {
    var u := Unescape(buf[rit..], isChar);
    whole == Unescaped(escaped + u.value, warned || u.warned)
  }

  lemma UnescapedOneMore(whole: Unescaped, buf: string, rit: nat, isChar: bool, escaped: string, warned: bool)
    requires rit < |buf| && UnescapedSoFar(whole, buf, rit, isChar, escaped, warned)
    ensures var e := EscapeAt(buf, rit, isChar);
      UnescapedSoFar(whole, buf, rit + e.taken, isChar, escaped + e.out, warned || e.out == [])
  {
    UnescapeFrom(buf, rit, isChar);
    var e := EscapeAt(buf, rit, isChar);
    Regroup(escaped, e.out, Unescape(buf[rit + e.taken..], isChar).value);
  }

  lemma SliceOneMore(text: string, start: nat, i: nat)
    requires start <= i < |text|
    ensures text[start..i] + [text[i]] == text[start..i + 1]
  {
  }

  lemma UnescapedStart(buf: string, isChar: bool)
    ensures UnescapedSoFar(Unescape(buf, isChar), buf, 0, isChar, [], false)
  {
    assert buf[0..] == buf;
  }

  lemma UnescapedAll(whole: Unescaped, buf: string, isChar: bool, escaped: string, warned: bool)
    requires UnescapedSoFar(whole, buf, |buf|, isChar, escaped, warned)
    ensures whole == Unescaped(escaped, warned)
  {
    assert escaped + [] == escaped;
  }

  class Lexer {
    const text: string
    const it: SourceLocation
    const warningsAsErrors: bool
    var error: Level

    constructor (text: string, warningsAsErrors: bool)
      ensures Valid() && fresh(it) && this.text == text && this.warningsAsErrors == warningsAsErrors
      ensures it.it == 0 && error == NoError
    {
      this.text := text;
      this.it := new SourceLocation(text);
      this.warningsAsErrors := warningsAsErrors;
      error := NoError;
    }

    /** The location is where counting from the start of the text leads. */
    ghost predicate Valid()
      reads this, it
    {
      it.text == text && it.Valid() && it.State() == LocAt(text, it.it)
    }

    predicate GetError()
      reads this
    {
      Failing(error, warningsAsErrors)
    }

    method LexerError()
      modifies this`error
      ensures error == Error
    {
      error := Error;
    }

    method LexerWarning()
      modifies this`error
      ensures error == Raise(old(error), Warning)
    {
      if error != Error { error := Warning; }
    }

    function PeekNext(): char
      reads this, it
    {
      CharAt(text, it.it + 1)
    }

    function PeekPassed(dist: nat): char
      reads this, it
      requires dist <= it.it
    {
      CharAt(text, it.it - dist)
    }

    method Advance()
      requires Valid()
      modifies it
      ensures Valid() && it.it == if old(it.it) < |text| then old(it.it) + 1 else old(it.it)
    {
      it.Increment();
    }

    /** 2 at the end of the text, 1 behind a line break, and 0 else. */
    method AdvanceAndTell() returns (code: int)
      requires Valid()
      modifies it
      ensures Valid() && it.it == if old(it.it) < |text| then old(it.it) + 1 else old(it.it)
      ensures code == if it.it == |text| then 2 else if text[it.it - 1] == '\n' then 1 else 0
    {
      Advance();
      if !it.HasMore() { return 2; }
      if PeekPassed(1) == '\n' { return 1; }
      code := 0;
    }

    method CreateToken(kind: TokenType, val: string) returns (token: Token)
      requires Valid() && (kind != Eof ==> |val| <= it.it)
      ensures token == Scanning.CreateToken(text, it.it, kind, val)
    {
      var len := if kind == Eof then 0 else |val|;
      var loc := it.Minus(len);
      token := Token(kind, val, loc.State(), len, {});
    }

    method LexComment() returns (r: CommentReturn)
      requires Valid()
      modifies this`error, it
      ensures Valid()
      ensures match CommentAt(text, old(it.it))
        case NoComment => r == CommentNone && it.it == old(it.it) && error == old(error)
        case CommentTo(stop) => r == CommentFound && it.it == stop && error == old(error)
        case CommentEof =>
          r == CommentAtEof && it.it == |text|
          && error == if Opens(text, old(it.it)) then Raise(old(error), Warning) else old(error)
    {
      if it.Deref() == '/' {
        if PeekNext() == '/' {
          r := LexLineComment();
          return;
        }
        if PeekNext() == '*' {
          r := LexBlockComment();
          return;
        }
      }
      r := CommentNone;
    }

    method LexLineComment() returns (r: CommentReturn)
      requires Valid() && it.it + 1 < |text| && text[it.it] == '/' && text[it.it + 1] == '/'
      modifies it
      ensures Valid()
      ensures match LineCommentEnd(text, old(it.it) + 2)
        case NoComment => false
        case CommentTo(stop) => r == CommentFound && it.it == stop
        case CommentEof => r == CommentAtEof && it.it == |text|
    {
      Advance();
      Advance();
      ghost var start := it.it;
      if !it.HasMore() { return CommentAtEof; }
      while true
        invariant Valid() && start <= it.it < |text|
        invariant LineCommentEnd(text, it.it) == LineCommentEnd(text, start)
        decreases |text| - it.it
      {
        var a := AdvanceAndTell();
        if a == 1 { break; }
        if a == 2 { return CommentAtEof; }
      }
      r := CommentFound;
    }

    method LexBlockComment() returns (r: CommentReturn)
      requires Valid() && Opens(text, it.it)
      modifies this`error, it
      ensures Valid()
      ensures match BlockEnd(text, old(it.it) + 2, 1)
        case NoComment => false
        case CommentTo(stop) => r == CommentFound && it.it == stop && error == old(error)
        case CommentEof => r == CommentAtEof && it.it == |text| && error == Raise(old(error), Warning)
    {
      hide LocAt;
      Advance();
      Advance();
      ghost var wanted := BlockEnd(text, it.it, 1);
      var openCommentCount: nat := 1;
      while openCommentCount > 0
        invariant Valid() && it.it <= |text| && error == old(error)
        invariant BlockEnd(text, it.it, openCommentCount) == wanted
        decreases |text| - it.it
      {
        if !it.HasMore() {
          LexerWarning();
          return CommentAtEof;
        }
        BlockStep(text, it.it, openCommentCount);
        if it.Deref() == '/' && PeekNext() == '*' {
          Advance();
          Advance();
          openCommentCount := openCommentCount + 1;
        } else if it.Deref() == '*' && PeekNext() == '/' {
          Advance();
          Advance();
          openCommentCount := openCommentCount - 1;
        } else {
          Advance();
        }
      }
      r := CommentFound;
    }

    /** Collects a literal's characters, from its opening quote on. */
    method CollectLiteral(isChar: bool) returns (buf: string)
      requires Valid() && it.it < |text| && text[it.it] == QuoteOf(isChar)
      modifies this`error, it
      ensures Valid()
      ensures var c := Collect(text, old(it.it), QuoteOf(isChar), []);
        buf == c.buf && it.it == c.it && error == if c.newline then Error else old(error)
    {
      buf := [];
      var quote := QuoteOf(isChar);
      ghost var start := it.it;
      while true
        invariant Valid() && start <= it.it < |text| && error == old(error)
        invariant text[it.it] == '\\' ==> buf != [] && it.it > 0
        invariant Collect(text, it.it, quote, buf) == Collect(text, start, quote, [])
        decreases |text| - it.it
      {
        Advance();
        if !it.HasMore() { return; }
        var currentChar := it.Deref();
        var prev := PeekPassed(1);
        if currentChar == '\n' {
          LexerError();
          return;
        }
        if currentChar == quote {
          if prev == '\\' && PeekPassed(2) != '\\' {
            buf := buf[..|buf| - 1];
          } else {
            return;
          }
        }
        buf := buf + [currentChar];
      }
    }

    /** One round of the escape loop: a character, or nothing and a warning. */
    method UnescapeOne(buf: string, rit0: nat, isChar: bool) returns (out: string, rit: nat)
      requires rit0 < |buf|
      modifies this`error
      ensures rit0 < rit
      ensures Escaped(out, rit - rit0) == EscapeAt(buf, rit0, isChar)
      ensures error == if out == [] then Raise(old(error), Warning) else old(error)
    {
      var c := buf[rit0];
      rit := rit0 + 1;
      if c == '\\' && rit != |buf| {
        var e := buf[rit];
        rit := rit + 1;
        match e {
          case '\\' => c := '\\';
          case 'n' => c := '\n';
          case 't' => c := '\t';
          case 'r' => c := '\r';
          case 'f' => c := FORM_FEED;
          case 'v' => c := VERTICAL_TAB;
          case 'b' => c := BACKSPACE;
          case 'a' => c := BELL;
          case 'x' =>
            if !IsHexDigit(CharAt(buf, rit)) {
              LexerWarning();
              return [], rit;
            }
            var hex := DigitValue(buf[rit]);
            if IsHexDigit(CharAt(buf, rit + 1)) {
              rit := rit + 1;
              hex := 16 * hex + DigitValue(buf[rit]);
            }
            rit := rit + 1;
            c := Octet(hex);
          case 'o' =>
            if !IsOctDigit(CharAt(buf, rit)) {
              LexerWarning();
              return [], rit;
            }
            var oct := DigitValue(buf[rit]);
            if IsOctDigit(CharAt(buf, rit + 1)) {
              rit := rit + 1;
              oct := 8 * oct + DigitValue(buf[rit]);
              if IsOctDigit(CharAt(buf, rit + 1)) {
                rit := rit + 1;
                oct := 8 * oct + DigitValue(buf[rit]);
              }
              rit := rit + 1;
            } else {
              rit := rit + 1;
            }
            c := Octet(oct);
          case '"' =>
            if !isChar { c := '"'; }
          case '\'' =>
            if isChar { c := '\''; }
          case _ =>
            LexerWarning();
            return [], rit;
        }
      }
      out := [c];
    }

    /** Replaces the escape sequences. */
    method UnescapeLiteral(buf: string, isChar: bool) returns (escaped: string)
      modifies this`error
      ensures var u := Unescape(buf, isChar);
        escaped == u.value && error == if u.warned then Raise(old(error), Warning) else old(error)
    {
      escaped := [];
      var rit := 0;
      ghost var warned := false;
      ghost var whole := Unescape(buf, isChar);
      UnescapedStart(buf, isChar);
      while rit != |buf|
        invariant 0 <= rit <= |buf|
        invariant error == if warned then Raise(old(error), Warning) else old(error)
        invariant UnescapedSoFar(whole, buf, rit, isChar, escaped, warned)
        decreases |buf| - rit
      {
        UnescapedOneMore(whole, buf, rit, isChar, escaped, warned);
        var out;
        out, rit := UnescapeOne(buf, rit, isChar);
        escaped := escaped + out;
        warned := warned || out == [];
      }
      UnescapedAll(whole, buf, isChar, escaped, warned);
    }

    method LexStringLiteral(isChar: bool) returns (s: string)
      requires Valid() && it.it < |text| && text[it.it] == QuoteOf(isChar)
      modifies this`error, it
      ensures Valid()
      ensures var lit := LiteralAt(text, old(it.it), isChar);
        s == lit.value && it.it == lit.stop && error == LiteralLevel(lit, old(error))
    {
      var buf := CollectLiteral(isChar);
      s := UnescapeLiteral(buf, isChar);
      Advance();
    }

    /** Skips blanks and comments; true when nothing is left. */
    method SkipGap() returns (ended: bool)
      requires Valid()
      modifies this`error, it
      ensures Valid()
      ensures match Skip(text, old(it.it), old(error))
        case Ended(level) => ended && it.it == |text| && error == level
        case TokenAt(start) => !ended && it.it == start && error == old(error)
    {
      while true
        invariant Valid() && it.it <= |text| && error == old(error)
        invariant Skip(text, it.it, error) == Skip(text, old(it.it), old(error))
        decreases |text| - it.it
      {
        if !it.HasMore() { return true; }
        var match_ := false;
        if IsWhitespace(it.Deref()) {
          Advance();
          if !it.HasMore() { return true; }
          match_ := true;
        }
        var comment := LexComment();
        if comment == CommentAtEof { return true; }
        if comment == CommentFound { match_ := true; }
        if !match_ { return false; }
      }
    }

    method LexWord() returns (t: Token)
      requires Valid() && it.it < |text|
      modifies it
      ensures Valid()
      ensures var scan := WordAt(text, old(it.it), error); t == scan.token && it.it == scan.it
    {
      ghost var start := it.it;
      var buf := [it.Deref()];
      Advance();
      while IsIdentifierChar(it.Deref())
        invariant Valid() && start < it.it <= |text| && buf == text[start..it.it]
        invariant WordEnd(text, it.it) == WordEnd(text, start + 1)
        decreases |text| - it.it
      {
        ghost var i := it.it;
        SliceOneMore(text, start, i);
        buf := buf + [it.Deref()];
        Advance();
      }
      t := CreateToken(WordType(buf), buf);
    }

    /** The digits of a number, with the prefix of its base left out. */
    method LexDigits(base: Base, isFloat: bool) returns (buf: string, float: bool)
      requires Valid()
      modifies it
      ensures Valid()
      ensures Digits(buf, it.it, float) == DigitsAt(text, old(it.it), base, [], isFloat)
    {
      buf, float := [], isFloat;
      ghost var start := it.it;
      var currentChar := it.Deref();
      var cont := true;
      while cont
        invariant Valid() && it.it <= |text| && currentChar == it.Deref()
        invariant cont ==> DigitsAt(text, it.it, base, buf, float) == DigitsAt(text, start, base, [], isFloat)
        invariant cont && it.it > start ==> it.it < |text|
        invariant !cont ==> Digits(buf, it.it, float) == DigitsAt(text, start, base, [], isFloat)
        decreases |text| - it.it, cont
      {
        buf := buf + [currentChar];
        Advance();
        currentChar := it.Deref();
        if currentChar == '.' { float := true; }
        cont := InBase(base, currentChar) || currentChar == '.';
      }
    }

    method LexSuffix(modifiers: map<string, Modifier>) returns (found: set<Modifier>, modbuf: string)
      requires Valid()
      modifies it
      ensures Valid()
      ensures Suffix(found, modbuf, it.it) == SuffixAt(text, old(it.it), modifiers, [], {})
    {
      var allowed := modifiers;
      found, modbuf := {}, [];
      ghost var start := it.it;
      while IsAlnum(it.Deref())
        invariant Valid() && it.it <= |text|
        invariant SuffixAt(text, it.it, allowed, modbuf, found) == SuffixAt(text, start, modifiers, [], {})
        decreases |text| - it.it
      {
        modbuf := modbuf + [it.Deref()];
        if modbuf in allowed {
          found := found + {allowed[modbuf]};
          allowed := allowed - {modbuf};
          modbuf := [];
        }
        Advance();
      }
    }

    /** Skips the prefix that tells a base. */
    method LexBase() returns (base: Base)
      requires Valid() && it.it < |text|
      modifies it
      ensures Valid() && base == BaseOf(text[old(it.it)], CharAt(text, old(it.it) + 1))
      ensures it.it == if base == DecBase then old(it.it) else old(it.it) + 2
    {
      base := BaseOf(it.Deref(), PeekNext());
      if base != DecBase {
        Advance();
        Advance();
      }
    }

    method LexNumber() returns (t: Token)
      requires Valid() && it.it < |text|
      modifies this`error, it
      ensures Valid()
      ensures Scan(t, it.it, error) == NumberAt(text, old(it.it), old(error))
    {
      var currentChar := it.Deref();
      var base := LexBase();
      var buf, float := LexDigits(base, currentChar == '.');
      NumberFrom(text, old(it.it), base, Digits(buf, it.it, float), error);
      t := CreateToken(if float then FloatLiteral else IntegerLiteral, buf);
      if float {
        t := LexFloatEnd(buf, base);
      } else {
        t := LexIntegerEnd(buf, base);
      }
    }

    method LexIntegerEnd(buf: string, base: Base) returns (t: Token)
      requires Valid() && |buf| <= it.it
      modifies this`error, it
      ensures Valid()
      ensures Scan(t, it.it, error) == IntegerEnd(text, Digits(buf, old(it.it), false), base, old(error))
    {
      t := CreateToken(IntegerLiteral, buf);
      var found, rest := LexSuffix(IntModifiers());
      if rest != [] { LexerError(); }
      t := t.(modifiers := OrElse(found, I32) + BaseModifier(base));
    }

    method LexFloatEnd(buf: string, base: Base) returns (t: Token)
      requires Valid() && |buf| <= it.it
      modifies this`error, it
      ensures Valid()
      ensures Scan(t, it.it, error) == FloatEnd(text, Digits(buf, old(it.it), true), base, old(error))
    {
      t := CreateToken(FloatLiteral, buf);
      var found, rest := LexSuffix(FloatModifiers());
      if rest != [] { LexerError(); }
      t := t.(modifiers := OrElse(found, F64));
      if base != DecBase { LexerError(); }
    }

    method LexOperator(first: char) returns (t: Token)
      requires Valid() && (it.it < |text| || it.it > 0)
      modifies this`error, it
      ensures Valid()
      ensures Scan(t, it.it, error) == OperatorAt(text, old(it.it), first, old(error))
    {
      hide LocAt, TypeOfOperator;
      var buf: string := [];
      var currentChar := first;
      ghost var start := it.it;
      ghost var wanted := Munch(text, start, first, []);
      while IsPunctuation(currentChar)
        invariant Valid() && it.it <= |text| && error == old(error)
        invariant Munch(text, it.it, currentChar, buf) == wanted
        decreases |text| - it.it
      {
        if TypeOfOperator(buf) != Undefined && TypeOfOperator(buf + [it.Deref()]) == Undefined { break; }
        buf := buf + [currentChar];
        var code := AdvanceAndTell();
        if code != 0 {
          assert wanted == Munched(buf, it.it);
          t := OperatorToken(buf, start, first);
          return;
        }
        currentChar := it.Deref();
      }
      t := OperatorToken(buf, start, first);
    }

    /** The end of the operator branch. */
    method OperatorToken(buf: string, ghost start: nat, ghost first: char) returns (t: Token)
      requires Valid() && start <= |text| && (start < |text| || start > 0)
      requires Munch(text, start, first, []) == Munched(buf, it.it)
      modifies this`error
      ensures Valid() && Scan(t, it.it, error) == OperatorAt(text, start, first, old(error))
    {
      t := CreateToken(TypeOfOperator(buf), buf);
      if t.kind == Undefined { LexerError(); }
    }

    method Unrecognized(currentChar: char) returns (t: Token)
      requires Valid() && (it.it < |text| || it.it > 0)
      modifies this`error, it
      ensures Valid()
      ensures Scan(t, it.it, error) == UnrecognizedAt(text, old(it.it), currentChar, old(error))
    {
      LexerWarning();
      Advance();
      t := CreateToken(Default, [currentChar]);
    }

    method LexQuoted(isChar: bool, mark: Modifier) returns (t: Token)
      requires Valid() && it.it < |text| && text[it.it] == QuoteOf(isChar)
      modifies this`error, it
      ensures Valid()
      ensures Scan(t, it.it, error) == QuotedAt(text, old(it.it), isChar, mark, old(error))
    {
      LiteralLength(text, it.it, isChar);
      var buf := LexStringLiteral(isChar);
      t := CreateToken(if isChar then CharLiteral else StringLiteral, buf);
      t := t.(modifiers := {mark});
    }

    method GetNextToken() returns (t: Token)
      requires Valid()
      modifies this`error, it
      ensures Valid()
      ensures Scan(t, it.it, error) == NextToken(text, old(it.it), old(error), warningsAsErrors)
    {
      var ended := SkipGap();
      if ended {
        t := CreateToken(Eof, "EOF");
        return;
      }
      t := GetToken();
    }

    /** A literal's token, or in case of an error the later branches that still apply to the
        character read before. */
    method LexLiteral(isChar: bool, mark: Modifier, currentChar: char) returns (t: Token)
      requires Valid() && it.it < |text| && text[it.it] == QuoteOf(isChar)
      modifies this`error, it
      ensures Valid()
      ensures Scan(t, it.it, error)
           == OrGoOn(text, QuotedAt(text, old(it.it), isChar, mark, old(error)), currentChar, warningsAsErrors)
    {
      t := LexQuoted(isChar, mark);
      if GetError() {
        if IsPunctuation(currentChar) {
          t := LexOperator(currentChar);
        } else {
          t := Unrecognized(currentChar);
        }
      }
    }

    /** The branches of GetNextToken, once blanks and comments are skipped; BranchOf has their
        conditions in order. */
    method GetToken() returns (t: Token)
      requires Valid() && it.it < |text|
      modifies this`error, it
      ensures Valid()
      ensures Scan(t, it.it, error) == TokenFrom(text, old(it.it), old(error), warningsAsErrors)
    {
      hide BranchOf, UnrecognizedAt, OrGoOn, QuotedAt, NumberAt, OperatorAt;
      var currentChar := it.Deref();
      var branch := BranchOf(currentChar, PeekNext());
      if branch == ControlBranch || branch == OtherBranch {
        t := Unrecognized(currentChar);
      } else if branch == WordBranch {
        t := LexWord();
      } else if branch == NumberBranch {
        t := LexNumber();
      } else if branch == OperatorBranch {
        t := LexOperator(currentChar);
      } else {
        t := GetLiteral(branch, currentChar);
      }
    }

    /** The branches of character and string literals, with the prefix of the first two skipped. */
    method GetLiteral(branch: Branch, currentChar: char) returns (t: Token)
      requires Valid() && it.it < |text| && currentChar == text[it.it]
      requires branch == BranchOf(currentChar, CharAt(text, it.it + 1))
      requires branch in {ByteCharBranch, CStringBranch, StringBranch, CharBranch}
      modifies this`error, it
      ensures Valid()
      ensures Scan(t, it.it, error) == TokenFrom(text, old(it.it), old(error), warningsAsErrors)
    {
      hide BranchOf, UnrecognizedAt, OrGoOn, QuotedAt, NumberAt, OperatorAt;
      BranchQuotes(currentChar, CharAt(text, it.it + 1));
      if branch == ByteCharBranch {
        Advance();
        t := LexLiteral(true, ByteMark, currentChar);
      } else if branch == CStringBranch {
        Advance();
        t := LexLiteral(false, CMark, currentChar);
      } else if branch == StringBranch {
        t := LexLiteral(false, StringMark, currentChar);
      } else {
        t := LexLiteral(true, CharMark, currentChar);
      }
    }

    method Run() returns (tokens: seq<Token>)
      requires Valid()
      modifies this`error, it
      ensures Valid()
      ensures Scanning.Run(tokens, error) == RunFrom(text, old(it.it), old(error), warningsAsErrors, [])
    {
      tokens := [];
      ghost var read := Reader(text, warningsAsErrors);
      ghost var wanted := RunWith(read, |text|, it.it, error, warningsAsErrors, []);
      while true
        invariant Valid() && it.it <= |text|
        invariant RunWith(read, |text|, it.it, error, warningsAsErrors, tokens) == wanted
        decreases |text| - it.it
      {
        var t := GetNextToken();
        if GetError() { break; }
        tokens := tokens + [t];
        if t.kind == Eof { break; }
      }
      if tokens == [] { LexerError(); }
    }
  }
}
