/** Escape sequences as they are written: which characters they stand for, and that the lexer
    reads just them. */
module EscapeSequences {
  import opened SourceLocations
  import opened StringLiterals

  /** The digit for d, with letters from ten on. */
  function Digit(d: nat, upper: bool): char
    requires d < 16
  {
    if d < 10 then (48 + d) as char else ((if upper then 65 else 97) + (d - 10)) as char
  }

  lemma DigitRead(d: nat, upper: bool)
    requires d < 16
    ensures IsHexDigit(Digit(d, upper)) && DigitValue(Digit(d, upper)) == d
    ensures d < 8 ==> IsOctDigit(Digit(d, upper))
  {
  }

  /** \x and one or two hexadecimal digits, the most significant one first. */
  function HexEscape(v: nat, two: bool, upper: bool): string
    requires v < 256 && (two || v < 16)
  {
    ['\\', 'x'] + if two then [Digit(v / 16, upper), Digit(v % 16, upper)] else [Digit(v, upper)]
  }

  /** \o and one to three octal digits. */
  function OctEscape(v: nat, digits: nat): string
    requires (digits == 1 && v < 8) || (digits == 2 && v < 64) || (digits == 3 && v < 512)
  {
    ['\\', 'o'] +
      if digits == 3 then [Digit(v / 64, false), Digit(v / 8 % 8, false), Digit(v % 8, false)]
      else if digits == 2 then [Digit(v / 8, false), Digit(v % 8, false)]
      else [Digit(v, false)]
  }

  /** What follows does not begin with one of these digits. */
  predicate StopsDigits(rest: string, digits: string) {
    rest != [] ==> rest[0] !in digits
  }

  lemma NotAmong(c: char)
    ensures c !in "0123456789ABCDEFabcdef" ==> !IsHexDigit(c)
    ensures c !in "01234567" ==> !IsOctDigit(c)
  {
    var hex, oct := "0123456789ABCDEFabcdef", "01234567";
    assert IsOctDigit(c) ==> oct[c as int - 48] == c;
    assert '0' <= c <= '9' ==> hex[c as int - 48] == c;
    assert 'A' <= c <= 'F' ==> hex[c as int - 55] == c;
    assert 'a' <= c <= 'f' ==> hex[c as int - 81] == c;
  }

  /** Every octet is read back from its hexadecimal escape. With one digit only, no further one
      may follow. */
  lemma HexReadBack(v: nat, two: bool, upper: bool, rest: string, isChar: bool)
    requires v < 256 && (two || (v < 16 && StopsDigits(rest, "0123456789ABCDEFabcdef")))
    ensures EscapeAt(HexEscape(v, two, upper) + rest, 0, isChar) == Escaped([v as char], |HexEscape(v, two, upper)|)
  {
    var e := HexEscape(v, two, upper);
    var s := e + rest;
    assert s[0] == '\\' && s[1] == 'x';
    if two {
      DigitRead(v / 16, upper);
      DigitRead(v % 16, upper);
      assert s[2] == Digit(v / 16, upper) && s[3] == Digit(v % 16, upper);
    } else {
      DigitRead(v, upper);
      assert s[2] == Digit(v, upper);
      if rest != [] {
        NotAmong(rest[0]);
        assert s[3] == rest[0];
      }
    }
  }

  lemma OctSum(v: nat)
    requires v < 512
    ensures v / 64 < 8 && v / 8 % 8 < 8 && 8 * (8 * (v / 64) + v / 8 % 8) + v % 8 == v
  {
  }

  lemma ThreeOctRead(a: nat, b: nat, c: nat, rest: string, isChar: bool)
    requires a < 8 && b < 8 && c < 8
    ensures EscapeAt(['\\', 'o', Digit(a, false), Digit(b, false), Digit(c, false)] + rest, 0, isChar)
         == Escaped([Octet(8 * (8 * a + b) + c)], 5)
  {
    var s := ['\\', 'o', Digit(a, false), Digit(b, false), Digit(c, false)] + rest;
    DigitRead(a, false);
    DigitRead(b, false);
    DigitRead(c, false);
    assert s[0] == '\\' && s[1] == 'o';
    assert s[2] == Digit(a, false) && s[3] == Digit(b, false) && s[4] == Digit(c, false);
  }

  lemma FewOctRead(v: nat, digits: nat, rest: string, isChar: bool)
    requires ((digits == 1 && v < 8) || (digits == 2 && v < 64)) && StopsDigits(rest, "01234567")
    ensures EscapeAt(OctEscape(v, digits) + rest, 0, isChar) == Escaped([Octet(v)], |OctEscape(v, digits)|)
  {
    var s := OctEscape(v, digits) + rest;
    assert s[0] == '\\' && s[1] == 'o';
    if rest != [] {
      NotAmong(rest[0]);
      assert s[2 + digits] == rest[0];
    }
    if digits == 1 {
      DigitRead(v, false);
      assert s[2] == Digit(v, false);
    } else {
      DigitRead(v / 8, false);
      DigitRead(v % 8, false);
      assert s[2] == Digit(v / 8, false) && s[3] == Digit(v % 8, false);
    }
  }

  /** Every octet is read back from its octal escape; of larger numbers the low octet is. */
  lemma OctReadBack(v: nat, digits: nat, rest: string, isChar: bool)
    requires (digits == 1 && v < 8) || (digits == 2 && v < 64) || (digits == 3 && v < 512)
    requires digits < 3 ==> StopsDigits(rest, "01234567")
    ensures EscapeAt(OctEscape(v, digits) + rest, 0, isChar) == Escaped([(v % 256) as char], |OctEscape(v, digits)|)
  {
    if digits < 3 {
      FewOctRead(v, digits, rest, isChar);
    } else {
      hide EscapeAt, Digit;
      OctSum(v);
      ThreeOctRead(v / 64, v / 8 % 8, v % 8, rest, isChar);
    }
  }

  /** The letters of the named escapes and the codes of their characters. */
  const NAMED: map<char, int> := map['a' := 7, 'b' := 8, 't' := 9, 'n' := 10, 'v' := 11, 'f' := 12, 'r' := 13, '\\' := 92]

  lemma NamedReadBack(c: char, rest: string, isChar: bool)
    requires c in NAMED
    ensures EscapeAt(['\\', c] + rest, 0, isChar) == Escaped([NAMED[c] as char], 2)
  {
    var s := ['\\', c] + rest;
    assert s[0] == '\\' && s[1] == c;
  }

  /** Each quote stands for itself in a literal that it delimits, and for a backslash in the other. */
  lemma QuoteReadBack(c: char, rest: string, isChar: bool)
    requires c == '"' || c == '\''
    ensures EscapeAt(['\\', c] + rest, 0, isChar) == Escaped(if c == QuoteOf(isChar) then [c] else "\\", 2)
  {
    var s := ['\\', c] + rest;
    assert s[0] == '\\' && s[1] == c;
  }

  /** A sequence of any other letter, and one that lacks its digit, is dropped with a warning. */
  lemma UnknownIsDropped(c: char, rest: string, isChar: bool)
    requires (c !in NAMED && c !in "xo\"'") || (c == 'x' && StopsDigits(rest, "0123456789ABCDEFabcdef"))
      || (c == 'o' && StopsDigits(rest, "01234567"))
    ensures EscapeAt(['\\', c] + rest, 0, isChar) == Escaped([], 2)
    ensures Unescape(['\\', c] + rest, isChar) == Unescaped(Unescape(rest, isChar).value, true)
  {
    var s := ['\\', c] + rest;
    assert s[0] == '\\' && s[1] == c && s[2..] == rest;
    assert "xo\"'"[0] == 'x' && "xo\"'"[1] == 'o' && "xo\"'"[2] == '"' && "xo\"'"[3] == '\'';
    if rest != [] {
      NotAmong(rest[0]);
      assert s[2] == rest[0];
    }
  }

  /** A sequence read in this way is followed by whatever the rest stands for. */
  lemma EscapeThenRest(e: string, out: char, rest: string, isChar: bool)
    requires e != [] && EscapeAt(e + rest, 0, isChar) == Escaped([out], |e|)
    ensures Unescape(e + rest, isChar) ==
      Unescaped([out] + Unescape(rest, isChar).value, Unescape(rest, isChar).warned)
  {
    assert (e + rest)[|e|..] == rest;
  }

  /** So in the content of a literal the escape of an octet stands for it. */
  lemma HexInContent(v: nat, two: bool, upper: bool, rest: string, isChar: bool)
    requires v < 256 && (two || (v < 16 && StopsDigits(rest, "0123456789ABCDEFabcdef")))
    ensures Unescape(HexEscape(v, two, upper) + rest, isChar) ==
      Unescaped([v as char] + Unescape(rest, isChar).value, Unescape(rest, isChar).warned)
  {
    HexReadBack(v, two, upper, rest, isChar);
    EscapeThenRest(HexEscape(v, two, upper), v as char, rest, isChar);
  }

  lemma OctInContent(v: nat, digits: nat, rest: string, isChar: bool)
    requires (digits == 1 && v < 8) || (digits == 2 && v < 64) || (digits == 3 && v < 512)
    requires digits < 3 ==> StopsDigits(rest, "01234567")
    ensures Unescape(OctEscape(v, digits) + rest, isChar) ==
      Unescaped([(v % 256) as char] + Unescape(rest, isChar).value, Unescape(rest, isChar).warned)
  {
    OctReadBack(v, digits, rest, isChar);
    EscapeThenRest(OctEscape(v, digits), (v % 256) as char, rest, isChar);
  }
}
