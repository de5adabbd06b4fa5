/** Number literals: in every base and with every suffix they are read back as written. */
module NumberLiterals {
  import opened SourceLocations
  import opened LexerTables
  import opened StringLiterals
  import opened Scanning

  /** The text has s at `it`. */
  predicate Spells(text: string, it: nat, s: string) {
    it + |s| <= |text| && text[it..it + |s|] == s
  }

  lemma SpellsAt(text: string, it: nat, s: string)
    requires Spells(text, it, s)
    ensures forall k :: 0 <= k < |s| ==> s[k] == text[it + k]
  {
    forall k | 0 <= k < |s| ensures s[k] == text[it + k] { assert text[it..it + |s|][k] == text[it + k]; }
  }

  // Digits.

  predicate InNumber(base: Base, c: char) {
    InBase(base, c) || c == '.'
  }

  /** A point behind the first character makes a number a float. */
  predicate HasPoint(text: string, i: nat, end: nat)
    requires end <= |text|
  {
    exists k :: i <= k < end && text[k] == '.'
  }

  lemma {:induction false} DigitsRun(text: string, it: nat, end: nat, base: Base, buf: string, float: bool)
    requires it < end <= |text| && (forall k :: it < k < end ==> InNumber(base, text[k]))
    requires end < |text| ==> !InNumber(base, text[end])
    ensures DigitsAt(text, it, base, buf, float) == Digits(buf + text[it..end], end, float || HasPoint(text, it + 1, end))
    decreases end - it
  {
    var b := buf + [text[it]];
    if it + 1 < end {
      DigitsRun(text, it + 1, end, base, b, float || text[it + 1] == '.');
    }
    FirstAndRest(buf, text, it, end);
  }

  lemma FirstAndRest(buf: string, text: string, it: nat, end: nat)
    requires it < end <= |text|
    ensures buf + [text[it]] + text[it + 1..end] == buf + text[it..end]
    ensures it + 1 == end ==> buf + [text[it]] == buf + text[it..end]
  {
    assert text[it..end] == [text[it]] + text[it + 1..end];
  }

  lemma DigitsSpelled(text: string, it: nat, digits: string, base: Base, float: bool)
    requires digits != [] && Spells(text, it, digits)
    requires forall k :: 0 < k < |digits| ==> InNumber(base, digits[k])
    requires !InNumber(base, CharAt(text, it + |digits|)) || it + |digits| == |text|
    ensures DigitsAt(text, it, base, [], float) == Digits(digits, it + |digits|, float || '.' in digits[1..])
  {
    var end := it + |digits|;
    SpellsAt(text, it, digits);
    DigitsRun(text, it, end, base, [], float);
    assert [] + text[it..end] == digits;
    PointSpelled(text, it, digits);
  }

  lemma PointSpelled(text: string, it: nat, digits: string)
    requires digits != [] && it + |digits| <= |text| && forall k :: 0 <= k < |digits| ==> digits[k] == text[it + k]
    ensures HasPoint(text, it + 1, it + |digits|) <==> '.' in digits[1..]
  {
    if HasPoint(text, it + 1, it + |digits|) {
      var k :| it + 1 <= k < it + |digits| && text[k] == '.';
      assert digits[1..][k - it - 1] == digits[k - it];
    }
    if '.' in digits[1..] {
      var k :| 0 <= k < |digits[1..]| && digits[1..][k] == '.';
      assert digits[k + 1] == text[it + (k + 1)];
    }
  }

  // Suffixes.

  /** A word of the table none of whose beginnings is in it. */
  predicate IsModifier(allowed: map<string, Modifier>, word: string) {
    word in allowed && word != [] && (forall k :: 0 <= k < |word| ==> IsAlnum(word[k]))
    && forall k :: 0 < k < |word| ==> word[..k] !in allowed
  }

  lemma {:induction false} SuffixRun(text: string, it: nat, allowed: map<string, Modifier>, word: string, k: nat)
    requires IsModifier(allowed, word) && k < |word| && it + |word| <= |text|
    requires forall j :: 0 <= j < |word| ==> word[j] == text[it + j]
    ensures SuffixAt(text, it + k, allowed, word[..k], {})
         == SuffixAt(text, it + |word|, allowed - {word}, [], {allowed[word]})
    decreases |word| - k
  {
    assert word[..k] + [text[it + k]] == word[..k + 1];
    assert IsAlnum(word[k]) && CharAt(text, it + k) == word[k];
    if k + 1 < |word| {
      assert word[..k + 1] !in allowed;
      SuffixRun(text, it, allowed, word, k + 1);
    } else {
      assert word[..k + 1] == word;
      assert {} + {allowed[word]} == {allowed[word]};
    }
  }

  /** The suffix is empty or in the table, and nothing follows that could go on with it. */
  predicate Ends(text: string, it: nat, suffix: string, allowed: map<string, Modifier>) {
    Spells(text, it, suffix) && (suffix == [] || suffix in allowed) && !IsAlnum(CharAt(text, it + |suffix|))
  }

  function Found(suffix: string, allowed: map<string, Modifier>): set<Modifier> {
    if suffix in allowed then {allowed[suffix]} else {}
  }

  lemma SuffixSpelled(text: string, it: nat, suffix: string, allowed: map<string, Modifier>)
    requires Ends(text, it, suffix, allowed) && [] !in allowed && (suffix != [] ==> IsModifier(allowed, suffix))
    ensures SuffixAt(text, it, allowed, [], {}) == Suffix(Found(suffix, allowed), [], it + |suffix|)
  {
    if suffix != [] {
      SpellsAt(text, it, suffix);
      SuffixRun(text, it, allowed, suffix, 0);
      assert suffix[..0] == [];
    }
  }

  lemma IntModifiersAre(word: string)
    requires word in IntModifiers()
    ensures IsModifier(IntModifiers(), word)
  {
    assert word in {"i64", "i32", "i16", "i8", "o"};
    forall k | 0 < k < |word| ensures word[..k] !in IntModifiers() {
      assert k == 1 ==> word[..k] == "i";
      assert k == 2 ==> |word| == 3 && word[..k] == ['i', word[1]];
    }
  }

  lemma FloatModifiersAre(word: string)
    requires word in FloatModifiers()
    ensures IsModifier(FloatModifiers(), word)
  {
    assert word in {"f32", "f64", "d", "l"};
    forall k | 0 < k < |word| ensures word[..k] !in FloatModifiers() {
      assert k == 1 ==> word[..k] == "f";
      assert k == 2 ==> |word| == 3 && word[..k] == ['f', word[1]];
    }
  }

  // Integers.

  /** The text has at `it` an integer with these digits and this suffix, and it ends there. */
  predicate IntegerAt(text: string, it: nat, base: Base, digits: string, suffix: string) {
    var start := DigitStart(it, base);
    digits != [] && (forall k :: 0 <= k < |digits| ==> InBase(base, digits[k]))
    && Spells(text, start, digits) && Ends(text, start + |digits|, suffix, IntModifiers())
    && (base != DecBase ==> BaseOf(text[it], text[it + 1]) == base)
    && (suffix == [] ==> CharAt(text, start + |digits|) != '.')
  }

  /** The token an integer should give, made where its digits end. */
  function IntegerToken(text: string, end: nat, base: Base, digits: string, suffix: string): Token
    requires |digits| <= end <= |text| && (suffix == [] || suffix in IntModifiers())
  {
    CreateToken(text, end, IntegerLiteral, digits)
      .(modifiers := (if suffix == [] then {I32} else {IntModifiers()[suffix]}) + BaseModifier(base))
  }

  /** A decimal zero with the suffix o looks like the prefix of an octal number. */
  predicate LooksOctal(base: Base, digits: string, suffix: string) {
    base == DecBase && digits == "0" && suffix == "o"
  }

  lemma IntegerDigits(text: string, it: nat, base: Base, digits: string, suffix: string)
    requires IntegerAt(text, it, base, digits, suffix)
    ensures DigitsAt(text, DigitStart(it, base), base, [], false) == Digits(digits, DigitStart(it, base) + |digits|, false)
  {
    NotInNumber(text, DigitStart(it, base) + |digits|, base, suffix);
    DigitsSpelled(text, DigitStart(it, base), digits, base, false);
    assert '.' !in digits[1..];
  }

  lemma IntegerSuffix(text: string, end: nat, suffix: string)
    requires Ends(text, end, suffix, IntModifiers())
    ensures SuffixAt(text, end, IntModifiers(), [], {}) == Suffix(Found(suffix, IntModifiers()), [], end + |suffix|)
  {
    if suffix != [] { IntModifiersAre(suffix); }
    assert [] !in IntModifiers();
    SuffixSpelled(text, end, suffix, IntModifiers());
  }

  lemma NotInNumber(text: string, end: nat, base: Base, suffix: string)
    requires Ends(text, end, suffix, IntModifiers()) && (suffix == [] ==> CharAt(text, end) != '.')
    ensures !InNumber(base, CharAt(text, end))
  {
    if suffix != [] {
      assert suffix in {"i64", "i32", "i16", "i8", "o"};
      SpellsAt(text, end, suffix);
      assert CharAt(text, end) == suffix[0];
    }
  }

  lemma IntegerBase(text: string, it: nat, base: Base, digits: string, suffix: string)
    requires IntegerAt(text, it, base, digits, suffix) && !LooksOctal(base, digits, suffix)
    ensures it < |text| && BaseOf(text[it], CharAt(text, it + 1)) == base && text[it] != '.'
  {
    if base == DecBase {
      SpellsAt(text, it, digits);
      assert text[it] == digits[0];
      if |digits| > 1 {
        assert CharAt(text, it + 1) == digits[1];
      } else if suffix != [] {
        assert suffix in {"i64", "i32", "i16", "i8", "o"};
        SpellsAt(text, it + 1, suffix);
        assert CharAt(text, it + 1) == suffix[0];
      }
    }
  }

  /** An integer in any base, with or without a suffix, is read back to its digits, its base
      and its width, if and only if it is not a decimal zero with the suffix of a byte. */
  lemma IntegerReadBack(text: string, it: nat, base: Base, digits: string, suffix: string, level: Level)
    requires it < |text| && IntegerAt(text, it, base, digits, suffix)
    ensures var end := DigitStart(it, base) + |digits|;
      NumberAt(text, it, level) == Scan(IntegerToken(text, end, base, digits, suffix), end + |suffix|, level)
      <==> !LooksOctal(base, digits, suffix)
  {
    if LooksOctal(base, digits, suffix) {
      ZeroIsLost(text, it, level);
    } else {
      IntegerComesBack(text, it, base, digits, suffix, level);
    }
  }

  lemma IntegerComesBack(text: string, it: nat, base: Base, digits: string, suffix: string, level: Level)
    requires it < |text| && IntegerAt(text, it, base, digits, suffix) && !LooksOctal(base, digits, suffix)
    ensures var end := DigitStart(it, base) + |digits|;
      NumberAt(text, it, level) == Scan(IntegerToken(text, end, base, digits, suffix), end + |suffix|, level)
  {
    var end := DigitStart(it, base) + |digits|;
    SuffixEnds(text, it, base, digits, suffix);
    IntegerEnds(text, end, base, digits, suffix, level);
    var scan := Scan(IntegerToken(text, end, base, digits, suffix), end + |suffix|, level);
    IntegerIsRead(text, it, end, base, digits, suffix, level, scan);
  }

  lemma SuffixEnds(text: string, it: nat, base: Base, digits: string, suffix: string)
    requires IntegerAt(text, it, base, digits, suffix)
    ensures Ends(text, DigitStart(it, base) + |digits|, suffix, IntModifiers())
  {
  }

  lemma IntegerIsRead(text: string, it: nat, end: nat, base: Base, digits: string, suffix: string, level: Level, scan: Scan)
    requires it < |text| && IntegerAt(text, it, base, digits, suffix) && !LooksOctal(base, digits, suffix)
    requires end == DigitStart(it, base) + |digits| <= |text|
    requires scan == IntegerEnd(text, Digits(digits, end, false), base, level)
    ensures NumberAt(text, it, level) == scan
  {
    IntegerBase(text, it, base, digits, suffix);
    IntegerDigits(text, it, base, digits, suffix);
    NumberFrom(text, it, base, Digits(digits, end, false), level);
  }

  lemma IntegerEnds(text: string, end: nat, base: Base, digits: string, suffix: string, level: Level)
    requires |digits| <= end <= |text| && Ends(text, end, suffix, IntModifiers())
    ensures IntegerEnd(text, Digits(digits, end, false), base, level)
         == Scan(IntegerToken(text, end, base, digits, suffix), end + |suffix|, level)
  {
    IntegerSuffix(text, end, suffix);
    WidthOf(suffix);
  }

  lemma WidthOf(suffix: string)
    requires suffix == [] || suffix in IntModifiers()
    ensures OrElse(Found(suffix, IntModifiers()), I32) == if suffix == [] then {I32} else {IntModifiers()[suffix]}
  {
  }

  lemma {:induction false} FirstDigit(text: string, it: nat, base: Base, buf: string, float: bool)
    requires it <= |text|
    ensures buf + [CharAt(text, it)] <= DigitsAt(text, it, base, buf, float).buf
    decreases |text| - it
  {
    if it + 1 < |text| {
      FirstDigit(text, it + 1, base, buf + [CharAt(text, it)], float || text[it + 1] == '.');
    }
  }

  /** It is taken for the prefix of an octal number, whose first digit is whatever character
      follows: with a point behind it an error is reported, else it is marked as octal. */
  lemma ZeroIsLost(text: string, it: nat, level: Level)
    requires it < |text| && IntegerAt(text, it, DecBase, "0", "o")
    ensures var r := NumberAt(text, it, level);
      r.token.value != [] && r.token.value[0] == CharAt(text, it + 2) != '0'
      && (r.level == Error || (r.token.kind == IntegerLiteral && BaseModifier(OctBase) <= r.token.modifiers))
  {
    SpellsAt(text, it, "0");
    SpellsAt(text, it + 1, "o");
    assert text[it] == "0"[0] && text[it + 1] == "o"[0];
    FirstDigit(text, it + 2, OctBase, [], false);
    assert DigitsAt(text, it + 2, OctBase, [], false).buf[0] == ([] + [CharAt(text, it + 2)])[0];
    NumberFrom(text, it, OctBase, DigitsAt(text, it + 2, OctBase, [], false), level);
  }

  // Floats.

  /** The text has at `it` a decimal number with a point and this suffix, and it ends there. */
  predicate FloatAt(text: string, it: nat, digits: string, suffix: string) {
    digits != [] && (forall k :: 0 <= k < |digits| ==> InNumber(DecBase, digits[k])) && '.' in digits
    && Spells(text, it, digits) && Ends(text, it + |digits|, suffix, FloatModifiers())
    && (suffix == [] ==> CharAt(text, it + |digits|) != '.')
  }

  function FloatToken(text: string, end: nat, digits: string, suffix: string): Token
    requires |digits| <= end <= |text| && (suffix == [] || suffix in FloatModifiers())
  {
    CreateToken(text, end, FloatLiteral, digits)
      .(modifiers := if suffix == [] then {F64} else {FloatModifiers()[suffix]})
  }

  /** A decimal number with a point, with or without a suffix, is read back. */
  lemma FloatReadBack(text: string, it: nat, digits: string, suffix: string, level: Level)
    requires it < |text| && FloatAt(text, it, digits, suffix)
    ensures var end := it + |digits|;
      NumberAt(text, it, level) == Scan(FloatToken(text, end, digits, suffix), end + |suffix|, level)
  {
    var end := it + |digits|;
    FloatResult(text, end, digits, suffix, level);
    FloatIsRead(text, it, digits, suffix, level, Scan(FloatToken(text, end, digits, suffix), end + |suffix|, level));
  }

  lemma FloatIsRead(text: string, it: nat, digits: string, suffix: string, level: Level, scan: Scan)
    requires it < |text| && FloatAt(text, it, digits, suffix)
    requires scan == FloatEnd(text, Digits(digits, it + |digits|, true), DecBase, level)
    ensures NumberAt(text, it, level) == scan
  {
    FloatBase(text, it, digits, suffix);
    FloatDigits(text, it, digits, suffix, text[it] == '.');
    NumberFrom(text, it, DecBase, Digits(digits, it + |digits|, true), level);
  }

  lemma FloatResult(text: string, end: nat, digits: string, suffix: string, level: Level)
    requires |digits| <= end <= |text| && Ends(text, end, suffix, FloatModifiers())
    ensures FloatEnd(text, Digits(digits, end, true), DecBase, level)
         == Scan(FloatToken(text, end, digits, suffix), end + |suffix|, level)
  {
    FloatSuffix(text, end, suffix);
    PrecisionOf(suffix);
  }

  lemma FloatSuffix(text: string, end: nat, suffix: string)
    requires Ends(text, end, suffix, FloatModifiers())
    ensures SuffixAt(text, end, FloatModifiers(), [], {}) == Suffix(Found(suffix, FloatModifiers()), [], end + |suffix|)
  {
    if suffix != [] { FloatModifiersAre(suffix); }
    assert [] !in FloatModifiers();
    SuffixSpelled(text, end, suffix, FloatModifiers());
  }

  lemma PrecisionOf(suffix: string)
    requires suffix == [] || suffix in FloatModifiers()
    ensures OrElse(Found(suffix, FloatModifiers()), F64) == if suffix == [] then {F64} else {FloatModifiers()[suffix]}
  {
  }

  lemma FloatBase(text: string, it: nat, digits: string, suffix: string)
    requires it < |text| && FloatAt(text, it, digits, suffix)
    ensures BaseOf(text[it], CharAt(text, it + 1)) == DecBase && text[it] == digits[0]
  {
    SpellsAt(text, it, digits);
    FloatEnds(text, it + |digits|, suffix);
    assert text[it] == digits[0] && (|digits| > 1 ==> text[it + 1] == digits[1]);
  }

  lemma FloatDigits(text: string, it: nat, digits: string, suffix: string, float: bool)
    requires FloatAt(text, it, digits, suffix) && float == (digits[0] == '.')
    ensures DigitsAt(text, it, DecBase, [], float) == Digits(digits, it + |digits|, true)
  {
    FloatEnds(text, it + |digits|, suffix);
    DigitsSpelled(text, it, digits, DecBase, float);
    PointSomewhere(digits);
    assert float || '.' in digits[1..];
  }

  lemma PointSomewhere(digits: string)
    requires digits != [] && '.' in digits
    ensures digits[0] == '.' || '.' in digits[1..]
  {
    assert digits == [digits[0]] + digits[1..];
  }

  lemma FloatEnds(text: string, end: nat, suffix: string)
    requires Ends(text, end, suffix, FloatModifiers()) && (suffix == [] ==> CharAt(text, end) != '.')
    ensures !InNumber(DecBase, CharAt(text, end))
  {
    if suffix != [] {
      assert suffix in {"f32", "f64", "d", "l"};
      SpellsAt(text, end, suffix);
      assert CharAt(text, end) == suffix[0];
    }
  }

  /** The language guide gives a byte the suffix b. The lexer does not know it. */
  lemma GuideByteSuffix(text: string, it: nat, digits: string, level: Level)
    requires it + 2 <= |text| && text[it] == '0' && text[it + 1] == 'b' && digits != []
    requires (forall k :: 0 <= k < |digits| ==> InBase(BinBase, digits[k])) && Spells(text, it + 2, digits)
    requires CharAt(text, it + 2 + |digits|) == 'b' && !IsAlnum(CharAt(text, it + 3 + |digits|))
    ensures NumberAt(text, it, level).level == Error
  {
    var end := it + 2 + |digits|;
    DigitsSpelled(text, it + 2, digits, BinBase, false);
    assert '.' !in digits[1..];
    NumberFrom(text, it, BinBase, Digits(digits, end, false), level);
    LetterB(text, end);
  }

  lemma LetterB(text: string, it: nat)
    requires it < |text| && text[it] == 'b' && !IsAlnum(CharAt(text, it + 1))
    ensures SuffixAt(text, it, IntModifiers(), [], {}) == Suffix({}, "b", it + 1)
  {
    assert [] + [text[it]] == "b";
    assert "b" !in IntModifiers();
  }
}
