/** String and character literals: collecting the characters up to the closing quote, and
    replacing escape sequences. */
module StringLiterals {
  import opened SourceLocations

  const BELL := '\U{7}'
  const BACKSPACE := '\U{8}'
  const VERTICAL_TAB := '\U{B}'
  const FORM_FEED := '\U{C}'

  predicate IsHexDigit(c: char) {
    '0' <= c <= '9' || 'A' <= c <= 'F' || 'a' <= c <= 'f'
  }

  predicate IsOctDigit(c: char) {
    '0' <= c <= '7'
  }

  function DigitValue(c: char): nat
    requires IsHexDigit(c)
  {
    if c <= '9' then c as nat - '0' as nat
    else if c <= 'F' then c as nat - 'A' as nat + 10
    else c as nat - 'a' as nat + 10
  }

  /** static_cast<char>, with characters as octets */
  function Octet(v: nat): char {
    (v % 256) as char
  }

  predicate IsQuote(c: char) {
    c == '"' || c == '\''
  }

  datatype Collected = Collected(buf: string, it: nat, newline: bool)

  /** The loop over the characters behind `it`. A quote right after a single backslash is
      content, and the backslash is dropped. */
  function Collect(text: string, it: nat, quote: char, buf: string): (r: Collected)
    requires it < |text| && IsQuote(quote)
    requires text[it] == '\\' ==> buf != [] && it > 0
    ensures it < r.it <= |text|
    decreases |text| - it
  {
    var i := it + 1;
    if i == |text| then Collected(buf, i, false)
    else if text[i] == '\n' then Collected(buf, i, true)
    else if text[i] != quote then Collect(text, i, quote, buf + [text[i]])
    else if text[it] == '\\' && text[it - 1] != '\\' then Collect(text, i, quote, buf[..|buf| - 1] + [text[i]])
    else Collected(buf, i, false)
  }

  /** What one character or escape sequence stands for, and how many characters it takes up.
      A sequence the lexer does not know stands for nothing. */
  datatype Escaped = Escaped(out: string, taken: nat)

  function EscapeAt(buf: string, i: nat, isChar: bool): (e: Escaped)
    requires i < |buf|
    ensures 0 < e.taken <= |buf| - i && |e.out| <= 1
  {
    if buf[i] != '\\' || i + 1 == |buf| then Escaped([buf[i]], 1)
    else
      match buf[i + 1]
      case '\\' => Escaped("\\", 2)
      case 'n' => Escaped("\n", 2)
      case 't' => Escaped("\t", 2)
      case 'r' => Escaped("\r", 2)
      case 'f' => Escaped([FORM_FEED], 2)
      case 'v' => Escaped([VERTICAL_TAB], 2)
      case 'b' => Escaped([BACKSPACE], 2)
      case 'a' => Escaped([BELL], 2)
      case 'x' => HexAt(buf, i + 2)
      case 'o' => OctAt(buf, i + 2)
      case '"' => Escaped(if isChar then "\\" else "\"", 2)
      case '\'' => Escaped(if isChar then "'" else "\\", 2)
      case _ => Escaped([], 2)
  }

  /** One or two hexadecimal digits behind \x. */
  function HexAt(buf: string, i: nat): (e: Escaped)
    requires 2 <= i <= |buf|
    ensures 0 < e.taken <= |buf| - i + 2 && |e.out| <= 1
  {
    var c, d := CharAt(buf, i), CharAt(buf, i + 1);
    if !IsHexDigit(c) then Escaped([], 2)
    else if !IsHexDigit(d) then Escaped([Octet(DigitValue(c))], 3)
    else Escaped([Octet(16 * DigitValue(c) + DigitValue(d))], 4)
  }

  /** One to three octal digits behind \o. */
  function OctAt(buf: string, i: nat): (e: Escaped)
    requires 2 <= i <= |buf|
    ensures 0 < e.taken <= |buf| - i + 2 && |e.out| <= 1
  {
    var c, d, f := CharAt(buf, i), CharAt(buf, i + 1), CharAt(buf, i + 2);
    if !IsOctDigit(c) then Escaped([], 2)
    else if !IsOctDigit(d) then Escaped([Octet(DigitValue(c))], 3)
    else if !IsOctDigit(f) then Escaped([Octet(8 * DigitValue(c) + DigitValue(d))], 4)
    else Escaped([Octet(8 * (8 * DigitValue(c) + DigitValue(d)) + DigitValue(f))], 5)
  }

  datatype Unescaped = Unescaped(value: string, warned: bool)

  function Unescape(buf: string, isChar: bool): (r: Unescaped)
    ensures |r.value| <= |buf|
  {
    if buf == [] then Unescaped([], false) else
    var e := EscapeAt(buf, 0, isChar);
    var rest := Unescape(buf[e.taken..], isChar);
    Unescaped(e.out + rest.value, e.out == [] || rest.warned)
  }

  /** Escape sequences do not depend on what comes before them. */
  lemma EscapeInTail(buf: string, i: nat, isChar: bool)
    requires i < |buf|
    ensures EscapeAt(buf[i..], 0, isChar) == EscapeAt(buf, i, isChar)
  {
    var tail := buf[i..];
    assert CharAt(tail, 0) == CharAt(buf, i) && CharAt(tail, 1) == CharAt(buf, i + 1) && CharAt(tail, 2) == CharAt(buf, i + 2);
    assert CharAt(tail, 3) == CharAt(buf, i + 3) && CharAt(tail, 4) == CharAt(buf, i + 4);
  }

  /** One round of replacing escape sequences. */
  lemma UnescapeFrom(buf: string, i: nat, isChar: bool)
    requires i < |buf|
    ensures var e := EscapeAt(buf, i, isChar); var rest := Unescape(buf[i + e.taken..], isChar);
      Unescape(buf[i..], isChar) == Unescaped(e.out + rest.value, e.out == [] || rest.warned)
  {
    var e := EscapeAt(buf, i, isChar);
    EscapeInTail(buf, i, isChar);
    assert buf[i..][e.taken..] == buf[i + e.taken..];
  }

  datatype Literal = Literal(value: string, stop: nat, unclosed: bool, warned: bool)

  function QuoteOf(isChar: bool): char {
    if isChar then '\'' else '"'
  }

  /** The literal whose opening quote is at `it`. */
  function LiteralAt(text: string, it: nat, isChar: bool): (r: Literal)
    requires it < |text| && text[it] == QuoteOf(isChar)
    ensures it < r.stop <= |text|
  {
    var c := Collect(text, it, QuoteOf(isChar), []);
    var u := Unescape(c.buf, isChar);
    Literal(u.value, if c.it < |text| then c.it + 1 else c.it, c.newline, u.warned)
  }

  // Writing literals.

  function EscapeChar(c: char, quote: char): (e: string)
    ensures 1 <= |e| <= 2
  {
    if c == '\\' then "\\\\"
    else if c == quote then ['\\', quote]
    else if c == '\n' then "\\n"
    else if c == '\t' then "\\t"
    else if c == '\r' then "\\r"
    else if c == FORM_FEED then "\\f"
    else if c == VERTICAL_TAB then "\\v"
    else if c == BACKSPACE then "\\b"
    else if c == BELL then "\\a"
    else [c]
  }

  function Escape(s: string, quote: char): string {
    if s == [] then [] else EscapeChar(s[0], quote) + Escape(s[1..], quote)
  }

  /** What of an escaped character is collected: quotes have lost their backslash. */
  function KeptChar(c: char, quote: char): string {
    if c == quote then [quote] else EscapeChar(c, quote)
  }

  function Kept(s: string, quote: char): string {
    if s == [] then [] else KeptChar(s[0], quote) + Kept(s[1..], quote)
  }

  /** No backslash right before a quote. */
  predicate Separate(s: string, quote: char) {
    |s| >= 2 ==> !(s[0] == '\\' && s[1] == quote) && Separate(s[1..], quote)
  }

  lemma SeparateMeans(s: string, quote: char)
    ensures Separate(s, quote) <==> forall i :: 0 < i < |s| ==> !(s[i - 1] == '\\' && s[i] == quote)
  {
    if |s| >= 2 {
      SeparateMeans(s[1..], quote);
      if Separate(s, quote) {
        forall i | 0 < i < |s| ensures !(s[i - 1] == '\\' && s[i] == quote) {
          if i > 1 { assert !(s[1..][i - 2] == '\\' && s[1..][i - 1] == quote); }
        }
      } else if Separate(s[1..], quote) {
        assert s[1 - 1] == '\\' && s[1] == quote;
      } else {
        var i :| 0 < i < |s[1..]| && s[1..][i - 1] == '\\' && s[1..][i] == quote;
        assert s[i + 1 - 1] == '\\' && s[i + 1] == quote;
      }
    }
  }

  /** The text behind `it` begins with e. */
  predicate Follows(text: string, it: nat, e: string) {
    it + |e| < |text| && forall k :: 0 <= k < |e| ==> e[k] == text[it + 1 + k]
  }

  lemma FollowsSplit(text: string, it: nat, a: string, b: string)
    requires Follows(text, it, a + b)
    ensures Follows(text, it, a) && Follows(text, it + |a|, b)
  {
    forall k | 0 <= k < |a| ensures a[k] == text[it + 1 + k] { assert (a + b)[k] == a[k]; }
    forall k | 0 <= k < |b| ensures b[k] == text[it + |a| + 1 + k] { assert (a + b)[|a| + k] == b[k]; }
  }

  /** A backslash at `it` is the second of two. */
  predicate Settled(text: string, it: nat, buf: string) {
    it < |text| && (text[it] == '\\' ==> it > 0 && text[it - 1] == '\\' && buf != [])
  }

  /** Collecting from `it` on is collecting from i on, with more in the buffer. */
  predicate RunsTo(text: string, it: nat, quote: char, buf: string, i: nat, kept: string)
    requires IsQuote(quote) && Settled(text, it, buf)
  {
    Settled(text, i, kept) && Collect(text, it, quote, buf) == Collect(text, i, quote, kept)
  }

  lemma CollectChar(text: string, it: nat, quote: char, buf: string, c: char)
    requires IsQuote(quote) && Settled(text, it, buf) && Follows(text, it, EscapeChar(c, quote))
    requires c == quote ==> text[it] != '\\'
    ensures RunsTo(text, it, quote, buf, it + |EscapeChar(c, quote)|, buf + KeptChar(c, quote))
    ensures text[it + |EscapeChar(c, quote)|] == '\\' <==> c == '\\'
  {
    var e := EscapeChar(c, quote);
    assert e[0] == text[it + 1];
    if |e| == 1 {
      assert e == [c];
    } else {
      assert e[1] == text[it + 2];
      var b1 := buf + [e[0]];
      assert Collect(text, it, quote, buf) == Collect(text, it + 1, quote, b1);
      if c == quote {
        assert b1[..|b1| - 1] == buf;
      } else {
        assert b1 + [e[1]] == buf + e;
      }
    }
  }

  lemma RunsOn(text: string, it: nat, quote: char, buf: string, i: nat, b1: string, j: nat, b2: string)
    requires IsQuote(quote) && Settled(text, it, buf)
    requires RunsTo(text, it, quote, buf, i, b1) && RunsTo(text, i, quote, b1, j, b2)
    ensures RunsTo(text, it, quote, buf, j, b2)
  {
  }

  lemma Regroup(a: string, b: string, c: string)
    ensures a + b + c == a + (b + c)
  {
  }

  lemma {:induction false} CollectEscaped(text: string, it: nat, quote: char, buf: string, s: string)
    requires IsQuote(quote) && Settled(text, it, buf) && Follows(text, it, Escape(s, quote))
    requires Separate(s, quote) && (s != [] && s[0] == quote ==> text[it] != '\\')
    ensures RunsTo(text, it, quote, buf, it + |Escape(s, quote)|, buf + Kept(s, quote))
    decreases s
  {
    if s == [] {
      assert buf + [] == buf;
    } else {
      var e, k := EscapeChar(s[0], quote), KeptChar(s[0], quote);
      FollowsSplit(text, it, e, Escape(s[1..], quote));
      CollectChar(text, it, quote, buf, s[0]);
      var i, b1 := it + |e|, buf + k;
      CollectEscaped(text, i, quote, b1, s[1..]);
      RunsOn(text, it, quote, buf, i, b1, i + |Escape(s[1..], quote)|, b1 + Kept(s[1..], quote));
      Regroup(buf, k, Kept(s[1..], quote));
    }
  }

  lemma UnescapeChar(c: char, rest: string, isChar: bool)
    ensures var k := KeptChar(c, QuoteOf(isChar)); EscapeAt(k + rest, 0, isChar) == Escaped([c], |k|)
  {
  }

  lemma {:induction false} UnescapeKept(s: string, isChar: bool)
    ensures Unescape(Kept(s, QuoteOf(isChar)), isChar) == Unescaped(s, false)
  {
    if s != [] {
      var k, rest := KeptChar(s[0], QuoteOf(isChar)), Kept(s[1..], QuoteOf(isChar));
      UnescapeKept(s[1..], isChar);
      UnescapeChar(s[0], rest, isChar);
      assert (k + rest)[|k|..] == rest;
    }
  }

  /** When a backslash is right before a quote, that quote ends the literal. */
  lemma {:induction false} CollectStopsEarly(text: string, it: nat, quote: char, buf: string, s: string)
    requires IsQuote(quote) && Settled(text, it, buf) && Follows(text, it, Escape(s, quote))
    requires !Separate(s, quote) && (s != [] && s[0] == quote ==> text[it] != '\\')
    ensures Collect(text, it, quote, buf).it <= it + |Escape(s, quote)|
    decreases s
  {
    var e, rest := EscapeChar(s[0], quote), Escape(s[1..], quote);
    FollowsSplit(text, it, e, rest);
    CollectChar(text, it, quote, buf, s[0]);
    var i, kept := it + |e|, buf + KeptChar(s[0], quote);
    if s[0] == '\\' && s[1] == quote {
      var q := EscapeChar(quote, quote);
      FollowsSplit(text, i, q, Escape(s[2..], quote));
      assert q[0] == text[i + 1] && q[1] == text[i + 2];
      assert Collect(text, i, quote, kept) == Collect(text, i + 1, quote, kept + ['\\']);
    } else {
      CollectStopsEarly(text, i, quote, kept, s[1..]);
    }
  }

  lemma CollectWritten(text: string, it: nat, quote: char, s: string)
    requires IsQuote(quote) && it < |text| && text[it] == quote && Follows(text, it, Escape(s, quote) + [quote])
    requires Separate(s, quote)
    ensures Collect(text, it, quote, []) == Collected(Kept(s, quote), it + |Escape(s, quote)| + 1, false)
  {
    FollowsSplit(text, it, Escape(s, quote), [quote]);
    CollectEscaped(text, it, quote, [], s);
    var i := it + |Escape(s, quote)|;
    assert [quote][0] == text[i + 1];
    assert [] + Kept(s, quote) == Kept(s, quote);
    CollectCloses(text, i, quote, Kept(s, quote));
  }

  lemma CollectCloses(text: string, i: nat, quote: char, kept: string)
    requires IsQuote(quote) && Settled(text, i, kept) && i + 1 < |text| && text[i + 1] == quote
    ensures Collect(text, i, quote, kept) == Collected(kept, i + 1, false)
  {
  }

  /** A written literal is read back, up to just past its closing quote, if and only if its
      content has no backslash right before a quote. */
  lemma LiteralRoundTrip(text: string, it: nat, isChar: bool, s: string)
    requires it < |text| && text[it] == QuoteOf(isChar)
    requires Follows(text, it, Escape(s, QuoteOf(isChar)) + [QuoteOf(isChar)])
    ensures LiteralAt(text, it, isChar) == Literal(s, it + |Escape(s, QuoteOf(isChar))| + 2, false, false)
       <==> Separate(s, QuoteOf(isChar))
  {
    var quote := QuoteOf(isChar);
    if Separate(s, quote) {
      CollectWritten(text, it, quote, s);
      UnescapeKept(s, isChar);
    } else {
      FollowsSplit(text, it, Escape(s, quote), [quote]);
      CollectStopsEarly(text, it, quote, [], s);
    }
  }

  /** The shortest content that does not come back: a backslash and a quote. */
  lemma BackslashQuoteIsCut()
    ensures LiteralAt("\"\\\\\\\"\"", 0, false) != Literal("\\\"", 6, false, false)
  {
    var text := "\"\\\\\\\"\"";
    assert Escape("\\\"", '"') == "\\\\\\\"" by {
      assert "\\\""[1..] == "\"";
      assert "\""[1..] == "";
    }
    LiteralRoundTrip(text, 0, false, "\\\"");
  }

  // Where any literal ends, and what it holds.

  /** One backslash, and not two, stands right before i. */
  predicate Escaping(text: string, i: nat)
    requires i <= |text|
  {
    i >= 2 && text[i - 1] == '\\' && text[i - 2] != '\\'
  }

  /** A line break or an unescaped quote. */
  predicate IsEnd(text: string, i: nat, quote: char)
    requires i < |text|
  {
    text[i] == '\n' || (text[i] == quote && !Escaping(text, i))
  }

  /** `end` is the first such place behind `it`, or the end of the text. */
  predicate FirstEnd(text: string, it: nat, quote: char, end: nat) {
    it < end <= |text| && (end < |text| ==> IsEnd(text, end, quote)) && forall k :: it < k < end ==> !IsEnd(text, k, quote)
  }

  /** The characters from i on to `end`, without the backslashes that escape a quote. */
  function Content(text: string, i: nat, end: nat, quote: char): string
    requires i <= end <= |text|
    decreases end - i
  {
    if i == end then []
    else if i + 1 < end && text[i + 1] == quote && Escaping(text, i + 1) then Content(text, i + 1, end, quote)
    else [text[i]] + Content(text, i + 1, end, quote)
  }

  lemma {:induction false} CollectEnds(text: string, it: nat, quote: char, buf: string)
    requires it < |text| && IsQuote(quote) && (text[it] == '\\' ==> buf != [] && it > 0)
    ensures var r := Collect(text, it, quote, buf);
      FirstEnd(text, it, quote, r.it) && (r.newline <==> r.it < |text| && text[r.it] == '\n')
    decreases |text| - it
  {
    var i := it + 1;
    if i < |text| && !IsEnd(text, i, quote) {
      CollectEnds(text, i, quote, if text[i] == quote then buf[..|buf| - 1] + [text[i]] else buf + [text[i]]);
    }
  }

  lemma {:induction false} CollectContent(text: string, it: nat, quote: char, buf: string, end: nat)
    requires it < |text| && IsQuote(quote) && (text[it] == '\\' ==> buf != [] && it > 0)
    requires end == Collect(text, it, quote, buf).it
    ensures Collect(text, it, quote, buf).buf ==
      (if it + 1 < end && text[it + 1] == quote then buf[..|buf| - 1] else buf) + Content(text, it + 1, end, quote)
    decreases |text| - it
  {
    var i := it + 1;
    if i < |text| && !IsEnd(text, i, quote) {
      var b := if text[i] == quote then buf[..|buf| - 1] else buf;
      CollectContent(text, i, quote, b + [text[i]], end);
      if i + 1 < end && text[i + 1] == quote {
        CollectEnds(text, i, quote, b + [text[i]]);
        assert !IsEnd(text, i + 1, quote);
        assert (b + [text[i]])[..|b|] == b;
      } else {
        assert b + [text[i]] + Content(text, i + 1, end, quote) == b + Content(text, i, end, quote);
      }
    }
  }

  /** Every literal ends at the first line break or unescaped quote behind the opening one, or at
      the end of the text; what it holds is the characters up to there. */
  lemma LiteralEnds(text: string, it: nat, isChar: bool) returns (end: nat)
    requires it < |text| && text[it] == QuoteOf(isChar)
    ensures FirstEnd(text, it, QuoteOf(isChar), end)
    ensures var r := LiteralAt(text, it, isChar);
      r.stop == (if end < |text| then end + 1 else end)
      && (r.unclosed <==> end < |text| && text[end] == '\n')
      && r.value == Unescape(Content(text, it + 1, end, QuoteOf(isChar)), isChar).value
  {
    var quote := QuoteOf(isChar);
    end := Collect(text, it, quote, []).it;
    CollectEnds(text, it, quote, []);
    CollectContent(text, it, quote, [], end);
    assert it + 1 < end ==> !IsEnd(text, it + 1, quote);
    assert [] + Content(text, it + 1, end, quote) == Content(text, it + 1, end, quote);
  }

  /** So a literal is reported if and only if a line break comes behind its opening quote before
      any unescaped quote. One that the end of the file cuts off is not. */
  lemma UnclosedIff(text: string, it: nat, isChar: bool)
    requires it < |text| && text[it] == QuoteOf(isChar)
    ensures LiteralAt(text, it, isChar).unclosed <==>
      exists n :: it < n < |text| && text[n] == '\n'
        && forall k :: it < k < n ==> text[k] == QuoteOf(isChar) ==> Escaping(text, k)
    ensures (forall k :: it < k < |text| ==> !IsEnd(text, k, QuoteOf(isChar)))
      ==> !LiteralAt(text, it, isChar).unclosed && LiteralAt(text, it, isChar).stop == |text|
  {
    var quote := QuoteOf(isChar);
    var end := LiteralEnds(text, it, isChar);
    if n :| it < n < |text| && text[n] == '\n' && forall k :: it < k < n ==> text[k] == quote ==> Escaping(text, k) {
      assert IsEnd(text, n, quote) && end <= n;
    }
    if end < |text| && text[end] == '\n' {
      forall k | it < k < end && text[k] == quote ensures Escaping(text, k) { assert !IsEnd(text, k, quote); }
    }
  }
}
