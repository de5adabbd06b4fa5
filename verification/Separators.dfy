/** What may stand between two tokens, as it is written: blank characters, line comments and
    nested block comments. The lexer skips all of it. */
module Separators {
  import opened SourceLocations
  import opened LexerTables
  import opened Comments
  import opened Scanning
  import opened NumberLiterals

  /** What is inside a block comment: letters, and comments. */
  datatype Inside = Nothing | Letter(c: char, rest: Inside) | Comment(inner: Inside, rest: Inside)

  datatype Piece =
    | Blank(c: char)
    | LineComment(body: string)
    | BlockComment(inside: Inside)

  function InsideText(b: Inside): string {
    match b
    case Nothing => ""
    case Letter(c, rest) => [c] + InsideText(rest)
    case Comment(inner, rest) => "/*" + (InsideText(inner) + ("*/" + InsideText(rest)))
  }

  function PieceText(p: Piece): string {
    match p
    case Blank(c) => [c]
    case LineComment(body) => "//" + (body + "\n")
    case BlockComment(inside) => "/*" + (InsideText(inside) + "*/")
  }

  function GapText(gap: seq<Piece>): string {
    if gap == [] then "" else PieceText(gap[0]) + GapText(gap[1..])
  }

  /** Tab, line feed, vertical tab, form feed, carriage return and space. */
  predicate IsBlank(c: char) {
    c == '\U{9}' || c == '\U{A}' || c == '\U{B}' || c == '\U{C}' || c == '\U{D}' || c == '\U{20}'
  }

  /** The character behind a letter; behind the last one the closing mark begins. */
  function Following(rest: Inside): char {
    match rest
    case Nothing => '*'
    case Letter(c, _) => c
    case Comment(_, _) => '/'
  }

  /** No letter makes a mark with what follows it. */
  predicate NoStrayMark(b: Inside) {
    match b
    case Nothing => true
    case Letter(c, rest) =>
      !(c == '/' && Following(rest) == '*') && !(c == '*' && Following(rest) == '/') && NoStrayMark(rest)
    case Comment(inner, rest) => NoStrayMark(inner) && NoStrayMark(rest)
  }

  predicate IsPiece(p: Piece) {
    match p
    case Blank(c) => IsBlank(c)
    case LineComment(body) => '\n' !in body
    case BlockComment(inside) => NoStrayMark(inside)
  }

  predicate IsGap(gap: seq<Piece>) {
    forall i :: 0 <= i < |gap| ==> IsPiece(gap[i])
  }

  lemma SpellsBoth(text: string, i: nat, a: string, b: string)
    requires Spells(text, i, a + b)
    ensures Spells(text, i, a) && Spells(text, i + |a|, b)
  {
    var s := a + b;
    assert text[i..i + |a|] == text[i..i + |s|][..|a|] == s[..|a|];
    assert text[i + |a|..i + |s|] == text[i..i + |s|][|a|..] == s[|a|..];
  }

  lemma SpellsChar(text: string, i: nat, s: string, k: nat)
    requires Spells(text, i, s) && k < |s|
    ensures text[i + k] == s[k]
  {
    assert text[i..i + |s|][k] == text[i + k];
  }

  /** The same comment in the grammar that says what the scan skips. */
  function AsBody(b: Inside): Body {
    match b
    case Nothing => Empty
    case Letter(_, rest) => Plain(AsBody(rest))
    case Comment(inner, rest) => Nested(AsBody(inner), AsBody(rest))
  }

  lemma InsideBegins(b: Inside)
    ensures (InsideText(b) + "*/")[0] == Following(b)
  {
  }

  lemma SpellsTwo(text: string, i: nat, s: string)
    requires |s| == 2 && Spells(text, i, s)
    ensures CharAt(text, i) == s[0] && CharAt(text, i + 1) == s[1]
  {
    SpellsChar(text, i, s, 0);
    SpellsChar(text, i, s, 1);
  }

  lemma {:induction false} InsideIsBody(text: string, i: nat, b: Inside)
    requires NoStrayMark(b) && Spells(text, i, InsideText(b) + "*/")
    ensures BodyEnd(text, i, AsBody(b)) == At(i + |InsideText(b)|) && Closes(text, i + |InsideText(b)|)
    decreases b, 1
  {
    match b
    case Nothing =>
      assert InsideText(b) + "*/" == "*/";
      SpellsTwo(text, i, "*/");
    case Letter(c, rest) => LetterIsBody(text, i, b);
    case Comment(inner, rest) => CommentIsBody(text, i, b);
  }

  lemma {:induction false} LetterIsBody(text: string, i: nat, b: Inside)
    requires b.Letter? && NoStrayMark(b) && Spells(text, i, InsideText(b) + "*/")
    ensures BodyEnd(text, i, AsBody(b)) == At(i + |InsideText(b)|) && Closes(text, i + |InsideText(b)|)
    decreases b, 0
  {
    hide Spells;
    var y := InsideText(b.rest) + "*/";
    assert InsideText(b) + "*/" == [b.c] + y;
    SpellsBoth(text, i, [b.c], y);
    InsideBegins(b.rest);
    LetterAt(text, i, b.c, y);
    InsideIsBody(text, i + 1, b.rest);
  }

  lemma LetterAt(text: string, i: nat, c: char, y: string)
    requires Spells(text, i, [c]) && Spells(text, i + 1, y) && y != []
    requires !(c == '/' && y[0] == '*') && !(c == '*' && y[0] == '/')
    ensures i < |text| && !Opens(text, i) && !Closes(text, i)
  {
    SpellsChar(text, i, [c], 0);
    SpellsChar(text, i + 1, y, 0);
  }

  lemma {:induction false} CommentIsBody(text: string, i: nat, b: Inside)
    requires b.Comment? && NoStrayMark(b) && Spells(text, i, InsideText(b) + "*/")
    ensures BodyEnd(text, i, AsBody(b)) == At(i + |InsideText(b)|) && Closes(text, i + |InsideText(b)|)
    decreases b, 0
  {
    hide Spells;
    var (x, y) := (InsideText(b.inner) + "*/", InsideText(b.rest) + "*/");
    assert InsideText(b) + "*/" == "/*" + (x + y);
    SpellsBoth(text, i, "/*", x + y);
    SpellsTwo(text, i, "/*");
    SpellsBoth(text, i + 2, x, y);
    InsideIsBody(text, i + 2, b.inner);
    InsideIsBody(text, i + 2 + |x|, b.rest);
  }

  /** Whatever the scan finds from `from` on, it finds from `it` on. */
  predicate SkipsTo(text: string, from: nat, it: nat) {
    from <= it <= |text| && Skip(text, from, NoError) == Skip(text, it, NoError)
  }

  lemma SkipBlank(text: string, it: nat)
    requires it < |text| && IsBlank(text[it])
    ensures SkipsTo(text, it, it + 1)
  {
  }

  lemma {:induction false} LineEnds(text: string, i: nat, end: nat)
    requires i < end <= |text| && text[end - 1] == '\n' && forall k :: i <= k < end - 1 ==> text[k] != '\n'
    ensures LineCommentEnd(text, i) == if end == |text| then CommentEof else CommentTo(end)
    decreases end - i
  {
    if i + 1 < end { LineEnds(text, i + 1, end); }
  }

  lemma SkipLineComment(text: string, it: nat, body: string)
    requires '\n' !in body && Spells(text, it, "//" + (body + "\n"))
    ensures SkipsTo(text, it, it + |body| + 3)
  {
    SpellsBoth(text, it, "//", body + "\n");
    SpellsChar(text, it, "//", 0);
    SpellsChar(text, it, "//", 1);
    SpellsBoth(text, it + 2, body, "\n");
    SpellsChar(text, it + 2 + |body|, "\n", 0);
    forall k | it + 2 <= k < it + 2 + |body| ensures text[k] != '\n' {
      SpellsChar(text, it + 2, body, k - it - 2);
      assert body[k - it - 2] in body;
    }
    LineEnds(text, it + 2, it + |body| + 3);
  }

  lemma SkipBlockComment(text: string, it: nat, inside: Inside)
    requires NoStrayMark(inside) && Spells(text, it, "/*" + (InsideText(inside) + "*/"))
    ensures SkipsTo(text, it, it + |InsideText(inside)| + 4)
  {
    hide Spells, SkipsTo;
    SpellsBoth(text, it, "/*", InsideText(inside) + "*/");
    SpellsTwo(text, it, "/*");
    InsideIsBody(text, it + 2, inside);
    ClosedEnds(text, it + 2, AsBody(inside), it + 2 + |InsideText(inside)|);
    SkipClosed(text, it, it + |InsideText(inside)| + 4);
  }

  lemma ClosedEnds(text: string, i: nat, b: Body, j: nat)
    requires i <= |text| && BodyEnd(text, i, b) == At(j) && Closes(text, j)
    ensures BlockEnd(text, i, 1) == CommentTo(j + 2)
  {
    BodyIsSkipped(text, i, b, j, 1);
    BlockStep(text, j, 1);
  }

  lemma SkipClosed(text: string, it: nat, stop: nat)
    requires it < |text| && Opens(text, it) && BlockEnd(text, it + 2, 1) == CommentTo(stop)
    ensures SkipsTo(text, it, stop)
  {
    hide BlockEnd;
    assert CommentAt(text, it) == CommentTo(stop);
  }

  lemma SkipsNowhere(text: string, it: nat)
    requires Spells(text, it, "")
    ensures SkipsTo(text, it, it)
  {
  }

  lemma SkipsFurther(text: string, a: nat, b: nat, c: nat)
    requires SkipsTo(text, a, b) && SkipsTo(text, b, c)
    ensures SkipsTo(text, a, c)
  {
  }

  lemma PieceIsSkipped(text: string, it: nat, p: Piece)
    requires IsPiece(p) && Spells(text, it, PieceText(p))
    ensures SkipsTo(text, it, it + |PieceText(p)|)
  {
    hide SkipsTo;
    match p {
      case Blank(c) =>
        SpellsChar(text, it, [c], 0);
        SkipBlank(text, it);
      case LineComment(body) => SkipLineComment(text, it, body);
      case BlockComment(inside) => SkipBlockComment(text, it, inside);
    }
  }

  /** Blanks and comments are skipped, however many there are. */
  lemma {:induction false} GapIsSkipped(text: string, it: nat, gap: seq<Piece>)
    requires IsGap(gap) && Spells(text, it, GapText(gap))
    ensures SkipsTo(text, it, it + |GapText(gap)|)
    decreases gap
  {
    hide Spells, SkipsTo, PieceText, IsPiece;
    if gap == [] {
      SkipsNowhere(text, it);
    } else {
      var p := PieceText(gap[0]);
      SpellsBoth(text, it, p, GapText(gap[1..]));
      PieceIsSkipped(text, it, gap[0]);
      GapIsSkipped(text, it + |p|, gap[1..]);
      SkipsFurther(text, it, it + |p|, it + |GapText(gap)|);
    }
  }

  /** A line comment that the end of the file cuts off is skipped without a warning. */
  lemma LineCommentAtEnd(text: string, it: nat, body: string)
    requires it <= |text| && text[it..] == "//" + body && '\n' !in body
    ensures Skip(text, it, NoError) == Ended(NoError)
  {
    assert |text| - it == 2 + |body|;
    assert text[it..][0] == text[it] == '/' && text[it..][1] == text[it + 1] == '/';
    forall k | it + 2 <= k < |text| ensures text[k] != '\n' {
      assert text[it..][k - it] == body[k - it - 2] && body[k - it - 2] in body;
    }
    NoLineEnd(text, it + 2);
  }

  lemma {:induction false} NoLineEnd(text: string, i: nat)
    requires i <= |text| && forall k :: i <= k < |text| ==> text[k] != '\n'
    ensures LineCommentEnd(text, i) == CommentEof
    decreases |text| - i
  {
    if i + 1 < |text| { NoLineEnd(text, i + 1); }
  }

  /** No comment that begins before `i` ends. */
  ghost predicate NeverCloses(text: string, i: nat) {
    forall b: Body, stop: nat :: !ClosedBody(text, i, stop, b)
  }

  /** A block comment without an end runs to the end of the file, with a warning. */
  lemma BlockCommentAtEnd(text: string, it: nat)
    requires Spells(text, it, "/*") && NeverCloses(text, it + 2)
    ensures Skip(text, it, NoError) == Ended(Warning)
  {
    SpellsTwo(text, it, "/*");
    BlockCommentIff(text, it + 2, 0);
  }
}
