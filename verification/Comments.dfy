/** Comments: what the lexer skips, and what a nested comment is. */
module Comments {
  import opened SourceLocations

  datatype Comment = NoComment | CommentTo(stop: nat) | CommentEof

  predicate Opens(text: string, i: nat) {
    CharAt(text, i) == '/' && CharAt(text, i + 1) == '*'
  }

  predicate Closes(text: string, i: nat) {
    CharAt(text, i) == '*' && CharAt(text, i + 1) == '/'
  }

  /** The loop over a block comment with `depth` comments still open. */
  function BlockEnd(text: string, i: nat, depth: nat): (c: Comment)
    requires i <= |text|
    ensures c.CommentTo? ==> i <= c.stop <= |text| && (depth > 0 ==> i < c.stop)
    ensures !c.NoComment?
    decreases |text| - i
  {
    if depth == 0 then CommentTo(i)
    else if i == |text| then CommentEof
    else if Opens(text, i) then BlockEnd(text, i + 2, depth + 1)
    else if Closes(text, i) then BlockEnd(text, i + 2, depth - 1)
    else BlockEnd(text, i + 1, depth)
  }

  lemma BlockStep(text: string, i: nat, depth: nat)
    requires i < |text| && depth > 0
    ensures Opens(text, i) ==> i + 2 <= |text| && BlockEnd(text, i, depth) == BlockEnd(text, i + 2, depth + 1)
    ensures !Opens(text, i) && Closes(text, i) ==> i + 2 <= |text| && BlockEnd(text, i, depth) == BlockEnd(text, i + 2, depth - 1)
    ensures !Opens(text, i) && !Closes(text, i) ==> BlockEnd(text, i, depth) == BlockEnd(text, i + 1, depth)
  {
  }

  /** Past the first line break from i on; the end when there is none, or nothing behind it. */
  function LineCommentEnd(text: string, i: nat): (c: Comment)
    requires i <= |text|
    ensures c.CommentTo? ==> i < c.stop < |text| && text[c.stop - 1] == '\n' && (forall k :: i <= k < c.stop - 1 ==> text[k] != '\n')
    ensures c.CommentEof? ==> forall k :: i <= k < |text| - 1 ==> text[k] != '\n'
    ensures !c.NoComment?
    decreases |text| - i
  {
    if i + 1 >= |text| then CommentEof
    else if text[i] == '\n' then CommentTo(i + 1)
    else LineCommentEnd(text, i + 1)
  }

  /** The comment that starts at i, if one does. */
  function CommentAt(text: string, i: nat): (c: Comment)
    requires i <= |text|
    ensures c.CommentTo? ==> i < c.stop <= |text|
  {
    if CharAt(text, i) == '/' && CharAt(text, i + 1) == '/' then LineCommentEnd(text, i + 2)
    else if Opens(text, i) then BlockEnd(text, i + 2, 1)
    else NoComment
  }

  // The grammar of nested comments: the body of a comment is made of characters that start
  // no mark, and of whole comments.

  datatype Body = Empty | Plain(rest: Body) | Nested(inner: Body, rest: Body)

  datatype Position = Nowhere | At(p: nat)

  /** Where the body ends when it is what the text says from i on. */
  function BodyEnd(text: string, i: nat, b: Body): Position
    decreases b
  {
    match b
    case Empty => At(i)
    case Plain(rest) =>
      if i < |text| && !Opens(text, i) && !Closes(text, i) then BodyEnd(text, i + 1, rest) else Nowhere
    case Nested(inner, rest) =>
      if !Opens(text, i) then Nowhere else
      match BodyEnd(text, i + 2, inner)
      case Nowhere => Nowhere
      case At(j) => if Closes(text, j) then BodyEnd(text, j + 2, rest) else Nowhere
  }

  /** A body and its closing mark take up the text from i to `stop`. */
  ghost predicate ClosedBody(text: string, i: nat, stop: nat, b: Body) {
    exists j: nat :: BodyEnd(text, i, b) == At(j) && Closes(text, j) && stop == j + 2
  }

  lemma {:induction false} BodyIsSkipped(text: string, i: nat, b: Body, j: nat, depth: nat)
    requires i <= |text| && depth > 0 && BodyEnd(text, i, b) == At(j)
    ensures j <= |text| && BlockEnd(text, i, depth) == BlockEnd(text, j, depth)
    decreases b
  {
    match b
    case Empty =>
    case Plain(rest) => BodyIsSkipped(text, i + 1, rest, j, depth);
    case Nested(inner, rest) =>
      var k := BodyEnd(text, i + 2, inner).p;
      BodyIsSkipped(text, i + 2, inner, k, depth + 1);
      BodyIsSkipped(text, k + 2, rest, j, depth);
  }

  /** From a successful scan, the body it went through. */
  lemma {:induction false} BodyOfScan(text: string, i: nat, depth: nat) returns (b: Body, j: nat)
    requires i <= |text| && depth > 0 && BlockEnd(text, i, depth).CommentTo?
    ensures BodyEnd(text, i, b) == At(j) && Closes(text, j) && i <= j && j + 2 <= |text|
    ensures BlockEnd(text, i, depth) == BlockEnd(text, j + 2, depth - 1)
    decreases |text| - i
  {
    if Opens(text, i) {
      var inner, k := BodyOfScan(text, i + 2, depth + 1);
      var rest, l := BodyOfScan(text, k + 2, depth);
      b, j := Nested(inner, rest), l;
      assert BodyEnd(text, i, b) == BodyEnd(text, k + 2, rest);
    } else if Closes(text, i) {
      b, j := Empty, i;
    } else {
      var rest, l := BodyOfScan(text, i + 1, depth);
      b, j := Plain(rest), l;
      assert BodyEnd(text, i, b) == BodyEnd(text, i + 1, rest);
    }
  }

  /** A block comment is skipped to `stop` exactly when the grammar has a comment there; it
      runs into the end of the file exactly when the grammar has none. */
  lemma BlockCommentIff(text: string, i: nat, stop: nat)
    requires i <= |text|
    ensures BlockEnd(text, i, 1) == CommentTo(stop) <==> exists b :: ClosedBody(text, i, stop, b)
    ensures BlockEnd(text, i, 1) == CommentEof <==> forall b, k: nat :: !ClosedBody(text, i, k, b)
  {
    forall b, k: nat | ClosedBody(text, i, k, b) ensures BlockEnd(text, i, 1) == CommentTo(k) {
      BodyIsSkipped(text, i, b, k - 2, 1);
    }
    if BlockEnd(text, i, 1).CommentTo? {
      var b, j := BodyOfScan(text, i, 1);
      assert ClosedBody(text, i, j + 2, b);
    }
  }

  /** What the text says at i decides how a body goes on there. */
  lemma FirstPiece(text: string, i: nat, b: Body, j: nat)
    requires BodyEnd(text, i, b) == At(j) && Closes(text, j)
    ensures b.Empty? ==> j == i && Closes(text, i) && !Opens(text, i)
    ensures b.Plain? ==> !Closes(text, i) && !Opens(text, i) && BodyEnd(text, i + 1, b.rest) == At(j)
    ensures b.Nested? ==> Opens(text, i) && !Closes(text, i)
  {
  }

  /** Where the inner comment's body ends. */
  lemma InnerEnds(text: string, i: nat, b: Body)
    requires b.Nested? && BodyEnd(text, i, b).At?
    ensures BodyEnd(text, i + 2, b.inner).At?
  {
  }

  lemma RestEnds(text: string, i: nat, b: Body, m: nat)
    requires b.Nested? && BodyEnd(text, i, b).At? && BodyEnd(text, i + 2, b.inner) == At(m)
    ensures Closes(text, m) && BodyEnd(text, m + 2, b.rest) == BodyEnd(text, i, b)
  {
  }

  /** The grammar is unambiguous: a comment has one end and one body. */
  lemma {:induction false} OneBody(text: string, i: nat, a: Body, b: Body, j: nat, k: nat)
    requires BodyEnd(text, i, a) == At(j) && Closes(text, j)
    requires BodyEnd(text, i, b) == At(k) && Closes(text, k)
    ensures a == b && j == k
    decreases a, 1
  {
    FirstPiece(text, i, a, j);
    FirstPiece(text, i, b, k);
    if a.Plain? {
      OneBody(text, i + 1, a.rest, b.rest, j, k);
    } else if a.Nested? {
      OneNested(text, i, a, b, j, k);
    }
  }

  lemma {:induction false} OneNested(text: string, i: nat, a: Body, b: Body, j: nat, k: nat)
    requires a.Nested? && BodyEnd(text, i, a) == At(j) && Closes(text, j)
    requires b.Nested? && BodyEnd(text, i, b) == At(k) && Closes(text, k)
    ensures a == b && j == k
    decreases a, 0
  {
    InnerEnds(text, i, a);
    InnerEnds(text, i, b);
    var m, n := BodyEnd(text, i + 2, a.inner).p, BodyEnd(text, i + 2, b.inner).p;
    RestEnds(text, i, a, m);
    RestEnds(text, i, b, n);
    OneBody(text, i + 2, a.inner, b.inner, m, n);
    OneBody(text, m + 2, a.rest, b.rest, j, k);
  }
}
