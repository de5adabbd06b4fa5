/** The expression parser in its own form: a position moved over the tokens, and two
    stacks changed in loops. */
module ExpressionParsers {
  import opened Options
  import opened ExpressionSyntax
  import opened ShuntingYard

  class Parser {
    const tokens: seq<Token>
    var it: nat

    constructor (tokens: seq<Token>)
      ensures this.tokens == tokens && it == 0
    {
      this.tokens := tokens;
      it := 0;
    }

    predicate Valid()
      reads this
    {
      EndsWithEof(tokens) && it <= |tokens|
    }

    method ParseExpression() returns (r: Result)
      requires Valid()
      modifies this
      ensures r == ShuntingYard.ParseExpression(tokens, old(it))
      ensures r.Parsed? ==> Valid() && it == r.next
      decreases |tokens| - it, 3
    {
      hide ParseIdentifier, ParseSubscript, ParseCall, ParseArgs;
      var operators: seq<Operator> := [];
      var operands: seq<Expr> := [];
      var parenCount: nat := 0;
      var begin := it;
      while it < |tokens|
        invariant begin <= it <= |tokens|
        invariant ShuntingYard.ParseExpression(tokens, begin)
               == Loop(tokens, begin, Config(it, Stacks(operators, operands), parenCount))
        decreases |tokens| - it
      {
        ghost var c := Config(it, Stacks(operators, operands), parenCount);
        ghost var step := Step(tokens, begin, c);
        var token := tokens[it];
        if token.ParenOpen? {
          operators := [ParenMarker] + operators;
          it := it + 1;
          parenCount := parenCount + 1;
        } else if token.ParenClose? {
          if parenCount == 0 { break; }
          it := it + 1;
          parenCount := parenCount - 1;
          var ok := false;
          while operators != [] && !ok
            invariant CloseGroup(c.s) == if ok then Closed(Stacks(operators, operands)) else CloseGroup(Stacks(operators, operands))
            decreases |operators|, !ok
          {
            if operators[0] == ParenMarker {
              operators := operators[1..];
              ok := true;
            } else {
              if |operands| < 2 { return Undefined; }
              operands := [Node(operators[0], operands[1], operands[0])] + operands[2..];
              operators := operators[1..];
            }
          }
          if !ok { return Failed; }
        } else if token.OperatorToken? && IsBinaryOperator(token.op) {
          var op := token.op;
          var sign := it == begin || TokenPrecedence(tokens[it - 1]) >= 0;
          if sign && op == Add {
            operators := [Plus] + operators;
          } else if sign && op == Sub {
            operators := [Minus] + operators;
          } else {
            while operators != [] && Closes(op, operators[0])
              invariant Flush(op, c.s) == Flush(op, Stacks(operators, operands))
              decreases |operators|
            {
              if |operands| < 2 { return Undefined; }
              operands := [Node(operators[0], operands[1], operands[0])] + operands[2..];
              operators := operators[1..];
            }
            operators := [op] + operators;
          }
          it := it + 1;
        } else if token.NotToken? {
          operators := [Not] + operators;
          it := it + 1;
        } else if token.Identifier? {
          var e := ParseIdentifierExpression();
          if !e.Parsed? { return e; }
          operands := [e.expr] + operands;
        } else if token.Semicolon? || token.BraceOpen? || token.SqrOpen? || token.Comma? {
          break;
        } else if token.EndOfFile? {
          return Failed;
        } else if token.Literal? {
          operands := [LiteralExpr(token.text)] + operands;
          it := it + 1;
        } else {
          if operators != [] { return Failed; }
          break;
        }
        assert step == Continue(Config(it, Stacks(operators, operands), parenCount));
      }
      ghost var s := Stacks(operators, operands);
      assert ShuntingYard.ParseExpression(tokens, begin) == Finish(s, it);
      while operators != []
        invariant ApplyAll(s) == ApplyAll(Stacks(operators, operands))
        decreases |operators|
      {
        if IsUnaryOperator(operators[0]) {
          if operands == [] { return Failed; }
          operands := [Unary(operators[0], operands[0])] + operands[1..];
        } else {
          if |operands| < 2 { return Failed; }
          operands := [Node(operators[0], operands[1], operands[0])] + operands[2..];
        }
        operators := operators[1..];
      }
      return Parsed(if operands == [] then EmptyExpr else operands[0], it);
    }

    method ParseIdentifierExpression() returns (r: Result)
      requires Valid() && it < |tokens| && tokens[it].Identifier?
      modifies this
      ensures r == ParseIdentifier(tokens, old(it))
      ensures r.Parsed? ==> Valid() && it == r.next
      decreases |tokens| - it, 0
    {
      var name := tokens[it].name;
      it := it + 1;
      if tokens[it].SqrOpen? {
        r := ParseSubscriptExpression(name);
      } else if tokens[it].ParenOpen? {
        r := ParseFunctionCallExpression(name);
      } else {
        r := Parsed(Variable(name), it);
      }
    }

    method ParseSubscriptExpression(name: string) returns (r: Result)
      requires Valid() && it < |tokens| && tokens[it].SqrOpen?
      modifies this
      ensures r == ParseSubscript(tokens, old(it), name)
      ensures r.Parsed? ==> Valid() && it == r.next
      decreases |tokens| - it, 0
    {
      it := it + 1;
      r := ParseExpression();
      if !r.Parsed? { return; }
      if it == |tokens| { return Undefined; }
      if !tokens[it].SqrClose? { return Failed; }
      it := it + 1;
      r := Parsed(Binary(Subscript, Variable(name), r.expr), it);
    }

    method ParseFunctionCallExpression(name: string) returns (r: Result)
      requires Valid() && it < |tokens| && tokens[it].ParenOpen?
      modifies this
      ensures r == ParseCall(tokens, old(it), name)
      ensures r.Parsed? ==> Valid() && it == r.next
      decreases |tokens| - it, 0
    {
      it := it + 1;
      if tokens[it].ParenClose? {
        it := it + 1;
        return Parsed(Call(name, []), it);
      }
      var args: seq<Expr> := [];
      ghost var first := it;
      while !tokens[it].EndOfFile?
        invariant first <= it < |tokens|
        invariant ParseArgs(tokens, first, []) == ParseArgs(tokens, it, args)
        decreases |tokens| - it
      {
        var arg := ParseExpression();
        if !arg.Parsed? { return arg; }
        args := args + [arg.expr];
        if it == |tokens| { return Undefined; }
        if tokens[it].ParenClose? { break; }
        if !tokens[it].Comma? { return Failed; }
        it := it + 1;
      }
      it := it + 1;
      r := Parsed(Call(name, args), it);
    }
  }
}
