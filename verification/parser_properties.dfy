/**
 * Properties of the reference parser: how operators group, which inputs
 * an expression production rejects, what error recovery does to a body,
 * and exactly when the top-level loop stops making progress.
 */
module ParserProperties {
  import opened Wrappers
  import opened Tokens
  import opened Types
  import opened Ast
  import opened ParserSpec

  /** A token that parses as a primary expression on its own. */
  predicate IsAtom(t: Token) {
    t.kind == Ident || t.kind == Number
  }

  /** A token at which no binary-operator loop continues. */
  predicate EndsExpression(t: Token) {
    t.kind !in ComparisonOps && t.kind !in AdditionOps && t.kind !in FactorOps
  }

  // ----- grouping of operators -----

  /** From `pos` on: `n` pairs of an operator from `ops` and an atom, then a token that ends the expression. */
  predicate OperatorTail(toks: seq<Token>, pos: nat, n: nat, ops: set<TokenKind>)
    decreases n
  {
    if n == 0 then pos < |toks| && EndsExpression(toks[pos])
    else
      && pos + 1 < |toks|
      && toks[pos].kind in ops
      && IsAtom(toks[pos + 1])
      && OperatorTail(toks, pos + 2, n - 1, ops)
  }

  /** The tree that groups the pairs of an operator tail to the left of `acc`: `((acc op a) op b) ...`. */
  function GroupLeft(acc: Expr, toks: seq<Token>, pos: nat, n: nat, ops: set<TokenKind>): Expr
    requires OperatorTail(toks, pos, n, ops)
    decreases n
  {
    if n == 0 then acc
    else GroupLeft(BinExpr(acc, toks[pos], MakePrimary(toks[pos + 1])), toks, pos + 2, n - 1, ops)
  }

  /** The factor loop groups a chain of `*` and `/` to the left. */
  lemma {:induction false} FactorLoopGroupsLeft(toks: seq<Token>, acc: Expr, pos: nat, n: nat)
    requires WellFormed(toks) && OperatorTail(toks, pos, n, FactorOps)
    ensures FactorLoop(toks, acc, pos) == Out(Ok(GroupLeft(acc, toks, pos, n, FactorOps)), pos + 2 * n)
    decreases n
  {
    if n > 0 {
      var b := MakePrimary(toks[pos + 1]);
      assert ParseUnary(toks, pos + 1) == Out(Ok(b), pos + 2);
      FactorLoopGroupsLeft(toks, BinExpr(acc, toks[pos], b), pos + 2, n - 1);
    }
  }

  /** `a * b / c * d ...` parses as `((a * b) / c) * d ...`: factor operators associate to the left. */
  lemma FactorIsLeftAssociative(toks: seq<Token>, pos: nat, n: nat)
    requires WellFormed(toks) && pos < |toks| && IsAtom(toks[pos]) && OperatorTail(toks, pos + 1, n, FactorOps)
    ensures ParseFactor(toks, pos) ==
      Out(Ok(GroupLeft(MakePrimary(toks[pos]), toks, pos + 1, n, FactorOps)), pos + 1 + 2 * n)
  {
    assert ParseUnary(toks, pos) == Out(Ok(MakePrimary(toks[pos])), pos + 1);
    FactorLoopGroupsLeft(toks, MakePrimary(toks[pos]), pos + 1, n);
  }

  /** The addition loop groups a chain of additive operators to the left. */
  lemma {:induction false} AdditionLoopGroupsLeft(toks: seq<Token>, acc: Expr, pos: nat, n: nat)
    requires WellFormed(toks) && OperatorTail(toks, pos, n, AdditionOps)
    ensures AdditionLoop(toks, acc, pos) == Out(Ok(GroupLeft(acc, toks, pos, n, AdditionOps)), pos + 2 * n)
    decreases n
  {
    if n > 0 {
      var b := MakePrimary(toks[pos + 1]);
      assert ParseUnary(toks, pos + 1) == Out(Ok(b), pos + 2);
      assert toks[pos + 2].kind !in FactorOps by {
        if n - 1 > 0 {
          assert toks[pos + 2].kind in AdditionOps;
        }
      }
      assert ParseFactor(toks, pos + 1) == Out(Ok(b), pos + 2);
      AdditionLoopGroupsLeft(toks, BinExpr(acc, toks[pos], b), pos + 2, n - 1);
    }
  }

  /** `a - b + c - d ...` parses as `((a - b) + c) - d ...`: additive operators associate to the left. */
  lemma AdditionIsLeftAssociative(toks: seq<Token>, pos: nat, n: nat)
    requires WellFormed(toks) && pos < |toks| && IsAtom(toks[pos]) && OperatorTail(toks, pos + 1, n, AdditionOps)
    ensures ParseAddition(toks, pos) ==
      Out(Ok(GroupLeft(MakePrimary(toks[pos]), toks, pos + 1, n, AdditionOps)), pos + 1 + 2 * n)
  {
    var a := MakePrimary(toks[pos]);
    assert toks[pos + 1].kind !in FactorOps by {
      if n > 0 {
        assert toks[pos + 1].kind in AdditionOps;
      }
    }
    assert ParseFactor(toks, pos) == Out(Ok(a), pos + 1);
    AdditionLoopGroupsLeft(toks, a, pos + 1, n);
  }

  /** An atom followed by a comparison operator, or by the end of the expression, is a whole addition. */
  lemma AtomIsAddition(toks: seq<Token>, p: nat)
    requires WellFormed(toks) && p + 1 < |toks| && IsAtom(toks[p])
    requires toks[p + 1].kind in ComparisonOps || EndsExpression(toks[p + 1])
    ensures ParseAddition(toks, p) == Out(Ok(MakePrimary(toks[p])), p + 1)
  {
    assert ParseUnary(toks, p) == Out(Ok(MakePrimary(toks[p])), p + 1);
    assert ParseFactor(toks, p) == Out(Ok(MakePrimary(toks[p])), p + 1);
  }

  /** The comparison loop groups a chain of `<`, `>`, `<=` and `>=` to the left. */
  lemma {:induction false} ComparisonLoopGroupsLeft(toks: seq<Token>, acc: Expr, pos: nat, n: nat)
    requires WellFormed(toks) && OperatorTail(toks, pos, n, ComparisonOps)
    ensures ComparisonLoop(toks, acc, pos) == Out(Ok(GroupLeft(acc, toks, pos, n, ComparisonOps)), pos + 2 * n)
    decreases n
  {
    if n > 0 {
      var b := MakePrimary(toks[pos + 1]);
      assert pos + 2 < |toks| by {
        if n - 1 > 0 {
          assert pos + 3 < |toks|;
        }
      }
      AtomIsAddition(toks, pos + 1);
      ComparisonLoopGroupsLeft(toks, BinExpr(acc, toks[pos], b), pos + 2, n - 1);
    }
  }

  /**
   * `a < b < c ...` parses as `(a < b) < c ...`: comparisons associate to
   * the left, and a chain of them is a whole expression.
   */
  lemma ComparisonIsLeftAssociative(toks: seq<Token>, pos: nat, n: nat)
    requires WellFormed(toks) && pos < |toks| && IsAtom(toks[pos]) && OperatorTail(toks, pos + 1, n, ComparisonOps)
    ensures ParseComparison(toks, pos) ==
      Out(Ok(GroupLeft(MakePrimary(toks[pos]), toks, pos + 1, n, ComparisonOps)), pos + 1 + 2 * n)
    ensures n > 0 ==> ParseExpr(toks, pos) == ParseComparison(toks, pos)
  {
    AtomIsAddition(toks, pos);
    ComparisonLoopGroupsLeft(toks, MakePrimary(toks[pos]), pos + 1, n);
  }

  /** An atom that no factor operator follows is a whole factor. */
  lemma AtomIsFactor(toks: seq<Token>, p: nat)
    requires WellFormed(toks) && p + 1 < |toks| && IsAtom(toks[p]) && toks[p + 1].kind !in FactorOps
    ensures ParseFactor(toks, p) == Out(Ok(MakePrimary(toks[p])), p + 1)
  {
    assert ParseUnary(toks, p) == Out(Ok(MakePrimary(toks[p])), p + 1);
  }

  /** `a + b * c` parses as `a + (b * c)`: a factor operator binds tighter than an additive one. */
  lemma FactorBindsTighterThanAddition(toks: seq<Token>, pos: nat)
    requires WellFormed(toks) && pos + 5 < |toks|
    requires IsAtom(toks[pos]) && IsAtom(toks[pos + 2]) && IsAtom(toks[pos + 4])
    requires toks[pos + 1].kind in AdditionOps && toks[pos + 3].kind in FactorOps
    requires EndsExpression(toks[pos + 5])
    ensures ParseExpr(toks, pos) ==
      Out(Ok(BinExpr(MakePrimary(toks[pos]), toks[pos + 1],
                     BinExpr(MakePrimary(toks[pos + 2]), toks[pos + 3], MakePrimary(toks[pos + 4])))), pos + 5)
  {
    var a, b, c := MakePrimary(toks[pos]), MakePrimary(toks[pos + 2]), MakePrimary(toks[pos + 4]);
    AtomIsFactor(toks, pos);
    assert ParseUnary(toks, pos + 4) == Out(Ok(c), pos + 5);
    assert FactorLoop(toks, b, pos + 3) == Out(Ok(BinExpr(b, toks[pos + 3], c)), pos + 5);
    var bc := BinExpr(b, toks[pos + 3], c);
    assert ParseFactor(toks, pos + 2) == Out(Ok(bc), pos + 5);
    assert AdditionLoop(toks, BinExpr(a, toks[pos + 1], bc), pos + 5) == Out(Ok(BinExpr(a, toks[pos + 1], bc)), pos + 5);
    assert AdditionLoop(toks, a, pos + 1) == Out(Ok(BinExpr(a, toks[pos + 1], bc)), pos + 5);
    assert ParseAddition(toks, pos) == Out(Ok(BinExpr(a, toks[pos + 1], bc)), pos + 5);
    assert ParseComparison(toks, pos) == Out(Ok(BinExpr(a, toks[pos + 1], bc)), pos + 5);
  }

  /** `a * b + c` parses as `(a * b) + c`. */
  lemma FactorGroupsBeforeAddition(toks: seq<Token>, pos: nat)
    requires WellFormed(toks) && pos + 5 < |toks|
    requires IsAtom(toks[pos]) && IsAtom(toks[pos + 2]) && IsAtom(toks[pos + 4])
    requires toks[pos + 1].kind in FactorOps && toks[pos + 3].kind in AdditionOps
    requires EndsExpression(toks[pos + 5])
    ensures ParseExpr(toks, pos) ==
      Out(Ok(BinExpr(BinExpr(MakePrimary(toks[pos]), toks[pos + 1], MakePrimary(toks[pos + 2])),
                     toks[pos + 3], MakePrimary(toks[pos + 4]))), pos + 5)
  {
    var a, b, c := MakePrimary(toks[pos]), MakePrimary(toks[pos + 2]), MakePrimary(toks[pos + 4]);
    assert ParseUnary(toks, pos + 2) == Out(Ok(b), pos + 3);
    assert FactorLoop(toks, a, pos + 1) == Out(Ok(BinExpr(a, toks[pos + 1], b)), pos + 3);
    assert ParseFactor(toks, pos) == Out(Ok(BinExpr(a, toks[pos + 1], b)), pos + 3);
    AtomIsFactor(toks, pos + 4);
    var ab := BinExpr(a, toks[pos + 1], b);
    assert AdditionLoop(toks, BinExpr(ab, toks[pos + 3], c), pos + 5) == Out(Ok(BinExpr(ab, toks[pos + 3], c)), pos + 5);
    assert AdditionLoop(toks, ab, pos + 3) == Out(Ok(BinExpr(ab, toks[pos + 3], c)), pos + 5);
    assert ParseAddition(toks, pos) == Out(Ok(BinExpr(ab, toks[pos + 3], c)), pos + 5);
    assert ParseComparison(toks, pos) == Out(Ok(BinExpr(ab, toks[pos + 3], c)), pos + 5);
  }

  /** `a < b + c` parses as `a < (b + c)`: an additive operator binds tighter than a comparison. */
  lemma AdditionBindsTighterThanComparison(toks: seq<Token>, pos: nat)
    requires WellFormed(toks) && pos + 5 < |toks|
    requires IsAtom(toks[pos]) && IsAtom(toks[pos + 2]) && IsAtom(toks[pos + 4])
    requires toks[pos + 1].kind in ComparisonOps && toks[pos + 3].kind in AdditionOps
    requires EndsExpression(toks[pos + 5])
    ensures ParseExpr(toks, pos) ==
      Out(Ok(BinExpr(MakePrimary(toks[pos]), toks[pos + 1],
                     BinExpr(MakePrimary(toks[pos + 2]), toks[pos + 3], MakePrimary(toks[pos + 4])))), pos + 5)
  {
    var a, b, c := MakePrimary(toks[pos]), MakePrimary(toks[pos + 2]), MakePrimary(toks[pos + 4]);
    AtomIsFactor(toks, pos);
    assert ParseAddition(toks, pos) == Out(Ok(a), pos + 1);
    var bc := BinExpr(b, toks[pos + 3], c);
    assert OperatorTail(toks, pos + 3, 1, AdditionOps) by {
      assert OperatorTail(toks, pos + 5, 0, AdditionOps);
    }
    AdditionIsLeftAssociative(toks, pos + 2, 1);
    assert ParseAddition(toks, pos + 2) == Out(Ok(bc), pos + 5);
    assert ComparisonLoop(toks, BinExpr(a, toks[pos + 1], bc), pos + 5) == Out(Ok(BinExpr(a, toks[pos + 1], bc)), pos + 5);
    assert ComparisonLoop(toks, a, pos + 1) == Out(Ok(BinExpr(a, toks[pos + 1], bc)), pos + 5);
    assert ParseComparison(toks, pos) == Out(Ok(BinExpr(a, toks[pos + 1], bc)), pos + 5);
  }

  /** `a + b < c` parses as `(a + b) < c`: the addition is complete before the comparison takes it. */
  lemma AdditionGroupsBeforeComparison(toks: seq<Token>, pos: nat)
    requires WellFormed(toks) && pos + 5 < |toks|
    requires IsAtom(toks[pos]) && IsAtom(toks[pos + 2]) && IsAtom(toks[pos + 4])
    requires toks[pos + 1].kind in AdditionOps && toks[pos + 3].kind in ComparisonOps
    requires EndsExpression(toks[pos + 5])
    ensures ParseExpr(toks, pos) ==
      Out(Ok(BinExpr(BinExpr(MakePrimary(toks[pos]), toks[pos + 1], MakePrimary(toks[pos + 2])),
                     toks[pos + 3], MakePrimary(toks[pos + 4]))), pos + 5)
  {
    var a, b, c := MakePrimary(toks[pos]), MakePrimary(toks[pos + 2]), MakePrimary(toks[pos + 4]);
    var ab := BinExpr(a, toks[pos + 1], b);
    AtomIsFactor(toks, pos);
    AtomIsFactor(toks, pos + 2);
    assert AdditionLoop(toks, ab, pos + 3) == Out(Ok(ab), pos + 3);
    assert ParseAddition(toks, pos) == Out(Ok(ab), pos + 3);
    AtomIsAddition(toks, pos + 4);
    assert ComparisonLoop(toks, BinExpr(ab, toks[pos + 3], c), pos + 5) == Out(Ok(BinExpr(ab, toks[pos + 3], c)), pos + 5);
    assert ComparisonLoop(toks, ab, pos + 3) == Out(Ok(BinExpr(ab, toks[pos + 3], c)), pos + 5);
    assert ParseComparison(toks, pos) == Out(Ok(BinExpr(ab, toks[pos + 3], c)), pos + 5);
  }

  /** The factor loop stops only at a token that is no `*` or `/`. */
  lemma {:induction false} FactorLoopStops(toks: seq<Token>, acc: Expr, pos: nat)
    requires WellFormed(toks) && pos < |toks|
    ensures var r := FactorLoop(toks, acc, pos); r.result.Ok? ==> toks[r.next].kind !in FactorOps
    decreases |toks| - pos
  {
    if toks[pos].kind in FactorOps {
      var right := ParseUnary(toks, pos + 1);
      if right.result.Ok? {
        FactorLoopStops(toks, BinExpr(acc, toks[pos], right.result.value), right.next);
      }
    }
  }

  /** Started after a complete factor, the addition loop stops only at a token that is no additive or factor operator. */
  lemma {:induction false} AdditionLoopStops(toks: seq<Token>, acc: Expr, pos: nat)
    requires WellFormed(toks) && pos < |toks| && toks[pos].kind !in FactorOps
    ensures var r := AdditionLoop(toks, acc, pos);
      r.result.Ok? ==> toks[r.next].kind !in AdditionOps && toks[r.next].kind !in FactorOps
    decreases |toks| - pos
  {
    if toks[pos].kind in AdditionOps {
      var u := ParseUnary(toks, pos + 1);
      if u.result.Ok? {
        FactorLoopStops(toks, u.result.value, u.next);
        var right := ParseFactor(toks, pos + 1);
        if right.result.Ok? {
          AdditionLoopStops(toks, BinExpr(acc, toks[pos], right.result.value), right.next);
        }
      }
    }
  }

  /** Started after a complete addition, the comparison loop stops only at a token that ends the expression. */
  lemma {:induction false} ComparisonLoopStops(toks: seq<Token>, acc: Expr, pos: nat)
    requires WellFormed(toks) && pos < |toks| && toks[pos].kind !in FactorOps && toks[pos].kind !in AdditionOps
    ensures var r := ComparisonLoop(toks, acc, pos); r.result.Ok? ==> EndsExpression(toks[r.next])
    decreases |toks| - pos
  {
    if toks[pos].kind in ComparisonOps {
      var right := ParseAddition(toks, pos + 1);
      if right.result.Ok? {
        OperandsStop(toks, pos + 1);
        ComparisonLoopStops(toks, BinExpr(acc, toks[pos], right.result.value), right.next);
      }
    }
  }

  /**
   * Precedence in general: a successful factor ends at no factor operator,
   * and a successful addition at neither an additive nor a factor
   * operator. So every operand a looser loop joins is a complete operand
   * of the tighter level, and each operator is taken by its own level.
   */
  lemma OperandsStop(toks: seq<Token>, pos: nat)
    requires WellFormed(toks) && pos < |toks|
    ensures var f := ParseFactor(toks, pos); f.result.Ok? ==> toks[f.next].kind !in FactorOps
    ensures var a := ParseAddition(toks, pos);
      a.result.Ok? ==> toks[a.next].kind !in AdditionOps && toks[a.next].kind !in FactorOps
  {
    var u := ParseUnary(toks, pos);
    if u.result.Ok? {
      FactorLoopStops(toks, u.result.value, u.next);
      var f := ParseFactor(toks, pos);
      if f.result.Ok? {
        AdditionLoopStops(toks, f.result.value, f.next);
      }
    }
  }

  /** A successful comparison ends at a token that is no binary operator of any level. */
  lemma ComparisonEndsExpression(toks: seq<Token>, pos: nat)
    requires WellFormed(toks) && pos < |toks|
    ensures var c := ParseComparison(toks, pos); c.result.Ok? ==> EndsExpression(toks[c.next])
  {
    var a := ParseAddition(toks, pos);
    if a.result.Ok? {
      OperandsStop(toks, pos);
      ComparisonLoopStops(toks, a.result.value, a.next);
    }
  }

  /** A unary operator takes a primary, not another unary expression: `--x` and `**p` are rejected at the second operator. */
  lemma DoublePrefixIsRejected(toks: seq<Token>, pos: nat)
    requires WellFormed(toks) && pos + 1 < |toks|
    requires toks[pos].kind in UnaryOps && toks[pos + 1].kind in UnaryOps
    ensures ParseUnary(toks, pos) == Out(Err(ExpectedPrimary(toks[pos + 1].line)), pos + 1)
  {
  }

  // ----- error recovery -----

  /**
   * With `Recover` as written, the first statement of a body that raises
   * ends the body: the error is recorded and the cursor is left on EOF, so
   * no later statement of the body, and none after it, is parsed.
   */
  lemma BodyStopsAtFirstError(toks: seq<Token>, pos: nat, errs: seq<ParseError>, stmts: seq<Stmt>)
    requires WellFormed(toks) && pos < |toks| && toks[pos].kind in FirstBody && toks[pos].kind != Newline
    requires ParseStatement(toks, pos, errs).result.Err?
    ensures var s := ParseStatement(toks, pos, errs);
      var r := BodyLoop(toks, pos, errs, stmts);
      && r.result == Ok(Body(stmts))
      && r.errors == s.errors + [s.result.error]
      && toks[r.next].kind == Eof
  {
    BodyLoopStatement(toks, pos, errs, stmts);
    var s := ParseStatement(toks, pos, errs);
    BodyLoopAtEof(toks, Recover(toks, s.next), s.errors + [s.result.error], stmts);
  }

  /** A body ends at EOF: nothing is consumed and no error is added. */
  lemma BodyLoopAtEof(toks: seq<Token>, pos: nat, errs: seq<ParseError>, stmts: seq<Stmt>)
    requires WellFormed(toks) && pos < |toks| && toks[pos].kind == Eof
    ensures BodyLoop(toks, pos, errs, stmts) == SOut(Ok(Body(stmts)), pos, errs)
  {
  }

  /** The intended recovery never skips further than the one as written. */
  lemma {:induction false} RecoverIntendedStopsNoLater(toks: seq<Token>, pos: nat)
    requires WellFormed(toks) && pos < |toks|
    ensures RecoverIntended(toks, pos) <= Recover(toks, pos)
    decreases |toks| - pos
  {
    if toks[pos].kind != Eof && toks[pos].kind !in SyncKinds {
      RecoverIntendedStopsNoLater(toks, pos + 1);
    }
  }

  // ----- progress of the top-level loop -----

  /** An expression that starts with an identifier, a number or `*` consumes that token, even when it then raises. */
  lemma ExprConsumesFirstToken(toks: seq<Token>, pos: nat)
    requires WellFormed(toks) && pos < |toks| && toks[pos].kind in {Ident, Number, Star}
    ensures pos < ParseExpr(toks, pos).next
  {
    assert pos < ParseUnary(toks, pos).next;
    assert pos < ParseFactor(toks, pos).next;
    assert pos < ParseAddition(toks, pos).next;
    if toks[pos].kind == Ident && toks[pos + 1].kind == LeftParen {
      assert pos < ParseFunctionCall(toks, pos).next;
    } else {
      assert pos < ParseComparison(toks, pos).next;
    }
  }

  /** A function definition always consumes its `fn` keyword. */
  lemma FunctionConsumesKeyword(toks: seq<Token>, pos: nat, errs: seq<ParseError>)
    requires WellFormed(toks) && pos < |toks| && toks[pos].kind == Fn
    ensures pos < ParseFunction(toks, pos, errs).next
  {
  }

  /**
   * A statement raises without consuming anything exactly when it looks
   * like a definition (its second token is `:`) but starts with a number
   * or `*` instead of an identifier.
   */
  lemma StatementStallsIff(toks: seq<Token>, pos: nat, errs: seq<ParseError>)
    requires WellFormed(toks) && pos < |toks| && toks[pos].kind !in {Eof, Newline}
    ensures var s := ParseStatement(toks, pos, errs);
      (s.result.Err? && s.next == pos) <==> (toks[pos].kind in {Number, Star} && toks[pos + 1].kind == Colon)
  {
    var k := toks[pos].kind;
    var head := StatementHead(toks, pos, errs);
    var s := ParseStatement(toks, pos, errs);
    assert head.result.Err? ==> s == head;
    assert head.result.Ok? ==> pos < head.next <= s.next;
    if k in {Ident, Number, Star} {
      assert head == Lift(ParseSimpleStatement(toks, pos), errs);
      if toks[pos + 1].kind != Colon {
        ExprConsumesFirstToken(toks, pos);
        assert pos < head.next;
        assert s.next != pos;
      } else {
        assert head == Lift(ParseDefinition(toks, pos), errs);
        var name := ParsePrimary(toks, pos, Some(Ident));
        if k == Ident {
          assert name.result.Ok? && pos < name.next;
          assert pos < head.next && k !in {Number, Star};
        } else {
          assert k in {Number, Star};
          assert name == Out(Err(Expected(Ident, k, toks[pos].line)), pos);
          assert head.result.Err? && head.next == pos;
        }
      }
    } else {
      assert toks[pos].kind !in {Number, Star};
      if k !in {If, While, Return} {
        assert head.next == Recover(toks, pos);
      }
      assert pos < head.next;
    }
  }

  /** A top-level item raises without consuming anything exactly at such a statement. */
  lemma ItemStallsIff(toks: seq<Token>, pos: nat, errs: seq<ParseError>)
    requires WellFormed(toks) && pos < |toks| && toks[pos].kind !in {Eof, Newline}
    ensures var s := ProgramItem(toks, pos, errs);
      (s.result.Err? && s.next == pos) <==> (toks[pos].kind in {Number, Star} && toks[pos + 1].kind == Colon)
  {
    if toks[pos].kind == Fn {
      FunctionConsumesKeyword(toks, pos, errs);
    } else {
      StatementStallsIff(toks, pos, errs);
    }
  }

  /** A `Diverges` outcome stalls at a number or `*` that is followed by `:`. */
  predicate StallsAtMisplacedDefinition(toks: seq<Token>, r: ProgramOutcome) {
    r.Diverges? ==> r.at + 1 < |toks| && toks[r.at].kind in {Number, Star} && toks[r.at + 1].kind == Colon
  }

  /** `parse_program` loops forever only at such a statement. */
  lemma {:induction false} DivergesOnlyAtMisplacedDefinition(toks: seq<Token>, pos: nat, errs: seq<ParseError>, contents: seq<Stmt>)
    requires WellFormed(toks) && pos < |toks|
    ensures StallsAtMisplacedDefinition(toks, ProgramLoop(toks, pos, errs, contents))
    decreases |toks| - pos
  {
    var r := ProgramLoop(toks, pos, errs, contents);
    var k := toks[pos].kind;
    if k == Newline {
      assert r == ProgramLoop(toks, pos + 1, errs, contents);
      DivergesOnlyAtMisplacedDefinition(toks, pos + 1, errs, contents);
    } else if k != Eof {
      ItemStallsIff(toks, pos, errs);
      var s := ProgramItem(toks, pos, errs);
      if s.result.Ok? {
        assert r == ProgramLoop(toks, s.next, s.errors, contents + [s.result.value]);
        DivergesOnlyAtMisplacedDefinition(toks, s.next, s.errors, contents + [s.result.value]);
      } else if s.next != pos {
        assert r == ProgramLoop(toks, s.next, s.errors + [s.result.error], contents);
        DivergesOnlyAtMisplacedDefinition(toks, s.next, s.errors + [s.result.error], contents);
      } else {
        assert r == Diverges(pos, s.errors, s.result.error);
      }
    } else {
      assert r.Parsed?;
    }
  }

  // ----- constructing a parse error -----

  /**
   * `ParserException(message, line)` as written (parser.py:43-46): the
   * constructor passes its own `message` attribute to the base exception
   * (line 44) before it assigns that attribute (line 45). When line 44 runs
   * the object has no attributes of its own, hence the empty set, and a
   * base exception defines no `message`, so the read raises.
   */
  function NewParserExceptionAsWritten(message: string, line: nat): Result<(string, nat), Raised> {
    var attributes: set<string> := {};
    if "message" in attributes then Ok((message, line))
    else Err(AttributeError("message"))
  }

  /** As written, no parse error can be constructed: every `raise` in the parser raises AttributeError instead, which no handler of the parser catches. */
  lemma ParserExceptionConstructorRaises(message: string, line: nat)
    ensures NewParserExceptionAsWritten(message, line) == Err(AttributeError("message"))
  {
  }

  // ----- concrete inputs -----

  /** `x` NEWLINE `y` NEWLINE EOF. */
  function TwoLines(): seq<Token> {
    [Token(Ident, "x", 1), Token(Newline, "\n", 1), Token(Ident, "y", 2), Token(Newline, "\n", 2), Token(Eof, "", 3)]
  }

  /** After an error at the first line, `recover` as written skips the second line too; the intended one resumes there. */
  lemma RecoverSkipsWholeRest()
    ensures WellFormed(TwoLines())
    ensures Recover(TwoLines(), 0) == 4 && RecoverIntended(TwoLines(), 0) == 2
  {
    var toks := TwoLines();
    forall i: nat | i < |toks| ensures KnownTypeAt(toks, i) {}
  }

  /** `7 : int = 1` NEWLINE EOF: a definition whose name is a number. */
  function NumberDefinition(): seq<Token> {
    [Token(Number, "7", 1), Token(Colon, ":", 1), Token(TypeName, "int", 1), Token(Assign, "=", 1),
     Token(Number, "1", 1), Token(Newline, "\n", 1), Token(Eof, "", 2)]
  }

  lemma NumberDefinitionWellFormed()
    ensures WellFormed(NumberDefinition())
  {
    var toks := NumberDefinition();
    forall i: nat | i < |toks| ensures KnownTypeAt(toks, i) {
      if i == 2 {
        assert toks[i].literal == "int" && "int" in SizeMap;
      }
    }
  }

  /** On `7 : int = 1` the first statement fails at its first token without consuming it. */
  lemma NumberDefinitionStalls()
    requires WellFormed(NumberDefinition())
    ensures ParseStatement(NumberDefinition(), 0, []) == SOut(Err(Expected(Ident, Number, 1)), 0, [])
  {
    NumberDefinitionSimpleStalls();
  }

  lemma NumberDefinitionSimpleStalls()
    requires WellFormed(NumberDefinition())
    ensures ParseSimpleStatement(NumberDefinition(), 0) == Out(Err(Expected(Ident, Number, 1)), 0)
  {
    var toks := NumberDefinition();
    assert toks[0].kind == Number && toks[1].kind == Colon;
    NumberDefinitionNameRejected();
  }

  lemma NumberDefinitionNameRejected()
    requires WellFormed(NumberDefinition())
    ensures ParseDefinition(NumberDefinition(), 0) == Out(Err(Expected(Ident, Number, 1)), 0)
  {
    var toks := NumberDefinition();
    assert ParsePrimary(toks, 0, Some(Ident)) == Out(Err(Expected(Ident, Number, 1)), 0);
  }

  /** On `7 : int = 1`, `parse_program` raises the same error at the first token forever. */
  lemma NumberDefinitionDiverges()
    ensures WellFormed(NumberDefinition())
    ensures ParseProgram(NumberDefinition()) == Diverges(0, [], Expected(Ident, Number, 1))
  {
    var toks := NumberDefinition();
    NumberDefinitionWellFormed();
    NumberDefinitionStalls();
    assert toks[0].kind == Number;
    ProgramLoopItem(toks, 0, [], []);
    assert ProgramItem(toks, 0, []) == SOut(Err(Expected(Ident, Number, 1)), 0, []);
  }
}
