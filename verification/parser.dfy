/**
 * The N4 parser: a cursor over a token sequence and a list of syntax errors,
 * with one method per production. Raised parse errors are `Err` results;
 * `parse_body` catches them, records them and calls `Recover`.
 *
 * Every method is proved to compute exactly the outcome, the cursor position
 * and the error list that the reference functions of ParserSpec give.
 */
module Parser {
  import opened Wrappers
  import opened Tokens
  import opened Types
  import opened Ast
  import opened ParserSpec

  class Parser {
    const tokens: seq<Token>
    var idx: nat
    var errors: seq<ParseError>

    /** The cursor stays on a token: the EOF token at the end is never consumed. */
    ghost predicate Valid()
      reads this
    {
      WellFormed(tokens) && idx < |tokens|
    }

    constructor (tokens: seq<Token>)
      requires WellFormed(tokens)
      ensures Valid()
      ensures this.tokens == tokens && idx == 0 && errors == []
    {
      this.tokens := tokens;
      idx := 0;
      errors := [];
    }

    /** The token `ahead` positions after the cursor. */
    function Peek(ahead: nat): (t: Token)
      reads this
      requires idx + ahead < |tokens|
      ensures t in tokens[idx..]
    {
      tokens[idx + ahead]
    }

    /** Whether the current token has one of the kinds `ks`; false past the end. */
    function Expect(ks: set<TokenKind>): (b: bool)
      reads this
      ensures b ==> idx < |tokens| && Peek(0).kind in ks
      ensures idx >= |tokens| ==> !b
    {
      idx < |tokens| && tokens[idx].kind in ks
    }

    method Consume() returns (t: Option<Token>)
      modifies this`idx
      ensures old(idx) < |tokens| ==> t == Some(tokens[old(idx)]) && idx == old(idx) + 1
      ensures old(idx) >= |tokens| ==> t == None && idx == old(idx)
    {
      if idx >= |tokens| {
        return None;
      }
      t := Some(tokens[idx]);
      idx := idx + 1;
    }

    method Require(k: TokenKind) returns (r: Result<Token, ParseError>)
      requires Valid() && k != Eof
      modifies this`idx
      ensures Valid()
      ensures r.Ok? <==> tokens[old(idx)].kind == k
      ensures r.Ok? ==> r.value == tokens[old(idx)] && idx == old(idx) + 1
      ensures r.Err? ==> r.error == Expected(k, tokens[old(idx)].kind, tokens[old(idx)].line) && idx == old(idx)
      ensures Out(r, idx) == ParserSpec.Require(tokens, old(idx), k)
    {
      if Peek(0).kind != k {
        return Err(Expected(k, Peek(0).kind, Peek(0).line));
      }
      var t := Consume();
      return Ok(t.value);
    }

    /**
     * `recover` as written: it stops only at the EOF token, because the
     * token it consumes is compared with token kinds, which never holds.
     */
    method Recover()
      requires Valid()
      modifies this`idx
      ensures Valid()
      ensures idx == ParserSpec.Recover(tokens, old(idx))
    {
      while !Expect({Eof})
        invariant Valid()
        invariant ParserSpec.Recover(tokens, idx) == ParserSpec.Recover(tokens, old(idx))
        decreases |tokens| - idx
      {
        var _ := Consume();
      }
    }

    method ParseExpr() returns (r: Result<Expr, ParseError>)
      requires Valid()
      modifies this`idx
      ensures Valid()
      ensures Out(r, idx) == ParserSpec.ParseExpr(tokens, old(idx))
      decreases |tokens| - idx, 7
    {
      if Expect({Ident}) && Peek(1).kind == LeftParen {
        r := ParseFunctionCall();
      } else {
        r := ParseComparison();
      }
    }

    method ParseFunctionCall() returns (r: Result<Expr, ParseError>)
      requires Valid()
      modifies this`idx
      ensures Valid()
      ensures Out(r, idx) == ParserSpec.ParseFunctionCall(tokens, old(idx))
      decreases |tokens| - idx, 6
    {
      var name :- ParsePrimaryIdent();
      var open :- Require(LeftParen);
      var args :- ParseArguments();
      var close :- Require(RightParen);
      return Ok(FunctionCall(name, args, None));
    }

    /** The argument loop of `parse_function_call`: each argument is one expression-start token. */
    method ParseArguments() returns (r: Result<seq<Token>, ParseError>)
      requires Valid()
      modifies this`idx
      ensures Valid()
      ensures Out(r, idx) == ParserSpec.ParseArgs(tokens, old(idx), [])
    {
      var args: seq<Token> := [];
      while Expect(FirstExpr)
        invariant Valid() && old(idx) <= idx
        invariant ParserSpec.ParseArgs(tokens, idx, args) == ParserSpec.ParseArgs(tokens, old(idx), [])
        decreases |tokens| - idx
      {
        var arg := Consume();
        args := args + [arg.value];
        if !Expect({RightParen}) {
          var comma :- Require(Comma);
        }
      }
      return Ok(args);
    }

    method ParseComparison() returns (r: Result<Expr, ParseError>)
      requires Valid()
      modifies this`idx
      ensures Valid()
      ensures Out(r, idx) == ParserSpec.ParseComparison(tokens, old(idx))
      decreases |tokens| - idx, 5
    {
      var left :- ParseAddition();
      while Expect(ComparisonOps)
        invariant Valid() && old(idx) < idx
        invariant ParserSpec.ComparisonLoop(tokens, left, idx) == ParserSpec.ParseComparison(tokens, old(idx))
        decreases |tokens| - idx
      {
        ghost var at := idx;
        var op := Consume();
        var right := ParseAddition();
        assert ParserSpec.ComparisonLoop(tokens, left, at) ==
          var o := ParserSpec.ParseAddition(tokens, at + 1);
          if o.result.Err? then o.PropagateFailure()
          else ParserSpec.ComparisonLoop(tokens, BinExpr(left, tokens[at], o.result.value), o.next);
        if right.Err? {
          return right.PropagateFailure();
        }
        left := BinExpr(left, op.value, right.value);
      }
      return Ok(left);
    }

    method ParseAddition() returns (r: Result<Expr, ParseError>)
      requires Valid()
      modifies this`idx
      ensures Valid()
      ensures Out(r, idx) == ParserSpec.ParseAddition(tokens, old(idx))
      decreases |tokens| - idx, 4
    {
      var left :- ParseFactor();
      while Expect(AdditionOps)
        invariant Valid() && old(idx) < idx
        invariant ParserSpec.AdditionLoop(tokens, left, idx) == ParserSpec.ParseAddition(tokens, old(idx))
        decreases |tokens| - idx
      {
        var op := Consume();
        var right :- ParseFactor();
        left := BinExpr(left, op.value, right);
      }
      return Ok(left);
    }

    method ParseFactor() returns (r: Result<Expr, ParseError>)
      requires Valid()
      modifies this`idx
      ensures Valid()
      ensures Out(r, idx) == ParserSpec.ParseFactor(tokens, old(idx))
      decreases |tokens| - idx, 3
    {
      var left :- ParseUnary();
      while Expect(FactorOps)
        invariant Valid() && old(idx) < idx
        invariant ParserSpec.FactorLoop(tokens, left, idx) == ParserSpec.ParseFactor(tokens, old(idx))
        decreases |tokens| - idx
      {
        var op := Consume();
        var right :- ParseUnary();
        left := BinExpr(left, op.value, right);
      }
      return Ok(left);
    }

    method ParseUnary() returns (r: Result<Expr, ParseError>)
      requires Valid()
      modifies this`idx
      ensures Valid()
      ensures Out(r, idx) == ParserSpec.ParseUnary(tokens, old(idx))
      decreases |tokens| - idx, 2
    {
      if Expect(UnaryOps) {
        var op := Consume();
        var operand :- ParsePrimary(None);
        return Ok(UnaryExpr(op.value, operand));
      }
      r := ParsePrimary(None);
    }

    /** `parse_primary`, with the optional kind the caller insists on. */
    method ParsePrimary(required: Option<TokenKind>) returns (r: Result<Expr, ParseError>)
      requires Valid()
      requires required == None || required == Some(Ident)
      modifies this`idx
      ensures Valid()
      ensures Out(r, idx) == ParserSpec.ParsePrimary(tokens, old(idx), required)
      decreases |tokens| - idx, 1
    {
      if required.Some? && !Expect({required.value}) {
        var e := Require(required.value);
        return e.PropagateFailure();
      }
      if Expect({Ident, Number}) {
        var t := Consume();
        return Ok(MakePrimary(t.value));
      } else if Expect({LeftParen}) {
        var _ := Consume();
        var inner :- ParseExpr();
        var close :- Require(RightParen);
        return Ok(inner);
      }
      return Err(ExpectedPrimary(Peek(0).line));
    }

    /** `parse_primary(IDENT)`, giving the identifier token the primary wraps. */
    method ParsePrimaryIdent() returns (r: Result<Token, ParseError>)
      requires Valid()
      modifies this`idx
      ensures Valid()
      ensures Out(r, idx) == ParserSpec.Require(tokens, old(idx), Ident)
      decreases |tokens| - idx, 2
    {
      var p :- ParsePrimary(Some(Ident));
      return Ok(p.tok);
    }

    method ParseDefinition() returns (r: Result<Stmt, ParseError>)
      requires Valid()
      modifies this`idx
      ensures Valid()
      ensures Out(r, idx) == ParserSpec.ParseDefinition(tokens, old(idx))
    {
      var name :- ParsePrimary(Some(Ident));
      var colon :- Require(Colon);
      ghost var at := idx;
      var ty :- Require(TypeName);
      assert KnownTypeAt(tokens, at);
      var assign :- Require(Assign);
      var rhs :- ParseExpr();
      return Ok(Definition(name.tok, rhs, LiteralToType(ty.literal), None));
    }

    method ParseAssignment(lhs: Expr) returns (r: Result<Stmt, ParseError>)
      requires Valid()
      modifies this`idx
      ensures Valid()
      ensures !IsValidLvalue(lhs) ==> r == Err(InvalidLvalue(tokens[old(idx)].line)) && idx == old(idx)
      ensures Out(r, idx) == ParserSpec.ParseAssignment(tokens, lhs, old(idx))
    {
      if !IsValidLvalue(lhs) {
        return Err(InvalidLvalue(Peek(0).line));
      }
      var assign :- Require(Assign);
      var rhs :- ParseExpr();
      return Ok(Assignment(lhs, rhs));
    }

    method ParseReturnStatement() returns (r: Result<Stmt, ParseError>)
      requires Valid()
      modifies this`idx
      ensures Valid()
      ensures Out(r, idx) == ParserSpec.ParseReturn(tokens, old(idx))
    {
      var ret :- Require(Return);
      var e :- ParseExpr();
      return Ok(ReturnStatement(e));
    }

    /** The statements that start like an expression: a definition, an assignment or a bare expression. */
    method ParseSimpleStatement() returns (r: Result<Stmt, ParseError>)
      requires Valid() && Expect({Ident, Number, Star})
      modifies this`idx
      ensures Valid()
      ensures Out(r, idx) == ParserSpec.ParseSimpleStatement(tokens, old(idx))
    {
      if Peek(1).kind == Colon {
        r := ParseDefinition();
        return;
      }
      var e :- ParseExpr();
      if Expect({Assign}) {
        r := ParseAssignment(e);
      } else {
        r := Ok(ExprStatement(e));
      }
    }

    method ParseStatement() returns (r: Result<Stmt, ParseError>)
      requires Valid()
      modifies this`idx, this`errors
      ensures Valid()
      ensures SOut(r, idx, errors) == ParserSpec.ParseStatement(tokens, old(idx), old(errors))
      decreases |tokens| - idx, 3
    {
      var statement :- ParseStatementHead();
      var newline :- Require(Newline);
      return Ok(statement);
    }

    /** The production chosen by the current token; a token that starts none of them is recovered from, then raised. */
    method ParseStatementHead() returns (r: Result<Stmt, ParseError>)
      requires Valid()
      modifies this`idx, this`errors
      ensures Valid()
      ensures SOut(r, idx, errors) == StatementHead(tokens, old(idx), old(errors))
      decreases |tokens| - idx, 2
    {
      if Expect({Ident, Number, Star}) {
        r := ParseSimpleStatement();
      } else if Expect({If}) {
        r := ParseIfStatement();
      } else if Expect({While}) {
        r := ParseWhileStatement();
      } else if Expect({Return}) {
        r := ParseReturnStatement();
      } else {
        Recover();
        r := Err(ExpectedStatement(Peek(0).line));
      }
    }

    method ParseIfStatement() returns (r: Result<Stmt, ParseError>)
      requires Valid()
      modifies this`idx, this`errors
      ensures Valid()
      ensures SOut(r, idx, errors) == ParserSpec.ParseIf(tokens, old(idx), old(errors))
      decreases |tokens| - idx, 1
    {
      var kw :- Require(If);
      var condition :- ParseExpr();
      var nl :- Require(Newline);
      var trueBody := ParseBody();
      r := ParseIfTail(condition, trueBody);
    }

    /** The rest of an `if` after its first body: an optional `else` branch, then `end`. */
    method ParseIfTail(condition: Expr, trueBody: Body) returns (r: Result<Stmt, ParseError>)
      requires Valid()
      modifies this`idx, this`errors
      ensures Valid()
      ensures SOut(r, idx, errors) == ParserSpec.ParseIfTail(tokens, condition, trueBody, old(idx), old(errors))
      decreases |tokens| - idx, 0
    {
      var falseBody: Option<Body> := None;
      if Expect({Else}) {
        var _ := Consume();
        var nl :- Require(Newline);
        var b := ParseBody();
        falseBody := Some(b);
      }
      var end :- Require(End);
      return Ok(IfStatement(condition, trueBody, falseBody));
    }

    method ParseWhileStatement() returns (r: Result<Stmt, ParseError>)
      requires Valid()
      modifies this`idx, this`errors
      ensures Valid()
      ensures SOut(r, idx, errors) == ParserSpec.ParseWhile(tokens, old(idx), old(errors))
      decreases |tokens| - idx, 1
    {
      var kw :- Require(While);
      var condition :- ParseExpr();
      var nl :- Require(Newline);
      var body := ParseBody();
      var end :- Require(End);
      return Ok(WhileStatement(condition, body));
    }

    /** `parse_body`: statements while the current token can start one; errors are recorded, then `Recover`. */
    method ParseBody() returns (body: Body)
      requires Valid()
      modifies this`idx, this`errors
      ensures Valid()
      ensures SOut(Ok(body), idx, errors) == ParserSpec.ParseBody(tokens, old(idx), old(errors))
      decreases |tokens| - idx, 5
    {
      ghost var goal := ParserSpec.ParseBody(tokens, idx, errors);
      var statements: seq<Stmt> := [];
      while Expect(FirstBody)
        invariant Valid() && old(idx) <= idx
        invariant ParserSpec.BodyLoop(tokens, idx, errors, statements) == goal
        decreases |tokens| - idx
      {
        ghost var at := idx;
        EofStartsNoBody(tokens[at].kind);
        if Expect({Newline}) {
          BodyLoopNewline(tokens, idx, errors, statements);
          var _ := Consume();
          continue;
        }
        BodyLoopStatement(tokens, idx, errors, statements);
        var s := ParseStatement();
        if s.Ok? {
          assert at < idx;
          statements := statements + [s.value];
        } else {
          assert at <= idx;
          errors := errors + [s.error];
          Recover();
          assert at <= idx && tokens[idx].kind == Eof;
          assert at != idx;
        }
      }
      body := Body(statements);
    }

    method ParseParams() returns (r: Result<seq<Param>, ParseError>)
      requires Valid()
      modifies this`idx
      ensures Valid()
      ensures Out(r, idx) == ParserSpec.ParseParams(tokens, old(idx), [])
    {
      var params: seq<Param> := [];
      while Expect({Ident})
        invariant Valid() && old(idx) <= idx
        invariant ParserSpec.ParseParams(tokens, idx, params) == ParserSpec.ParseParams(tokens, old(idx), [])
        decreases |tokens| - idx
      {
        var ident := ParsePrimary(Some(Ident));
        var colon :- Require(Colon);
        ghost var at := idx;
        var ty :- Require(TypeName);
        assert KnownTypeAt(tokens, at);
        params := params + [Param(ident.value.tok, LiteralToType(ty.literal))];
        if !Expect({RightParen}) {
          var comma :- Require(Comma);
        }
      }
      return Ok(params);
    }

    method ParseFunction() returns (r: Result<Stmt, ParseError>)
      requires Valid()
      modifies this`idx, this`errors
      ensures Valid()
      ensures SOut(r, idx, errors) == ParserSpec.ParseFunction(tokens, old(idx), old(errors))
    {
      var header :- ParseFunctionHeader();
      var body := ParseBody();
      var end :- Require(End);
      var (name, params, returnType) := header;
      return Ok(FunctionDefinition(name, params, returnType, body, None));
    }

    /** `fn name(params): type` and its newline. */
    method ParseFunctionHeader() returns (r: Result<(Token, seq<Param>, Type), ParseError>)
      requires Valid()
      modifies this`idx
      ensures Valid()
      ensures Out(r, idx) == FunctionHeader(tokens, old(idx))
    {
      var signature :- ParseFunctionSignature();
      var colon :- Require(Colon);
      ghost var at := idx;
      var ty :- Require(TypeName);
      assert KnownTypeAt(tokens, at);
      var nl :- Require(Newline);
      return Ok((signature.0, signature.1, LiteralToType(ty.literal)));
    }

    /** `fn name`. */
    method ParseFunctionName() returns (r: Result<Token, ParseError>)
      requires Valid()
      modifies this`idx
      ensures Valid()
      ensures Out(r, idx) == FunctionName(tokens, old(idx))
    {
      var kw :- Require(Fn);
      r := ParsePrimaryIdent();
    }

    /** `fn name(params)`. */
    method ParseFunctionSignature() returns (r: Result<(Token, seq<Param>), ParseError>)
      requires Valid()
      modifies this`idx
      ensures Valid()
      ensures Out(r, idx) == FunctionSignature(tokens, old(idx))
    {
      var name :- ParseFunctionName();
      var open :- Require(LeftParen);
      var params :- ParseParams();
      var close :- Require(RightParen);
      return Ok((name, params));
    }

    /**
     * One round of the loop of `parse_program`: a blank line is skipped, an
     * item is parsed and kept, or its error recorded; an item that raises
     * without consuming a token stops the loop with `Diverges`.
     */
    method ParseProgramRound(contents: seq<Stmt>) returns (contents': seq<Stmt>, stop: Option<ProgramOutcome>)
      requires Valid() && tokens[idx].kind != Eof
      modifies this`idx, this`errors
      ensures Valid()
      ensures stop.None? ==> old(idx) < idx && ProgramLoop(tokens, idx, errors, contents') == ProgramLoop(tokens, old(idx), old(errors), contents)
      ensures stop.Some? ==> stop.value.Diverges? && stop.value == ProgramLoop(tokens, old(idx), old(errors), contents) && stop.value.errors == errors
    {
      contents', stop := contents, None;
      if Expect({Newline}) {
        ProgramLoopNewline(tokens, idx, errors, contents);
        var _ := Consume();
        return;
      }
      ProgramLoopItem(tokens, idx, errors, contents);
      ghost var item := ProgramItem(tokens, idx, errors);
      var start := idx;
      var s := ParseItem();
      assert item.result == s && item.next == idx && item.errors == errors;
      if s.Ok? {
        contents' := contents + [s.value];
      } else if idx == start {
        stop := Some(Diverges(idx, errors, s.error));
      } else {
        errors := errors + [s.error];
      }
    }

    /** One top-level item of `parse_program`. */
    method ParseItem() returns (r: Result<Stmt, ParseError>)
      requires Valid()
      modifies this`idx, this`errors
      ensures Valid()
      ensures SOut(r, idx, errors) == ProgramItem(tokens, old(idx), old(errors))
    {
      if Expect({Fn}) {
        r := ParseFunction();
      } else {
        r := ParseStatement();
      }
    }

    /**
     * `parse_program`. Errors of top-level items are recorded without
     * `Recover`; an item that raises without consuming a token would be
     * retried forever, which is reported as `Diverges`.
     */
    method ParseProgram() returns (outcome: ProgramOutcome)
      requires Valid()
      modifies this`idx, this`errors
      ensures Valid()
      ensures outcome == ProgramLoop(tokens, old(idx), old(errors), [])
      ensures errors == outcome.errors
      ensures outcome.Parsed? ==> tokens[idx].kind == Eof
    {
      var contents: seq<Stmt> := [];
      while !Expect({Eof})
        invariant Valid()
        invariant ProgramLoop(tokens, idx, errors, contents) == ProgramLoop(tokens, old(idx), old(errors), [])
        decreases |tokens| - idx
      {
        var stop;
        contents, stop := ParseProgramRound(contents);
        if stop.Some? {
          return stop.value;
        }
      }
      return Parsed(Program(contents), errors);
    }
  }
}
