/**
 * A reference definition of the N4 parser as pure functions of the token
 * sequence and a cursor position. Each function gives the outcome of one
 * production (a tree, or the error it raises) together with the cursor
 * position at which it returns or raises, and, for the statement
 * productions, the syntax error list afterwards. The Parser class is proved
 * to compute exactly these values.
 */
module ParserSpec {
  import opened Wrappers
  import opened Tokens
  import opened Types
  import opened Ast

  /** The one exception kind of the parser, by message. */
  datatype ParseError =
    | Expected(want: TokenKind, got: TokenKind, line: nat)
    | ExpectedStatement(line: nat)
    | InvalidLvalue(line: nat)
    | ExpectedPrimary(line: nat)

  /** The outcome of an expression-level production and the cursor afterwards. */
  datatype Out<+T> = Out(result: Result<T, ParseError>, next: nat) {
    predicate IsFailure() {
      result.Err?
    }

    function PropagateFailure<U>(): Out<U>
      requires result.Err?
    {
      Out(Err(result.error), next)
    }

    function Extract(): (T, nat)
      requires result.Ok?
    {
      (result.value, next)
    }
  }

  /** The outcome of a statement-level production, the cursor and the error list afterwards. */
  datatype SOut<+T> = SOut(result: Result<T, ParseError>, next: nat, errors: seq<ParseError>) {
    predicate IsFailure() {
      result.Err?
    }

    function PropagateFailure<U>(): SOut<U>
      requires result.Err?
    {
      SOut(Err(result.error), next, errors)
    }

    function Extract(): (T, nat, seq<ParseError>)
      requires result.Ok?
    {
      (result.value, next, errors)
    }
  }

  function Lift<T>(o: Out<T>, errors: seq<ParseError>): SOut<T> {
    SOut(o.result, o.next, errors)
  }

  const FirstExpr: set<TokenKind> := {Ident, Number, LeftParen, Star, Minus}
  const FirstBody: set<TokenKind> := {Ident, Number, LeftParen, Star, Minus, If, While, Return, Newline}
  const ComparisonOps: set<TokenKind> := {Less, Greater, LessEqual, GreaterEqual}
  const AdditionOps: set<TokenKind> := {Plus, Minus}
  const FactorOps: set<TokenKind> := {Star, Slash}
  const UnaryOps: set<TokenKind> := {Star, Minus, Ampersand}
  const SyncKinds: set<TokenKind> := {Newline, End, Else}

  /**
   * A token stream the parser can run on: it ends with EOF, and every
   * type-name token names an entry of the size table.
   */
  predicate WellFormed(toks: seq<Token>) {
    && |toks| > 0
    && toks[|toks| - 1].kind == Eof
    && forall i: nat :: i < |toks| ==> KnownTypeAt(toks, i)
  }

  /** A type-name token at `i`, if there is one, names an entry of the size table. */
  predicate KnownTypeAt(toks: seq<Token>, i: nat)
    requires i < |toks|
  {
    toks[i].kind == TypeName ==> toks[i].literal in SizeMap
  }

  /** The type that the type-name token at `p` denotes (`Type.token_to_type`). */
  function TypeAt(toks: seq<Token>, p: nat): Type
    requires WellFormed(toks) && p < |toks| && toks[p].kind == TypeName
  {
    assert KnownTypeAt(toks, p);
    LiteralToType(toks[p].literal)
  }

  /** What every expression-level production guarantees about the cursor and its errors. */
  predicate Moves<T>(toks: seq<Token>, pos: nat, r: Out<T>) {
    && pos <= r.next < |toks|
    && (r.result.Ok? ==> pos < r.next)
    && (r.result.Err? ==> r.result.error.Expected? || r.result.error.ExpectedPrimary?)
  }

  /** What every statement-level production guarantees: the cursor never moves back, errors are only appended. */
  predicate SMoves<T>(toks: seq<Token>, pos: nat, errs: seq<ParseError>, r: SOut<T>) {
    && pos <= r.next < |toks|
    && (r.result.Ok? ==> pos < r.next)
    && errs <= r.errors
  }

  function Require(toks: seq<Token>, pos: nat, k: TokenKind): (r: Out<Token>)
    requires WellFormed(toks) && pos < |toks| && k != Eof
    ensures Moves(toks, pos, r)
    ensures r.result.Ok? <==> toks[pos].kind == k
    ensures r.result.Ok? ==> r.result.value == toks[pos] && r.next == pos + 1
    ensures r.result.Err? ==> r.next == pos && r.result.error == Expected(k, toks[pos].kind, toks[pos].line)
  {
    if toks[pos].kind == k then Out(Ok(toks[pos]), pos + 1)
    else Out(Err(Expected(k, toks[pos].kind, toks[pos].line)), pos)
  }

  /**
   * `recover` as written: the consumed token is compared with token kinds,
   * which never succeeds, so it skips to the EOF token.
   */
  function Recover(toks: seq<Token>, pos: nat): (p: nat)
    requires WellFormed(toks) && pos < |toks|
    ensures pos <= p < |toks| && toks[p].kind == Eof
    decreases |toks| - pos
  {
    if toks[pos].kind == Eof then pos else Recover(toks, pos + 1)
  }

  /** `Recover` stops at the first EOF token at or after `pos`: it skips everything before it. */
  lemma {:induction false} RecoverFindsFirstEof(toks: seq<Token>, pos: nat)
    requires WellFormed(toks) && pos < |toks|
    ensures forall k :: pos <= k < Recover(toks, pos) ==> toks[k].kind != Eof
    decreases |toks| - pos
  {
    if toks[pos].kind != Eof {
      RecoverFindsFirstEof(toks, pos + 1);
    }
  }

  /** The evidently intended `recover`: stop right after the first newline, `end` or `else`. */
  function RecoverIntended(toks: seq<Token>, pos: nat): (p: nat)
    requires WellFormed(toks) && pos < |toks|
    ensures pos <= p < |toks|
    ensures forall k :: pos <= k < p - 1 ==> toks[k].kind !in SyncKinds && toks[k].kind != Eof
    ensures toks[p].kind == Eof || (pos < p && toks[p - 1].kind in SyncKinds)
    decreases |toks| - pos
  {
    if toks[pos].kind == Eof then pos
    else if toks[pos].kind in SyncKinds then pos + 1
    else RecoverIntended(toks, pos + 1)
  }

  /** `expr_is_valid_lvalue`: a plain identifier or a `*` dereference; a binary expression or a call never is. */
  predicate IsValidLvalue(e: Expr): (b: bool)
    ensures b ==> e.Primary? || e.UnaryExpr?
    ensures e.BinExpr? || e.FunctionCall? ==> !b
  {
    (e.Primary? && e.tok.kind == Ident) || (e.UnaryExpr? && e.op.kind == Star)
  }

  // ----- expressions -----

  function ParseExpr(toks: seq<Token>, pos: nat): (r: Out<Expr>)
    requires WellFormed(toks) && pos < |toks|
    ensures Moves(toks, pos, r)
    decreases |toks| - pos, 6
  {
    if toks[pos].kind == Ident && toks[pos + 1].kind == LeftParen then ParseFunctionCall(toks, pos)
    else ParseComparison(toks, pos)
  }

  function ParseFunctionCall(toks: seq<Token>, pos: nat): (r: Out<Expr>)
    requires WellFormed(toks) && pos < |toks|
    ensures Moves(toks, pos, r)
  {
    var name :- Require(toks, pos, Ident);
    var open :- Require(toks, name.1, LeftParen);
    var args :- ParseArgs(toks, open.1, []);
    var close :- Require(toks, args.1, RightParen);
    Out(Ok(FunctionCall(name.0, args.0, None)), close.1)
  }

  /** The argument loop: any expression-start token is taken as one argument. */
  function ParseArgs(toks: seq<Token>, pos: nat, args: seq<Token>): (r: Out<seq<Token>>)
    requires WellFormed(toks) && pos < |toks|
    ensures pos <= r.next < |toks|
    ensures r.result.Err? ==> r.result.error.Expected? && r.result.error.want == Comma
    decreases |toks| - pos
  {
    if toks[pos].kind in FirstExpr then
      if toks[pos + 1].kind != RightParen then
        var comma :- Require(toks, pos + 1, Comma);
        ParseArgs(toks, comma.1, args + [toks[pos]])
      else
        ParseArgs(toks, pos + 1, args + [toks[pos]])
    else
      Out(Ok(args), pos)
  }

  function ParseComparison(toks: seq<Token>, pos: nat): (r: Out<Expr>)
    requires WellFormed(toks) && pos < |toks|
    ensures Moves(toks, pos, r)
    decreases |toks| - pos, 5
  {
    var left :- ParseAddition(toks, pos);
    ComparisonLoop(toks, left.0, left.1)
  }

  function ComparisonLoop(toks: seq<Token>, left: Expr, pos: nat): (r: Out<Expr>)
    requires WellFormed(toks) && pos < |toks|
    ensures pos <= r.next < |toks|
    ensures r.result.Err? ==> r.result.error.Expected? || r.result.error.ExpectedPrimary?
    decreases |toks| - pos, 5
  {
    if toks[pos].kind in ComparisonOps then
      var right :- ParseAddition(toks, pos + 1);
      ComparisonLoop(toks, BinExpr(left, toks[pos], right.0), right.1)
    else
      Out(Ok(left), pos)
  }

  function ParseAddition(toks: seq<Token>, pos: nat): (r: Out<Expr>)
    requires WellFormed(toks) && pos < |toks|
    ensures Moves(toks, pos, r)
    decreases |toks| - pos, 4
  {
    var left :- ParseFactor(toks, pos);
    AdditionLoop(toks, left.0, left.1)
  }

  function AdditionLoop(toks: seq<Token>, left: Expr, pos: nat): (r: Out<Expr>)
    requires WellFormed(toks) && pos < |toks|
    ensures pos <= r.next < |toks|
    ensures r.result.Err? ==> r.result.error.Expected? || r.result.error.ExpectedPrimary?
    decreases |toks| - pos, 4
  {
    if toks[pos].kind in AdditionOps then
      var right :- ParseFactor(toks, pos + 1);
      AdditionLoop(toks, BinExpr(left, toks[pos], right.0), right.1)
    else
      Out(Ok(left), pos)
  }

  function ParseFactor(toks: seq<Token>, pos: nat): (r: Out<Expr>)
    requires WellFormed(toks) && pos < |toks|
    ensures Moves(toks, pos, r)
    decreases |toks| - pos, 3
  {
    var left :- ParseUnary(toks, pos);
    FactorLoop(toks, left.0, left.1)
  }

  function FactorLoop(toks: seq<Token>, left: Expr, pos: nat): (r: Out<Expr>)
    requires WellFormed(toks) && pos < |toks|
    ensures pos <= r.next < |toks|
    ensures r.result.Err? ==> r.result.error.Expected? || r.result.error.ExpectedPrimary?
    decreases |toks| - pos, 3
  {
    if toks[pos].kind in FactorOps then
      var right :- ParseUnary(toks, pos + 1);
      FactorLoop(toks, BinExpr(left, toks[pos], right.0), right.1)
    else
      Out(Ok(left), pos)
  }

  function ParseUnary(toks: seq<Token>, pos: nat): (r: Out<Expr>)
    requires WellFormed(toks) && pos < |toks|
    ensures Moves(toks, pos, r)
    decreases |toks| - pos, 2
  {
    if toks[pos].kind in UnaryOps then
      var operand :- ParsePrimary(toks, pos + 1, None);
      Out(Ok(UnaryExpr(toks[pos], operand.0)), operand.1)
    else
      ParsePrimary(toks, pos, None)
  }

  /** `parse_primary`; `required` is the optional kind the caller insists on (only ever IDENT). */
  function ParsePrimary(toks: seq<Token>, pos: nat, required: Option<TokenKind>): (r: Out<Expr>)
    requires WellFormed(toks) && pos < |toks|
    requires required == None || required == Some(Ident)
    ensures Moves(toks, pos, r)
    ensures required.Some? && r.result.Ok? ==> r.result.value == MakePrimary(toks[pos]) && toks[pos].kind == Ident
    ensures toks[pos].kind == Ident || (required == None && toks[pos].kind == Number) ==>
              r == Out(Ok(MakePrimary(toks[pos])), pos + 1)
    decreases |toks| - pos, 1
  {
    if required.Some? && toks[pos].kind != required.value then
      Require(toks, pos, required.value).PropagateFailure()
    else if toks[pos].kind in {Ident, Number} then
      Out(Ok(MakePrimary(toks[pos])), pos + 1)
    else if toks[pos].kind == LeftParen then
      var inner :- ParseExpr(toks, pos + 1);
      var close :- Require(toks, inner.1, RightParen);
      Out(Ok(inner.0), close.1)
    else
      Out(Err(ExpectedPrimary(toks[pos].line)), pos)
  }

  // ----- statements -----

  function ParseDefinition(toks: seq<Token>, pos: nat): (r: Out<Stmt>)
    requires WellFormed(toks) && pos < |toks|
    ensures Moves(toks, pos, r)
  {
    var name :- ParsePrimary(toks, pos, Some(Ident));
    var colon :- Require(toks, name.1, Colon);
    var ty :- Require(toks, colon.1, TypeName);
    var assign :- Require(toks, ty.1, Assign);
    var rhs :- ParseExpr(toks, assign.1);
    Out(Ok(Definition(name.0.tok, rhs.0, TypeAt(toks, colon.1), None)), rhs.1)
  }

  /** `parse_assignment`: rejects a non-assignable left-hand side before consuming anything. */
  function ParseAssignment(toks: seq<Token>, lhs: Expr, pos: nat): (r: Out<Stmt>)
    requires WellFormed(toks) && pos < |toks|
    ensures pos <= r.next < |toks|
    ensures r.result.Ok? ==> pos < r.next
    ensures (r.result.Err? && r.result.error.InvalidLvalue?) <==> !IsValidLvalue(lhs)
    ensures !IsValidLvalue(lhs) ==> r.next == pos && r.result.error == InvalidLvalue(toks[pos].line)
  {
    if !IsValidLvalue(lhs) then
      Out(Err(InvalidLvalue(toks[pos].line)), pos)
    else
      var assign :- Require(toks, pos, Assign);
      var rhs :- ParseExpr(toks, assign.1);
      Out(Ok(Assignment(lhs, rhs.0)), rhs.1)
  }

  function ParseReturn(toks: seq<Token>, pos: nat): (r: Out<Stmt>)
    requires WellFormed(toks) && pos < |toks|
    ensures Moves(toks, pos, r)
    ensures toks[pos].kind == Return ==> pos < r.next
  {
    var ret :- Require(toks, pos, Return);
    var e :- ParseExpr(toks, ret.1);
    Out(Ok(ReturnStatement(e.0)), e.1)
  }

  /** The statements that start like an expression: a definition, an assignment or a bare expression. */
  function ParseSimpleStatement(toks: seq<Token>, pos: nat): (r: Out<Stmt>)
    requires WellFormed(toks) && pos < |toks| && toks[pos].kind in {Ident, Number, Star}
    ensures pos <= r.next < |toks|
    ensures r.result.Ok? ==> pos < r.next
  {
    if toks[pos + 1].kind == Colon then
      ParseDefinition(toks, pos)
    else
      var e :- ParseExpr(toks, pos);
      if toks[e.1].kind == Assign then ParseAssignment(toks, e.0, e.1)
      else Out(Ok(ExprStatement(e.0)), e.1)
  }

  /**
   * `parse_statement`: the production is chosen by the current token; a
   * token that starts none of them makes it call `Recover` and then raise.
   * Every statement must be followed by a newline.
   */
  function ParseStatement(toks: seq<Token>, pos: nat, errs: seq<ParseError>): (r: SOut<Stmt>)
    requires WellFormed(toks) && pos < |toks|
    ensures SMoves(toks, pos, errs, r)
    ensures r.result.Ok? ==> 0 < r.next && toks[r.next - 1].kind == Newline
    decreases |toks| - pos, 3
  {
    var stmt :- StatementHead(toks, pos, errs);
    var newline :- Lift(Require(toks, stmt.1, Newline), stmt.2);
    SOut(Ok(stmt.0), newline.1, stmt.2)
  }

  /** The production of `parse_statement` chosen by the current token, up to its closing newline. */
  function StatementHead(toks: seq<Token>, pos: nat, errs: seq<ParseError>): (r: SOut<Stmt>)
    requires WellFormed(toks) && pos < |toks|
    ensures SMoves(toks, pos, errs, r)
    decreases |toks| - pos, 2
  {
    var k := toks[pos].kind;
    if k in {Ident, Number, Star} then Lift(ParseSimpleStatement(toks, pos), errs)
    else if k == If then ParseIf(toks, pos, errs)
    else if k == While then ParseWhile(toks, pos, errs)
    else if k == Return then Lift(ParseReturn(toks, pos), errs)
    else
      var p := Recover(toks, pos);
      SOut(Err(ExpectedStatement(toks[p].line)), p, errs)
  }

  function ParseIf(toks: seq<Token>, pos: nat, errs: seq<ParseError>): (r: SOut<Stmt>)
    requires WellFormed(toks) && pos < |toks|
    ensures SMoves(toks, pos, errs, r)
    ensures toks[pos].kind == If ==> pos < r.next
    decreases |toks| - pos, 1
  {
    var kw :- Lift(Require(toks, pos, If), errs);
    var cond :- Lift(ParseExpr(toks, kw.1), errs);
    var nl :- Lift(Require(toks, cond.1, Newline), errs);
    var trueBody := ParseBody(toks, nl.1, errs);
    ParseIfTail(toks, cond.0, trueBody.result.value, trueBody.next, trueBody.errors)
  }

  /** The rest of an `if` after its first body: an optional `else` branch, then `end`. */
  function ParseIfTail(toks: seq<Token>, cond: Expr, trueBody: Body, pos: nat, errs: seq<ParseError>): (r: SOut<Stmt>)
    requires WellFormed(toks) && pos < |toks|
    ensures SMoves(toks, pos, errs, r)
    decreases |toks| - pos, 0
  {
    if toks[pos].kind == Else then
      var nl :- Lift(Require(toks, pos + 1, Newline), errs);
      var falseBody := ParseBody(toks, nl.1, errs);
      var end :- Lift(Require(toks, falseBody.next, End), falseBody.errors);
      SOut(Ok(IfStatement(cond, trueBody, Some(falseBody.result.value))), end.1, falseBody.errors)
    else
      var end :- Lift(Require(toks, pos, End), errs);
      SOut(Ok(IfStatement(cond, trueBody, None)), end.1, errs)
  }

  function ParseWhile(toks: seq<Token>, pos: nat, errs: seq<ParseError>): (r: SOut<Stmt>)
    requires WellFormed(toks) && pos < |toks|
    ensures SMoves(toks, pos, errs, r)
    ensures toks[pos].kind == While ==> pos < r.next
    decreases |toks| - pos, 1
  {
    var kw :- Lift(Require(toks, pos, While), errs);
    var cond :- Lift(ParseExpr(toks, kw.1), errs);
    var nl :- Lift(Require(toks, cond.1, Newline), errs);
    var body := ParseBody(toks, nl.1, errs);
    var end :- Lift(Require(toks, body.next, End), body.errors);
    SOut(Ok(WhileStatement(cond.0, body.result.value)), end.1, body.errors)
  }

  /** `parse_body` never raises: errors inside it are recorded and followed by `recover`. */
  function ParseBody(toks: seq<Token>, pos: nat, errs: seq<ParseError>): (r: SOut<Body>)
    requires WellFormed(toks) && pos < |toks|
    ensures pos <= r.next < |toks| && errs <= r.errors && r.result.Ok?
    decreases |toks| - pos, 5
  {
    BodyLoop(toks, pos, errs, [])
  }

  function BodyLoop(toks: seq<Token>, pos: nat, errs: seq<ParseError>, stmts: seq<Stmt>): (r: SOut<Body>)
    requires WellFormed(toks) && pos < |toks|
    ensures pos <= r.next < |toks| && errs <= r.errors && r.result.Ok?
    ensures toks[r.next].kind !in FirstBody
    decreases |toks| - pos, 4
  {
    if toks[pos].kind !in FirstBody then
      SOut(Ok(Body(stmts)), pos, errs)
    else if toks[pos].kind == Newline then
      BodyLoop(toks, pos + 1, errs, stmts)
    else
      var s := ParseStatement(toks, pos, errs);
      if s.result.Ok? then
        BodyLoop(toks, s.next, s.errors, stmts + [s.result.value])
      else
        BodyLoop(toks, Recover(toks, s.next), s.errors + [s.result.error], stmts)
  }

  /** A blank line inside a body is skipped. */
  lemma BodyLoopNewline(toks: seq<Token>, pos: nat, errs: seq<ParseError>, stmts: seq<Stmt>)
    requires WellFormed(toks) && pos < |toks| && toks[pos].kind == Newline
    ensures pos + 1 < |toks|
    ensures BodyLoop(toks, pos, errs, stmts) == BodyLoop(toks, pos + 1, errs, stmts)
  {
  }

  /** No body starts at the end of input. */
  lemma EofStartsNoBody(k: TokenKind)
    requires k in FirstBody
    ensures k != Eof
  {
  }

  /** One round of the body loop on a token that starts a statement. */
  lemma BodyLoopStatement(toks: seq<Token>, pos: nat, errs: seq<ParseError>, stmts: seq<Stmt>)
    requires WellFormed(toks) && pos < |toks| && toks[pos].kind in FirstBody && toks[pos].kind != Newline
    ensures var s := ParseStatement(toks, pos, errs);
      BodyLoop(toks, pos, errs, stmts) ==
        if s.result.Ok? then BodyLoop(toks, s.next, s.errors, stmts + [s.result.value])
        else BodyLoop(toks, Recover(toks, s.next), s.errors + [s.result.error], stmts)
  {
  }

  function ParseParams(toks: seq<Token>, pos: nat, params: seq<Param>): (r: Out<seq<Param>>)
    requires WellFormed(toks) && pos < |toks|
    ensures pos <= r.next < |toks|
    decreases |toks| - pos
  {
    if toks[pos].kind == Ident then
      var ident := ParsePrimary(toks, pos, Some(Ident));
      var colon :- Require(toks, ident.next, Colon);
      var ty :- Require(toks, colon.1, TypeName);
      var ps := params + [Param(ident.result.value.tok, TypeAt(toks, colon.1))];
      if toks[ty.1].kind != RightParen then
        var comma :- Require(toks, ty.1, Comma);
        ParseParams(toks, comma.1, ps)
      else
        ParseParams(toks, ty.1, ps)
    else
      Out(Ok(params), pos)
  }

  function ParseFunction(toks: seq<Token>, pos: nat, errs: seq<ParseError>): (r: SOut<Stmt>)
    requires WellFormed(toks) && pos < |toks|
    ensures SMoves(toks, pos, errs, r)
  {
    var header :- Lift(FunctionHeader(toks, pos), errs);
    var body := ParseBody(toks, header.1, errs);
    var end :- Lift(Require(toks, body.next, End), body.errors);
    var (name, params, returnType) := header.0;
    SOut(Ok(FunctionDefinition(name, params, returnType, body.result.value, None)), end.1, body.errors)
  }

  /** The header of a function definition, `fn name(params): type` and its newline: the name, the parameters and the return type. */
  function FunctionHeader(toks: seq<Token>, pos: nat): (r: Out<(Token, seq<Param>, Type)>)
    requires WellFormed(toks) && pos < |toks|
    ensures toks[pos].kind == Fn ==> pos < r.next
    ensures pos <= r.next < |toks| && (r.result.Ok? ==> pos < r.next)
    ensures r.result.Ok? ==> r.result.value.0.kind == Ident
  {
    var signature :- FunctionSignature(toks, pos);
    var colon :- Require(toks, signature.1, Colon);
    var ty :- Require(toks, colon.1, TypeName);
    var nl :- Require(toks, ty.1, Newline);
    Out(Ok((signature.0.0, signature.0.1, TypeAt(toks, colon.1))), nl.1)
  }

  /** `fn name(params)`: the name and the parameters. */
  function FunctionSignature(toks: seq<Token>, pos: nat): (r: Out<(Token, seq<Param>)>)
    requires WellFormed(toks) && pos < |toks|
    ensures toks[pos].kind == Fn ==> pos < r.next
    ensures pos <= r.next < |toks| && (r.result.Ok? ==> pos < r.next)
    ensures r.result.Ok? ==> r.result.value.0.kind == Ident
  {
    var name :- FunctionName(toks, pos);
    var open :- Require(toks, name.1, LeftParen);
    var params :- ParseParams(toks, open.1, []);
    var close :- Require(toks, params.1, RightParen);
    Out(Ok((name.0, params.0)), close.1)
  }

  /** `fn name`: the name token. */
  function FunctionName(toks: seq<Token>, pos: nat): (r: Out<Token>)
    requires WellFormed(toks) && pos < |toks|
    ensures toks[pos].kind == Fn ==> pos < r.next
    ensures Moves(toks, pos, r)
    ensures r.result.Ok? ==> r.result.value.kind == Ident
  {
    var kw :- Require(toks, pos, Fn);
    var name :- ParsePrimary(toks, kw.1, Some(Ident));
    Out(Ok(name.0.tok), name.1)
  }

  /**
   * The result of `parse_program`: a program and its syntax errors, or
   * `Diverges` when an item raises without consuming any token. The loop
   * then stands at the same position with the same tokens, so it raises the
   * same error again, forever, appending `repeated` each time.
   */
  datatype ProgramOutcome =
    | Parsed(program: Program, errors: seq<ParseError>)
    | Diverges(at: nat, errors: seq<ParseError>, repeated: ParseError)

  /** One top-level item: a function definition when it starts with `fn`, a statement otherwise. */
  function ProgramItem(toks: seq<Token>, pos: nat, errs: seq<ParseError>): (r: SOut<Stmt>)
    requires WellFormed(toks) && pos < |toks|
    ensures SMoves(toks, pos, errs, r)
  {
    if toks[pos].kind == Fn then ParseFunction(toks, pos, errs) else ParseStatement(toks, pos, errs)
  }

  function ProgramLoop(toks: seq<Token>, pos: nat, errs: seq<ParseError>, contents: seq<Stmt>): (r: ProgramOutcome)
    requires WellFormed(toks) && pos < |toks|
    ensures errs <= r.errors
    ensures r.Diverges? ==> pos <= r.at < |toks| - 1 && toks[r.at].kind != Eof
    decreases |toks| - pos
  {
    if toks[pos].kind == Eof then
      Parsed(Program(contents), errs)
    else if toks[pos].kind == Newline then
      ProgramLoop(toks, pos + 1, errs, contents)
    else
      var s := ProgramItem(toks, pos, errs);
      if s.result.Ok? then
        ProgramLoop(toks, s.next, s.errors, contents + [s.result.value])
      else if s.next == pos then
        Diverges(pos, s.errors, s.result.error)
      else
        ProgramLoop(toks, s.next, s.errors + [s.result.error], contents)
  }

  /** A blank line at top level is skipped. */
  lemma ProgramLoopNewline(toks: seq<Token>, pos: nat, errs: seq<ParseError>, contents: seq<Stmt>)
    requires WellFormed(toks) && pos < |toks| && toks[pos].kind == Newline
    ensures pos + 1 < |toks|
    ensures ProgramLoop(toks, pos, errs, contents) == ProgramLoop(toks, pos + 1, errs, contents)
  {
  }

  /** One round of the top-level loop on a token that starts an item. */
  lemma ProgramLoopItem(toks: seq<Token>, pos: nat, errs: seq<ParseError>, contents: seq<Stmt>)
    requires WellFormed(toks) && pos < |toks| && toks[pos].kind != Eof && toks[pos].kind != Newline
    ensures var s := ProgramItem(toks, pos, errs);
      ProgramLoop(toks, pos, errs, contents) ==
        if s.result.Ok? then ProgramLoop(toks, s.next, s.errors, contents + [s.result.value])
        else if s.next == pos then Diverges(pos, s.errors, s.result.error)
        else ProgramLoop(toks, s.next, s.errors + [s.result.error], contents)
  {
  }

  function ParseProgram(toks: seq<Token>): (r: ProgramOutcome)
    requires WellFormed(toks)
    ensures r.Diverges? ==> r.at < |toks| - 1 && toks[r.at].kind != Eof
  {
    ProgramLoop(toks, 0, [], [])
  }
}
