/**
 * Properties of the reference analyzer: what a name resolves to, what
 * `define` changes, which reports a walk produces, and which scopes the
 * nested constructs open and close.
 */
module AnalyzerProperties {
  import opened Wrappers
  import opened Tokens
  import opened Types
  import opened Ast
  import opened AnalyzerSpec

  // ----- scopes -----

  /** `scopes[i]` binds `name` and no scope inside it does. */
  predicate InnermostBinding(scopes: seq<Scope>, name: string, i: nat) {
    && i < |scopes|
    && name in scopes[i]
    && forall j :: i < j < |scopes| ==> name !in scopes[j]
  }

  /** A name resolves to the binding of the innermost scope that has it. */
  lemma {:induction false} LookupFindsInnermost(scopes: seq<Scope>, name: string, t: string)
    ensures Lookup(scopes, name) == Some(t) <==> exists i: nat :: InnermostBinding(scopes, name, i) && scopes[i][name] == t
    decreases |scopes|
  {
    if |scopes| > 0 {
      var last := |scopes| - 1;
      var outer := Enclosing(scopes);
      if name in scopes[last] {
        if Lookup(scopes, name) == Some(t) {
          assert InnermostBinding(scopes, name, last);
        }
        forall i: nat | InnermostBinding(scopes, name, i) ensures i == last {}
      } else {
        LookupFindsInnermost(outer, name, t);
        forall i: nat ensures InnermostBinding(scopes, name, i) <==> InnermostBinding(outer, name, i) {
          if InnermostBinding(outer, name, i) {
            assert outer[i] == scopes[i];
          }
        }
        if exists i: nat :: InnermostBinding(outer, name, i) && outer[i][name] == t {
          var i: nat :| InnermostBinding(outer, name, i) && outer[i][name] == t;
          assert scopes[i] == outer[i];
        }
        if exists i: nat :: InnermostBinding(scopes, name, i) && scopes[i][name] == t {
          var i: nat :| InnermostBinding(scopes, name, i) && scopes[i][name] == t;
          assert scopes[i] == outer[i];
        }
      }
    }
  }

  /** A name resolves to nothing exactly when no scope binds it. */
  lemma {:induction false} LookupFailsIffUnbound(scopes: seq<Scope>, name: string)
    ensures Lookup(scopes, name) == None <==> forall i :: 0 <= i < |scopes| ==> name !in scopes[i]
    decreases |scopes|
  {
    if |scopes| > 0 {
      var outer := Enclosing(scopes);
      LookupFailsIffUnbound(outer, name);
      if name !in Innermost(scopes) {
        forall i | 0 <= i < |outer| ensures outer[i] == scopes[i] {}
      }
    }
  }

  /**
   * `define` succeeds exactly when the innermost scope does not yet bind
   * the name; it then makes the name resolve to the type and leaves every
   * other name and every enclosing scope as it was. A redefinition changes
   * no scope.
   */
  lemma DefineBindsInInnermost(st: State, name: string, ty: string, line: nat, other: string)
    requires |st.scopes| > 0 && other != name
    ensures var d := Define(st, name, ty, line);
      && |d.state.scopes| == |st.scopes|
      && Enclosing(d.state.scopes) == Enclosing(st.scopes)
      && (d.node <==> name !in Innermost(st.scopes))
      && (d.node ==> Lookup(d.state.scopes, name) == Some(ty) && d.state.reports == st.reports)
      && (!d.node ==> d.state.scopes == st.scopes)
      && Lookup(d.state.scopes, other) == Lookup(st.scopes, other)
  {
    var d := Define(st, name, ty, line);
    if d.node {
      assert Enclosing(d.state.scopes) == Enclosing(st.scopes);
    }
  }

  /** A redefinition is reported unless the name was reported before; the report carries the definition's line. */
  lemma RedefinitionIsReported(st: State, name: string, ty: string, line: nat)
    requires |st.scopes| > 0 && name in Innermost(st.scopes)
    ensures var d := Define(st, name, ty, line);
      && !d.node
      && d.state.reports == st.reports + (if name in st.reported then [] else [SemanticError(Redefinition(name), line)])
  {
  }

  /** `access` gives the type the name resolves to; an unresolved name is reported once, with the use's line. */
  lemma AccessResolvesOrReports(st: State, name: string, line: nat)
    ensures var a := Access(st, name, line);
      && a.node == Lookup(st.scopes, name)
      && a.state.scopes == st.scopes
      && (a.node.Some? ==> a.state == st)
      && (a.node.None? ==>
            a.state.reports == st.reports + (if name in st.reported then [] else [SemanticError(UsedBeforeDefinition(name), line)]))
  {
  }

  // ----- the walk -----

  /** A number literal is typed "int" and changes nothing else. */
  lemma NumberIsInt(t: Token, d: Option<string>, st: State)
    requires t.kind == Number
    ensures ExprF(Primary(t, d), st) == Walked(Primary(t, Some("int")), st)
  {
  }

  /** An identifier bound in any enclosing scope is typed with its innermost binding, without a report. */
  lemma BoundIdentifierIsTyped(t: Token, st: State, i: nat)
    requires t.kind == Ident && InnermostBinding(st.scopes, t.literal, i)
    ensures ExprF(Primary(t, None), st) == Walked(Primary(t, Some(st.scopes[i][t.literal])), st)
  {
    LookupFindsInnermost(st.scopes, t.literal, st.scopes[i][t.literal]);
  }

  /** Example: in `x op x` with `x` undefined, the two uses give one report, at the first use. */
  lemma UndefinedNameReportedOnce(x: Token, op: Token, y: Token, st: State)
    requires x.kind == Ident && y.kind == Ident && x.literal == y.literal
    requires forall i :: 0 <= i < |st.scopes| ==> x.literal !in st.scopes[i]
    requires x.literal !in st.reported
    ensures ExprF(BinExpr(Primary(x, None), op, Primary(y, None)), st).state.reports
      == st.reports + [SemanticError(UsedBeforeDefinition(x.literal), x.line)]
  {
    LookupFailsIffUnbound(st.scopes, x.literal);
  }

  /**
   * A definition binds its name before its right-hand side is walked, so
   * `x : int = x` uses the new `x` and reports nothing.
   */
  lemma DefinitionVisibleInOwnInitializer(x: Token, ty: Type, st: State)
    requires x.kind == Ident && |st.scopes| > 0 && x.literal !in Innermost(st.scopes)
    ensures var r := StmtF(Definition(x, Primary(x, None), ty, None), st);
      && r.node == Definition(x, Primary(x, Some(ty.Name())), ty, Some(ty.Name()))
      && r.state.reports == st.reports
  {
    var d := Define(st, x.literal, ty.Name(), x.line);
    assert Innermost(d.state.scopes) == Innermost(st.scopes)[x.literal := ty.Name()];
    assert Lookup(d.state.scopes, x.literal) == Some(ty.Name());
  }

  /** An `if` or a `while` leaves the scope stack exactly as it found it: nothing defined inside is visible after it. */
  lemma NestedScopesAreClosed(s: Stmt, st: State)
    requires (s.IfStatement? || s.WhileStatement?) && |st.scopes| > 0
    ensures StmtF(s, st).state.scopes == st.scopes
  {
  }

  /** A fresh innermost scope hides nothing: a name resolves as it did without it. */
  lemma LookupThroughEmptyScope(scopes: seq<Scope>, name: string)
    ensures Lookup(scopes + [map[]], name) == Lookup(scopes, name)
  {
    assert Enclosing(scopes + [map[]]) == scopes;
  }

  /**
   * The condition of an `if` or a `while` is walked after the new scope is
   * pushed, and that scope is still empty then: the condition gets the
   * annotations and the reports it would get outside, and the new scope
   * stays on top.
   */
  lemma {:induction false} ConditionResolvesAsOutside(e: Expr, st: State)
    ensures var inner := ExprF(e, NewScope(st));
      var outer := ExprF(e, st);
      inner.node == outer.node && inner.state == NewScope(outer.state)
    decreases e
  {
    match e
    case Primary(t, _) =>
      LookupThroughEmptyScope(st.scopes, t.literal);
    case UnaryExpr(_, x) =>
      ConditionResolvesAsOutside(x, st);
    case BinExpr(l, _, x) =>
      ConditionResolvesAsOutside(l, st);
      ConditionResolvesAsOutside(x, ExprF(l, st).state);
    case FunctionCall(n, _, _) =>
      LookupThroughEmptyScope(st.scopes, n.literal);
  }

  /**
   * A function definition changes the scopes exactly as defining its name
   * does: its parameters and the definitions of its body are gone after it.
   */
  lemma FunctionBindsOnlyItsName(s: Stmt, st: State)
    requires s.FunctionDefinition? && |st.scopes| > 0
    ensures StmtF(s, st).state.scopes == Define(st, s.name.literal, s.returnType.Name(), s.name.line).state.scopes
  {
    var d := Define(st, s.name.literal, s.returnType.Name(), s.name.line);
    var inner := NewScope(d.state);
    assert Enclosing(inner.scopes) == d.state.scopes;
    var ps := ParamsF(s.params, inner);
    var b := BodyF(s.body, ps);
    assert Enclosing(b.state.scopes) == d.state.scopes;
  }

  /** A definition token for `name` on line `line`, with a number as right-hand side. */
  function DefineNumber(name: string, line: nat): Stmt {
    Definition(Token(Ident, name, line), Primary(Token(Number, "1", line), None), Basic("int", 4, false), None)
  }

  /** Walking a definition of `name`: a fresh name is bound silently, a name the innermost scope binds is reported. */
  lemma DefineNumberWalk(name: string, line: nat, st: State)
    requires |st.scopes| > 0 && name !in st.reported
    ensures var w := StmtF(DefineNumber(name, line), st).state;
      name !in Innermost(st.scopes) ==> w.reports == st.reports && name in Innermost(w.scopes) && name !in w.reported
    ensures name in Innermost(st.scopes) ==>
      StmtF(DefineNumber(name, line), st).state.reports == st.reports + [SemanticError(Redefinition(name), line)]
  {
  }

  /** A body of one statement walks as that statement. */
  lemma SingleStatementBody(s: Stmt, st: State)
    requires |st.scopes| > 0
    ensures BodyF(Body([s]), st).state == StmtF(s, st).state
  {
    var first := StmtF(s, st);
    assert [s][0] == s && [s][1..] == [];
    assert StmtsF([], first.state).state == first.state;
    assert StmtsF([s], st).state == StmtsF([], first.state).state;
  }

  /**
   * Example: both branches of an `if` share one scope, so defining `x` in
   * each branch is reported as a redefinition at the second one.
   */
  lemma IfBranchesShareOneScope(st: State, cond: Token)
    requires |st.scopes| > 0 && "x" !in st.reported && cond.kind == Number
    ensures var s := IfStatement(Primary(cond, None), Body([DefineNumber("x", 2)]), Some(Body([DefineNumber("x", 4)])));
      StmtF(s, st).state.reports == st.reports + [SemanticError(Redefinition("x"), 4)]
  {
    var inner := NewScope(st);
    assert ExprF(Primary(cond, None), inner).state == inner;
    DefineNumberWalk("x", 2, inner);
    SingleStatementBody(DefineNumber("x", 2), inner);
    var tb := BodyF(Body([DefineNumber("x", 2)]), inner);
    DefineNumberWalk("x", 4, tb.state);
    SingleStatementBody(DefineNumber("x", 4), tb.state);
  }

  /** An analysis of a whole program reports each name at most once. */
  lemma AnalysisReportsEachNameOnce(p: Program)
    ensures var r := Analyze(p).state;
      forall i, j :: 0 <= i < j < |r.reports| ==> Subject(r.reports[i]) != Subject(r.reports[j])
  {
  }

  // ----- the return type of a function definition -----

  /**
   * A function's name is bound to its return type's name: after a
   * definition of a name the innermost scope did not bind, the name
   * resolves to that type and the definition records it.
   */
  lemma FunctionNameResolvesToReturnType(s: Stmt, st: State)
    requires s.FunctionDefinition? && |st.scopes| > 0 && s.name.literal !in Innermost(st.scopes)
    ensures var r := StmtF(s, st);
      && Lookup(r.state.scopes, s.name.literal) == Some(s.returnType.Name())
      && r.node.FunctionDefinition? && r.node.fnType == Some(s.returnType.Name())
  {
    FunctionBindsOnlyItsName(s, st);
    var d := Define(st, s.name.literal, s.returnType.Name(), s.name.line);
    assert Innermost(d.state.scopes) == Innermost(st.scopes)[s.name.literal := s.returnType.Name()];
  }

  /**
   * The text-valued attributes of a type object, as `Type.__init__` assigns
   * them (parser.py:61-64; `PointerType` adds only `base_type`,
   * parser.py:89-92): only `name` holds text
   * (`size` is a number, `signed` a flag, a pointer's `base_type` a type);
   * no other attribute exists on it.
   */
  function TypeTextAttribute(t: Type, attribute: string): Option<string> {
    if attribute == "name" then Some(t.Name()) else None
  }

  /**
   * `postorder` on a function definition as written (semantic_analyzer.py:112):
   * the name is bound to the return type's `literal` attribute, which is read
   * before anything else.
   */
  function FunctionAsWritten(s: Stmt, st: State): (r: Result<Walked<Stmt>, Raised>)
    requires s.FunctionDefinition? && |st.scopes| > 0
    ensures r.Ok? ==> Evolves(st, r.value.state)
  {
    match TypeTextAttribute(s.returnType, "literal")
    case None => Err(AttributeError("literal"))
    case Some(literal) => Ok(FunctionF(s, literal, st))
  }

  /** As written, every function definition raises, whatever its return type and whatever the state. */
  lemma FunctionDefinitionRaises(s: Stmt, st: State)
    requires s.FunctionDefinition? && |st.scopes| > 0
    ensures FunctionAsWritten(s, st) == Err(AttributeError("literal"))
  {
  }
}
