/**
 * A reference definition of the N4 semantic analyzer: a post-order walk of
 * the tree that threads a state made of the scope stack (innermost scope
 * last), the reports and the set of names already reported. Every walk
 * function returns the annotated node together with the new state.
 *
 * Types are represented by their names: a definition binds the name of its
 * declared type, and a number literal gets the type name "int".
 */
module AnalyzerSpec {
  import opened Wrappers
  import opened Tokens
  import opened Types
  import opened Ast

  datatype Message =
    | UsedBeforeDefinition(name: string)
    | Redefinition(name: string)

  /** A semantic error: a report, not an exception; analysis goes on after it. */
  datatype SemanticError = SemanticError(message: Message, line: nat)

  type Scope = map<string, string>

  datatype State = State(scopes: seq<Scope>, reports: seq<SemanticError>, reported: set<string>)

  /** A node of type `T` after the walk, and the state the walk leaves. */
  datatype Walked<T> = Walked(node: T, state: State)

  /** The state of a fresh analyzer: one empty global scope, nothing reported. */
  function Initial(): State {
    State([map[]], [], {})
  }

  /** The innermost scope. */
  function Innermost(scopes: seq<Scope>): Scope
    requires |scopes| > 0
  {
    scopes[|scopes| - 1]
  }

  /** All scopes but the innermost. */
  function Enclosing(scopes: seq<Scope>): seq<Scope>
    requires |scopes| > 0
  {
    scopes[..|scopes| - 1]
  }

  /** `b` keeps every binding of `a`. */
  predicate Extends(a: Scope, b: Scope) {
    forall n :: n in a ==> n in b && b[n] == a[n]
  }

  /**
   * What a walk may do to the state: the stack keeps its depth, the
   * enclosing scopes are untouched, the innermost scope only gains
   * bindings, and reports are only appended.
   */
  predicate Evolves(st: State, r: State)
    requires |st.scopes| > 0
  {
    && |r.scopes| == |st.scopes|
    && Enclosing(r.scopes) == Enclosing(st.scopes)
    && Extends(Innermost(st.scopes), Innermost(r.scopes))
    && st.reports <= r.reports
    && st.reported <= r.reported
  }

  /** The name a report is about. */
  function Subject(e: SemanticError): string {
    e.message.name
  }

  /** The names the reports are about. */
  function Subjects(rs: seq<SemanticError>): set<string> {
    if |rs| == 0 then {} else Subjects(rs[..|rs| - 1]) + {Subject(rs[|rs| - 1])}
  }

  lemma {:induction false} SubjectsContainsEach(rs: seq<SemanticError>, i: nat)
    requires i < |rs|
    ensures Subject(rs[i]) in Subjects(rs)
    decreases |rs|
  {
    if i < |rs| - 1 {
      SubjectsContainsEach(rs[..|rs| - 1], i);
    }
  }

  /**
   * The bookkeeping of `report`: `reported` is exactly the set of names
   * the reports are about, and no two reports are about the same name.
   */
  predicate OneReportPerName(st: State) {
    && st.reported == Subjects(st.reports)
    && forall i, j :: 0 <= i < j < |st.reports| ==> Subject(st.reports[i]) != Subject(st.reports[j])
  }

  // ----- report, access, define -----

  /** `report`: a name that has already been reported is not reported again. */
  function Report(st: State, message: Message, line: nat): (r: State)
    ensures r.scopes == st.scopes && st.reports <= r.reports
    ensures r.reported == st.reported + {message.name}
    ensures OneReportPerName(st) ==> OneReportPerName(r)
  {
    if message.name in st.reported then st
    else
      var r := st.(reports := st.reports + [SemanticError(message, line)], reported := st.reported + {message.name});
      assert OneReportPerName(st) ==> OneReportPerName(r) by {
        if OneReportPerName(st) {
          assert r.reports[..|r.reports| - 1] == st.reports;
          forall i, j | 0 <= i < j < |r.reports| ensures Subject(r.reports[i]) != Subject(r.reports[j]) {
            if j == |st.reports| {
              SubjectsContainsEach(st.reports, i);
            }
          }
        }
      }
      r
  }

  /** The scan of `access`: the binding in the innermost scope that has the name. */
  function Lookup(scopes: seq<Scope>, name: string): (r: Option<string>)
    ensures r.Some? ==> exists k :: 0 <= k < |scopes| && name in scopes[k] && scopes[k][name] == r.value
    decreases |scopes|
  {
    if |scopes| == 0 then None
    else if name in Innermost(scopes) then Some(Innermost(scopes)[name])
    else Lookup(Enclosing(scopes), name)
  }

  /** `access`: the type bound to the name, or a "used before definition" report. */
  function Access(st: State, name: string, line: nat): (r: Walked<Option<string>>)
    ensures r.state.scopes == st.scopes && st.reports <= r.state.reports
    ensures r.node.Some? ==> r.state == st
  {
    var t := Lookup(st.scopes, name);
    if t.Some? then Walked(t, st) else Walked(None, Report(st, UsedBeforeDefinition(name), line))
  }

  /** `define`: bind in the innermost scope, or report a redefinition and bind nothing. */
  function Define(st: State, name: string, ty: string, line: nat): (r: Walked<bool>)
    requires |st.scopes| > 0
    ensures r.node <==> name !in Innermost(st.scopes)
    ensures Evolves(st, r.state)
  {
    if name in Innermost(st.scopes) then Walked(false, Report(st, Redefinition(name), line))
    else Walked(true, st.(scopes := Enclosing(st.scopes) + [Innermost(st.scopes)[name := ty]]))
  }

  /** `new_scope`: pushes one empty scope, which `EndScope` pops again. */
  function NewScope(st: State): (r: State)
    ensures |r.scopes| == |st.scopes| + 1 && Innermost(r.scopes) == map[]
    ensures EndScope(r) == st
  {
    st.(scopes := st.scopes + [map[]])
  }

  /** `end_scope`: pops the innermost scope and changes nothing else. */
  function EndScope(st: State): (r: State)
    requires |st.scopes| > 0
    ensures |r.scopes| == |st.scopes| - 1 && forall k :: 0 <= k < |r.scopes| ==> r.scopes[k] == st.scopes[k]
    ensures r.reports == st.reports && r.reported == st.reported
  {
    st.(scopes := Enclosing(st.scopes))
  }

  /** `fitting_int_type`: every number literal gets the type "int". */
  function FittingIntType(literal: string): (r: string)
    ensures r in SizeMap
  {
    "int"
  }

  // ----- the walk -----

  /** The tree with every annotation cleared, as the parser builds it. */
  function Unannotated(e: Expr): Expr {
    match e
    case Primary(t, _) => Primary(t, None)
    case UnaryExpr(op, x) => UnaryExpr(op, Unannotated(x))
    case BinExpr(l, op, x) => BinExpr(Unannotated(l), op, Unannotated(x))
    case FunctionCall(n, args, _) => FunctionCall(n, args, None)
  }

  /**
   * `postorder` on an expression: identifiers are accessed, number literals
   * typed; a call accesses its callee only (its arguments are tokens, which
   * the walk passes over).
   */
  function ExprF(e: Expr, st: State): (r: Walked<Expr>)
    ensures r.state.scopes == st.scopes
    ensures st.reports <= r.state.reports && st.reported <= r.state.reported
    ensures OneReportPerName(st) ==> OneReportPerName(r.state)
    ensures Unannotated(r.node) == Unannotated(e)
  {
    match e
    case Primary(t, d) =>
      if t.kind == Ident then
        var a := Access(st, t.literal, t.line);
        Walked(Primary(t, if a.node.Some? then a.node else d), a.state)
      else if t.kind == Number then
        Walked(Primary(t, Some(FittingIntType(t.literal))), st)
      else
        Walked(e, st)
    case UnaryExpr(op, x) =>
      var x' := ExprF(x, st);
      Walked(UnaryExpr(op, x'.node), x'.state)
    case BinExpr(l, op, x) =>
      var l' := ExprF(l, st);
      var x' := ExprF(x, l'.state);
      Walked(BinExpr(l'.node, op, x'.node), x'.state)
    case FunctionCall(n, args, d) =>
      var a := Access(st, n.literal, n.line);
      Walked(FunctionCall(n, args, if a.node.Some? then a.node else d), a.state)
  }

  /** `postorder` on the parameters: each is defined in the innermost scope. */
  function ParamsF(ps: seq<Param>, st: State): (r: State)
    requires |st.scopes| > 0
    ensures Evolves(st, r)
    ensures OneReportPerName(st) ==> OneReportPerName(r)
    ensures forall p :: p in ps ==> p.ident.literal in Innermost(r.scopes)
    decreases |ps|
  {
    if |ps| == 0 then st
    else
      var d := Define(st, ps[0].ident.literal, ps[0].ty.Name(), ps[0].ident.line);
      ParamsF(ps[1..], d.state)
  }

  /** `postorder` on a statement. */
  function StmtF(s: Stmt, st: State): (r: Walked<Stmt>)
    requires |st.scopes| > 0
    ensures Evolves(st, r.state)
    ensures OneReportPerName(st) ==> OneReportPerName(r.state)
    decreases s, 1
  {
    match s
    case Definition(ident, rhs, ty, it) =>
      var d := Define(st, ident.literal, ty.Name(), ident.line);
      var rhs' := ExprF(rhs, d.state);
      Walked(Definition(ident, rhs'.node, ty, if d.node then Some(ty.Name()) else it), rhs'.state)
    case Assignment(lhs, rhs) =>
      var lhs' := ExprF(lhs, st);
      var rhs' := ExprF(rhs, lhs'.state);
      Walked(Assignment(lhs'.node, rhs'.node), rhs'.state)
    case IfStatement(_, _, _) => IfF(s, st)
    case WhileStatement(_, _) => WhileF(s, st)
    case ReturnStatement(x) =>
      var x' := ExprF(x, st);
      Walked(ReturnStatement(x'.node), x'.state)
    case ExprStatement(x) =>
      var x' := ExprF(x, st);
      Walked(ExprStatement(x'.node), x'.state)
    case FunctionDefinition(_, _, rt, _, _) => FunctionF(s, rt.Name(), st)
  }

  /** `if`: one new scope holds the condition and both branches, and is closed at the end. */
  function IfF(s: Stmt, st: State): (r: Walked<Stmt>)
    requires s.IfStatement? && |st.scopes| > 0
    ensures r.state.scopes == st.scopes
    ensures st.reports <= r.state.reports && st.reported <= r.state.reported
    ensures OneReportPerName(st) ==> OneReportPerName(r.state)
    decreases s, 0
  {
    var inner := NewScope(st);
    var c := ExprF(s.condition, inner);
    var tb := BodyF(s.trueBody, c.state);
    if s.falseBody.Some? then
      var fb := BodyF(s.falseBody.value, tb.state);
      Walked(IfStatement(c.node, tb.node, Some(fb.node)), EndScope(fb.state))
    else
      Walked(IfStatement(c.node, tb.node, None), EndScope(tb.state))
  }

  /** `while`: one new scope holds the condition and the body. */
  function WhileF(s: Stmt, st: State): (r: Walked<Stmt>)
    requires s.WhileStatement? && |st.scopes| > 0
    ensures r.state.scopes == st.scopes
    ensures st.reports <= r.state.reports && st.reported <= r.state.reported
    ensures OneReportPerName(st) ==> OneReportPerName(r.state)
    decreases s, 0
  {
    var inner := NewScope(st);
    var c := ExprF(s.condition, inner);
    var b := BodyF(s.body, c.state);
    Walked(WhileStatement(c.node, b.node), EndScope(b.state))
  }

  /**
   * A function definition binds its name to the type name `ty` in the
   * enclosing scope, then opens one scope for its parameters and its body.
   * The walk passes the return type's name as `ty`.
   */
  function FunctionF(s: Stmt, ty: string, st: State): (r: Walked<Stmt>)
    requires s.FunctionDefinition? && |st.scopes| > 0
    ensures Evolves(st, r.state)
    ensures OneReportPerName(st) ==> OneReportPerName(r.state)
    decreases s, 0
  {
    var d := Define(st, s.name.literal, ty, s.name.line);
    var inner := NewScope(d.state);
    var ps := ParamsF(s.params, inner);
    var b := BodyF(s.body, ps);
    Walked(FunctionDefinition(s.name, s.params, s.returnType, b.node, if d.node then Some(ty) else s.fnType),
           EndScope(b.state))
  }

  /** `postorder` on a body: its statements in order, in the current scope. */
  function BodyF(b: Body, st: State): (r: Walked<Body>)
    requires |st.scopes| > 0
    ensures Evolves(st, r.state)
    ensures OneReportPerName(st) ==> OneReportPerName(r.state)
    decreases b, 2
  {
    var ss := StmtsF(b.statements, st);
    Walked(Body(ss.node), ss.state)
  }

  function StmtsF(ss: seq<Stmt>, st: State): (r: Walked<seq<Stmt>>)
    requires |st.scopes| > 0
    ensures Evolves(st, r.state)
    ensures OneReportPerName(st) ==> OneReportPerName(r.state)
    ensures |r.node| == |ss|
    decreases ss, 0
  {
    if |ss| == 0 then Walked([], st)
    else
      var first := StmtF(ss[0], st);
      var rest := StmtsF(ss[1..], first.state);
      Walked([first.node] + rest.node, rest.state)
  }

  /** `postorder` on a program: its items in order, in the global scope. */
  function ProgramF(p: Program, st: State): (r: Walked<Program>)
    requires |st.scopes| > 0
    ensures Evolves(st, r.state)
    ensures OneReportPerName(st) ==> OneReportPerName(r.state)
    ensures |r.node.contents| == |p.contents|
  {
    var ss := StmtsF(p.contents, st);
    Walked(Program(ss.node), ss.state)
  }

  /** `analyze` on a fresh analyzer. */
  function Analyze(p: Program): (r: Walked<Program>)
    ensures |r.node.contents| == |p.contents|
    ensures OneReportPerName(r.state)
    ensures |r.state.scopes| == 1
  {
    ProgramF(p, Initial())
  }
}
