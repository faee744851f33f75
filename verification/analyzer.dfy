/**
 * The N4 semantic analyzer as an object: a scope stack (innermost scope
 * last), the reports, the set of names already reported, and the tree it
 * walks. Every method is proved to leave exactly the state, and to give
 * exactly the annotated node, that the reference functions of
 * AnalyzerSpec give.
 */
module Analyzer {
  import opened Wrappers
  import opened Tokens
  import opened Types
  import opened Ast
  import opened AnalyzerSpec

  class SemanticAnalyzer {
    var ast: Program
    var scopeStack: seq<Scope>
    var reports: seq<SemanticError>
    var reported: set<string>

    /** The analyzer's state as the reference functions see it. */
    ghost function State(): State
      reads this
    {
      AnalyzerSpec.State(scopeStack, reports, reported)
    }

    /** There is always a current scope to define in. */
    ghost predicate Valid()
      reads this
    {
      |scopeStack| > 0
    }

    constructor (ast: Program)
      ensures Valid() && this.ast == ast
      ensures State() == Initial()
    {
      this.ast := ast;
      scopeStack := [map[]];
      reports := [];
      reported := {};
    }

    method Report(message: Message, line: nat)
      modifies this`reports, this`reported
      ensures State() == AnalyzerSpec.Report(old(State()), message, line)
    {
      if message.name in reported {
        return;
      }
      reports := reports + [SemanticError(message, line)];
      reported := reported + {message.name};
    }

    /** `access`: scan the scopes from the innermost outwards. */
    method Access(name: string, line: nat) returns (dtype: Option<string>)
      modifies this`reports, this`reported
      ensures Walked(dtype, State()) == AnalyzerSpec.Access(old(State()), name, line)
    {
      var i := |scopeStack|;
      assert scopeStack[..i] == scopeStack;
      while i > 0
        invariant 0 <= i <= |scopeStack|
        invariant Lookup(scopeStack[..i], name) == Lookup(scopeStack, name)
      {
        assert Enclosing(scopeStack[..i]) == scopeStack[..i - 1];
        i := i - 1;
        if name in scopeStack[i] {
          return Some(scopeStack[i][name]);
        }
      }
      Report(UsedBeforeDefinition(name), line);
      return None;
    }

    /** `define`: whether the name was bound (false for a reported redefinition). */
    method Define(name: string, ty: string, line: nat) returns (bound: bool)
      requires Valid()
      modifies this`scopeStack, this`reports, this`reported
      ensures Valid()
      ensures Walked(bound, State()) == AnalyzerSpec.Define(old(State()), name, ty, line)
    {
      var last := |scopeStack| - 1;
      if name in scopeStack[last] {
        Report(Redefinition(name), line);
        return false;
      }
      scopeStack := scopeStack[..last] + [scopeStack[last][name := ty]];
      return true;
    }

    method NewScope()
      modifies this`scopeStack
      ensures Valid()
      ensures State() == AnalyzerSpec.NewScope(old(State()))
    {
      scopeStack := scopeStack + [map[]];
    }

    method EndScope()
      requires Valid()
      modifies this`scopeStack
      ensures State() == AnalyzerSpec.EndScope(old(State()))
    {
      scopeStack := scopeStack[..|scopeStack| - 1];
    }

    method PostorderExpr(e: Expr) returns (e': Expr)
      modifies this`reports, this`reported
      ensures Walked(e', State()) == ExprF(e, old(State()))
      decreases e
    {
      match e
      case Primary(t, d) =>
        e' := e;
        if t.kind == Ident {
          var found := Access(t.literal, t.line);
          if found.Some? {
            e' := Primary(t, found);
          }
        } else if t.kind == Number {
          e' := Primary(t, Some(FittingIntType(t.literal)));
        }
      case UnaryExpr(op, x) =>
        var x' := PostorderExpr(x);
        e' := UnaryExpr(op, x');
      case BinExpr(l, op, x) =>
        var l' := PostorderExpr(l);
        var x' := PostorderExpr(x);
        e' := BinExpr(l', op, x');
      case FunctionCall(n, args, d) =>
        e' := e;
        var found := Access(n.literal, n.line);
        if found.Some? {
          e' := FunctionCall(n, args, found);
        }
    }

    method PostorderParams(ps: seq<Param>)
      requires Valid()
      modifies this`scopeStack, this`reports, this`reported
      ensures Valid()
      ensures State() == ParamsF(ps, old(State()))
    {
      var i := 0;
      while i < |ps|
        invariant 0 <= i <= |ps| && Valid()
        invariant ParamsF(ps[i..], State()) == ParamsF(ps, old(State()))
      {
        assert ps[i..][1..] == ps[i + 1..];
        var _ := Define(ps[i].ident.literal, ps[i].ty.Name(), ps[i].ident.line);
        i := i + 1;
      }
    }

    method PostorderStmt(s: Stmt) returns (s': Stmt)
      requires Valid()
      modifies this`scopeStack, this`reports, this`reported
      ensures Valid()
      ensures Walked(s', State()) == StmtF(s, old(State()))
      decreases s, 1
    {
      match s
      case Definition(ident, rhs, ty, it) =>
        var bound := Define(ident.literal, ty.Name(), ident.line);
        var rhs' := PostorderExpr(rhs);
        s' := Definition(ident, rhs', ty, if bound then Some(ty.Name()) else it);
      case Assignment(lhs, rhs) =>
        var lhs' := PostorderExpr(lhs);
        var rhs' := PostorderExpr(rhs);
        s' := Assignment(lhs', rhs');
      case IfStatement(c, tb, fb) =>
        NewScope();
        var c' := PostorderExpr(c);
        var tb' := PostorderBody(tb);
        var fb': Option<Body> := None;
        if fb.Some? {
          var b := PostorderBody(fb.value);
          fb' := Some(b);
        }
        EndScope();
        s' := IfStatement(c', tb', fb');
      case WhileStatement(c, b) =>
        NewScope();
        var c' := PostorderExpr(c);
        var b' := PostorderBody(b);
        EndScope();
        s' := WhileStatement(c', b');
      case ReturnStatement(x) =>
        var x' := PostorderExpr(x);
        s' := ReturnStatement(x');
      case ExprStatement(x) =>
        var x' := PostorderExpr(x);
        s' := ExprStatement(x');
      case FunctionDefinition(name, ps, rt, b, ft) =>
        var bound := Define(name.literal, rt.Name(), name.line);
        NewScope();
        PostorderParams(ps);
        var b' := PostorderBody(b);
        EndScope();
        s' := FunctionDefinition(name, ps, rt, b', if bound then Some(rt.Name()) else ft);
    }

    method PostorderBody(b: Body) returns (b': Body)
      requires Valid()
      modifies this`scopeStack, this`reports, this`reported
      ensures Valid()
      ensures Walked(b', State()) == BodyF(b, old(State()))
      decreases b, 2
    {
      var ss := PostorderStmts(b.statements);
      b' := Body(ss);
    }

    /** The statements of a body or a program, in order. */
    method PostorderStmts(ss: seq<Stmt>) returns (ss': seq<Stmt>)
      requires Valid()
      modifies this`scopeStack, this`reports, this`reported
      ensures Valid()
      ensures Walked(ss', State()) == StmtsF(ss, old(State()))
      decreases ss, 0
    {
      ss' := [];
      var i := 0;
      assert ss[i..] == ss;
      ghost var r0 := StmtsF(ss[i..], State());
      assert r0 == StmtsF(ss, old(State()));
      assert ss' + r0.node == r0.node;
      while i < |ss|
        invariant 0 <= i <= |ss| && Valid()
        invariant var rest := StmtsF(ss[i..], State());
          Walked(ss' + rest.node, rest.state) == StmtsF(ss, old(State()))
      {
        assert ss[i..][1..] == ss[i + 1..];
        ghost var pre := State();
        ghost var before := StmtsF(ss[i..], pre);
        var s' := PostorderStmt(ss[i]);
        assert Walked(s', State()) == StmtF(ss[i..][0], pre);
        ghost var rest := StmtsF(ss[i + 1..], State());
        assert before == Walked([s'] + rest.node, rest.state);
        assert ss' + before.node == (ss' + [s']) + rest.node;
        ss' := ss' + [s'];
        i := i + 1;
      }
      assert ss[i..] == [];
      ghost var done := StmtsF(ss[i..], State());
      assert done == Walked([], State());
      assert ss' + done.node == ss';
    }

    /** `analyze`: walk the tree and keep the annotated one. */
    method Analyze()
      requires Valid()
      modifies this
      ensures Valid()
      ensures Walked(ast, State()) == ProgramF(old(ast), old(State()))
    {
      var contents := PostorderStmts(ast.contents);
      ast := Program(contents);
    }
  }
}
