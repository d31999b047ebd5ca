/** Desugaring: every `run { … }` block becomes a chain of binds and lets. */
module Desugar {
  import opened Ast

  // ── Traversal ──────────────────────────────────────────────────────────────

  function RhsOf(s: Stmt): (e: Expr)
    ensures e < s
  {
    match s
    case SBind(_, _, rhs) => rhs
    case SLet(_, rhs) => rhs
    case SExpr(e) => e
  }

  function WithRhs(s: Stmt, e: Expr): (r: Stmt)
    ensures RhsOf(r) == e && (e == RhsOf(s) ==> r == s)
  {
    match s
    case SBind(pat, at, _) => SBind(pat, at, e)
    case SLet(pat, _) => SLet(pat, e)
    case SExpr(_) => SExpr(e)
  }

  /** The direct subexpressions, in the order they are desugared. */
  function Children(e: Expr): (cs: seq<Expr>)
    ensures forall i | 0 <= i < |cs| :: cs[i] < e
  {
    match e
    case Int(_) => [] case Float(_) => [] case Bool(_) => [] case Unit => [] case Var(_) => []
    case Lam(_, body) => [body]
    case App(f, x) => [f, x]
    case TypeApp(callee, _) => [callee]
    case Bin(_, l, r) => [l, r]
    case Neg(inner) => [inner]
    case Let(_, rhs, body) => [rhs, body]
    case If(c, t, f) => [c, t, f]
    case Match(scrutinee, arms) => [scrutinee] + seq(|arms|, i requires 0 <= i < |arms| => arms[i].body)
    case For(_, iter, body) => [iter, body]
    case Tuple(items) => items
    case List(items) => items
    case CircuitBlock(stmts) => seq(|stmts|, i requires 0 <= i < |stmts| => RhsOf(stmts[i]))
    case Compose(l, r) => [l, r]
    case Par(body, count) => [body, count]
    case ParN(items) => items
    case Adjoint(inner) => [inner]
    case Controlled(inner) => [inner]
    case GateApp(g, q) => [g, q]
    case RunBlock(stmts) => seq(|stmts|, i requires 0 <= i < |stmts| => RhsOf(stmts[i]))
    case Bind(rhs, _, body) => [rhs, body]
    case Return(inner) => [inner]
    case Borrow(_, stmts) => seq(|stmts|, i requires 0 <= i < |stmts| => RhsOf(stmts[i]))
    case Ascribe(inner, _) => [inner]
  }

  function WithStmts(stmts: seq<Stmt>, cs: seq<Expr>): (r: seq<Stmt>)
    requires |cs| == |stmts|
    ensures |r| == |stmts|
  {
    seq(|stmts|, i requires 0 <= i < |stmts| => WithRhs(stmts[i], cs[i]))
  }

  /** The same node over other subexpressions. */
  function WithChildren(e: Expr, cs: seq<Expr>): Expr
    requires |cs| == |Children(e)|
  {
    match e
    case Int(_) => e case Float(_) => e case Bool(_) => e case Unit => e case Var(_) => e
    case Lam(params, _) => Lam(params, cs[0])
    case App(_, _) => App(cs[0], cs[1])
    case TypeApp(_, targs) => TypeApp(cs[0], targs)
    case Bin(op, _, _) => Bin(op, cs[0], cs[1])
    case Neg(_) => Neg(cs[0])
    case Let(pat, _, _) => Let(pat, cs[0], cs[1])
    case If(_, _, _) => If(cs[0], cs[1], cs[2])
    case Match(_, arms) => Match(cs[0], seq(|arms|, i requires 0 <= i < |arms| => Arm(arms[i].pat, cs[i + 1])))
    case For(pat, _, _) => For(pat, cs[0], cs[1])
    case Tuple(_) => Tuple(cs)
    case List(_) => List(cs)
    case CircuitBlock(stmts) => CircuitBlock(WithStmts(stmts, cs))
    case Compose(_, _) => Compose(cs[0], cs[1])
    case Par(_, _) => Par(cs[0], cs[1])
    case ParN(_) => ParN(cs)
    case Adjoint(_) => Adjoint(cs[0])
    case Controlled(_) => Controlled(cs[0])
    case GateApp(_, _) => GateApp(cs[0], cs[1])
    case RunBlock(stmts) => RunBlock(WithStmts(stmts, cs))
    case Bind(_, param, _) => Bind(cs[0], param, cs[1])
    case Return(_) => Return(cs[0])
    case Borrow(bindings, stmts) => Borrow(bindings, WithStmts(stmts, cs))
    case Ascribe(_, ty) => Ascribe(cs[0], ty)
  }

  predicate HasStmts(e: Expr) { e.CircuitBlock? || e.RunBlock? || e.Borrow? }

  lemma ChildrenOfRebuilt(e: Expr, cs: seq<Expr>)
    requires |cs| == |Children(e)|
    ensures Children(WithChildren(e, cs)) == cs
    ensures WithChildren(e, cs).RunBlock? <==> e.RunBlock?
    ensures cs == Children(e) ==> WithChildren(e, cs) == e
  {
  }

  // ── What desugaring produces ───────────────────────────────────────────────

  datatype DesugarError = EndsInBind | EndsInLet | LiteralBind(at: nat)

  function Decimal(n: nat): string {
    if n < 10 then ["0123456789"[n]] else Decimal(n / 10) + ["0123456789"[n % 10]]
  }

  /** The temporary of a tuple bind, named after the position of its pattern. */
  function Temp(at: nat): (n: Name)
    ensures IsTemp(n)
  {
    "$bind" + Decimal(at)
  }

  /** Names no source identifier has. */
  predicate IsTemp(n: Name) { n == "_" || (n != "" && n[0] == '$') }

  function BindInto(pat: Pat, at: nat, rhs: Expr, rest: Expr): Expr {
    match pat
    case PVar(name) => Bind(rhs, name, rest)
    case PWild => Bind(rhs, "_", rest)
    case PTuple(_) => Bind(rhs, Temp(at), Let(pat, Var(Temp(at)), rest))
    case PLit(_) => Bind(rhs, "_", rest)
  }

  /** One statement in front of the rest of its block. */
  function Chain(s: Stmt, rhs: Expr, rest: Expr): Expr {
    match s
    case SBind(pat, at, _) => BindInto(pat, at, rhs, rest)
    case SLet(pat, _) => Let(pat, rhs, rest)
    case SExpr(_) => Bind(rhs, "_", rest)
  }

  function Desugared(e: Expr): Expr
    decreases e, 1
  {
    if e.RunBlock? then if e.stmts == [] then Unit else Fold(e, e.stmts)
    else
      var cs := Children(e);
      WithChildren(e, seq(|cs|, i requires 0 <= i < |cs| => Desugared(cs[i])))
  }

  /** The chain of a nonempty block; its last statement is the result whatever it is. */
  function Fold(ghost parent: Expr, stmts: seq<Stmt>): Expr
    requires stmts != [] && forall i | 0 <= i < |stmts| :: RhsOf(stmts[i]) < parent
    decreases parent, 0, |stmts|
  {
    var head := Desugared(RhsOf(stmts[0]));
    if |stmts| == 1 then head else Chain(stmts[0], head, Fold(parent, stmts[1..]))
  }

  function LastError(s: Stmt): seq<DesugarError> {
    match s
    case SBind(_, _, _) => [EndsInBind]
    case SLet(_, _) => [EndsInLet]
    case SExpr(_) => []
  }

  function BindError(s: Stmt): seq<DesugarError> {
    if s.SBind? && s.pat.PLit? then [LiteralBind(s.at)] else []
  }

  /** The errors reported, in order. */
  function Errors(e: Expr): seq<DesugarError>
    decreases e, 1
  {
    if e.RunBlock? then if e.stmts == [] then [] else FoldErrors(e, e.stmts)
    else ErrorsOfAll(e, Children(e))
  }

  function ErrorsOfAll(ghost parent: Expr, es: seq<Expr>): seq<DesugarError>
    requires forall i | 0 <= i < |es| :: es[i] < parent
    decreases parent, 0, |es|
  {
    if es == [] then [] else ErrorsOfAll(parent, es[..|es| - 1]) + Errors(es[|es| - 1])
  }

  /** A block is folded from its last statement to its first. */
  function FoldErrors(ghost parent: Expr, stmts: seq<Stmt>): seq<DesugarError>
    requires stmts != [] && forall i | 0 <= i < |stmts| :: RhsOf(stmts[i]) < parent
    decreases parent, 0, |stmts|
  {
    var own := Errors(RhsOf(stmts[0]));
    if |stmts| == 1 then LastError(stmts[0]) + own
    else FoldErrors(parent, stmts[1..]) + own + BindError(stmts[0])
  }

  lemma NoErrors(parent: Expr, es: seq<Expr>)
    requires forall i | 0 <= i < |es| :: es[i] < parent
    ensures ErrorsOfAll(parent, es[..0]) == []
  {
  }

  lemma OneMoreChild(parent: Expr, es: seq<Expr>, i: nat)
    requires i < |es| && forall i | 0 <= i < |es| :: es[i] < parent
    ensures ErrorsOfAll(parent, es[..i + 1]) == ErrorsOfAll(parent, es[..i]) + Errors(es[i])
  {
    assert es[..i + 1][..i] == es[..i];
  }

  lemma LastStmt(parent: Expr, stmts: seq<Stmt>, i: nat)
    requires i + 1 == |stmts| && forall i | 0 <= i < |stmts| :: RhsOf(stmts[i]) < parent
    ensures Fold(parent, stmts[i..]) == Desugared(RhsOf(stmts[i]))
    ensures FoldErrors(parent, stmts[i..]) == LastError(stmts[i]) + Errors(RhsOf(stmts[i]))
  {
  }

  lemma EarlierStmt(parent: Expr, stmts: seq<Stmt>, i: nat)
    requires i + 1 < |stmts| && forall i | 0 <= i < |stmts| :: RhsOf(stmts[i]) < parent
    ensures Fold(parent, stmts[i..]) == Chain(stmts[i], Desugared(RhsOf(stmts[i])), Fold(parent, stmts[i + 1..]))
    ensures FoldErrors(parent, stmts[i..])
         == FoldErrors(parent, stmts[i + 1..]) + Errors(RhsOf(stmts[i])) + BindError(stmts[i])
  {
    assert stmts[i..][1..] == stmts[i + 1..];
  }

  lemma Regroup<T>(a: seq<T>, b: seq<T>, c: seq<T>)
    ensures a + b + c == a + (b + c)
  {
  }

  // ── The pass ───────────────────────────────────────────────────────────────

  /** The pass, which collects every error in one list. */
  class Desugarer {
    var errors: seq<DesugarError>

    constructor ()
      ensures errors == []
    {
      errors := [];
    }

    method DesugarExpr(e: Expr) returns (r: Expr)
      modifies this
      ensures r == Desugared(e) && errors == old(errors) + Errors(e)
      decreases e, 2
    {
      if e.RunBlock? {
        r := DesugarRunBlock(e, e.stmts);
      } else {
        var cs := Children(e);
        var out := DesugarAll(e, cs);
        assert out == seq(|cs|, i requires 0 <= i < |cs| => Desugared(cs[i]));
        r := WithChildren(e, out);
      }
    }

    method DesugarAll(ghost parent: Expr, es: seq<Expr>) returns (out: seq<Expr>)
      requires forall i | 0 <= i < |es| :: es[i] < parent
      modifies this
      ensures |out| == |es| && forall i | 0 <= i < |es| :: out[i] == Desugared(es[i])
      ensures errors == old(errors) + ErrorsOfAll(parent, es)
      decreases parent, 1
    {
      hide Desugared, Errors, ErrorsOfAll;
      out := [];
      NoErrors(parent, es);
      for i := 0 to |es|
        invariant |out| == i && forall j | 0 <= j < i :: out[j] == Desugared(es[j])
        invariant errors == old(errors) + ErrorsOfAll(parent, es[..i])
      {
        var child := DesugarExpr(es[i]);
        out := out + [child];
        OneMoreChild(parent, es, i);
        Regroup(old(errors), ErrorsOfAll(parent, es[..i]), Errors(es[i]));
      }
      assert es[..|es|] == es;
    }

    /** Folds the block from its last statement to its first. */
    method DesugarRunBlock(ghost parent: Expr, stmts: seq<Stmt>) returns (r: Expr)
      requires forall i | 0 <= i < |stmts| :: RhsOf(stmts[i]) < parent
      modifies this
      ensures stmts == [] ==> r == Unit && errors == old(errors)
      ensures stmts != [] ==> r == Fold(parent, stmts) && errors == old(errors) + FoldErrors(parent, stmts)
      decreases parent, 1
    {
      if stmts == [] { return Unit; }
      hide Desugared, Errors, Fold, FoldErrors, LastError, RhsOf;
      var i := |stmts| - 1;
      errors := errors + LastError(stmts[i]);
      r := DesugarExpr(RhsOf(stmts[i]));
      LastStmt(parent, stmts, i);
      Regroup(old(errors), LastError(stmts[i]), Errors(RhsOf(stmts[i])));
      while i > 0
        invariant 0 <= i < |stmts|
        invariant r == Fold(parent, stmts[i..])
        invariant errors == old(errors) + FoldErrors(parent, stmts[i..])
      {
        i := i - 1;
        ghost var after := FoldErrors(parent, stmts[i + 1..]);
        EarlierStmt(parent, stmts, i);
        var rhs := DesugarExpr(RhsOf(stmts[i]));
        Regroup(old(errors), after, Errors(RhsOf(stmts[i])));
        r := DesugarStmt(stmts[i], rhs, r);
        Regroup(old(errors), after + Errors(RhsOf(stmts[i])), BindError(stmts[i]));
      }
      assert stmts[0..] == stmts;
    }

    /** Puts one statement in front of the rest of its block. */
    method DesugarStmt(s: Stmt, rhs: Expr, rest: Expr) returns (r: Expr)
      modifies this
      ensures r == Chain(s, rhs, rest) && errors == old(errors) + BindError(s)
    {
      match s {
        case SBind(pat, at, _) => r := DesugarBind(pat, at, rhs, rest);
        case SLet(pat, _) => r := Let(pat, rhs, rest);
        case SExpr(_) => r := Bind(rhs, "_", rest);
      }
    }

    method DesugarBind(pat: Pat, at: nat, rhs: Expr, rest: Expr) returns (r: Expr)
      modifies this
      ensures r == BindInto(pat, at, rhs, rest)
      ensures errors == old(errors) + if pat.PLit? then [LiteralBind(at)] else []
    {
      match pat {
        case PVar(name) => r := Bind(rhs, name, rest);
        case PWild => r := Bind(rhs, "_", rest);
        case PTuple(_) =>
          var temp := Temp(at);
          r := Bind(rhs, temp, Let(pat, Var(temp), rest));
        case PLit(_) =>
          errors := errors + [LiteralBind(at)];
          r := Bind(rhs, "_", rest);
      }
    }
  }
}
