/** Substitution keeps the value of what it rewrites. */
module SubstLaws {
  import opened Ast
  import opened Classical
  import opened ClassicalLaws
  import opened GateTree
  import opened CircuitForms

  /** A value written as an expression has that value under any bindings. */
  lemma {:induction false} ValueVal(ops: Ops, v: Value, env: Env)
    ensures Val(ops, ValueToExpr(v), env) == Ok(v)
    decreases v, 1
  {
    if v.VTuple? || v.VList? {
      var e := ValueToExpr(v);
      assert |e.items| == |v.items| && forall i | 0 <= i < |v.items| :: e.items[i] == ValueToExpr(v.items[i]);
      ValuesVal(ops, v, e, v.items, e.items, env);
    }
  }

  lemma {:induction false} ValuesVal(ops: Ops, whole: Value, parent: Expr, vs: seq<Value>, es: seq<Expr>, env: Env)
    requires |es| == |vs| && forall i | 0 <= i < |vs| :: es[i] == ValueToExpr(vs[i])
    requires forall i | 0 <= i < |vs| :: vs[i] < whole && es[i] < parent
    ensures ValSeq(ops, parent, es, env) == Ok(vs)
    decreases whole, 0, |vs|
  {
    hide Val, ValueToExpr;
    if vs != [] {
      ValueVal(ops, vs[0], env);
      ValuesVal(ops, whole, parent, vs[1..], es[1..], env);
      assert [vs[0]] + vs[1..] == vs;
    }
  }

  /** The same value or an error in both. */
  ghost predicate AsGood<T>(a: Res<T>, b: Res<T>) {
    (a.Ok? <==> b.Ok?) && (a.Ok? ==> a == b)
  }

  lemma ProbeDone(ops: Ops, e: Expr, env: Env)
    requires ops.probe >= Cost(e)
    ensures Eval(ops, e, env, ops.probe).Done? <==> Val(ops, e, env).Ok?
    ensures Val(ops, e, env).Ok? ==> Subst(ops, e, env) == ValueToExpr(Val(ops, e, env).value)
    ensures Val(ops, e, env).Err? ==> Subst(ops, e, env) == SubstInside(ops, e, env)
  {
    hide Eval, Val, SubstInside, ValueToExpr, Cost;
    EvalEnough(ops, e, env, ops.probe);
    EvalIsVal(ops, e, env, ops.probe);
  }

  /** Given fuel enough for the probe, an expression has a value after substitution exactly when it has one
      before. It is the same value, and then no binding is needed to read it. */
  lemma {:induction false} SubstKeepsVal(ops: Ops, e: Expr, env: Env, other: Env)
    requires ops.probe >= Cost(e)
    ensures AsGood(Val(ops, Subst(ops, e, env), env), Val(ops, e, env))
    ensures Val(ops, e, env).Ok? ==> Val(ops, Subst(ops, e, env), other) == Val(ops, e, env)
    decreases e, 2
  {
    hide *;
    ProbeDone(ops, e, env);
    if Val(ops, e, env).Ok? {
      ValueVal(ops, Val(ops, e, env).value, env);
      ValueVal(ops, Val(ops, e, env).value, other);
      Good(Val(ops, Subst(ops, e, env), env), Val(ops, e, env));
    } else {
      InsideFails(ops, e, env);
      Good(Val(ops, Subst(ops, e, env), env), Val(ops, e, env));
    }
  }

  lemma Good<T>(a: Res<T>, b: Res<T>)
    requires a == b || (a.Err? && b.Err?)
    ensures AsGood(a, b)
  {
  }

  lemma {:induction false} InsideFails(ops: Ops, e: Expr, env: Env)
    requires ops.probe >= Cost(e) && Val(ops, e, env).Err?
    ensures Val(ops, SubstInside(ops, e, env), env).Err?
    decreases e, 1
  {
    hide Subst, Eval, EvalBinop, Negate, Lookup, EvalBuiltin;
    match e
    case Neg(inner) => SubstKeepsVal(ops, inner, env, env);
    case Bin(_, lhs, rhs) =>
      SubstKeepsVal(ops, lhs, env, env);
      SubstKeepsVal(ops, rhs, env, env);
    case Tuple(items) => ItemsKeepVal(ops, e, SubstInside(ops, e, env), items, SubstInside(ops, e, env).items, env);
    case App(f, x) => CallFails(ops, e, env);
    case _ =>
  }

  lemma {:induction false} ItemsKeepVal(ops: Ops, parent: Expr, after: Expr, items: seq<Expr>, substituted: seq<Expr>, env: Env)
    requires |substituted| == |items|
    requires forall i | 0 <= i < |items| :: items[i] < parent && substituted[i] < after
    requires forall i | 0 <= i < |items| :: substituted[i] == Subst(ops, items[i], env)
    requires ops.probe >= CostSeq(parent, items)
    ensures AsGood(ValSeq(ops, after, substituted, env), ValSeq(ops, parent, items, env))
    decreases parent, 0, |items|
  {
    hide Val, Subst, Cost;
    if items != [] {
      SubstKeepsVal(ops, items[0], env, env);
      ItemsKeepVal(ops, parent, after, items[1..], substituted[1..], env);
    }
  }

  /** If the head of a call is a name after substitution, it was that name before, and the arguments are
      the substituted ones. */
  lemma {:induction false} SpineSubst(ops: Ops, f: Expr, x: Expr, env: Env)
    requires FlattenApp(Subst(ops, f, env), Subst(ops, x, env)).0.Var?
    ensures var ((head, args), (head', args')) := (FlattenApp(f, x), FlattenApp(Subst(ops, f, env), Subst(ops, x, env)));
            && head == head' && |args| == |args'| && forall i | 0 <= i < |args| :: args'[i] == Subst(ops, args[i], env)
    decreases f
  {
    hide Eval, Val;
    var f' := Subst(ops, f, env);
    if Eval(ops, f, env, ops.probe).Done? {
      PlainValue(Eval(ops, f, env, ops.probe).value);
    } else if f.App? {
      SpineSubst(ops, f.fn, f.arg, env);
    }
  }

  lemma PlainValue(v: Value)
    ensures !ValueToExpr(v).App? && !ValueToExpr(v).Var?
  {
  }

  lemma {:induction false} CallFails(ops: Ops, e: Expr, env: Env)
    requires e.App? && ops.probe >= Cost(e) && Val(ops, e, env).Err?
    ensures Val(ops, SubstInside(ops, e, env), env).Err?
    decreases e, 0
  {
    hide Subst, Eval, EvalBuiltin, CostSeq;
    var e' := SubstInside(ops, e, env);
    var (head, args) := FlattenApp(e.fn, e.arg);
    var (head', args') := FlattenApp(e'.fn, e'.arg);
    if head'.Var? {
      SpineSubst(ops, e.fn, e.arg, env);
      assert e == App(e.fn, e.arg) && e' == App(e'.fn, e'.arg);
      ItemsKeepVal(ops, e, e', args, args', env);
    }
  }
}
