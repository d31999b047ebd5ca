/** The elaborator as it runs: one fuel counter, one set of names being inlined, and loops. */
module Elaborator {
  import opened Ast
  import opened Classical
  import opened GateTree
  import opened CircuitForms
  import opened Elaborate

  /** The outcome `r` with `left` fuel is the outcome `out`; an error leaves some fuel unspent. */
  ghost predicate Agrees<T>(r: Res<T>, left: nat, out: Out<T>) {
    match out
    case Done(v, f) => r == Ok(v) && left == f
    case Fail(err) => r == Err(err)
  }

  // ── One step of each specification ─────────────────────────────────────────

  lemma NodeStep(c: Ctx, e: Expr, env: Env, fuel: nat, exp: set<Name>)
    ensures e.CircuitBlock? ==> ElabNode(c, e, env, fuel, exp) == ElabBlock(c, e.stmts, env, fuel, exp)
    ensures e.Compose? ==> ElabNode(c, e, env, fuel, exp) == ElabCompose(c, e.lhs, e.rhs, env, fuel, exp)
    ensures e.Match? ==> ElabNode(c, e, env, fuel, exp) == ElabMatch(c, e.scrutinee, e.arms, env, fuel, exp)
    ensures e.Let? ==> ElabNode(c, e, env, fuel, exp) == ElabLet(c, e.pat, e.rhs, e.body, env, fuel, exp)
    ensures e.GateApp? ==> ElabNode(c, e, env, fuel, exp) == ElabGateApp(c, e.gate, e.qubits, env, fuel, exp)
    ensures e.Adjoint? ==> ElabNode(c, e, env, fuel, exp) == ElabAdjoint(c, e.inner, env, fuel, exp)
  {
    hide ElabBlock, ElabCompose, ElabMatch, ElabLet, ElabGateApp, ElabAdjoint, ElabFor, ElabApp, Inline, ElabPar, ElabParN;
  }

  lemma RestStep(c: Ctx, e: Expr, env: Env, fuel: nat, exp: set<Name>)
    requires !(e.CircuitBlock? || e.Compose? || e.Match? || e.Let? || e.GateApp? || e.Adjoint?)
    requires IsGateTree(EMPTY)
    ensures e.For? ==> ElabNode(c, e, env, fuel, exp) == ElabFor(c, e.pat, e.iter, e.body, env, fuel, exp)
    ensures e.App? ==> ElabNode(c, e, env, fuel, exp) == ElabApp(c, e.fn, e.arg, env, fuel, exp)
    ensures e.Var? && e.name in c.bodies ==> ElabNode(c, e, env, fuel, exp) == Inline(c, e.name, map[], fuel, exp)
    ensures e.Var? && e.name !in c.bodies ==> ElabNode(c, e, env, fuel, exp) == Done(e, fuel)
    ensures e.Par? ==> ElabNode(c, e, env, fuel, exp) == ElabPar(c, e.body, e.count, env, fuel, exp)
    ensures e.ParN? ==> ElabNode(c, e, env, fuel, exp) == ElabParN(c, e.items, 0, EMPTY, env, fuel, exp)
    ensures !(e.For? || e.App? || e.Var? || e.Par? || e.ParN?) ==>
              ElabNode(c, e, env, fuel, exp) == Fail(Unsupported(CircuitBody))
  {
    hide ElabBlock, ElabCompose, ElabMatch, ElabLet, ElabGateApp, ElabAdjoint, ElabFor, ElabApp, Inline, ElabPar, ElabParN,
         IsGateTree, Elaborated;
  }

  lemma LetStep(c: Ctx, pat: Pat, rhs: Expr, body: Expr, env: Env, fuel: nat, exp: set<Name>)
    ensures var v := Eval(c.ops, rhs, env, fuel);
            ElabLet(c, pat, rhs, body, env, fuel, exp) ==
              if v.Fail? then Fail(v.error)
              else
                var inner := BindPat(pat, v.value, env);
                if inner.Err? then Fail(inner.error) else Elab(c, body, inner.value, v.fuel, exp)
  {
    hide Elab, Eval, BindPat;
  }

  lemma ForStep(c: Ctx, pat: Pat, iter: Expr, body: Expr, env: Env, fuel: nat, exp: set<Name>)
    ensures var v := Eval(c.ops, iter, env, fuel);
            ElabFor(c, pat, iter, body, env, fuel, exp) ==
              if v.Fail? then Fail(v.error)
              else if v.value.VList? then ElabSteps(c, pat, v.value.items, body, EMPTY, env, v.fuel, exp)
              else Fail(Unsupported(ForIterator))
  {
    hide ElabSteps, Eval;
  }

  lemma StepsDone(c: Ctx, pat: Pat, items: seq<Value>, body: Expr, acc: Expr, env: Env, fuel: nat, exp: set<Name>)
    requires IsGateTree(acc)
    ensures ElabSteps(c, pat, items[|items|..], body, acc, env, fuel, exp) == Done(acc, fuel)
  {
    hide Elab, BindPat, Append, IsGateTree, Elaborated;
  }

  /** One round of a `for` loop. */
  function Round(c: Ctx, pat: Pat, item: Value, body: Expr, env: Env, fuel: nat, exp: set<Name>): (r: Out<Expr>)
    ensures r.Done? ==> r.fuel <= fuel && IsGateTree(r.value)
  {
    hide Elab, IsGateTree;
    var (inner, _) :- Lift(BindPat(pat, item, env), fuel);
    Elab(c, body, inner, fuel, exp)
  }

  lemma StepsStep(c: Ctx, pat: Pat, items: seq<Value>, i: nat, body: Expr, acc: Expr, env: Env, fuel: nat, exp: set<Name>)
    requires IsGateTree(acc) && i < |items|
    ensures var step := Round(c, pat, items[i], body, env, fuel, exp);
            ElabSteps(c, pat, items[i..], body, acc, env, fuel, exp) ==
              if step.Fail? then Fail(step.error)
              else ElabSteps(c, pat, items[i + 1..], body, Append(acc, step.value), env, step.fuel, exp)
  {
    hide Elab, BindPat, Append, IsGateTree;
    assert items[i..][1..] == items[i + 1..];
  }

  lemma CtlStep(c: Ctx, inner: Expr, control: Expr, target: Expr, env: Env, fuel: nat, exp: set<Name>)
    ensures var callee := NamedCallee(c, inner, env, fuel, exp);
            Ctl(c, inner, control, target, env, fuel, exp) ==
              if callee.Fail? then Fail(callee.error)
              else if callee.value.Some? then Ctl(c, callee.value.value, control, target, env, callee.fuel, exp)
              else CtlNode(c, inner, control, target, env, fuel, exp)
  {
    hide CtlNode, Elab, Inline, NamedCallee, Elaborated;
  }

  lemma NoCalleeKeepsFuel(c: Ctx, inner: Expr, env: Env, fuel: nat, exp: set<Name>)
    ensures var callee := NamedCallee(c, inner, env, fuel, exp); callee.Done? && callee.value.None? ==> callee.fuel == fuel
  {
    hide Ctl, Elab, Inline, ZeroArgCallee, IsParametricCall;
  }

  lemma CtlComposeStep(c: Ctx, inner: Expr, control: Expr, target: Expr, env: Env, fuel: nat, exp: set<Name>)
    requires inner.Compose?
    ensures var l := Ctl(c, inner.lhs, control, target, env, fuel, exp);
            CtlNode(c, inner, control, target, env, fuel, exp) ==
              if l.Fail? then Fail(l.error)
              else
                var r := Ctl(c, inner.rhs, control, target, env, l.fuel, exp);
                if r.Fail? then Fail(r.error) else Done(ComposeNonempty(l.value, r.value), r.fuel)
  {
    hide Ctl, ComposeNonempty, BlockBody, ReverseAndInvert;
  }

  lemma CtlBlockStep(c: Ctx, inner: Expr, control: Expr, target: Expr, env: Env, fuel: nat, exp: set<Name>)
    requires inner.CircuitBlock?
    ensures var body := BlockBody(c.ops, inner.stmts, env);
            CtlNode(c, inner, control, target, env, fuel, exp) ==
              if body.Err? then Fail(body.error) else Ctl(c, body.value, control, target, env, fuel, exp)
  {
    hide Ctl, ComposeNonempty, BlockBody, ReverseAndInvert, Elaborated;
  }

  lemma CtlAdjointStep(c: Ctx, inner: Expr, control: Expr, target: Expr, env: Env, fuel: nat, exp: set<Name>)
    requires inner.Adjoint?
    ensures var t := Ctl(c, inner.inner, control, target, env, fuel, exp);
            CtlNode(c, inner, control, target, env, fuel, exp) ==
              if t.Fail? then Fail(t.error) else Lift(ReverseAndInvert(c.reg, t.value), t.fuel)
  {
    hide Ctl, ComposeNonempty, BlockBody, ReverseAndInvert;
  }

  lemma CtlParStep(c: Ctx, inner: Expr, control: Expr, target: Expr, env: Env, fuel: nat, exp: set<Name>)
    requires inner.Par?
    ensures CtlNode(c, inner, control, target, env, fuel, exp) == CtlPar(c, inner.body, inner.count, control, target, env, fuel, exp)
  {
    hide Ctl, CtlPar, CtlArms, CtlLeaf, BodyWiresOf, Elaborated;
  }

  lemma CtlParNStep(c: Ctx, inner: Expr, control: Expr, target: Expr, env: Env, fuel: nat, exp: set<Name>)
    requires inner.ParN? && IsGateTree(EMPTY)
    ensures CtlNode(c, inner, control, target, env, fuel, exp)
         == CtlArms(c, inner.items, control, BodyWiresOf(target), 0, EMPTY, env, fuel, exp)
  {
    hide Ctl, CtlPar, CtlArms, CtlLeaf, BodyWiresOf, IsGateTree, Elaborated;
  }

  lemma CtlLeafStep(c: Ctx, inner: Expr, control: Expr, target: Expr, env: Env, fuel: nat, exp: set<Name>)
    requires !(inner.Compose? || inner.CircuitBlock? || inner.Adjoint? || inner.Par? || inner.ParN?)
    ensures CtlNode(c, inner, control, target, env, fuel, exp) == Lift(CtlLeaf(c, inner, control, target, env), fuel)
  {
    hide Ctl, CtlPar, CtlArms, CtlLeaf, BodyWiresOf, Elaborated;
  }

  lemma SizesOfParts(inner: Expr)
    ensures inner.Compose? ==> ControlSize(inner.lhs) < ControlSize(inner) && ControlSize(inner.rhs) < ControlSize(inner)
    ensures inner.Adjoint? ==> ControlSize(inner.inner) < ControlSize(inner)
    ensures inner.Par? ==> ControlSize(inner.body) < ControlSize(inner)
    ensures inner.ParN? ==> ControlSizes(inner.items) < ControlSize(inner)
  {
  }

  /** Where copy `i` starts among the body wires. */
  function CopyOffset(i: nat, w: nat): int {
    Saturate(i * w)
  }

  lemma CopiesDone(c: Ctx, body: Expr, control: Expr, wires: BodyWires, w: nat, i: nat, k: int, acc: Expr, env: Env,
                   fuel: nat, exp: set<Name>)
    requires IsGateTree(acc) && i >= k
    ensures CtlCopies(c, body, control, wires, w, i, k, acc, env, fuel, exp) == Done(acc, fuel)
  {
    hide Ctl, WireSlice, Saturate, ComposeNonempty, IsGateTree, Elaborated;
  }

  /** Copy `i` on its slice of the wires. */
  function CtlCopy(c: Ctx, body: Expr, control: Expr, wires: BodyWires, w: nat, i: nat, env: Env, fuel: nat, exp: set<Name>)
    : (r: Out<Expr>)
    ensures r.Done? ==> r.fuel <= fuel && IsGateTree(r.value)
  {
    hide Ctl, IsGateTree;
    var (t, _) :- Lift(WireSlice(wires, CopyOffset(i, w), w), fuel);
    Ctl(c, body, control, t, env, fuel, exp)
  }

  lemma CopiesStep(c: Ctx, body: Expr, control: Expr, wires: BodyWires, w: nat, i: nat, k: int, acc: Expr, env: Env,
                   fuel: nat, exp: set<Name>)
    requires IsGateTree(acc) && i < k
    ensures var step := CtlCopy(c, body, control, wires, w, i, env, fuel, exp);
            CtlCopies(c, body, control, wires, w, i, k, acc, env, fuel, exp) ==
              if step.Fail? then Fail(step.error)
              else CtlCopies(c, body, control, wires, w, i + 1, k, ComposeNonempty(acc, step.value), env, step.fuel, exp)
  {
    hide Ctl, WireSlice, Saturate, ComposeNonempty, IsGateTree;
  }

  predicate Fits(wires: BodyWires, k: int, w: nat) {
    wires.Explicit? ==> |wires.wires| == Saturate(k * w)
  }

  lemma ParKRefused(c: Ctx, body: Expr, k: int, control: Expr, target: Expr, env: Env, fuel: nat, exp: set<Name>)
    ensures var w := ArmWidth(c, body, env, fuel, exp);
            var copies := CtlParK(c, body, k, control, target, env, fuel, exp);
            && (w.Fail? ==> copies == Fail(w.error))
            && (w.Done? && !Fits(BodyWiresOf(target), k, w.value) ==>
                  copies == Fail(Unsupported(ControlledParWidth)))
  {
    hide ArmWidth, CtlCopies, BodyWiresOf, Saturate, Elaborated;
  }

  lemma ParKStep(c: Ctx, body: Expr, k: int, control: Expr, target: Expr, env: Env, w: nat, f: nat, fuel: nat, exp: set<Name>)
    requires ArmWidth(c, body, env, fuel, exp) == Done(w, f) && f <= fuel && Fits(BodyWiresOf(target), k, w)
    requires IsGateTree(EMPTY)
    ensures CtlParK(c, body, k, control, target, env, fuel, exp)
         == CtlCopies(c, body, control, BodyWiresOf(target), w, 0, k, EMPTY, env, f, exp)
  {
    hide ArmWidth, CtlCopies, BodyWiresOf, Saturate, Elaborated;
  }

  predicate UsesEvery(wires: BodyWires, offset: int) {
    wires.Explicit? ==> offset == |wires.wires|
  }

  lemma ArmsDone(c: Ctx, items: seq<Expr>, control: Expr, wires: BodyWires, offset: int, acc: Expr, env: Env, fuel: nat,
                 exp: set<Name>)
    requires IsGateTree(acc) && UsesEvery(wires, offset)
    ensures CtlArms(c, items[|items|..], control, wires, offset, acc, env, fuel, exp) == Done(acc, fuel)
  {
    hide CtlArm, Saturate, ComposeNonempty, IsGateTree, Elaborated;
  }

  lemma ArmsLeaveWires(c: Ctx, items: seq<Expr>, control: Expr, wires: BodyWires, offset: int, acc: Expr, env: Env, fuel: nat,
                       exp: set<Name>)
    requires IsGateTree(acc) && !UsesEvery(wires, offset)
    ensures CtlArms(c, items[|items|..], control, wires, offset, acc, env, fuel, exp)
         == Fail(Unsupported(ControlledParWidth))
  {
    hide CtlArm, Saturate, ComposeNonempty, IsGateTree, Elaborated;
  }

  lemma ArmsStep(c: Ctx, items: seq<Expr>, i: nat, control: Expr, wires: BodyWires, offset: int, acc: Expr, env: Env, fuel: nat,
                 exp: set<Name>)
    requires IsGateTree(acc) && i < |items|
    ensures var arm := CtlArm(c, items[i], control, wires, offset, env, fuel, exp);
            CtlArms(c, items[i..], control, wires, offset, acc, env, fuel, exp) ==
              if arm.Fail? then Fail(arm.error)
              else CtlArms(c, items[i + 1..], control, wires, Saturate(offset + arm.value.1), ComposeNonempty(acc, arm.value.0),
                           env, arm.fuel, exp)
  {
    hide CtlArm, Saturate, ComposeNonempty, IsGateTree;
    assert items[i..][1..] == items[i + 1..];
  }

  lemma ArmRefused(c: Ctx, item: Expr, control: Expr, wires: BodyWires, offset: int, env: Env, fuel: nat, exp: set<Name>)
    ensures var w := ArmWidth(c, item, env, fuel, exp);
            var arm := CtlArm(c, item, control, wires, offset, env, fuel, exp);
            && (w.Fail? ==> arm == Fail(w.error))
            && (w.Done? && WireSlice(wires, offset, w.value).Err? ==> arm == Fail(WireSlice(wires, offset, w.value).error))
  {
    hide Ctl, ArmWidth, WireSlice, Elaborated;
  }

  lemma ArmStep(c: Ctx, item: Expr, control: Expr, wires: BodyWires, offset: int, env: Env, w: nat, f: nat, t: Expr,
                fuel: nat, exp: set<Name>)
    requires ArmWidth(c, item, env, fuel, exp) == Done(w, f) && f <= fuel && WireSlice(wires, offset, w) == Ok(t)
    ensures var step := Ctl(c, item, control, t, env, f, exp);
            CtlArm(c, item, control, wires, offset, env, fuel, exp) ==
              if step.Fail? then Fail(step.error) else Done((step.value, w), step.fuel)
  {
    hide Ctl, ArmWidth, WireSlice, Elaborated;
  }

  class Machine {
    const ctx: Ctx
    var fuel: nat
    var expanding: set<Name>
    /** How many inlined calls are open. */
    ghost var depth: nat

    constructor (ctx: Ctx, fuel: nat)
      ensures this.ctx == ctx && this.fuel == fuel && expanding == {} && Valid()
    {
      this.ctx := ctx;
      this.fuel := fuel;
      this.expanding := {};
      this.depth := 0;
    }

    /** Only recorded bodies are ever being inlined, and each by one open call. */
    ghost predicate Valid()
      reads this
    {
      expanding <= ctx.bodies.Keys && depth == |expanding|
    }

    /** Inlining never nests deeper than the number of recorded bodies. */
    lemma InliningIsBounded()
      requires Valid()
      ensures depth <= |ctx.bodies|
    {
      SubsetIsNoLarger(expanding, ctx.bodies.Keys);
    }

    /** What every operation leaves: the outcome of its specification, no more fuel than before, and
        the same names being inlined, whether it succeeds or fails. */
    ghost predicate Leaves<T>(r: Res<T>, out: Out<T>, was: nat, names: set<Name>)
      reads this
    {
      Agrees(r, fuel, out) && fuel <= was && expanding == names && Valid()
    }

    /** Evaluates a classical expression, spending fuel. */
    method Evaluate(e: Expr, env: Env) returns (r: Res<Value>)
      requires Valid()
      modifies this`fuel
      ensures Leaves(r, Eval(ctx.ops, e, env, old(fuel)), old(fuel), old(expanding))
    {
      var out := Eval(ctx.ops, e, env, fuel);
      if out.Fail? { return Err(out.error); }
      fuel := out.fuel;
      r := Ok(out.value);
    }

    /** `elaborate_circuit_body`. */
    method ElaborateBody(e: Expr, env: Env) returns (r: Res<Expr>)
      requires Valid()
      modifies this
      ensures Leaves(r, Elab(ctx, e, env, old(fuel), old(expanding)), old(fuel), old(expanding))
      decreases fuel, 0
    {
      hide ElabNode;
      if fuel == 0 { return Err(FuelExhausted); }
      fuel := fuel - 1;
      r := ElaborateNode(e, env);
    }

    method ElaborateNode(e: Expr, env: Env) returns (r: Res<Expr>)
      requires Valid()
      modifies this
      ensures Leaves(r, ElabNode(ctx, e, env, old(fuel), old(expanding)), old(fuel), old(expanding))
      decreases fuel, 30
    {
      hide ElabNode, ElabBlock, ElabCompose, ElabMatch, ElabLet, ElabGateApp, ElabAdjoint, IsGateTree;
      NodeStep(ctx, e, env, fuel, expanding);
      match e {
        case CircuitBlock(stmts) => r := ElaborateBlock(stmts, env);
        case Compose(lhs, rhs) => r := ElaborateCompose(lhs, rhs, env);
        case Match(scrutinee, arms) => r := ElaborateMatch(scrutinee, arms, env);
        case Let(pat, rhs, body) => r := ElaborateLet(pat, rhs, body, env);
        case GateApp(gate, qubits) => r := ElaborateGateApp(gate, qubits, env);
        case Adjoint(inner) => r := ElaborateAdjoint(inner, env);
        case _ => r := ElaborateRest(e, env);
      }
    }

    method ElaborateRest(e: Expr, env: Env) returns (r: Res<Expr>)
      requires Valid()
      requires !(e.CircuitBlock? || e.Compose? || e.Match? || e.Let? || e.GateApp? || e.Adjoint?)
      modifies this
      ensures Leaves(r, ElabNode(ctx, e, env, old(fuel), old(expanding)), old(fuel), old(expanding))
      decreases fuel, 29
    {
      hide ElabNode, ElabFor, ElabApp, Inline, ElabPar, ElabParN, IsGateTree;
      EmptyIsTree();
      RestStep(ctx, e, env, fuel, expanding);
      match e {
        case For(pat, iter, body) => r := ElaborateFor(pat, iter, body, env);
        case App(f, x) => r := ElaborateApp(f, x, env);
        case Var(name) => if name in ctx.bodies { r := InlineCallee(name, map[]); } else { r := Ok(e); }
        case Par(body, count) => r := UnrollPar(body, count, env);
        case ParN(items) => r := UnrollParN(items, env);
        case _ => r := Err(Unsupported(CircuitBody));
      }
    }

    method ElaborateBlock(stmts: seq<Stmt>, env: Env) returns (r: Res<Expr>)
      requires Valid()
      modifies this
      ensures Leaves(r, ElabBlock(ctx, stmts, env, old(fuel), old(expanding)), old(fuel), old(expanding))
      decreases fuel, 10
    {
      hide Elab, EvalLets;
      if stmts == [] { return Err(Unsupported(EmptyBlock)); }
      var lets := BindLets(stmts[..|stmts| - 1], env);
      if lets.Err? { return Err(lets.error); }
      var last := stmts[|stmts| - 1];
      if !last.SExpr? { return Err(Unsupported(BlockWithoutResult)); }
      r := ElaborateBody(last.e, lets.value);
    }

    /** The loop over the leading `let`s of a circuit block. */
    method BindLets(stmts: seq<Stmt>, env: Env) returns (r: Res<Env>)
      requires Valid()
      modifies this`fuel
      ensures Leaves(r, EvalLets(ctx.ops, stmts, env, old(fuel)), old(fuel), old(expanding))
    {
      hide Eval;
      var inner := env;
      ghost var spec := EvalLets(ctx.ops, stmts, env, fuel);
      assert stmts[0..] == stmts;
      for i := 0 to |stmts|
        invariant EvalLets(ctx.ops, stmts[i..], inner, fuel) == spec
        invariant fuel <= old(fuel)
      {
        assert stmts[i..][0] == stmts[i] && stmts[i..][1..] == stmts[i + 1..];
        if !stmts[i].SLet? { return Err(Unsupported(NonLetStatement)); }
        var value := Evaluate(stmts[i].rhs, inner);
        if value.Err? { return Err(value.error); }
        var bound := BindPat(stmts[i].pat, value.value, inner);
        if bound.Err? { return Err(bound.error); }
        inner := bound.value;
      }
      r := Ok(inner);
    }

    method ElaborateCompose(lhs: Expr, rhs: Expr, env: Env) returns (r: Res<Expr>)
      requires Valid()
      modifies this
      ensures Leaves(r, ElabCompose(ctx, lhs, rhs, env, old(fuel), old(expanding)), old(fuel), old(expanding))
      decreases fuel, 10
    {
      hide Elab, ComposeNonempty;
      var left := ElaborateBody(lhs, env);
      if left.Err? { return left; }
      var right := ElaborateBody(rhs, env);
      if right.Err? { return right; }
      r := Ok(ComposeNonempty(left.value, right.value));
    }

    method ElaborateMatch(scrutinee: Expr, arms: seq<Arm>, env: Env) returns (r: Res<Expr>)
      requires Valid()
      modifies this
      ensures Leaves(r, ElabMatch(ctx, scrutinee, arms, env, old(fuel), old(expanding)), old(fuel), old(expanding))
      decreases fuel, 10
    {
      hide Elab, Eval, CircuitArm;
      var value := Evaluate(scrutinee, env);
      if value.Err? { return Err(value.error); }
      var choice := ChooseArm(arms, value.value, env);
      if choice.NoArm? { return Err(choice.error); }
      r := ElaborateBody(choice.body, choice.env);
    }

    /** The loop over the arms of a circuit-level `match`. */
    method ChooseArm(arms: seq<Arm>, v: Value, env: Env) returns (r: ArmChoice)
      ensures r == CircuitArm(arms, v, env)
    {
      assert arms[0..] == arms;
      for i := 0 to |arms|
        invariant CircuitArm(arms, v, env) == CircuitArm(arms[i..], v, env)
      {
        assert arms[i..][0] == arms[i] && arms[i..][1..] == arms[i + 1..];
        match arms[i].pat {
          case PLit(IntLit(k)) => if v == VInt(k) { return Chosen(arms[i].body, env); }
          case PLit(BoolLit(_)) =>
          case PWild => return Chosen(arms[i].body, env);
          case PVar(name) => return Chosen(arms[i].body, env[name := v]);
          case PTuple(_) => return NoArm(Unsupported(CircuitTuplePattern));
        }
      }
      r := NoArm(Unsupported(CircuitMatchExhausted));
    }

    method ElaborateLet(pat: Pat, rhs: Expr, body: Expr, env: Env) returns (r: Res<Expr>)
      requires Valid()
      modifies this
      ensures Leaves(r, ElabLet(ctx, pat, rhs, body, env, old(fuel), old(expanding)), old(fuel), old(expanding))
      decreases fuel, 10
    {
      hide ElabLet, Elab, Eval, BindPat;
      LetStep(ctx, pat, rhs, body, env, fuel, expanding);
      var value := Evaluate(rhs, env);
      if value.Err? { return Err(value.error); }
      var inner := BindPat(pat, value.value, env);
      if inner.Err? { return Err(inner.error); }
      r := ElaborateBody(body, inner.value);
    }

    method ElaborateGateApp(gate: Expr, qubits: Expr, env: Env) returns (r: Res<Expr>)
      requires Valid()
      modifies this
      ensures Leaves(r, ElabGateApp(ctx, gate, qubits, env, old(fuel), old(expanding)), old(fuel), old(expanding))
      decreases fuel, 10
    {
      hide Ctl, Subst, SplitControl, FlattenApp, SingletonTarget, RzzGadget;
      var q := Subst(ctx.ops, qubits, env);
      if IsRzz(gate) {
        if !(q.Tuple? && |q.items| == 2) { return Err(Unsupported(PairExpected)); }
        return Ok(RzzGadget(Subst(ctx.ops, gate.arg, env), q.items[0], q.items[1]));
      }
      if gate.Controlled? {
        var split := SplitControl(q);
        if split.Err? { return Err(split.error); }
        r := DecomposeControlled(gate.inner, split.value.0, SingletonTarget(split.value.1), env);
        return;
      }
      r := Ok(GateApp(Subst(ctx.ops, gate, env), q));
    }

    method ElaborateAdjoint(inner: Expr, env: Env) returns (r: Res<Expr>)
      requires Valid()
      modifies this
      ensures Leaves(r, ElabAdjoint(ctx, inner, env, old(fuel), old(expanding)), old(fuel), old(expanding))
      decreases fuel, 10
    {
      hide Elab, ReverseAndInvert;
      r := ElaborateBody(inner, env);
      if r.Ok? { r := ReverseInvert(ctx.reg, r.value); }
    }

    method ElaborateFor(pat: Pat, iter: Expr, body: Expr, env: Env) returns (r: Res<Expr>)
      requires Valid()
      modifies this
      ensures Leaves(r, ElabFor(ctx, pat, iter, body, env, old(fuel), old(expanding)), old(fuel), old(expanding))
      decreases fuel, 10
    {
      hide ElabFor, Eval, ElabSteps;
      ForStep(ctx, pat, iter, body, env, fuel, expanding);
      var items := Evaluate(iter, env);
      if items.Err? { return Err(items.error); }
      if !items.value.VList? { return Err(Unsupported(ForIterator)); }
      r := RunSteps(pat, items.value.items, body, env);
    }

    /** The `for` loop. */
    method RunSteps(pat: Pat, items: seq<Value>, body: Expr, env: Env) returns (r: Res<Expr>)
      requires Valid()
      modifies this
      ensures Leaves(r, ElabSteps(ctx, pat, items, body, EMPTY, env, old(fuel), old(expanding)), old(fuel), old(expanding))
      decreases fuel, 9
    {
      hide Valid, ElabSteps, Round, Append, IsGateTree;
      var composed := EMPTY;
      EmptyIsTree();
      ghost var spec := ElabSteps(ctx, pat, items, body, EMPTY, env, fuel, expanding);
      assert items[0..] == items;
      for i := 0 to |items|
        invariant IsGateTree(composed)
        invariant ElabSteps(ctx, pat, items[i..], body, composed, env, fuel, expanding) == spec
        invariant fuel <= old(fuel) && expanding == old(expanding) && Valid()
      {
        StepsStep(ctx, pat, items, i, body, composed, env, fuel, expanding);
        var step := RunRound(pat, items[i], body, env);
        if step.Err? { return step; }
        composed := Append(composed, step.value);
      }
      StepsDone(ctx, pat, items, body, composed, env, fuel, expanding);
      r := Ok(composed);
    }

    /** One round of a `for` loop. */
    method RunRound(pat: Pat, item: Value, body: Expr, env: Env) returns (r: Res<Expr>)
      requires Valid()
      modifies this
      ensures Leaves(r, Round(ctx, pat, item, body, env, old(fuel), old(expanding)), old(fuel), old(expanding))
      ensures r.Ok? ==> IsGateTree(r.value)
      decreases fuel, 8
    {
      hide Elab, BindPat, IsGateTree;
      var inner := BindPat(pat, item, env);
      if inner.Err? { return Err(inner.error); }
      r := ElaborateBody(body, inner.value);
    }

    /** Inlines a recorded body; its name is in the set for exactly as long as that takes. */
    method InlineCallee(name: Name, env: Env) returns (r: Res<Expr>)
      requires Valid() && name in ctx.bodies
      modifies this
      ensures Leaves(r, Inline(ctx, name, env, old(fuel), old(expanding)), old(fuel), old(expanding))
      decreases fuel, 1
    {
      hide Elab;
      if name in expanding { return Err(Unsupported(SelfReference)); }
      expanding, depth := expanding + {name}, depth + 1;
      r := ElaborateBody(ctx.bodies[name], env);
      expanding, depth := expanding - {name}, depth - 1;
    }

    method ElaborateApp(f: Expr, x: Expr, env: Env) returns (r: Res<Expr>)
      requires Valid()
      modifies this
      ensures Leaves(r, ElabApp(ctx, f, x, env, old(fuel), old(expanding)), old(fuel), old(expanding))
      decreases fuel, 20
    {
      hide FlattenApp, Juxtaposed, Subst, ElabNamedApp, ElabOther;
      var head, args := Flatten(f, x);
      if !head.Var? {
        r := ElaborateOther(App(f, x), env);
        return;
      }
      match Juxtaposed(ctx, head.name, args) {
        case Some(angles) =>
          var gate := if angles == 1 then App(head, Subst(ctx.ops, args[0], env)) else head;
          r := Ok(GateApp(gate, Subst(ctx.ops, args[|args| - 1], env)));
        case None => r := ElaborateNamedApp(head.name, args, App(f, x), env);
      }
    }

    method ElaborateNamedApp(name: Name, args: seq<Expr>, call: Expr, env: Env) returns (r: Res<Expr>)
      requires Valid() && args != [] && call.App?
      modifies this
      ensures Leaves(r, ElabNamedApp(ctx, name, args, call, env, old(fuel), old(expanding)), old(fuel), old(expanding))
      decreases fuel, 19
    {
      hide ElabRepeat, ElabEmbed, ElabCall, ElabOther, SwapReverse, Eval;
      if name == "repeat" && |args| == 2 {
        r := RunRepeat(args[0], args[1], env);
      } else if name == "identity" && |args| == 1 {
        r := Ok(EMPTY);
      } else if (name == "on_high" || name == "on_low") && |args| == 2 {
        r := Embed(name == "on_high", args[0], args[1], env);
      } else if name == "swap_reverse" && |args| == 1 {
        var n := Evaluate(args[0], env);
        if n.Err? { return Err(n.error); }
        if !n.value.VInt? { return Err(NotClassical(SwapReverseWidth)); }
        var t := SwapChain(n.value.i);
        r := Ok(t);
      } else if name in ctx.parametric {
        r := CallParametric(ctx.parametric[name], args, env);
      } else {
        r := ElaborateOther(call, env);
      }
    }

    method ElaborateOther(call: Expr, env: Env) returns (r: Res<Expr>)
      requires Valid() && call.App?
      modifies this
      ensures Leaves(r, ElabOther(ctx, call, env, old(fuel), old(expanding)), old(fuel), old(expanding))
      decreases fuel, 18
    {
      hide Inline, Subst, ZeroArgCallee;
      match ZeroArgCallee(ctx, call) {
        case Some(name) => r := InlineCallee(name, map[]);
        case None => r := Ok(Subst(ctx.ops, call, env));
      }
    }

    method RunRepeat(count: Expr, body: Expr, env: Env) returns (r: Res<Expr>)
      requires Valid()
      modifies this
      ensures Leaves(r, ElabRepeat(ctx, count, body, env, old(fuel), old(expanding)), old(fuel), old(expanding))
      decreases fuel, 10
    {
      hide Elab, Eval, Repeat;
      var k := Evaluate(count, env);
      if k.Err? { return Err(k.error); }
      if !k.value.VInt? { return Err(NotClassical(RepeatCount)); }
      var t := ElaborateBody(body, env);
      if t.Err? { return t; }
      var rounds := Rounds(t.value, k.value.i);
      r := Ok(rounds);
    }

    /** The `repeat` loop. */
    method Rounds(body: Expr, k: int) returns (composed: Expr)
      ensures composed == Repeat(body, k, EMPTY)
    {
      hide Append;
      composed := EMPTY;
      var i := 0;
      while i < k
        invariant 0 <= i && (k >= 0 ==> i <= k)
        invariant Repeat(body, k - i, composed) == Repeat(body, k, EMPTY)
      {
        composed := Append(composed, body);
        i := i + 1;
      }
    }

    /** The `swap_reverse` loop. */
    method SwapChain(n: int) returns (composed: Expr)
      ensures composed == SwapReverse(n)
    {
      hide Append, IsGateTree;
      composed := EMPTY;
      EmptyIsTree();
      var i := 0;
      while i < TruncDiv(n, 2)
        invariant 0 <= i && IsGateTree(composed) && SwapSteps(n, i, composed) == SwapSteps(n, 0, EMPTY)
        decreases TruncDiv(n, 2) - i
      {
        var step := Gate("SWAP", CircuitForms.Pair(Int(i), Int(n - 1 - i)));
        GateIsTree(step);
        composed := Append(composed, step);
        i := i + 1;
      }
    }

    method Embed(high: bool, inner: Expr, target: Expr, env: Env) returns (r: Res<Expr>)
      requires Valid()
      modifies this
      ensures Leaves(r, ElabEmbed(ctx, high, inner, target, env, old(fuel), old(expanding)), old(fuel), old(expanding))
      decreases fuel, 10
    {
      hide Valid, Elaborated, Elab, Eval, DeclaredWidth, ShiftQubits, IsGateTree;
      var n := Evaluate(target, env);
      if n.Err? { return Err(n.error); }
      if !n.value.VInt? { return Err(NotClassical(RegisterWidth)); }
      var w := MeasureDeclared(inner, env);
      if w.Err? { return Err(w.error); }
      var t := ElaborateBody(inner, env);
      if t.Err? { return t; }
      r := Ok(ShiftQubits(t.value, if high then n.value.i - w.value else 0));
    }

    /** `on_high_width`, spending fuel. */
    method MeasureDeclared(e: Expr, env: Env) returns (r: Res<int>)
      requires Valid()
      modifies this`fuel
      ensures Leaves(r, DeclaredWidth(ctx, e, env, old(fuel)), old(fuel), old(expanding))
    {
      hide DeclaredWidth;
      var out := DeclaredWidth(ctx, e, env, fuel);
      if out.Fail? { return Err(out.error); }
      fuel := out.fuel;
      r := Ok(out.value);
    }

    method CallParametric(def: ParametricDef, args: seq<Expr>, env: Env) returns (r: Res<Expr>)
      requires Valid()
      modifies this
      ensures Leaves(r, ElabCall(ctx, def, args, env, old(fuel), old(expanding)), old(fuel), old(expanding))
      decreases fuel, 10
    {
      hide Elab, EvalSeq, BindParams;
      if |def.params| != |args| { return Err(Unsupported(CallArity)); }
      var bound := BindArgs(def.params, args, env);
      if bound.Err? { return Err(bound.error); }
      r := ElaborateBody(def.body, bound.value);
    }

    /** Evaluates the arguments in order, binding each parameter as its argument is evaluated. */
    method BindArgs(params: seq<Name>, args: seq<Expr>, env: Env) returns (r: Res<Env>)
      requires Valid() && |params| == |args|
      modifies this`fuel
      ensures var out := EvalSeq(ctx.ops, args, env, old(fuel));
              match out
              case Done(vs, f) => r == Ok(BindParams(params, vs, map[])) && fuel == f
              case Fail(err) => r == Err(err)
      ensures fuel <= old(fuel)
    {
      hide Eval;
      var callee: Env := map[];
      assert args[0..] == args && params[0..] == params;
      for i := 0 to |params|
        invariant fuel <= old(fuel)
        invariant BindingAgrees(params[i..], args[i..], env, callee, fuel, params, args, old(fuel))
      {
        assert args[i..][0] == args[i] && args[i..][1..] == args[i + 1..];
        assert params[i..][0] == params[i] && params[i..][1..] == params[i + 1..];
        var value := Evaluate(args[i], env);
        if value.Err? { return Err(value.error); }
        callee := callee[params[i] := value.value];
      }
      r := Ok(callee);
    }

    /** Finishing the bindings from here gives what binding everything from the start gives. */
    ghost predicate BindingAgrees(params: seq<Name>, args: seq<Expr>, env: Env, callee: Env, left: nat,
                                  allParams: seq<Name>, allArgs: seq<Expr>, was: nat)
      requires |params| == |args| && |allParams| == |allArgs|
    {
      match (EvalSeq(ctx.ops, args, env, left), EvalSeq(ctx.ops, allArgs, env, was))
      case (Done(vs, f), Done(all, g)) => f == g && BindParams(params, vs, callee) == BindParams(allParams, all, map[])
      case (Fail(e1), Fail(e2)) => e1 == e2
      case _ => false
    }

    /** One arm of `par`: a zero-argument callee is inlined under the caller's bindings. */
    method ElaborateParBody(body: Expr, env: Env) returns (r: Res<Expr>)
      requires Valid()
      modifies this
      ensures Leaves(r, ElabParBody(ctx, body, env, old(fuel), old(expanding)), old(fuel), old(expanding))
      decreases fuel, 2
    {
      hide Elab, Inline, ZeroArgCallee;
      match ZeroArgCallee(ctx, body) {
        case Some(name) => r := InlineCallee(name, env);
        case None => r := ElaborateBody(body, env);
      }
    }

    method UnrollPar(body: Expr, count: Expr, env: Env) returns (r: Res<Expr>)
      requires Valid()
      modifies this
      ensures Leaves(r, ElabPar(ctx, body, count, env, old(fuel), old(expanding)), old(fuel), old(expanding))
      decreases fuel, 10
    {
      hide ElabParBody, Eval, ParCopies, Width;
      var k := Evaluate(count, env);
      if k.Err? { return Err(k.error); }
      if !k.value.VInt? { return Err(Unsupported(ParCount)); }
      if k.value.i < 0 { return Err(Unsupported(NegativeParCount)); }
      if k.value.i == 0 { return Ok(EMPTY); }
      var t := ElaborateParBody(body, env);
      if t.Err? { return t; }
      var copies := PlaceCopies(t.value, Width(t.value), k.value.i);
      r := Ok(copies);
    }

    /** The `par { c } * k` loop. */
    method PlaceCopies(t: Expr, width: nat, k: int) returns (composed: Expr)
      requires IsGateTree(t)
      ensures composed == ParCopies(t, width, 0, k, EMPTY)
    {
      hide ComposeNonempty, ShiftCircuit, IsGateTree;
      composed := EMPTY;
      EmptyIsTree();
      var i := 0;
      while i < k
        invariant 0 <= i && IsGateTree(composed)
        invariant ParCopies(t, width, i, k, composed) == ParCopies(t, width, 0, k, EMPTY)
      {
        composed := ComposeNonempty(composed, ShiftCircuit(t, i * width));
        i := i + 1;
      }
    }

    /** The `par { c1, c2, … }` loop. */
    method UnrollParN(items: seq<Expr>, env: Env) returns (r: Res<Expr>)
      requires Valid()
      modifies this
      ensures Leaves(r, ElabParN(ctx, items, 0, EMPTY, env, old(fuel), old(expanding)), old(fuel), old(expanding))
      decreases fuel, 9
    {
      hide ElabParBody, ComposeNonempty, ShiftCircuit, Width, IsGateTree;
      var composed := EMPTY;
      var offset := 0;
      EmptyIsTree();
      ghost var spec := ElabParN(ctx, items, 0, EMPTY, env, fuel, expanding);
      assert items[0..] == items;
      for i := 0 to |items|
        invariant IsGateTree(composed)
        invariant ElabParN(ctx, items[i..], offset, composed, env, fuel, expanding) == spec
        invariant fuel <= old(fuel) && expanding == old(expanding) && Valid()
      {
        assert items[i..][0] == items[i] && items[i..][1..] == items[i + 1..];
        var t := ElaborateParBody(items[i], env);
        if t.Err? { return t; }
        composed := ComposeNonempty(composed, ShiftCircuit(t.value, offset));
        offset := offset + Width(t.value);
      }
      r := Ok(composed);
    }

    // ── Control ──────────────────────────────────────────────────────────────

    /** `decompose_controlled`. */
    method DecomposeControlled(inner: Expr, control: Expr, target: Expr, env: Env) returns (r: Res<Expr>)
      requires Valid()
      modifies this
      ensures Leaves(r, Ctl(ctx, inner, control, target, env, old(fuel), old(expanding)), old(fuel), old(expanding))
      decreases fuel, 5, ControlSize(inner), 2, 0
    {
      hide Ctl, NamedCallee, CtlNode;
      CtlStep(ctx, inner, control, target, env, fuel, expanding);
      NoCalleeKeepsFuel(ctx, inner, env, fuel, expanding);
      var callee := ElaborateNamedCallee(inner, env);
      if callee.Err? { return Err(callee.error); }
      match callee.value {
        case Some(t) => r := DecomposeControlled(t, control, target, env);
        case None => r := ControlNode(inner, control, target, env);
      }
    }

    /** A parametric call or a zero-argument callee is elaborated before control is distributed. */
    method ElaborateNamedCallee(inner: Expr, env: Env) returns (r: Res<Option<Expr>>)
      requires Valid()
      modifies this
      ensures Leaves(r, NamedCallee(ctx, inner, env, old(fuel), old(expanding)), old(fuel), old(expanding))
      decreases fuel, 2
    {
      hide Elab, Inline, ZeroArgCallee, IsParametricCall;
      if IsParametricCall(ctx, inner) {
        var t := ElaborateBody(inner, env);
        if t.Err? { return Err(t.error); }
        return Ok(Some(t.value));
      }
      match ZeroArgCallee(ctx, inner) {
        case None => r := Ok(None);
        case Some(name) =>
          var t := InlineCallee(name, env);
          if t.Err? { return Err(t.error); }
          r := Ok(Some(t.value));
      }
    }

    method ControlNode(inner: Expr, control: Expr, target: Expr, env: Env) returns (r: Res<Expr>)
      requires Valid()
      modifies this
      ensures Leaves(r, CtlNode(ctx, inner, control, target, env, old(fuel), old(expanding)), old(fuel), old(expanding))
      decreases fuel, 5, ControlSize(inner), 1, 0
    {
      hide Valid, CtlNode, Ctl, CtlPar, CtlArms, CtlLeaf, BlockBody, BodyWiresOf, IsGateTree, ControlSize, ControlSizes, Elaborated;
      match inner {
        case Compose(lhs, rhs) => r := ControlCompose(inner, control, target, env);
        case CircuitBlock(stmts) =>
          CtlBlockStep(ctx, inner, control, target, env, fuel, expanding);
          var body := BlockBody(ctx.ops, stmts, env);
          if body.Err? { return body; }
          r := DecomposeControlled(body.value, control, target, env);
        case Par(body, count) =>
          SizesOfParts(inner);
          CtlParStep(ctx, inner, control, target, env, fuel, expanding);
          r := ControlPar(body, count, control, target, env);
        case ParN(items) =>
          SizesOfParts(inner);
          EmptyIsTree();
          CtlParNStep(ctx, inner, control, target, env, fuel, expanding);
          r := ControlArms(items, control, BodyWiresOf(target), env);
        case Adjoint(body) => r := ControlAdjoint(inner, control, target, env);
        case _ =>
          CtlLeafStep(ctx, inner, control, target, env, fuel, expanding);
          r := CtlLeaf(ctx, inner, control, target, env);
      }
    }

    method ControlCompose(inner: Expr, control: Expr, target: Expr, env: Env) returns (r: Res<Expr>)
      requires Valid() && inner.Compose?
      modifies this
      ensures Leaves(r, CtlNode(ctx, inner, control, target, env, old(fuel), old(expanding)), old(fuel), old(expanding))
      decreases fuel, 5, ControlSize(inner), 0, 0
    {
      hide CtlNode, Ctl, ComposeNonempty, IsGateTree, ControlSize, ControlSizes;
      SizesOfParts(inner);
      CtlComposeStep(ctx, inner, control, target, env, fuel, expanding);
      var left := DecomposeControlled(inner.lhs, control, target, env);
      if left.Err? { return left; }
      var right := DecomposeControlled(inner.rhs, control, target, env);
      if right.Err? { return right; }
      r := Ok(ComposeNonempty(left.value, right.value));
    }

    method ControlAdjoint(inner: Expr, control: Expr, target: Expr, env: Env) returns (r: Res<Expr>)
      requires Valid() && inner.Adjoint?
      modifies this
      ensures Leaves(r, CtlNode(ctx, inner, control, target, env, old(fuel), old(expanding)), old(fuel), old(expanding))
      decreases fuel, 5, ControlSize(inner), 0, 0
    {
      hide CtlNode, Ctl, ReverseAndInvert, IsGateTree, ControlSize, ControlSizes;
      SizesOfParts(inner);
      CtlAdjointStep(ctx, inner, control, target, env, fuel, expanding);
      r := DecomposeControlled(inner.inner, control, target, env);
      if r.Ok? { r := ReverseInvert(ctx.reg, r.value); }
    }

    method MeasureArm(arm: Expr, env: Env) returns (r: Res<nat>)
      requires Valid()
      modifies this
      ensures Leaves(r, ArmWidth(ctx, arm, env, old(fuel), old(expanding)), old(fuel), old(expanding))
      decreases fuel, 1
    {
      hide Elab, PrimitiveWires, Width, MaxQubitIndex;
      match PrimitiveWires(ctx, arm) {
        case Some(w) => r := Ok(w);
        case None =>
          var t := ElaborateBody(arm, env);
          if t.Err? { return Err(t.error); }
          r := Ok(if MaxQubitIndex(t.value).Some? then Width(t.value) else 1);
      }
    }

    method ControlPar(body: Expr, count: Expr, control: Expr, target: Expr, env: Env) returns (r: Res<Expr>)
      requires Valid()
      modifies this
      ensures Leaves(r, CtlPar(ctx, body, count, control, target, env, old(fuel), old(expanding)), old(fuel), old(expanding))
      decreases fuel, 5, ControlSize(body), 4, 1
    {
      hide Eval, CtlParK;
      var v := Eval(ctx.ops, count, env, ctx.ops.probe);
      if v.Fail? { return Err(v.error); }
      if !v.value.VInt? { return Err(Unsupported(ControlledParCount)); }
      if v.value.i < 0 { return Err(Unsupported(ControlledParNegative)); }
      if v.value.i == 0 { return Ok(EMPTY); }
      r := ControlCopies(body, v.value.i, control, target, env);
    }

    /** The `controlled(par { c } * k)` loop. */
    method ControlCopies(body: Expr, k: int, control: Expr, target: Expr, env: Env) returns (r: Res<Expr>)
      requires Valid()
      modifies this
      ensures Leaves(r, CtlParK(ctx, body, k, control, target, env, old(fuel), old(expanding)), old(fuel), old(expanding))
      decreases fuel, 5, ControlSize(body), 4, 0
    {
      hide CtlParK, ArmWidth, CtlCopies, BodyWiresOf, Fits, ControlSize, ControlSizes, IsGateTree;
      ParKRefused(ctx, body, k, control, target, env, fuel, expanding);
      ghost var was := fuel;
      var width := MeasureArm(body, env);
      if width.Err? { return Err(width.error); }
      var wires := BodyWiresOf(target);
      if !Fits(wires, k, width.value) {
        return Err(Unsupported(ControlledParWidth));
      }
      EmptyIsTree();
      ParKStep(ctx, body, k, control, target, env, width.value, fuel, was, expanding);
      r := RunCopies(body, control, wires, width.value, k, env);
    }

    /** Copy `i` on its slice of the wires. */
    method ControlCopy(body: Expr, control: Expr, wires: BodyWires, w: nat, i: nat, env: Env) returns (r: Res<Expr>)
      requires Valid()
      modifies this
      ensures Leaves(r, CtlCopy(ctx, body, control, wires, w, i, env, old(fuel), old(expanding)), old(fuel), old(expanding))
      ensures r.Ok? ==> IsGateTree(r.value)
      decreases fuel, 5, ControlSize(body), 3, 0
    {
      hide Ctl, WireSlice, Saturate, IsGateTree, ControlSize, ControlSizes;
      var t := WireSlice(wires, CopyOffset(i, w), w);
      if t.Err? { return t; }
      r := DecomposeControlled(body, control, t.value, env);
    }

    method RunCopies(body: Expr, control: Expr, wires: BodyWires, w: nat, k: int, env: Env) returns (r: Res<Expr>)
      requires Valid()
      modifies this
      ensures Leaves(r, CtlCopies(ctx, body, control, wires, w, 0, k, EMPTY, env, old(fuel), old(expanding)), old(fuel), old(expanding))
      decreases fuel, 5, ControlSize(body), 3, 1
    {
      hide Valid, CtlCopies, CtlCopy, ComposeNonempty, IsGateTree, ControlSize, ControlSizes;
      var composed := EMPTY;
      EmptyIsTree();
      ghost var spec := CtlCopies(ctx, body, control, wires, w, 0, k, EMPTY, env, fuel, expanding);
      var i := 0;
      while i < k
        invariant 0 <= i && IsGateTree(composed)
        invariant CtlCopies(ctx, body, control, wires, w, i, k, composed, env, fuel, expanding) == spec
        invariant fuel <= old(fuel) && expanding == old(expanding) && Valid()
      {
        CopiesStep(ctx, body, control, wires, w, i, k, composed, env, fuel, expanding);
        var step := ControlCopy(body, control, wires, w, i, env);
        if step.Err? { return step; }
        composed := ComposeNonempty(composed, step.value);
        i := i + 1;
      }
      CopiesDone(ctx, body, control, wires, w, i, k, composed, env, fuel, expanding);
      r := Ok(composed);
    }

    /** The `controlled(par { c1, c2, … })` loop, then the check that the arms used every target wire. */
    method ControlArms(items: seq<Expr>, control: Expr, wires: BodyWires, env: Env) returns (r: Res<Expr>)
      requires Valid()
      modifies this
      ensures Leaves(r, CtlArms(ctx, items, control, wires, 0, EMPTY, env, old(fuel), old(expanding)), old(fuel), old(expanding))
      decreases fuel, 5, ControlSizes(items), 5
    {
      hide Valid, Elaborated, UsesEvery, CtlArms, CtlArm, Saturate, IsGateTree, ComposeNonempty, ControlSize, ControlSizes;
      EmptyIsTree();
      var arms := RunArms(items, control, wires, env);
      if arms.Err? { return Err(arms.error); }
      var (composed, offset) := arms.value;
      if !UsesEvery(wires, offset) {
        ArmsLeaveWires(ctx, items, control, wires, offset, composed, env, fuel, expanding);
        return Err(Unsupported(ControlledParWidth));
      }
      ArmsDone(ctx, items, control, wires, offset, composed, env, fuel, expanding);
      r := Ok(composed);
    }

    method RunArms(items: seq<Expr>, control: Expr, wires: BodyWires, env: Env) returns (r: Res<(Expr, int)>)
      requires Valid() && IsGateTree(EMPTY)
      modifies this
      ensures var spec := CtlArms(ctx, items, control, wires, 0, EMPTY, env, old(fuel), old(expanding));
              if r.Err? then spec == Fail(r.error)
              else
                && IsGateTree(r.value.0)
                && spec == CtlArms(ctx, items[|items|..], control, wires, r.value.1, r.value.0, env, fuel, expanding)
      ensures fuel <= old(fuel) && expanding == old(expanding) && Valid()
      decreases fuel, 5, ControlSizes(items), 4
    {
      hide Valid, CtlArms, CtlArm, Saturate, ComposeNonempty, IsGateTree, ControlSize, ControlSizes;
      var composed := EMPTY;
      var offset := 0;
      ghost var spec := CtlArms(ctx, items, control, wires, 0, EMPTY, env, fuel, expanding);
      assert items[0..] == items;
      for i := 0 to |items|
        invariant IsGateTree(composed)
        invariant CtlArms(ctx, items[i..], control, wires, offset, composed, env, fuel, expanding) == spec
        invariant fuel <= old(fuel) && expanding == old(expanding) && Valid()
      {
        ArmSize(items, i);
        ArmsStep(ctx, items, i, control, wires, offset, composed, env, fuel, expanding);
        var arm := ControlOneArm(items[i], control, wires, offset, env);
        if arm.Err? { return Err(arm.error); }
        composed := ComposeNonempty(composed, arm.value.0);
        offset := Saturate(offset + arm.value.1);
      }
      r := Ok((composed, offset));
    }

    method ControlOneArm(item: Expr, control: Expr, wires: BodyWires, offset: int, env: Env) returns (r: Res<(Expr, nat)>)
      requires Valid()
      modifies this
      ensures Leaves(r, CtlArm(ctx, item, control, wires, offset, env, old(fuel), old(expanding)), old(fuel), old(expanding))
      ensures r.Ok? ==> IsGateTree(r.value.0)
      decreases fuel, 5, ControlSize(item), 3, 0
    {
      hide CtlArm, Ctl, ArmWidth, WireSlice;
      ArmRefused(ctx, item, control, wires, offset, env, fuel, expanding);
      ghost var was := fuel;
      var width := MeasureArm(item, env);
      if width.Err? { return Err(width.error); }
      var t := WireSlice(wires, offset, width.value);
      if t.Err? { return Err(t.error); }
      ArmStep(ctx, item, control, wires, offset, env, width.value, fuel, t.value, was, expanding);
      var step := DecomposeControlled(item, control, t.value, env);
      if step.Err? { return Err(step.error); }
      r := Ok((step.value, width.value));
    }
  }

  lemma {:induction false} ArmSize(items: seq<Expr>, i: nat)
    requires i < |items|
    ensures ControlSize(items[i]) <= ControlSizes(items)
  {
    if i > 0 { ArmSize(items[1..], i - 1); }
  }

  lemma {:induction false} SubsetIsNoLarger(a: set<Name>, b: set<Name>)
    requires a <= b
    ensures |a| <= |b|
  {
    if a != {} {
      var x :| x in a;
      SubsetIsNoLarger(a - {x}, b - {x});
    }
  }

  lemma EmptyIsTree()
    ensures IsGateTree(EMPTY)
  {
  }

  lemma GateIsTree(e: Expr)
    requires e.GateApp?
    ensures IsGateTree(e)
  {
  }

  /** `flatten_app`: the loop down the spine of a call, collecting arguments. */
  method Flatten(f: Expr, x: Expr) returns (head: Expr, args: seq<Expr>)
    ensures (head, args) == FlattenApp(f, x)
  {
    head, args := f, [x];
    while head.App?
      invariant FlattenedOnto(head, args) == FlattenApp(f, x)
      decreases head
    {
      MoveArg(head, args);
      args := [head.arg] + args;
      head := head.fn;
    }
  }

  /** What is left to flatten, in front of the arguments already collected. */
  function FlattenedOnto(head: Expr, args: seq<Expr>): (Expr, seq<Expr>) {
    if head.App? then
      var (h, before) := FlattenApp(head.fn, head.arg);
      (h, before + args)
    else (head, args)
  }

  lemma MoveArg(head: Expr, args: seq<Expr>)
    requires head.App?
    ensures FlattenedOnto(head.fn, [head.arg] + args) == FlattenedOnto(head, args)
  {
    if head.fn.App? {
      var before := FlattenApp(head.fn.fn, head.fn.arg).1;
      assert before + ([head.arg] + args) == (before + [head.arg]) + args;
    } else {
      assert [head.arg] + args == [] + ([head.arg] + args);
    }
  }

  /** `reverse_and_invert`: the loop over the placements, last to first. */
  method ReverseInvert(reg: Registry, e: Expr) returns (r: Res<Expr>)
    ensures r == ReverseAndInvert(reg, e)
  {
    if IsEmpty(e) { return Ok(e); }
    var collected := Collect(e);
    if collected.Err? { return Err(collected.error); }
    var ps := collected.value;
    var result: Option<Expr> := None;
    var i := |ps|;
    assert ps[..i] == ps;
    while i > 0
      invariant 0 <= i <= |ps| && InvertOnto(reg, ps[..i], result) == InvertOnto(reg, ps, None)
    {
      i := i - 1;
      assert ps[..i + 1][..i] == ps[..i];
      var gate := InvertGate(reg, ps[i].gate);
      if gate.Err? { return Err(gate.error); }
      var step := GateApp(gate.value, ps[i].qubits);
      result := Some(if result.None? then step else Compose(result.value, step));
    }
    if result.None? { return Err(Unsupported(AdjointOfEmpty)); }
    r := Ok(result.value);
  }
}
