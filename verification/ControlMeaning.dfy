/** What a controlled placement means in the phase semantics: the meaning of its body on the target wire
    while the control bit is set, and nothing while it is clear. */
module ControlMeaning {
  import opened Ast
  import opened Classical
  import opened GateTree
  import opened CircuitForms
  import opened Elaborate
  import opened ElaborateLaws
  import opened Meaning
  import opened RunLaws
  import opened GateTreeLaws
  import opened NameLaws
  import opened ScopeLaws
  import opened ParScope
  import opened Phase
  import opened Control
  import opened Gadgets
  import opened ControlBody
  import opened ControlScope
  import opened ControlProof
  import opened MeaningProof

  // ── Bodies of the fragment are on their own ────────────────────────────────

  lemma {:induction false} NothingToRead(t: Expr)
    requires IsGateTree(t) && FragmentTree(t)
    ensures Quiet({}, t)
  {
    if t.Compose? {
      hide FragmentTree, Leaves;
      TreeParts(t);
      NothingToRead(t.lhs);
      NothingToRead(t.rhs);
    } else if t.GateApp? {
      assert BodyLeaf(Leaves(t)[0]);
      LiteralArgs(t.gate);
    } else if t.CircuitBlock? {
      EmptyTree({});
    } else {
      ResidualIsNoFragment(t);
    }
  }

  lemma LiteralArgs(g: Expr)
    requires FragmentGate(g)
    ensures ArgNames(g) == {}
  {
  }

  lemma FragmentUnread(c: Ctx, t: Expr, env: Env)
    requires IsGateTree(t) && FragmentTree(t)
    ensures Unread(c, t, env)
  {
    hide Quiet, FragmentTree;
    NothingToRead(t);
    var names: set<Name> := {};
    assert Closed(c, names) && names !! env.Keys;
  }

  lemma {:induction false} FragmentOnItsOwn(c: Ctx, e: Expr, env: Env, exp: set<Name>, flat: bool)
    requires InFragment(c, e, env, exp, flat)
    ensures OnItsOwn(c, e, env, exp)
    decreases ControlSize(e), 2, 0
  {
    hide FragmentTree, Unread, Unseen, NamedCallee, ZeroArgCallee, IsParametricCall, PartsOnTheirOwn;
    if IsParametricCall(c, e) {
      forall fuel: nat ensures UnreadCallee(c, NamedCallee(c, e, env, fuel, exp), env) {
        var r := NamedCallee(c, e, env, fuel, exp);
        assert CalleeIs(NamedCallee(c, e, CalleeScope(c, e, env), fuel, exp));
        if r.Done? && r.value.Some? { FragmentUnread(c, r.value.value, env); }
      }
    } else if ZeroArgCallee(c, e).None? {
      FragmentParts(c, e, env, exp, flat);
    }
  }

  lemma {:induction false} FragmentParts(c: Ctx, e: Expr, env: Env, exp: set<Name>, flat: bool)
    requires InFragment(c, e, env, exp, flat) && !NamesCallee(c, e)
    ensures PartsOnTheirOwn(c, e, env, exp)
    decreases ControlSize(e), 1, 0
  {
    hide OnItsOwn, NamesCallee, BlockBody, TakesOneWire, CountFits, IsFixed, NamesWireZero;
    match e
    case Compose(l, r) =>
      FragmentOnItsOwn(c, l, env, exp, flat);
      FragmentOnItsOwn(c, r, env, exp, flat);
    case Adjoint(inner) => FragmentOnItsOwn(c, inner, env, exp, flat);
    case CircuitBlock(stmts) =>
      if BlockBody(c.ops, stmts, env).Ok? { FragmentOnItsOwn(c, BlockBody(c.ops, stmts, env).value, env, exp, flat); }
    case Par(body, _) => FragmentOnItsOwn(c, body, env, exp, true);
    case ParN(items) => FragmentArms(c, items, env, exp);
    case _ =>
  }

  lemma {:induction false} FragmentArms(c: Ctx, items: seq<Expr>, env: Env, exp: set<Name>)
    requires ArmsInFragment(c, items, env, exp)
    ensures AllOnTheirOwn(c, items, env, exp)
    decreases ControlSizes(items), 3, |items|
  {
    hide OnItsOwn, InFragment, TakesOneWire, ControlSize;
    if items != [] {
      FragmentOnItsOwn(c, items[0], env, exp, true);
      FragmentArms(c, items[1..], env, exp);
    }
  }

  // ── The gates of a body ────────────────────────────────────────────────────

  /** A call that elaborates as a call: `f`, `f()`, or a parametric one. */
  predicate IsPlainCall(c: Ctx, e: Expr) {
    || IsParametricCall(c, e)
    || e.Var?
    || (e.App? && e.fn.Var? && e.arg == Unit && SurfaceGate(c.reg, e.fn.name).None? && e.fn.name !in {"identity", "swap_reverse"})
  }

  /** Calls and gates placed on wire 0 under names that are not bound, in sequence and undone: control and
      elaboration read the same gates in these. */
  predicate PlacedBody(c: Ctx, e: Expr, env: Env) {
    if NamesCallee(c, e) then IsPlainCall(c, e)
    else
      match e
      case Compose(lhs, rhs) => PlacedBody(c, lhs, env) && PlacedBody(c, rhs, env)
      case Adjoint(inner) => PlacedBody(c, inner, env)
      case GateApp(gate, qubits) => qubits == Int(0) && GateName(gate) !in env
      case _ => false
  }

  function GateName(g: Expr): Name {
    match g
    case Var(name) => name
    case App(Var(name), _) => name
    case _ => ""
  }

  lemma UnboundName(ops: Ops, name: Name, env: Env)
    requires name !in env && name !in {"PI", "TAU", "E"}
    ensures Subst(ops, Var(name), env) == Var(name)
  {
    if ops.probe > 0 { assert Eval(ops, Var(name), env, ops.probe) == Lift(Lookup(ops, name, env), ops.probe - 1); }
  }

  lemma NotClassical(ops: Ops, x: Expr, env: Env)
    ensures Eval(ops, App(Var("Rz"), x), env, ops.probe).Fail?
  {
    hide EvalSeq;
    assert FlattenApp(Var("Rz"), x) == (Var("Rz"), [x]);
    if ops.probe > 0 {
      var vs := EvalSeq(ops, [x], env, ops.probe - 1);
      if vs.Done? { assert EvalBuiltin(ops, "Rz", vs.value) == Ok(None); }
    }
  }

  lemma GateReads(c: Ctx, g: Expr, env: Env, b: seq<Leaf>)
    requires (g.Var? && IsFixed(g.name)) || (g.App? && g.fn == Var("Rz"))
    requires GateName(g) !in env && IsGateBody(c, g, env, b)
    ensures b == [Placed(Subst(c.ops, g, env), Int(0))]
  {
    hide Subst;
    if g.Var? {
      UnboundName(c.ops, g.name, env);
    } else {
      UnboundName(c.ops, "Rz", env);
      NotClassical(c.ops, g.arg, env);
      SubstCall(c.ops, g.fn, g.arg, env);
    }
  }

  lemma PlacedElaborated(c: Ctx, g: Expr, env: Env, fuel: nat, exp: set<Name>)
    requires (g.Var? && IsFixed(g.name)) || (g.App? && g.fn == Var("Rz"))
    requires Elab(c, GateApp(g, Int(0)), env, fuel, exp).Done?
    ensures Leaves(Elab(c, GateApp(g, Int(0)), env, fuel, exp).value) == [Placed(Subst(c.ops, g, env), Int(0))]
  {
    hide Ctl, Subst, RzzGadget, SplitControl, ElabBlock, ElabCompose, ElabMatch, ElabLet, ElabAdjoint, ElabFor, ElabApp, Inline, ElabPar, ElabParN;
    SubstLiteral(c.ops, Int(0), env);
    if g.App? { assert FlattenApp(g.fn, g.arg) == (g.fn, [g.arg]); }
    assert ElabNode(c, GateApp(g, Int(0)), env, fuel - 1, exp) == ElabGateApp(c, g, Int(0), env, fuel - 1, exp);
  }

  lemma CallNode(c: Ctx, e: Expr, env: Env, fuel: nat, exp: set<Name>)
    requires !IsParametricCall(c, e) && IsPlainCall(c, e) && e.App? && ZeroArgCallee(c, e).Some?
    ensures ElabNode(c, e, env, fuel, exp) == Inline(c, ZeroArgCallee(c, e).value, map[], fuel, exp)
  {
    hide Inline, ElabRepeat, ElabEmbed, SwapReverse, ElabCall, ZeroArgCallee;
    assert FlattenApp(e.fn, e.arg) == (e.fn, [Unit]);
    assert Juxtaposed(c, e.fn.name, [Unit]).None?;
    assert ElabNode(c, e, env, fuel, exp) == ElabApp(c, e.fn, e.arg, env, fuel, exp);
    assert ElabNamedApp(c, e.fn.name, [Unit], e, env, fuel, exp) == ElabOther(c, e, env, fuel, exp);
  }

  /** A call elaborates to the gates that control reads for it. */
  lemma CallReads(c: Ctx, e: Expr, env: Env, fuel: nat, exp: set<Name>)
    requires NamesCallee(c, e) && IsPlainCall(c, e) && Elab(c, e, env, fuel, exp).Done?
    ensures exists f: nat :: var r := NamedCallee(c, e, CalleeScope(c, e, env), f, exp);
              r.Done? && r.value == Some(Elab(c, e, env, fuel, exp).value)
  {
    hide ElabNode, Inline, IsParametricCall, ZeroArgCallee, IsPlainCall, NamedCallee;
    if IsParametricCall(c, e) {
      CallNamed(c, e, env, fuel, exp);
    } else {
      var name := ZeroArgCallee(c, e).value;
      OneStep(c, e, env, fuel, exp);
      PlainNode(c, e, env, fuel - 1, exp);
      NamedInline(c, e, map[], fuel - 1, exp);
      assert NamedCallee(c, e, CalleeScope(c, e, env), fuel - 1, exp).Done?;
    }
  }

  lemma CallNamed(c: Ctx, e: Expr, env: Env, fuel: nat, exp: set<Name>)
    requires IsParametricCall(c, e) && Elab(c, e, env, fuel, exp).Done?
    ensures var r := NamedCallee(c, e, CalleeScope(c, e, env), fuel, exp);
            r.Done? && r.value == Some(Elab(c, e, env, fuel, exp).value)
  {
    hide Elab, IsParametricCall;
  }

  lemma PlainNode(c: Ctx, e: Expr, env: Env, fuel: nat, exp: set<Name>)
    requires !IsParametricCall(c, e) && IsPlainCall(c, e) && ZeroArgCallee(c, e).Some?
    ensures ElabNode(c, e, env, fuel, exp) == Inline(c, ZeroArgCallee(c, e).value, map[], fuel, exp)
  {
    hide ElabNode, Inline;
    if e.Var? { NamedNode(c, e.name, env, fuel, exp); } else { CallNode(c, e, env, fuel, exp); }
  }

  /** Whatever the fuel, a call stands for the same gates. */
  lemma CalleeIsUnique(c: Ctx, e: Expr, scope: Env, f: nat, f': nat, exp: set<Name>)
    requires NamedCallee(c, e, scope, f, exp).Done? && NamedCallee(c, e, scope, f', exp).Done?
    ensures NamedCallee(c, e, scope, f, exp).value == NamedCallee(c, e, scope, f', exp).value
  {
    hide NamedCallee;
    if f <= f' { CalleeStable(c, e, scope, f, exp, f' - f, exp); } else { CalleeStable(c, e, scope, f', exp, f - f', exp); }
  }

  /** The body that control reads is the gates the expression elaborates to. */
  lemma {:induction false} BodyIsElaborated(c: Ctx, e: Expr, env: Env, fuel: nat, exp: set<Name>, flat: bool, b: seq<Leaf>)
    requires InFragment(c, e, env, exp, flat) && PlacedBody(c, e, env) && IsBody(c, e, env, exp, b)
    requires Elab(c, e, env, fuel, exp).Done?
    ensures b == Leaves(Elab(c, e, env, fuel, exp).value)
    decreases e
  {
    hide *;
    if NamesCallee(c, e) { CallBody(c, e, env, fuel, exp, b); }
    else { PartsBody(c, e, env, fuel, exp, flat, b); }
  }

  lemma CallBody(c: Ctx, e: Expr, env: Env, fuel: nat, exp: set<Name>, b: seq<Leaf>)
    requires NamesCallee(c, e) && PlacedBody(c, e, env) && IsBody(c, e, env, exp, b) && Elab(c, e, env, fuel, exp).Done?
    ensures b == Leaves(Elab(c, e, env, fuel, exp).value)
  {
    hide Elab, NamedCallee, NamesCallee, IsPlainCall, CalleeScope, Leaves;
    CallReads(c, e, env, fuel, exp);
    var f: nat :| NamedCallee(c, e, CalleeScope(c, e, env), f, exp).Done?
                  && NamedCallee(c, e, CalleeScope(c, e, env), f, exp).value == Some(Elab(c, e, env, fuel, exp).value);
    var f': nat, t: Expr, r: nat :| NamedCallee(c, e, CalleeScope(c, e, env), f', exp) == Done(Some(t), r) && b == Leaves(t);
    CalleeIsUnique(c, e, CalleeScope(c, e, env), f, f', exp);
  }

  lemma {:induction false} PartsBody(c: Ctx, e: Expr, env: Env, fuel: nat, exp: set<Name>, flat: bool, b: seq<Leaf>)
    requires InFragment(c, e, env, exp, flat) && PlacedBody(c, e, env) && IsBody(c, e, env, exp, b) && !NamesCallee(c, e)
    requires Elab(c, e, env, fuel, exp).Done?
    ensures b == Leaves(Elab(c, e, env, fuel, exp).value)
    decreases e, 0
  {
    hide Elab, ElabNode, NamesCallee, Leaves, ComposeNonempty, ReverseAndInvert, InFragment, IsFixed, GateName, IsGateBody, InvertAll;
    OneStep(c, e, env, fuel, exp);
    if e.Compose? {
      ComposeParts(c, e, env, exp, flat);
      ComposeElaborates(c, e, env, fuel - 1, exp);
      var l := Elab(c, e.lhs, env, fuel - 1, exp);
      var r := Elab(c, e.rhs, env, l.fuel, exp);
      LeavesNonempty(l.value, r.value);
      var b1, b2 :| IsBody(c, e.lhs, env, exp, b1) && IsBody(c, e.rhs, env, exp, b2) && b == b1 + b2;
      BodyIsElaborated(c, e.lhs, env, fuel - 1, exp, flat, b1);
      BodyIsElaborated(c, e.rhs, env, l.fuel, exp, flat, b2);
    } else if e.Adjoint? {
      InverseParts(c, e, env, exp, flat);
      AdjointElaborates(c, e, env, fuel - 1, exp);
      var t := Elab(c, e.inner, env, fuel - 1, exp);
      AdjointLeaves(c.reg, t.value);
      var b1 :| IsBody(c, e.inner, env, exp, b1) && b == InvertAll(c.reg, b1);
      BodyIsElaborated(c, e.inner, env, fuel - 1, exp, flat, b1);
    } else {
      GateParts(c, e, env, exp, flat);
      GateReads(c, e.gate, env, b);
      PlacedElaborated(c, e.gate, env, fuel, exp);
    }
  }

  lemma ComposeElaborates(c: Ctx, e: Expr, env: Env, fuel: nat, exp: set<Name>)
    requires e.Compose? && ElabNode(c, e, env, fuel, exp).Done?
    ensures var l := Elab(c, e.lhs, env, fuel, exp);
            && l.Done?
            && var r := Elab(c, e.rhs, env, l.fuel, exp);
               r.Done? && ElabNode(c, e, env, fuel, exp).value == ComposeNonempty(l.value, r.value)
  {
    hide Elab, ComposeNonempty, IsGateTree;
  }

  lemma AdjointElaborates(c: Ctx, e: Expr, env: Env, fuel: nat, exp: set<Name>)
    requires e.Adjoint? && ElabNode(c, e, env, fuel, exp).Done?
    ensures var t := Elab(c, e.inner, env, fuel, exp);
            && t.Done? && ReverseAndInvert(c.reg, t.value).Ok?
            && ElabNode(c, e, env, fuel, exp).value == ReverseAndInvert(c.reg, t.value).value
  {
    hide Elab, ReverseAndInvert, IsGateTree;
  }

  // ── Controlled placements ──────────────────────────────────────────────────

  /** `controlled(e) @ (ctrl, wire)` does what `e` means on the target wire while the control bit is set
      and nothing while it is clear, up to the phase `alpha`. */
  ghost predicate DenotesControl(c: Ctx, e: Expr, qubits: Expr, env: Env, d: nat, ctrl: nat, wire: nat, alpha: real, s: Basis)
    requires c.ops.pi != 0.0 && ctrl < |s.bits|
  {
    var m := PhaseModel(c.reg, c.ops.pi);
    var body := Den(c, m, e, env, d, true, wire, s);
    && body.Some?
    && Den(c, m, GateApp(Expr.Controlled(e), qubits), env, d, true, 0, s)
         == Some(Turned(if s.bits[ctrl] then body.value else s, alpha))
  }

  /** The placement of a controlled body: the control first, then the targets, as one start index or wire,
      as a tuple of wires, or listed one after the other. */
  predicate StandsOn(placement: Expr, ctrl: nat, target: Expr) {
    || (placement == Tuple([Int(ctrl), target]) && !(target.Tuple? && |target.items| == 1))
    || placement == Tuple([Int(ctrl), Tuple([target])])
    || (target.Tuple? && |target.items| > 1 && placement == Tuple([Int(ctrl)] + target.items))
  }

  lemma SplitsIn(placement: Expr, ctrl: nat, target: Expr)
    requires StandsOn(placement, ctrl, target)
    ensures SplitControl(placement).Ok? && SplitControl(placement).value.0 == Int(ctrl)
    ensures SingletonTarget(SplitControl(placement).value.1) == target
  {
    if placement != Tuple([Int(ctrl), target]) && placement != Tuple([Int(ctrl), Tuple([target])]) {
      assert ([Int(ctrl)] + target.items)[1..] == target.items;
    }
  }

  lemma PlacedControl(c: Ctx, e: Expr, qubits: Expr, env: Env, fuel: nat, exp: set<Name>, ctrl: nat, target: Expr)
    requires Elab(c, GateApp(Expr.Controlled(e), qubits), env, fuel, exp).Done? && StandsOn(Subst(c.ops, qubits, env), ctrl, target)
    ensures fuel > 0
    ensures Elab(c, GateApp(Expr.Controlled(e), qubits), env, fuel, exp) == Ctl(c, e, Int(ctrl), target, env, fuel - 1, exp)
    ensures OnItsOwn(c, e, env, exp) ==> Clean(c, GateApp(Expr.Controlled(e), qubits), env, fuel, exp)
  {
    hide Ctl, Subst, SplitControl, StandsOn, RzzGadget, OnItsOwn, ElabBlock, ElabCompose, ElabMatch, ElabLet, ElabAdjoint, ElabFor,
         ElabApp, Inline, ElabPar, ElabParN;
    var p := GateApp(Expr.Controlled(e), qubits);
    SplitsIn(Subst(c.ops, qubits, env), ctrl, target);
    assert Elab(c, p, env, fuel, exp) == ElabNode(c, p, env, fuel - 1, exp) == ElabGateApp(c, p.gate, qubits, env, fuel - 1, exp);
  }

  /** Every controlled placement of a fragment body, on one wire or several: it denotes the body on the
      target wires while the control bit is set and nothing while it is clear, up to one phase. */
  lemma ControlledPlacement(c: Ctx, e: Expr, qubits: Expr, env: Env, fuel: nat, exp: set<Name>, d: nat, ctrl: nat, target: Expr,
                            n: nat, flat: bool)
    returns (b: seq<Leaf>, alpha: real)
    requires Sound(c) && InFragment(c, e, env, exp, flat) && ctrl < n && d > fuel
    requires Elab(c, GateApp(Expr.Controlled(e), qubits), env, fuel, exp).Done? && StandsOn(Subst(c.ops, qubits, env), ctrl, target)
    ensures c.ops.pi != 0.0 && IsBody(c, e, env, exp, b) && Shaped(b, flat)
    ensures ClearOf(b, target, ctrl, n) ==>
              forall s: Basis | |s.bits| == n ::
                var m := PhaseModel(c.reg, c.ops.pi);
                Den(c, m, GateApp(Expr.Controlled(e), qubits), env, d, true, 0, s)
                  == Some(Turned(if s.bits[ctrl] then Run(m, PlacedOn(target, b), true, 0, s) else s, alpha))
  {
    hide *;
    PiIsNotZero(c);
    SoundSetting(c);
    FragmentOnItsOwn(c, e, env, exp, flat);
    PlacedControl(c, e, qubits, env, fuel, exp, ctrl, target);
    b, alpha := ControlledStates(c, e, ctrl, target, env, fuel - 1, exp, n, flat);
    if ClearOf(b, target, ctrl, n) {
      var m := PhaseModel(c.reg, c.ops.pi);
      forall s: Basis | |s.bits| == n
        ensures Den(c, m, GateApp(Expr.Controlled(e), qubits), env, d, true, 0, s)
             == Some(Turned(if s.bits[ctrl] then Run(m, PlacedOn(target, b), true, 0, s) else s, alpha))
      {
        ElaborationPreservesMeaning(c, m, GateApp(Expr.Controlled(e), qubits), env, fuel, exp, d, true, 0, s);
      }
    }
  }

  lemma OnTarget(b: seq<Leaf>, wire: nat, ctrl: nat, n: nat)
    requires Shaped(b, true) && wire < n && wire != ctrl
    ensures ClearOf(b, Int(wire), ctrl, n) && PlacedOn(Int(wire), b) == ShiftAll(b, wire)
  {
    hide ShiftAll, FragmentGate;
    ShiftedWireZero(b, wire);
  }

  /** Control denotes control. For every body of calls and gates of the fragment placed on wire 0, in
      sequence and undone, a controlled placement that elaborates means the meaning of the body on the
      target wire while the control bit is set, and nothing while it is clear, up to one phase for all
      states. */
  lemma ControlDenotesControl(c: Ctx, e: Expr, qubits: Expr, env: Env, fuel: nat, f: nat, exp: set<Name>, d: nat,
                              ctrl: nat, wire: nat, n: nat)
    returns (alpha: real)
    requires Sound(c) && InFragment(c, e, env, exp, true) && PlacedBody(c, e, env)
    requires ctrl < n && wire < n && ctrl != wire && d > fuel && d > f
    requires Elab(c, e, env, f, exp).Done? && Clean(c, e, env, f, exp)
    requires Elab(c, GateApp(Expr.Controlled(e), qubits), env, fuel, exp).Done?
    requires Subst(c.ops, qubits, env) == Tuple([Int(ctrl), Int(wire)])
    ensures c.ops.pi != 0.0
    ensures forall s: Basis | |s.bits| == n :: DenotesControl(c, e, qubits, env, d, ctrl, wire, alpha, s)
  {
    hide *;
    PiIsNotZero(c);
    SoundSetting(c);
    OnOneWire(Subst(c.ops, qubits, env), ctrl, wire);
    var b;
    b, alpha := ControlledPlacement(c, e, qubits, env, fuel, exp, d, ctrl, Int(wire), n, true);
    BodyIsElaborated(c, e, env, f, exp, true, b);
    OnTarget(b, wire, ctrl, n);
    var m := PhaseModel(c.reg, c.ops.pi);
    forall s: Basis | |s.bits| == n ensures DenotesControl(c, e, qubits, env, d, ctrl, wire, alpha, s) {
      ElaborationPreservesMeaning(c, m, e, env, f, exp, d, true, wire, s);
      RunShifted(m, b, wire, true, 0, s);
      Denoted(c, e, qubits, env, d, ctrl, wire, alpha, s, Run(m, b, true, wire, s));
    }
  }

  lemma OnOneWire(placement: Expr, ctrl: nat, wire: nat)
    requires placement == Tuple([Int(ctrl), Int(wire)])
    ensures StandsOn(placement, ctrl, Int(wire))
  {
  }

  lemma SoundSetting(c: Ctx)
    requires Sound(c)
    ensures c.ops.pi != 0.0 && Setting(c, PhaseModel(c.reg, c.ops.pi))
  {
    hide InverseLaw, Lawful, ListsPhaseGates;
    PhaseInverses(c.reg, c.ops.pi);
  }

  lemma Denoted(c: Ctx, e: Expr, qubits: Expr, env: Env, d: nat, ctrl: nat, wire: nat, alpha: real, s: Basis, body: Basis)
    requires c.ops.pi != 0.0 && ctrl < |s.bits|
    requires var m := PhaseModel(c.reg, c.ops.pi);
             && Den(c, m, e, env, d, true, wire, s) == Some(body)
             && Den(c, m, GateApp(Expr.Controlled(e), qubits), env, d, true, 0, s) == Some(Turned(if s.bits[ctrl] then body else s, alpha))
    ensures DenotesControl(c, e, qubits, env, d, ctrl, wire, alpha, s)
  {
    hide Den;
  }
}
