/** Where control goes wrong: exactly which placed bodies it misplaces, which arms it lets overlap, and
    which names of a callee it reads in the caller. */
module ControlLimits {
  import opened Ast
  import opened Classical
  import opened GateTree
  import opened CircuitForms
  import opened Elaborate
  import opened Meaning
  import opened RunLaws
  import opened GateTreeLaws
  import opened Phase
  import opened Control
  import opened Gadgets
  import opened ScopeLaws
  import opened ControlBody
  import opened ControlProof
  import opened ControlScope
  import opened ParScope

  // ── The index of a placed body ─────────────────────────────────────────────

  /** What the gate does on wire `t`. */
  function ActionAt(c: Ctx, g: Expr, t: nat): Action
    requires c.ops.pi != 0.0
  {
    LeafAction(c.reg, c.ops.pi, Placed(g, Int(t)))
  }

  /** The gate multiplies both bit values by the same phase: the identity, or a rotation by whole turns. */
  predicate IsScalar(c: Ctx, g: Expr)
    requires c.ops.pi != 0.0
  {
    g == Var("I") || (g.App? && Whole(Turns(c.ops.pi, AngleOf(g.arg))))
  }

  /** The action on another wire. */
  function MovedTo(a: Action, t: nat): Action {
    if a.OnOne? then OnOne(a.flips, a.phase0, a.phase1, t) else a
  }

  predicate ActsAlike(a: Action) { a.Nothing? || (a.OnOne? && !a.flips && Whole(a.phase1 - a.phase0)) }

  lemma NotWhole()
    ensures !Whole(0.5) && !Whole(0.25) && !Whole(0.125) && !Whole(-0.25) && !Whole(-0.125) && Whole(0.0)
  {
    assert (0.5).Floor == 0 && (0.25).Floor == 0 && (0.125).Floor == 0 && (-0.25).Floor == -1 && (-0.125).Floor == -1;
  }

  lemma FixedShape(c: Ctx, name: Name, t: nat, u: nat)
    requires Sound(c) && IsFixed(name)
    ensures var a := ActionAt(c, Var(name), t);
            && ActionAt(c, Var(name), u) == MovedTo(a, u) && (a.Nothing? || (a.OnOne? && a.t == t))
            && (ActsAlike(a) <==> name == "I")
  {
    hide Whole, Lawful;
    NotWhole();
    OneAction(c.reg, c.ops.pi, name, t);
    OneAction(c.reg, c.ops.pi, name, u);
    FixedNames(name, t, u);
  }

  lemma FixedNames(name: Name, t: nat, u: nat)
    requires IsFixed(name)
    ensures var a := FixedAction(name, [t]);
            && FixedAction(name, [u]) == MovedTo(a, u) && (a.Nothing? || (a.OnOne? && a.t == t))
            && (ActsAlike(a) <==> name == "I")
  {
    hide Whole;
    NotWhole();
    assert 0.0 - 0.0 == 0.0;
  }

  lemma RotationShape(c: Ctx, x: Expr, t: nat, u: nat)
    requires Sound(c)
    ensures var (g, w) := (App(Var("Rz"), x), Turns(c.ops.pi, AngleOf(x)) / 2.0);
            && ActionAt(c, g, t) == Twist(w, t) && ActionAt(c, g, u) == Twist(w, u)
            && (ActsAlike(Twist(w, t)) <==> Whole(Turns(c.ops.pi, AngleOf(x))))
  {
    hide Whole, LeafAction, Turns, Lawful, ListsPhaseGates;
    LiteralTwist(c.reg, c.ops.pi, x, t);
    LiteralTwist(c.reg, c.ops.pi, x, u);
    var w := Turns(c.ops.pi, AngleOf(x)) / 2.0;
    assert w - -w == Turns(c.ops.pi, AngleOf(x));
  }

  lemma GateShape(c: Ctx, g: Expr, t: nat, u: nat)
    requires Sound(c) && FragmentGate(g)
    ensures var a := ActionAt(c, g, t);
            && ActionAt(c, g, u) == MovedTo(a, u) && (a.Nothing? || (a.OnOne? && a.t == t))
            && (ActsAlike(a) <==> IsScalar(c, g))
  {
    hide LeafAction, Turns, Whole, Lawful, ListsPhaseGates, ActsAlike;
    if g.Var? { FixedShape(c, g.name, t, u); } else { RotationShape(c, g.arg, t, u); }
  }

  /** What two bodies have in common when the same gates control both. */
  lemma SharedControl(n: nat, ctrl: nat, t: seq<Action>, a: Action, alpha: real, b: Action, beta: real, bits: seq<bool>)
    requires ctrl < n && Controls(n, ctrl, t, [a], alpha) && Controls(n, ctrl, t, [b], beta) && |bits| == n && bits[ctrl]
    ensures Permuted(a, bits) == Permuted(b, bits) && Whole(Given(a, bits) - Given(b, bits))
  {
    hide PermAll, GivenAll, Whole, Permuted, Given;
    var off := bits[ctrl := false];
    assert ControlsAt(ctrl, t, [a], alpha, bits) && ControlsAt(ctrl, t, [b], beta, bits);
    assert ControlsAt(ctrl, t, [a], alpha, off) && ControlsAt(ctrl, t, [b], beta, off);
    OneSum(a, bits);
    OneSum(b, bits);
    var (x, y) := (GivenAll(t, bits) - alpha - Given(a, bits), GivenAll(t, bits) - beta - Given(b, bits));
    var (u, v) := (GivenAll(t, off) - alpha - 0.0, GivenAll(t, off) - beta - 0.0);
    WholeSum(y, x);
    WholeSum(u, v);
    WholeIs(y - x, u - v, Given(a, bits) - Given(b, bits));
  }

  /** A state whose control is set and whose two wires differ. */
  function TestBits(n: nat, ctrl: nat, t: nat, u: nat): (bits: seq<bool>)
    requires ctrl < n && t < n && u < n && t != u && ctrl != t && ctrl != u
    ensures |bits| == n && bits[ctrl] && !bits[t] && bits[u]
  {
    seq(n, i => i == ctrl || i == u)
  }

  /** Only an action that treats both bit values alike does the same on two wires. */
  lemma MovedDiffers(a: Action, n: nat, ctrl: nat, t: nat, u: nat)
    requires a.OnOne? && a.t == t && ctrl < n && t < n && u < n && t != u && ctrl != t && ctrl != u
    requires var bits := TestBits(n, ctrl, t, u);
             Permuted(a, bits) == Permuted(MovedTo(a, u), bits) && Whole(Given(a, bits) - Given(MovedTo(a, u), bits))
    ensures ActsAlike(a)
  {
    hide Whole;
    var bits := TestBits(n, ctrl, t, u);
    assert bits[t := !bits[t]][t] != bits[u := !bits[u]][t];
    NegatedWhole(a.phase0 - a.phase1, a.phase1 - a.phase0);
  }

  lemma NegatedWhole(x: real, y: real)
    requires y == -x
    ensures Whole(x) <==> Whole(y)
  {
    if Whole(x) { WholeSum(x, x); }
    if Whole(y) { WholeSum(y, y); }
  }

  lemma AlikeMoves(n: nat, ctrl: nat, t: seq<Action>, a: Action, alpha: real, u: nat)
    requires ctrl < n && Controls(n, ctrl, t, [a], alpha) && ActsAlike(a) && u < n && (a.OnOne? ==> a.t < n)
    ensures Controls(n, ctrl, t, [MovedTo(a, u)], alpha)
  {
    hide PermAll, GivenAll, Whole, Permuted, Given, MovedTo, ActsAlike;
    var b := MovedTo(a, u);
    forall bits: seq<bool> | |bits| == n ensures ControlsAt(ctrl, t, [b], alpha, bits) {
      assert ControlsAt(ctrl, t, [a], alpha, bits);
      OneSum(a, bits);
      OneSum(b, bits);
      if bits[ctrl] {
        AlikeGiven(a, u, bits);
        WholeIs(GivenAll(t, bits) - alpha - Given(a, bits), Given(a, bits) - Given(b, bits), GivenAll(t, bits) - alpha - Given(b, bits));
      }
    }
  }

  lemma AlikeGiven(a: Action, u: nat, bits: seq<bool>)
    requires ActsAlike(a) && u < |bits| && (a.OnOne? ==> a.t < |bits|)
    ensures Permuted(MovedTo(a, u), bits) == Permuted(a, bits) && Whole(Given(a, bits) - Given(MovedTo(a, u), bits))
  {
    hide Whole;
    NotWhole();
    if a.OnOne? { NegatedWhole(a.phase0 - a.phase1, a.phase1 - a.phase0); }
  }

  /** The gates `t` control the gate placed on wire `u`, up to some phase. */
  ghost predicate ControlsGateOn(c: Ctx, n: nat, ctrl: nat, t: seq<Leaf>, g: Expr, u: nat)
    requires c.ops.pi != 0.0 && ctrl < n
  {
    exists alpha: real :: Controls(n, ctrl, Acts(c, t), Acts(c, [Placed(g, Int(u))]), alpha)
  }

  lemma OneAct(c: Ctx, g: Expr, u: nat)
    requires c.ops.pi != 0.0
    ensures Acts(c, [Placed(g, Int(u))]) == [ActionAt(c, g, u)]
  {
    hide LeafAction;
  }

  lemma AtIndexZero(c: Ctx, g: Expr, q: nat, n: nat, ctrl: nat, start: nat, env: Env) returns (t: Expr, alpha: real)
    requires Sound(c) && FragmentGate(g) && ctrl < n && start < n && ctrl != start
    ensures CtlLeaf(c, GateApp(g, Int(q)), Int(ctrl), Int(start), env) == Ok(t)
    ensures Controls(n, ctrl, Acts(c, Leaves(t)), [ActionAt(c, g, start)], alpha)
  {
    hide Controls, Leaves, ControlledFixed, ControlledRotation, LeafAction, ActionsOf;
    OneAct(c, g, start);
    LeafOfPlaced(c, g, q, ctrl, start, env);
    if g.Var? {
      FixedIsOk(c, g.name, ctrl, start);
      FixedControls(c, g.name, n, ctrl, start);
      t, alpha := ControlledFixed(c, g.name, Int(ctrl), Int(start)).value, FixedPhase(g.name);
    } else {
      RzControls(c, g.arg, n, ctrl, start);
      t, alpha := ControlledRotation(c, "Rz", g.arg, Int(ctrl), Int(start)).value, 0.0;
    }
  }

  lemma FixedIsOk(c: Ctx, name: Name, ctrl: nat, start: nat)
    requires IsFixed(name)
    ensures ControlledFixed(c, name, Int(ctrl), Int(start)).Ok?
  {
    hide PhaseGadget, HadamardGadget, RxGadget;
  }

  lemma LeafOfPlaced(c: Ctx, g: Expr, q: nat, ctrl: nat, start: nat, env: Env)
    requires FragmentGate(g)
    ensures CtlLeaf(c, GateApp(g, Int(q)), Int(ctrl), Int(start), env)
         == (if g.Var? then ControlledFixed(c, g.name, Int(ctrl), Int(start))
             else ControlledRotation(c, "Rz", g.arg, Int(ctrl), Int(start)))
  {
    hide ControlledFixed, ControlledRotation, IsFixed, Subst;
    if g.App? {
      assert FlattenApp(g.fn, g.arg) == (g.fn, [g.arg]);
      SubstLiteral(c.ops, g.arg, env);
    }
  }

  lemma PlacedStep(c: Ctx, g: Expr, q: nat, ctrl: nat, start: nat, env: Env, fuel: nat, exp: set<Name>)
    requires FragmentGate(g)
    ensures Ctl(c, GateApp(g, Int(q)), Int(ctrl), Int(start), env, fuel, exp)
         == Lift(CtlLeaf(c, GateApp(g, Int(q)), Int(ctrl), Int(start), env), fuel)
  {
    hide CtlLeaf, Elab, Inline;
    NoCallee(c, GateApp(g, Int(q)), ctrl, Int(start), env, fuel, exp);
  }

  /** The index a placed body carries is not read: `g @ q` is put on the first target wire, which acts
      as the gate on the wire the body asks for exactly when that is the first one, or when the gate
      treats both bit values alike. */
  lemma BodyIndexIsIgnored(c: Ctx, g: Expr, q: nat, n: nat, ctrl: nat, start: nat, env: Env, fuel: nat, exp: set<Name>)
    requires Sound(c) && FragmentGate(g) && ctrl < n && start + q < n && ctrl != start && ctrl != start + q
    ensures var r := Ctl(c, GateApp(g, Int(q)), Int(ctrl), Int(start), env, fuel, exp);
            r.Done? && (ControlsGateOn(c, n, ctrl, Leaves(r.value), g, start + q) <==> q == 0 || IsScalar(c, g))
  {
    hide Ctl, Controls, Leaves, CtlLeaf, LeafAction, ActionsOf, TestBits, MovedTo, ActsAlike, Whole, Permuted, Given;
    var u := start + q;
    PlacedStep(c, g, q, ctrl, start, env, fuel, exp);
    var tree, alpha := AtIndexZero(c, g, q, n, ctrl, start, env);
    var (t, a) := (Acts(c, Leaves(tree)), ActionAt(c, g, start));
    GateShape(c, g, start, u);
    OneAct(c, g, u);
    if q == 0 {
      assert Controls(n, ctrl, t, [a], alpha);
    } else if IsScalar(c, g) {
      AlikeMoves(n, ctrl, t, a, alpha, u);
    } else if ControlsGateOn(c, n, ctrl, Leaves(tree), g, u) {
      var beta: real :| Controls(n, ctrl, t, Acts(c, [Placed(g, Int(u))]), beta);
      SharedControl(n, ctrl, t, a, alpha, MovedTo(a, u), beta, TestBits(n, ctrl, start, u));
      NothingIsAlike(a);
      if a.OnOne? { MovedDiffers(a, n, ctrl, start, u); }
    }
  }

  lemma NothingIsAlike(a: Action)
    ensures a.Nothing? ==> ActsAlike(a)
  {
  }

  // ── The width of a nested `par` ────────────────────────────────────────────

  /** A nested `par` of bare gates counts as one wire however many copies it has. */
  lemma NestedParCountsAsOne(c: Ctx, name: Name, k: nat, env: Env, fuel: nat, exp: set<Name>)
    requires k >= 1 && name !in c.bodies
    ensures var w := ArmWidth(c, Par(Var(name), Int(k)), env, fuel, exp); w.Done? ==> w.value == 1
  {
    hide Ctl, ParCopies, Width;
    var e := Par(Var(name), Int(k));
    assert PrimitiveWires(c, e).None?;
    var r := Elab(c, e, env, fuel, exp);
    if r.Done? {
      BareParTree(c, name, k, env, fuel, exp);
      BareCopies(name, k);
    }
  }

  lemma BareParTree(c: Ctx, name: Name, k: nat, env: Env, fuel: nat, exp: set<Name>)
    requires k >= 1 && name !in c.bodies && Elab(c, Par(Var(name), Int(k)), env, fuel, exp).Done?
    ensures Elab(c, Par(Var(name), Int(k)), env, fuel, exp).value == ParCopies(Var(name), 0, 0, k, EMPTY)
  {
    hide Ctl, ParCopies;
    var e := Par(Var(name), Int(k));
    assert Elab(c, e, env, fuel, exp) == ElabPar(c, Var(name), Int(k), env, fuel - 1, exp);
    var v := Eval(c.ops, Int(k), env, fuel - 1);
    EvalInt(c.ops, k, env, fuel - 1);
    var body := ElabParBody(c, Var(name), env, v.fuel, exp);
    assert body == Elab(c, Var(name), env, v.fuel, exp);
    BareElab(c, name, env, v.fuel, exp);
    assert MaxQubitIndex(Var(name)).None?;
  }

  lemma EvalInt(ops: Ops, k: int, env: Env, fuel: nat)
    ensures Eval(ops, Int(k), env, fuel).Done? ==> Eval(ops, Int(k), env, fuel).value == VInt(k)
  {
    if fuel > 0 { assert EvalNode(ops, Int(k), env, fuel - 1) == Done(VInt(k), fuel - 1); }
  }

  lemma BareElab(c: Ctx, name: Name, env: Env, fuel: nat, exp: set<Name>)
    requires name !in c.bodies && Elab(c, Var(name), env, fuel, exp).Done?
    ensures Elab(c, Var(name), env, fuel, exp).value == Var(name)
  {
    assert ElabNode(c, Var(name), env, fuel - 1, exp) == Done(Var(name), fuel - 1);
  }

  lemma BareCopies(name: Name, k: nat)
    ensures MaxQubitIndex(ParCopies(Var(name), 0, 0, k, EMPTY)).None?
  {
    var t := ParCopies(Var(name), 0, 0, k, EMPTY);
    ParCopiesLeaves(Var(name), 0, 0, k, EMPTY);
    BareTouchNothing(name, 0, k);
    EmptyLeaves(Copies([Bare(Var(name))], 0, 0, k));
    MaxIndexIsMaximum(t);
  }

  lemma {:induction false} BareTouchNothing(name: Name, i: nat, k: int)
    ensures Touched(Copies([Bare(Var(name))], 0, i, k)) == {}
    decreases k - i
  {
    if i < k {
      BareTouchNothing(name, i + 1, k);
      var one := ShiftAll([Bare(Var(name))], i * 0);
      assert one == [Bare(Var(name))] + ShiftAll([], i * 0);
      assert Touched(one) == {};
      TouchedConcat(one, Copies([Bare(Var(name))], 0, i + 1, k));
    }
  }

  /** A bare gate on one wire that control is proved for and that does something. */
  predicate OneWireGate(c: Ctx, name: Name) {
    && IsFixed(name) && name != "I" && name !in c.bodies
    && SurfaceGate(c.reg, name).Some? && SurfaceGate(c.reg, name).value.arity == 1
  }

  lemma BareTakesOne(c: Ctx, name: Name, env: Env, exp: set<Name>)
    requires OneWireGate(c, name)
    ensures TakesOneWire(c, Var(name), env, exp)
  {
    hide Elab;
  }

  lemma NestedTakesOne(c: Ctx, name: Name, k: nat, env: Env, exp: set<Name>)
    requires k >= 1 && name !in c.bodies
    ensures TakesOneWire(c, Par(Var(name), Int(k)), env, exp)
  {
    hide ArmWidth;
    forall fuel: nat ensures WidthIsOne(ArmWidth(c, Par(Var(name), Int(k)), env, fuel, exp)) {
      NestedParCountsAsOne(c, name, k, env, fuel, exp);
    }
  }

  lemma BareControlStep(c: Ctx, name: Name, ctrl: nat, t: nat, env: Env, fuel: nat, exp: set<Name>)
    requires OneWireGate(c, name)
    ensures Ctl(c, Var(name), Int(ctrl), Int(t), env, fuel, exp) == Lift(ControlledFixed(c, name, Int(ctrl), Int(t)), fuel)
  {
    hide ControlledFixed, Elab, Inline, IsFixed;
    NoCallee(c, Var(name), ctrl, Int(t), env, fuel, exp);
  }

  lemma {:induction false} TouchedList(ls: seq<Leaf>, q: nat)
    ensures q in Touched(ls) <==> exists i | 0 <= i < |ls| :: q in LeafTargets(ls[i])
  {
    if ls != [] {
      TouchedList(ls[1..], q);
      if q in Touched(ls[1..]) {
        var i :| 0 <= i < |ls[1..]| && q in LeafTargets(ls[1..][i]);
        assert ls[i + 1] == ls[1..][i];
      }
      if i :| 0 < i < |ls| && q in LeafTargets(ls[i]) { assert ls[1..][i - 1] == ls[i]; }
    }
  }

  lemma LeafWires(a: nat, b: nat, angle: real)
    ensures LeafTargets(CnotLeaf(a, b)) == [a, b] && LeafTargets(RzLeaf(angle, a)) == [a]
  {
    TwoTargets(a, b);
  }

  /** The gates of a controlled gate touch its target, and nothing else but the control. */
  lemma ControlTouches(c: Ctx, name: Name, ctrl: nat, t: nat, q: nat)
    requires IsFixed(name) && name != "I" && q != ctrl && ControlledFixed(c, name, Int(ctrl), Int(t)).Ok?
    ensures q in Touched(Leaves(ControlledFixed(c, name, Int(ctrl), Int(t)).value)) <==> q == t
  {
    hide PhaseGadget, Leaves, Touched, LeafTargets;
    if name == "X" || name == "Y" || name == "Z" {
      PairTouches(if name == "X" then "CNOT" else if name == "Y" then "CY" else "CZ", ctrl, t, q);
    } else {
      var pi := c.ops.pi;
      GadgetTouches(if name == "S" then pi / 2.0 else if name == "S_dag" then -pi / 2.0
                    else if name == "T" then pi / 4.0 else -pi / 4.0, ctrl, t, q);
    }
  }

  lemma PairTouches(pair: Name, ctrl: nat, t: nat, q: nat)
    requires q != ctrl
    ensures q in Touched(Leaves(Gate(pair, CircuitForms.Pair(Int(ctrl), Int(t))))) <==> q == t
  {
    var l := Placed(Var(pair), CircuitForms.Pair(Int(ctrl), Int(t)));
    TwoTargets(ctrl, t);
    assert Leaves(Gate(pair, CircuitForms.Pair(Int(ctrl), Int(t)))) == [l];
    TouchedList([l], q);
    assert LeafTargets([l][0]) == [ctrl, t];
  }

  lemma GadgetTouches(phi: real, ctrl: nat, t: nat, q: nat)
    requires q != ctrl
    ensures q in Touched(Leaves(PhaseGadget(phi, Int(ctrl), Int(t)))) <==> q == t
  {
    hide Touched, LeafTargets, Leaves, PhaseGadget;
    GadgetLeaves(Unit, phi, ctrl, t);
    var ls := [RzLeaf(phi / 2.0, ctrl), CnotLeaf(ctrl, t), RzLeaf(-phi / 2.0, t), CnotLeaf(ctrl, t), RzLeaf(phi / 2.0, t)];
    LeafWires(ctrl, t, phi / 2.0);
    LeafWires(t, ctrl, -phi / 2.0);
    LeafWires(t, ctrl, phi / 2.0);
    TouchedList(ls, q);
    assert ls[1] == CnotLeaf(ctrl, t);
    assert [ctrl, t][1] == t;
  }

  /** The copies from `i` on put one gate on each of the wires `start + i`, …, `start + k - 1`. */
  lemma {:induction false} CopiesTouch(c: Ctx, name: Name, ctrl: nat, start: nat, i: nat, k: nat, acc: Expr, env: Env, fuel: nat,
                                       exp: set<Name>, q: nat)
    requires OneWireGate(c, name) && IsGateTree(acc) && i <= k <= I64_MAX && q != ctrl
    requires CtlCopies(c, Var(name), Int(ctrl), BodyWiresOf(Int(start)), 1, i, k, acc, env, fuel, exp).Done?
    ensures q in Touched(Leaves(CtlCopies(c, Var(name), Int(ctrl), BodyWiresOf(Int(start)), 1, i, k, acc, env, fuel, exp).value))
       <==> q in Touched(Leaves(acc)) || start + i <= q < start + k
    decreases k - i
  {
    hide *;
    if i == k {
      CopiesDone(c, Var(name), Int(ctrl), BodyWiresOf(Int(start)), 1, i, k, acc, env, fuel, exp);
    } else {
      CopyControlled(c, Var(name), Int(ctrl), BodyWiresOf(Int(start)), 1, i, k, acc, env, fuel, exp);
      SmallOffset(i);
      StartSlice(start, i);
      var r := Ctl(c, Var(name), Int(ctrl), Int(start + i), env, fuel, exp);
      BareControlStep(c, name, ctrl, start + i, env, fuel, exp);
      LiftedOk(ControlledFixed(c, name, Int(ctrl), Int(start + i)), fuel);
      GateFacts(c, name);
      ControlTouches(c, name, ctrl, start + i, q);
      LeavesNonempty(acc, r.value);
      TouchedConcat(Leaves(acc), Leaves(r.value));
      CopiesTouch(c, name, ctrl, start, i + 1, k, ComposeNonempty(acc, r.value), env, r.fuel, exp, q);
    }
  }

  lemma GateFacts(c: Ctx, name: Name)
    requires OneWireGate(c, name)
    ensures IsFixed(name) && name != "I" && name !in c.bodies
  {
  }

  lemma LiftedOk<T>(r: Res<T>, fuel: nat)
    ensures Lift(r, fuel).Done? ==> r.Ok? && Lift(r, fuel).value == r.value
  {
  }

  lemma StartSlice(start: nat, i: nat)
    ensures WireSlice(BodyWiresOf(Int(start)), i, 1) == Ok(Int(start + i))
  {
  }

  /** A wire other than the control is in both. */
  predicate ShareTarget(a: set<nat>, b: set<nat>, ctrl: nat) {
    exists q | q in a :: q in b && q != ctrl
  }

  /** Both arms of a controlled `par { par { g } * k, h }` from wire `start`. */
  ghost predicate PlacesArms(c: Ctx, arms: seq<Expr>, ctrl: nat, start: nat, env: Env, fuel: nat, exp: set<Name>, tree: Expr, fst: Expr, snd: Expr)
    requires |arms| == 2
  {
    var wires := BodyWiresOf(Int(start));
    var a := CtlArm(c, arms[0], Int(ctrl), wires, 0, env, fuel, exp);
    && a.Done? && a.value.0 == fst
    && var b := CtlArm(c, arms[1], Int(ctrl), wires, a.value.1, env, a.fuel, exp);
       b.Done? && b.value.0 == snd && Leaves(tree) == Leaves(fst) + Leaves(snd)
  }

  lemma ArmIs(c: Ctx, item: Expr, ctrl: nat, start: nat, i: nat, env: Env, fuel: nat, exp: set<Name>)
    requires TakesOneWire(c, item, env, exp) && ArmWidth(c, item, env, fuel, exp).Done?
    ensures var w := ArmWidth(c, item, env, fuel, exp);
            var r := Ctl(c, item, Int(ctrl), Int(start + i), env, w.fuel, exp);
            r.Done? ==> CtlArm(c, item, Int(ctrl), BodyWiresOf(Int(start)), i, env, fuel, exp) == Done((r.value, 1), r.fuel)
  {
    hide Ctl, WireSlice, BodyWiresOf, ArmWidth;
    StartSlice(start, i);
    assert WidthIsOne(ArmWidth(c, item, env, fuel, exp));
  }

  lemma NestedTouches(c: Ctx, g: Name, k: nat, ctrl: nat, start: nat, env: Env, fuel: nat, exp: set<Name>, q: nat)
    requires OneWireGate(c, g) && 1 <= k <= I64_MAX && q != ctrl
    requires Ctl(c, Par(Var(g), Int(k)), Int(ctrl), Int(start), env, fuel, exp).Done?
    ensures q in Touched(Leaves(Ctl(c, Par(Var(g), Int(k)), Int(ctrl), Int(start), env, fuel, exp).value)) <==> start <= q < start + k
  {
    hide *;
    var e := Par(Var(g), Int(k));
    ParIsNoCallee(c, e);
    NoCallee(c, e, ctrl, Int(start), env, fuel, exp);
    BareTakesOne(c, g, env, exp);
    CountIs(c, k, env);
    ControlProof.ParStep(c, e, ctrl, Int(start), env, fuel, exp);
    NothingTouched(q);
    CopiesTouch(c, g, ctrl, start, 0, k, EMPTY, env, ArmWidth(c, Var(g), env, fuel, exp).fuel, exp, q);
  }

  lemma ParIsNoCallee(c: Ctx, e: Expr)
    requires e.Par? || e.ParN?
    ensures !NamesCallee(c, e)
  {
  }

  lemma CountIs(c: Ctx, k: nat, env: Env)
    requires k <= I64_MAX
    ensures CountFits(c, Int(k), env)
    ensures var v := Eval(c.ops, Int(k), env, c.ops.probe); v.Done? ==> v.value == VInt(k)
  {
    hide Eval;
    EvalInt(c.ops, k, env, c.ops.probe);
  }

  lemma NothingTouched(q: nat)
    ensures IsGateTree(EMPTY) && q !in Touched(Leaves(EMPTY)) && Leaves(EMPTY) == []
  {
  }

  lemma ArmsStep(c: Ctx, arms: seq<Expr>, ctrl: nat, start: nat, env: Env, fuel: nat, exp: set<Name>)
    ensures Ctl(c, ParN(arms), Int(ctrl), Int(start), env, fuel, exp)
         == CtlArms(c, arms, Int(ctrl), BodyWiresOf(Int(start)), 0, EMPTY, env, fuel, exp)
  {
    hide CtlArms, BodyWiresOf, Elab;
    ParIsNoCallee(c, ParN(arms));
    NoCallee(c, ParN(arms), ctrl, Int(start), env, fuel, exp);
  }

  /** A nested `par` of bare gates counts as one wire however many copies it has, so of
      `controlled(par { par { g } * k, h })` from a start index the two arms share a target wire
      exactly when there is more than one copy. */
  lemma NestedParOverlaps(c: Ctx, g: Name, h: Name, k: nat, ctrl: nat, start: nat, env: Env, fuel: nat, exp: set<Name>)
    returns (fst: Expr, snd: Expr)
    requires OneWireGate(c, g) && OneWireGate(c, h) && 1 <= k <= I64_MAX && ctrl != start + 1
    requires Ctl(c, ParN([Par(Var(g), Int(k)), Var(h)]), Int(ctrl), Int(start), env, fuel, exp).Done?
    ensures PlacesArms(c, [Par(Var(g), Int(k)), Var(h)], ctrl, start, env, fuel, exp,
                       Ctl(c, ParN([Par(Var(g), Int(k)), Var(h)]), Int(ctrl), Int(start), env, fuel, exp).value, fst, snd)
    ensures ShareTarget(Touched(Leaves(fst)), Touched(Leaves(snd)), ctrl) <==> k > 1
  {
    hide *;
    var (nested, bare) := (Par(Var(g), Int(k)), Var(h));
    var arms := [nested, bare];
    TwoFit();
    assert arms[1..] == [bare] && [bare][1..] == [];
    GateFacts(c, g);
    GateFacts(c, h);
    NestedTakesOne(c, g, k, env, exp);
    BareTakesOne(c, h, env, exp);
    NothingTouched(0);
    ArmsStep(c, arms, ctrl, start, env, fuel, exp);
    ArmControls(c, arms, Int(ctrl), BodyWiresOf(Int(start)), 0, EMPTY, env, fuel, exp);
    OneWire(c, nested, env, fuel, exp);
    SmallOffset(1);
    StartSlice(start, 0);
    var w1 := ArmWidth(c, nested, env, fuel, exp);
    var r1 := Ctl(c, nested, Int(ctrl), Int(start), env, w1.fuel, exp);
    ArmIs(c, nested, ctrl, start, 0, env, fuel, exp);
    LeavesNonempty(EMPTY, r1.value);
    ArmControls(c, [bare], Int(ctrl), BodyWiresOf(Int(start)), 1, ComposeNonempty(EMPTY, r1.value), env, r1.fuel, exp);
    OneWire(c, bare, env, r1.fuel, exp);
    SmallOffset(2);
    StartSlice(start, 1);
    var w2 := ArmWidth(c, bare, env, r1.fuel, exp);
    var r2 := Ctl(c, bare, Int(ctrl), Int(start + 1), env, w2.fuel, exp);
    ArmIs(c, bare, ctrl, start, 1, env, r1.fuel, exp);
    LeavesNonempty(ComposeNonempty(EMPTY, r1.value), r2.value);
    NoMoreArms(c, ctrl, Int(start), 2, ComposeNonempty(ComposeNonempty(EMPTY, r1.value), r2.value), env, r2.fuel, exp);
    fst, snd := r1.value, r2.value;
    BothArms(c, arms, ctrl, start, env, fuel, exp, Ctl(c, ParN(arms), Int(ctrl), Int(start), env, fuel, exp).value, fst, snd);
    SecondTouches(c, h, ctrl, start + 1, env, w2.fuel, exp);
    forall q: nat | q != ctrl ensures q in Touched(Leaves(fst)) <==> start <= q < start + k {
      NestedTouches(c, g, k, ctrl, start, env, w1.fuel, exp, q);
    }
    Share(Touched(Leaves(fst)), Touched(Leaves(snd)), ctrl, start, k);
  }

  lemma Share(a: set<nat>, b: set<nat>, ctrl: nat, start: nat, k: nat)
    requires ctrl != start + 1
    requires forall q: nat | q != ctrl :: q in a <==> start <= q < start + k
    requires forall q: nat | q != ctrl :: q in b <==> q == start + 1
    ensures ShareTarget(a, b, ctrl) <==> k > 1
  {
    assert start + 1 in b;
    if k > 1 { assert start + 1 in a; }
  }

  lemma TwoFit()
    ensures 2 <= I64_MAX
  {
  }

  lemma BothArms(c: Ctx, arms: seq<Expr>, ctrl: nat, start: nat, env: Env, fuel: nat, exp: set<Name>, tree: Expr, fst: Expr, snd: Expr)
    requires |arms| == 2
    requires var a := CtlArm(c, arms[0], Int(ctrl), BodyWiresOf(Int(start)), 0, env, fuel, exp);
             && a.Done? && a.value == (fst, 1)
             && var b := CtlArm(c, arms[1], Int(ctrl), BodyWiresOf(Int(start)), 1, env, a.fuel, exp);
                b.Done? && b.value == (snd, 1)
    requires Leaves(tree) == Leaves(fst) + Leaves(snd)
    ensures PlacesArms(c, arms, ctrl, start, env, fuel, exp, tree, fst, snd)
  {
    hide CtlArm, Leaves, BodyWiresOf;
  }

  lemma SecondTouches(c: Ctx, h: Name, ctrl: nat, t: nat, env: Env, fuel: nat, exp: set<Name>)
    requires OneWireGate(c, h) && ctrl != t && Ctl(c, Var(h), Int(ctrl), Int(t), env, fuel, exp).Done?
    ensures forall q: nat | q != ctrl :: q in Touched(Leaves(Ctl(c, Var(h), Int(ctrl), Int(t), env, fuel, exp).value)) <==> q == t
  {
    hide *;
    GateFacts(c, h);
    BareControlStep(c, h, ctrl, t, env, fuel, exp);
    LiftedOk(ControlledFixed(c, h, Int(ctrl), Int(t)), fuel);
    forall q: nat | q != ctrl ensures q in Touched(Leaves(Ctl(c, Var(h), Int(ctrl), Int(t), env, fuel, exp).value)) <==> q == t {
      ControlTouches(c, h, ctrl, t, q);
    }
  }

  // ── The bindings a callee is elaborated under ──────────────────────────────

  lemma CalleeOfName(c: Ctx, name: Name, g: Name, x: Name, y: Name, env: Env, fuel: nat, exp: set<Name>)
    requires name in c.bodies && c.bodies[name] == ParScope.Placed(g, x, y) && name !in exp
    requires !IsBuiltin(g) && g != "Rzz" && fuel > 0
    ensures NamedCallee(c, Var(name), env, fuel, exp)
         == Done(Some(GateApp(App(Subst(c.ops, Var(g), env), Subst(c.ops, Var(x), env)), Subst(c.ops, Var(y), env))), fuel - 1)
  {
    hide Elab, Subst, IsBuiltin;
    NamedInline(c, Var(name), env, fuel, exp);
    PlacedElaborates(c, g, x, y, env, fuel, exp + {name});
  }

  /** For a function whose body is one placed rotation, `controlled` elaborates the callee as a plain call
      does exactly when the caller shadows none of the names that substitution reads there. */
  lemma CalleeAlikeIffNotShadowed(c: Ctx, name: Name, g: Name, x: Name, y: Name, env: Env, fuel: nat, exp: set<Name>)
    requires name in c.bodies && c.bodies[name] == ParScope.Placed(g, x, y) && name !in exp
    requires !IsBuiltin(g) && g != "Rzz" && c.ops.probe > 0 && fuel > 0
    ensures NamedCallee(c, Var(name), env, fuel, exp) == NamedCallee(c, Var(name), map[], fuel, exp)
       <==> !Shadows(c.ops, env, g) && !Shadows(c.ops, env, x) && !Shadows(c.ops, env, y)
    ensures var own := Elab(c, Var(name), env, fuel + 1, exp);
            own.Done? && NamedCallee(c, Var(name), map[], fuel, exp) == Done(Some(own.value), own.fuel)
  {
    hide Elab, Subst, Shadows, IsBuiltin, NamedCallee;
    CalleeOfName(c, name, g, x, y, env, fuel, exp);
    CalleeOfName(c, name, g, x, y, map[], fuel, exp);
    NameDiffers(c.ops, g, env);
    NameDiffers(c.ops, x, env);
    NameDiffers(c.ops, y, env);
    CallInlines(c, name, env, fuel, exp);
    NamedInline(c, Var(name), map[], fuel, exp);
  }

  lemma PlacedRotationControls(c: Ctx, x: real, q: Name, control: Expr, t: Expr, env: Env, fuel: nat, exp: set<Name>)
    requires !t.Tuple?
    ensures Ctl(c, GateApp(App(Var("Rz"), Float(x)), Var(q)), control, t, env, fuel, exp)
         == Done(RotationGadget("Rz", x, control, t), fuel)
  {
    hide Subst, Elab, RotationGadget;
    var e := GateApp(App(Var("Rz"), Float(x)), Var(q));
    assert NamedCallee(c, e, env, fuel, exp) == Done(None, fuel);
    assert FlattenApp(Var("Rz"), Float(x)) == (Var("Rz"), [Float(x)]);
    SubstLiteral(c.ops, Float(x), env);
    assert CtlLeaf(c, e, control, t, env) == CtlLeaf(c, e.gate, control, t, env);
  }

  /** For example, where the caller binds `PI` to another number, `controlled(f())` of a function
      `Rz(PI) @ q` is the gadget for the caller's number; on its own it is the gadget for pi. */
  lemma ControlSeesCallersPi(c: Ctx, name: Name, x: real, control: Expr, t: Expr, fuel: nat, exp: set<Name>)
    requires name in c.bodies && c.bodies[name] == ParScope.Placed("Rz", "PI", "q") && name !in exp
    requires c.ops.probe > 0 && fuel > 0 && !t.Tuple?
    ensures Ctl(c, Var(name), control, t, map["PI" := VFloat(x)], fuel, exp) == Done(RotationGadget("Rz", x, control, t), fuel - 1)
    ensures Ctl(c, Var(name), control, t, map[], fuel, exp) == Done(RotationGadget("Rz", c.ops.pi, control, t), fuel - 1)
  {
    hide Subst, Elab, Ctl, NamedCallee, RotationGadget;
    var env: Env := map["PI" := VFloat(x)];
    PiIsBound(c.ops, env);
    PiIsBound(c.ops, map[]);
    CalleeOfName(c, name, "Rz", "PI", "q", env, fuel, exp);
    CalleeOfName(c, name, "Rz", "PI", "q", map[], fuel, exp);
    ControlsCallee(c, Var(name), control, t, env, fuel, exp);
    ControlsCallee(c, Var(name), control, t, map[], fuel, exp);
    PlacedRotationControls(c, x, "q", control, t, env, fuel - 1, exp);
    PlacedRotationControls(c, c.ops.pi, "q", control, t, map[], fuel - 1, exp);
  }

  lemma LeftoverRotation(c: Ctx, x: Name, q: Name, control: Expr, t: Expr, env: Env, fuel: nat, exp: set<Name>)
    requires !t.Tuple?
    ensures var angle := Subst(c.ops, Var(x), env);
            Ctl(c, GateApp(App(Var("Rz"), Var(x)), Var(q)), control, t, env, fuel, exp)
              == if IsLiteralAngle(angle) then Done(RotationGadget("Rz", AngleOf(angle), control, t), fuel)
                 else Fail(Crash(AngleNotLiteral))
  {
    hide Subst, Elab, RotationGadget;
    var e := GateApp(App(Var("Rz"), Var(x)), Var(q));
    assert NamedCallee(c, e, env, fuel, exp) == Done(None, fuel);
    assert FlattenApp(Var("Rz"), Var(x)) == (Var("Rz"), [Var(x)]);
    assert CtlLeaf(c, e, control, t, env) == CtlLeaf(c, e.gate, control, t, env);
  }

  /** A name that a call, parametric or not, leaves in its gates is read in the caller too: if a call
      elaborates to `Rz(x) @ q`, control takes the caller's number for the angle. On its own the call
      has no such number, and control refuses it. */
  lemma ControlReadsLeftovers(c: Ctx, e: Expr, x: Name, a: real, q: Name, control: Expr, t: Expr, fuel: nat, left: nat, exp: set<Name>)
    requires c.ops.probe > 0 && !t.Tuple? && x !in {"PI", "TAU", "E"}
    requires var call := Done(Some(GateApp(App(Var("Rz"), Var(x)), Var(q))), left);
             NamedCallee(c, e, map[x := VFloat(a)], fuel, exp) == call && NamedCallee(c, e, map[], fuel, exp) == call
    ensures Ctl(c, e, control, t, map[x := VFloat(a)], fuel, exp) == Done(RotationGadget("Rz", a, control, t), left)
    ensures Ctl(c, e, control, t, map[], fuel, exp) == Fail(Crash(AngleNotLiteral))
  {
    hide Subst, Ctl, NamedCallee, RotationGadget;
    var env: Env := map[x := VFloat(a)];
    ControlsCallee(c, e, control, t, env, fuel, exp);
    ControlsCallee(c, e, control, t, map[], fuel, exp);
    LeftoverRotation(c, x, q, control, t, env, left, exp);
    LeftoverRotation(c, x, q, control, t, map[], left, exp);
    SubstName(c.ops, x, env);
    SubstName(c.ops, x, map[]);
  }
}
