/** Control decomposition is correct: what `controlled(..)` elaborates to does its body exactly when
    the control bit is set, up to one phase common to all states. */
module ControlProof {
  import opened Ast
  import opened Classical
  import opened GateTree
  import opened CircuitForms
  import opened Elaborate
  import opened Meaning
  import opened RunLaws
  import opened GateTreeLaws
  import opened Phase
  import opened Control
  import opened Gadgets
  import opened ScopeLaws
  import opened ControlBody
  import opened ControlScope

  /** Pi is not zero, and the registry lists the gates modelled here. */
  ghost predicate Sound(c: Ctx) { c.ops.pi != 0.0 && Lawful(c.reg) && ListsPhaseGates(c.reg) }

  lemma PiIsNotZero(c: Ctx)
    requires Sound(c)
    ensures c.ops.pi != 0.0
  {
  }

  function Acts(c: Ctx, ls: seq<Leaf>): seq<Action>
    requires c.ops.pi != 0.0
  {
    ActionsOf(c.reg, c.ops.pi, ls)
  }

  /** The gates `t` control the body `b` placed on the target, if that leaves the control wire alone. */
  ghost predicate ControlsOn(c: Ctx, n: nat, ctrl: nat, target: Expr, t: seq<Leaf>, b: seq<Leaf>, alpha: real) {
    c.ops.pi != 0.0 && ctrl < n
    && (ClearOf(b, target, ctrl, n) ==> Controls(n, ctrl, Acts(c, t), Acts(c, PlacedOn(target, b)), alpha))
  }

  /** What is proved of every body: its gates are fragment gates, on wire 0 if it is flat. */
  ghost predicate Shaped(b: seq<Leaf>, flat: bool) { BodyLeaves(b) && (flat ==> OnWireZero(b)) }

  // ── Gates ──────────────────────────────────────────────────────────────────

  lemma SubstLiteral(ops: Ops, x: Expr, env: Env)
    requires IsLiteralAngle(x)
    ensures Subst(ops, x, env) == x
  {
    var probe := Eval(ops, x, env, ops.probe);
    if ops.probe > 0 { assert probe == EvalNode(ops, x, env, ops.probe - 1); }
    if probe.Done? { assert ValueToExpr(probe.value) == x; }
  }

  /** The single wire a leaf gate finds its target to be. */
  lemma LeafWire(target: Expr, ctrl: nat, n: nat, b: seq<Leaf>)
    requires |b| == 1 && b[0].Placed? && b[0].qubits == Int(0) && ClearOf(b, target, ctrl, n)
    requires !(target.Tuple? && |target.items| != 1)
    ensures var w := WireAt(target, 0);
            && w.Some? && w.value < n && w.value != ctrl
            && SingletonTarget(target) == Int(w.value)
            && PlacedOn(target, b) == [Placed(b[0].gate, Int(w.value))]
  {
    assert ClearLeaf(b[0], target, ctrl, n);
  }

  lemma {:induction false} NamedGateControls(c: Ctx, name: Name, n: nat, ctrl: nat, target: Expr)
    requires Sound(c) && ctrl < n && IsFixed(name)
    requires ControlledGate(c, name, None, Int(ctrl), target).Ok?
    ensures ControlsOn(c, n, ctrl, target, Leaves(ControlledGate(c, name, None, Int(ctrl), target).value),
                       [Placed(Var(name), Int(0))], FixedPhase(name))
  {
    hide Controls, Leaves, ControlledFixed, ClearOf;
    var b := [Placed(Var(name), Int(0))];
    if ClearOf(b, target, ctrl, n) {
      LeafWire(target, ctrl, n, b);
      FixedControls(c, name, n, ctrl, WireAt(target, 0).value);
    }
  }

  lemma {:induction false} RotationControls(c: Ctx, theta: Expr, n: nat, ctrl: nat, target: Expr)
    requires Sound(c) && ctrl < n
    requires ControlledGate(c, "Rz", Some(theta), Int(ctrl), target).Ok?
    ensures IsLiteralAngle(theta)
    ensures ControlsOn(c, n, ctrl, target, Leaves(ControlledGate(c, "Rz", Some(theta), Int(ctrl), target).value),
                       [Placed(App(Var("Rz"), theta), Int(0))], 0.0)
  {
    hide Controls, Leaves, ClearOf;
    var b := [Placed(App(Var("Rz"), theta), Int(0))];
    if ClearOf(b, target, ctrl, n) {
      LeafWire(target, ctrl, n, b);
      RzControls(c, theta, n, ctrl, WireAt(target, 0).value);
    }
  }

  /** A bare gate on its own. */
  lemma {:induction false} BareGateControls(c: Ctx, g: Expr, env: Env, n: nat, ctrl: nat, target: Expr)
    returns (b: seq<Leaf>, alpha: real)
    requires Sound(c) && ctrl < n
    requires (g.Var? && IsFixed(g.name)) || (g.App? && g.fn == Var("Rz"))
    requires CtlLeaf(c, g, Int(ctrl), target, env).Ok?
    ensures IsGateBody(c, g, env, b) && Shaped(b, true)
    ensures ControlsOn(c, n, ctrl, target, Leaves(CtlLeaf(c, g, Int(ctrl), target, env).value), b, alpha)
  {
    hide ControlsOn, Leaves, ControlledGate;
    if g.Var? {
      b, alpha := [Placed(g, Int(0))], FixedPhase(g.name);
      NamedGateControls(c, g.name, n, ctrl, target);
    } else {
      assert FlattenApp(g.fn, g.arg) == (g.fn, [g.arg]);
      var theta := Subst(c.ops, g.arg, env);
      b, alpha := [Placed(App(g.fn, theta), Int(0))], 0.0;
      RotationControls(c, theta, n, ctrl, target);
    }
  }

  // ── Sequences ──────────────────────────────────────────────────────────────

  lemma ClearAvoids(c: Ctx, b: seq<Leaf>, target: Expr, ctrl: nat, n: nat)
    requires c.ops.pi != 0.0 && ClearOf(b, target, ctrl, n)
    ensures Avoids(Acts(c, PlacedOn(target, b)), ctrl)
  {
    forall i | 0 <= i < |b|
      ensures var a := LeafAction(c.reg, c.ops.pi, LeafOn(target, b[i])); a.Nothing? || (a.OnOne? && a.t != ctrl)
    {
      assert ClearLeaf(b[i], target, ctrl, n);
    }
  }

  lemma ClearConcat(b1: seq<Leaf>, b2: seq<Leaf>, target: Expr, ctrl: nat, n: nat)
    ensures ClearOf(b1 + b2, target, ctrl, n) <==> ClearOf(b1, target, ctrl, n) && ClearOf(b2, target, ctrl, n)
    ensures PlacedOn(target, b1 + b2) == PlacedOn(target, b1) + PlacedOn(target, b2)
  {
    hide ClearLeaf, LeafOn;
    var b := b1 + b2;
    assert forall i | 0 <= i < |b1| :: b[i] == b1[i];
    assert forall i | 0 <= i < |b2| :: b[|b1| + i] == b2[i];
    if ClearOf(b1, target, ctrl, n) && ClearOf(b2, target, ctrl, n) {
      forall i | 0 <= i < |b| ensures ClearLeaf(b[i], target, ctrl, n) { if i >= |b1| { assert b[i] == b2[i - |b1|]; } }
    }
    if ClearOf(b, target, ctrl, n) {
      forall i | 0 <= i < |b1| ensures ClearLeaf(b1[i], target, ctrl, n) { assert b[i] == b1[i]; }
      forall i | 0 <= i < |b2| ensures ClearLeaf(b2[i], target, ctrl, n) { assert b[|b1| + i] == b2[i]; }
    }
  }

  lemma ActsConcat(c: Ctx, a: seq<Leaf>, b: seq<Leaf>)
    requires c.ops.pi != 0.0
    ensures Acts(c, a + b) == Acts(c, a) + Acts(c, b)
  {
    hide LeafAction;
  }

  lemma {:induction false} SequenceControls(c: Ctx, n: nat, ctrl: nat, target: Expr, t1: seq<Leaf>, b1: seq<Leaf>, a1: real,
                                            t2: seq<Leaf>, b2: seq<Leaf>, a2: real)
    requires c.ops.pi != 0.0 && ctrl < n
    requires ControlsOn(c, n, ctrl, target, t1, b1, a1) && ControlsOn(c, n, ctrl, target, t2, b2, a2)
    ensures ControlsOn(c, n, ctrl, target, t1 + t2, b1 + b2, a1 + a2)
  {
    hide Controls, Acts, ClearOf, Avoids;
    ClearConcat(b1, b2, target, ctrl, n);
    if ClearOf(b1 + b2, target, ctrl, n) {
      ActsConcat(c, t1, t2);
      ActsConcat(c, PlacedOn(target, b1), PlacedOn(target, b2));
      ClearAvoids(c, b1, target, ctrl, n);
      ControlsConcat(n, ctrl, Acts(c, t1), Acts(c, PlacedOn(target, b1)), a1,
                     Acts(c, t2), Acts(c, PlacedOn(target, b2)), a2);
    }
  }

  lemma ShapedConcat(b1: seq<Leaf>, b2: seq<Leaf>, flat: bool)
    requires Shaped(b1, flat) && Shaped(b2, flat)
    ensures Shaped(b1 + b2, flat)
  {
    hide BodyLeaf;
  }

  // ── Adjoint ────────────────────────────────────────────────────────────────

  lemma {:induction false} InvertedAt(reg: Registry, b: seq<Leaf>, i: nat)
    requires i < |b|
    ensures |InvertAll(reg, b)| == |b| && InvertAll(reg, b)[|b| - 1 - i] == InvertedLeaf(reg, b[i])
  {
    InvertedLength(reg, b[1..]);
    if i > 0 { InvertedAt(reg, b[1..], i - 1); }
  }

  lemma {:induction false} InvertedLength(reg: Registry, b: seq<Leaf>)
    ensures |InvertAll(reg, b)| == |b|
  {
    if b != [] { InvertedLength(reg, b[1..]); }
  }

  lemma InvertedBody(c: Ctx, b: seq<Leaf>, target: Expr, flat: bool)
    requires Sound(c) && Shaped(b, flat)
    ensures Shaped(InvertAll(c.reg, b), flat)
    ensures PlacedOn(target, InvertAll(c.reg, b)) == InvertAll(c.reg, PlacedOn(target, b))
  {
    hide BodyLeaf, InvertedLeaf, LeafOn, InvertAll;
    var inv := InvertAll(c.reg, b);
    InvertedLength(c.reg, b);
    InvertedLength(c.reg, PlacedOn(target, b));
    forall k | 0 <= k < |b|
      ensures BodyLeaf(inv[k]) && (flat ==> inv[k].Placed? && inv[k].qubits == Int(0))
      ensures LeafOn(target, inv[k]) == InvertAll(c.reg, PlacedOn(target, b))[k]
    {
      var i := |b| - 1 - k;
      InvertedAt(c.reg, b, i);
      InvertedAt(c.reg, PlacedOn(target, b), i);
      InvertedLeafShape(c, b[i], target);
    }
  }

  lemma InvertedLeafShape(c: Ctx, l: Leaf, target: Expr)
    requires Sound(c) && BodyLeaf(l)
    ensures InvertGate(c.reg, l.gate).Ok? && BodyLeaf(InvertedLeaf(c.reg, l))
    ensures InvertedLeaf(c.reg, l).Placed? && InvertedLeaf(c.reg, l).qubits == l.qubits
    ensures LeafOn(target, InvertedLeaf(c.reg, l)) == InvertedLeaf(c.reg, LeafOn(target, l))
  {
    match l.gate
    case Var(name) => assert InverseOf(name).Some? && c.reg.lookup(name).Some?;
    case App(f, x) => assert FlattenApp(f, x) == (f, [x]);
  }

  lemma InvertedClear(c: Ctx, b: seq<Leaf>, target: Expr, ctrl: nat, n: nat)
    requires Sound(c) && BodyLeaves(b) && ClearOf(InvertAll(c.reg, b), target, ctrl, n)
    ensures ClearOf(b, target, ctrl, n)
  {
    forall i | 0 <= i < |b| ensures ClearLeaf(b[i], target, ctrl, n) {
      InvertedAt(c.reg, b, i);
      InvertedLeafShape(c, b[i], target);
      assert ClearLeaf(InvertAll(c.reg, b)[|b| - 1 - i], target, ctrl, n);
    }
  }

  lemma {:induction false} AdjointControls(c: Ctx, n: nat, ctrl: nat, target: Expr, t: Expr, b: seq<Leaf>, alpha: real)
    requires Sound(c) && ctrl < n && BodyLeaves(b) && IsGateTree(t) && ReverseAndInvert(c.reg, t).Ok?
    requires ControlsOn(c, n, ctrl, target, Leaves(t), b, alpha)
    ensures ControlsOn(c, n, ctrl, target, Leaves(ReverseAndInvert(c.reg, t).value), InvertAll(c.reg, b), -alpha)
  {
    hide Controls, Leaves, ClearOf, Reverses, Avoids, ReverseAndInvert, LeafAction;
    var b' := InvertAll(c.reg, b);
    if ClearOf(b', target, ctrl, n) {
      InvertedClear(c, b, target, ctrl, n);
      InvertedBody(c, b, target, false);
      AdjointLeaves(c.reg, t);
      TreeInverts(c, t);
      InvertedReverses(c.reg, c.ops.pi, Leaves(t));
      PlacedInverts(c, b, target);
      InvertedReverses(c.reg, c.ops.pi, PlacedOn(target, b));
      ClearAvoids(c, b', target, ctrl, n);
      ControlsAdjoint(n, ctrl, Acts(c, Leaves(t)), Acts(c, PlacedOn(target, b)), alpha,
                      Acts(c, InvertAll(c.reg, Leaves(t))), Acts(c, InvertAll(c.reg, PlacedOn(target, b))));
    }
  }

  lemma PlacedInverts(c: Ctx, b: seq<Leaf>, target: Expr)
    requires Sound(c) && BodyLeaves(b)
    ensures forall i | 0 <= i < |b| :: PlacedOn(target, b)[i].Placed? && InvertGate(c.reg, PlacedOn(target, b)[i].gate).Ok?
  {
    forall i | 0 <= i < |b| ensures LeafOn(target, b[i]).Placed? && InvertGate(c.reg, LeafOn(target, b[i]).gate).Ok? {
      InvertedLeafShape(c, b[i], target);
    }
  }

  lemma TreeInverts(c: Ctx, t: Expr)
    requires IsGateTree(t) && ReverseAndInvert(c.reg, t).Ok?
    ensures forall i | 0 <= i < |Leaves(t)| :: Leaves(t)[i].Placed? && InvertGate(c.reg, Leaves(t)[i].gate).Ok?
  {
    AdjointNeverOfEmpty(c.reg, t);
    CollectIsLeaves(t);
    PlacementAt(Collect(t).value);
  }

  lemma {:induction false} PlacementAt(ps: seq<Placement>)
    ensures forall i | 0 <= i < |ps| :: Placements(ps)[i] == Placed(ps[i].gate, ps[i].qubits)
  {
    if ps != [] { PlacementAt(ps[1..]); }
  }

  // ── Slices of the target ───────────────────────────────────────────────────

  lemma {:induction false} ShiftedWireZero(b: seq<Leaf>, i: nat)
    requires Shaped(b, true)
    ensures |ShiftAll(b, i)| == |b| && Shaped(ShiftAll(b, i), false)
    ensures forall k | 0 <= k < |b| :: ShiftAll(b, i)[k] == Placed(b[k].gate, Int(i))
  {
    if b != [] { ShiftedWireZero(b[1..], i); }
  }

  /** A body on wire 0 placed on the slice at `i` is the body moved to wire `i` placed on the target. */
  lemma OnSlice(b: seq<Leaf>, target: Expr, slice: Expr, i: nat, ctrl: nat, n: nat)
    requires Shaped(b, true) && i <= I64_MAX && WireSlice(BodyWiresOf(target), i, 1) == Ok(slice)
    requires ClearOf(ShiftAll(b, i), target, ctrl, n)
    ensures ClearOf(b, slice, ctrl, n) && PlacedOn(slice, b) == PlacedOn(target, ShiftAll(b, i))
  {
    ShiftedWireZero(b, i);
    forall k | 0 <= k < |b|
      ensures ClearLeaf(b[k], slice, ctrl, n) && LeafOn(slice, b[k]) == LeafOn(target, ShiftAll(b, i)[k])
    {
      assert ClearLeaf(ShiftAll(b, i)[k], target, ctrl, n);
    }
  }

  lemma {:induction false} SliceControls(c: Ctx, n: nat, ctrl: nat, target: Expr, slice: Expr, i: nat, t: seq<Leaf>, b: seq<Leaf>, alpha: real)
    requires c.ops.pi != 0.0 && ctrl < n && Shaped(b, true) && i <= I64_MAX
    requires WireSlice(BodyWiresOf(target), i, 1) == Ok(slice)
    requires ControlsOn(c, n, ctrl, slice, t, b, alpha)
    ensures ControlsOn(c, n, ctrl, target, t, ShiftAll(b, i), alpha) && Shaped(ShiftAll(b, i), false)
  {
    hide Controls, Acts, ClearOf, WireSlice, Shaped, PlacedOn;
    ShiftedWireZero(b, i);
    if ClearOf(ShiftAll(b, i), target, ctrl, n) { OnSlice(b, target, slice, i, ctrl, n); }
  }

  // ── The theorem ────────────────────────────────────────────────────────────

  /** `b` is the body of `e`, and the tree that `r` is controls it. */
  ghost predicate Controlled(c: Ctx, e: Expr, ctrl: nat, target: Expr, env: Env, exp: set<Name>, n: nat, flat: bool,
                             r: Out<Expr>, b: seq<Leaf>, alpha: real)
  {
    r.Done? && IsBody(c, e, env, exp, b) && Shaped(b, flat) && ControlsOn(c, n, ctrl, target, Leaves(r.value), b, alpha)
  }

  /** Control decomposition is correct. Whenever it succeeds on a body of the fragment, what it yields
      does nothing while the control bit is clear and does the body on the target wires while it is
      set, up to one phase for all states, provided the body is not placed on the control wire. */
  lemma {:induction false} ControlIsCorrect(c: Ctx, e: Expr, ctrl: nat, target: Expr, env: Env, fuel: nat, exp: set<Name>, n: nat,
                                            flat: bool)
    returns (b: seq<Leaf>, alpha: real)
    requires Sound(c) && ctrl < n && InFragment(c, e, env, exp, flat)
    requires Ctl(c, e, Int(ctrl), target, env, fuel, exp).Done?
    ensures Controlled(c, e, ctrl, target, env, exp, n, flat, Ctl(c, e, Int(ctrl), target, env, fuel, exp), b, alpha)
    decreases fuel, 5, ControlSize(e), 2, 0
  {
    hide *;
    if NamesCallee(c, e) {
      b, alpha := CalleeControls(c, e, ctrl, target, env, fuel, exp, n, flat);
    } else {
      NoCallee(c, e, ctrl, target, env, fuel, exp);
      b, alpha := NodeControls(c, e, ctrl, target, env, fuel, exp, n, flat);
    }
  }

  lemma NoCallee(c: Ctx, e: Expr, ctrl: nat, target: Expr, env: Env, fuel: nat, exp: set<Name>)
    requires !NamesCallee(c, e)
    ensures Ctl(c, e, Int(ctrl), target, env, fuel, exp) == CtlNode(c, e, Int(ctrl), target, env, fuel, exp)
  {
    hide CtlNode, Elab, Inline;
  }

  lemma CalleeStep(c: Ctx, e: Expr, ctrl: nat, target: Expr, env: Env, fuel: nat, exp: set<Name>)
    requires NamesCallee(c, e) && Ctl(c, e, Int(ctrl), target, env, fuel, exp).Done?
    ensures var r := NamedCallee(c, e, env, fuel, exp);
            && r.Done? && r.value.Some? && r.fuel < fuel && IsGateTree(r.value.value)
            && Ctl(c, e, Int(ctrl), target, env, fuel, exp) == Ctl(c, r.value.value, Int(ctrl), target, env, r.fuel, exp)
  {
    hide CtlNode, Elab, Inline;
  }

  lemma CalleeIsOwn(c: Ctx, e: Expr, env: Env, fuel: nat, exp: set<Name>)
    requires NamesCallee(c, e) && CallUnseen(c, e, env)
    ensures NamedCallee(c, e, env, fuel, exp) == NamedCallee(c, e, CalleeScope(c, e, env), fuel, exp)
  {
    hide NamedCallee, IsParametricCall, ZeroArgCallee, Unseen;
    if !IsParametricCall(c, e) { CalleeUnseen(c, e, env, fuel, exp); }
  }

  /** A callee is controlled as its elaborated tree is. */
  lemma {:induction false} CalleeControls(c: Ctx, e: Expr, ctrl: nat, target: Expr, env: Env, fuel: nat, exp: set<Name>, n: nat, flat: bool)
    returns (b: seq<Leaf>, alpha: real)
    requires Sound(c) && ctrl < n && InFragment(c, e, env, exp, flat) && NamesCallee(c, e)
    requires Ctl(c, e, Int(ctrl), target, env, fuel, exp).Done?
    ensures Controlled(c, e, ctrl, target, env, exp, n, flat, Ctl(c, e, Int(ctrl), target, env, fuel, exp), b, alpha)
    decreases fuel, 5, ControlSize(e), 1, 0
  {
    hide Ctl, NamedCallee, Leaves, ControlsOn, FragmentTree, Shaped, IsParametricCall, ZeroArgCallee, Unseen;
    CalleeStep(c, e, ctrl, target, env, fuel, exp);
    var r := NamedCallee(c, e, env, fuel, exp);
    CalleeIsOwn(c, e, env, fuel, exp);
    assert CalleeIs(NamedCallee(c, e, CalleeScope(c, e, env), fuel, exp));
    var t := r.value.value;
    TreeInFragment(c, t, env, exp, flat);
    b, alpha := ControlIsCorrect(c, t, ctrl, target, env, r.fuel, exp, n, flat);
    TreeBody(c, t, env, exp, b);
    assert IsBody(c, e, env, exp, b);
  }

  lemma {:induction false} TreeInFragment(c: Ctx, t: Expr, env: Env, exp: set<Name>, flat: bool)
    requires IsGateTree(t) && FragmentTree(t)
    ensures InFragment(c, t, env, exp, flat)
  {
    if t.Compose? {
      hide FragmentTree, InFragment, Leaves;
      TreeParts(t);
      TreeInFragment(c, t.lhs, env, exp, flat);
      TreeInFragment(c, t.rhs, env, exp, flat);
    } else if t.GateApp? {
      hide InFragment;
      assert Leaves(t)[0].Placed? && BodyLeaf(Leaves(t)[0]);
    } else if t.CircuitBlock? {
      hide FragmentTree, Leaves;
      assert BlockBody(c.ops, [], env).Err?;
    } else {
      ResidualIsNoFragment(t);
    }
  }

  lemma ResidualIsNoFragment(t: Expr)
    requires Residual(t)
    ensures !FragmentTree(t)
  {
    assert Leaves(t)[0].Bare?;
  }

  lemma EmptyIsNoBody(c: Ctx, env: Env, exp: set<Name>, b: seq<Leaf>)
    ensures !IsBody(c, EMPTY, env, exp, b)
  {
    assert BlockBody(c.ops, [], env).Err?;
  }

  lemma TreeParts(t: Expr)
    requires t.Compose? && FragmentTree(t)
    ensures FragmentTree(t.lhs) && FragmentTree(t.rhs)
  {
    hide BodyLeaf;
    var (l, r) := (Leaves(t.lhs), Leaves(t.rhs));
    assert forall i | 0 <= i < |l| :: (l + r)[i] == l[i];
    assert forall i | 0 <= i < |r| :: (l + r)[|l| + i] == r[i];
  }

  /** The body of an elaborated tree is its leaves. */
  lemma {:induction false} TreeBody(c: Ctx, t: Expr, env: Env, exp: set<Name>, b: seq<Leaf>)
    requires IsGateTree(t) && FragmentTree(t) && IsBody(c, t, env, exp, b)
    ensures b == Leaves(t)
  {
    if t.Compose? {
      TreeParts(t);
      var b1, b2 :| IsBody(c, t.lhs, env, exp, b1) && IsBody(c, t.rhs, env, exp, b2) && b == b1 + b2;
      TreeBody(c, t.lhs, env, exp, b1);
      TreeBody(c, t.rhs, env, exp, b2);
    } else if t.GateApp? {
      assert BodyLeaf(Leaves(t)[0]) && Leaves(t)[0].qubits == Int(0);
      if t.gate.App? { SubstLiteral(c.ops, t.gate.arg, env); }
    } else if t.CircuitBlock? {
      EmptyIsNoBody(c, env, exp, b);
    } else {
      ResidualIsNoFragment(t);
    }
  }

  lemma {:induction false} NodeControls(c: Ctx, e: Expr, ctrl: nat, target: Expr, env: Env, fuel: nat, exp: set<Name>, n: nat, flat: bool)
    returns (b: seq<Leaf>, alpha: real)
    requires Sound(c) && ctrl < n && InFragment(c, e, env, exp, flat) && !NamesCallee(c, e)
    requires CtlNode(c, e, Int(ctrl), target, env, fuel, exp).Done?
    ensures Controlled(c, e, ctrl, target, env, exp, n, flat, CtlNode(c, e, Int(ctrl), target, env, fuel, exp), b, alpha)
    decreases fuel, 5, ControlSize(e), 1, 0
  {
    hide *;
    if e.Compose? {
      b, alpha := ComposeControls(c, e, ctrl, target, env, fuel, exp, n, flat);
    } else if e.Adjoint? {
      b, alpha := InverseControls(c, e, ctrl, target, env, fuel, exp, n, flat);
    } else if e.CircuitBlock? {
      b, alpha := BlockControls(c, e, ctrl, target, env, fuel, exp, n, flat);
    } else if e.Par? {
      b, alpha := ParControls(c, e, ctrl, target, env, fuel, exp, n, flat);
    } else if e.ParN? {
      b, alpha := ParNControls(c, e, ctrl, target, env, fuel, exp, n, flat);
    } else {
      b, alpha := GateControls(c, e, ctrl, target, env, fuel, exp, n, flat);
    }
  }

  lemma {:induction false} GateControls(c: Ctx, e: Expr, ctrl: nat, target: Expr, env: Env, fuel: nat, exp: set<Name>, n: nat, flat: bool)
    returns (b: seq<Leaf>, alpha: real)
    requires Sound(c) && ctrl < n && InFragment(c, e, env, exp, flat) && !NamesCallee(c, e)
    requires !(e.Compose? || e.Adjoint? || e.CircuitBlock? || e.Par? || e.ParN?)
    requires CtlNode(c, e, Int(ctrl), target, env, fuel, exp).Done?
    ensures Controlled(c, e, ctrl, target, env, exp, n, flat, CtlNode(c, e, Int(ctrl), target, env, fuel, exp), b, alpha)
  {
    hide *;
    var g := if e.GateApp? then e.gate else e;
    GateParts(c, e, env, exp, flat);
    GateStep(c, e, ctrl, target, env, fuel, exp);
    PiIsNotZero(c);
    b, alpha := BareGateControls(c, g, env, n, ctrl, target);
    GateIsBody(c, e, env, exp, b);
    ShapedEither(b, flat);
    Together(c, e, ctrl, target, env, exp, n, flat, CtlNode(c, e, Int(ctrl), target, env, fuel, exp), b, alpha);
  }

  lemma GateParts(c: Ctx, e: Expr, env: Env, exp: set<Name>, flat: bool)
    requires InFragment(c, e, env, exp, flat) && !NamesCallee(c, e)
    requires !(e.Compose? || e.Adjoint? || e.CircuitBlock? || e.Par? || e.ParN?)
    ensures var g := if e.GateApp? then e.gate else e;
            ((g.Var? && IsFixed(g.name)) || (g.App? && g.fn == Var("Rz"))) && (e.GateApp? ==> NamesWireZero(e.qubits))
    ensures e.Var? || e.App? || e.GateApp?
  {
    hide NamesCallee, NamedCallee, IsFixed;
  }

  lemma GateStep(c: Ctx, e: Expr, ctrl: nat, target: Expr, env: Env, fuel: nat, exp: set<Name>)
    requires e.Var? || e.App? || (e.GateApp? && NamesWireZero(e.qubits) && (e.gate.Var? || e.gate.App?))
    ensures var g := if e.GateApp? then e.gate else e;
            var (r, leaf) := (CtlNode(c, e, Int(ctrl), target, env, fuel, exp), CtlLeaf(c, g, Int(ctrl), target, env));
            r.Done? ==> leaf.Ok? && r.value == leaf.value
  {
    hide ControlledGate, Ctl, Elab;
  }

  lemma ShapedEither(b: seq<Leaf>, flat: bool)
    requires Shaped(b, true)
    ensures Shaped(b, flat)
  {
  }

  lemma Together(c: Ctx, e: Expr, ctrl: nat, target: Expr, env: Env, exp: set<Name>, n: nat, flat: bool, r: Out<Expr>, b: seq<Leaf>,
                 alpha: real)
    requires r.Done? && IsBody(c, e, env, exp, b) && Shaped(b, flat) && ControlsOn(c, n, ctrl, target, Leaves(r.value), b, alpha)
    ensures Controlled(c, e, ctrl, target, env, exp, n, flat, r, b, alpha)
  {
    hide IsBody, Shaped, ControlsOn;
  }

  lemma GateIsBody(c: Ctx, e: Expr, env: Env, exp: set<Name>, b: seq<Leaf>)
    requires !NamesCallee(c, e) && !(e.Compose? || e.Adjoint? || e.CircuitBlock? || e.Par? || e.ParN?)
    requires e.GateApp? ==> NamesWireZero(e.qubits)
    requires IsGateBody(c, if e.GateApp? then e.gate else e, env, b)
    ensures IsBody(c, e, env, exp, b)
  {
    hide NamesCallee, NamedCallee;
  }

  lemma {:induction false} ComposeControls(c: Ctx, e: Expr, ctrl: nat, target: Expr, env: Env, fuel: nat, exp: set<Name>, n: nat, flat: bool)
    returns (b: seq<Leaf>, alpha: real)
    requires Sound(c) && ctrl < n && InFragment(c, e, env, exp, flat) && !NamesCallee(c, e) && e.Compose?
    requires CtlNode(c, e, Int(ctrl), target, env, fuel, exp).Done?
    ensures Controlled(c, e, ctrl, target, env, exp, n, flat, CtlNode(c, e, Int(ctrl), target, env, fuel, exp), b, alpha)
    decreases fuel, 5, ControlSize(e), 0, 0
  {
    hide *;
    PiIsNotZero(c);
    ComposeParts(c, e, env, exp, flat);
    ComposeStep(c, e, ctrl, target, env, fuel, exp);
    var r1 := Ctl(c, e.lhs, Int(ctrl), target, env, fuel, exp);
    var r2 := Ctl(c, e.rhs, Int(ctrl), target, env, r1.fuel, exp);
    var b1, a1 := ControlIsCorrect(c, e.lhs, ctrl, target, env, fuel, exp, n, flat);
    var b2, a2 := ControlIsCorrect(c, e.rhs, ctrl, target, env, r1.fuel, exp, n, flat);
    Apart(c, e.lhs, ctrl, target, env, exp, n, flat, r1, b1, a1);
    Apart(c, e.rhs, ctrl, target, env, exp, n, flat, r2, b2, a2);
    b, alpha := b1 + b2, a1 + a2;
    SequenceControls(c, n, ctrl, target, Leaves(r1.value), b1, a1, Leaves(r2.value), b2, a2);
    ShapedConcat(b1, b2, flat);
    LeavesNonempty(r1.value, r2.value);
    ComposeIsBody(c, e, env, exp, b1, b2);
    Together(c, e, ctrl, target, env, exp, n, flat, CtlNode(c, e, Int(ctrl), target, env, fuel, exp), b, alpha);
  }

  lemma ComposeStep(c: Ctx, e: Expr, ctrl: nat, target: Expr, env: Env, fuel: nat, exp: set<Name>)
    requires e.Compose? && CtlNode(c, e, Int(ctrl), target, env, fuel, exp).Done?
    ensures var r1 := Ctl(c, e.lhs, Int(ctrl), target, env, fuel, exp);
            && r1.Done? && r1.fuel <= fuel
            && var r2 := Ctl(c, e.rhs, Int(ctrl), target, env, r1.fuel, exp);
               r2.Done? && CtlNode(c, e, Int(ctrl), target, env, fuel, exp).value == ComposeNonempty(r1.value, r2.value)
  {
    hide Ctl, ComposeNonempty, IsGateTree;
  }

  lemma ComposeIsBody(c: Ctx, e: Expr, env: Env, exp: set<Name>, b1: seq<Leaf>, b2: seq<Leaf>)
    requires !NamesCallee(c, e) && e.Compose? && IsBody(c, e.lhs, env, exp, b1) && IsBody(c, e.rhs, env, exp, b2)
    ensures IsBody(c, e, env, exp, b1 + b2)
  {
    hide NamesCallee, NamedCallee;
    assert IsBodyNode(c, e, env, exp, b1 + b2);
  }

  lemma ComposeParts(c: Ctx, e: Expr, env: Env, exp: set<Name>, flat: bool)
    requires InFragment(c, e, env, exp, flat) && !NamesCallee(c, e) && e.Compose?
    ensures InFragment(c, e.lhs, env, exp, flat) && InFragment(c, e.rhs, env, exp, flat)
    ensures ControlSize(e.lhs) < ControlSize(e) && ControlSize(e.rhs) < ControlSize(e)
  {
    hide NamesCallee, NamedCallee;
  }

  lemma {:induction false} InverseControls(c: Ctx, e: Expr, ctrl: nat, target: Expr, env: Env, fuel: nat, exp: set<Name>, n: nat, flat: bool)
    returns (b: seq<Leaf>, alpha: real)
    requires Sound(c) && ctrl < n && InFragment(c, e, env, exp, flat) && !NamesCallee(c, e) && e.Adjoint?
    requires CtlNode(c, e, Int(ctrl), target, env, fuel, exp).Done?
    ensures Controlled(c, e, ctrl, target, env, exp, n, flat, CtlNode(c, e, Int(ctrl), target, env, fuel, exp), b, alpha)
    decreases fuel, 5, ControlSize(e), 0, 0
  {
    hide *;
    PiIsNotZero(c);
    InverseParts(c, e, env, exp, flat);
    InverseStep(c, e, ctrl, target, env, fuel, exp);
    var r := Ctl(c, e.inner, Int(ctrl), target, env, fuel, exp);
    var b1, a1 := ControlIsCorrect(c, e.inner, ctrl, target, env, fuel, exp, n, flat);
    Apart(c, e.inner, ctrl, target, env, exp, n, flat, r, b1, a1);
    b, alpha := InvertAll(c.reg, b1), -a1;
    AdjointControls(c, n, ctrl, target, r.value, b1, a1);
    InvertedBody(c, b1, target, flat);
    InverseIsBody(c, e, env, exp, b1);
    Together(c, e, ctrl, target, env, exp, n, flat, CtlNode(c, e, Int(ctrl), target, env, fuel, exp), b, alpha);
  }

  lemma InverseStep(c: Ctx, e: Expr, ctrl: nat, target: Expr, env: Env, fuel: nat, exp: set<Name>)
    requires e.Adjoint? && CtlNode(c, e, Int(ctrl), target, env, fuel, exp).Done?
    ensures var r := Ctl(c, e.inner, Int(ctrl), target, env, fuel, exp);
            && r.Done? && IsGateTree(r.value) && ReverseAndInvert(c.reg, r.value).Ok?
            && CtlNode(c, e, Int(ctrl), target, env, fuel, exp).value == ReverseAndInvert(c.reg, r.value).value
  {
    hide Ctl, ReverseAndInvert, IsGateTree;
  }

  lemma InverseIsBody(c: Ctx, e: Expr, env: Env, exp: set<Name>, b: seq<Leaf>)
    requires !NamesCallee(c, e) && e.Adjoint? && IsBody(c, e.inner, env, exp, b)
    ensures IsBody(c, e, env, exp, InvertAll(c.reg, b))
  {
    hide NamesCallee, NamedCallee, InvertAll;
    assert IsBodyNode(c, e, env, exp, InvertAll(c.reg, b));
  }

  lemma Apart(c: Ctx, e: Expr, ctrl: nat, target: Expr, env: Env, exp: set<Name>, n: nat, flat: bool, r: Out<Expr>, b: seq<Leaf>,
              alpha: real)
    requires Controlled(c, e, ctrl, target, env, exp, n, flat, r, b, alpha)
    ensures IsBody(c, e, env, exp, b) && Shaped(b, flat) && BodyLeaves(b)
    ensures r.Done? && ControlsOn(c, n, ctrl, target, Leaves(r.value), b, alpha)
  {
    hide IsBody, BodyLeaf, ControlsOn;
  }

  lemma InverseParts(c: Ctx, e: Expr, env: Env, exp: set<Name>, flat: bool)
    requires InFragment(c, e, env, exp, flat) && !NamesCallee(c, e) && e.Adjoint?
    ensures InFragment(c, e.inner, env, exp, flat) && ControlSize(e.inner) < ControlSize(e)
  {
    hide NamesCallee, NamedCallee;
  }

  lemma {:induction false} BlockControls(c: Ctx, e: Expr, ctrl: nat, target: Expr, env: Env, fuel: nat, exp: set<Name>, n: nat, flat: bool)
    returns (b: seq<Leaf>, alpha: real)
    requires Sound(c) && ctrl < n && InFragment(c, e, env, exp, flat) && !NamesCallee(c, e) && e.CircuitBlock?
    requires CtlNode(c, e, Int(ctrl), target, env, fuel, exp).Done?
    ensures Controlled(c, e, ctrl, target, env, exp, n, flat, CtlNode(c, e, Int(ctrl), target, env, fuel, exp), b, alpha)
    decreases fuel, 5, ControlSize(e), 0, 0
  {
    hide Ctl, Leaves, ControlsOn, NamesCallee, NamedCallee, Shaped, BlockBody, ControlSize;
    var body := BlockBody(c.ops, e.stmts, env).value;
    b, alpha := ControlIsCorrect(c, body, ctrl, target, env, fuel, exp, n, flat);
    assert IsBodyNode(c, e, env, exp, b);
  }

  lemma {:induction false} ParControls(c: Ctx, e: Expr, ctrl: nat, target: Expr, env: Env, fuel: nat, exp: set<Name>, n: nat, flat: bool)
    returns (b: seq<Leaf>, alpha: real)
    requires Sound(c) && ctrl < n && InFragment(c, e, env, exp, flat) && !NamesCallee(c, e) && e.Par?
    requires CtlNode(c, e, Int(ctrl), target, env, fuel, exp).Done?
    ensures Controlled(c, e, ctrl, target, env, exp, n, flat, CtlNode(c, e, Int(ctrl), target, env, fuel, exp), b, alpha)
    decreases fuel, 5, ControlSize(e), 0, 0
  {
    hide *;
    var k := Eval(c.ops, e.count, env, c.ops.probe);
    PiIsNotZero(c);
    ParFragment(c, e, env, exp, flat);
    ParStep(c, e, ctrl, target, env, fuel, exp);
    if k.value.i == 0 {
      b, alpha := [], 0.0;
      EmptyControls(c, n, ctrl, target);
      NoneAreCopies(c, e.body, 0, 0, env, exp);
    } else {
      var w := ArmWidth(c, e.body, env, fuel, exp);
      EmptyLeaves([]);
      var t;
      t, b, alpha := CopiesControl(c, e.body, ctrl, target, 0, k.value.i, EMPTY, env, w.fuel, exp, n);
      EmptyLeaves(t);
    }
    ParIsBody(c, e, ctrl, target, env, fuel, exp, n, flat, b, alpha);
  }

  lemma ParFragment(c: Ctx, e: Expr, env: Env, exp: set<Name>, flat: bool)
    requires InFragment(c, e, env, exp, flat) && !NamesCallee(c, e) && e.Par?
    ensures !flat && CountFits(c, e.count, env) && InFragment(c, e.body, env, exp, true) && TakesOneWire(c, e.body, env, exp)
    ensures ControlSize(e.body) < ControlSize(e)
  {
    hide NamesCallee, NamedCallee;
  }

  lemma ParStep(c: Ctx, e: Expr, ctrl: nat, target: Expr, env: Env, fuel: nat, exp: set<Name>)
    requires e.Par? && CtlNode(c, e, Int(ctrl), target, env, fuel, exp).Done?
    requires TakesOneWire(c, e.body, env, exp) && CountFits(c, e.count, env)
    ensures var k := Eval(c.ops, e.count, env, c.ops.probe);
            && k.Done? && k.value.VInt? && 0 <= k.value.i <= I64_MAX
            && (k.value.i == 0 ==> CtlNode(c, e, Int(ctrl), target, env, fuel, exp) == Done(EMPTY, fuel))
            && (k.value.i > 0 ==>
                  var w := ArmWidth(c, e.body, env, fuel, exp);
                  && w.Done? && w.fuel <= fuel
                  && CtlNode(c, e, Int(ctrl), target, env, fuel, exp)
                       == CtlCopies(c, e.body, Int(ctrl), BodyWiresOf(target), 1, 0, k.value.i, EMPTY, env, w.fuel, exp))
  {
    hide CtlNode, CtlCopies, ArmWidth;
    ParControlled(c, e, Int(ctrl), target, env, fuel, exp);
    OneWire(c, e.body, env, fuel, exp);
  }

  lemma NoneAreCopies(c: Ctx, body: Expr, i: nat, k: int, env: Env, exp: set<Name>)
    requires i >= k
    ensures AreCopies(c, body, i, k, env, exp, []) && BodyLeaves([])
  {
  }

  lemma SmallOffset(i: nat)
    ensures i <= I64_MAX ==> Saturate(i * 1) == i && Saturate(i) == i
  {
  }

  lemma OneWire(c: Ctx, arm: Expr, env: Env, fuel: nat, exp: set<Name>)
    requires TakesOneWire(c, arm, env, exp)
    ensures var w := ArmWidth(c, arm, env, fuel, exp); w.Done? ==> w.value == 1
  {
    hide ArmWidth;
    assert WidthIsOne(ArmWidth(c, arm, env, fuel, exp));
  }

  lemma ParIsBody(c: Ctx, e: Expr, ctrl: nat, target: Expr, env: Env, fuel: nat, exp: set<Name>, n: nat, flat: bool,
                  b: seq<Leaf>, alpha: real)
    requires Sound(c) && ctrl < n && !flat && !NamesCallee(c, e) && e.Par?
    requires CtlNode(c, e, Int(ctrl), target, env, fuel, exp).Done?
    requires var k := Eval(c.ops, e.count, env, c.ops.probe);
             k.Done? && k.value.VInt? && k.value.i >= 0 && AreCopies(c, e.body, 0, k.value.i, env, exp, b)
    requires BodyLeaves(b)
    requires ControlsOn(c, n, ctrl, target, Leaves(CtlNode(c, e, Int(ctrl), target, env, fuel, exp).value), b, alpha)
    ensures Controlled(c, e, ctrl, target, env, exp, n, flat, CtlNode(c, e, Int(ctrl), target, env, fuel, exp), b, alpha)
  {
    hide CtlNode, NamesCallee, NamedCallee, AreCopies, ControlsOn, Leaves;
    assert IsBodyNode(c, e, env, exp, b);
  }

  lemma EmptyLeaves(t: seq<Leaf>)
    ensures Leaves(EMPTY) + t == t && IsGateTree(EMPTY)
  {
  }

  lemma {:induction false} EmptyControls(c: Ctx, n: nat, ctrl: nat, target: Expr)
    requires c.ops.pi != 0.0 && ctrl < n
    ensures Leaves(EMPTY) == [] && ControlsOn(c, n, ctrl, target, [], [], 0.0)
  {
    hide Controls;
    ControlsNothing(n, ctrl);
    assert Acts(c, []) == [] && Acts(c, PlacedOn(target, [])) == [];
  }

  /** The copies from `i` on: the gates they add control the copies' bodies. */
  lemma {:induction false} CopiesControl(c: Ctx, body: Expr, ctrl: nat, target: Expr, i: nat, k: int, acc: Expr, env: Env, fuel: nat,
                                         exp: set<Name>, n: nat)
    returns (t: seq<Leaf>, b: seq<Leaf>, alpha: real)
    requires Sound(c) && ctrl < n && InFragment(c, body, env, exp, true) && IsGateTree(acc) && k <= I64_MAX
    requires CtlCopies(c, body, Int(ctrl), BodyWiresOf(target), 1, i, k, acc, env, fuel, exp).Done?
    ensures Leaves(CtlCopies(c, body, Int(ctrl), BodyWiresOf(target), 1, i, k, acc, env, fuel, exp).value) == Leaves(acc) + t
    ensures AreCopies(c, body, i, k, env, exp, b) && BodyLeaves(b) && ControlsOn(c, n, ctrl, target, t, b, alpha)
    decreases fuel, 5, ControlSize(body), 3, if k < i then 0 else k - i
  {
    hide *;
    PiIsNotZero(c);
    if i >= k {
      CopiesDone(c, body, Int(ctrl), BodyWiresOf(target), 1, i, k, acc, env, fuel, exp);
      NoneAreCopies(c, body, i, k, env, exp);
      t, b, alpha := [], [], 0.0;
      NoCopies(c, n, ctrl, target);
    } else {
      CopyControlled(c, body, Int(ctrl), BodyWiresOf(target), 1, i, k, acc, env, fuel, exp);
      SmallOffset(i);
      var slice := WireSlice(BodyWiresOf(target), i, 1).value;
      var r := Ctl(c, body, Int(ctrl), slice, env, fuel, exp);
      var b1, a1 := ControlIsCorrect(c, body, ctrl, slice, env, fuel, exp, n, true);
      Apart(c, body, ctrl, slice, env, exp, n, true, r, b1, a1);
      SliceControls(c, n, ctrl, target, slice, i, Leaves(r.value), b1, a1);
      LeavesNonempty(acc, r.value);
      var t2, b2, a2 := CopiesControl(c, body, ctrl, target, i + 1, k, ComposeNonempty(acc, r.value), env, r.fuel, exp, n);
      SequenceControls(c, n, ctrl, target, Leaves(r.value), ShiftAll(b1, i), a1, t2, b2, a2);
      t, b, alpha := Leaves(r.value) + t2, ShiftAll(b1, i) + b2, a1 + a2;
      ShiftedIsBody(b1, i);
      BodyConcat(ShiftAll(b1, i), b2);
      OneMoreCopy(c, body, i, k, env, exp, b1, b2);
    }
  }

  lemma ShiftedIsBody(b: seq<Leaf>, i: nat)
    requires Shaped(b, true)
    ensures BodyLeaves(ShiftAll(b, i))
  {
    hide ShiftAll, BodyLeaf;
    ShiftedWireZero(b, i);
  }

  lemma OneMoreCopy(c: Ctx, body: Expr, i: nat, k: int, env: Env, exp: set<Name>, b1: seq<Leaf>, b2: seq<Leaf>)
    requires i < k && IsBody(c, body, env, exp, b1) && AreCopies(c, body, i + 1, k, env, exp, b2)
    ensures AreCopies(c, body, i, k, env, exp, ShiftAll(b1, i) + b2)
  {
    hide IsBody, ShiftAll;
  }

  lemma BodyConcat(a: seq<Leaf>, b: seq<Leaf>)
    requires BodyLeaves(a) && BodyLeaves(b)
    ensures BodyLeaves(a + b)
  {
    hide BodyLeaf;
  }

  lemma NoCopies(c: Ctx, n: nat, ctrl: nat, target: Expr)
    requires c.ops.pi != 0.0 && ctrl < n
    ensures ControlsOn(c, n, ctrl, target, [], [], 0.0)
  {
    hide *;
    EmptyControls(c, n, ctrl, target);
  }

  lemma {:induction false} ParNControls(c: Ctx, e: Expr, ctrl: nat, target: Expr, env: Env, fuel: nat, exp: set<Name>, n: nat, flat: bool)
    returns (b: seq<Leaf>, alpha: real)
    requires Sound(c) && ctrl < n && InFragment(c, e, env, exp, flat) && !NamesCallee(c, e) && e.ParN?
    requires CtlNode(c, e, Int(ctrl), target, env, fuel, exp).Done?
    ensures Controlled(c, e, ctrl, target, env, exp, n, flat, CtlNode(c, e, Int(ctrl), target, env, fuel, exp), b, alpha)
    decreases fuel, 5, ControlSize(e), 0, 0
  {
    hide Ctl, Leaves, ControlsOn, NamesCallee, NamedCallee, CtlArms;
    var t;
    t, b, alpha := ArmsControl(c, e.items, ctrl, target, 0, EMPTY, env, fuel, exp, n);
    EmptyLeaves(t);
    assert IsBodyNode(c, e, env, exp, b);
  }

  /** The arms from wire `i` on. */
  lemma {:induction false} ArmsControl(c: Ctx, items: seq<Expr>, ctrl: nat, target: Expr, i: nat, acc: Expr, env: Env, fuel: nat,
                                       exp: set<Name>, n: nat)
    returns (t: seq<Leaf>, b: seq<Leaf>, alpha: real)
    requires Sound(c) && ctrl < n && ArmsInFragment(c, items, env, exp) && IsGateTree(acc) && i + |items| <= I64_MAX
    requires CtlArms(c, items, Int(ctrl), BodyWiresOf(target), i, acc, env, fuel, exp).Done?
    ensures Leaves(CtlArms(c, items, Int(ctrl), BodyWiresOf(target), i, acc, env, fuel, exp).value) == Leaves(acc) + t
    ensures AreArms(c, items, i, env, exp, b) && BodyLeaves(b) && ControlsOn(c, n, ctrl, target, t, b, alpha)
    decreases fuel, 5, ControlSizes(items), 4, |items|
  {
    hide *;
    PiIsNotZero(c);
    if items == [] {
      NoMoreArms(c, ctrl, target, i, acc, env, fuel, exp);
      t, b, alpha := [], [], 0.0;
      NoCopies(c, n, ctrl, target);
    } else {
      ArmsParts(c, items, env, exp);
      ArmControls(c, items, Int(ctrl), BodyWiresOf(target), i, acc, env, fuel, exp);
      OneWire(c, items[0], env, fuel, exp);
      SmallOffset(i + 1);
      var w := ArmWidth(c, items[0], env, fuel, exp);
      var slice := WireSlice(BodyWiresOf(target), i, 1).value;
      var r := Ctl(c, items[0], Int(ctrl), slice, env, w.fuel, exp);
      SizesFirst(items);
      var b1, a1 := ControlIsCorrect(c, items[0], ctrl, slice, env, w.fuel, exp, n, true);
      Apart(c, items[0], ctrl, slice, env, exp, n, true, r, b1, a1);
      SliceControls(c, n, ctrl, target, slice, i, Leaves(r.value), b1, a1);
      LeavesNonempty(acc, r.value);
      var t2, b2, a2 := ArmsControl(c, items[1..], ctrl, target, i + 1, ComposeNonempty(acc, r.value), env, r.fuel, exp, n);
      SequenceControls(c, n, ctrl, target, Leaves(r.value), ShiftAll(b1, i), a1, t2, b2, a2);
      t, b, alpha := Leaves(r.value) + t2, ShiftAll(b1, i) + b2, a1 + a2;
      ShiftedIsBody(b1, i);
      BodyConcat(ShiftAll(b1, i), b2);
      OneMoreArm(c, items, i, env, exp, b1, b2);
    }
  }

  lemma SizesFirst(items: seq<Expr>)
    requires items != []
    ensures ControlSizes(items) == ControlSize(items[0]) + ControlSizes(items[1..])
  {
  }

  lemma ArmsParts(c: Ctx, items: seq<Expr>, env: Env, exp: set<Name>)
    requires items != [] && ArmsInFragment(c, items, env, exp)
    ensures InFragment(c, items[0], env, exp, true) && TakesOneWire(c, items[0], env, exp) && ArmsInFragment(c, items[1..], env, exp)
  {
    hide InFragment;
  }

  lemma NoMoreArms(c: Ctx, ctrl: nat, target: Expr, i: nat, acc: Expr, env: Env, fuel: nat, exp: set<Name>)
    requires IsGateTree(acc) && CtlArms(c, [], Int(ctrl), BodyWiresOf(target), i, acc, env, fuel, exp).Done?
    ensures CtlArms(c, [], Int(ctrl), BodyWiresOf(target), i, acc, env, fuel, exp) == Done(acc, fuel)
    ensures AreArms(c, [], i, env, exp, []) && BodyLeaves([]) && Leaves(acc) + [] == Leaves(acc)
  {
    hide CtlArm;
  }

  lemma OneMoreArm(c: Ctx, items: seq<Expr>, i: nat, env: Env, exp: set<Name>, b1: seq<Leaf>, b2: seq<Leaf>)
    requires items != [] && IsBody(c, items[0], env, exp, b1) && AreArms(c, items[1..], i + 1, env, exp, b2)
    ensures AreArms(c, items, i, env, exp, ShiftAll(b1, i) + b2)
  {
    hide IsBody, ShiftAll;
  }

  /** The same for the states themselves: identity while the control bit is clear, the body on its
      target wires while it is set, and one phase for all states. */
  lemma ControlledStates(c: Ctx, e: Expr, ctrl: nat, target: Expr, env: Env, fuel: nat, exp: set<Name>, n: nat, flat: bool)
    returns (b: seq<Leaf>, alpha: real)
    requires Sound(c) && ctrl < n && InFragment(c, e, env, exp, flat)
    requires Ctl(c, e, Int(ctrl), target, env, fuel, exp).Done?
    ensures IsBody(c, e, env, exp, b) && Shaped(b, flat)
    ensures var (m, t) := (PhaseModel(c.reg, c.ops.pi), Leaves(Ctl(c, e, Int(ctrl), target, env, fuel, exp).value));
            ClearOf(b, target, ctrl, n) ==>
              forall s: Basis | |s.bits| == n ::
                Run(m, t, true, 0, s) == Turned(if s.bits[ctrl] then Run(m, PlacedOn(target, b), true, 0, s) else s, alpha)
  {
    hide *;
    PiIsNotZero(c);
    b, alpha := ControlIsCorrect(c, e, ctrl, target, env, fuel, exp, n, flat);
    var tree := Ctl(c, e, Int(ctrl), target, env, fuel, exp).value;
    Apart(c, e, ctrl, target, env, exp, n, flat, Ctl(c, e, Int(ctrl), target, env, fuel, exp), b, alpha);
    if ClearOf(b, target, ctrl, n) {
      forall s: Basis | |s.bits| == n
        ensures Run(PhaseModel(c.reg, c.ops.pi), Leaves(tree), true, 0, s) ==
                  Turned(if s.bits[ctrl] then Run(PhaseModel(c.reg, c.ops.pi), PlacedOn(target, b), true, 0, s) else s, alpha)
      {
        ControlsHolds(c, n, ctrl, target, Leaves(tree), b, alpha);
        ControlsStates(c.reg, c.ops.pi, n, ctrl, Leaves(tree), PlacedOn(target, b), alpha, s);
      }
    }
  }

  lemma ControlsHolds(c: Ctx, n: nat, ctrl: nat, target: Expr, t: seq<Leaf>, b: seq<Leaf>, alpha: real)
    requires c.ops.pi != 0.0 && ctrl < n && ControlsOn(c, n, ctrl, target, t, b, alpha) && ClearOf(b, target, ctrl, n)
    ensures Controls(n, ctrl, ActionsOf(c.reg, c.ops.pi, t), ActionsOf(c.reg, c.ops.pi, PlacedOn(target, b)), alpha)
  {
    hide Controls, ClearOf;
  }

  /** There are registries that are lawful and list the gates modelled here. */
  lemma SomeRegistryIsSound()
    ensures exists reg :: Lawful(reg) && ListsPhaseGates(reg)
  {
    var reg := Registry(n => if InverseOf(n).Some? then Some(GateInfo(n, 1, InverseOf(n).value, false, true)) else None);
    assert Lawful(reg) && ListsPhaseGates(reg);
  }
}
