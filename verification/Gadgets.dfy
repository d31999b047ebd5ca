/** The gates `controlled(..)` and `Rzz` stand for do what they stand for. */
module Gadgets {
  import opened Ast
  import opened Classical
  import opened GateTree
  import opened CircuitForms
  import opened Meaning
  import opened RunLaws
  import opened GateTreeLaws
  import opened Phase
  import opened Control

  // ── On actions ─────────────────────────────────────────────────────────────

  lemma SumFirst(acts: seq<Action>, bits: seq<bool>)
    requires acts != []
    ensures PermAll(acts, bits) == PermAll(acts[1..], Permuted(acts[0], bits))
    ensures GivenAll(acts, bits) == Given(acts[0], bits) + GivenAll(acts[1..], Permuted(acts[0], bits))
  {
  }

  lemma FourSums(a: Action, b: Action, c: Action, d: Action, bits: seq<bool>)
    ensures var acts := [a, b, c, d];
            var (x, y, z) := (Permuted(a, bits), Permuted(b, Permuted(a, bits)), Permuted(c, Permuted(b, Permuted(a, bits))));
            && PermAll(acts, bits) == Permuted(d, z)
            && GivenAll(acts, bits) == Given(a, bits) + (Given(b, x) + (Given(c, y) + Given(d, z)))
  {
    hide PermAll, GivenAll, Permuted, Given;
    var (x, y, z) := (Permuted(a, bits), Permuted(b, Permuted(a, bits)), Permuted(c, Permuted(b, Permuted(a, bits))));
    SumFirst([a, b, c, d], bits);
    assert [a, b, c, d][1..] == [b, c, d];
    SumFirst([b, c, d], x);
    assert [b, c, d][1..] == [c, d];
    SumFirst([c, d], y);
    assert [c, d][1..] == [d];
    OneSum(d, z);
  }

  lemma ControlledPairControls(n: nat, ctrl: nat, t: nat, flips: bool, p0: real, p1: real)
    requires ctrl < n && t < n && ctrl != t
    ensures Controls(n, ctrl, [ControlledOne(flips, p0, p1, ctrl, t)], [OnOne(flips, p0, p1, t)], 0.0)
  {
    var (a, b) := (ControlledOne(flips, p0, p1, ctrl, t), OnOne(flips, p0, p1, t));
    forall bits: seq<bool> | |bits| == n ensures ControlsAt(ctrl, [a], [b], 0.0, bits) {
      OneSum(a, bits);
      OneSum(b, bits);
      assert Whole(0.0);
    }
  }

  function Cnot(c: nat, t: nat): Action { ControlledOne(true, 0.0, 0.0, c, t) }

  /** A rotation that turns bit 0 back and bit 1 on by `w` turns. */
  function Twist(w: real, t: nat): Action { OnOne(false, -w, w, t) }

  /** Rotate, flip, rotate back, flip: the rotation acts exactly when the control is set. */
  lemma TwistedControls(n: nat, ctrl: nat, t: nat, w: real)
    requires ctrl < n && t < n && ctrl != t
    ensures Controls(n, ctrl, [Twist(w, t), Cnot(ctrl, t), Twist(-w, t), Cnot(ctrl, t)], [Twist(2.0 * w, t)], 0.0)
  {
    var acts, body := [Twist(w, t), Cnot(ctrl, t), Twist(-w, t), Cnot(ctrl, t)], [Twist(2.0 * w, t)];
    forall bits: seq<bool> | |bits| == n ensures ControlsAt(ctrl, acts, body, 0.0, bits) {
      hide PermAll, GivenAll;
      FourSums(Twist(w, t), Cnot(ctrl, t), Twist(-w, t), Cnot(ctrl, t), bits);
      OneSum(Twist(2.0 * w, t), bits);
      assert Whole(0.0);
    }
  }

  /** The controlled phase: correct up to a quarter of the phase, turned back on every state. */
  lemma PhasedControls(n: nat, ctrl: nat, t: nat, w: real)
    requires ctrl < n && t < n && ctrl != t
    ensures Controls(n, ctrl, [Twist(w, ctrl), Cnot(ctrl, t), Twist(-w, t), Cnot(ctrl, t), Twist(w, t)],
                     [OnOne(false, 0.0, 4.0 * w, t)], -w)
  {
    var (first, rest) := (Twist(w, ctrl), [Cnot(ctrl, t), Twist(-w, t), Cnot(ctrl, t), Twist(w, t)]);
    var body := OnOne(false, 0.0, 4.0 * w, t);
    assert [first] + rest == [Twist(w, ctrl), Cnot(ctrl, t), Twist(-w, t), Cnot(ctrl, t), Twist(w, t)];
    forall bits: seq<bool> | |bits| == n ensures ControlsAt(ctrl, [first] + rest, [body], -w, bits) {
      hide PermAll, GivenAll;
      SumsConcat([first], rest, bits);
      OneSum(first, bits);
      FourSums(Cnot(ctrl, t), Twist(-w, t), Cnot(ctrl, t), Twist(w, t), bits);
      OneSum(body, bits);
      assert Whole(0.0);
    }
  }

  // ── On gates ───────────────────────────────────────────────────────────────

  lemma TwoTargets(a: nat, b: nat)
    ensures QubitTargets(CircuitForms.Pair(Int(a), Int(b))) == [a, b]
  {
    assert [Int(a), Int(b)][1..] == [Int(b)] && [Int(b)][1..] == [];
    assert Literals([Int(b)]) == [b] + Literals([]);
    assert Literals([Int(a), Int(b)]) == [a] + Literals([Int(b)]);
  }

  lemma PairAction(reg: Registry, pi: real, name: Name, a: nat, b: nat)
    requires pi != 0.0 && ListsPhaseGates(reg) && InverseOf(name).Some?
    ensures LeafAction(reg, pi, Placed(Var(name), CircuitForms.Pair(Int(a), Int(b)))) == FixedAction(name, [a, b])
  {
    TwoTargets(a, b);
    assert Spelled(reg, name) == name;
  }

  lemma OneAction(reg: Registry, pi: real, name: Name, t: nat)
    requires pi != 0.0 && ListsPhaseGates(reg) && InverseOf(name).Some?
    ensures LeafAction(reg, pi, Placed(Var(name), Int(t))) == FixedAction(name, [t])
  {
    assert Spelled(reg, name) == name;
  }

  function RzLeaf(angle: real, t: nat): Leaf { Placed(App(Var("Rz"), Float(angle)), Int(t)) }

  function CnotLeaf(a: nat, b: nat): Leaf { Placed(Var("CNOT"), CircuitForms.Pair(Int(a), Int(b))) }

  lemma RzTwists(reg: Registry, pi: real, angle: real, t: nat)
    requires pi != 0.0
    ensures LeafAction(reg, pi, RzLeaf(angle, t)) == Twist(Turns(pi, angle) / 2.0, t)
  {
  }

  lemma CnotFlips(reg: Registry, pi: real, a: nat, b: nat)
    requires pi != 0.0 && ListsPhaseGates(reg) && a != b
    ensures LeafAction(reg, pi, CnotLeaf(a, b)) == Cnot(a, b)
  {
    PairAction(reg, pi, "CNOT", a, b);
  }

  lemma HalfTurns(pi: real, angle: real)
    requires pi != 0.0
    ensures Turns(pi, angle / 2.0) == Turns(pi, angle) / 2.0
    ensures Turns(pi, -(angle / 2.0)) == -(Turns(pi, angle) / 2.0)
  {
    TurnsNegated(pi, angle / 2.0);
    var d := 2.0 * pi;
    assert (angle / 2.0) / d == (angle / d) / 2.0;
  }

  lemma PiTurns(pi: real)
    requires pi != 0.0
    ensures Turns(pi, pi / 2.0) == 0.25 && Turns(pi, pi / 4.0) == 0.125
    ensures Turns(pi, -pi / 2.0) == -0.25 && Turns(pi, -pi / 4.0) == -0.125
  {
    assert pi / 2.0 == 0.25 * (2.0 * pi) && pi / 4.0 == 0.125 * (2.0 * pi);
    TurnsNegated(pi, pi / 2.0);
    TurnsNegated(pi, pi / 4.0);
  }

  lemma GadgetLeaves(angle: Expr, theta: real, a: nat, b: nat)
    ensures Leaves(RzzGadget(angle, Int(a), Int(b)))
         == [CnotLeaf(a, b), Placed(App(Var("Rz"), angle), Int(b)), CnotLeaf(a, b)]
    ensures Leaves(RotationGadget("Rz", theta, Int(a), Int(b)))
         == [RzLeaf(theta / 2.0, b), CnotLeaf(a, b), RzLeaf(-(theta / 2.0), b), CnotLeaf(a, b)]
    ensures Leaves(PhaseGadget(theta, Int(a), Int(b)))
         == [RzLeaf(theta / 2.0, a), CnotLeaf(a, b), RzLeaf(-theta / 2.0, b), CnotLeaf(a, b), RzLeaf(theta / 2.0, b)]
  {
    var cnot := Gate("CNOT", CircuitForms.Pair(Int(a), Int(b)));
    StepsLeaves([cnot, Rotation("Rz", angle, Int(b)), cnot]);
    StepsLeaves([Rotation("Rz", Float(theta / 2.0), Int(b)), cnot, Rotation("Rz", Float(-(theta / 2.0)), Int(b)), cnot]);
    StepsLeaves([Rotation("Rz", Float(theta / 2.0), Int(a)), cnot, Rotation("Rz", Float(-theta / 2.0), Int(b)), cnot,
                 Rotation("Rz", Float(theta / 2.0), Int(b))]);
  }

  lemma {:induction false} StepsLeaves(steps: seq<Expr>)
    requires steps != [] && forall i | 0 <= i < |steps| :: steps[i].GateApp?
    ensures Leaves(ComposeAll(steps)) == seq(|steps|, i requires 0 <= i < |steps| => Placed(steps[i].gate, steps[i].qubits))
  {
    LeavesOnto(steps[0], steps[1..]);
    GateLeaves(steps[1..]);
  }

  lemma {:induction false} GateLeaves(steps: seq<Expr>)
    requires forall i | 0 <= i < |steps| :: steps[i].GateApp?
    ensures LeavesOfAll(steps) == seq(|steps|, i requires 0 <= i < |steps| => Placed(steps[i].gate, steps[i].qubits))
  {
    if steps != [] { GateLeaves(steps[1..]); }
  }

  /** `Rzz(a)` turns states whose two bits are equal back by half the angle, and the others on. */
  lemma RzzIsExact(reg: Registry, pi: real, angle: real, a: nat, b: nat, s: Basis)
    requires pi != 0.0 && ListsPhaseGates(reg) && a != b && a < |s.bits| && b < |s.bits|
    ensures Run(PhaseModel(reg, pi), Leaves(RzzGadget(Float(angle), Int(a), Int(b))), true, 0, s)
         == Turned(s, if s.bits[a] == s.bits[b] then -Turns(pi, angle) / 2.0 else Turns(pi, angle) / 2.0)
  {
    hide Run, Frac, Turns, LeafAction, Leaves, PermAll, GivenAll;
    GadgetLeaves(Float(angle), 0.0, a, b);
    var ls := [CnotLeaf(a, b), RzLeaf(angle, b), CnotLeaf(a, b)];
    var w := Turns(pi, angle) / 2.0;
    RunSums(reg, pi, ls, s);
    CnotFlips(reg, pi, a, b);
    RzTwists(reg, pi, angle, b);
    assert ActionsOf(reg, pi, ls) == [Cnot(a, b), Twist(w, b), Cnot(a, b)];
    RzzSums(a, b, w, s.bits);
  }

  lemma RzzSums(a: nat, b: nat, w: real, bits: seq<bool>)
    requires a != b && a < |bits| && b < |bits|
    ensures var acts := [Cnot(a, b), Twist(w, b), Cnot(a, b)];
            PermAll(acts, bits) == bits && GivenAll(acts, bits) == if bits[a] == bits[b] then -w else w
  {
    hide PermAll, GivenAll;
    var acts := [Cnot(a, b), Twist(w, b), Cnot(a, b)];
    SumFirst(acts, bits);
    assert acts[1..] == [Twist(w, b), Cnot(a, b)];
    SumFirst(acts[1..], Permuted(Cnot(a, b), bits));
    assert acts[1..][1..] == [Cnot(a, b)];
    OneSum(Cnot(a, b), Permuted(Cnot(a, b), bits));
  }

  /** The names control is proved for. */
  predicate IsFixed(name: Name) { name in {"I", "X", "Y", "Z", "S", "S_dag", "T", "T_dag"} }

  /** The phase all states get from the control of a fixed gate. */
  function FixedPhase(name: Name): real {
    if name == "S" then -0.0625 else if name == "S_dag" then 0.0625
    else if name == "T" then -0.03125 else if name == "T_dag" then 0.03125
    else 0.0
  }

  /** Control of I, X, Y, Z, S, T and their daggers. */
  lemma FixedControls(c: Ctx, name: Name, n: nat, ctrl: nat, t: nat)
    requires c.ops.pi != 0.0 && ListsPhaseGates(c.reg) && IsFixed(name)
    requires ctrl < n && t < n && ctrl != t && ControlledFixed(c, name, Int(ctrl), Int(t)).Ok?
    ensures var acts := (ls: seq<Leaf>) => ActionsOf(c.reg, c.ops.pi, ls);
            Controls(n, ctrl, acts(Leaves(ControlledFixed(c, name, Int(ctrl), Int(t)).value)),
                     acts([Placed(Var(name), Int(t))]), FixedPhase(name))
  {
    hide Controls, ActionsOf, Leaves;
    if name == "I" {
      IdentityControlled(c, n, ctrl, t);
    } else if name == "X" {
      PairControlled(c, name, "CNOT", n, ctrl, t);
    } else if name == "Y" {
      PairControlled(c, name, "CY", n, ctrl, t);
    } else if name == "Z" {
      PairControlled(c, name, "CZ", n, ctrl, t);
    } else {
      var pi := c.ops.pi;
      PiTurns(pi);
      PhaseControlled(c, name, if name == "S" then pi / 2.0 else if name == "S_dag" then -pi / 2.0
                               else if name == "T" then pi / 4.0 else -pi / 4.0, n, ctrl, t);
    }
  }

  lemma IdentityControlled(c: Ctx, n: nat, ctrl: nat, t: nat)
    requires c.ops.pi != 0.0 && ListsPhaseGates(c.reg) && ctrl < n
    ensures Controls(n, ctrl, ActionsOf(c.reg, c.ops.pi, Leaves(EMPTY)),
                     ActionsOf(c.reg, c.ops.pi, [Placed(Var("I"), Int(t))]), 0.0)
  {
    hide Controls;
    OneAction(c.reg, c.ops.pi, "I", t);
    IdentityControls(n, ctrl);
    assert ActionsOf(c.reg, c.ops.pi, Leaves(EMPTY)) == [];
    assert ActionsOf(c.reg, c.ops.pi, [Placed(Var("I"), Int(t))]) == [Nothing];
  }

  lemma PairControlled(c: Ctx, name: Name, pair: Name, n: nat, ctrl: nat, t: nat)
    requires c.ops.pi != 0.0 && ListsPhaseGates(c.reg) && ctrl < n && t < n && ctrl != t
    requires (name == "X" && pair == "CNOT") || (name == "Y" && pair == "CY") || (name == "Z" && pair == "CZ")
    ensures Controls(n, ctrl, ActionsOf(c.reg, c.ops.pi, Leaves(Gate(pair, CircuitForms.Pair(Int(ctrl), Int(t))))),
                     ActionsOf(c.reg, c.ops.pi, [Placed(Var(name), Int(t))]), 0.0)
  {
    hide Controls, LeafAction;
    var (reg, pi) := (c.reg, c.ops.pi);
    OneAction(reg, pi, name, t);
    PairAction(reg, pi, pair, ctrl, t);
    var a := FixedAction(pair, [ctrl, t]);
    ControlledPairControls(n, ctrl, t, a.flips, a.phase0, a.phase1);
    assert ActionsOf(reg, pi, [Placed(Var(pair), CircuitForms.Pair(Int(ctrl), Int(t)))]) == [a];
    assert ActionsOf(reg, pi, [Placed(Var(name), Int(t))]) == [OnOne(a.flips, a.phase0, a.phase1, t)];
  }

  lemma PhaseControlled(c: Ctx, name: Name, phi: real, n: nat, ctrl: nat, t: nat)
    requires c.ops.pi != 0.0 && ListsPhaseGates(c.reg) && ctrl < n && t < n && ctrl != t
    requires name in {"S", "S_dag", "T", "T_dag"} && Turns(c.ops.pi, phi) == -4.0 * FixedPhase(name)
    ensures Controls(n, ctrl, ActionsOf(c.reg, c.ops.pi, Leaves(PhaseGadget(phi, Int(ctrl), Int(t)))),
                     ActionsOf(c.reg, c.ops.pi, [Placed(Var(name), Int(t))]), FixedPhase(name))
  {
    hide Controls, Turns;
    OneAction(c.reg, c.ops.pi, name, t);
    PhaseControls(c.reg, c.ops.pi, phi, n, ctrl, t);
    assert ActionsOf(c.reg, c.ops.pi, [Placed(Var(name), Int(t))]) == [FixedAction(name, [t])];
  }

  lemma IdentityControls(n: nat, ctrl: nat)
    requires ctrl < n
    ensures Controls(n, ctrl, [], [Nothing], 0.0)
  {
    forall bits: seq<bool> | |bits| == n ensures ControlsAt(ctrl, [], [Nothing], 0.0, bits) {
      OneSum(Nothing, bits);
      assert Whole(0.0);
    }
  }

  lemma PhaseControls(reg: Registry, pi: real, phi: real, n: nat, ctrl: nat, t: nat)
    requires pi != 0.0 && ListsPhaseGates(reg) && ctrl < n && t < n && ctrl != t
    ensures Controls(n, ctrl, ActionsOf(reg, pi, Leaves(PhaseGadget(phi, Int(ctrl), Int(t)))),
                     [OnOne(false, 0.0, Turns(pi, phi), t)], -(Turns(pi, phi) / 4.0))
  {
    hide Controls, Turns, LeafAction;
    var (u, w) := (Turns(pi, phi), Turns(pi, phi) / 4.0);
    GadgetLeaves(Unit, phi, ctrl, t);
    HalfTurns(pi, phi);
    assert -phi / 2.0 == -(phi / 2.0);
    RzTwists(reg, pi, phi / 2.0, ctrl);
    RzTwists(reg, pi, phi / 2.0, t);
    RzTwists(reg, pi, -(phi / 2.0), t);
    CnotFlips(reg, pi, ctrl, t);
    assert u / 2.0 / 2.0 == w && -(u / 2.0) / 2.0 == -w && 4.0 * w == u;
    var ls := [RzLeaf(phi / 2.0, ctrl), CnotLeaf(ctrl, t), RzLeaf(-phi / 2.0, t), CnotLeaf(ctrl, t), RzLeaf(phi / 2.0, t)];
    assert ActionsOf(reg, pi, ls) == [Twist(w, ctrl), Cnot(ctrl, t), Twist(-w, t), Cnot(ctrl, t), Twist(w, t)];
    PhasedControls(n, ctrl, t, w);
  }

  /** Control of `Rz` by a literal angle is exact. */
  lemma RzControls(c: Ctx, theta: Expr, n: nat, ctrl: nat, t: nat)
    requires c.ops.pi != 0.0 && ListsPhaseGates(c.reg) && IsLiteralAngle(theta)
    requires ctrl < n && t < n && ctrl != t
    ensures var r := ControlledRotation(c, "Rz", theta, Int(ctrl), Int(t));
            && r.Ok?
            && Controls(n, ctrl, ActionsOf(c.reg, c.ops.pi, Leaves(r.value)),
                        ActionsOf(c.reg, c.ops.pi, [Placed(App(Var("Rz"), theta), Int(t))]), 0.0)
  {
    hide Controls, Turns, LeafAction, Leaves;
    var (reg, pi, angle) := (c.reg, c.ops.pi, AngleOf(theta));
    var w := Turns(pi, angle) / 4.0;
    GadgetLeaves(Unit, angle, ctrl, t);
    HalfTurns(pi, angle);
    RzTwists(reg, pi, angle / 2.0, t);
    RzTwists(reg, pi, -(angle / 2.0), t);
    CnotFlips(reg, pi, ctrl, t);
    LiteralTwist(reg, pi, theta, t);
    var ls := [RzLeaf(angle / 2.0, t), CnotLeaf(ctrl, t), RzLeaf(-(angle / 2.0), t), CnotLeaf(ctrl, t)];
    assert Turns(pi, angle) / 2.0 / 2.0 == w && -(Turns(pi, angle) / 2.0) / 2.0 == -w && 2.0 * w == Turns(pi, angle) / 2.0;
    assert ActionsOf(reg, pi, ls) == [Twist(w, t), Cnot(ctrl, t), Twist(-w, t), Cnot(ctrl, t)];
    assert ActionsOf(reg, pi, [Placed(App(Var("Rz"), theta), Int(t))]) == [Twist(2.0 * w, t)];
    TwistedControls(n, ctrl, t, w);
  }

  lemma LiteralTwist(reg: Registry, pi: real, theta: Expr, t: nat)
    requires pi != 0.0
    ensures LeafAction(reg, pi, Placed(App(Var("Rz"), theta), Int(t))) == Twist(Turns(pi, AngleOf(theta)) / 2.0, t)
  {
  }
}
