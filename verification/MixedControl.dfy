/** Control of the gates that mix basis states, in the exact amplitude semantics: the Hadamard gate, the
    rotations about X and Y, and the square roots of X. */
module MixedControl {
  import opened Ast
  import opened Classical
  import opened GateTree
  import opened CircuitForms
  import opened Meaning
  import RunLaws
  import opened Gadgets
  import opened Amplitudes

  // ── The leaves of the gadgets ──────────────────────────────────────────────

  function SpinLeaves(axis: Name, theta: real, c: nat, t: nat): seq<Leaf> {
    [Turn(axis, theta / 2.0, t), CnotLeaf(c, t), Turn(axis, -(theta / 2.0), t), CnotLeaf(c, t)]
  }

  function HadamardLeaves(c: nat, t: nat): seq<Leaf> {
    [Named("S", t), Named("H", t), Named("T", t), CnotLeaf(c, t), Named("T_dag", t), Named("H", t), Named("S_dag", t)]
  }

  lemma SpinGadget(axis: Name, theta: real, c: nat, t: nat)
    ensures Leaves(RotationGadget(axis, theta, Int(c), Int(t))) == SpinLeaves(axis, theta, c, t)
  {
    var cnot := Gate("CNOT", CircuitForms.Pair(Int(c), Int(t)));
    StepsLeaves([Rotation(axis, Float(theta / 2.0), Int(t)), cnot, Rotation(axis, Float(-(theta / 2.0)), Int(t)), cnot]);
  }

  lemma HadamardGadgetLeaves(c: nat, t: nat)
    ensures Leaves(HadamardGadget(Int(c), Int(t))) == HadamardLeaves(c, t)
  {
    StepsLeaves([Gate("S", Int(t)), Gate("H", Int(t)), Gate("T", Int(t)), Gate("CNOT", CircuitForms.Pair(Int(c), Int(t))),
                 Gate("T_dag", Int(t)), Gate("H", Int(t)), Gate("S_dag", Int(t))]);
  }

  function RxLeaves(theta: real, c: nat, t: nat): seq<Leaf> {
    [Named("H", t)] + SpinLeaves("Rz", theta, c, t) + [Named("H", t)]
  }

  lemma RxGadgetLeaves(theta: real, c: nat, t: nat)
    ensures Leaves(RxGadget(theta, Int(c), Int(t))) == RxLeaves(theta, c, t)
  {
    hide RotationGadget, SpinLeaves, ComposeOnto;
    SpinGadget("Rz", theta, c, t);
    var (h, spin) := (Gate("H", Int(t)), RotationGadget("Rz", theta, Int(c), Int(t)));
    assert [h, spin, h][1..] == [spin, h] && [spin, h][1..] == [h] && [h][1..] == [];
    RunLaws.LeavesOnto(h, [spin, h]);
    assert RunLaws.LeavesOfAll([h]) == Leaves(h) + [] && RunLaws.LeavesOfAll([spin, h]) == Leaves(spin) + RunLaws.LeavesOfAll([h]);
  }

  /** What `controlled` makes of each gate. */
  lemma RotationTree(c: Ctx, name: Name, theta: Expr, ctrl: nat, t: nat)
    requires name in {"Rx", "Ry", "Rz"} && IsLiteralAngle(theta)
    ensures var r := ControlledGate(c, name, Some(theta), Int(ctrl), Int(t));
            r.Ok? && Leaves(r.value) ==
              if name == "Rx" then RxLeaves(AngleOf(theta), ctrl, t) else SpinLeaves(name, AngleOf(theta), ctrl, t)
  {
    hide Leaves, RxGadget, RotationGadget, RxLeaves, SpinLeaves;
    RxGadgetLeaves(AngleOf(theta), ctrl, t);
    SpinGadget(name, AngleOf(theta), ctrl, t);
  }

  lemma RootTree(c: Ctx, name: Name, ctrl: nat, t: nat)
    requires name in {"H", "SX", "SX_dag"}
    ensures var r := ControlledGate(c, name, None, Int(ctrl), Int(t));
            r.Ok? && Leaves(r.value) ==
              if name == "H" then HadamardLeaves(ctrl, t)
              else RxLeaves(if name == "SX" then c.ops.pi / 2.0 else -c.ops.pi / 2.0, ctrl, t)
  {
    hide Leaves, RxGadget, HadamardGadget, PhaseGadget, RxLeaves, HadamardLeaves;
    HadamardGadgetLeaves(ctrl, t);
    RxGadgetLeaves(c.ops.pi / 2.0, ctrl, t);
    RxGadgetLeaves(-c.ops.pi / 2.0, ctrl, t);
  }

  // ── What they do to a pair ─────────────────────────────────────────────────

  lemma SpinPair(k: Circle, axis: Name, theta: real, before: seq<Leaf>, psi: State, bits: seq<bool>, c: nat, t: nat)
    requires Round(k) && (axis == "Rz" || axis == "Ry") && c < |bits| && t < |bits| && c != t
    ensures PairAt(k, before + SpinLeaves(axis, theta, c, t), psi, bits, t) ==
              var p := PairAt(k, before, psi, bits, t); if bits[c] then Acts(M(k, Spin(axis, theta)), p) else p
  {
    hide Acts, M, PairAt, Round;
    var p := PairAt(k, before, psi, bits, t);
    var l1 := before + [Turn(axis, theta / 2.0, t)];
    var l2 := l1 + [CnotLeaf(c, t)];
    var l3 := l2 + [Turn(axis, -(theta / 2.0), t)];
    assert before + SpinLeaves(axis, theta, c, t) == l3 + [CnotLeaf(c, t)];
    MatrixGiven(k, Spin(axis, theta / 2.0));
    MatrixGiven(k, Spin(axis, -(theta / 2.0)));
    GateOnPair(k, before, Spin(axis, theta / 2.0), psi, bits, t);
    CnotOnPair(k, l1, psi, bits, c, t);
    GateOnPair(k, l2, Spin(axis, -(theta / 2.0)), psi, bits, t);
    CnotOnPair(k, l3, psi, bits, c, t);
    SpinTwisted(k, axis, theta, p);
  }

  lemma MatrixGiven(k: Circle, gate: Expr)
    requires gate in {Var("H"), Var("S"), Var("S_dag"), Var("T"), Var("T_dag"), Var("SX"), Var("SX_dag")} ||
             (gate.App? && gate.fn in {Var("Rx"), Var("Ry"), Var("Rz")} && IsLiteralAngle(gate.arg))
    ensures MatrixOf(k, gate) == Some(M(k, gate))
  {
  }

  lemma HadamardPair(k: Circle, psi: State, bits: seq<bool>, c: nat, t: nat)
    requires Round(k) && c < |bits| && t < |bits| && c != t
    ensures PairAt(k, HadamardLeaves(c, t), psi, bits, t) ==
              var p := PairAt(k, [], psi, bits, t); if bits[c] then Acts(M(k, Var("H")), p) else p
  {
    hide Acts, M, PairAt, Round, MatrixOf;
    var p := PairAt(k, [], psi, bits, t);
    var l1 := [] + [Named("S", t)];
    var l2 := l1 + [Named("H", t)];
    var l3 := l2 + [Named("T", t)];
    var l4 := l3 + [CnotLeaf(c, t)];
    var l5 := l4 + [Named("T_dag", t)];
    var l6 := l5 + [Named("H", t)];
    assert HadamardLeaves(c, t) == l6 + [Named("S_dag", t)];
    MatrixGiven(k, Var("S"));
    MatrixGiven(k, Var("H"));
    MatrixGiven(k, Var("T"));
    MatrixGiven(k, Var("T_dag"));
    MatrixGiven(k, Var("S_dag"));
    GateOnPair(k, [], Var("S"), psi, bits, t);
    GateOnPair(k, l1, Var("H"), psi, bits, t);
    GateOnPair(k, l2, Var("T"), psi, bits, t);
    CnotOnPair(k, l3, psi, bits, c, t);
    GateOnPair(k, l4, Var("T_dag"), psi, bits, t);
    GateOnPair(k, l5, Var("H"), psi, bits, t);
    GateOnPair(k, l6, Var("S_dag"), psi, bits, t);
    HadamardFlipped(k, p);
    PhasesCancel(k, Acts(M(k, Var("H")), Acts(M(k, Var("S")), p)));
    HadamardTwice(k, Acts(M(k, Var("S")), p));
    PhasesCancel(k, p);
  }

  lemma RxPair(k: Circle, theta: real, psi: State, bits: seq<bool>, c: nat, t: nat)
    requires Round(k) && c < |bits| && t < |bits| && c != t
    ensures PairAt(k, RxLeaves(theta, c, t), psi, bits, t) ==
              var p := PairAt(k, [], psi, bits, t); if bits[c] then Acts(M(k, Spin("Rx", theta)), p) else p
  {
    hide Acts, M, PairAt, Round, MatrixOf, SpinLeaves;
    var p := PairAt(k, [], psi, bits, t);
    var l1 := [] + [Named("H", t)];
    var l2 := l1 + SpinLeaves("Rz", theta, c, t);
    assert RxLeaves(theta, c, t) == l2 + [Named("H", t)];
    MatrixGiven(k, Var("H"));
    GateOnPair(k, [], Var("H"), psi, bits, t);
    SpinPair(k, "Rz", theta, l1, psi, bits, c, t);
    GateOnPair(k, l2, Var("H"), psi, bits, t);
    SpinBetween(k, theta, p);
    HadamardTwice(k, p);
  }

  // ── Control ────────────────────────────────────────────────────────────────

  /** What the gadget of a gate gives the set control beside the gate. */
  function ExtraPhase(k: Circle, name: Name): Complex {
    if name == "SX" then Phasor(k, -(k.pi / 4.0)) else if name == "SX_dag" then Phasor(k, k.pi / 4.0) else ONE
  }

  lemma OneTimes(p: Two)
    ensures Scaled(ONE, p) == p
  {
  }

  /** Control of a rotation about any axis by a literal angle is exact. */
  lemma RotationsControlled(c: Ctx, k: Circle, name: Name, theta: Expr, ctrl: nat, t: nat)
    requires Round(k) && name in {"Rx", "Ry", "Rz"} && IsLiteralAngle(theta) && ctrl != t
    ensures var r := ControlledGate(c, name, Some(theta), Int(ctrl), Int(t));
            r.Ok? && ControlsGate(k, Leaves(r.value), App(Var(name), theta), ctrl, t, ONE)
  {
    hide *;
    var (angle, gate) := (AngleOf(theta), App(Var(name), theta));
    RotationTree(c, name, theta, ctrl, t);
    var ls := if name == "Rx" then RxLeaves(angle, ctrl, t) else SpinLeaves(name, angle, ctrl, t);
    SameSpin(k, name, theta);
    forall psi: State, bits: seq<bool> | ctrl < |bits| && t < |bits|
      ensures ControlsGateAt(k, ls, gate, ctrl, t, ONE, psi, bits)
    {
      if name == "Rx" {
        RxPair(k, angle, psi, bits, ctrl, t);
      } else {
        SpinPair(k, name, angle, [], psi, bits, ctrl, t);
        assert [] + SpinLeaves(name, angle, ctrl, t) == SpinLeaves(name, angle, ctrl, t);
      }
      OneTimes(Acts(M(k, gate), PairAt(k, [], psi, bits, t)));
      ByPairs(k, ls, gate, ctrl, t, ONE, psi, bits);
    }
    ControlsIs(k, ls, gate, ctrl, t, ONE);
  }

  lemma SameSpin(k: Circle, name: Name, theta: Expr)
    requires name in {"Rx", "Ry", "Rz"} && IsLiteralAngle(theta)
    ensures MatrixOf(k, App(Var(name), theta)) == Some(M(k, App(Var(name), theta)))
    ensures M(k, App(Var(name), theta)) == M(k, Spin(name, AngleOf(theta)))
  {
  }

  lemma ControlsIs(k: Circle, ls: seq<Leaf>, gate: Expr, c: nat, t: nat, high: Complex)
    requires forall psi: State, bits: seq<bool> | c < |bits| && t < |bits| :: ControlsGateAt(k, ls, gate, c, t, high, psi, bits)
    ensures ControlsGate(k, ls, gate, c, t, high)
  {
    hide ControlsGateAt;
  }

  /** Control of the Hadamard gate is exact; control of a square root of X does it, and gives the set control
      an eighth of a turn besides. */
  lemma RootsControlled(c: Ctx, k: Circle, name: Name, ctrl: nat, t: nat)
    requires Round(k) && k.pi == c.ops.pi && name in {"H", "SX", "SX_dag"} && ctrl != t
    ensures var r := ControlledGate(c, name, None, Int(ctrl), Int(t));
            r.Ok? && ControlsGate(k, Leaves(r.value), Var(name), ctrl, t, ExtraPhase(k, name))
  {
    hide *;
    var theta := if name == "SX" then k.pi / 2.0 else -k.pi / 2.0;
    RootTree(c, name, ctrl, t);
    var ls := if name == "H" then HadamardLeaves(ctrl, t) else RxLeaves(theta, ctrl, t);
    MatrixGiven(k, Var(name));
    forall psi: State, bits: seq<bool> | ctrl < |bits| && t < |bits|
      ensures ControlsGateAt(k, ls, Var(name), ctrl, t, ExtraPhase(k, name), psi, bits)
    {
      var p := PairAt(k, [], psi, bits, t);
      RootPhase(k, name, Acts(M(k, Var(name)), p));
      if name == "H" {
        HadamardPair(k, psi, bits, ctrl, t);
      } else {
        RxPair(k, theta, psi, bits, ctrl, t);
        RootIsTurn(k, p);
      }
      ByPairs(k, ls, Var(name), ctrl, t, ExtraPhase(k, name), psi, bits);
    }
    ControlsIs(k, ls, Var(name), ctrl, t, ExtraPhase(k, name));
  }

  lemma RootPhase(k: Circle, name: Name, p: Two)
    ensures name == "H" ==> Scaled(ExtraPhase(k, name), p) == p
    ensures name == "SX" ==> ExtraPhase(k, name) == Phasor(k, -(k.pi / 4.0))
    ensures name == "SX_dag" ==> ExtraPhase(k, name) == Phasor(k, k.pi / 4.0)
  {
    hide Phasor;
    OneTimes(p);
  }

  /** On registers that have both wires the gates do what `gate` does on the target exactly where the control
      is set, up to one phase for all states. */
  ghost predicate ControlsUpToPhase(k: Circle, ls: seq<Leaf>, gate: Expr, c: nat, t: nat) {
    exists z: Complex :: ControlsTurned(k, ls, gate, c, t, z)
  }

  ghost predicate ControlsTurned(k: Circle, ls: seq<Leaf>, gate: Expr, c: nat, t: nat, z: Complex) {
    forall psi: State, bits: seq<bool> | c < |bits| && t < |bits| :: TurnedAt(k, ls, gate, c, t, z, psi, bits)
  }

  predicate TurnedAt(k: Circle, ls: seq<Leaf>, gate: Expr, c: nat, t: nat, z: Complex, psi: State, bits: seq<bool>)
    requires c < |bits|
  {
    After(k, ls, psi, bits) == Times(z, if bits[c] then After(k, [Placed(gate, Int(t))], psi, bits) else psi(bits))
  }

  /** So `controlled` is right on the Hadamard gate and on neither square root of X. */
  lemma RootsAreTurned(c: Ctx, k: Circle, name: Name, ctrl: nat, t: nat)
    requires Round(k) && k.pi == c.ops.pi && name in {"H", "SX", "SX_dag"} && ctrl != t
    ensures var r := ControlledGate(c, name, None, Int(ctrl), Int(t));
            r.Ok? && (ControlsUpToPhase(k, Leaves(r.value), Var(name), ctrl, t) <==> name == "H")
  {
    hide *;
    RootsControlled(c, k, name, ctrl, t);
    var ls := Leaves(ControlledGate(c, name, None, Int(ctrl), Int(t)).value);
    if name == "H" {
      ExactIsTurned(k, ls, Var(name), ctrl, t);
    } else if ControlsUpToPhase(k, ls, Var(name), ctrl, t) {
      OnlyOnePhase(k, ls, name, ctrl, t, ExtraPhase(k, name));
      ExtraIsNotOne(k, name);
    }
  }

  lemma ExactIsTurned(k: Circle, ls: seq<Leaf>, gate: Expr, c: nat, t: nat)
    requires ControlsGate(k, ls, gate, c, t, ExtraPhase(k, "H"))
    ensures ControlsUpToPhase(k, ls, gate, c, t)
  {
    hide After, Phasor;
    forall psi: State, bits: seq<bool> | c < |bits| && t < |bits| ensures TurnedAt(k, ls, gate, c, t, ONE, psi, bits) {
      assert ControlsGateAt(k, ls, gate, c, t, ONE, psi, bits);
    }
    assert ControlsTurned(k, ls, gate, c, t, ONE);
  }

  /** The state in which every amplitude is one tells the phase at the set control from the one at the clear. */
  lemma OnlyOnePhase(k: Circle, ls: seq<Leaf>, name: Name, c: nat, t: nat, high: Complex)
    requires name in {"SX", "SX_dag"} && c != t
    requires ControlsGate(k, ls, Var(name), c, t, high) && ControlsUpToPhase(k, ls, Var(name), c, t)
    ensures high == ONE
  {
    hide After, Times;
    var z :| ControlsTurned(k, ls, Var(name), c, t, z);
    var psi: State := bits => ONE;
    var clear := seq(c + t + 1, i => false);
    var raised := clear[c := true];
    assert ControlsGateAt(k, ls, Var(name), c, t, high, psi, clear);
    assert TurnedAt(k, ls, Var(name), c, t, z, psi, clear);
    assert ControlsGateAt(k, ls, Var(name), c, t, high, psi, raised);
    assert TurnedAt(k, ls, Var(name), c, t, z, psi, raised);
    RootOfFlat(k, name, t, psi, raised);
    TimesOne(z);
    TimesOne(high);
  }

  lemma TimesOne(z: Complex)
    ensures Times(z, ONE) == z
  {
  }

  /** A square root of X leaves the state alone in which every amplitude is one. */
  lemma RootOfFlat(k: Circle, name: Name, t: nat, psi: State, bits: seq<bool>)
    requires name in {"SX", "SX_dag"} && t < |bits| && forall b :: psi(b) == ONE
    ensures After(k, [Placed(Var(name), Int(t))], psi, bits) == ONE
  {
    hide Acts, M, MatrixOf;
    var ls := [Placed(Var(name), Int(t))];
    assert [] + ls == ls;
    MatrixGiven(k, Var(name));
    GateOnPair(k, [], Var(name), psi, bits, t);
    assert PairAt(k, [], psi, bits, t) == Parts(1.0, 0.0, 1.0, 0.0);
    SquareRoots(k, 1.0, 0.0, 1.0, 0.0);
    assert PairAt(k, ls, psi, bits, t) == Parts(1.0, 0.0, 1.0, 0.0);
    if bits[t] { assert bits[t := true] == bits; } else { assert bits[t := false] == bits; }
  }

  lemma ExtraIsNotOne(k: Circle, name: Name)
    requires Round(k) && name in {"SX", "SX_dag"}
    ensures ExtraPhase(k, name) != ONE
  {
    assert Mirrors(k, k.pi / 4.0);
  }
}
