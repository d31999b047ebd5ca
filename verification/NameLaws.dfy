/** The names that are left in a gate tree, where a later substitution could read them. */
module NameLaws {
  import opened Ast
  import opened Classical
  import opened GateTree
  import opened CircuitForms
  import opened Elaborate
  import opened RunLaws
  import opened EnvLaws

  /** The names in the arguments of a gate, its head left out. */
  function ArgNames(g: Expr): set<Name> {
    match g
    case App(f, x) => ArgNames(f) + Mentions(x)
    case _ => {}
  }

  /** Only `names` can be read when `controlled` takes the tree apart. */
  predicate Quiet(names: set<Name>, e: Expr) {
    match e
    case Compose(l, r) => Quiet(names, l) && Quiet(names, r)
    case Adjoint(x) => Quiet(names, x)
    case GateApp(g, _) => ArgNames(g) <= names
    case _ => Mentions(e) <= names
  }

  lemma {:induction false} ArgsMentioned(g: Expr)
    ensures ArgNames(g) <= Mentions(g)
  {
    if g.App? { ArgsMentioned(g.fn); }
  }

  lemma {:induction false} MentionedIsQuiet(names: set<Name>, e: Expr)
    requires Mentions(e) <= names
    ensures Quiet(names, e)
  {
    hide MentionsAll, MentionsArms, MentionsStmts;
    match e
    case Compose(l, r) => MentionedIsQuiet(names, l); MentionedIsQuiet(names, r);
    case Adjoint(x) => MentionedIsQuiet(names, x);
    case GateApp(g, _) => ArgsMentioned(g);
    case _ =>
  }

  lemma {:induction false} SpineArgNames(f: Expr, x: Expr)
    ensures MentionsAll(FlattenApp(f, x).1) <= ArgNames(f) + Mentions(x)
    decreases f
  {
    if f.App? {
      SpineArgNames(f.fn, f.arg);
      MentionsConcat(FlattenApp(f.fn, f.arg).1, [x]);
    }
    assert MentionsAll([x]) == Mentions(x) + MentionsAll([]);
  }

  // ── Tree builders add no name ──────────────────────────────────────────────

  lemma QuietEmpty(names: set<Name>)
    ensures Quiet(names, EMPTY)
  {
  }

  lemma QuietAppend(names: set<Name>, l: Expr, r: Expr)
    requires Quiet(names, l) && Quiet(names, r)
    ensures Quiet(names, Append(l, r)) && Quiet(names, ComposeNonempty(l, r))
  {
  }

  lemma {:induction false} QuietShift(names: set<Name>, t: Expr, k: int)
    requires IsGateTree(t) && Quiet(names, t)
    ensures Quiet(names, ShiftCircuit(t, k)) && Quiet(names, ShiftQubits(t, k))
  {
    if t.Compose? {
      QuietShift(names, t.lhs, k);
      QuietShift(names, t.rhs, k);
    }
  }

  lemma {:induction false} QuietRepeat(names: set<Name>, body: Expr, k: int, acc: Expr)
    requires Quiet(names, body) && Quiet(names, acc)
    ensures Quiet(names, Repeat(body, k, acc))
    decreases k
  {
    hide Append, Quiet;
    if k > 0 {
      QuietAppend(names, acc, body);
      QuietRepeat(names, body, k - 1, Append(acc, body));
    }
  }

  lemma {:induction false} QuietCopies(names: set<Name>, t: Expr, width: nat, i: int, k: int, acc: Expr)
    requires IsGateTree(t) && IsGateTree(acc) && Quiet(names, t) && Quiet(names, acc)
    ensures Quiet(names, ParCopies(t, width, i, k, acc))
    decreases k - i
  {
    hide ComposeNonempty, Quiet, ShiftCircuit, IsGateTree;
    if i < k {
      QuietShift(names, t, i * width);
      QuietAppend(names, acc, ShiftCircuit(t, i * width));
      QuietCopies(names, t, width, i + 1, k, ComposeNonempty(acc, ShiftCircuit(t, i * width)));
    }
  }

  lemma {:induction false} QuietSwaps(names: set<Name>, n: int, i: nat, acc: Expr)
    requires IsGateTree(acc) && Quiet(names, acc)
    ensures Quiet(names, SwapSteps(n, i, acc))
    decreases TruncDiv(n, 2) - i
  {
    hide Append, Quiet, IsGateTree, TruncDiv;
    if i < TruncDiv(n, 2) {
      var step := Gate("SWAP", Pair(Int(i), Int(n - 1 - i)));
      QuietGate(names, step);
      QuietAppend(names, acc, step);
      QuietSwaps(names, n, i + 1, Append(acc, step));
    }
  }

  lemma QuietGate(names: set<Name>, t: Expr)
    requires t.GateApp? && t.gate.Var?
    ensures Quiet(names, t) && IsGateTree(t)
  {
  }

  lemma QuietRotation(names: set<Name>, axis: Name, angle: Expr, q: Expr)
    requires Mentions(angle) <= names
    ensures Quiet(names, Rotation(axis, angle, q))
  {
  }

  lemma InvertedNames(reg: Registry, g: Expr)
    ensures InvertGate(reg, g).Ok? ==> ArgNames(InvertGate(reg, g).value) == {}
  {
    hide InverseName, AngleOf, FlattenApp;
  }

  lemma {:induction false} QuietInvertOnto(names: set<Name>, reg: Registry, ps: seq<Placement>, acc: Option<Expr>)
    requires acc.Some? ==> Quiet(names, acc.value)
    ensures var r := InvertOnto(reg, ps, acc); r.Ok? && r.value.Some? ==> Quiet(names, r.value.value)
    decreases |ps|
  {
    hide InvertGate;
    if ps != [] {
      var last := ps[|ps| - 1];
      var gate := InvertGate(reg, last.gate);
      if gate.Ok? {
        var step := GateApp(gate.value, last.qubits);
        InvertedNames(reg, last.gate);
        QuietInvertOnto(names, reg, ps[..|ps| - 1], Some(if acc.None? then step else Compose(acc.value, step)));
      }
    }
  }

  lemma QuietInverse(names: set<Name>, reg: Registry, t: Expr)
    ensures ReverseAndInvert(reg, t).Ok? ==> Quiet(names, ReverseAndInvert(reg, t).value)
  {
    hide InvertOnto;
    if !IsEmpty(t) && Collect(t).Ok? { QuietInvertOnto(names, reg, Collect(t).value, None); }
    QuietEmpty(names);
  }

  // ── Gadgets ────────────────────────────────────────────────────────────────

  lemma {:induction false} QuietOnto(names: set<Name>, acc: Expr, steps: seq<Expr>)
    requires Quiet(names, acc) && forall i | 0 <= i < |steps| :: Quiet(names, steps[i])
    ensures Quiet(names, ComposeOnto(acc, steps))
    decreases |steps|
  {
    if steps != [] { QuietOnto(names, Compose(acc, steps[0]), steps[1..]); }
  }

  lemma QuietRzz(names: set<Name>, angle: Expr, q0: Expr, q1: Expr)
    requires Mentions(angle) <= names
    ensures Quiet(names, RzzGadget(angle, q0, q1))
  {
    hide ComposeOnto, Mentions;
    var steps := [Gate("CNOT", Pair(q0, q1)), Rotation("Rz", angle, q1), Gate("CNOT", Pair(q0, q1))];
    QuietRotation(names, "Rz", angle, q1);
    QuietOnto(names, steps[0], steps[1..]);
  }

  lemma QuietRotationGadget(names: set<Name>, axis: Name, theta: real, control: Expr, target: Expr)
    ensures Quiet(names, RotationGadget(axis, theta, control, target))
  {
    hide ComposeOnto;
    var cnot := Gate("CNOT", Pair(control, target));
    var steps := [Rotation(axis, Float(theta / 2.0), target), cnot, Rotation(axis, Float(-(theta / 2.0)), target), cnot];
    QuietOnto(names, steps[0], steps[1..]);
  }

  lemma QuietRx(names: set<Name>, theta: real, control: Expr, target: Expr)
    ensures Quiet(names, RxGadget(theta, control, target))
  {
    hide ComposeOnto, RotationGadget;
    QuietRotationGadget(names, "Rz", theta, control, target);
    var steps := [Gate("H", target), RotationGadget("Rz", theta, control, target), Gate("H", target)];
    QuietOnto(names, steps[0], steps[1..]);
  }

  lemma QuietPhase(names: set<Name>, phi: real, control: Expr, target: Expr)
    ensures Quiet(names, PhaseGadget(phi, control, target))
  {
    hide ComposeOnto;
    var cnot := Gate("CNOT", Pair(control, target));
    var steps := [Rotation("Rz", Float(phi / 2.0), control), cnot, Rotation("Rz", Float(-phi / 2.0), target), cnot,
                  Rotation("Rz", Float(phi / 2.0), target)];
    QuietOnto(names, steps[0], steps[1..]);
  }

  lemma QuietHadamard(names: set<Name>, control: Expr, target: Expr)
    ensures Quiet(names, HadamardGadget(control, target))
  {
    hide ComposeOnto;
    var steps := [Gate("S", target), Gate("H", target), Gate("T", target), Gate("CNOT", Pair(control, target)),
                  Gate("T_dag", target), Gate("H", target), Gate("S_dag", target)];
    QuietOnto(names, steps[0], steps[1..]);
  }

  /** The gadgets of a controlled gate hold no name but those of gates. */
  lemma QuietControlled(names: set<Name>, c: Ctx, name: Name, angle: Option<Expr>, control: Expr, target: Expr)
    ensures var r := ControlledGate(c, name, angle, control, target); r.Ok? ==> Quiet(names, r.value)
  {
    hide ControlledFixed, ControlledRotation, Quiet;
    var t := SingletonTarget(target);
    QuietFixed(names, c, name, control, t);
    if angle.Some? { QuietAngle(names, c, name, angle.value, control, t); }
  }

  lemma QuietFixed(names: set<Name>, c: Ctx, name: Name, control: Expr, t: Expr)
    ensures var r := ControlledFixed(c, name, control, t); r.Ok? ==> Quiet(names, r.value)
  {
    hide ControlledFixed, Quiet;
    if name == "S" || name == "S_dag" || name == "T" || name == "T_dag" { QuietPhases(names, c, name, control, t); }
    else if name == "SX" || name == "SX_dag" { QuietRoots(names, c, name, control, t); }
    else { QuietOthers(names, c, name, control, t); }
  }

  lemma QuietPhases(names: set<Name>, c: Ctx, name: Name, control: Expr, t: Expr)
    requires name == "S" || name == "S_dag" || name == "T" || name == "T_dag"
    ensures var r := ControlledFixed(c, name, control, t); r.Ok? ==> Quiet(names, r.value)
  {
    hide PhaseGadget, Quiet;
    var pi := c.ops.pi;
    QuietPhase(names, if name == "S" then pi / 2.0 else if name == "S_dag" then -pi / 2.0
                      else if name == "T" then pi / 4.0 else -pi / 4.0, control, t);
  }

  lemma QuietRoots(names: set<Name>, c: Ctx, name: Name, control: Expr, t: Expr)
    requires name == "SX" || name == "SX_dag"
    ensures var r := ControlledFixed(c, name, control, t); r.Ok? ==> Quiet(names, r.value)
  {
    hide RxGadget, Quiet;
    QuietRx(names, if name == "SX" then c.ops.pi / 2.0 else -c.ops.pi / 2.0, control, t);
  }

  lemma QuietOthers(names: set<Name>, c: Ctx, name: Name, control: Expr, t: Expr)
    requires !(name == "S" || name == "S_dag" || name == "T" || name == "T_dag" || name == "SX" || name == "SX_dag")
    ensures var r := ControlledFixed(c, name, control, t); r.Ok? ==> Quiet(names, r.value)
  {
    hide PhaseGadget, RxGadget, HadamardGadget, UnknownControlled, Quiet;
    QuietHadamard(names, control, t);
    QuietEmpty(names);
    QuietGate(names, Gate("CNOT", Pair(control, t)));
    QuietGate(names, Gate("CY", Pair(control, t)));
    QuietGate(names, Gate("CZ", Pair(control, t)));
  }

  lemma QuietAngle(names: set<Name>, c: Ctx, name: Name, theta: Expr, control: Expr, t: Expr)
    ensures var r := ControlledRotation(c, name, theta, control, t); r.Ok? ==> Quiet(names, r.value)
  {
    hide RotationGadget, RxGadget, UnknownControlled;
    QuietRotationGadget(names, "Rz", AngleOf(theta), control, t);
    QuietRotationGadget(names, "Ry", AngleOf(theta), control, t);
    QuietRx(names, AngleOf(theta), control, t);
  }
}
