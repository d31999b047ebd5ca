/** Laws of running gate sequences: concatenation, shifting, adjoint, and the wires touched. */
module RunLaws {
  import opened Ast
  import opened Classical
  import opened GateTree
  import opened CircuitForms
  import opened Elaborate
  import opened Meaning

  lemma {:induction false} RunConcat<S>(m: Model<S>, a: seq<Leaf>, b: seq<Leaf>, fwd: bool, off: int, s: S)
    ensures fwd ==> Run(m, a + b, fwd, off, s) == Run(m, b, fwd, off, Run(m, a, fwd, off, s))
    ensures !fwd ==> Run(m, a + b, fwd, off, s) == Run(m, a, fwd, off, Run(m, b, fwd, off, s))
  {
    if a == [] {
      assert a + b == b;
    } else {
      assert (a + b)[1..] == a[1..] + b;
      RunConcat(m, a[1..], b, fwd, off, if fwd then Step(m, ShiftLeaf(a[0], off), fwd, s) else s);
    }
  }

  lemma ShiftTargetsTwice(q: Expr, j: int, k: int)
    ensures ShiftTargets(ShiftTargets(q, j), k) == ShiftTargets(q, j + k)
    ensures ShiftTargets(q, 0) == q
  {
    if q.Tuple? {
      forall i | 0 <= i < |q.items|
        ensures ShiftTargets(ShiftTargets(q.items[i], j), k) == ShiftTargets(q.items[i], j + k)
        ensures ShiftTargets(q.items[i], 0) == q.items[i]
      {
        ShiftTargetsTwice(q.items[i], j, k);
      }
    }
  }

  function ShiftAll(ls: seq<Leaf>, k: int): (r: seq<Leaf>)
    ensures |r| == |ls|
  {
    if ls == [] then [] else [ShiftLeaf(ls[0], k)] + ShiftAll(ls[1..], k)
  }

  lemma {:induction false} ShiftAllConcat(a: seq<Leaf>, b: seq<Leaf>, k: int)
    ensures ShiftAll(a + b, k) == ShiftAll(a, k) + ShiftAll(b, k)
  {
    if a == [] {
      assert a + b == b;
    } else {
      assert (a + b)[1..] == a[1..] + b;
      ShiftAllConcat(a[1..], b, k);
    }
  }

  /** Running a shifted sequence is running the sequence further along. */
  lemma {:induction false} RunShifted<S>(m: Model<S>, ls: seq<Leaf>, k: int, fwd: bool, off: int, s: S)
    ensures Run(m, ShiftAll(ls, k), fwd, off, s) == Run(m, ls, fwd, off + k, s)
  {
    if ls != [] {
      var shifted := ShiftAll(ls, k);
      assert shifted[0] == ShiftLeaf(ls[0], k) && shifted[1..] == ShiftAll(ls[1..], k);
      if ls[0].Placed? { ShiftTargetsTwice(ls[0].qubits, k, off); }
      assert ShiftLeaf(shifted[0], off) == ShiftLeaf(ls[0], off + k);
      RunShifted(m, ls[1..], k, fwd, off, if fwd then Step(m, ShiftLeaf(ls[0], off + k), fwd, s) else s);
    }
  }

  /** Both shifting passes move exactly the placed gates. */
  lemma {:induction false} LeavesShifted(t: Expr, k: int)
    requires IsGateTree(t)
    ensures Leaves(ShiftQubits(t, k)) == ShiftAll(Leaves(t), k)
    ensures ShiftCircuit(t, k) == ShiftQubits(t, k)
  {
    if t.Compose? {
      LeavesShifted(t.lhs, k);
      LeavesShifted(t.rhs, k);
      ShiftAllConcat(Leaves(t.lhs), Leaves(t.rhs), k);
    }
  }

  lemma RunShiftedTree<S>(m: Model<S>, t: Expr, k: int, fwd: bool, off: int, s: S)
    requires IsGateTree(t)
    ensures Run(m, Leaves(ShiftQubits(t, k)), fwd, off, s) == Run(m, Leaves(t), fwd, off + k, s)
    ensures Run(m, Leaves(ShiftCircuit(t, k)), fwd, off, s) == Run(m, Leaves(t), fwd, off + k, s)
  {
    LeavesShifted(t, k);
    RunShifted(m, Leaves(t), k, fwd, off, s);
  }

  lemma LeavesNonempty(l: Expr, r: Expr)
    ensures Leaves(ComposeNonempty(l, r)) == Leaves(l) + Leaves(r)
    ensures Leaves(Append(l, r)) == Leaves(l) + Leaves(r)
  {
  }

  lemma {:induction false} LeavesOnto(acc: Expr, steps: seq<Expr>)
    ensures Leaves(ComposeOnto(acc, steps)) == Leaves(acc) + LeavesOfAll(steps)
    decreases |steps|
  {
    if steps != [] { LeavesOnto(Compose(acc, steps[0]), steps[1..]); }
  }

  function LeavesOfAll(steps: seq<Expr>): seq<Leaf> {
    if steps == [] then [] else Leaves(steps[0]) + LeavesOfAll(steps[1..])
  }

  // ── Adjoint ────────────────────────────────────────────────────────────────

  function Placements(ps: seq<Placement>): (ls: seq<Leaf>)
    ensures |ls| == |ps|
  {
    if ps == [] then [] else [Placed(ps[0].gate, ps[0].qubits)] + Placements(ps[1..])
  }

  lemma {:induction false} PlacementsConcat(a: seq<Placement>, b: seq<Placement>)
    ensures Placements(a + b) == Placements(a) + Placements(b)
  {
    if a == [] {
      assert a + b == b;
    } else {
      assert (a + b)[1..] == a[1..] + b;
      PlacementsConcat(a[1..], b);
    }
  }

  /** Where `collect_gate_placements` succeeds, it lists exactly the leaves. */
  lemma {:induction false} CollectIsLeaves(t: Expr)
    ensures Collect(t).Ok? ==> Leaves(t) == Placements(Collect(t).value)
  {
    hide Placements, FlattenApp;
    if t.Compose? {
      CollectIsLeaves(t.lhs);
      CollectIsLeaves(t.rhs);
      if Collect(t).Ok? { PlacementsConcat(Collect(t.lhs).value, Collect(t.rhs).value); }
    } else if t.CircuitBlock? && |t.stmts| > 0 && t.stmts[|t.stmts| - 1].SExpr? {
      CollectIsLeaves(t.stmts[|t.stmts| - 1].e);
    } else if Collect(t).Ok? {
      CollectOne(t);
    }
  }

  lemma CollectOne(t: Expr)
    requires Collect(t).Ok? && !t.Compose?
    requires t.CircuitBlock? ==> |t.stmts| == 0 || !t.stmts[|t.stmts| - 1].SExpr?
    ensures Leaves(t) == Placements(Collect(t).value)
  {
  }

  /** The leaves of an optional tree; `None` is the empty circuit. */
  function OptionLeaves(t: Option<Expr>): seq<Leaf> {
    match t
    case Some(e) => Leaves(e)
    case None => []
  }

  lemma {:induction false} InvertOntoLeaves(reg: Registry, ps: seq<Placement>, acc: Option<Expr>)
    ensures InvertOnto(reg, ps, acc).Ok? <==> InvertOnto(reg, ps, None).Ok?
    ensures InvertOnto(reg, ps, acc).Ok? ==>
              OptionLeaves(InvertOnto(reg, ps, acc).value) == OptionLeaves(acc) + OptionLeaves(InvertOnto(reg, ps, None).value)
    decreases |ps|
  {
    if ps != [] && InvertGate(reg, ps[|ps| - 1].gate).Ok? {
      var last, init := ps[|ps| - 1], ps[..|ps| - 1];
      var step := GateApp(InvertGate(reg, last.gate).value, last.qubits);
      var next := Some(if acc.None? then step else Compose(acc.value, step));
      InvertOntoLeaves(reg, init, next);
      InvertOntoLeaves(reg, init, Some(step));
      assert OptionLeaves(next) == OptionLeaves(acc) + Leaves(step);
    }
  }

  /** Running the inverted sequence is running the sequence the other way. */
  lemma {:induction false} RunInverted<S(!new)>(reg: Registry, m: Model<S>, ps: seq<Placement>, fwd: bool, off: int, s: S)
    requires InverseLaw(reg, m)
    requires InvertOnto(reg, ps, None).Ok?
    ensures Run(m, OptionLeaves(InvertOnto(reg, ps, None).value), fwd, off, s) == Run(m, Placements(ps), !fwd, off, s)
    decreases |ps|
  {
    if ps != [] {
      var last, init := ps[|ps| - 1], ps[..|ps| - 1];
      var gate := InvertGate(reg, last.gate).value;
      var step := GateApp(gate, last.qubits);
      InvertOntoLeaves(reg, init, Some(step));
      var inv := OptionLeaves(InvertOnto(reg, init, None).value);
      assert OptionLeaves(InvertOnto(reg, ps, None).value) == [Placed(gate, last.qubits)] + inv;
      assert ps == init + [last];
      PlacementsConcat(init, [last]);
      var one := [Placed(last.gate, last.qubits)];
      assert Placements([last]) == one;
      RunConcat(m, Placements(init), one, !fwd, off, s);
      RunConcat(m, [Placed(gate, last.qubits)], inv, fwd, off, s);
      var q := ShiftTargets(last.qubits, off);
      var mid := if fwd then m.unact(Placed(last.gate, q), s) else Run(m, inv, fwd, off, s);
      RunInverted(reg, m, init, fwd, off, if fwd then mid else s);
      assert InverseAt(reg, m, last.gate, q, s) && InverseAt(reg, m, last.gate, q, mid);
    }
  }

  lemma RunAdjoint<S(!new)>(reg: Registry, m: Model<S>, t: Expr, fwd: bool, off: int, s: S)
    requires InverseLaw(reg, m)
    requires ReverseAndInvert(reg, t).Ok?
    ensures Run(m, Leaves(ReverseAndInvert(reg, t).value), fwd, off, s) == Run(m, Leaves(t), !fwd, off, s)
  {
    if !IsEmpty(t) {
      CollectIsLeaves(t);
      RunInverted(reg, m, Collect(t).value, fwd, off, s);
    }
  }

  // ── Wires touched ──────────────────────────────────────────────────────────

  function Touched(ls: seq<Leaf>): set<nat> {
    if ls == [] then {} else (set q | q in LeafTargets(ls[0])) + Touched(ls[1..])
  }

  lemma {:induction false} TouchedConcat(a: seq<Leaf>, b: seq<Leaf>)
    ensures Touched(a + b) == Touched(a) + Touched(b)
  {
    if a == [] {
      assert a + b == b;
    } else {
      assert (a + b)[1..] == a[1..] + b;
      TouchedConcat(a[1..], b);
    }
  }

  lemma {:induction false} RunRecorder(ls: seq<Leaf>, s: set<nat>)
    ensures Run(Recorder(), ls, true, 0, s) == s + Touched(ls)
  {
    if ls != [] {
      if ls[0].Placed? { ShiftTargetsTwice(ls[0].qubits, 0, 0); }
      assert ShiftLeaf(ls[0], 0) == ls[0];
      RunRecorder(ls[1..], Record(ls[0], s));
    }
  }

  /** Inverting a gate does not move it. */
  lemma RecorderInverse(reg: Registry)
    ensures InverseLaw(reg, Recorder())
  {
    forall g, q, s: set<nat> ensures InverseAt(reg, Recorder(), g, q, s) { }
  }

  lemma {:induction false} MaxIndexIsMaximum(t: Expr)
    requires IsGateTree(t)
    ensures MaxQubitIndex(t).None? <==> Touched(Leaves(t)) == {}
    ensures MaxQubitIndex(t).Some? ==> MaxQubitIndex(t).value in Touched(Leaves(t))
    ensures MaxQubitIndex(t).Some? ==> forall q | q in Touched(Leaves(t)) :: q <= MaxQubitIndex(t).value
  {
    if t.Compose? {
      MaxIndexIsMaximum(t.lhs);
      MaxIndexIsMaximum(t.rhs);
      TouchedConcat(Leaves(t.lhs), Leaves(t.rhs));
    } else if t.GateApp? {
      var targets := QubitTargets(t.qubits);
      var touched := set x | x in targets;
      assert Touched(Leaves(t)) == touched;
      if targets != [] { assert targets[0] in touched; }
    } else {
      assert Touched(Leaves(t)) == {};
    }
  }

  /** The width read off a gate tree is the extent of the wires its meaning touches. */
  lemma WidthIsExtent(t: Expr)
    requires IsGateTree(t)
    ensures Extent(Run(Recorder(), Leaves(t), true, 0, {})) == Width(t)
    ensures Run(Recorder(), Leaves(t), true, 0, {}) == {} <==> MaxQubitIndex(t).None?
  {
    RunRecorder(Leaves(t), {});
    MaxIndexIsMaximum(t);
  }

  // ── Loops over trees ───────────────────────────────────────────────────────

  function Copies(ls: seq<Leaf>, w: nat, i: int, k: int): seq<Leaf>
    decreases k - i
  {
    if i >= k then [] else ShiftAll(ls, i * w) + Copies(ls, w, i + 1, k)
  }

  lemma {:induction false} ParCopiesLeaves(t: Expr, w: nat, i: int, k: int, acc: Expr)
    requires IsGateTree(t) && IsGateTree(acc)
    ensures Leaves(ParCopies(t, w, i, k, acc)) == Leaves(acc) + Copies(Leaves(t), w, i, k)
    decreases k - i
  {
    if i < k {
      var shifted := ShiftCircuit(t, i * w);
      LeavesShifted(t, i * w);
      LeavesNonempty(acc, shifted);
      ParCopiesLeaves(t, w, i + 1, k, ComposeNonempty(acc, shifted));
    }
  }

  function Times(ls: seq<Leaf>, k: int): seq<Leaf>
    decreases k
  {
    if k <= 0 then [] else ls + Times(ls, k - 1)
  }

  lemma {:induction false} RepeatLeaves(body: Expr, k: int, acc: Expr)
    ensures Leaves(Repeat(body, k, acc)) == Leaves(acc) + Times(Leaves(body), k)
    decreases k
  {
    if k > 0 {
      LeavesNonempty(acc, body);
      RepeatLeaves(body, k - 1, Append(acc, body));
    }
  }

  lemma {:induction false} SwapStepsLeaves(n: int, i: nat, acc: Expr)
    requires IsGateTree(acc)
    ensures i <= |Swaps(n)| ==> Leaves(SwapSteps(n, i, acc)) == Leaves(acc) + Swaps(n)[i..]
    decreases TruncDiv(n, 2) - i
  {
    if i < TruncDiv(n, 2) {
      var step := Gate("SWAP", CircuitForms.Pair(Int(i), Int(n - 1 - i)));
      LeavesNonempty(acc, step);
      SwapStepsLeaves(n, i + 1, Append(acc, step));
      assert Swaps(n)[i..] == [Placed(Var("SWAP"), CircuitForms.Pair(Int(i), Int(n - 1 - i)))] + Swaps(n)[i + 1..];
    }
  }

  /** `swap_reverse(n)` places the swaps of the mirrored pairs, in order. */
  lemma SwapReverseMeans(n: int)
    ensures Leaves(SwapReverse(n)) == Swaps(n)
  {
    SwapStepsLeaves(n, 0, EMPTY);
  }
}
