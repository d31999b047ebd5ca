/** Laws of elaborated gate trees: the empty sentinel, adjoints, disjoint wires, swap chains. */
module GateTreeLaws {
  import opened Ast
  import opened Classical
  import opened GateTree
  import opened CircuitForms
  import opened Elaborate
  import opened Meaning
  import opened RunLaws

  // ── The empty sentinel ─────────────────────────────────────────────────────

  /** A gate tree is the sentinel exactly when it places nothing, and `count_gates` counts placements. */
  lemma {:induction false} EmptyIffNoGates(t: Expr)
    requires IsGateTree(t) && Collect(t).Ok?
    ensures IsEmpty(t) <==> Collect(t).value == []
    ensures CountGates(t) == |Collect(t).value|
  {
    if t.Compose? {
      EmptyIffNoGates(t.lhs);
      EmptyIffNoGates(t.rhs);
    }
  }

  lemma {:induction false} InvertOntoPlaces(reg: Registry, ps: seq<Placement>, acc: Option<Expr>)
    requires InvertOnto(reg, ps, acc).Ok?
    ensures InvertOnto(reg, ps, acc).value.Some? <==> ps != [] || acc.Some?
    decreases |ps|
  {
    if ps != [] {
      var last := ps[|ps| - 1];
      var step := GateApp(InvertGate(reg, last.gate).value, last.qubits);
      InvertOntoPlaces(reg, ps[..|ps| - 1], Some(if acc.None? then step else Compose(acc.value, step)));
    }
  }

  lemma {:induction false} InvertOntoError(reg: Registry, ps: seq<Placement>, acc: Option<Expr>)
    requires InvertOnto(reg, ps, acc).Err?
    ensures exists i | 0 <= i < |ps| :: InvertGate(reg, ps[i].gate) == Err(InvertOnto(reg, ps, acc).error)
    decreases |ps|
  {
    var last := ps[|ps| - 1];
    if InvertGate(reg, last.gate).Ok? {
      var init := ps[..|ps| - 1];
      var step := GateApp(InvertGate(reg, last.gate).value, last.qubits);
      var next := Some(if acc.None? then step else Compose(acc.value, step));
      InvertOntoError(reg, init, next);
      var i :| 0 <= i < |init| && InvertGate(reg, init[i].gate) == Err(InvertOnto(reg, init, next).error);
      assert ps[i] == init[i];
    }
  }

  /** On what the elaborator builds, `reverse_and_invert` never reports an empty circuit: it fails
      exactly when the tree is no gate sequence or some gate has no inverse. */
  lemma AdjointNeverOfEmpty(reg: Registry, t: Expr)
    requires IsGateTree(t)
    ensures ReverseAndInvert(reg, t) != Err(Unsupported(AdjointOfEmpty))
    ensures ReverseAndInvert(reg, t).Ok? <==>
              Collect(t).Ok? && forall i | 0 <= i < |Collect(t).value| :: InvertGate(reg, Collect(t).value[i].gate).Ok?
  {
    if IsEmpty(t) {
      assert Collect(t) == Ok([]);
    } else if Collect(t).Ok? {
      var ps := Collect(t).value;
      EmptyIffNoGates(t);
      if InvertOnto(reg, ps, None).Ok? {
        InvertOntoPlaces(reg, ps, None);
        InvertOntoAll(reg, ps, None);
      } else {
        InvertOntoError(reg, ps, None);
      }
    } else {
      CollectError(t);
    }
  }

  lemma {:induction false} InvertOntoAll(reg: Registry, ps: seq<Placement>, acc: Option<Expr>)
    requires InvertOnto(reg, ps, acc).Ok?
    ensures forall i | 0 <= i < |ps| :: InvertGate(reg, ps[i].gate).Ok?
    decreases |ps|
  {
    if ps != [] {
      var last, init := ps[|ps| - 1], ps[..|ps| - 1];
      var step := GateApp(InvertGate(reg, last.gate).value, last.qubits);
      InvertOntoAll(reg, init, Some(if acc.None? then step else Compose(acc.value, step)));
      assert forall i | 0 <= i < |init| :: ps[i] == init[i];
    }
  }

  lemma {:induction false} CollectError(t: Expr)
    requires Collect(t).Err?
    ensures Collect(t) == Err(Unsupported(AdjointOfNonGates))
  {
    match t
    case Compose(l, r) => if Collect(l).Err? { CollectError(l); } else { CollectError(r); }
    case CircuitBlock(stmts) => CollectError(stmts[|stmts| - 1].e);
    case _ =>
  }

  // ── Adjoint ────────────────────────────────────────────────────────────────

  function InvertAll(reg: Registry, ls: seq<Leaf>): seq<Leaf> {
    if ls == [] then [] else InvertAll(reg, ls[1..]) + [InvertedLeaf(reg, ls[0])]
  }

  function InvertedLeaf(reg: Registry, l: Leaf): Leaf {
    if l.Placed? && InvertGate(reg, l.gate).Ok? then Placed(InvertGate(reg, l.gate).value, l.qubits) else l
  }

  lemma {:induction false} InvertAllConcat(reg: Registry, a: seq<Leaf>, b: seq<Leaf>)
    ensures InvertAll(reg, a + b) == InvertAll(reg, b) + InvertAll(reg, a)
  {
    if a == [] {
      assert a + b == b;
    } else {
      assert (a + b)[1..] == a[1..] + b;
      InvertAllConcat(reg, a[1..], b);
    }
  }

  lemma LastPlacement(reg: Registry, init: seq<Placement>, last: Placement)
    ensures InvertAll(reg, Placements(init + [last]))
         == [InvertedLeaf(reg, Placed(last.gate, last.qubits))] + InvertAll(reg, Placements(init))
  {
    hide InvertedLeaf;
    PlacementsConcat(init, [last]);
    var one := [Placed(last.gate, last.qubits)];
    assert Placements([last]) == one;
    InvertAllConcat(reg, Placements(init), one);
    assert InvertAll(reg, one) == InvertAll(reg, []) + [InvertedLeaf(reg, one[0])];
  }

  lemma {:induction false} InvertOntoIsInvertAll(reg: Registry, ps: seq<Placement>)
    requires InvertOnto(reg, ps, None).Ok?
    ensures OptionLeaves(InvertOnto(reg, ps, None).value) == InvertAll(reg, Placements(ps))
    decreases |ps|
  {
    hide InvertGate, InvertAll, Placements;
    if ps == [] {
      NothingInverted(reg);
    } else {
      var last, init := ps[|ps| - 1], ps[..|ps| - 1];
      var step := GateApp(InvertGate(reg, last.gate).value, last.qubits);
      InvertOntoLeaves(reg, init, Some(step));
      InvertOntoIsInvertAll(reg, init);
      assert ps == init + [last];
      LastPlacement(reg, init, last);
    }
  }

  lemma NothingInverted(reg: Registry)
    ensures InvertAll(reg, Placements([])) == []
  {
  }

  /** The adjoint lists the inverse of every gate in reverse order. */
  lemma AdjointLeaves(reg: Registry, t: Expr)
    requires ReverseAndInvert(reg, t).Ok?
    ensures Leaves(ReverseAndInvert(reg, t).value) == InvertAll(reg, Leaves(t))
  {
    if !IsEmpty(t) {
      CollectIsLeaves(t);
      InvertOntoIsInvertAll(reg, Collect(t).value);
    }
  }

  /** Adjoint is an anti-homomorphism over composition. */
  lemma AdjointOfCompose(reg: Registry, l: Expr, r: Expr)
    requires ReverseAndInvert(reg, l).Ok? && ReverseAndInvert(reg, r).Ok? && ReverseAndInvert(reg, Compose(l, r)).Ok?
    ensures Leaves(ReverseAndInvert(reg, Compose(l, r)).value)
         == Leaves(ReverseAndInvert(reg, r).value) + Leaves(ReverseAndInvert(reg, l).value)
  {
    AdjointLeaves(reg, l);
    AdjointLeaves(reg, r);
    AdjointLeaves(reg, Compose(l, r));
    InvertAllConcat(reg, Leaves(l), Leaves(r));
  }

  /** A gate spelled as the registry spells it, with a literal float angle. */
  predicate CanonicalGate(reg: Registry, g: Expr) {
    match g
    case Var(name) => reg.lookup(name).Some? && reg.lookup(name).value.id == name
    case App(f, x) => f.Var? && x.Float?
    case _ => false
  }

  lemma {:induction false} InvertAllTwice(reg: Registry, ls: seq<Leaf>)
    requires Lawful(reg)
    requires forall i | 0 <= i < |ls| :: ls[i].Placed? && CanonicalGate(reg, ls[i].gate)
    ensures InvertAll(reg, InvertAll(reg, ls)) == ls
  {
    if ls != [] {
      InvertAllTwice(reg, ls[1..]);
      InvertAllConcat(reg, InvertAll(reg, ls[1..]), [InvertedLeaf(reg, ls[0])]);
      var inv := [InvertedLeaf(reg, ls[0])];
      assert InvertAll(reg, inv) == InvertAll(reg, []) + [InvertedLeaf(reg, inv[0])];
    }
  }

  /** On canonical gates the adjoint is an involution. */
  lemma AdjointTwice(reg: Registry, t: Expr)
    requires Lawful(reg) && IsGateTree(t)
    requires forall i | 0 <= i < |Leaves(t)| :: Leaves(t)[i].Placed? && CanonicalGate(reg, Leaves(t)[i].gate)
    requires ReverseAndInvert(reg, t).Ok? && ReverseAndInvert(reg, ReverseAndInvert(reg, t).value).Ok?
    ensures Leaves(ReverseAndInvert(reg, ReverseAndInvert(reg, t).value).value) == Leaves(t)
  {
    AdjointLeaves(reg, t);
    AdjointLeaves(reg, ReverseAndInvert(reg, t).value);
    InvertAllTwice(reg, Leaves(t));
  }

  lemma {:induction false} InvertAllShifted(reg: Registry, ls: seq<Leaf>, k: int)
    ensures InvertAll(reg, ShiftAll(ls, k)) == ShiftAll(InvertAll(reg, ls), k)
  {
    if ls != [] {
      var shifted := ShiftAll(ls, k);
      assert shifted[0] == ShiftLeaf(ls[0], k) && shifted[1..] == ShiftAll(ls[1..], k);
      InvertAllShifted(reg, ls[1..], k);
      ShiftAllConcat(InvertAll(reg, ls[1..]), [InvertedLeaf(reg, ls[0])], k);
      assert ShiftAll([InvertedLeaf(reg, ls[0])], k) == [ShiftLeaf(InvertedLeaf(reg, ls[0]), k)];
    }
  }

  /** Adjoint commutes with shifting. */
  lemma AdjointOfShifted(reg: Registry, t: Expr, k: int)
    requires IsGateTree(t) && ReverseAndInvert(reg, t).Ok? && ReverseAndInvert(reg, ShiftQubits(t, k)).Ok?
    ensures Leaves(ReverseAndInvert(reg, ShiftQubits(t, k)).value)
         == Leaves(ShiftQubits(ReverseAndInvert(reg, t).value, k))
  {
    AdjointLeaves(reg, t);
    AdjointLeaves(reg, ShiftQubits(t, k));
    LeavesShifted(t, k);
    AdjointIsGateTree(reg, t);
    LeavesShifted(ReverseAndInvert(reg, t).value, k);
    InvertAllShifted(reg, Leaves(t), k);
  }

  /** The undo of each gate undoes it. */
  ghost predicate CancelLaw<S(!new)>(m: Model<S>) {
    forall l: Leaf, s: S :: Cancels(m, l, s)
  }

  ghost predicate Cancels<S>(m: Model<S>, l: Leaf, s: S) {
    m.unact(l, m.act(l, s)) == s && m.act(l, m.unact(l, s)) == s
  }

  lemma {:induction false} RunBackIsInverse<S(!new)>(m: Model<S>, ls: seq<Leaf>, fwd: bool, off: int, s: S)
    requires CancelLaw(m)
    ensures Run(m, ls, !fwd, off, Run(m, ls, fwd, off, s)) == s
  {
    if ls != [] {
      var l := ShiftLeaf(ls[0], off);
      if fwd {
        RunBackIsInverse(m, ls[1..], fwd, off, Step(m, l, fwd, s));
        assert Cancels(m, l, s);
      } else {
        var mid := Run(m, ls[1..], fwd, off, s);
        assert Cancels(m, l, mid);
        RunBackIsInverse(m, ls[1..], fwd, off, s);
      }
    }
  }

  /** A circuit followed by its adjoint does nothing. */
  lemma AdjointUndoes<S(!new)>(reg: Registry, m: Model<S>, t: Expr, off: int, s: S)
    requires InverseLaw(reg, m) && CancelLaw(m) && ReverseAndInvert(reg, t).Ok?
    ensures Run(m, Leaves(Compose(t, ReverseAndInvert(reg, t).value)), true, off, s) == s
  {
    var inv := ReverseAndInvert(reg, t).value;
    RunConcat(m, Leaves(t), Leaves(inv), true, off, s);
    RunAdjoint(reg, m, t, true, off, Run(m, Leaves(t), true, off, s));
    RunBackIsInverse(m, Leaves(t), true, off, s);
  }
}
