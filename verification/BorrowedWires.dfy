/** What lowering emits when gates stand past the arguments: the same gates, on the arguments and on
    borrowed qubits, one for each wire that the circuit does not have. */
module BorrowedWires {
  import opened Ast
  import opened Ssa
  import opened Threading
  import opened GateSpecs
  import opened Lowering

  /** The qubits borrowed so far, in order. */
  function Borrowed(ops: seq<Op>): seq<ValueId> {
    if ops == [] then []
    else
      var n := |ops| - 1;
      Borrowed(ops[..n]) + if ops[n].BorrowOp? then ops[n].results else []
  }

  /** What the wires stand for: the arguments, and after them the borrowed qubits. */
  function Standing(args: seq<ValueId>, ops: seq<Op>): (r: seq<nat>)
    ensures |r| == |args| + |Borrowed(ops)|
    ensures forall i | 0 <= i < |args| :: r[i] == i
    ensures forall i | 0 <= i < |Borrowed(ops)| :: r[|args| + i] == Borrowed(ops)[i]
  {
    seq(|args|, i => i) + Borrowed(ops)
  }

  /** The gates in a block, with what their operands stand for. */
  function GatesIn(args: seq<ValueId>, ops: seq<Op>): seq<(Op, seq<nat>)> {
    if ops == [] then []
    else
      var n := |ops| - 1;
      GatesIn(args, ops[..n]) + if ops[n].GateOp? then [(ops[n], Origins(args, ops[..n], ops[n].operands))] else []
  }

  /** `op`, on what `on` stands for, is the gate `g`, where `at` says what each wire stands for. */
  predicate IsGate(op: Op, on: seq<nat>, g: WireGate, at: seq<nat>) {
    && op.GateOp? && op.name == Some(g.name) && op.angle == g.angle && op.depth == Some(g.depth) && op.clifford == Some(g.clifford)
    && |on| == |g.qubits| && forall i | 0 <= i < |on| :: g.qubits[i] < |at| && on[i] == at[g.qubits[i]]
  }

  ghost predicate Holds(args: seq<ValueId>, t: Threaded) {
    && |t.wires| == |args| + |Borrowed(t.ops)|
    && (forall i | 0 <= i < |t.wires| :: Origin(args, t.ops, t.wires[i]) == Standing(args, t.ops)[i] && t.wires[i] < t.next)
    && (forall v | v in args :: v < t.next)
    && (forall v | v in Borrowed(t.ops) :: v < t.next)
  }

  ghost predicate GatesHold(args: seq<ValueId>, t: Threaded, gs: seq<WireGate>) {
    var found := GatesIn(args, t.ops);
    && |found| == |gs|
    && forall i | 0 <= i < |gs| :: IsGate(found[i].0, found[i].1, gs[i], Standing(args, t.ops))
  }

  lemma StartHolds(args: seq<ValueId>, next: ValueId)
    requires Distinct(args) && forall v | v in args :: v < next
    ensures Holds(args, Start(args, next)) && GatesHold(args, Start(args, next), [])
  {
    forall i | 0 <= i < |args| ensures Origin(args, [], args[i]) == i && args[i] < next { assert args[i] in args; }
  }

  lemma BorrowHolds(args: seq<ValueId>, t: Threaded, gs: seq<WireGate>)
    requires Holds(args, t) && GatesHold(args, t, gs)
    ensures var r := Threaded(t.ops + [BorrowOp([], [t.next])], t.wires + [t.next], t.next + 1);
            Holds(args, r) && GatesHold(args, r, gs) && |Standing(args, r.ops)| == |Standing(args, t.ops)| + 1
  {
    hide IsGate;
    var op := BorrowOp([], [t.next]);
    var r := Threaded(t.ops + [op], t.wires + [t.next], t.next + 1);
    assert r.ops[..|r.ops| - 1] == t.ops;
    assert Borrowed(r.ops) == Borrowed(t.ops) + [t.next];
    assert Standing(args, r.ops) == Standing(args, t.ops) + [t.next];
    forall i | 0 <= i < |r.wires| ensures Origin(args, r.ops, r.wires[i]) == Standing(args, r.ops)[i] {}
    var (found, found') := (GatesIn(args, t.ops), GatesIn(args, r.ops));
    assert found' == found;
    forall i | 0 <= i < |gs| ensures IsGate(found[i].0, found[i].1, gs[i], Standing(args, r.ops)) {
      MoreWires(found[i].0, found[i].1, gs[i], Standing(args, t.ops), t.next);
    }
  }

  lemma MoreWires(op: Op, on: seq<nat>, g: WireGate, at: seq<nat>, more: nat)
    requires IsGate(op, on, g, at)
    ensures IsGate(op, on, g, at + [more])
  {
  }

  lemma {:induction false} EnsuredHolds(args: seq<ValueId>, t: Threaded, gs: seq<WireGate>, index: nat)
    requires Holds(args, t) && GatesHold(args, t, gs)
    ensures Holds(args, Ensured(t, index)) && GatesHold(args, Ensured(t, index), gs)
    decreases index + 1 - |t.wires|
  {
    if index >= |t.wires| {
      hide Holds, GatesHold;
      BorrowHolds(args, t, gs);
      EnsuredHolds(args, Threaded(t.ops + [BorrowOp([], [t.next])], t.wires + [t.next], t.next + 1), gs, index);
    }
  }

  lemma {:induction false} EnsuredAllHolds(args: seq<ValueId>, t: Threaded, gs: seq<WireGate>, targets: seq<nat>)
    requires Holds(args, t) && GatesHold(args, t, gs)
    ensures Holds(args, EnsuredAll(t, targets)) && GatesHold(args, EnsuredAll(t, targets), gs)
  {
    if targets != [] {
      hide Holds, GatesHold, Ensured;
      var n := |targets| - 1;
      EnsuredAllHolds(args, t, gs, targets[..n]);
      EnsuredHolds(args, EnsuredAll(t, targets[..n]), gs, targets[n]);
    }
  }

  lemma PlacingHolds(args: seq<ValueId>, t: Threaded, gs: seq<WireGate>, g: WireGate)
    requires Holds(args, t) && GatesHold(args, t, gs) && OnWires(g, |t.wires|)
    ensures Holds(args, PlaceGate(t, g)) && GatesHold(args, PlaceGate(t, g), gs + [g])
  {
    hide IsGate;
    var op := GateOpOf(g, At(t.wires, g.qubits), Fresh(t.next, |g.qubits|));
    var r := PlaceGate(t, g);
    assert r.ops[..|r.ops| - 1] == t.ops;
    assert Borrowed(r.ops) == Borrowed(t.ops);
    assert Standing(args, r.ops) == Standing(args, t.ops);
    WiresKept(args, t, g);
    var on := Origins(args, t.ops, op.operands);
    assert GatesIn(args, r.ops) == GatesIn(args, t.ops) + [(op, on)];
    assert IsGate(op, on, g, Standing(args, t.ops)) by { PlacedIsGate(args, t, g); }
  }

  lemma PlacedIsGate(args: seq<ValueId>, t: Threaded, g: WireGate)
    requires Holds(args, t) && OnWires(g, |t.wires|)
    ensures var operands := At(t.wires, g.qubits);
            IsGate(GateOpOf(g, operands, Fresh(t.next, |g.qubits|)), Origins(args, t.ops, operands), g, Standing(args, t.ops))
  {
  }

  lemma WiresKept(args: seq<ValueId>, t: Threaded, g: WireGate)
    requires Holds(args, t) && OnWires(g, |t.wires|)
    ensures var r := PlaceGate(t, g);
            forall i | 0 <= i < |r.wires| ::
              Origin(args, r.ops, r.wires[i]) == Standing(args, t.ops)[i] && r.wires[i] < r.next
  {
    hide Standing, Borrowed, Origin, PlaceGate;
    var r := PlaceGate(t, g);
    forall q | 0 <= q < |r.wires|
      ensures Origin(args, r.ops, r.wires[q]) == Origin(args, t.ops, t.wires[q]) && r.wires[q] < r.next
    {
      WireKept(args, t, g, q);
    }
  }

  lemma WireKept(args: seq<ValueId>, t: Threaded, g: WireGate, q: nat)
    requires OnWires(g, |t.wires|) && q < |t.wires| && t.wires[q] < t.next
    ensures var r := PlaceGate(t, g); Origin(args, r.ops, r.wires[q]) == Origin(args, t.ops, t.wires[q]) && r.wires[q] < r.next
  {
    hide Overwrite;
    var results := Fresh(t.next, |g.qubits|);
    var op := GateOpOf(g, At(t.wires, g.qubits), results);
    var r := PlaceGate(t, g);
    assert r.ops[..|r.ops| - 1] == t.ops;
    OverwriteAt(t.wires, g.qubits, results, q);
    FreshPosition(t.next, |g.qubits|, r.wires[q]);
    if q in g.qubits {
      var i :| 0 <= i < |g.qubits| && g.qubits[i] == q && r.wires[q] == results[i];
      assert op.operands[i] == t.wires[q];
    }
  }

  lemma EmittedHolds(args: seq<ValueId>, t: Threaded, gs: seq<WireGate>, g: WireGate)
    requires Holds(args, t) && GatesHold(args, t, gs)
    ensures Holds(args, EmitGate(t, g)) && GatesHold(args, EmitGate(t, g), gs + [g])
  {
    hide Holds, GatesHold, EnsuredAll, PlaceGate;
    EnsuredAllHolds(args, t, gs, g.qubits);
    PlacingHolds(args, EnsuredAll(t, g.qubits), gs, g);
  }

  lemma {:induction false} AllHold(args: seq<ValueId>, t: Threaded, gs: seq<WireGate>)
    requires Holds(args, t) && GatesHold(args, t, [])
    ensures Holds(args, EmitAll(t, gs)) && GatesHold(args, EmitAll(t, gs), gs)
  {
    hide Holds, GatesHold, EmitGate;
    if gs != [] {
      var (init, g) := (gs[..|gs| - 1], gs[|gs| - 1]);
      AllHold(args, t, init);
      EmittedHolds(args, EmitAll(t, init), init, g);
      assert init + [g] == gs;
    }
  }

  predicate Touches(g: WireGate, q: nat) { q in g.qubits }

  lemma {:induction false} EnsuredCount(t: Threaded, index: nat)
    ensures |Ensured(t, index).wires| == if index < |t.wires| then |t.wires| else index + 1
    decreases index + 1 - |t.wires|
  {
    if index >= |t.wires| {
      EnsuredCount(Threaded(t.ops + [BorrowOp([], [t.next])], t.wires + [t.next], t.next + 1), index);
    }
  }

  lemma {:induction false} EnsuredAllCount(t: Threaded, targets: seq<nat>)
    ensures var n := |EnsuredAll(t, targets).wires|; n > |t.wires| ==> n - 1 in targets
  {
    if targets != [] {
      hide Ensured;
      EnsuredAllCount(t, targets[..|targets| - 1]);
      EnsuredCount(EnsuredAll(t, targets[..|targets| - 1]), targets[|targets| - 1]);
    }
  }

  /** No more is borrowed than some gate needs. */
  lemma {:induction false} LastWireIsUsed(t: Threaded, gs: seq<WireGate>)
    ensures var n := |EmitAll(t, gs).wires|; n > |t.wires| ==> exists g | g in gs :: Touches(g, n - 1)
  {
    hide EnsuredAll;
    if gs != [] {
      var (init, g) := (gs[..|gs| - 1], gs[|gs| - 1]);
      LastWireIsUsed(t, init);
      EnsuredAllCount(EmitAll(t, init), g.qubits);
      assert forall h | h in init :: h in gs;
      assert g in gs;
    }
  }

  /** Whatever wires the gates stand on, lowering emits them in order, on the arguments and on borrowed
      qubits: wire `i` past the arguments is the qubit borrowed `i`-th, for every gate; the block returns
      the wires in that order; and the last qubit borrowed is one that a gate stands on. */
  lemma LoweringOnAnyWires(args: seq<ValueId>, next: ValueId, gs: seq<WireGate>)
    requires Distinct(args) && forall v | v in args :: v < next
    ensures var t := EmitAll(Start(args, next), gs);
            && GatesHold(args, t, gs)
            && Origins(args, t.ops, t.wires) == Standing(args, t.ops)
            && (Borrowed(t.ops) != [] ==> exists g | g in gs :: Touches(g, |t.wires| - 1))
  {
    hide GatesHold, EmitAll;
    StartHolds(args, next);
    AllHold(args, Start(args, next), gs);
    LastWireIsUsed(Start(args, next), gs);
  }
}
