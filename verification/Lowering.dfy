/** Lowering an elaborated gate sequence to SSA: logical wires threaded through fresh values. */
module Lowering {
  import opened Ast
  import opened Classical
  import opened GateTree
  import opened Ssa
  import opened Threading
  import opened CircExtract
  import opened CircLaws
  import opened Meaning
  import opened GateSpecs

  // ── Wires out of range ─────────────────────────────────────────────────────

  /** Borrows fresh wires until wire `index` exists. */
  function Ensured(t: Threaded, index: nat): (r: Threaded)
    ensures index < |r.wires| && |t.wires| <= |r.wires|
    ensures index < |t.wires| ==> r == t
    decreases index + 1 - |t.wires|
  {
    if index < |t.wires| then t
    else Ensured(Threaded(t.ops + [BorrowOp([], [t.next])], t.wires + [t.next], t.next + 1), index)
  }

  function EnsuredAll(t: Threaded, targets: seq<nat>): (r: Threaded)
    ensures |t.wires| <= |r.wires| && forall i | 0 <= i < |targets| :: targets[i] < |r.wires|
    ensures (forall i | 0 <= i < |targets| :: targets[i] < |t.wires|) ==> r == t
  {
    if targets == [] then t else Ensured(EnsuredAll(t, targets[..|targets| - 1]), targets[|targets| - 1])
  }

  function EmitGate(t: Threaded, g: WireGate): (r: Threaded)
    ensures |t.wires| <= |r.wires|
  {
    PlaceGate(EnsuredAll(t, g.qubits), g)
  }

  function EmitAll(t: Threaded, gs: seq<WireGate>): (r: Threaded)
    ensures |t.wires| <= |r.wires|
  {
    if gs == [] then t else EmitGate(EmitAll(t, gs[..|gs| - 1]), gs[|gs| - 1])
  }

  // ── The emitter ────────────────────────────────────────────────────────────

  class Emitter {
    const types: GateTypes
    var ops: seq<Op>
    var wires: seq<ValueId>
    var next: ValueId

    constructor (types: GateTypes, args: seq<ValueId>, next: ValueId)
      ensures this.types == types && State() == Start(args, next)
    {
      this.types := types;
      this.ops := [];
      this.wires := args;
      this.next := next;
    }

    ghost function State(): Threaded
      reads this
    {
      Threaded(ops, wires, next)
    }

    method EnsureWire(index: nat)
      modifies this
      ensures State() == Ensured(old(State()), index)
    {
      while |wires| <= index
        invariant Ensured(State(), index) == Ensured(old(State()), index)
        decreases index + 1 - |wires|
      {
        ops := ops + [BorrowOp([], [next])];
        wires := wires + [next];
        next := next + 1;
      }
    }

    /** `apply_gate`, for a gate already looked up. */
    method ApplyGate(spec: GateSpec, targets: seq<nat>) returns (r: Option<LowerError>)
      modifies this
      ensures r.None? <==> Emittable(PlacementGate(spec, targets))
      ensures r.None? ==> State() == EmitGate(old(State()), PlacementGate(spec, targets))
      ensures r.Some? ==> r.value == if spec.angle.Some? && targets == [] then Panic("index out of bounds")
                                     else if targets == [] || spec.depth < 0 then BuildRejected
                                     else Internal("missing gate result")
    {
      hide Ensured, EnsuredAll;
      EnsureWires(targets);
      ghost var t := State();
      if spec.angle.Some? && targets == [] { return Some(Panic("index out of bounds")); }
      r := AppendGate(spec, targets);
      assert r.None? ==> State() == PlaceGate(t, PlacementGate(spec, targets));
    }

    method EnsureWires(targets: seq<nat>)
      modifies this
      ensures State() == EnsuredAll(old(State()), targets)
    {
      for i := 0 to |targets|
        invariant State() == EnsuredAll(old(State()), targets[..i])
      {
        EnsureWire(targets[i]);
        assert targets[..i + 1][..i] == targets[..i];
      }
      assert targets[..|targets|] == targets;
    }

    /** Builds and appends the operation, then threads its results; a rotation has one of each. */
    method AppendGate(spec: GateSpec, targets: seq<nat>) returns (r: Option<LowerError>)
      requires forall i | 0 <= i < |targets| :: targets[i] < |wires|
      requires spec.angle.Some? ==> targets != []
      modifies this
      ensures r.None? <==> Emittable(PlacementGate(spec, targets))
      ensures r.None? ==> State() == PlaceGate(old(State()), PlacementGate(spec, targets))
      ensures r.Some? ==> r.value == if targets == [] || spec.depth < 0 then BuildRejected
                                     else Internal("missing gate result")
    {
      var qubits := if spec.angle.Some? then targets[..1] else targets;
      var operands := At(wires, qubits);
      if operands == [] || spec.depth < 0 { return Some(BuildRejected); }
      var results := Fresh(next, |operands|);
      ghost var was := wires;
      ops := ops + [GateOp(Some(spec.name), operands, results, spec.angle, Some(spec.depth), Some(spec.clifford))];
      next := next + |operands|;
      for i := 0 to |targets|
        modifies this`wires
        invariant i <= |operands| && wires == Overwrite(was, targets[..i], results[..i])
      {
        if i >= |results| { return Some(Internal("missing gate result")); }
        wires := wires[targets[i] := results[i]];
        assert targets[..i + 1][..i] == targets[..i] && results[..i + 1][..i] == results[..i];
      }
      assert qubits == targets;
      assert targets[..|targets|] == targets && results[..|results|] == results;
      r := None;
    }

    /** `emit_placements`: places the gates of an elaborated tree in order. */
    method EmitPlacements(body: Expr) returns (r: Option<LowerError>)
      modifies this
      ensures r.None? <==> Placeable(types, body)
      ensures r.None? ==> State() == EmitAll(old(State()), WireGates(types, Collect(body).value).value)
    {
      var collected := Collect(body);
      if collected.Err? { return Some(NotElaborated(collected.error)); }
      var ps := collected.value;
      ghost var t0 := State();
      for i := 0 to |ps|
        invariant WireGates(types, ps[..i]).Good?
        invariant forall g | g in WireGates(types, ps[..i]).value :: Emittable(g)
        invariant State() == EmitAll(t0, WireGates(types, ps[..i]).value)
      {
        ghost var before := WireGates(types, ps[..i]).value;
        WireGatesStep(types, ps, i);
        var spec := GateSpecOf(types, ps[i].gate);
        if spec.Bad? {
          WireGatesFail(types, ps, i);
          return Some(spec.error);
        }
        var targets := QubitTargets(ps[i].qubits);
        r := ApplyGate(spec.value, targets);
        if r.Some? {
          BadGateStays(types, ps, i + 1, PlacementGate(spec.value, targets));
          return;
        }
        assert (before + [PlacementGate(spec.value, targets)])[..|before|] == before;
      }
      assert ps[..|ps|] == ps;
      r := None;
    }

    /** `emit_specialized`: the body of a function of `outQubits` results. */
    method EmitSpecialized(body: Expr, outQubits: nat) returns (r: Lowered<seq<Op>>)
      modifies this
      ensures r.Good? <==>
                exists gs :: BodyAsksFor(types, body, gs) && |EmitAll(old(State()), gs).wires| == outQubits
      ensures forall gs | r.Good? && BodyAsksFor(types, body, gs) :: r.value == Finished(EmitAll(old(State()), gs))
    {
      hide EmitAll, BodyAsksFor, Collect, WireGates;
      ghost var was := State();
      forall gs ensures BodyAsksFor(types, body, gs) <==>
                          Placeable(types, body) && WireGates(types, Collect(body).value).value == gs
      {
        PlacedAsAsked(types, body, gs);
      }
      var failed := EmitPlacements(body);
      if failed.Some? { return Bad(failed.value); }
      ghost var asked := WireGates(types, Collect(body).value).value;
      assert BodyAsksFor(types, body, asked) && State() == EmitAll(was, asked);
      if |wires| != outQubits { return Bad(LowerError.Unsupported("circuit output width mismatch")); }
      ops := ops + [ReturnOp(wires, [])];
      r := Good(ops);
    }
  }

  // ── What lowering promises ─────────────────────────────────────────────────

  lemma {:induction false} InRangeEmits(t: Threaded, gs: seq<WireGate>)
    requires AllOnWires(gs, |t.wires|)
    ensures EmitAll(t, gs) == PlaceAll(t, gs)
  {
    if gs != [] { InRangeEmits(t, gs[..|gs| - 1]); }
  }

  predicate HasBorrow(ops: seq<Op>) { exists op | op in ops :: op.BorrowOp? }

  lemma {:induction false} EnsuredExtends(t: Threaded, index: nat)
    ensures exists more :: Ensured(t, index).ops == t.ops + more
    ensures HasBorrow(Ensured(t, index).ops) <==> HasBorrow(t.ops) || index >= |t.wires|
    decreases index + 1 - |t.wires|
  {
    if index < |t.wires| {
      assert t.ops == t.ops + [];
    } else {
      var one := Threaded(t.ops + [BorrowOp([], [t.next])], t.wires + [t.next], t.next + 1);
      EnsuredExtends(one, index);
      assert one.ops[|t.ops|].BorrowOp?;
      var more :| Ensured(one, index).ops == one.ops + more;
      assert Ensured(t, index).ops == t.ops + ([BorrowOp([], [t.next])] + more);
      assert one.ops[|t.ops|] in Ensured(one, index).ops;
    }
  }

  lemma {:induction false} EnsuredAllBorrows(t: Threaded, targets: seq<nat>)
    ensures HasBorrow(EnsuredAll(t, targets).ops) <==>
              HasBorrow(t.ops) || exists i | 0 <= i < |targets| :: targets[i] >= |t.wires|
  {
    if targets != [] {
      var (init, last) := (targets[..|targets| - 1], targets[|targets| - 1]);
      EnsuredAllBorrows(t, init);
      EnsuredExtends(EnsuredAll(t, init), last);
      assert forall i | 0 <= i < |init| :: init[i] == targets[i];
      if !exists i | 0 <= i < |targets| :: targets[i] >= |t.wires| {
        assert EnsuredAll(t, init) == t;
      }
    }
  }

  /** A borrow is emitted exactly when some gate stands on a wire the circuit does not have. */
  lemma {:induction false} BorrowIffOutOfRange(t: Threaded, gs: seq<WireGate>)
    requires !HasBorrow(t.ops)
    ensures HasBorrow(EmitAll(t, gs).ops) <==> !AllOnWires(gs, |t.wires|)
  {
    if gs != [] {
      var (init, g) := (gs[..|gs| - 1], gs[|gs| - 1]);
      BorrowIffOutOfRange(t, init);
      var before := EmitAll(t, init);
      EnsuredAllBorrows(before, g.qubits);
      var mid := EnsuredAll(before, g.qubits);
      var op := GateOpOf(g, At(mid.wires, g.qubits), Fresh(mid.next, |g.qubits|));
      assert EmitAll(t, gs).ops == mid.ops + [op] && !op.BorrowOp?;
      assert forall o | o in mid.ops :: o in EmitAll(t, gs).ops;
      if AllOnWires(init, |t.wires|) {
        InRangeEmits(t, init);
        assert |before.wires| == |t.wires|;
      }
      assert AllOnWires(gs, |t.wires|) <==> AllOnWires(init, |t.wires|) && OnWires(g, |t.wires|) by {
        assert forall i | 0 <= i < |init| :: init[i] == gs[i];
      }
    }
  }

  /** Lowering emits a function that extraction reads back: the same gates, under canonical names, on
      the same wires, returned in order; and each value is used once when no gate repeats a wire. */
  lemma LoweringReadsBack(reg: Registry, args: seq<ValueId>, next: ValueId, gs: seq<WireGate>)
    requires Distinct(args) && (forall v | v in args :: v < next)
    requires AllOnWires(gs, |args|) && forall i | 0 <= i < |gs| :: Known(reg, gs[i])
    ensures var ops := Finished(EmitAll(Start(args, next), gs));
            && Behaves(reg, args, ops, Behaviour(CanonizedAll(reg, gs), InOrder(|args|)))
            && !HasBorrow(ops)
            && (Linear(args, ops) <==> forall i | 0 <= i < |gs| :: DistinctWires(gs[i]))
  {
    hide PlaceAll, EmitAll, Reads, Known, Origin, ReturnAt, OnWires, Distinct, Linear, Behaves, DistinctWires;
    var t0 := Start(args, next);
    InRangeEmits(t0, gs);
    BorrowIffOutOfRange(t0, gs);
    var ops := Finished(EmitAll(t0, gs));
    PlacedBehaves(reg, args, next, gs, []);
    assert ops + [] == ops;
    LinearIffDistinct(args, next, gs);
  }

  /** Extracting what lowering emitted gives back the gates the placements asked for, under canonical
      names: exactly those gates when the names are canonical already. */
  lemma ExtractAfterLowering(reg: Registry, args: seq<ValueId>, next: ValueId, gs: seq<WireGate>, r: Seam<CircIr>)
    requires Distinct(args) && (forall v | v in args :: v < next)
    requires AllOnWires(gs, |args|) && forall i | 0 <= i < |gs| :: Known(reg, gs[i])
    requires Extracts(reg, args, Finished(EmitAll(Start(args, next), gs)), r)
    ensures r == Got(CircIr(|args|, CanonizedAll(reg, gs)))
    ensures r == Got(CircIr(|args|, gs)) <==> forall i | 0 <= i < |gs| :: Canonical(reg, gs[i])
  {
    hide PlaceAll, EmitAll, Reads, Known, Canonized, OnWires, Distinct, Extracts, Finished;
    InRangeEmits(Start(args, next), gs);
    var ops := Finished(EmitAll(Start(args, next), gs));
    assert ops + [] == ops;
    ExtractAfterRebuild(reg, args, next, CircIr(|args|, gs), [], r);
  }
}
