/** Extract and rebuild undo each other, and what a rebuilt function computes. */
module CircLaws {
  import opened Ast
  import opened GateTree
  import opened Ssa
  import opened Threading
  import opened CircExtract

  /** A registered gate on the registry's number of wires. */
  predicate Known(reg: Registry, g: CircGate) {
    reg.lookup(g.name).Some? && reg.lookup(g.name).value.arity == |g.qubits|
  }

  /** The gate as the registry spells it. */
  function Canonized(reg: Registry, g: CircGate): CircGate {
    match reg.lookup(g.name)
    case Some(info) => g.(name := info.id)
    case None => g
  }

  function CanonizedAll(reg: Registry, gs: seq<CircGate>): (r: seq<CircGate>)
    ensures |r| == |gs| && forall i | 0 <= i < |gs| :: r[i] == Canonized(reg, gs[i])
  {
    seq(|gs|, i requires 0 <= i < |gs| => Canonized(reg, gs[i]))
  }

  predicate Canonical(reg: Registry, g: CircGate) { Known(reg, g) && Canonized(reg, g) == g }

  /** What a function computes: its gates in order, then which wire each output is. */
  datatype Behaviour = Behaviour(gates: seq<CircGate>, outputs: seq<nat>)

  ghost predicate Behaves(reg: Registry, args: seq<ValueId>, ops: seq<Op>, b: Behaviour) {
    var at := ReturnAt(ops);
    && at < |ops|
    && Reads(reg, args, ops, b.gates)
    && b.outputs == Origins(args, ops[..at], ops[at].operands)
  }

  function InOrder(n: nat): (r: seq<nat>)
    ensures |r| == n && forall i | 0 <= i < n :: r[i] == i
  {
    seq(n, i => i)
  }

  lemma {:induction false} ReturnAfter(before: seq<Op>, ret: Op, rest: seq<Op>)
    requires ret.ReturnOp? && forall i | 0 <= i < |before| :: before[i].GateOp?
    ensures ReturnAt(before + [ret] + rest) == |before|
  {
    var ops := before + [ret] + rest;
    if before != [] {
      assert ops[1..] == before[1..] + [ret] + rest;
      ReturnAfter(before[1..], ret, rest);
    }
  }

  lemma {:induction false} PlacesGates(args: seq<ValueId>, next: ValueId, gs: seq<CircGate>)
    requires AllOnWires(gs, |args|)
    ensures var ops := PlaceAll(Start(args, next), gs).ops; |ops| == |gs| && forall i | 0 <= i < |ops| :: ops[i].GateOp?
  {
    if gs != [] { PlacesGates(args, next, gs[..|gs| - 1]); }
  }

  lemma ReadPlaced(reg: Registry, args: seq<ValueId>, next: ValueId, gs: seq<CircGate>, i: nat)
    requires Distinct(args) && (forall v | v in args :: v < next) && AllOnWires(gs, |args|)
    requires i < |gs| && Known(reg, gs[i])
    ensures var ops := Finished(PlaceAll(Start(args, next), gs));
            |ops| == |gs| + 1 && ReadGate(reg, args, ops[..i], ops[i]) == Got(Canonized(reg, gs[i]))
  {
    var before := PlaceAll(Start(args, next), gs[..i]);
    PlacedAt(args, next, gs, i);
    PlaceAllThreads(args, next, gs[..i]);
    PlaceGateThreads(args, before, gs[i]);
  }

  /** A block of placed gates computes exactly those gates, under their canonical names, and returns its
      wires in order; the gates may share wires or repeat one. */
  lemma PlacedBehaves(reg: Registry, args: seq<ValueId>, next: ValueId, gs: seq<CircGate>, rest: seq<Op>)
    requires Distinct(args) && (forall v | v in args :: v < next) && AllOnWires(gs, |args|)
    requires forall i | 0 <= i < |gs| :: Known(reg, gs[i])
    ensures Behaves(reg, args, Finished(PlaceAll(Start(args, next), gs)) + rest,
                    Behaviour(CanonizedAll(reg, gs), InOrder(|args|)))
  {
    hide PlaceAll, Reads, Known, Canonized, Origin, Origins, ReturnAt, OnWires, Distinct;
    var t := PlaceAll(Start(args, next), gs);
    FinishedPrefix(args, next, gs, rest);
    ReadsPlaced(reg, args, next, gs, rest);
    OutputsInOrder(args, next, gs);
  }

  lemma FinishedPrefix(args: seq<ValueId>, next: ValueId, gs: seq<CircGate>, rest: seq<Op>)
    requires AllOnWires(gs, |args|)
    ensures var t := PlaceAll(Start(args, next), gs);
            var ops := Finished(t) + rest;
            && |t.ops| == |gs| == ReturnAt(ops) < |ops|
            && ops[..|gs|] == t.ops && ops[|gs|] == ReturnOp(t.wires, [])
  {
    hide PlaceAll, ReturnAt, OnWires;
    var t := PlaceAll(Start(args, next), gs);
    PlacesGates(args, next, gs);
    ReturnAfter(t.ops, ReturnOp(t.wires, []), rest);
    assert Finished(t) + rest == t.ops + [ReturnOp(t.wires, [])] + rest;
  }

  lemma ReadsPlaced(reg: Registry, args: seq<ValueId>, next: ValueId, gs: seq<CircGate>, rest: seq<Op>)
    requires Distinct(args) && (forall v | v in args :: v < next) && AllOnWires(gs, |args|)
    requires forall i | 0 <= i < |gs| :: Known(reg, gs[i])
    ensures Reads(reg, args, Finished(PlaceAll(Start(args, next), gs)) + rest, CanonizedAll(reg, gs))
  {
    hide PlaceAll, ReadGate, Known, Canonized, ReturnAt, OnWires, Distinct;
    var done := Finished(PlaceAll(Start(args, next), gs));
    var ops := done + rest;
    FinishedPrefix(args, next, gs, rest);
    forall i | 0 <= i < |gs| ensures ReadGate(reg, args, ops[..i], ops[i]) == Got(Canonized(reg, gs[i])) {
      ReadPlaced(reg, args, next, gs, i);
      assert ops[..i] == done[..i] && ops[i] == done[i];
    }
  }

  lemma OutputsInOrder(args: seq<ValueId>, next: ValueId, gs: seq<CircGate>)
    requires Distinct(args) && (forall v | v in args :: v < next) && AllOnWires(gs, |args|)
    ensures var t := PlaceAll(Start(args, next), gs); Origins(args, t.ops, t.wires) == InOrder(|args|)
  {
    PlaceAllThreads(args, next, gs);
  }

  // ── Extract after rebuild ──────────────────────────────────────────────────

  lemma {:induction false} ExtractIsUnique(reg: Registry, args: seq<ValueId>, ops: seq<Op>, r: Seam<CircIr>, r': Seam<CircIr>)
    requires Extracts(reg, args, ops, r) && Extracts(reg, args, ops, r')
    ensures r == r'
  {
    hide ReadGate, ReturnAt;
    if r.Got? && r'.Got? {
      assert r.value.gates == r'.value.gates by {
        forall i | 0 <= i < |r.value.gates| ensures r.value.gates[i] == r'.value.gates[i] {
          assert ReadGate(reg, args, ops[..i], ops[i]) == Got(r.value.gates[i]);
          assert ReadGate(reg, args, ops[..i], ops[i]) == Got(r'.value.gates[i]);
        }
      }
    } else if r.Declined? && r'.Declined? {
      var i :| 0 <= i < ReturnAt(ops) && ReadGate(reg, args, ops[..i], ops[i]) == Declined(r.error)
               && forall j | 0 <= j < i :: ReadGate(reg, args, ops[..j], ops[j]).Got?;
      var k :| 0 <= k < ReturnAt(ops) && ReadGate(reg, args, ops[..k], ops[k]) == Declined(r'.error)
               && forall j | 0 <= j < k :: ReadGate(reg, args, ops[..j], ops[j]).Got?;
      assert i == k;
    }
  }

  lemma PlacedIsRead(reg: Registry, args: seq<ValueId>, next: ValueId, gs: seq<CircGate>, i: nat)
    requires Distinct(args) && (forall v | v in args :: v < next) && AllOnWires(gs, |args|) && i < |gs|
    ensures var ops := Finished(PlaceAll(Start(args, next), gs));
            |ops| == |gs| + 1 && (ReadGate(reg, args, ops[..i], ops[i]).Got? ==> Known(reg, gs[i]))
  {
    var before := PlaceAll(Start(args, next), gs[..i]);
    PlacedAt(args, next, gs, i);
    PlaceAllThreads(args, next, gs[..i]);
    PlaceGateThreads(args, before, gs[i]);
  }

  /** Extracting what was rebuilt gives the same circuit back exactly when its gates are registered
      gates, on the registry's number of wires, under canonical names; if they are registered under
      other names, it gives them under the canonical ones. */
  lemma ExtractAfterRebuild(reg: Registry, args: seq<ValueId>, next: ValueId, circ: CircIr, rest: seq<Op>, r: Seam<CircIr>)
    requires Distinct(args) && (forall v | v in args :: v < next) && AllOnWires(circ.gates, |args|) && circ.nQubits == |args|
    requires Extracts(reg, args, Finished(PlaceAll(Start(args, next), circ.gates)) + rest, r)
    ensures r == Got(circ) <==> forall i | 0 <= i < |circ.gates| :: Canonical(reg, circ.gates[i])
    ensures (forall i | 0 <= i < |circ.gates| :: Known(reg, circ.gates[i])) ==>
              r == Got(CircIr(|args|, CanonizedAll(reg, circ.gates)))
    ensures r.Got? ==> forall i | 0 <= i < |circ.gates| :: Known(reg, circ.gates[i])
  {
    hide PlaceAll, ReadGate, Known, Canonized, ReturnAt, OnWires, Distinct;
    var gs := circ.gates;
    var done := Finished(PlaceAll(Start(args, next), gs));
    FinishedPrefix(args, next, gs, rest);
    if forall i | 0 <= i < |gs| :: Known(reg, gs[i]) {
      ReadsPlaced(reg, args, next, gs, rest);
      ExtractIsUnique(reg, args, done + rest, r, Got(CircIr(|args|, CanonizedAll(reg, gs))));
      if r == Got(circ) { assert forall i | 0 <= i < |gs| :: Canonized(reg, gs[i]) == gs[i]; }
      if forall i | 0 <= i < |gs| :: Canonical(reg, gs[i]) { assert CanonizedAll(reg, gs) == gs; }
    } else {
      var i :| 0 <= i < |gs| && !Known(reg, gs[i]);
      PlacedIsRead(reg, args, next, gs, i);
      assert (done + rest)[..i] == done[..i] && (done + rest)[i] == done[i];
    }
  }

  /** What extraction yields is canonical. */
  lemma ReadsCanonical(reg: Registry, args: seq<ValueId>, ops: seq<Op>, gates: seq<CircGate>)
    requires Lawful(reg) && Reads(reg, args, ops, gates)
    ensures forall i | 0 <= i < |gates| :: Canonical(reg, gates[i])
  {
    forall i | 0 <= i < |gates| ensures Canonical(reg, gates[i]) {
      assert ReadGate(reg, args, ops[..i], ops[i]) == Got(gates[i]);
    }
  }

  /** Rebuilding what was extracted keeps the gates and returns the wires in order; so it keeps what
      the function computes exactly when the function returned its wires in order. */
  lemma RebuildKeepsBehaviour(reg: Registry, args: seq<ValueId>, ops: seq<Op>, b: Behaviour, next: ValueId, rest: seq<Op>)
    requires Lawful(reg) && Behaves(reg, args, ops, b)
    requires Distinct(args) && (forall v | v in args :: v < next) && AllOnWires(b.gates, |args|)
    ensures var rebuilt := Finished(PlaceAll(Start(args, next), b.gates)) + rest;
            Behaves(reg, args, rebuilt, b) <==> b.outputs == InOrder(|args|)
  {
    ReadsCanonical(reg, args, ops, b.gates);
    assert CanonizedAll(reg, b.gates) == b.gates;
    PlacedBehaves(reg, args, next, b.gates, rest);
  }

  /** A function that swaps its two wires at the return loses the swap. */
  lemma ReturnOrderIsLost(reg: Registry)
    ensures var (args, swapped) := ([10, 11], [ReturnOp([11, 10], [])]);
            && Behaves(reg, args, swapped, Behaviour([], [1, 0]))
            && Behaves(reg, args, Finished(PlaceAll(Start(args, 12), [])), Behaviour([], [0, 1]))
  {
    var (args, swapped) := ([10, 11], [ReturnOp([11, 10], [])]);
    assert swapped[..0] == [];
    assert Position(args, 11) == Some(1) && Position(args, 10) == Some(0);
    assert Origins(args, [], [11, 10]) == [1, 0] && Origins(args, [], [10, 11]) == [0, 1];
    var done := Finished(PlaceAll(Start(args, 12), []));
    assert done == [ReturnOp(args, [])] && done[..0] == [];
  }

  /** A rebuild that stops half-way: the second gate has a negative depth, and the function is left with
      the first gate in front of what it had before. */
  method HalfRebuilt() returns (r: Option<SeamError>, ops: seq<Op>)
    ensures r == Some(BuildGate(1))
    ensures ops == [GateOpOf(WireGate("X", [0], None, 1, true), [10], [11]), ReturnOp([10], [])]
  {
    var (good, bad) := (WireGate("X", [0], None, 1, true), WireGate("X", [0], None, -1, true));
    var f := new CircFunc([10], [ReturnOp([10], [])], 11);
    HalfPlaced(good, bad);
    r := f.Rebuild(CircIr(1, [good, bad]));
    ops := f.ops;
  }

  lemma HalfPlaced(good: WireGate, bad: WireGate)
    requires good == WireGate("X", [0], None, 1, true) && bad == WireGate("X", [0], None, -1, true)
    ensures Complaint([good, bad], 1).None? && FirstRefused([good, bad]) == Some(BuildGate(1))
    ensures ReturnAt([ReturnOp([10], [])]) == 0 && [good, bad][..1] == [good] && AllOnWires([good], 1)
    ensures PlaceAll(Start([10], 11), [good]).ops == [GateOpOf(good, [10], [11])]
  {
    ComplaintIff([good, bad], 1);
    FirstRefusedIs([good, bad], 1);
    assert PlaceAll(Start([10], 11), [good]) == PlaceGate(PlaceAll(Start([10], 11), []), good);
    assert At([10], [0]) == [10] && Fresh(11, 1) == [11];
  }
}
