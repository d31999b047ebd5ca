/** Threading gates through fresh SSA values: the list of wires, overwritten gate by gate. */
module Threading {
  import opened Ast
  import opened Ssa

  /** A gate to place: what the op records, and the wires it stands on. */
  datatype WireGate = WireGate(name: Name, qubits: seq<nat>, angle: Option<real>, depth: int, clifford: bool)

  /** The operations so far, the current value of every wire, and the next unused value. */
  datatype Threaded = Threaded(ops: seq<Op>, wires: seq<ValueId>, next: ValueId)

  predicate OnWires(g: WireGate, n: nat) { forall i | 0 <= i < |g.qubits| :: g.qubits[i] < n }

  predicate AllOnWires(gs: seq<WireGate>, n: nat) { forall i | 0 <= i < |gs| :: OnWires(gs[i], n) }

  function Fresh(next: ValueId, k: nat): (vs: seq<ValueId>)
    ensures |vs| == k && forall i | 0 <= i < k :: vs[i] == next + i
  {
    seq(k, i => next + i)
  }

  function At(wires: seq<ValueId>, qubits: seq<nat>): (vs: seq<ValueId>)
    requires forall i | 0 <= i < |qubits| :: qubits[i] < |wires|
    ensures |vs| == |qubits| && forall i | 0 <= i < |vs| :: vs[i] == wires[qubits[i]]
  {
    seq(|qubits|, i requires 0 <= i < |qubits| => wires[qubits[i]])
  }

  /** The wires after giving `qubits[i]` the value `vs[i]`, in order. */
  function Overwrite(wires: seq<ValueId>, qubits: seq<nat>, vs: seq<ValueId>): (r: seq<ValueId>)
    requires |qubits| == |vs| && forall i | 0 <= i < |qubits| :: qubits[i] < |wires|
    ensures |r| == |wires|
  {
    if qubits == [] then wires
    else
      var n := |qubits| - 1;
      Overwrite(wires, qubits[..n], vs[..n])[qubits[n] := vs[n]]
  }

  function GateOpOf(g: WireGate, operands: seq<ValueId>, results: seq<ValueId>): Op {
    GateOp(Some(g.name), operands, results, g.angle, Some(g.depth), Some(g.clifford))
  }

  function PlaceGate(t: Threaded, g: WireGate): (r: Threaded)
    requires OnWires(g, |t.wires|)
    ensures |r.wires| == |t.wires|
  {
    var results := Fresh(t.next, |g.qubits|);
    Threaded(t.ops + [GateOpOf(g, At(t.wires, g.qubits), results)],
             Overwrite(t.wires, g.qubits, results),
             t.next + |g.qubits|)
  }

  function PlaceAll(t: Threaded, gs: seq<WireGate>): (r: Threaded)
    requires AllOnWires(gs, |t.wires|)
    ensures |r.wires| == |t.wires|
  {
    if gs == [] then t else PlaceGate(PlaceAll(t, gs[..|gs| - 1]), gs[|gs| - 1])
  }

  /** A block over `args` with nothing placed yet. */
  function Start(args: seq<ValueId>, next: ValueId): Threaded { Threaded([], args, next) }

  // ── What threading keeps ───────────────────────────────────────────────────

  lemma {:induction false} OverwriteAt(wires: seq<ValueId>, qubits: seq<nat>, vs: seq<ValueId>, q: nat)
    requires |qubits| == |vs| && forall i | 0 <= i < |qubits| :: qubits[i] < |wires|
    requires q < |wires|
    ensures q !in qubits ==> Overwrite(wires, qubits, vs)[q] == wires[q]
    ensures q in qubits ==> exists i | 0 <= i < |qubits| :: qubits[i] == q && Overwrite(wires, qubits, vs)[q] == vs[i]
  {
    if qubits != [] {
      var n := |qubits| - 1;
      assert qubits == qubits[..n] + [qubits[n]];
      OverwriteAt(wires, qubits[..n], vs[..n], q);
      if q != qubits[n] && q in qubits {
        var i :| 0 <= i < n && qubits[..n][i] == q && Overwrite(wires, qubits[..n], vs[..n])[q] == vs[..n][i];
        assert qubits[i] == q && Overwrite(wires, qubits, vs)[q] == vs[i];
      }
    }
  }

  /** Every wire's current value stands for that wire, and no value from `next` on is used yet. */
  ghost predicate Threads(args: seq<ValueId>, t: Threaded) {
    && |t.wires| == |args|
    && (forall i | 0 <= i < |t.wires| :: Origin(args, t.ops, t.wires[i]) == i && t.wires[i] < t.next)
    && (forall i | 0 <= i < |t.ops| :: forall v | v in t.ops[i].results :: v < t.next)
  }

  lemma {:induction false} FreshPosition(next: ValueId, k: nat, v: ValueId)
    ensures Position(Fresh(next, k), v) == if next <= v < next + k then Some(v - next) else None
  {
    if next <= v < next + k { assert Fresh(next, k)[v - next] == v; }
  }

  lemma PlaceGateThreads(args: seq<ValueId>, t: Threaded, g: WireGate)
    requires Threads(args, t) && OnWires(g, |t.wires|)
    ensures Threads(args, PlaceGate(t, g))
    ensures Origins(args, t.ops, At(t.wires, g.qubits)) == g.qubits
  {
    var results := Fresh(t.next, |g.qubits|);
    var op := GateOpOf(g, At(t.wires, g.qubits), results);
    var r := PlaceGate(t, g);
    forall q | 0 <= q < |r.wires| ensures Origin(args, r.ops, r.wires[q]) == q && r.wires[q] < r.next {
      OverwriteAt(t.wires, g.qubits, results, q);
      FreshPosition(t.next, |g.qubits|, r.wires[q]);
      if q in g.qubits {
        var i :| 0 <= i < |g.qubits| && g.qubits[i] == q && r.wires[q] == results[i];
        assert op.operands[i] == t.wires[q];
      }
    }
  }

  /** Threading any gates keeps every wire's value standing for that wire. */
  lemma {:induction false} PlaceAllThreads(args: seq<ValueId>, next: ValueId, gs: seq<WireGate>)
    requires Distinct(args) && (forall v | v in args :: v < next) && AllOnWires(gs, |args|)
    ensures Threads(args, PlaceAll(Start(args, next), gs))
  {
    if gs == [] {
      forall i | 0 <= i < |args| ensures Origin(args, [], args[i]) == i && args[i] < next { assert args[i] in args; }
    } else {
      var init := gs[..|gs| - 1];
      PlaceAllThreads(args, next, init);
      PlaceGateThreads(args, PlaceAll(Start(args, next), init), gs[|gs| - 1]);
    }
  }

  lemma LastPlaced(t: Threaded, gs: seq<WireGate>)
    requires AllOnWires(gs, |t.wires|) && gs != []
    ensures var before := PlaceAll(t, gs[..|gs| - 1]).ops;
            |PlaceAll(t, gs).ops| == |before| + 1 && PlaceAll(t, gs).ops[..|before|] == before
  {
  }

  lemma {:induction false} PlaceAllPrefix(t: Threaded, gs: seq<WireGate>, k: nat)
    requires AllOnWires(gs, |t.wires|) && k <= |gs|
    ensures |PlaceAll(t, gs).ops| == |t.ops| + |gs|
    ensures PlaceAll(t, gs[..k]).ops == PlaceAll(t, gs).ops[..|t.ops| + k]
  {
    if gs == [] {
      assert gs[..k] == gs;
    } else {
      hide PlaceAll, OnWires;
      var n := |gs| - 1;
      LastPlaced(t, gs);
      PlaceAllPrefix(t, gs[..n], if k <= n then k else n);
      if k <= n { assert gs[..n][..k] == gs[..k]; } else { assert gs[..k] == gs; }
    }
  }

  // ── Linearity ──────────────────────────────────────────────────────────────

  function Uses(ops: seq<Op>): multiset<ValueId> {
    if ops == [] then multiset{} else Uses(ops[..|ops| - 1]) + multiset(ops[|ops| - 1].operands)
  }

  function Defs(ops: seq<Op>): multiset<ValueId> {
    if ops == [] then multiset{} else Defs(ops[..|ops| - 1]) + multiset(ops[|ops| - 1].results)
  }

  /** Every argument and every result is used exactly once. */
  ghost predicate Linear(args: seq<ValueId>, ops: seq<Op>) {
    forall v | v in args || v in Defs(ops) :: Uses(ops)[v] == 1
  }

  predicate DistinctWires(g: WireGate) { forall i, j | 0 <= i < j < |g.qubits| :: g.qubits[i] != g.qubits[j] }

  lemma UpdateTrades(ws: seq<ValueId>, q: nat, v: ValueId)
    requires q < |ws|
    ensures multiset(ws[q := v]) + multiset{ws[q]} == multiset(ws) + multiset{v}
  {
    assert ws == ws[..q] + [ws[q]] + ws[q + 1..];
    assert ws[q := v] == ws[..q] + [v] + ws[q + 1..];
  }

  /** Overwriting distinct wires trades their values for the new ones. */
  lemma {:induction false} OverwriteTrades(wires: seq<ValueId>, qubits: seq<nat>, vs: seq<ValueId>)
    requires |qubits| == |vs| && forall i | 0 <= i < |qubits| :: qubits[i] < |wires|
    requires forall i, j | 0 <= i < j < |qubits| :: qubits[i] != qubits[j]
    ensures multiset(Overwrite(wires, qubits, vs)) + multiset(At(wires, qubits)) == multiset(wires) + multiset(vs)
  {
    if qubits == [] {
      assert At(wires, qubits) == [] && vs == [];
    } else {
      var n := |qubits| - 1;
      var (q, v, before) := (qubits[n], vs[n], Overwrite(wires, qubits[..n], vs[..n]));
      OverwriteTrades(wires, qubits[..n], vs[..n]);
      OverwriteAt(wires, qubits[..n], vs[..n], q);
      assert before[q] == wires[q];
      UpdateTrades(before, q, v);
      assert vs == vs[..n] + [v];
      assert At(wires, qubits) == At(wires, qubits[..n]) + [wires[q]];
      var (olds, news) := (multiset(At(wires, qubits[..n])), multiset(vs[..n]));
      assert multiset(At(wires, qubits)) == olds + multiset{wires[q]} && multiset(vs) == news + multiset{v};
      hide *;
      TradeMore(multiset(before), multiset(before[q := v]), multiset(wires), olds, news, wires[q], v);
    }
  }

  lemma TradeMore(before: multiset<ValueId>, after: multiset<ValueId>, start: multiset<ValueId>, olds: multiset<ValueId>,
                  news: multiset<ValueId>, old': ValueId, v: ValueId)
    requires before + olds == start + news && after + multiset{old'} == before + multiset{v}
    ensures after + (olds + multiset{old'}) == start + (news + multiset{v})
  {
    assert after + (olds + multiset{old'}) == (after + multiset{old'}) + olds;
    assert (before + multiset{v}) + olds == (before + olds) + multiset{v};
  }

  /** Nothing is lost or copied: values used and values on the wires are the values made. */
  ghost predicate Conserves(args: seq<ValueId>, t: Threaded) {
    Uses(t.ops) + multiset(t.wires) == multiset(args) + Defs(t.ops)
  }

  lemma {:induction false} PlaceAllConserves(args: seq<ValueId>, next: ValueId, gs: seq<WireGate>)
    requires AllOnWires(gs, |args|) && forall i | 0 <= i < |gs| :: DistinctWires(gs[i])
    ensures Conserves(args, PlaceAll(Start(args, next), gs))
  {
    if gs != [] {
      var (init, g) := (gs[..|gs| - 1], gs[|gs| - 1]);
      var t := PlaceAll(Start(args, next), init);
      var r := PlaceGate(t, g);
      assert PlaceAll(Start(args, next), gs) == r && r.wires == Overwrite(t.wires, g.qubits, Fresh(t.next, |g.qubits|));
      PlaceAllConserves(args, next, init);
      OverwriteTrades(t.wires, g.qubits, Fresh(t.next, |g.qubits|));
      hide PlaceAll, PlaceGate, Overwrite, At, Fresh, Uses, Defs, DistinctWires, OnWires;
      Balance(Uses(t.ops), multiset(t.wires), multiset(args), Defs(t.ops), multiset(At(t.wires, g.qubits)),
              multiset(Fresh(t.next, |g.qubits|)), multiset(r.wires));
    }
  }

  lemma Balance(uses: multiset<ValueId>, wires: multiset<ValueId>, args: multiset<ValueId>, defs: multiset<ValueId>,
                spent: multiset<ValueId>, made: multiset<ValueId>, after: multiset<ValueId>)
    requires uses + wires == args + defs && after + spent == wires + made
    ensures (uses + spent) + after == args + (defs + made)
  {
    assert (uses + spent) + after == uses + (after + spent);
    assert uses + (wires + made) == (uses + wires) + made;
  }

  /** No value is defined twice, or defined and also an argument. */
  ghost predicate Single(vs: multiset<ValueId>, next: ValueId) {
    forall v :: vs[v] <= if v < next then 1 else 0
  }

  lemma ArgsAreSingle(args: seq<ValueId>, next: ValueId)
    requires Distinct(args) && (forall v | v in args :: v < next)
    ensures Single(multiset(args) + multiset{}, next)
  {
    DistinctCounts(args);
    assert forall v | multiset(args)[v] > 0 :: v in args;
  }

  lemma {:induction false} DefsAreSingle(args: seq<ValueId>, next: ValueId, gs: seq<WireGate>)
    requires Distinct(args) && (forall v | v in args :: v < next) && AllOnWires(gs, |args|)
    ensures var t := PlaceAll(Start(args, next), gs); Single(multiset(args) + Defs(t.ops), t.next)
  {
    if gs == [] {
      ArgsAreSingle(args, next);
    } else {
      var (init, g) := (gs[..|gs| - 1], gs[|gs| - 1]);
      var t := PlaceAll(Start(args, next), init);
      DefsAreSingle(args, next, init);
      FreshIsSingle(t.next, |g.qubits|);
      assert PlaceAll(Start(args, next), gs) == PlaceGate(t, g) && PlaceGate(t, g).next == t.next + |g.qubits|;
      hide *;
      SingleStep(multiset(args), Defs(t.ops), multiset(Fresh(t.next, |g.qubits|)), t.next, |g.qubits|);
    }
  }

  lemma SingleStep(args: multiset<ValueId>, defs: multiset<ValueId>, made: multiset<ValueId>, next: ValueId, k: nat)
    requires Single(args + defs, next) && forall v :: made[v] <= if next <= v < next + k then 1 else 0
    ensures Single(args + (defs + made), next + k)
  {
    forall v: ValueId ensures (args + (defs + made))[v] <= if v < next + k then 1 else 0 {
      assert (args + (defs + made))[v] == (args + defs)[v] + made[v];
    }
  }

  lemma FreshIsSingle(next: ValueId, k: nat)
    ensures forall v :: multiset(Fresh(next, k))[v] <= if next <= v < next + k then 1 else 0
  {
    DistinctCounts(Fresh(next, k));
    assert forall v | multiset(Fresh(next, k))[v] > 0 :: v in Fresh(next, k);
  }

  lemma {:induction false} DistinctCounts(vs: seq<ValueId>)
    requires Distinct(vs)
    ensures forall v :: multiset(vs)[v] <= 1
  {
    if vs != [] {
      var n := |vs| - 1;
      DistinctCounts(vs[..n]);
      assert vs == vs[..n] + [vs[n]];
      assert vs[n] !in vs[..n];
    }
  }

  /** The finished block: the placed gates, then the return of the wires. */
  function Finished(t: Threaded): seq<Op> { t.ops + [ReturnOp(t.wires, [])] }

  lemma ConservedIsLinear(args: seq<ValueId>, t: Threaded)
    requires Conserves(args, t) && Single(multiset(args) + Defs(t.ops), t.next)
    ensures Linear(args, Finished(t))
  {
    var done := Finished(t);
    assert done[..|t.ops|] == t.ops;
    assert Uses(done) == Uses(t.ops) + multiset(t.wires) && Defs(done) == Defs(t.ops);
    var all := multiset(args) + Defs(t.ops);
    forall v | v in args || v in Defs(done) ensures Uses(done)[v] == 1 {
      if v in args { assert v in multiset(args); }
      assert all[v] >= 1;
    }
  }

  /** The finished block is linear exactly when every gate stands on distinct wires. */
  lemma LinearIffDistinct(args: seq<ValueId>, next: ValueId, gs: seq<WireGate>)
    requires Distinct(args) && (forall v | v in args :: v < next) && AllOnWires(gs, |args|)
    ensures Linear(args, Finished(PlaceAll(Start(args, next), gs))) <==> forall i | 0 <= i < |gs| :: DistinctWires(gs[i])
  {
    if forall i | 0 <= i < |gs| :: DistinctWires(gs[i]) {
      hide PlaceAll;
      var t := PlaceAll(Start(args, next), gs);
      DefsAreSingle(args, next, gs);
      PlaceAllConserves(args, next, gs);
      ConservedIsLinear(args, t);
    } else {
      var k :| 0 <= k < |gs| && !DistinctWires(gs[k]);
      UsedTwice(args, next, gs, k);
    }
  }

  /** For example, `CNOT @ (0, 0)` on a block of one wire reads the argument twice and leaves one of its
      two results unused. */
  lemma CnotOnOneWire()
    ensures var (args, gate) := ([10], WireGate("CNOT", [0, 0], None, 1, true));
            var block := Finished(PlaceAll(Start(args, 11), [gate]));
            && block == [GateOpOf(gate, [10, 10], [11, 12]), ReturnOp([12], [])]
            && !Linear(args, block)
  {
    var (args, gate) := ([10], WireGate("CNOT", [0, 0], None, 1, true));
    assert PlaceAll(Start(args, 11), [gate]) == PlaceGate(PlaceAll(Start(args, 11), []), gate);
    assert At(args, [0, 0]) == [10, 10] && Fresh(11, 2) == [11, 12];
    assert Overwrite(args, [0, 0], [11, 12]) == [12] by {
      assert [0, 0][..1] == [0] && [11, 12][..1] == [11] && [0][..0] == [] && [11][..0] == [];
      assert Overwrite(args, [0], [11]) == [11];
    }
    assert gate.qubits[0] == gate.qubits[1] && !DistinctWires(gate);
    assert !DistinctWires([gate][0]);
    LinearIffDistinct(args, 11, [gate]);
  }

  lemma UsedTwice(args: seq<ValueId>, next: ValueId, gs: seq<WireGate>, k: nat)
    requires Distinct(args) && (forall v | v in args :: v < next) && AllOnWires(gs, |args|)
    requires k < |gs| && !DistinctWires(gs[k])
    ensures !Linear(args, Finished(PlaceAll(Start(args, next), gs)))
  {
    hide PlaceAll, PlaceGate, Uses, Defs, Finished, Linear, Distinct;
    var q := gs[k].qubits;
    var i, j :| 0 <= i < j < |q| && q[i] == q[j];
    assert OnWires(gs[k], |args|);
    UsedTwiceAt(args, next, gs, k, i, j);
  }

  lemma UsedTwiceAt(args: seq<ValueId>, next: ValueId, gs: seq<WireGate>, k: nat, i: nat, j: nat)
    requires Distinct(args) && (forall v | v in args :: v < next) && AllOnWires(gs, |args|)
    requires k < |gs| && i < j < |gs[k].qubits| && gs[k].qubits[i] == gs[k].qubits[j]
    requires OnWires(gs[k], |args|)
    ensures !Linear(args, Finished(PlaceAll(Start(args, next), gs)))
  {
    hide PlaceAll, PlaceGate, Uses, Defs, Finished, DistinctWires, Linear, Distinct;
    var q := gs[k].qubits;
    assert AllOnWires(gs[..k], |args|);
    var before := PlaceAll(Start(args, next), gs[..k]);
    var done := Finished(PlaceAll(Start(args, next), gs));
    PlacedAt(args, next, gs, k);
    var (v, operands) := (before.wires[q[i]], At(before.wires, q));
    TwiceCounts(operands, i, j);
    UsesAtLeast(done, k, v);
    WiresAreDefined(args, next, gs[..k], q[i]);
    DefsPrefix(done, k, v);
    NotLinear(args, done, v);
  }

  lemma NotLinear(args: seq<ValueId>, ops: seq<Op>, v: ValueId)
    requires Uses(ops)[v] > 1 && (v in args || v in Defs(ops))
    ensures !Linear(args, ops)
  {
  }

  lemma PlacedAt(args: seq<ValueId>, next: ValueId, gs: seq<WireGate>, k: nat)
    requires AllOnWires(gs, |args|) && k < |gs|
    ensures var (before, done) := (PlaceAll(Start(args, next), gs[..k]), Finished(PlaceAll(Start(args, next), gs)));
            && |done| == |gs| + 1 && done[..k] == before.ops
            && done[k] == GateOpOf(gs[k], At(before.wires, gs[k].qubits), Fresh(before.next, |gs[k].qubits|))
  {
    var t0 := Start(args, next);
    PlaceAllPrefix(t0, gs, k);
    PlaceAllPrefix(t0, gs, k + 1);
    assert gs[..k + 1][..k] == gs[..k];
    assert PlaceAll(t0, gs[..k + 1]) == PlaceGate(PlaceAll(t0, gs[..k]), gs[k]);
    assert PlaceAll(t0, gs[..k + 1]).ops[k] == PlaceAll(t0, gs).ops[k];
  }

  lemma TwiceCounts(vs: seq<ValueId>, i: nat, j: nat)
    requires i < j < |vs| && vs[i] == vs[j]
    ensures multiset(vs)[vs[i]] >= 2
  {
    assert vs == vs[..i] + [vs[i]] + vs[i + 1..j] + [vs[j]] + vs[j + 1..];
  }

  lemma {:induction false} UsesAtLeast(ops: seq<Op>, k: nat, v: ValueId)
    requires k < |ops|
    ensures Uses(ops)[v] >= multiset(ops[k].operands)[v]
  {
    var n := |ops| - 1;
    if k < n { UsesAtLeast(ops[..n], k, v); }
  }

  lemma {:induction false} DefsPrefix(ops: seq<Op>, k: nat, v: ValueId)
    requires k <= |ops|
    ensures Defs(ops)[v] >= Defs(ops[..k])[v]
  {
    if k < |ops| {
      var n := |ops| - 1;
      DefsPrefix(ops[..n], k, v);
      assert ops[..n][..k] == ops[..k];
    } else {
      assert ops[..k] == ops;
    }
  }

  /** The value on a wire is an argument or a result. */
  lemma {:induction false} WiresAreDefined(args: seq<ValueId>, next: ValueId, gs: seq<WireGate>, q: nat)
    requires AllOnWires(gs, |args|) && q < |args|
    ensures var t := PlaceAll(Start(args, next), gs); t.wires[q] in args || t.wires[q] in Defs(t.ops)
  {
    if gs != [] {
      var (init, g) := (gs[..|gs| - 1], gs[|gs| - 1]);
      WiresAreDefined(args, next, init, q);
      var t := PlaceAll(Start(args, next), init);
      var r := PlaceGate(t, g);
      var made := Fresh(t.next, |g.qubits|);
      OverwriteAt(t.wires, g.qubits, made, q);
      assert r.ops[..|t.ops|] == t.ops;
      if q in g.qubits {
        var i :| 0 <= i < |g.qubits| && g.qubits[i] == q && r.wires[q] == made[i];
        assert made[i] in multiset(made);
      }
    }
  }
}
