/** Circuit metrics: the as-soon-as-possible depth of a gate list, and the counters beside it. */
module Depth {
  import opened Ast

  /** The qubits each gate touches, in program order. */
  type Gates = seq<seq<int>>

  predicate Shares(a: seq<int>, b: seq<int>) { exists q | q in a :: q in b }

  // ── Layers ─────────────────────────────────────────────────────────────────

  /** One past the highest layer among the gates that share a qubit with `g`. */
  function NextLayer(gs: Gates, layers: seq<nat>, g: seq<int>): nat
    requires |gs| == |layers|
  {
    if gs == [] then 0
    else
      var n := |gs| - 1;
      var below := NextLayer(gs[..n], layers[..n], g);
      if Shares(gs[n], g) && layers[n] + 1 > below then layers[n] + 1 else below
  }

  /** The layer of every gate: as early as the gates before it allow. */
  function Layers(gs: Gates): (ls: seq<nat>)
    ensures |ls| == |gs|
  {
    if gs == [] then []
    else
      var n := |gs| - 1;
      var before := Layers(gs[..n]);
      before + [NextLayer(gs[..n], before, gs[n])]
  }

  function LayerCount(layers: seq<nat>): nat {
    if layers == [] then 0
    else
      var n := |layers| - 1;
      var below := LayerCount(layers[..n]);
      if layers[n] + 1 > below then layers[n] + 1 else below
  }

  function DagDepth(gs: Gates): nat { LayerCount(Layers(gs)) }

  /** Gates that share a qubit stand in program order. */
  ghost predicate LegalLayering(gs: Gates, layers: seq<nat>) {
    && |layers| == |gs|
    && forall i, j | 0 <= i < j < |gs| && Shares(gs[i], gs[j]) :: layers[i] < layers[j]
  }

  /** `m` is the layer of `g` after the gates `gs`. */
  ghost predicate IsNext(gs: Gates, layers: seq<nat>, g: seq<int>, m: nat)
    requires |gs| == |layers|
  {
    && (forall i | 0 <= i < |gs| && Shares(gs[i], g) :: layers[i] < m)
    && (m == 0 || exists i | 0 <= i < |gs| :: Shares(gs[i], g) && layers[i] + 1 == m)
  }

  lemma {:induction false} NextLayerIsNext(gs: Gates, layers: seq<nat>, g: seq<int>)
    requires |gs| == |layers|
    ensures IsNext(gs, layers, g, NextLayer(gs, layers, g))
  {
    if gs != [] {
      var n := |gs| - 1;
      NextLayerIsNext(gs[..n], layers[..n], g);
      var below := NextLayer(gs[..n], layers[..n], g);
      forall i | 0 <= i < |gs| && Shares(gs[i], g) ensures layers[i] < NextLayer(gs, layers, g) {
        if i < n { assert gs[..n][i] == gs[i] && layers[..n][i] == layers[i]; }
      }
      if below > 0 {
        var i :| 0 <= i < n && Shares(gs[..n][i], g) && layers[..n][i] + 1 == below;
        assert Shares(gs[i], g) && layers[i] + 1 == below;
      }
    }
  }

  lemma {:induction false} LayersPrefix(gs: Gates, k: nat)
    requires k <= |gs|
    ensures Layers(gs[..k]) == Layers(gs)[..k]
  {
    if k < |gs| {
      var n := |gs| - 1;
      LayersPrefix(gs[..n], k);
      assert gs[..n][..k] == gs[..k];
    } else {
      assert gs[..k] == gs;
    }
  }

  lemma LayerAt(gs: Gates, i: nat)
    requires i < |gs|
    ensures IsNext(gs[..i], Layers(gs)[..i], gs[i], Layers(gs)[i])
  {
    LayersPrefix(gs, i);
    LayersPrefix(gs, i + 1);
    var upto := gs[..i + 1];
    assert upto[..i] == gs[..i];
    assert Layers(upto)[i] == Layers(gs)[i];
    NextLayerIsNext(gs[..i], Layers(gs[..i]), gs[i]);
  }

  lemma {:induction false} CountBounds(layers: seq<nat>, k: nat)
    ensures LayerCount(layers) <= k <==> forall i | 0 <= i < |layers| :: layers[i] < k
    ensures layers != [] ==> exists i | 0 <= i < |layers| :: layers[i] + 1 == LayerCount(layers)
  {
    if layers != [] {
      var n := |layers| - 1;
      CountBounds(layers[..n], k);
      assert forall i | 0 <= i < n :: layers[..n][i] == layers[i];
      assert (forall i | 0 <= i < |layers| :: layers[i] < k) <==> (forall i | 0 <= i < n :: layers[..n][i] < k) && layers[n] < k;
      if LayerCount(layers) != layers[n] + 1 && n > 0 {
        var i :| 0 <= i < n && layers[..n][i] + 1 == LayerCount(layers[..n]);
        assert layers[i] + 1 == LayerCount(layers);
      }
    }
  }

  /** The layers respect program order on every shared qubit. */
  lemma LayersAreLegal(gs: Gates)
    ensures LegalLayering(gs, Layers(gs))
  {
    forall i, j | 0 <= i < j < |gs| && Shares(gs[i], gs[j]) ensures Layers(gs)[i] < Layers(gs)[j] {
      LayerAt(gs, j);
      assert gs[..j][i] == gs[i];
    }
  }

  /** No legal layering puts any gate earlier. */
  lemma {:induction false} LayersAreEarliest(gs: Gates, layers: seq<nat>, i: nat)
    requires LegalLayering(gs, layers) && i < |gs|
    ensures Layers(gs)[i] <= layers[i]
    decreases i
  {
    LayerAt(gs, i);
    var m := Layers(gs)[i];
    if m > 0 {
      var j :| 0 <= j < i && Shares(gs[..i][j], gs[i]) && Layers(gs)[..i][j] + 1 == m;
      LayersAreEarliest(gs, layers, j);
    }
  }

  /** No legal layering of any gate list uses fewer layers. */
  lemma DepthIsOptimal(gs: Gates, layers: seq<nat>)
    requires LegalLayering(gs, layers)
    ensures DagDepth(gs) <= LayerCount(layers)
  {
    var k := LayerCount(layers);
    CountBounds(layers, k);
    forall i | 0 <= i < |gs| ensures Layers(gs)[i] < k { LayersAreEarliest(gs, layers, i); }
    CountBounds(Layers(gs), k);
  }

  // ── Chains ─────────────────────────────────────────────────────────────────

  /** Gates in program order, each sharing a qubit with the next. */
  ghost predicate Chain(gs: Gates, c: seq<nat>) {
    && (forall i | 0 <= i < |c| :: c[i] < |gs|)
    && (forall i | 0 < i < |c| :: c[i - 1] < c[i] && Shares(gs[c[i - 1]], gs[c[i]]))
  }

  lemma {:induction false} ChainBound(gs: Gates, c: seq<nat>)
    requires Chain(gs, c) && c != []
    ensures |c| <= Layers(gs)[c[|c| - 1]] + 1
  {
    if |c| > 1 {
      ChainBound(gs, c[..|c| - 1]);
      LayersAreLegal(gs);
    }
  }

  lemma {:induction false} ChainTo(gs: Gates, i: nat) returns (c: seq<nat>)
    requires i < |gs|
    ensures Chain(gs, c) && |c| == Layers(gs)[i] + 1 && c[|c| - 1] == i
    decreases i
  {
    LayerAt(gs, i);
    var m := Layers(gs)[i];
    if m == 0 {
      c := [i];
    } else {
      var j :| 0 <= j < i && Shares(gs[..i][j], gs[i]) && Layers(gs)[..i][j] + 1 == m;
      c := ChainTo(gs, j);
      c := c + [i];
    }
  }

  /** The depth is the length of a longest chain. */
  lemma DepthIsLongestChain(gs: Gates)
    ensures exists c :: Chain(gs, c) && |c| == DagDepth(gs)
    ensures forall c | Chain(gs, c) :: |c| <= DagDepth(gs)
  {
    CountBounds(Layers(gs), DagDepth(gs));
    if gs == [] {
      assert Chain(gs, []);
    } else {
      var i :| 0 <= i < |gs| && Layers(gs)[i] + 1 == DagDepth(gs);
      var c := ChainTo(gs, i);
    }
    forall c | Chain(gs, c) ensures |c| <= DagDepth(gs) {
      if c != [] { ChainBound(gs, c); }
    }
  }

  lemma DepthAtMostCount(gs: Gates)
    ensures DagDepth(gs) <= |gs|
  {
    var layers := seq(|gs|, i => i);
    DepthIsOptimal(gs, layers);
    CountBounds(layers, |gs|);
  }

  // ── Concatenation ──────────────────────────────────────────────────────────

  function Later(layers: seq<nat>, k: nat): (r: seq<nat>)
    ensures |r| == |layers| && forall i | 0 <= i < |layers| :: r[i] == layers[i] + k
  {
    seq(|layers|, i requires 0 <= i < |layers| => layers[i] + k)
  }

  lemma CountConcat(la: seq<nat>, lb: seq<nat>, k: nat)
    requires LayerCount(la) <= k && LayerCount(lb) <= k
    ensures LayerCount(la + lb) <= k
  {
    CountBounds(la, k);
    CountBounds(lb, k);
    CountBounds(la + lb, k);
  }

  /** Running one list after another costs at most the sum of the depths. */
  lemma DepthOfConcat(a: Gates, b: Gates)
    ensures DagDepth(a + b) <= DagDepth(a) + DagDepth(b)
    ensures DagDepth(a) <= DagDepth(a + b) && DagDepth(b) <= DagDepth(a + b)
  {
    hide LayerCount, Layers, Shares;
    var k := DagDepth(a);
    var lb := Later(Layers(b), k);
    LayersAreLegal(a);
    LayersAreLegal(b);
    CountBounds(Layers(a), k);
    CountBounds(Layers(b), DagDepth(b));
    CountBounds(lb, k + DagDepth(b));
    CountConcat(Layers(a), lb, k + DagDepth(b));
    DepthIsOptimal(a + b, Layers(a) + lb);
    PartsAreNoDeeper(a, b);
  }

  lemma PartsAreNoDeeper(a: Gates, b: Gates)
    ensures DagDepth(a) <= DagDepth(a + b) && DagDepth(b) <= DagDepth(a + b)
  {
    hide LayerCount, Layers, Shares;
    var all := Layers(a + b);
    LayersAreLegal(a + b);
    CountBounds(all, DagDepth(a + b));
    var (la, lb) := (all[..|a|], all[|a|..]);
    forall i, j | 0 <= i < j < |b| && Shares(b[i], b[j]) ensures lb[i] < lb[j] {
      assert (a + b)[|a| + i] == b[i] && (a + b)[|a| + j] == b[j];
    }
    assert LegalLayering(a, la) by {
      assert forall i | 0 <= i < |a| :: (a + b)[i] == a[i];
    }
    DepthIsOptimal(a, la);
    DepthIsOptimal(b, lb);
    CountBounds(la, DagDepth(a + b));
    CountBounds(lb, DagDepth(a + b));
  }

  /** Lists with no qubit in common run side by side. */
  lemma DepthOfDisjoint(a: Gates, b: Gates)
    requires forall i, j | 0 <= i < |a| && 0 <= j < |b| :: !Shares(a[i], b[j])
    ensures DagDepth(a + b) == if DagDepth(a) > DagDepth(b) then DagDepth(a) else DagDepth(b)
  {
    var k := if DagDepth(a) > DagDepth(b) then DagDepth(a) else DagDepth(b);
    LayersAreLegal(a);
    LayersAreLegal(b);
    CountConcat(Layers(a), Layers(b), k);
    DepthIsOptimal(a + b, Layers(a) + Layers(b));
    PartsAreNoDeeper(a, b);
  }

  /** Depth looks only at which gates share qubits. */
  lemma {:induction false} DepthBySharing(a: Gates, b: Gates)
    requires |a| == |b|
    requires forall i, j | 0 <= i < |a| && 0 <= j < |a| :: Shares(a[i], a[j]) <==> Shares(b[i], b[j])
    ensures DagDepth(a) == DagDepth(b)
  {
    LayersAreLegal(a);
    LayersAreLegal(b);
    DepthIsOptimal(a, Layers(b));
    DepthIsOptimal(b, Layers(a));
  }

  // ── The one-pass algorithm ─────────────────────────────────────────────────

  datatype GateVisit = GateVisit(name: string, scheduleTime: Option<int>, physQubits: seq<int>)

  function QubitsOf(visits: seq<GateVisit>): (gs: Gates)
    ensures |gs| == |visits| && forall i | 0 <= i < |visits| :: gs[i] == visits[i].physQubits
  {
    seq(|visits|, i requires 0 <= i < |visits| => visits[i].physQubits)
  }

  /** `last` holds, per qubit, the layer of the last gate on it, which is the highest one on it. */
  ghost predicate LastLayers(gs: Gates, layers: seq<nat>, last: map<int, nat>)
    requires |gs| == |layers|
  {
    && (forall q | q in last :: exists i | 0 <= i < |gs| :: q in gs[i] && layers[i] == last[q])
    && (forall i, q | 0 <= i < |gs| && q in gs[i] :: q in last && layers[i] <= last[q])
  }

  /** One gate's layer from the last layers of its qubits. */
  method LayerOf(last: map<int, nat>, g: seq<int>, ghost gs: Gates, ghost layers: seq<nat>) returns (layer: nat)
    requires |gs| == |layers| && LastLayers(gs, layers, last)
    ensures layer == NextLayer(gs, layers, g)
  {
    layer := 0;
    for i := 0 to |g|
      invariant forall j | 0 <= j < i && g[j] in last :: last[g[j]] < layer
      invariant layer == 0 || exists j | 0 <= j < i :: g[j] in last && last[g[j]] + 1 == layer
    {
      if g[i] in last && last[g[i]] + 1 > layer { layer := last[g[i]] + 1; }
    }
    forall i | 0 <= i < |gs| && Shares(gs[i], g) ensures layers[i] < layer {
      var q :| q in gs[i] && q in g;
    }
    if layer > 0 {
      ghost var j :| 0 <= j < |g| && g[j] in last && last[g[j]] + 1 == layer;
      ghost var q := g[j];
      ghost var i :| 0 <= i < |gs| && q in gs[i] && layers[i] == last[q];
      assert Shares(gs[i], g);
    }
    NextLayerIsNext(gs, layers, g);
  }

  /** Enters one gate's layer for its qubits. */
  method RecordLayer(last: map<int, nat>, g: seq<int>, layer: nat, ghost gs: Gates, ghost layers: seq<nat>)
    returns (now: map<int, nat>)
    requires |gs| == |layers| && LastLayers(gs, layers, last) && IsNext(gs, layers, g, layer)
    ensures LastLayers(gs + [g], layers + [layer], now)
  {
    now := last;
    for k := 0 to |g|
      invariant forall q | q in g[..k] :: q in now && now[q] == layer
      invariant forall q | q !in g[..k] :: (q in now <==> q in last) && (q in last ==> now[q] == last[q])
    {
      now := now[g[k] := layer];
      assert g[..k + 1] == g[..k] + [g[k]];
    }
    assert g[..|g|] == g;
    LastLayersStep(gs, layers, g, layer, last, now);
  }

  /** `gate_dag_depth` computes the depth in one pass. */
  method GateDagDepth(visits: seq<GateVisit>) returns (depth: nat)
    ensures depth == DagDepth(QubitsOf(visits))
  {
    if visits == [] { return 0; }
    hide LastLayers, NextLayer, IsNext;
    var lastLayer: map<int, nat> := map[];
    var maxLayer: nat := 0;
    ghost var gs := QubitsOf(visits);
    for i := 0 to |visits|
      invariant LastLayers(gs[..i], Layers(gs[..i]), lastLayer)
      invariant i > 0 ==> maxLayer + 1 == LayerCount(Layers(gs[..i]))
      invariant i == 0 ==> maxLayer == 0
    {
      var layer := LayerOf(lastLayer, visits[i].physQubits, gs[..i], Layers(gs[..i]));
      if layer > maxLayer { maxLayer := layer; }
      NextLayerIsNext(gs[..i], Layers(gs[..i]), gs[i]);
      lastLayer := RecordLayer(lastLayer, visits[i].physQubits, layer, gs[..i], Layers(gs[..i]));
      OneMore(gs, i);
    }
    assert gs[..|visits|] == gs;
    depth := maxLayer + 1;
  }

  lemma OneMore(gs: Gates, i: nat)
    requires i < |gs|
    ensures var layer := NextLayer(gs[..i], Layers(gs[..i]), gs[i]);
            var layers := Layers(gs[..i + 1]);
            && gs[..i + 1] == gs[..i] + [gs[i]]
            && layers == Layers(gs[..i]) + [layer]
            && (i == 0 ==> LayerCount(layers) == layer + 1)
            && LayerCount(layers) == if layer + 1 > LayerCount(Layers(gs[..i])) then layer + 1 else LayerCount(Layers(gs[..i]))
  {
    assert gs[..i + 1][..i] == gs[..i];
    assert Layers(gs[..i + 1])[..i] == Layers(gs[..i]);
  }

  lemma LastLayersStep(gs: Gates, layers: seq<nat>, g: seq<int>, layer: nat, was: map<int, nat>, now: map<int, nat>)
    requires |gs| == |layers| && LastLayers(gs, layers, was) && IsNext(gs, layers, g, layer)
    requires forall q | q in g :: q in now && now[q] == layer
    requires forall q | q !in g :: (q in now <==> q in was) && (q in was ==> now[q] == was[q])
    ensures LastLayers(gs + [g], layers + [layer], now)
  {
    var (gs', layers') := (gs + [g], layers + [layer]);
    forall q | q in now ensures exists i | 0 <= i < |gs'| :: q in gs'[i] && layers'[i] == now[q] {
      if q in g {
        assert q in gs'[|gs|] && layers'[|gs|] == now[q];
      } else {
        var i :| 0 <= i < |gs| && q in gs[i] && layers[i] == was[q];
        assert q in gs'[i] && layers'[i] == now[q];
      }
    }
    forall i, q | 0 <= i < |gs'| && q in gs'[i] ensures q in now && layers'[i] <= now[q] {
      if i < |gs| && q in g { assert Shares(gs[i], g); }
    }
  }

  // ── The counters ───────────────────────────────────────────────────────────

  datatype Metrics = Metrics(depth: nat, gateCount: nat, tCount: nat, swapCount: nat, qubitCount: nat)

  predicate IsSpace(c: char) { c == ' ' || '\t' <= c <= '\r' }

  function Trim(s: string): string
    decreases |s|
  {
    if s != [] && IsSpace(s[0]) then Trim(s[1..])
    else if s != [] && IsSpace(s[|s| - 1]) then Trim(s[..|s| - 1])
    else s
  }

  function Lower(s: string): string {
    seq(|s|, i requires 0 <= i < |s| => if 'A' <= s[i] <= 'Z' then s[i] - 'A' + 'a' else s[i])
  }

  predicate IsTGate(name: string) {
    var n := Lower(Trim(name));
    n == "t" || n == "tdg" || n == "t\U{2020}" || n == "t_dg"
  }

  predicate IsSwapGate(name: string) { Lower(Trim(name)) == "swap" }

  /** The positions of the T gates. */
  function TGates(visits: seq<GateVisit>): set<nat> {
    set i: nat | i < |visits| && IsTGate(visits[i].name)
  }

  function SwapGates(visits: seq<GateVisit>): set<nat> {
    set i: nat | i < |visits| && IsSwapGate(visits[i].name)
  }

  /** `m` is the latest scheduled time, if any gate has one. */
  ghost predicate Latest(visits: seq<GateVisit>, m: Option<int>) {
    match m
    case None => forall v | v in visits :: v.scheduleTime.None?
    case Some(t) =>
      && (exists v | v in visits :: v.scheduleTime == m)
      && (forall v | v in visits && v.scheduleTime.Some? :: v.scheduleTime.value <= t)
  }

  /** `m` is the highest qubit touched, if any is. */
  ghost predicate Highest(visits: seq<GateVisit>, m: Option<int>) {
    match m
    case None => forall v | v in visits :: v.physQubits == []
    case Some(q) =>
      && (exists v | v in visits :: q in v.physQubits)
      && (forall v, x | v in visits && x in v.physQubits :: x <= q)
  }

  /** The `as u64` cast of a signed integer. */
  function AsU64(n: int): nat { n % 0x1_0000_0000_0000_0000 }

  function Larger(m: Option<int>, x: int): Option<int> {
    if m.Some? && m.value >= x then m else Some(x)
  }

  method LargestOf(m: Option<int>, qs: seq<int>) returns (r: Option<int>)
    ensures r.None? <==> m.None? && qs == []
    ensures r.Some? ==> r == m || r.value in qs
    ensures r.Some? ==> (m.Some? ==> m.value <= r.value) && forall x | x in qs :: x <= r.value
  {
    r := m;
    for k := 0 to |qs|
      invariant r.None? <==> m.None? && k == 0
      invariant r.Some? ==> r == m || r.value in qs
      invariant r.Some? ==> (m.Some? ==> m.value <= r.value) && forall i | 0 <= i < k :: qs[i] <= r.value
    {
      r := Larger(r, qs[k]);
    }
  }

  lemma CountT(visits: seq<GateVisit>, i: nat)
    requires i < |visits|
    ensures |TGates(visits[..i + 1])| == |TGates(visits[..i])| + if IsTGate(visits[i].name) then 1 else 0
  {
    hide IsTGate;
    assert TGates(visits[..i + 1]) == TGates(visits[..i]) + if IsTGate(visits[i].name) then {i} else {};
  }

  lemma CountSwaps(visits: seq<GateVisit>, i: nat)
    requires i < |visits|
    ensures |SwapGates(visits[..i + 1])| == |SwapGates(visits[..i])| + if IsSwapGate(visits[i].name) then 1 else 0
  {
    hide IsSwapGate;
    assert SwapGates(visits[..i + 1]) == SwapGates(visits[..i]) + if IsSwapGate(visits[i].name) then {i} else {};
  }

  lemma LatestStep(visits: seq<GateVisit>, i: nat, m: Option<int>)
    requires i < |visits| && Latest(visits[..i], m)
    ensures var t := visits[i].scheduleTime; Latest(visits[..i + 1], if t.Some? then Larger(m, t.value) else m)
  {
    assert visits[..i + 1] == visits[..i] + [visits[i]];
    assert visits[i] in visits[..i + 1];
  }

  lemma HighestStep(visits: seq<GateVisit>, i: nat, m: Option<int>, r: Option<int>)
    requires i < |visits| && Highest(visits[..i], m)
    requires r.None? <==> m.None? && visits[i].physQubits == []
    requires r.Some? ==> r == m || r.value in visits[i].physQubits
    requires r.Some? ==> (m.Some? ==> m.value <= r.value) && forall x | x in visits[i].physQubits :: x <= r.value
    ensures Highest(visits[..i + 1], r)
  {
    assert visits[..i + 1] == visits[..i] + [visits[i]];
    assert visits[i] in visits[..i + 1];
  }

  lemma NothingYet(visits: seq<GateVisit>)
    ensures TGates(visits[..0]) == {} && SwapGates(visits[..0]) == {}
    ensures Latest(visits[..0], None) && Highest(visits[..0], None)
  {
  }

  /** `aggregate_visits`: counts per name, the highest qubit, and the depth, from the schedule where
      one is recorded and otherwise from the gate dependences. */
  method AggregateVisits(visits: seq<GateVisit>, countT: bool) returns (m: Metrics)
    ensures m.gateCount == |visits|
    ensures m.tCount == if countT then |TGates(visits)| else 0
    ensures m.swapCount == |SwapGates(visits)|
    ensures exists t :: Latest(visits, t) &&
                        m.depth == if t.Some? then AsU64(t.value + 1) else DagDepth(QubitsOf(visits))
    ensures exists q :: Highest(visits, q) &&
                        m.qubitCount == if q.Some? then AsU64(q.value + 1) else 0
  {
    hide IsTGate, IsSwapGate, TGates, SwapGates, Latest, Highest;
    var gates, ts, swaps := 0, 0, 0;
    var maxSchedule: Option<int> := None;
    var maxPhys: Option<int> := None;
    NothingYet(visits);
    for i := 0 to |visits|
      invariant gates == i && swaps == |SwapGates(visits[..i])|
      invariant ts == if countT then |TGates(visits[..i])| else 0
      invariant Latest(visits[..i], maxSchedule) && Highest(visits[..i], maxPhys)
    {
      var v := visits[i];
      CountT(visits, i);
      CountSwaps(visits, i);
      gates := gates + 1;
      if countT && IsTGate(v.name) { ts := ts + 1; }
      if IsSwapGate(v.name) { swaps := swaps + 1; }
      ghost var (t, q) := (maxSchedule, maxPhys);
      if v.scheduleTime.Some? { maxSchedule := Larger(maxSchedule, v.scheduleTime.value); }
      maxPhys := LargestOf(maxPhys, v.physQubits);
      LatestStep(visits, i, t);
      HighestStep(visits, i, q, maxPhys);
    }
    assert visits[..|visits|] == visits;
    var depth: nat;
    if maxSchedule.Some? { depth := AsU64(maxSchedule.value + 1); } else { depth := GateDagDepth(visits); }
    m := Metrics(depth, gates, ts, swaps, if maxPhys.Some? then AsU64(maxPhys.value + 1) else 0);
  }
}
