/** The walk of a nested program and the walk of its inlining. */
module WalkRefinement {
  import opened Ast
  import opened Ssa
  import opened DynamicWalk
  import opened WalkLaws

  // ── Inlining ───────────────────────────────────────────────────────────────

  /** Inlines every region: its arguments are replaced by its operation's operands, and the
      operation's results by what it yields. An `if` becomes its then-body, then its else-body on the
      wires that come out. `sub` says which value stands for each value replaced so far. */
  function InlineOps(sub: Roots, ops: seq<DynOp>): (Roots, seq<DynOp>)
    decreases ops
  {
    if ops == [] || ops[0].Ends() then (sub, [])
    else
      var (s1, f1) := InlineOp(sub, ops[0]);
      var (s2, f2) := InlineOps(s1, ops[1..]);
      (s2, f1 + f2)
  }

  function InlineOp(sub: Roots, op: DynOp): (Roots, seq<DynOp>)
    requires !op.Ends()
    decreases op, 1
  {
    match op
    case Leaf(kind, name, operands, results) => (sub, [Leaf(kind, name, RootsOf(sub, operands), results)])
    case UnitaryRegion(operands, results, body) =>
      var (s1, f, outs) := InlineBody(sub, body, RootsOf(sub, operands));
      (Zip(s1, results, outs), f)
    case IfOp(operands, results, thn, els) =>
      var (s1, f, mid) := InlineBody(sub, thn, RootsOf(sub, operands));
      var (s2, g, outs) := InlineBody(s1, els, mid);
      (Zip(s2, results, outs), f + g)
  }

  /** The body on the wires `ins`, and the wires that come out of it. */
  function InlineBody(sub: Roots, body: Option<Block>, ins: seq<ValueId>): (Roots, seq<DynOp>, seq<ValueId>)
    decreases body, 0
  {
    match body
    case None => (sub, [], ins)
    case Some(b) =>
      var (s1, f) := InlineOps(Zip(sub, b.args, ins), b.ops);
      (s1, f, RootsOf(s1, match Yields(b.ops) case Some(ys) => ys case None => []))
  }

  /** The callbacks that are not entering or leaving a region. */
  function Visits(events: seq<Event>): seq<Event> {
    if events == [] then []
    else if events[0].Reached? then [events[0]] + Visits(events[1..])
    else Visits(events[1..])
  }

  lemma {:induction false} VisitsConcat(a: seq<Event>, b: seq<Event>)
    ensures Visits(a + b) == Visits(a) + Visits(b)
  {
    if a == [] {
      assert a + b == b;
    } else {
      assert (a + b)[1..] == a[1..] + b;
      VisitsConcat(a[1..], b);
    }
  }

  predicate AllLeaves(ops: seq<DynOp>) { forall i | 0 <= i < |ops| :: ops[i].Leaf? }

  lemma WalkFirst(roots: Roots, ops: seq<DynOp>)
    requires ops != [] && !ops[0].Ends()
    ensures var (r1, e1) := WalkOp(roots, ops[0]);
            WalkOps(roots, ops) == (WalkOps(r1, ops[1..]).0, e1 + WalkOps(r1, ops[1..]).1)
  {
    hide WalkOp;
  }

  lemma WalkNothing(roots: Roots, b: seq<DynOp>)
    ensures WalkOps(roots, []) == (roots, []) && [] + WalkOps(roots, b).1 == WalkOps(roots, b).1
  {
  }

  lemma {:induction false} WalkConcat(roots: Roots, a: seq<DynOp>, b: seq<DynOp>)
    requires AllLeaves(a)
    ensures WalkOps(roots, a + b) ==
              (WalkOps(WalkOps(roots, a).0, b).0, WalkOps(roots, a).1 + WalkOps(WalkOps(roots, a).0, b).1)
    decreases |a|
  {
    hide WalkOp, WalkOps;
    if a == [] {
      assert a + b == b;
      WalkNothing(roots, b);
    } else {
      assert a[0].Leaf? && (a + b)[1..] == a[1..] + b;
      var (r1, e1) := WalkOp(roots, a[0]);
      WalkFirst(roots, a);
      WalkFirst(roots, a + b);
      WalkConcat(r1, a[1..], b);
      var (r2, e2) := WalkOps(r1, a[1..]);
      assert e1 + (e2 + WalkOps(r2, b).1) == (e1 + e2) + WalkOps(r2, b).1;
    }
  }

  // ── The simulation ─────────────────────────────────────────────────────────

  /** Every visible value has the root of what stands for it in the inlined program, and values not
      in use have no root yet. */
  ghost predicate Agree(roots: Roots, flat: Roots, sub: Roots, vis: set<ValueId>, used: set<ValueId>) {
    && (forall v | v in vis :: RootIn(sub, v) in used && RootIn(flat, RootIn(sub, v)) == RootIn(roots, v))
    && sub.Keys <= used
    && (forall v: ValueId | v !in used :: RootIn(roots, v) == v && RootIn(flat, v) == v)
  }

  ghost predicate Kept(a: Roots, b: Roots, used: set<ValueId>) {
    forall v | v in used :: RootIn(b, v) == RootIn(a, v)
  }

  /** Walking `ops` from `flat` reports `visits`; afterwards the nested roots and the inlined roots
      agree again, and nothing in use before has changed. */
  ghost predicate Simulates(flat: Roots, ops: seq<DynOp>, visits: seq<Event>, roots: Roots, sub: Roots, was: Roots,
                            vis: set<ValueId>, used: set<ValueId>, usedWas: set<ValueId>) {
    && AllLeaves(ops)
    && WalkOps(flat, ops).1 == visits
    && Agree(roots, WalkOps(flat, ops).0, sub, vis, used)
    && Kept(flat, WalkOps(flat, ops).0, usedWas)
    && Kept(was, sub, usedWas)
  }

  /** Values `ins` stand, in the inlined program, for the wires `rs`. */
  ghost predicate StandFor(flat: Roots, ins: seq<ValueId>, rs: seq<nat>, used: set<ValueId>) {
    && |ins| == |rs|
    && forall i | 0 <= i < |ins| :: ins[i] in used && RootIn(flat, ins[i]) == rs[i]
  }

  lemma Operands(roots: Roots, flat: Roots, sub: Roots, vis: set<ValueId>, used: set<ValueId>, vs: seq<ValueId>)
    requires Agree(roots, flat, sub, vis, used) && Members(vs) <= vis
    ensures StandFor(flat, RootsOf(sub, vs), RootsOf(roots, vs), used)
    ensures RootsOf(flat, RootsOf(sub, vs)) == RootsOf(roots, vs)
  {
    forall i | 0 <= i < |vs| ensures RootIn(sub, vs[i]) in used && RootIn(flat, RootIn(sub, vs[i])) == RootIn(roots, vs[i]) {
      assert vs[i] in Members(vs);
    }
  }

  /** Defining values on both sides keeps agreement. */
  lemma BindAgrees(roots: Roots, flat: Roots, sub: Roots, vis: set<ValueId>, used: set<ValueId>,
                   vs: seq<ValueId>, ins: seq<ValueId>, rs: seq<nat>)
    requires Agree(roots, flat, sub, vis, used)
    requires |vs| == |ins| && Distinct(vs) && Members(vs) !! vis && StandFor(flat, ins, rs, used)
    ensures Agree(Zip(roots, vs, rs), flat, Zip(sub, vs, ins), vis + Members(vs), used + Members(vs))
    ensures Kept(sub, Zip(sub, vs, ins), used - Members(vs))
  {
    var (roots', sub') := (Zip(roots, vs, rs), Zip(sub, vs, ins));
    forall v | v in used - Members(vs) ensures RootIn(sub', v) == RootIn(sub, v) { ZipFrame(sub, vs, ins, v); }
    forall v | v in vis + Members(vs)
      ensures RootIn(sub', v) in used + Members(vs) && RootIn(flat, RootIn(sub', v)) == RootIn(roots', v)
    {
      if v in vis {
        NotMember(vs, vis, v);
        ZipFrame(roots, vs, rs, v);
        ZipFrame(sub, vs, ins, v);
      } else {
        var i :| 0 <= i < |vs| && vs[i] == v;
        ZipAt(roots, vs, rs, i);
        ZipAt(sub, vs, ins, i);
      }
    }
    forall v: ValueId | v !in used + Members(vs) ensures RootIn(roots', v) == v && RootIn(flat, v) == v {
      InMembers(vs, v);
      ZipFrame(roots, vs, rs, v);
    }
    ZipKeys(sub, vs, ins);
  }

  /** Giving roots to values that are in use but not visible changes nothing visible. */
  lemma AliasAgrees(roots: Roots, flat: Roots, sub: Roots, vis: set<ValueId>, used: set<ValueId>, vs: seq<ValueId>, rs: seq<nat>)
    requires Agree(roots, flat, sub, vis, used) && Members(vs) !! vis && Members(vs) <= used
    ensures Agree(Zip(roots, vs, rs), flat, sub, vis, used)
  {
    var roots' := Zip(roots, vs, rs);
    forall v: ValueId | v in vis || v !in used ensures RootIn(roots', v) == RootIn(roots, v) {
      InMembers(vs, v);
      ZipFrame(roots, vs, rs, v);
    }
  }

  lemma NotMember(vs: seq<ValueId>, used: set<ValueId>, v: ValueId)
    requires Members(vs) !! used && v in used
    ensures v !in vs
  {
    InMembers(vs, v);
  }

  lemma InMembers(vs: seq<ValueId>, v: ValueId)
    ensures v in Members(vs) <==> v in vs
  {
  }

  lemma {:induction false} AssignKeys(sub: Roots, vs: seq<ValueId>, ins: seq<ValueId>)
    requires |vs| == |ins|
    ensures Assign(sub, vs, ins).Keys <= sub.Keys + Members(vs)
  {
    if vs != [] {
      var n := |vs| - 1;
      AssignKeys(sub, vs[..n], ins[..n]);
      assert vs == vs[..n] + [vs[n]];
    }
  }

  lemma ZipKeys(sub: Roots, vs: seq<ValueId>, ins: seq<ValueId>)
    ensures Zip(sub, vs, ins).Keys <= sub.Keys + Members(vs)
  {
    var n := if |vs| < |ins| then |vs| else |ins|;
    AssignKeys(sub, vs[..n], ins[..n]);
    assert forall v | v in vs[..n] :: v in vs;
  }

  lemma {:induction false} OpsSimulate(roots: Roots, flat: Roots, sub: Roots, vis: set<ValueId>, used: set<ValueId>, ops: seq<DynOp>)
    requires Scoped(vis, used, ops) && vis <= used && Agree(roots, flat, sub, vis, used)
    ensures var (roots', events) := WalkOps(roots, ops);
            var (sub', inlined) := InlineOps(sub, ops);
            Simulates(flat, inlined, Visits(events), roots', sub', sub, VisAfter(vis, ops), used + DefsOf(ops), used)
    decreases ops, 1
  {
    if ops == [] || ops[0].Ends() {
    } else {
      hide WalkOp, InlineOp, OpDefs, ScopedOp, Members, Simulates, Agree, Visits;
      var (op, rest) := (ops[0], ops[1..]);
      var (r1, e1) := WalkOp(roots, op);
      var (s1, f1) := InlineOp(sub, op);
      OpSimulates(roots, flat, sub, vis, used, op);
      var (vis1, used1) := (vis + Members(op.results), used + OpDefs(op));
      ResultsAreDefs(op);
      SimulatesParts(flat, f1, Visits(e1), r1, s1, sub, vis1, used1, used);
      var flat1 := WalkOps(flat, f1).0;
      OpsSimulate(r1, flat1, s1, vis1, used1, rest);
      var (r2, e2) := WalkOps(r1, rest);
      var (s2, f2) := InlineOps(s1, rest);
      assert used1 + DefsOf(rest) == used + DefsOf(ops);
      VisitsConcat(e1, e2);
      Compose(flat, f1, Visits(e1), r1, s1, sub, vis1, used1, used, f2, Visits(e2), r2, s2, VisAfter(vis1, rest), used1 + DefsOf(rest));
    }
  }

  lemma SimulatesParts(flat: Roots, ops: seq<DynOp>, visits: seq<Event>, roots: Roots, sub: Roots, was: Roots,
                       vis: set<ValueId>, used: set<ValueId>, usedWas: set<ValueId>)
    requires Simulates(flat, ops, visits, roots, sub, was, vis, used, usedWas)
    ensures AllLeaves(ops) && Agree(roots, WalkOps(flat, ops).0, sub, vis, used)
    ensures Kept(flat, WalkOps(flat, ops).0, usedWas) && Kept(was, sub, usedWas)
  {
  }

  lemma Compose(flat: Roots, f1: seq<DynOp>, v1: seq<Event>, r1: Roots, s1: Roots, was: Roots, vis1: set<ValueId>,
                used1: set<ValueId>, used: set<ValueId>, f2: seq<DynOp>, v2: seq<Event>, r2: Roots, s2: Roots,
                vis2: set<ValueId>, used2: set<ValueId>)
    requires Simulates(flat, f1, v1, r1, s1, was, vis1, used1, used) && used <= used1
    requires Simulates(WalkOps(flat, f1).0, f2, v2, r2, s2, s1, vis2, used2, used1)
    ensures Simulates(flat, f1 + f2, v1 + v2, r2, s2, was, vis2, used2, used)
  {
    hide WalkOps, Agree;
    WalkConcat(flat, f1, f2);
  }

  lemma {:induction false} OpSimulates(roots: Roots, flat: Roots, sub: Roots, vis: set<ValueId>, used: set<ValueId>, op: DynOp)
    requires !op.Ends() && ScopedOp(vis, used, op) && vis <= used && Agree(roots, flat, sub, vis, used)
    ensures var (roots', events) := WalkOp(roots, op);
            var (sub', inlined) := InlineOp(sub, op);
            Simulates(flat, inlined, Visits(events), roots', sub', sub, vis + Members(op.results), used + OpDefs(op), used)
    decreases op, 1
  {
    hide WalkOp, InlineOp, Simulates, Agree, ScopedOp, OpDefs, Members, Visits;
    if op.Leaf? {
      LeafSimulates(roots, flat, sub, vis, used, op);
    } else if op.UnitaryRegion? {
      RegionSimulates(roots, flat, sub, vis, used, op);
    } else {
      IfSimulates(roots, flat, sub, vis, used, op);
    }
  }

  lemma LeafSimulates(roots: Roots, flat: Roots, sub: Roots, vis: set<ValueId>, used: set<ValueId>, op: DynOp)
    requires op.Leaf? && ScopedOp(vis, used, op) && vis <= used && Agree(roots, flat, sub, vis, used)
    ensures var (roots', events) := WalkOp(roots, op);
            var (sub', inlined) := InlineOp(sub, op);
            Simulates(flat, inlined, Visits(events), roots', sub', sub, vis + Members(op.results), used + OpDefs(op), used)
  {
    hide Members, Observe, RootIn, Distinct;
    var ins := RootsOf(sub, op.operands);
    var renamed := Leaf(op.kind, op.name, ins, op.results);
    Operands(roots, flat, sub, vis, used, op.operands);
    var (roots', flat') := (Observe(roots, op.operands, op.results), Observe(flat, ins, op.results));
    assert [renamed][1..] == [] && WalkOps(flat', []) == (flat', []);
    assert WalkOps(flat, [renamed]) == (flat', [LeafEvent(flat, renamed)] + []);
    assert LeafEvent(flat, renamed) == LeafEvent(roots, op);
    assert Visits([LeafEvent(roots, op)]) == [LeafEvent(roots, op)] + Visits([]);
    ObserveAgrees(roots, flat, sub, vis, used, op.operands, op.results);
  }

  lemma ObserveAgrees(roots: Roots, flat: Roots, sub: Roots, vis: set<ValueId>, used: set<ValueId>,
                      operands: seq<ValueId>, results: seq<ValueId>)
    requires Agree(roots, flat, sub, vis, used) && vis <= used && Members(operands) <= vis
    requires Distinct(results) && Members(results) !! used
    ensures var flat' := Observe(flat, RootsOf(sub, operands), results);
            && Agree(Observe(roots, operands, results), flat', sub, vis + Members(results), used + Members(results))
            && Kept(flat, flat', used)
  {
    var ins := RootsOf(sub, operands);
    var (roots', flat') := (Observe(roots, operands, results), Observe(flat, ins, results));
    Operands(roots, flat, sub, vis, used, operands);
    forall v | v in used ensures RootIn(flat', v) == RootIn(flat, v) {
      NotMember(results, used, v);
      ObserveFrame(flat, ins, results, v);
    }
    forall v | v in vis + Members(results)
      ensures RootIn(sub, v) in used + Members(results) && RootIn(flat', RootIn(sub, v)) == RootIn(roots', v)
    {
      if v in vis {
        NotMember(results, used, v);
        ObserveFrame(roots, operands, results, v);
      } else {
        assert v in results && v !in sub;
        ObserveResult(roots, flat, operands, ins, results, v);
      }
    }
    forall v: ValueId | v !in used + Members(results) ensures RootIn(roots', v) == v && RootIn(flat', v) == v {
      InMembers(results, v);
      ObserveFrame(roots, operands, results, v);
      ObserveFrame(flat, ins, results, v);
    }
  }

  lemma ObserveResult(roots: Roots, flat: Roots, operands: seq<ValueId>, ins: seq<ValueId>, results: seq<ValueId>, v: ValueId)
    requires |ins| == |operands| && RootsOf(flat, ins) == RootsOf(roots, operands) && Distinct(results) && v in results
    requires RootIn(roots, v) == RootIn(flat, v)
    ensures RootIn(Observe(flat, ins, results), v) == RootIn(Observe(roots, operands, results), v)
  {
    if |operands| == |results| {
      AssignAt(roots, results, RootsOf(roots, operands), v);
      AssignAt(flat, results, RootsOf(flat, ins), v);
    } else if operands == [] {
      AssignAt(roots, results, results, v);
      AssignAt(flat, results, results, v);
    }
  }

  // ── Regions ────────────────────────────────────────────────────────────────

  lemma {:induction false} BodySimulates(roots: Roots, flat: Roots, sub: Roots, vis: set<ValueId>, used: set<ValueId>,
                                         body: Option<Block>, ins: seq<ValueId>, rs: seq<nat>)
    requires ScopedBody(vis, used, |rs|, body) && vis <= used && Agree(roots, flat, sub, vis, used)
    requires StandFor(flat, ins, rs, used)
    ensures var (roots', events) := WalkBody(roots, body, rs);
            var (sub', inlined, outs) := InlineBody(sub, body, ins);
            && Simulates(flat, inlined, Visits(events), roots', sub', sub, vis, used + BodyDefs(body), used)
            && StandFor(WalkOps(flat, inlined).0, outs, rs, used + BodyDefs(body))
    decreases body, 0
  {
    if body.None? {
      assert used + BodyDefs(body) == used && WalkOps(flat, []).0 == flat;
    } else {
      hide WalkOps, InlineOps, Members, Simulates, Agree, Visits, Zip, Kept, RootIn, Scoped, Positional, Yields;
      var b := body.value;
      BindAgrees(roots, flat, sub, vis, used, b.args, ins, rs);
      var (r1, s1) := (Zip(roots, b.args, rs), Zip(sub, b.args, ins));
      var (vis1, used1) := (vis + Members(b.args), used + Members(b.args));
      OpsSimulate(r1, flat, s1, vis1, used1, b.ops);
      var (r2, events) := WalkOps(r1, b.ops);
      var (s2, inlined) := InlineOps(s1, b.ops);
      assert used1 + DefsOf(b.ops) == used + BodyDefs(body);
      YieldsStandFor(r1, flat, s1, vis1, used1, b, inlined, r2, s2, Visits(events), rs, roots, vis);
      VisGrows(vis1, b.ops);
      Weaken(flat, inlined, Visits(events), r2, s2, s1, VisAfter(vis1, b.ops), used + BodyDefs(body), used1, sub, vis, used);
    }
  }

  lemma {:induction false} VisGrows(vis: set<ValueId>, ops: seq<DynOp>)
    ensures vis <= VisAfter(vis, ops)
    decreases |ops|
  {
    if ops != [] && !ops[0].Ends() { VisGrows(vis + Members(ops[0].results), ops[1..]); }
  }

  lemma Weaken(flat: Roots, ops: seq<DynOp>, visits: seq<Event>, roots: Roots, sub: Roots, mid: Roots,
               vis: set<ValueId>, used: set<ValueId>, usedWas: set<ValueId>, was: Roots, less: set<ValueId>, usedLess: set<ValueId>)
    requires Simulates(flat, ops, visits, roots, sub, mid, vis, used, usedWas)
    requires less <= vis && usedLess <= usedWas && Kept(was, mid, usedLess)
    ensures Simulates(flat, ops, visits, roots, sub, was, less, used, usedLess)
  {
    hide WalkOps;
  }

  lemma {:induction false} YieldsVisible(vis: set<ValueId>, used: set<ValueId>, ops: seq<DynOp>)
    requires Scoped(vis, used, ops) && Yields(ops).Some?
    ensures Members(Yields(ops).value) <= VisAfter(vis, ops)
    decreases |ops|
  {
    if !ops[0].Ends() {
      hide OpDefs, ScopedOp, Members;
      YieldsVisible(vis + Members(ops[0].results), used + OpDefs(ops[0]), ops[1..]);
    }
  }

  /** What comes out of a body, position by position, stands for the wires that went in. */
  lemma YieldsStandFor(r1: Roots, flat: Roots, s1: Roots, vis1: set<ValueId>, used1: set<ValueId>, b: Block,
                       inlined: seq<DynOp>, r2: Roots, s2: Roots, visits: seq<Event>, rs: seq<nat>,
                       roots: Roots, vis: set<ValueId>)
    requires Scoped(vis1, used1, b.ops) && Positional(b) && |b.args| == |rs| && Distinct(b.args)
    requires vis1 == vis + Members(b.args) && vis1 <= used1
    requires r1 == Zip(roots, b.args, rs) && r2 == WalkOps(r1, b.ops).0
    requires Simulates(flat, inlined, visits, r2, s2, s1, VisAfter(vis1, b.ops), used1 + DefsOf(b.ops), used1)
    ensures StandFor(WalkOps(flat, inlined).0, RootsOf(s2, Yields(b.ops).value), rs, used1 + DefsOf(b.ops))
  {
    hide WalkOps, Scoped, DefsOf, VisAfter, Zip, RootIn, Yields, Carry;
    var ys := Yields(b.ops).value;
    YieldsVisible(vis1, used1, b.ops);
    var pos := ArgPositions(b.args);
    forall v | v in pos ensures pos[v] < |rs| && RootIn(r1, v) == rs[pos[v]] { ZipAt(roots, b.args, rs, pos[v]); }
    CarriedRoots(r1, vis1, used1, b.ops, pos, rs);
    forall i | 0 <= i < |ys|
      ensures RootIn(s2, ys[i]) in used1 + DefsOf(b.ops) && RootIn(WalkOps(flat, inlined).0, RootIn(s2, ys[i])) == rs[i]
    {
      assert ys[i] in Members(ys);
    }
  }

  lemma {:induction false} RegionSimulates(roots: Roots, flat: Roots, sub: Roots, vis: set<ValueId>, used: set<ValueId>, op: DynOp)
    requires op.UnitaryRegion? && ScopedOp(vis, used, op) && vis <= used && Agree(roots, flat, sub, vis, used)
    ensures var (roots', events) := WalkOp(roots, op);
            var (sub', inlined) := InlineOp(sub, op);
            Simulates(flat, inlined, Visits(events), roots', sub', sub, vis + Members(op.results), used + OpDefs(op), used)
    decreases op, 0
  {
    hide WalkBody, InlineBody, WalkOps, Members, Simulates, Agree, Visits, Zip, RootIn, StandFor, BodyDefs, ScopedBody;
    var (rs, ins) := (RootsOf(roots, op.operands), RootsOf(sub, op.operands));
    Operands(roots, flat, sub, vis, used, op.operands);
    BodySimulates(roots, flat, sub, vis, used, op.body, ins, rs);
    var (r1, events) := WalkBody(roots, op.body, rs);
    var (s1, inlined, outs) := InlineBody(sub, op.body, ins);
    var used1 := used + BodyDefs(op.body);
    BracketVisits(EnterRegion(rs), events, ExitRegion);
    assert used1 + Members(op.results) == used + OpDefs(op);
    StandLength(WalkOps(flat, inlined).0, outs, rs, used1);
    Rebind(flat, inlined, Visits(events), r1, s1, sub, vis, used1, used, op.results, outs, rs);
  }

  lemma StandLength(flat: Roots, ins: seq<ValueId>, rs: seq<nat>, used: set<ValueId>)
    requires StandFor(flat, ins, rs, used)
    ensures |ins| == |rs|
  {
  }

  lemma BracketVisits(enter: Event, events: seq<Event>, exit: Event)
    requires !enter.Reached? && !exit.Reached?
    ensures Visits([enter] + events + [exit]) == Visits(events)
  {
    VisitsConcat([enter] + events, [exit]);
    VisitsConcat([enter], events);
    assert [enter][1..] == [] && [exit][1..] == [];
  }

  /** Binding the results after a body. */
  lemma Rebind(flat: Roots, ops: seq<DynOp>, visits: seq<Event>, roots: Roots, sub: Roots, was: Roots,
               vis: set<ValueId>, used: set<ValueId>, usedWas: set<ValueId>, results: seq<ValueId>, outs: seq<ValueId>, rs: seq<nat>)
    requires Simulates(flat, ops, visits, roots, sub, was, vis, used, usedWas)
    requires usedWas <= used && vis <= usedWas && Distinct(results) && Members(results) !! usedWas && |results| == |outs|
    requires StandFor(WalkOps(flat, ops).0, outs, rs, used)
    ensures Simulates(flat, ops, visits, Zip(roots, results, rs), Zip(sub, results, outs), was,
                      vis + Members(results), used + Members(results), usedWas)
  {
    hide WalkOps, Agree, Zip, Members, Distinct, StandFor;
    BindAgrees(roots, WalkOps(flat, ops).0, sub, vis, used, results, outs, rs);
  }

  lemma {:induction false} IfSimulates(roots: Roots, flat: Roots, sub: Roots, vis: set<ValueId>, used: set<ValueId>, op: DynOp)
    requires op.IfOp? && ScopedOp(vis, used, op) && vis <= used && Agree(roots, flat, sub, vis, used)
    ensures var (roots', events) := WalkOp(roots, op);
            var (sub', inlined) := InlineOp(sub, op);
            Simulates(flat, inlined, Visits(events), roots', sub', sub, vis + Members(op.results), used + OpDefs(op), used)
    decreases op, 0
  {
    hide WalkBody, InlineBody, WalkOps, Members, Simulates, Agree, Visits, Zip, RootIn, StandFor, BodyDefs, ScopedBody, Kept;
    var (rs, ins) := (RootsOf(roots, op.operands), RootsOf(sub, op.operands));
    var used0 := used + Members(op.results);
    Operands(roots, flat, sub, vis, used, op.operands);
    MoreUsed(roots, flat, sub, vis, used, used0, ins, rs);
    BodySimulates(roots, flat, sub, vis, used0, op.thn, ins, rs);
    var (r1, e1) := WalkBody(roots, op.thn, rs);
    var (s1, f1, mid) := InlineBody(sub, op.thn, ins);
    var used1 := used0 + BodyDefs(op.thn);
    SimulatesParts(flat, f1, Visits(e1), r1, s1, sub, vis, used1, used0);
    var flat1 := WalkOps(flat, f1).0;
    AliasAgrees(r1, flat1, s1, vis, used1, op.results, rs);
    var r1' := Zip(r1, op.results, rs);
    SameOperands(roots, vis, used, op);
    BodySimulates(r1', flat1, s1, vis, used1, op.els, mid, rs);
    var (r2, e2) := WalkBody(r1', op.els, rs);
    var (s2, f2, outs) := InlineBody(s1, op.els, mid);
    var used2 := used1 + BodyDefs(op.els);
    ElseBody(flat, f1, Visits(e1), r1, s1, sub, vis, used1, used0, f2, Visits(e2), r2, s2, used2, used);
    BracketVisits(EnterArm(Then, rs), e1, ExitArm(Then));
    BracketVisits(EnterArm(Else, rs), e2, ExitArm(Else));
    VisitsConcat([EnterArm(Then, rs)] + e1 + [ExitArm(Then)], [EnterArm(Else, rs)] + e2 + [ExitArm(Else)]);
    assert used2 + Members(op.results) == used + OpDefs(op);
    WalkConcat(flat, f1, f2);
    StandLength(WalkOps(flat1, f2).0, outs, rs, used2);
    Rebind(flat, f1 + f2, Visits(e1) + Visits(e2), r2, s2, sub, vis, used2, used, op.results, outs, rs);
  }

  lemma MoreUsed(roots: Roots, flat: Roots, sub: Roots, vis: set<ValueId>, used: set<ValueId>, more: set<ValueId>,
                 ins: seq<ValueId>, rs: seq<nat>)
    requires Agree(roots, flat, sub, vis, used) && used <= more && StandFor(flat, ins, rs, used)
    ensures Agree(roots, flat, sub, vis, more) && StandFor(flat, ins, rs, more)
  {
  }

  /** The else-arm finds the same operand roots as the then-arm did. */
  lemma SameOperands(roots: Roots, vis: set<ValueId>, used: set<ValueId>, op: DynOp)
    requires op.IfOp? && ScopedOp(vis, used, op) && vis <= used
    ensures var rs := RootsOf(roots, op.operands);
            RootsOf(Zip(WalkBody(roots, op.thn, rs).0, op.results, rs), op.operands) == rs
  {
    hide WalkBody, RootIn, Zip, BodyDefs, ScopedBody;
    var rs := RootsOf(roots, op.operands);
    var after := Zip(WalkBody(roots, op.thn, rs).0, op.results, rs);
    ScopedBodyDefs(vis, used + Members(op.results), |op.operands|, op.thn);
    forall i | 0 <= i < |op.operands| ensures RootIn(after, op.operands[i]) == rs[i] {
      assert op.operands[i] in Members(op.operands);
      NotMember(op.results, used, op.operands[i]);
      BodyFrame(roots, op.thn, rs, op.operands[i]);
      ZipFrame(WalkBody(roots, op.thn, rs).0, op.results, rs, op.operands[i]);
    }
  }

  lemma ElseBody(flat: Roots, f1: seq<DynOp>, v1: seq<Event>, r1: Roots, s1: Roots, was: Roots, vis: set<ValueId>,
                 used1: set<ValueId>, used0: set<ValueId>, f2: seq<DynOp>, v2: seq<Event>, r2: Roots, s2: Roots,
                 used2: set<ValueId>, used: set<ValueId>)
    requires Simulates(flat, f1, v1, r1, s1, was, vis, used1, used0) && used <= used0 <= used1
    requires Simulates(WalkOps(flat, f1).0, f2, v2, r2, s2, s1, vis, used2, used1)
    ensures Simulates(flat, f1 + f2, v1 + v2, r2, s2, was, vis, used2, used)
    ensures AllLeaves(f1)
  {
    hide WalkOps, Agree;
    Compose(flat, f1, v1, r1, s1, was, vis, used1, used0, f2, v2, r2, s2, vis, used2);
    Weaken(flat, f1 + f2, v1 + v2, r2, s2, was, vis, used2, used0, was, vis, used);
  }

  // ── The refinement ─────────────────────────────────────────────────────────

  /** The table a walk starts from agrees with itself. */
  lemma SeededAgrees(args: seq<ValueId>)
    ensures var seeded := Assign(map[], args, seq(|args|, i => i)); Agree(seeded, seeded, map[], Members(args), Members(args))
  {
    var seeded := Assign(map[], args, seq(|args|, i => i));
    forall v: ValueId | v !in Members(args) ensures RootIn(seeded, v) == v {
      InMembers(args, v);
      AssignFrame(map[], args, seq(|args|, i => i), v);
    }
  }

  /** Walking a block makes the callbacks that walking its inlining makes, apart from those for entering
      and leaving. */
  lemma SameReports(b: Block)
    requires Distinct(b.args) && Scoped(Members(b.args), Members(b.args), b.ops)
    ensures var seeded := Assign(map[], b.args, seq(|b.args|, i => i));
            var inlined := InlineOps(map[], b.ops).1;
            && AllLeaves(inlined)
            && Visits(WalkOps(seeded, b.ops).1) == WalkOps(seeded, inlined).1
  {
    hide WalkOps, InlineOps, Scoped, Agree;
    var seeded := Assign(map[], b.args, seq(|b.args|, i => i));
    SeededAgrees(b.args);
    OpsSimulate(seeded, seeded, map[], Members(b.args), Members(b.args), b.ops);
  }

  /** A region that yields its two wires swapped is walked as if it had not: the walk puts the gate
      after it on wire 0, and its inlining on wire 1. */
  lemma SwappedYieldsMislead()
    ensures var body := Block([20, 21], [Yield([21, 20])]);
            var region := UnitaryRegion([10, 11], [30, 31], Some(body));
            var ops := [region, Leaf(GateKind, "X", [30], [40])];
            var seeded := map[10 := 0, 11 := 1];
            && !Positional(body)
            && Visits(WalkOps(seeded, ops).1) == [Reached(GateKind, "X", [0])]
            && WalkOps(seeded, InlineOps(map[], ops).1).1 == [Reached(GateKind, "X", [1])]
  {
    var body := Block([20, 21], [Yield([21, 20])]);
    var region := UnitaryRegion([10, 11], [30, 31], Some(body));
    var gate := Leaf(GateKind, "X", [30], [40]);
    var seeded := map[10 := 0, 11 := 1];
    SwappedIsNotPositional(body);
    SwappedWalk(seeded, region, gate, body);
    SwappedInline(seeded, region, gate, body);
  }

  lemma SwappedIsNotPositional(body: Block)
    requires body == Block([20, 21], [Yield([21, 20])])
    ensures !Positional(body)
  {
    var pos := ArgPositions(body.args);
    assert Carry(pos, body.ops) == pos && Yields(body.ops) == Some([21, 20]);
    assert Position([20, 21], 21) == Some(1) by { assert [20, 21][1..] == [21]; }
    assert pos[21] == 1 && Yields(body.ops).value[0] == 21;
  }

  lemma AssignTwo(roots: Roots, a: ValueId, b: ValueId, x: nat, y: nat)
    ensures Zip(roots, [a, b], [x, y]) == roots[a := x][b := y]
  {
    assert [a, b][..2] == [a, b] && [x, y][..2] == [x, y];
    assert [a, b][..1] == [a] && [x, y][..1] == [x];
    assert [a][..0] == [] && [x][..0] == [];
    assert Assign(roots, [], []) == roots;
    assert Assign(roots, [a], [x]) == roots[a := x];
    assert Assign(roots, [a, b], [x, y]) == Assign(roots, [a], [x])[b := y];
  }

  lemma OneGate(roots: Roots, gate: DynOp)
    requires gate == Leaf(GateKind, "X", gate.operands, [40])
    ensures WalkOps(roots, [gate]).1 == [Reached(GateKind, "X", RootsOf(roots, gate.operands))]
  {
    WalkFirst(roots, [gate]);
    assert [gate][1..] == [];
  }

  lemma SwappedWalk(seeded: Roots, region: DynOp, gate: DynOp, body: Block)
    requires body == Block([20, 21], [Yield([21, 20])]) && region == UnitaryRegion([10, 11], [30, 31], Some(body))
    requires gate == Leaf(GateKind, "X", [30], [40]) && seeded == map[10 := 0, 11 := 1]
    ensures Visits(WalkOps(seeded, [region, gate]).1) == [Reached(GateKind, "X", [0])]
  {
    var rs := RootsOf(seeded, [10, 11]);
    assert rs == [0, 1];
    AssignTwo(seeded, 20, 21, 0, 1);
    var inner := seeded[20 := 0][21 := 1];
    assert WalkBody(seeded, Some(body), rs) == (inner, []);
    AssignTwo(inner, 30, 31, 0, 1);
    var after := inner[30 := 0][31 := 1];
    assert WalkOp(seeded, region) == (after, [EnterRegion(rs)] + [] + [ExitRegion]);
    WalkFirst(seeded, [region, gate]);
    assert [region, gate][1..] == [gate];
    OneGate(after, gate);
    assert RootsOf(after, [30]) == [0];
    var e := Reached(GateKind, "X", [0]);
    VisitsConcat([EnterRegion(rs)] + [] + [ExitRegion], [e]);
    BracketVisits(EnterRegion(rs), [], ExitRegion);
    assert [e][1..] == [];
  }

  lemma SwappedInline(seeded: Roots, region: DynOp, gate: DynOp, body: Block)
    requires body == Block([20, 21], [Yield([21, 20])]) && region == UnitaryRegion([10, 11], [30, 31], Some(body))
    requires gate == Leaf(GateKind, "X", [30], [40]) && seeded == map[10 := 0, 11 := 1]
    ensures WalkOps(seeded, InlineOps(map[], [region, gate]).1).1 == [Reached(GateKind, "X", [1])]
  {
    var none: Roots := map[];
    assert RootsOf(none, [10, 11]) == [10, 11];
    AssignTwo(none, 20, 21, 10, 11);
    var inner := none[20 := 10][21 := 11];
    assert Yields(body.ops) == Some([21, 20]) && RootsOf(inner, [21, 20]) == [11, 10];
    assert InlineBody(none, Some(body), [10, 11]) == (inner, [], [11, 10]);
    AssignTwo(inner, 30, 31, 11, 10);
    var after := inner[30 := 11][31 := 10];
    assert InlineOp(none, region) == (after, []);
    assert [region, gate][1..] == [gate] && [gate][1..] == [];
    var renamed := Leaf(GateKind, "X", [11], [40]);
    assert RootsOf(after, [30]) == [11];
    assert InlineOps(after, []) == (after, []);
    assert InlineOps(after, [gate]).1 == [renamed] + [];
    assert InlineOps(none, [region, gate]).1 == [] + ([renamed] + []);
    OneGate(seeded, renamed);
    assert RootsOf(seeded, [11]) == [1];
  }
}
