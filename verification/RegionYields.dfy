/** Exactly which region bodies the walk tracks: those that yield their wires position by position. */
module RegionYields {
  import opened Ast
  import opened Ssa
  import opened DynamicWalk
  import opened WalkLaws
  import opened WalkRefinement

  /** The region takes and gives as many wires as its operation; the body uses nothing the operation
      consumes, and ends in a yield. Whether it yields position by position is left open. */
  predicate WellScoped(vis: set<ValueId>, used: set<ValueId>, op: DynOp, b: Block) {
    && op.UnitaryRegion? && op.body == Some(b) && vis <= used
    && Members(op.operands) <= vis && Distinct(op.operands) && Distinct(op.results) && Distinct(b.args)
    && |op.operands| == |op.results| == |b.args|
    && Members(b.args) !! used && Members(op.results) !! used + BodyDefs(op.body)
    && Scoped(vis - Members(op.operands) + Members(b.args), used + Members(b.args), b.ops)
    && Yields(b.ops).Some? && |Yields(b.ops).value| == |b.args|
  }

  /** From the table `roots`, the walk gives the region's results the roots that its inlining yields. */
  ghost predicate Tracks(op: DynOp, roots: Roots)
    requires op.UnitaryRegion?
  {
    var (sub, inlined) := InlineOp(map[], op);
    RootsOf(WalkOp(roots, op).0, op.results) == RootsOf(WalkOps(roots, inlined).0, RootsOf(sub, op.results))
  }

  /** The table the body starts from. */
  function Entered(op: DynOp, b: Block, roots: Roots): Roots
    requires op.UnitaryRegion?
  {
    Zip(roots, b.args, RootsOf(roots, op.operands))
  }

  // ── Both sides, value by value ─────────────────────────────────────────────

  /** The walk passes the operands' roots on to the results. */
  lemma ResultRoots(vis: set<ValueId>, used: set<ValueId>, op: DynOp, b: Block, roots: Roots)
    requires WellScoped(vis, used, op, b)
    ensures RootsOf(WalkOp(roots, op).0, op.results) == RootsOf(roots, op.operands)
  {
    hide WalkBody, Zip, Scoped, BodyDefs, RootIn;
    var rs := RootsOf(roots, op.operands);
    forall i | 0 <= i < |op.results| ensures RootIn(WalkOp(roots, op).0, op.results[i]) == rs[i] {
      ZipAt(WalkBody(roots, op.body, rs).0, op.results, rs, i);
    }
  }

  lemma StartsAlike(roots: Roots, vis: set<ValueId>, used: set<ValueId>)
    requires vis <= used && roots.Keys <= used
    ensures Agree(roots, roots, map[], vis, used)
  {
  }

  /** Inlining yields, at each position, the root the walk of the body gives the yielded value. */
  lemma InlinedRoots(vis: set<ValueId>, used: set<ValueId>, op: DynOp, b: Block, roots: Roots)
    requires WellScoped(vis, used, op, b) && roots.Keys <= used
    ensures var (sub, inlined) := InlineOp(map[], op);
            RootsOf(WalkOps(roots, inlined).0, RootsOf(sub, op.results))
              == RootsOf(WalkOps(Entered(op, b, roots), b.ops).0, Yields(b.ops).value)
  {
    hide WalkOps, InlineOps, Zip, Scoped, BodyDefs, DefsOf, RootIn, Yields, Members, Agree, Simulates, VisAfter, Visits, Distinct;
    var (ins, rs) := (op.operands, RootsOf(roots, op.operands));
    EmptySub(ins);
    StartsAlike(roots, vis - Members(ins), used);
    BodyRoots(vis, used, op, b, roots, ins, rs);
    var s := Zip(map[], b.args, ins);
    var (s2, inlined) := InlineOps(s, b.ops);
    var outs := RootsOf(s2, Yields(b.ops).value);
    assert InlineOp(map[], op) == (Zip(s2, op.results, outs), inlined);
    forall i | 0 <= i < |op.results| ensures RootIn(Zip(s2, op.results, outs), op.results[i]) == outs[i] {
      ZipAt(s2, op.results, outs, i);
    }
    assert RootsOf(Zip(s2, op.results, outs), op.results) == outs;
  }

  lemma EmptySub(vs: seq<ValueId>)
    ensures RootsOf(map[], vs) == vs
  {
  }

  lemma OperandsStand(roots: Roots, vs: seq<ValueId>, used: set<ValueId>)
    requires Members(vs) <= used
    ensures StandFor(roots, vs, RootsOf(roots, vs), used)
  {
    forall i | 0 <= i < |vs| ensures vs[i] in used { assert vs[i] in Members(vs); }
  }

  lemma BodyRoots(vis: set<ValueId>, used: set<ValueId>, op: DynOp, b: Block, roots: Roots, ins: seq<ValueId>, rs: seq<nat>)
    requires WellScoped(vis, used, op, b) && ins == op.operands && rs == RootsOf(roots, ins)
    requires Agree(roots, roots, map[], vis - Members(ins), used)
    ensures var (s, inlined) := InlineOps(Zip(map[], b.args, ins), b.ops);
            var ys := Yields(b.ops).value;
            RootsOf(WalkOps(roots, inlined).0, RootsOf(s, ys)) == RootsOf(WalkOps(Zip(roots, b.args, rs), b.ops).0, ys)
  {
    hide WalkOps, InlineOps, Zip, Scoped, BodyDefs, DefsOf, RootIn, Yields, Members, Agree, VisAfter, Visits, Distinct, Simulates;
    var (vis1, used1) := (vis - Members(ins) + Members(b.args), used + Members(b.args));
    OperandsStand(roots, ins, used);
    BindAgrees(roots, roots, map[], vis - Members(ins), used, b.args, ins, rs);
    var (r1, s1) := (Zip(roots, b.args, rs), Zip(map[], b.args, ins));
    OpsSimulate(r1, roots, s1, vis1, used1, b.ops);
    YieldsVisible(vis1, used1, b.ops);
    var (s2, inlined) := InlineOps(s1, b.ops);
    SimulatesParts(roots, inlined, Visits(WalkOps(r1, b.ops).1), WalkOps(r1, b.ops).0, s2, s1, VisAfter(vis1, b.ops), used1 + DefsOf(b.ops), used1);
    Operands(WalkOps(r1, b.ops).0, WalkOps(roots, inlined).0, s2, VisAfter(vis1, b.ops), used1 + DefsOf(b.ops), Yields(b.ops).value);
  }

  // ── Position by position is enough ─────────────────────────────────────────

  lemma PositionalTracks(vis: set<ValueId>, used: set<ValueId>, op: DynOp, b: Block, roots: Roots)
    requires WellScoped(vis, used, op, b) && Positional(b) && roots.Keys <= used
    ensures Tracks(op, roots)
  {
    hide WalkOps, WalkOp, InlineOp, Scoped, Zip, RootIn, Yields, Carry, BodyDefs;
    ResultRoots(vis, used, op, b, roots);
    InlinedRoots(vis, used, op, b, roots);
    var rs := RootsOf(roots, op.operands);
    var (r1, pos, ys) := (Entered(op, b, roots), ArgPositions(b.args), Yields(b.ops).value);
    forall v | v in pos ensures pos[v] < |rs| && RootIn(r1, v) == rs[pos[v]] { ZipAt(roots, b.args, rs, pos[v]); }
    var (vis1, used1) := (vis - Members(op.operands) + Members(b.args), used + Members(b.args));
    CarriedRoots(r1, vis1, used1, b.ops, pos, rs);
    forall i | 0 <= i < |ys| ensures RootIn(WalkOps(r1, b.ops).0, ys[i]) == rs[i] {
    }
  }

  // ── And nothing less is ────────────────────────────────────────────────────

  /** Two tables that differ only in the wires of the arguments: a value followed to an argument has
      its root in each, and any other visible value has one root in both. */
  ghost predicate Twins(a: Roots, b: Roots, vis: set<ValueId>, used: set<ValueId>, pos: map<ValueId, nat>, x: seq<nat>, y: seq<nat>) {
    && (forall v | v in vis :: TwinAt(a, b, pos, x, y, v))
    && (forall v: ValueId | v !in used :: RootIn(a, v) == v && RootIn(b, v) == v)
  }

  ghost predicate TwinAt(a: Roots, b: Roots, pos: map<ValueId, nat>, x: seq<nat>, y: seq<nat>, v: ValueId) {
    if v in pos then pos[v] < |x| && pos[v] < |y| && RootIn(a, v) == x[pos[v]] && RootIn(b, v) == y[pos[v]]
    else RootIn(a, v) == RootIn(b, v)
  }

  lemma FirstOp(vis: set<ValueId>, used: set<ValueId>, ops: seq<DynOp>, pos: map<ValueId, nat>)
    requires ops != [] && !ops[0].Ends() && Scoped(vis, used, ops)
    ensures ScopedOp(vis, used, ops[0]) && Scoped(vis + Members(ops[0].results), used + OpDefs(ops[0]), ops[1..])
    ensures VisAfter(vis, ops) == VisAfter(vis + Members(ops[0].results), ops[1..])
    ensures used + DefsOf(ops) == used + OpDefs(ops[0]) + DefsOf(ops[1..])
    ensures Carry(pos, ops) == Carry(CarryOp(pos, ops[0].operands, ops[0].results), ops[1..])
  {
    hide OpDefs, ScopedOp, CarryOp, Members;
  }

  lemma NoOp(vis: set<ValueId>, used: set<ValueId>, ops: seq<DynOp>, pos: map<ValueId, nat>, a: Roots)
    requires ops == [] || ops[0].Ends()
    ensures VisAfter(vis, ops) == vis && used + DefsOf(ops) == used && Carry(pos, ops) == pos && WalkOps(a, ops).0 == a
  {
  }

  lemma {:induction false} TwinsStay(a: Roots, b: Roots, vis: set<ValueId>, used: set<ValueId>, ops: seq<DynOp>,
                                     pos: map<ValueId, nat>, x: seq<nat>, y: seq<nat>)
    requires Scoped(vis, used, ops) && vis <= used && pos.Keys <= vis && Twins(a, b, vis, used, pos, x, y)
    ensures Twins(WalkOps(a, ops).0, WalkOps(b, ops).0, VisAfter(vis, ops), used + DefsOf(ops), Carry(pos, ops), x, y)
    decreases ops
  {
    hide WalkOps, WalkOp, OpDefs, ScopedOp, Scoped, Twins, CarryOp, Carry, Members, RootIn, DefsOf, VisAfter;
    if ops == [] || ops[0].Ends() {
      NoOp(vis, used, ops, pos, a);
      NoOp(vis, used, ops, pos, b);
    } else {
      var op := ops[0];
      FirstOp(vis, used, ops, pos);
      WalkFirst(a, ops);
      WalkFirst(b, ops);
      OpKeepsTwins(a, b, vis, used, op, pos, x, y);
      TwinsStay(WalkOp(a, op).0, WalkOp(b, op).0, vis + Members(op.results), used + OpDefs(op), ops[1..],
                CarryOp(pos, op.operands, op.results), x, y);
    }
  }

  lemma OpKeepsTwins(a: Roots, b: Roots, vis: set<ValueId>, used: set<ValueId>, op: DynOp, pos: map<ValueId, nat>, x: seq<nat>, y: seq<nat>)
    requires !op.Ends() && ScopedOp(vis, used, op) && vis <= used && pos.Keys <= vis && Twins(a, b, vis, used, pos, x, y)
    ensures var next := CarryOp(pos, op.operands, op.results);
            && Twins(WalkOp(a, op).0, WalkOp(b, op).0, vis + Members(op.results), used + OpDefs(op), next, x, y)
            && next.Keys <= vis + Members(op.results)
    ensures vis + Members(op.results) <= used + OpDefs(op)
  {
    hide WalkOp, OpDefs, ScopedOp, RootIn, CarryOp, TwinAt, Members;
    var next := CarryOp(pos, op.operands, op.results);
    var (a', b') := (WalkOp(a, op).0, WalkOp(b, op).0);
    ResultsAreDefs(op);
    CarryKeys(pos, op);
    forall v | v in vis + Members(op.results) ensures TwinAt(a', b', next, x, y, v) {
      if v in vis { OldTwin(a, b, vis, used, op, pos, x, y, v); } else { NewTwin(a, b, vis, used, op, pos, x, y, v); }
    }
    forall v: ValueId | v !in used + OpDefs(op) ensures RootIn(a', v) == v && RootIn(b', v) == v {
      OpFrame(a, op, v);
      OpFrame(b, op, v);
    }
  }

  lemma CarryKeys(pos: map<ValueId, nat>, op: DynOp)
    requires !op.Ends()
    ensures CarryOp(pos, op.operands, op.results).Keys <= pos.Keys + Members(op.results)
  {
  }

  lemma ResultsAreNew(vis: set<ValueId>, used: set<ValueId>, op: DynOp)
    requires !op.Ends() && ScopedOp(vis, used, op)
    ensures Members(op.results) !! used && Members(op.operands) <= vis
  {
    hide Scoped, ScopedBody, BodyDefs;
  }

  lemma CarryOld(pos: map<ValueId, nat>, op: DynOp, v: ValueId)
    requires !op.Ends() && v !in op.results
    ensures var next := CarryOp(pos, op.operands, op.results); (v in next <==> v in pos) && (v in pos ==> next[v] == pos[v])
  {
  }

  lemma OldTwin(a: Roots, b: Roots, vis: set<ValueId>, used: set<ValueId>, op: DynOp, pos: map<ValueId, nat>, x: seq<nat>, y: seq<nat>, v: ValueId)
    requires !op.Ends() && ScopedOp(vis, used, op) && vis <= used && v in vis && TwinAt(a, b, pos, x, y, v)
    ensures TwinAt(WalkOp(a, op).0, WalkOp(b, op).0, CarryOp(pos, op.operands, op.results), x, y, v)
  {
    hide WalkOp, ScopedOp, RootIn, Members, OpDefs, CarryOp;
    ResultsAreNew(vis, used, op);
    NotMember(op.results, used, v);
    CarryOld(pos, op, v);
    ScopedOpDefs(vis, used, op);
    OpFrame(a, op, v);
    OpFrame(b, op, v);
  }

  lemma NewTwin(a: Roots, b: Roots, vis: set<ValueId>, used: set<ValueId>, op: DynOp, pos: map<ValueId, nat>, x: seq<nat>, y: seq<nat>, v: ValueId)
    requires !op.Ends() && ScopedOp(vis, used, op) && vis <= used && pos.Keys <= vis && Twins(a, b, vis, used, pos, x, y)
    requires v in Members(op.results)
    ensures TwinAt(WalkOp(a, op).0, WalkOp(b, op).0, CarryOp(pos, op.operands, op.results), x, y, v)
  {
    hide WalkOp, ScopedOp, RootIn, Members, OpDefs;
    InMembers(op.results, v);
    ResultsAreNew(vis, used, op);
    var next := CarryOp(pos, op.operands, op.results);
    if |op.operands| == |op.results| {
      var w := op.operands[Position(op.results, v).value];
      InMembers(op.operands, w);
      OpCarries(a, vis, used, op, v);
      OpCarries(b, vis, used, op, v);
      assert TwinAt(a, b, pos, x, y, w);
      assert v in next <==> w in pos;
    } else {
      assert v !in next;
      Uncarried(a, b, vis, used, op, v);
    }
  }

  /** Where the counts differ, a result's root is its own. */
  lemma Uncarried(a: Roots, b: Roots, vis: set<ValueId>, used: set<ValueId>, op: DynOp, v: ValueId)
    requires !op.Ends() && ScopedOp(vis, used, op) && |op.operands| != |op.results| && v in op.results
    requires RootIn(a, v) == RootIn(b, v)
    ensures RootIn(WalkOp(a, op).0, v) == RootIn(WalkOp(b, op).0, v)
  {
    hide Scoped, ScopedBody, BodyDefs, WalkBody, WalkArm, RootIn;
    assert op.Leaf?;
    if op.operands == [] {
      AssignAt(a, op.results, op.results, v);
      AssignAt(b, op.results, op.results, v);
    }
  }

  /** A table that gives operand `k` the root `k + from`. */
  function Numbered(vs: seq<ValueId>, from: nat): Roots {
    map v | v in vs :: Position(vs, v).value + from
  }

  lemma NumberedRoots(vs: seq<ValueId>, from: nat)
    requires Distinct(vs)
    ensures Numbered(vs, from).Keys == Members(vs)
    ensures forall k | 0 <= k < |vs| :: RootsOf(Numbered(vs, from), vs)[k] == k + from
    ensures Distinct(RootsOf(Numbered(vs, from), vs))
  {
    forall k | 0 <= k < |vs| ensures RootIn(Numbered(vs, from), vs[k]) == k + from {
      hide Distinct, Position;
    }
  }

  lemma NumberedTwins(vis: set<ValueId>, used: set<ValueId>, op: DynOp, b: Block, i: nat)
    requires WellScoped(vis, used, op, b) && i < |b.args|
    ensures var n := |b.args|;
            var (p, q) := (Numbered(op.operands, 0), Numbered(op.operands, n));
            Twins(Entered(op, b, p), Entered(op, b, q), vis - Members(op.operands) + Members(b.args), used + Members(b.args),
                  ArgPositions(b.args), RootsOf(p, op.operands), RootsOf(q, op.operands))
  {
    hide Zip, Scoped, BodyDefs, RootIn, Yields;
    var n := |b.args|;
    var (p, q) := (Numbered(op.operands, 0), Numbered(op.operands, n));
    var (x, y) := (RootsOf(p, op.operands), RootsOf(q, op.operands));
    NumberedRoots(op.operands, 0);
    NumberedRoots(op.operands, n);
    var pos := ArgPositions(b.args);
    forall v | v in vis - Members(op.operands) + Members(b.args)
      ensures TwinAt(Entered(op, b, p), Entered(op, b, q), pos, x, y, v)
    {
      if v in b.args {
        ZipAt(p, b.args, x, pos[v]);
        ZipAt(q, b.args, y, pos[v]);
      } else {
        InMembers(b.args, v);
        OutsideNumbered(op.operands, n, v);
        ZipFrame(p, b.args, x, v);
        ZipFrame(q, b.args, y, v);
      }
    }
    forall v: ValueId | v !in used + Members(b.args) ensures RootIn(Entered(op, b, p), v) == v && RootIn(Entered(op, b, q), v) == v {
      InMembers(b.args, v);
      OutsideNumbered(op.operands, n, v);
      ZipFrame(p, b.args, x, v);
      ZipFrame(q, b.args, y, v);
    }
  }

  lemma OutsideNumbered(vs: seq<ValueId>, n: nat, v: ValueId)
    requires Distinct(vs) && v !in Members(vs)
    ensures RootIn(Numbered(vs, 0), v) == v && RootIn(Numbered(vs, n), v) == v
  {
  }

  /** Where the body yields another wire than the argument's at some position, one of two tables shows it. */
  lemma StrayYieldShows(vis: set<ValueId>, used: set<ValueId>, op: DynOp, b: Block, i: nat)
    requires WellScoped(vis, used, op, b) && i < |b.args|
    requires var carried := Carry(ArgPositions(b.args), b.ops);
             !(Yields(b.ops).value[i] in carried && carried[Yields(b.ops).value[i]] == i)
    ensures !Tracks(op, Numbered(op.operands, 0)) || !Tracks(op, Numbered(op.operands, |b.args|))
  {
    hide WalkOps, WalkOp, InlineOp, Scoped, Zip, RootIn, Yields, Carry, BodyDefs, Twins, Members, VisAfter, Numbered, Distinct;
    var n := |b.args|;
    var (p, q) := (Numbered(op.operands, 0), Numbered(op.operands, n));
    var (x, y) := (RootsOf(p, op.operands), RootsOf(q, op.operands));
    var (vis1, used1) := (vis - Members(op.operands) + Members(b.args), used + Members(b.args));
    var ys := Yields(b.ops).value;
    NumberedRoots(op.operands, 0);
    NumberedRoots(op.operands, n);
    InUse(vis, used, op, b);
    NumberedTwins(vis, used, op, b, i);
    ArgKeys(b.args);
    TwinsStay(Entered(op, b, p), Entered(op, b, q), vis1, used1, b.ops, ArgPositions(b.args), x, y);
    YieldsVisible(vis1, used1, b.ops);
    InMembers(ys, ys[i]);
    TwinFact(WalkOps(Entered(op, b, p), b.ops).0, WalkOps(Entered(op, b, q), b.ops).0, VisAfter(vis1, b.ops),
             used1 + DefsOf(b.ops), Carry(ArgPositions(b.args), b.ops), x, y, ys[i]);
    ResultRoots(vis, used, op, b, p);
    ResultRoots(vis, used, op, b, q);
    InlinedRoots(vis, used, op, b, p);
    InlinedRoots(vis, used, op, b, q);
    assert Tracks(op, p) ==> RootsOf(WalkOps(Entered(op, b, p), b.ops).0, ys)[i] == x[i];
    assert Tracks(op, q) ==> RootsOf(WalkOps(Entered(op, b, q), b.ops).0, ys)[i] == y[i];
  }

  lemma InUse(vis: set<ValueId>, used: set<ValueId>, op: DynOp, b: Block)
    requires WellScoped(vis, used, op, b)
    ensures Members(op.operands) <= used && Distinct(op.operands)
  {
    hide Scoped, BodyDefs, Yields, Members, Distinct;
  }

  lemma ArgKeys(args: seq<ValueId>)
    ensures ArgPositions(args).Keys == Members(args)
  {
  }

  lemma TwinFact(a: Roots, b: Roots, vis: set<ValueId>, used: set<ValueId>, pos: map<ValueId, nat>, x: seq<nat>, y: seq<nat>, v: ValueId)
    requires Twins(a, b, vis, used, pos, x, y) && v in vis
    ensures TwinAt(a, b, pos, x, y, v)
  {
  }

  /** The walk tracks a region's wires, from every table that gives the operands distinct roots, exactly
      when the body yields them position by position. */
  lemma TracksIffPositional(vis: set<ValueId>, used: set<ValueId>, op: DynOp, b: Block)
    requires WellScoped(vis, used, op, b)
    ensures Positional(b) <==>
              forall roots: Roots | roots.Keys <= used && Distinct(RootsOf(roots, op.operands)) :: Tracks(op, roots)
  {
    hide Tracks, Scoped, BodyDefs, Carry, Yields;
    if Positional(b) {
      forall roots: Roots | roots.Keys <= used && Distinct(RootsOf(roots, op.operands)) ensures Tracks(op, roots) {
        PositionalTracks(vis, used, op, b, roots);
      }
    } else {
      var carried := Carry(ArgPositions(b.args), b.ops);
      var i :| 0 <= i < |b.args| && !(Yields(b.ops).value[i] in carried && carried[Yields(b.ops).value[i]] == i);
      StrayYieldShows(vis, used, op, b, i);
      InUse(vis, used, op, b);
      NumberedRoots(op.operands, 0);
      NumberedRoots(op.operands, |b.args|);
    }
  }

  // ── Conditionals ───────────────────────────────────────────────────────────

  /** The arm `b` of an `if`, as a region of its own on the same wires. */
  function ArmRegion(op: DynOp, b: Block): DynOp
    requires op.IfOp?
  {
    UnitaryRegion(op.operands, op.results, Some(b))
  }

  /** Both arms are regions on the wires of the `if`. */
  predicate WellScopedIf(vis: set<ValueId>, used: set<ValueId>, op: DynOp, t: Block, e: Block) {
    && op.IfOp? && op.thn == Some(t) && op.els == Some(e)
    && WellScoped(vis, used, ArmRegion(op, t), t) && WellScoped(vis, used, ArmRegion(op, e), e)
  }

  /** If the arm `b` is the one that runs, the walk gives the results of the `if` the roots that running
      it yields. */
  ghost predicate TracksArm(op: DynOp, b: Block, roots: Roots)
    requires op.IfOp?
  {
    var (sub, inlined) := InlineOp(map[], ArmRegion(op, b));
    RootsOf(WalkOp(roots, op).0, op.results) == RootsOf(WalkOps(roots, inlined).0, RootsOf(sub, op.results))
  }

  /** Nothing the region defines is one of its operands. */
  lemma OperandsOutside(vis: set<ValueId>, used: set<ValueId>, op: DynOp, b: Block, v: ValueId)
    requires WellScoped(vis, used, op, b) && v in op.operands
    ensures v !in OpDefs(op)
  {
    hide Scoped, DefsOf, Yields;
    InMembers(op.operands, v);
    ScopedDefs(vis - Members(op.operands) + Members(b.args), used + Members(b.args), b.ops);
  }

  /** The walk passes the operands' roots through both arms to the results. */
  lemma IfResultRoots(vis: set<ValueId>, used: set<ValueId>, op: DynOp, t: Block, e: Block, roots: Roots)
    requires WellScopedIf(vis, used, op, t, e)
    ensures RootsOf(WalkOp(roots, op).0, op.results) == RootsOf(roots, op.operands)
  {
    hide WalkBody, Zip, Scoped, BodyDefs, OpDefs, RootIn, Yields;
    var (rs, r1) := (RootsOf(roots, op.operands), WalkOp(roots, ArmRegion(op, t)).0);
    forall i | 0 <= i < |op.operands| ensures RootIn(r1, op.operands[i]) == rs[i] {
      OperandsOutside(vis, used, ArmRegion(op, t), t, op.operands[i]);
      OpFrame(roots, ArmRegion(op, t), op.operands[i]);
    }
    assert RootsOf(r1, op.operands) == rs;
    forall i | 0 <= i < |op.results| ensures RootIn(WalkOp(roots, op).0, op.results[i]) == rs[i] {
      ZipAt(WalkBody(r1, op.els, rs).0, op.results, rs, i);
    }
  }

  lemma ArmTracks(vis: set<ValueId>, used: set<ValueId>, op: DynOp, t: Block, e: Block, roots: Roots)
    requires WellScopedIf(vis, used, op, t, e)
    ensures TracksArm(op, t, roots) <==> Tracks(ArmRegion(op, t), roots)
    ensures TracksArm(op, e, roots) <==> Tracks(ArmRegion(op, e), roots)
  {
    hide WalkOp, WalkOps, InlineOp, WellScoped;
    IfResultRoots(vis, used, op, t, e, roots);
    ResultRoots(vis, used, ArmRegion(op, t), t, roots);
    ResultRoots(vis, used, ArmRegion(op, e), e, roots);
  }

  /** Whichever arm runs, the walk tracks the wires of an `if`, from every table that gives the operands
      distinct roots, exactly when both arms yield them position by position. */
  lemma IfTracksIffPositional(vis: set<ValueId>, used: set<ValueId>, op: DynOp, t: Block, e: Block)
    requires WellScopedIf(vis, used, op, t, e)
    ensures Positional(t) && Positional(e) <==>
              forall roots: Roots | roots.Keys <= used && Distinct(RootsOf(roots, op.operands)) ::
                TracksArm(op, t, roots) && TracksArm(op, e, roots)
  {
    hide Tracks, TracksArm, WellScoped, Positional;
    TracksIffPositional(vis, used, ArmRegion(op, t), t);
    TracksIffPositional(vis, used, ArmRegion(op, e), e);
    forall roots: Roots
      ensures TracksArm(op, t, roots) <==> Tracks(ArmRegion(op, t), roots)
      ensures TracksArm(op, e, roots) <==> Tracks(ArmRegion(op, e), roots)
    {
      ArmTracks(vis, used, op, t, e, roots);
    }
  }
}
