/** What the walk tells its visitor: every callback, in order, on the wires its operands come from. */
module WalkWires {
  import opened Ast
  import opened Ssa
  import opened DynamicWalk
  import opened WalkLaws
  import opened WalkRefinement

  // ── What should be told ────────────────────────────────────────────────────

  /** A flat operation, as far as wires go. */
  function AsOp(op: DynOp): Op
    requires op.Leaf?
  {
    OtherOp(op.name, op.operands, op.results)
  }

  function AsOps(ops: seq<DynOp>): (r: seq<Op>)
    requires AllLeaves(ops)
    ensures |r| == |ops| && forall i | 0 <= i < |ops| :: r[i] == AsOp(ops[i])
  {
    seq(|ops|, i requires 0 <= i < |ops| => AsOp(ops[i]))
  }

  /** The callback due for a flat operation that stands on the wires `ws`. */
  function Callback(kind: LeafKind, name: string, ws: seq<nat>): Event {
    match kind
    case GateKind => Reached(GateKind, name, ws)
    case BarrierKind => Reached(BarrierKind, name, ws)
    case MeasureKind => Reached(MeasureKind, name, ws)
    case ResetKind => Reached(ResetKind, name, ws)
    case OtherKind => Reached(OtherKind, name, [])
  }

  /** The callbacks due for a flat block: operation `i` stands on the wires its operands come from,
      followed back through the operations before it to the arguments. */
  function FlatCallbacks(args: seq<ValueId>, ops: seq<DynOp>): seq<Event>
    requires AllLeaves(ops)
  {
    seq(|ops|, i requires 0 <= i < |ops| =>
      Callback(ops[i].kind, ops[i].name, Origins(args, AsOps(ops[..i]), ops[i].operands)))
  }

  predicate SingleLeaves(ops: seq<DynOp>) { AllLeaves(ops) && forall i | 0 <= i < |ops| :: Distinct(ops[i].results) }

  // ── Flat blocks ────────────────────────────────────────────────────────────

  /** The table follows the definitions of the flat operations `before` over `args`. */
  ghost predicate At(roots: Roots, args: seq<ValueId>, before: seq<DynOp>) {
    AllLeaves(before) && Follows(roots, args, AsOps(before))
  }

  lemma OneMore(before: seq<DynOp>, op: DynOp)
    requires AllLeaves(before) && op.Leaf?
    ensures AllLeaves(before + [op]) && AsOps(before + [op]) == AsOps(before) + [AsOp(op)]
  {
    assert forall i | 0 <= i < |before| :: (before + [op])[i] == before[i];
  }

  lemma LeafTold(roots: Roots, args: seq<ValueId>, before: seq<DynOp>, op: DynOp)
    requires At(roots, args, before) && op.Leaf? && Distinct(op.results)
    ensures LeafEvent(roots, op) == Callback(op.kind, op.name, Origins(args, AsOps(before), op.operands))
    ensures At(Observe(roots, op.operands, op.results), args, before + [op])
  {
    hide RootIn, Origin, Observe;
    assert RootsOf(roots, op.operands) == Origins(args, AsOps(before), op.operands);
    OneMore(before, op);
    Reflexive(Observe(roots, op.operands, op.results));
    FollowsStep(roots, Observe(roots, op.operands, op.results), args, AsOps(before), AsOp(op));
  }

  lemma WalkLeaf(roots: Roots, ops: seq<DynOp>)
    requires ops != [] && ops[0].Leaf?
    ensures WalkOps(roots, ops) == var after := WalkOps(Observe(roots, ops[0].operands, ops[0].results), ops[1..]);
                                   (after.0, [LeafEvent(roots, ops[0])] + after.1)
  {
    hide Observe, LeafEvent;
    WalkFirst(roots, ops);
  }

  /** Operation by operation, from the operations `before` on. */
  lemma {:induction false} FlatFrom(roots: Roots, args: seq<ValueId>, before: seq<DynOp>, ops: seq<DynOp>)
    requires At(roots, args, before) && SingleLeaves(ops) && AllLeaves(before + ops)
    ensures |WalkOps(roots, ops).1| == |ops|
    ensures forall i | 0 <= i < |ops| :: WalkOps(roots, ops).1[i] == FlatCallbacks(args, before + ops)[|before| + i]
    ensures At(WalkOps(roots, ops).0, args, before + ops)
    decreases |ops|
  {
    hide At, WalkOps, LeafEvent, Callback, Origins, Observe, Distinct;
    if ops == [] {
      assert before + [] == before;
      WalkNothing(roots, []);
    } else {
      var op := ops[0];
      LeafTold(roots, args, before, op);
      WalkLeaf(roots, ops);
      assert (before + [op]) + ops[1..] == before + ops;
      assert (before + ops)[..|before|] == before;
      FlatFrom(Observe(roots, op.operands, op.results), args, before + [op], ops[1..]);
    }
  }

  /** A walk of a flat block makes exactly the callbacks that are due. */
  lemma FlatWalk(args: seq<ValueId>, ops: seq<DynOp>)
    requires Distinct(args) && SingleLeaves(ops)
    ensures WalkOps(Assign(map[], args, seq(|args|, i => i)), ops).1 == FlatCallbacks(args, ops)
  {
    hide WalkOps, Callback, Origins, Distinct;
    FollowsArgs(args);
    assert AsOps([]) == [] && [] + ops == ops;
    FlatFrom(Assign(map[], args, seq(|args|, i => i)), args, [], ops);
  }

  // ── Nested blocks ──────────────────────────────────────────────────────────

  /** The callbacks due for a nested block. `before` is the inlining of what has been walked, and `sub`
      says which value stands there for each value replaced. Entering a region or an arm is told with
      the wires that its operation's operands come from. */
  function Callbacks(args: seq<ValueId>, before: seq<DynOp>, sub: Roots, ops: seq<DynOp>): seq<Event>
    decreases ops
  {
    if ops == [] || ops[0].Ends() then []
    else
      OpCallbacks(args, before, sub, ops[0])
        + Callbacks(args, before + InlineOp(sub, ops[0]).1, InlineOp(sub, ops[0]).0, ops[1..])
  }

  /** The wires that values come from in the flat block. */
  function WiresOf(args: seq<ValueId>, before: seq<DynOp>, vs: seq<ValueId>): seq<nat> {
    if AllLeaves(before) then Origins(args, AsOps(before), vs) else []
  }

  function OpCallbacks(args: seq<ValueId>, before: seq<DynOp>, sub: Roots, op: DynOp): seq<Event>
    requires !op.Ends()
    decreases op, 1
  {
    var ins := RootsOf(sub, op.operands);
    var ws := WiresOf(args, before, ins);
    match op
    case Leaf(kind, name, _, _) => [Callback(kind, name, ws)]
    case UnitaryRegion(_, _, body) => [EnterRegion(ws)] + BodyCallbacks(args, before, sub, body, ins) + [ExitRegion]
    case IfOp(_, _, thn, els) =>
      var (s1, f, mid) := InlineBody(sub, thn, ins);
      [EnterArm(Then, ws)] + BodyCallbacks(args, before, sub, thn, ins) + [ExitArm(Then)]
        + ([EnterArm(Else, ws)] + BodyCallbacks(args, before + f, s1, els, mid) + [ExitArm(Else)])
  }

  function BodyCallbacks(args: seq<ValueId>, before: seq<DynOp>, sub: Roots, body: Option<Block>, ins: seq<ValueId>): seq<Event>
    decreases body, 0
  {
    match body
    case None => []
    case Some(b) => Callbacks(args, before, Zip(sub, b.args, ins), b.ops)
  }

  // ── Inlining gives single definitions ──────────────────────────────────────

  lemma SingleConcat(a: seq<DynOp>, b: seq<DynOp>)
    requires SingleLeaves(a) && SingleLeaves(b)
    ensures SingleLeaves(a + b)
  {
    hide Distinct;
  }

  lemma {:induction false} InlinedSingle(vis: set<ValueId>, used: set<ValueId>, sub: Roots, ops: seq<DynOp>)
    requires Scoped(vis, used, ops)
    ensures SingleLeaves(InlineOps(sub, ops).1)
    decreases ops, 1
  {
    if ops != [] && !ops[0].Ends() {
      hide InlineOp, ScopedOp, SingleLeaves, OpDefs, Members;
      InlinedOpSingle(vis, used, sub, ops[0]);
      InlinedSingle(vis + Members(ops[0].results), used + OpDefs(ops[0]), InlineOp(sub, ops[0]).0, ops[1..]);
      SingleConcat(InlineOp(sub, ops[0]).1, InlineOps(InlineOp(sub, ops[0]).0, ops[1..]).1);
    }
  }

  lemma {:induction false} InlinedOpSingle(vis: set<ValueId>, used: set<ValueId>, sub: Roots, op: DynOp)
    requires !op.Ends() && ScopedOp(vis, used, op)
    ensures SingleLeaves(InlineOp(sub, op).1)
    decreases op, 1
  {
    hide InlineBody, ScopedBody, BodyDefs, Members, Distinct;
    match op
    case Leaf(_, _, _, _) =>
    case UnitaryRegion(operands, _, body) =>
      InlinedBodySingle(vis, used, |operands|, sub, body, RootsOf(sub, operands));
    case IfOp(operands, results, thn, els) =>
      var used1 := used + Members(results);
      var ins := RootsOf(sub, operands);
      var (s1, f, mid) := InlineBody(sub, thn, ins);
      InlinedBodySingle(vis, used1, |operands|, sub, thn, ins);
      InlinedBodySingle(vis, used1 + BodyDefs(thn), |operands|, s1, els, mid);
      SingleConcat(f, InlineBody(s1, els, mid).1);
  }

  lemma {:induction false} InlinedBodySingle(vis: set<ValueId>, used: set<ValueId>, n: nat, sub: Roots, body: Option<Block>, ins: seq<ValueId>)
    requires ScopedBody(vis, used, n, body)
    ensures SingleLeaves(InlineBody(sub, body, ins).1)
    decreases body, 0
  {
    if body.Some? {
      hide InlineOps, Positional, SingleLeaves, Scoped, Zip, Yields;
      InlinedSingle(vis + Members(body.value.args), used + Members(body.value.args), Zip(sub, body.value.args, ins), body.value.ops);
    }
  }

  lemma StillAt(flat: Roots, args: seq<ValueId>, before: seq<DynOp>, f: seq<DynOp>)
    requires At(flat, args, before) && SingleLeaves(f)
    ensures At(WalkOps(flat, f).0, args, before + f)
  {
    hide WalkOps, FlatCallbacks, Follows;
    assert AllLeaves(before + f);
    FlatFrom(flat, args, before, f);
  }

  // ── The theorem ────────────────────────────────────────────────────────────

  lemma OperandWires(roots: Roots, flat: Roots, sub: Roots, vis: set<ValueId>, used: set<ValueId>, args: seq<ValueId>,
                     before: seq<DynOp>, vs: seq<ValueId>)
    requires Agree(roots, flat, sub, vis, used) && Members(vs) <= vis && At(flat, args, before)
    ensures RootsOf(roots, vs) == WiresOf(args, before, RootsOf(sub, vs))
  {
    hide Agree, Members, Origin, RootIn;
    Operands(roots, flat, sub, vis, used, vs);
    var ins := RootsOf(sub, vs);
    assert forall i | 0 <= i < |ins| :: RootsOf(flat, ins)[i] == RootIn(flat, ins[i]);
    assert RootsOf(flat, ins) == WiresOf(args, before, ins);
  }

  lemma {:induction false} OpsTold(args: seq<ValueId>, before: seq<DynOp>, roots: Roots, flat: Roots, sub: Roots,
                                   vis: set<ValueId>, used: set<ValueId>, ops: seq<DynOp>)
    requires Scoped(vis, used, ops) && vis <= used && Agree(roots, flat, sub, vis, used) && At(flat, args, before)
    ensures WalkOps(roots, ops).1 == Callbacks(args, before, sub, ops)
    decreases ops, 2
  {
    if ops != [] && !ops[0].Ends() {
      hide WalkOp, InlineOp, OpDefs, ScopedOp, Members, Simulates, Agree, Visits, At, OpCallbacks, SingleLeaves;
      var op := ops[0];
      OpTold(args, before, roots, flat, sub, vis, used, op);
      OpSimulates(roots, flat, sub, vis, used, op);
      var (r1, e1) := WalkOp(roots, op);
      var (s1, f1) := InlineOp(sub, op);
      var (vis1, used1) := (vis + Members(op.results), used + OpDefs(op));
      ResultsAreDefs(op);
      SimulatesParts(flat, f1, Visits(e1), r1, s1, sub, vis1, used1, used);
      InlinedOpSingle(vis, used, sub, op);
      StillAt(flat, args, before, f1);
      OpsTold(args, before + f1, r1, WalkOps(flat, f1).0, s1, vis1, used1, ops[1..]);
    }
  }

  lemma {:induction false} OpTold(args: seq<ValueId>, before: seq<DynOp>, roots: Roots, flat: Roots, sub: Roots,
                                  vis: set<ValueId>, used: set<ValueId>, op: DynOp)
    requires !op.Ends() && ScopedOp(vis, used, op) && vis <= used && Agree(roots, flat, sub, vis, used) && At(flat, args, before)
    ensures WalkOp(roots, op).1 == OpCallbacks(args, before, sub, op)
    decreases op, 1
  {
    hide WalkBody, BodyCallbacks, ScopedBody, BodyDefs, Agree, At, Members, WiresOf, RootsOf, Observe, InlineBody, WalkArm;
    OperandWires(roots, flat, sub, vis, used, args, before, op.operands);
    var (rs, ins) := (RootsOf(roots, op.operands), RootsOf(sub, op.operands));
    if op.UnitaryRegion? {
      Operands(roots, flat, sub, vis, used, op.operands);
      BodyTold(args, before, roots, flat, sub, vis, used, op.body, ins, rs);
    } else if op.IfOp? {
      IfTold(args, before, roots, flat, sub, vis, used, op);
    }
  }

  lemma {:induction false} BodyTold(args: seq<ValueId>, before: seq<DynOp>, roots: Roots, flat: Roots, sub: Roots,
                                    vis: set<ValueId>, used: set<ValueId>, body: Option<Block>, ins: seq<ValueId>, rs: seq<nat>)
    requires ScopedBody(vis, used, |rs|, body) && vis <= used && Agree(roots, flat, sub, vis, used) && At(flat, args, before)
    requires StandFor(flat, ins, rs, used)
    ensures WalkBody(roots, body, rs).1 == BodyCallbacks(args, before, sub, body, ins)
    decreases body, 0
  {
    if body.Some? {
      hide WalkOps, Callbacks, Members, Agree, At, Zip, Kept, RootIn, Scoped, Positional;
      var b := body.value;
      BindAgrees(roots, flat, sub, vis, used, b.args, ins, rs);
      OpsTold(args, before, Zip(roots, b.args, rs), flat, Zip(sub, b.args, ins), vis + Members(b.args), used + Members(b.args), b.ops);
    }
  }

  lemma {:induction false} IfTold(args: seq<ValueId>, before: seq<DynOp>, roots: Roots, flat: Roots, sub: Roots,
                                  vis: set<ValueId>, used: set<ValueId>, op: DynOp)
    requires op.IfOp? && ScopedOp(vis, used, op) && vis <= used && Agree(roots, flat, sub, vis, used) && At(flat, args, before)
    ensures WalkOp(roots, op).1 == OpCallbacks(args, before, sub, op)
    decreases op, 0
  {
    hide WalkBody, BodyCallbacks, ScopedBody, BodyDefs, Agree, At, Members, WiresOf, RootsOf, InlineBody, Simulates, Visits, StandFor,
         Zip, SingleLeaves;
    OperandWires(roots, flat, sub, vis, used, args, before, op.operands);
    var (rs, ins) := (RootsOf(roots, op.operands), RootsOf(sub, op.operands));
    var used0 := used + Members(op.results);
    Operands(roots, flat, sub, vis, used, op.operands);
    MoreUsed(roots, flat, sub, vis, used, used0, ins, rs);
    BodyTold(args, before, roots, flat, sub, vis, used0, op.thn, ins, rs);
    BodySimulates(roots, flat, sub, vis, used0, op.thn, ins, rs);
    var (r1, e1) := WalkBody(roots, op.thn, rs);
    var (s1, f1, mid) := InlineBody(sub, op.thn, ins);
    var used1 := used0 + BodyDefs(op.thn);
    SimulatesParts(flat, f1, Visits(e1), r1, s1, sub, vis, used1, used0);
    AliasAgrees(r1, WalkOps(flat, f1).0, s1, vis, used1, op.results, rs);
    SameOperands(roots, vis, used, op);
    InlinedBodySingle(vis, used0, |op.operands|, sub, op.thn, ins);
    StillAt(flat, args, before, f1);
    BodyTold(args, before + f1, Zip(r1, op.results, rs), WalkOps(flat, f1).0, s1, vis, used1, op.els, mid, rs);
  }

  /** The walk makes exactly the callbacks that are due, in order: gates, barriers, measurements and resets
      on the wires their operands come from, entering and leaving regions and arms included. */
  lemma WalkTells(b: Block)
    requires Distinct(b.args) && Scoped(Members(b.args), Members(b.args), b.ops)
    ensures WalkOps(Assign(map[], b.args, seq(|b.args|, i => i)), b.ops).1 == Callbacks(b.args, [], map[], b.ops)
  {
    hide WalkOps, InlineOps, Scoped, Callbacks;
    var seeded := Assign(map[], b.args, seq(|b.args|, i => i));
    SeededAgrees(b.args);
    FollowsArgs(b.args);
    assert AsOps([]) == [];
    OpsTold(b.args, [], seeded, seeded, map[], Members(b.args), Members(b.args), b.ops);
  }

  /** Gate by gate and wire by wire, the walk reports the program with every region inlined: apart from
      entering and leaving, its callbacks are those due for the operations of the inlined block, each on
      the wires that following definitions back to the arguments gives. */
  lemma WalkRefinesInlining(b: Block)
    requires Distinct(b.args) && Scoped(Members(b.args), Members(b.args), b.ops)
    ensures var inlined := InlineOps(map[], b.ops).1;
            && AllLeaves(inlined)
            && Visits(WalkOps(Assign(map[], b.args, seq(|b.args|, i => i)), b.ops).1) == FlatCallbacks(b.args, inlined)
  {
    hide WalkOps, InlineOps, Scoped, FlatCallbacks;
    SameReports(b);
    InlinedSingle(Members(b.args), Members(b.args), map[], b.ops);
    FlatWalk(b.args, InlineOps(map[], b.ops).1);
  }
}
