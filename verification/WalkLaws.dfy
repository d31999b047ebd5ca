/** The walk refines inlining: on programs whose regions yield wires position by position it reports
    the gates, on the wires, of the program with every region inlined. */
module WalkLaws {
  import opened Ast
  import opened Ssa
  import opened DynamicWalk

  // ── Events nest ────────────────────────────────────────────────────────────

  /** Runs events against a stack of open entries; `None` when an exit does not match. */
  function Closing(open: seq<Event>, events: seq<Event>): Option<seq<Event>>
    decreases |events|
  {
    if events == [] then Some(open)
    else
      match events[0]
      case Reached(_, _, _) => Closing(open, events[1..])
      case EnterRegion(_) => Closing(open + [events[0]], events[1..])
      case EnterArm(_, _) => Closing(open + [events[0]], events[1..])
      case ExitRegion =>
        if open != [] && open[|open| - 1].EnterRegion? then Closing(open[..|open| - 1], events[1..]) else None
      case ExitArm(arm) =>
        if open != [] && open[|open| - 1].EnterArm? && open[|open| - 1].arm == arm
        then Closing(open[..|open| - 1], events[1..]) else None
  }

  lemma {:induction false} ClosingConcat(open: seq<Event>, a: seq<Event>, b: seq<Event>)
    requires Closing(open, a).Some?
    ensures Closing(open, a + b) == Closing(Closing(open, a).value, b)
    decreases |a|
  {
    if a == [] {
      assert a + b == b;
    } else {
      assert (a + b)[1..] == a[1..] + b;
      match a[0]
      case Reached(_, _, _) => ClosingConcat(open, a[1..], b);
      case EnterRegion(_) => ClosingConcat(open + [a[0]], a[1..], b);
      case EnterArm(_, _) => ClosingConcat(open + [a[0]], a[1..], b);
      case _ => ClosingConcat(open[..|open| - 1], a[1..], b);
    }
  }

  lemma Bracketed(open: seq<Event>, enter: Event, inner: seq<Event>, exit: Event)
    requires (enter.EnterRegion? && exit == ExitRegion) || (enter.EnterArm? && exit == ExitArm(enter.arm))
    requires Closing(open + [enter], inner) == Some(open + [enter])
    ensures Closing(open, [enter] + inner + [exit]) == Some(open)
  {
    assert [enter] + inner + [exit] == [enter] + (inner + [exit]);
    assert ([enter] + (inner + [exit]))[1..] == inner + [exit];
    ClosingConcat(open + [enter], inner, [exit]);
    assert (open + [enter])[..|open|] == open;
    assert [exit][1..] == [];
  }

  /** Every enter is closed by its own exit, in nested order. */
  lemma {:induction false} WalkNests(roots: Roots, ops: seq<DynOp>, open: seq<Event>)
    ensures Closing(open, WalkOps(roots, ops).1) == Some(open)
    decreases ops
  {
    if ops != [] && !ops[0].Ends() {
      hide WalkOp, Closing;
      var (r1, e1) := WalkOp(roots, ops[0]);
      OpNests(roots, ops[0], open);
      WalkNests(r1, ops[1..], open);
      ClosingConcat(open, e1, WalkOps(r1, ops[1..]).1);
    }
  }

  lemma {:induction false} OpNests(roots: Roots, op: DynOp, open: seq<Event>)
    requires !op.Ends()
    ensures Closing(open, WalkOp(roots, op).1) == Some(open)
    decreases op, 1
  {
    match op
    case Leaf(_, _, _, _) => assert [LeafEvent(roots, op)][1..] == [];
    case UnitaryRegion(operands, _, body) =>
      hide Closing, WalkBody;
      var rs := RootsOf(roots, operands);
      BodyNests(roots, body, rs, open + [EnterRegion(rs)]);
      Bracketed(open, EnterRegion(rs), WalkBody(roots, body, rs).1, ExitRegion);
    case IfOp(operands, results, thn, els) =>
      hide Closing, WalkArm;
      var (r1, e1) := WalkArm(roots, Then, operands, results, thn);
      ArmNests(roots, Then, operands, results, thn, open);
      ArmNests(r1, Else, operands, results, els, open);
      ClosingConcat(open, e1, WalkArm(r1, Else, operands, results, els).1);
  }

  lemma {:induction false} ArmNests(roots: Roots, arm: IfArm, operands: seq<ValueId>, results: seq<ValueId>, body: Option<Block>, open: seq<Event>)
    ensures Closing(open, WalkArm(roots, arm, operands, results, body).1) == Some(open)
    decreases body, 1
  {
    hide Closing, WalkBody;
    var rs := RootsOf(roots, operands);
    BodyNests(roots, body, rs, open + [EnterArm(arm, rs)]);
    Bracketed(open, EnterArm(arm, rs), WalkBody(roots, body, rs).1, ExitArm(arm));
  }

  lemma {:induction false} BodyNests(roots: Roots, body: Option<Block>, rs: seq<nat>, open: seq<Event>)
    ensures Closing(open, WalkBody(roots, body, rs).1) == Some(open)
    decreases body, 0
  {
    if body.Some? { WalkNests(Zip(roots, body.value.args, rs), body.value.ops, open); }
  }

  // ── What a program defines ─────────────────────────────────────────────────

  function Members(vs: seq<ValueId>): set<ValueId> { set v | v in vs }

  function BodyDefs(body: Option<Block>): set<ValueId>
    decreases body, 0
  {
    match body
    case None => {}
    case Some(b) => Members(b.args) + DefsOf(b.ops)
  }

  function OpDefs(op: DynOp): set<ValueId>
    decreases op, 1
  {
    match op
    case Leaf(_, _, _, results) => Members(results)
    case UnitaryRegion(_, results, body) => BodyDefs(body) + Members(results)
    case IfOp(_, results, thn, els) => BodyDefs(thn) + BodyDefs(els) + Members(results)
    case _ => {}
  }

  function DefsOf(ops: seq<DynOp>): set<ValueId>
    decreases ops
  {
    if ops == [] || ops[0].Ends() then {} else OpDefs(ops[0]) + DefsOf(ops[1..])
  }

  lemma {:induction false} AssignFrame(roots: Roots, vs: seq<ValueId>, rs: seq<nat>, v: ValueId)
    requires |vs| == |rs| && v !in vs
    ensures RootIn(Assign(roots, vs, rs), v) == RootIn(roots, v)
  {
    if vs != [] { AssignFrame(roots, vs[..|vs| - 1], rs[..|vs| - 1], v); }
  }

  lemma ZipFrame(roots: Roots, vs: seq<ValueId>, rs: seq<nat>, v: ValueId)
    requires v !in vs
    ensures RootIn(Zip(roots, vs, rs), v) == RootIn(roots, v)
  {
    var n := if |vs| < |rs| then |vs| else |rs|;
    AssignFrame(roots, vs[..n], rs[..n], v);
  }

  lemma ZipAt(roots: Roots, vs: seq<ValueId>, rs: seq<nat>, i: nat)
    requires |vs| == |rs| && i < |vs| && Distinct(vs)
    ensures RootIn(Zip(roots, vs, rs), vs[i]) == rs[i]
  {
    assert vs[..|vs|] == vs && rs[..|rs|] == rs;
    AssignAt(roots, vs, rs, vs[i]);
  }

  lemma ObserveFrame(roots: Roots, operands: seq<ValueId>, results: seq<ValueId>, v: ValueId)
    requires v !in results
    ensures RootIn(Observe(roots, operands, results), v) == RootIn(roots, v)
  {
    if |operands| == |results| {
      AssignFrame(roots, results, RootsOf(roots, operands), v);
    } else if operands == [] {
      AssignFrame(roots, results, results, v);
    }
  }

  /** A walk gives roots to nothing but what the program defines. */
  lemma {:induction false} WalkFrame(roots: Roots, ops: seq<DynOp>, v: ValueId)
    requires v !in DefsOf(ops)
    ensures RootIn(WalkOps(roots, ops).0, v) == RootIn(roots, v)
    decreases ops
  {
    if ops != [] && !ops[0].Ends() {
      hide WalkOp, OpDefs, RootIn;
      OpFrame(roots, ops[0], v);
      WalkFrame(WalkOp(roots, ops[0]).0, ops[1..], v);
    }
  }

  lemma {:induction false} OpFrame(roots: Roots, op: DynOp, v: ValueId)
    requires !op.Ends() && v !in OpDefs(op)
    ensures RootIn(WalkOp(roots, op).0, v) == RootIn(roots, v)
    decreases op, 1
  {
    hide WalkBody, RootIn, Zip, BodyDefs, Observe;
    match op
    case Leaf(_, _, operands, results) => ObserveFrame(roots, operands, results, v);
    case UnitaryRegion(operands, results, body) =>
      var rs := RootsOf(roots, operands);
      BodyFrame(roots, body, rs, v);
      ZipFrame(WalkBody(roots, body, rs).0, results, rs, v);
    case IfOp(operands, results, thn, els) =>
      ArmFrame(roots, Then, operands, results, thn, v);
      ArmFrame(WalkArm(roots, Then, operands, results, thn).0, Else, operands, results, els, v);
  }

  lemma {:induction false} ArmFrame(roots: Roots, arm: IfArm, operands: seq<ValueId>, results: seq<ValueId>, body: Option<Block>, v: ValueId)
    requires v !in BodyDefs(body) && v !in results
    ensures RootIn(WalkArm(roots, arm, operands, results, body).0, v) == RootIn(roots, v)
    decreases body, 1
  {
    hide WalkBody, RootIn, Zip, BodyDefs;
    var rs := RootsOf(roots, operands);
    BodyFrame(roots, body, rs, v);
    ZipFrame(WalkBody(roots, body, rs).0, results, rs, v);
  }

  lemma {:induction false} BodyFrame(roots: Roots, body: Option<Block>, rs: seq<nat>, v: ValueId)
    requires v !in BodyDefs(body)
    ensures RootIn(WalkBody(roots, body, rs).0, v) == RootIn(roots, v)
    decreases body, 0
  {
    if body.Some? {
      ZipFrame(roots, body.value.args, rs, v);
      WalkFrame(Zip(roots, body.value.args, rs), body.value.ops, v);
    }
  }

  // ── Position-by-position programs ──────────────────────────────────────────

  /** The operands of the yield a block ends in. */
  function Yields(ops: seq<DynOp>): Option<seq<ValueId>> {
    if ops == [] then None
    else if ops[0].Ends() then if ops[0].Yield? then Some(ops[0].operands) else None
    else Yields(ops[1..])
  }

  /** Which argument each value carries, followed through operations that keep their wires. */
  function Carry(pos: map<ValueId, nat>, ops: seq<DynOp>): map<ValueId, nat>
    decreases |ops|
  {
    if ops == [] || ops[0].Ends() then pos
    else Carry(CarryOp(pos, ops[0].operands, ops[0].results), ops[1..])
  }

  function CarryOp(pos: map<ValueId, nat>, operands: seq<ValueId>, results: seq<ValueId>): map<ValueId, nat> {
    if |operands| != |results| then pos
    else pos + map v | v in results && operands[Position(results, v).value] in pos
                 :: pos[operands[Position(results, v).value]]
  }

  function ArgPositions(args: seq<ValueId>): map<ValueId, nat> {
    map v | v in args :: Position(args, v).value
  }

  /** The block yields, at each position, the wire of the argument at that position. */
  predicate Positional(b: Block) {
    && Yields(b.ops).Some?
    && |Yields(b.ops).value| == |b.args|
    && forall i | 0 <= i < |b.args| ::
         var carried := Carry(ArgPositions(b.args), b.ops);
         Yields(b.ops).value[i] in carried && carried[Yields(b.ops).value[i]] == i
  }

  /** Every operand is visible, every value is defined once, regions take and give as many wires as
      their operations, and every region body yields position by position. */
  predicate Scoped(vis: set<ValueId>, used: set<ValueId>, ops: seq<DynOp>)
    decreases ops, 1
  {
    ops == [] || (
      if ops[0].Ends() then Members(ops[0].operands) <= vis
      else
        && ScopedOp(vis, used, ops[0])
        && Scoped(vis + Members(ops[0].results), used + OpDefs(ops[0]), ops[1..]))
  }

  predicate ScopedOp(vis: set<ValueId>, used: set<ValueId>, op: DynOp)
    requires !op.Ends()
    decreases op, 1
  {
    && Members(op.operands) <= vis && Distinct(op.results)
    && match op
       case Leaf(_, _, _, results) => Members(results) !! used
       case UnitaryRegion(operands, results, body) =>
         && |operands| == |results| && ScopedBody(vis, used, |operands|, body)
         && Members(results) !! used + BodyDefs(body)
       case IfOp(operands, results, thn, els) =>
         && |operands| == |results|
         && Members(results) !! used
         && ScopedBody(vis, used + Members(results), |operands|, thn)
         && ScopedBody(vis, used + Members(results) + BodyDefs(thn), |operands|, els)
  }

  predicate ScopedBody(vis: set<ValueId>, used: set<ValueId>, n: nat, body: Option<Block>)
    decreases body, 0
  {
    match body
    case None => true
    case Some(b) =>
      && |b.args| == n && Distinct(b.args) && Members(b.args) !! used
      && Scoped(vis + Members(b.args), used + Members(b.args), b.ops)
      && Positional(b)
  }

  /** What is visible after `ops`. */
  function VisAfter(vis: set<ValueId>, ops: seq<DynOp>): set<ValueId>
    decreases |ops|
  {
    if ops == [] || ops[0].Ends() then vis else VisAfter(vis + Members(ops[0].results), ops[1..])
  }

  // ── What one operation does to the roots ───────────────────────────────────

  /** An operation leaves what was there alone, and its results carry its operands' wires. */
  lemma {:induction false} OpCarries(roots: Roots, vis: set<ValueId>, used: set<ValueId>, op: DynOp, v: ValueId)
    requires !op.Ends() && ScopedOp(vis, used, op) && vis <= used
    ensures v in used ==> RootIn(WalkOp(roots, op).0, v) == RootIn(roots, v)
    ensures |op.operands| == |op.results| && v in op.results ==>
              RootIn(WalkOp(roots, op).0, v) == RootIn(roots, op.operands[Position(op.results, v).value])
  {
    if v in used {
      ScopedOpDefs(vis, used, op);
      OpFrame(roots, op, v);
    }
    if |op.operands| == |op.results| && v in op.results {
      var j := Position(op.results, v).value;
      ResultCarries(roots, vis, used, op, j);
    }
  }

  lemma ResultCarries(roots: Roots, vis: set<ValueId>, used: set<ValueId>, op: DynOp, j: nat)
    requires !op.Ends() && ScopedOp(vis, used, op) && vis <= used
    requires |op.operands| == |op.results| && j < |op.results|
    ensures RootIn(WalkOp(roots, op).0, op.results[j]) == RootIn(roots, op.operands[j])
  {
    hide RootIn, WalkBody, Zip, BodyDefs, ScopedBody;
    match op
    case Leaf(_, _, operands, results) =>
      AssignAt(roots, results, RootsOf(roots, operands), results[j]);
    case UnitaryRegion(operands, results, body) =>
      var rs := RootsOf(roots, operands);
      ZipAt(WalkBody(roots, body, rs).0, results, rs, j);
    case IfOp(operands, results, thn, els) =>
      var r1 := WalkArm(roots, Then, operands, results, thn).0;
      var rs := RootsOf(r1, operands);
      ZipAt(WalkBody(r1, els, rs).0, results, rs, j);
      assert operands[j] in Members(operands);
      assert operands[j] !in results by { assert forall v | v in results :: v in Members(results); }
      ScopedBodyDefs(vis, used + Members(results), |operands|, thn);
      ArmFrame(roots, Then, operands, results, thn, operands[j]);
  }

  lemma ScopedBodyDefs(vis: set<ValueId>, used: set<ValueId>, n: nat, body: Option<Block>)
    requires ScopedBody(vis, used, n, body)
    ensures BodyDefs(body) !! used
    decreases body, 0
  {
    if body.Some? { ScopedDefs(vis + Members(body.value.args), used + Members(body.value.args), body.value.ops); }
  }

  lemma {:induction false} ScopedOpDefs(vis: set<ValueId>, used: set<ValueId>, op: DynOp)
    requires !op.Ends() && ScopedOp(vis, used, op)
    ensures OpDefs(op) !! used
    decreases op, 1
  {
    hide BodyDefs, ScopedBody;
    match op
    case UnitaryRegion(operands, _, body) => ScopedBodyDefs(vis, used, |operands|, body);
    case IfOp(operands, results, thn, els) =>
      ScopedBodyDefs(vis, used + Members(results), |operands|, thn);
      ScopedBodyDefs(vis, used + Members(results) + BodyDefs(thn), |operands|, els);
    case _ =>
  }

  lemma {:induction false} ScopedDefs(vis: set<ValueId>, used: set<ValueId>, ops: seq<DynOp>)
    requires Scoped(vis, used, ops)
    ensures DefsOf(ops) !! used
    decreases ops, 1
  {
    if ops != [] && !ops[0].Ends() {
      hide OpDefs, ScopedOp;
      ScopedOpDefs(vis, used, ops[0]);
      ScopedDefs(vis + Members(ops[0].results), used + OpDefs(ops[0]), ops[1..]);
    }
  }

  lemma ResultsAreDefs(op: DynOp)
    requires !op.Ends()
    ensures Members(op.results) <= OpDefs(op)
  {
  }

  /** Every followed value has the root of the argument it carries. */
  ghost predicate Rooted(roots: Roots, pos: map<ValueId, nat>, rs: seq<nat>) {
    forall v | v in pos :: pos[v] < |rs| && RootIn(roots, v) == rs[pos[v]]
  }

  /** What is followed to an argument has that argument's root when the walk ends. */
  lemma {:induction false} CarriedRoots(roots: Roots, vis: set<ValueId>, used: set<ValueId>, ops: seq<DynOp>,
                                        pos: map<ValueId, nat>, rs: seq<nat>)
    requires Scoped(vis, used, ops) && vis <= used && pos.Keys <= vis && Rooted(roots, pos, rs)
    ensures Rooted(WalkOps(roots, ops).0, Carry(pos, ops), rs)
    decreases ops
  {
    if ops != [] && !ops[0].Ends() {
      hide WalkOp, OpDefs, ScopedOp, RootIn, Rooted, CarryOp, Members;
      var op := ops[0];
      OpKeepsRooted(roots, vis, used, op, pos, rs);
      CarriedRoots(WalkOp(roots, op).0, vis + Members(op.results), used + OpDefs(op), ops[1..],
                   CarryOp(pos, op.operands, op.results), rs);
    }
  }

  lemma OpKeepsRooted(roots: Roots, vis: set<ValueId>, used: set<ValueId>, op: DynOp, pos: map<ValueId, nat>, rs: seq<nat>)
    requires !op.Ends() && ScopedOp(vis, used, op) && vis <= used && pos.Keys <= vis && Rooted(roots, pos, rs)
    ensures Rooted(WalkOp(roots, op).0, CarryOp(pos, op.operands, op.results), rs)
    ensures CarryOp(pos, op.operands, op.results).Keys <= vis + Members(op.results)
    ensures vis + Members(op.results) <= used + OpDefs(op)
  {
    hide WalkOp, OpDefs, ScopedOp, RootIn;
    var next := CarryOp(pos, op.operands, op.results);
    ResultsAreDefs(op);
    forall v | v in next ensures next[v] < |rs| && RootIn(WalkOp(roots, op).0, v) == rs[next[v]] {
      OpCarries(roots, vis, used, op, v);
    }
  }

}
