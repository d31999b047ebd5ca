/** The shared walk over nested `quantum.dynamic` blocks, and its callbacks as a list of events. */
module DynamicWalk {
  import opened Ast
  import opened Ssa

  datatype LeafKind = GateKind | BarrierKind | MeasureKind | ResetKind | OtherKind

  /** Operand and result lists hold the qubit values only. */
  datatype DynOp =
    | Leaf(kind: LeafKind, name: string, operands: seq<ValueId>, results: seq<ValueId>)
    | UnitaryRegion(operands: seq<ValueId>, results: seq<ValueId>, body: Option<Block>)
    | IfOp(operands: seq<ValueId>, results: seq<ValueId>, thn: Option<Block>, els: Option<Block>)
    | Yield(operands: seq<ValueId>)
    | Return(operands: seq<ValueId>)
  {
    predicate Ends() { Yield? || Return? }
  }

  datatype Block = Block(args: seq<ValueId>, ops: seq<DynOp>)

  datatype IfArm = Then | Else

  /** One callback of the visitor; `other` is given no roots. */
  datatype Event =
    | Reached(kind: LeafKind, name: string, roots: seq<nat>)
    | EnterRegion(roots: seq<nat>)
    | ExitRegion
    | EnterArm(arm: IfArm, roots: seq<nat>)
    | ExitArm(arm: IfArm)

  // ── The walk as a function ─────────────────────────────────────────────────

  /** Pairs values with roots by position, as far as both go. */
  function Zip(roots: Roots, vs: seq<ValueId>, rs: seq<nat>): Roots {
    var n := if |vs| < |rs| then |vs| else |rs|;
    Assign(roots, vs[..n], rs[..n])
  }

  function LeafEvent(roots: Roots, op: DynOp): Event
    requires op.Leaf?
  {
    Reached(op.kind, op.name, if op.kind.OtherKind? then [] else RootsOf(roots, op.operands))
  }

  function WalkOps(roots: Roots, ops: seq<DynOp>): (Roots, seq<Event>)
    decreases ops
  {
    if ops == [] || ops[0].Ends() then (roots, [])
    else
      var (r1, e1) := WalkOp(roots, ops[0]);
      var (r2, e2) := WalkOps(r1, ops[1..]);
      (r2, e1 + e2)
  }

  function WalkOp(roots: Roots, op: DynOp): (Roots, seq<Event>)
    requires !op.Ends()
    decreases op, 1
  {
    match op
    case Leaf(_, _, operands, results) => (Observe(roots, operands, results), [LeafEvent(roots, op)])
    case UnitaryRegion(operands, results, body) =>
      var rs := RootsOf(roots, operands);
      var (r1, events) := WalkBody(roots, body, rs);
      (Zip(r1, results, rs), [EnterRegion(rs)] + events + [ExitRegion])
    case IfOp(operands, results, thn, els) =>
      var (r1, e1) := WalkArm(roots, Then, operands, results, thn);
      var (r2, e2) := WalkArm(r1, Else, operands, results, els);
      (r2, e1 + e2)
  }

  function WalkArm(roots: Roots, arm: IfArm, operands: seq<ValueId>, results: seq<ValueId>, body: Option<Block>)
    : (Roots, seq<Event>)
    decreases body, 1
  {
    var rs := RootsOf(roots, operands);
    var (r1, events) := WalkBody(roots, body, rs);
    (Zip(r1, results, rs), [EnterArm(arm, rs)] + events + [ExitArm(arm)])
  }

  /** A region's arguments stand for its operation's operands. */
  function WalkBody(roots: Roots, body: Option<Block>, rs: seq<nat>): (Roots, seq<Event>)
    decreases body, 0
  {
    match body
    case None => (roots, [])
    case Some(b) => WalkOps(Zip(roots, b.args, rs), b.ops)
  }

  // ── Equal tables walk alike ────────────────────────────────────────────────

  lemma SameZip(a: Roots, b: Roots, vs: seq<ValueId>, rs: seq<nat>)
    requires Same(a, b)
    ensures Same(Zip(a, vs, rs), Zip(b, vs, rs))
  {
    var n := if |vs| < |rs| then |vs| else |rs|;
    SameAssign(a, b, vs[..n], rs[..n]);
  }

  lemma SameRoots(a: Roots, b: Roots, vs: seq<ValueId>)
    requires Same(a, b)
    ensures RootsOf(a, vs) == RootsOf(b, vs)
  {
  }

  lemma {:induction false} SameWalk(a: Roots, b: Roots, ops: seq<DynOp>)
    requires Same(a, b)
    ensures Same(WalkOps(a, ops).0, WalkOps(b, ops).0) && WalkOps(a, ops).1 == WalkOps(b, ops).1
    decreases ops
  {
    if ops != [] && !ops[0].Ends() {
      hide Same, WalkOp;
      SameWalkOp(a, b, ops[0]);
      SameWalk(WalkOp(a, ops[0]).0, WalkOp(b, ops[0]).0, ops[1..]);
    }
  }

  lemma {:induction false} SameWalkOp(a: Roots, b: Roots, op: DynOp)
    requires Same(a, b) && !op.Ends()
    ensures Same(WalkOp(a, op).0, WalkOp(b, op).0) && WalkOp(a, op).1 == WalkOp(b, op).1
    decreases op, 1
  {
    hide Same, WalkArm, WalkBody, Zip, Observe;
    SameRoots(a, b, op.operands);
    match op
    case Leaf(_, _, operands, results) => SameObserve(a, b, operands, results);
    case UnitaryRegion(operands, results, body) =>
      var rs := RootsOf(a, operands);
      SameWalkBody(a, b, body, rs);
      SameZip(WalkBody(a, body, rs).0, WalkBody(b, body, rs).0, results, rs);
    case IfOp(operands, results, thn, els) =>
      SameWalkArm(a, b, Then, operands, results, thn);
      SameWalkArm(WalkArm(a, Then, operands, results, thn).0, WalkArm(b, Then, operands, results, thn).0, Else, operands, results, els);
  }

  lemma {:induction false} SameWalkArm(a: Roots, b: Roots, arm: IfArm, operands: seq<ValueId>, results: seq<ValueId>, body: Option<Block>)
    requires Same(a, b)
    ensures Same(WalkArm(a, arm, operands, results, body).0, WalkArm(b, arm, operands, results, body).0)
    ensures WalkArm(a, arm, operands, results, body).1 == WalkArm(b, arm, operands, results, body).1
    decreases body, 1
  {
    hide Same, WalkBody, Zip;
    SameRoots(a, b, operands);
    var rs := RootsOf(a, operands);
    SameWalkBody(a, b, body, rs);
    SameZip(WalkBody(a, body, rs).0, WalkBody(b, body, rs).0, results, rs);
  }

  lemma {:induction false} SameWalkBody(a: Roots, b: Roots, body: Option<Block>, rs: seq<nat>)
    requires Same(a, b)
    ensures Same(WalkBody(a, body, rs).0, WalkBody(b, body, rs).0) && WalkBody(a, body, rs).1 == WalkBody(b, body, rs).1
    decreases body, 0
  {
    if body.Some? {
      SameZip(a, b, body.value.args, rs);
      SameWalk(Zip(a, body.value.args, rs), Zip(b, body.value.args, rs), body.value.ops);
    }
  }

  // ── The walk as the compiler runs it ───────────────────────────────────────

  /** One walk: a shared tracker, and a visitor that keeps every callback. */
  class Walker {
    const tracker: WireTracker
    var events: seq<Event>

    constructor ()
      ensures fresh(tracker) && tracker.roots == map[] && events == []
    {
      tracker := new WireTracker();
      events := [];
    }

    /** What running the walk on `ops` from the roots `was` has done. */
    ghost predicate Walked(was: Roots, seen: seq<Event>, result: (Roots, seq<Event>))
      reads this, tracker
    {
      Same(tracker.roots, result.0) && events == seen + result.1
    }

    /** `walk_block`: a block of its own, seeded from its own arguments. */
    method WalkBlock(b: Block)
      modifies this, tracker
      ensures Walked(old(tracker.roots), old(events),
                     WalkOps(Assign(old(tracker.roots), b.args, seq(|b.args|, i => i)), b.ops))
    {
      tracker.SeedBlockArgs(b.args);
      WalkBlockWith(b.ops);
    }

    method WalkBlockWith(ops: seq<DynOp>)
      modifies this, tracker
      ensures Walked(old(tracker.roots), old(events), WalkOps(old(tracker.roots), ops))
      decreases ops
    {
      hide WalkOp, Same;
      ghost var (was, seen) := (tracker.roots, events);
      ghost var spec := WalkOps(was, ops);
      assert ops[0..] == ops;
      Reflexive(spec.0);
      var i := 0;
      while i < |ops| && !ops[i].Ends()
        invariant 0 <= i <= |ops|
        invariant Same(WalkOps(tracker.roots, ops[i..]).0, spec.0)
        invariant events + WalkOps(tracker.roots, ops[i..]).1 == seen + spec.1
      {
        ghost var before := tracker.roots;
        assert ops[i..][0] == ops[i] && ops[i..][1..] == ops[i + 1..];
        WalkOneOp(ops[i]);
        SameWalk(tracker.roots, WalkOp(before, ops[i]).0, ops[i + 1..]);
        Transitive(WalkOps(tracker.roots, ops[i + 1..]).0, WalkOps(before, ops[i..]).0, spec.0);
        i := i + 1;
      }
      assert WalkOps(tracker.roots, ops[i..]) == (tracker.roots, []);
    }

    method WalkOneOp(op: DynOp)
      requires !op.Ends()
      modifies this, tracker
      ensures Walked(old(tracker.roots), old(events), WalkOp(old(tracker.roots), op))
      decreases op, 2
    {
      match op {
        case Leaf(kind, name, operands, results) =>
          var roots := [];
          if !kind.OtherKind? { roots := tracker.RootsForOperands(operands); }
          events := events + [Reached(kind, name, roots)];
          SameObserve(tracker.roots, old(tracker.roots), operands, results);
          tracker.ObserveOperation(operands, results);
        case UnitaryRegion(operands, results, body) => RecurseUnitaryRegion(op, operands, results, body);
        case IfOp(operands, results, thn, els) =>
          hide WalkArm, Same;
          RecurseIfArm(op, Then, operands, results, thn);
          ghost var mid := tracker.roots;
          RecurseIfArm(op, Else, operands, results, els);
          ghost var first := WalkArm(old(tracker.roots), Then, operands, results, thn).0;
          SameWalkArm(mid, first, Else, operands, results, els);
          Transitive(tracker.roots, WalkArm(mid, Else, operands, results, els).0, WalkArm(first, Else, operands, results, els).0);
      }
    }

    method RecurseUnitaryRegion(ghost op: DynOp, operands: seq<ValueId>, results: seq<ValueId>, body: Option<Block>)
      requires op == UnitaryRegion(operands, results, body)
      modifies this, tracker
      ensures Walked(old(tracker.roots), old(events), WalkOp(old(tracker.roots), op))
      decreases op, 1
    {
      hide WalkBody, Same, Zip;
      ghost var was := tracker.roots;
      var rs := tracker.RootsForOperands(operands);
      events := events + [EnterRegion(rs)];
      ghost var asked := tracker.roots;
      WalkInto(op, body, rs);
      SameWalkBody(asked, was, body, rs);
      Transitive(tracker.roots, WalkBody(asked, body, rs).0, WalkBody(was, body, rs).0);
      SameZip(tracker.roots, WalkBody(was, body, rs).0, results, rs);
      AliasBack(results, rs);
      events := events + [ExitRegion];
    }

    method RecurseIfArm(ghost op: DynOp, arm: IfArm, operands: seq<ValueId>, results: seq<ValueId>, body: Option<Block>)
      requires op.IfOp? && (body == op.thn || body == op.els)
      modifies this, tracker
      ensures Walked(old(tracker.roots), old(events), WalkArm(old(tracker.roots), arm, operands, results, body))
      decreases op, 1
    {
      hide WalkBody, Same, Zip;
      ghost var was := tracker.roots;
      var rs := tracker.RootsForOperands(operands);
      events := events + [EnterArm(arm, rs)];
      ghost var asked := tracker.roots;
      WalkInto(op, body, rs);
      SameWalkBody(asked, was, body, rs);
      Transitive(tracker.roots, WalkBody(asked, body, rs).0, WalkBody(was, body, rs).0);
      SameZip(tracker.roots, WalkBody(was, body, rs).0, results, rs);
      AliasBack(results, rs);
      events := events + [ExitArm(arm)];
    }

    method WalkInto(ghost op: DynOp, body: Option<Block>, rs: seq<nat>)
      requires (op.UnitaryRegion? && body == op.body) || (op.IfOp? && (body == op.thn || body == op.els))
      modifies this, tracker
      ensures Walked(old(tracker.roots), old(events), WalkBody(old(tracker.roots), body, rs))
      decreases op, 0
    {
      if body.Some? {
        AliasBack(body.value.args, rs);
        WalkBlockWith(body.value.ops);
      }
    }

    /** Aliases values to roots by position, as far as both go. */
    method AliasBack(vs: seq<ValueId>, rs: seq<nat>)
      modifies tracker
      ensures tracker.roots == Zip(old(tracker.roots), vs, rs)
    {
      var n := if |vs| < |rs| then |vs| else |rs|;
      tracker.AliasAll(vs[..n], rs[..n]);
    }
  }

  lemma Reflexive(a: Roots)
    ensures Same(a, a)
  {
  }

  lemma Transitive(a: Roots, b: Roots, c: Roots)
    requires Same(a, b) && Same(b, c)
    ensures Same(a, c)
  {
  }
}
