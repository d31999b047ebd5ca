/** The seam between SSA circuit functions and a flat gate list: extract and rebuild. */
module CircExtract {
  import opened Ast
  import opened GateTree
  import opened Ssa
  import opened Threading

  /** A gate application: canonical name, wires in operand order, angle, depth and class. */
  type CircGate = WireGate

  datatype CircIr = CircIr(nQubits: nat, gates: seq<CircGate>)

  datatype SeamError =
    | UnsupportedConstruct(kind: Name)
    | UnknownGate(name: Name)
    | ArityMismatch(name: Name, expected: nat, actual: nat)
    | MissingAttr(attr: string)
    | NoTerminator
    | WireOutOfRange(index: nat, nQubits: nat)
    | MultiQubitRotation(name: Name)
    | BuildWidth(circ: nat, func: nat)
    | BuildGate(position: nat)

  datatype Seam<+T> = Got(value: T) | Declined(error: SeamError) {
    predicate IsFailure() { Declined? }
    function PropagateFailure<U>(): Seam<U> requires Declined? { Declined(error) }
    function Extract(): T requires Got? { value }
  }

  function KindOf(op: Op): Name {
    match op
    case GateOp(_, _, _, _, _, _) => "quantum.circ.gate"
    case BorrowOp(_, _) => "quantum.circ.borrow"
    case ReturnOp(_, _) => "quantum.circ.return"
    case OtherOp(kind, _, _) => kind
  }

  // ── What extraction reads ──────────────────────────────────────────────────

  /** The gate an operation denotes after the operations `before` it, or why it cannot be read. */
  function ReadGate(reg: Registry, args: seq<ValueId>, before: seq<Op>, op: Op): Seam<CircGate> {
    if !op.GateOp? then Declined(UnsupportedConstruct(KindOf(op)))
    else if op.name.None? then Declined(MissingAttr("gate_name"))
    else
      match reg.lookup(op.name.value)
      case None => Declined(UnknownGate(op.name.value))
      case Some(info) =>
        if |op.operands| != info.arity then Declined(ArityMismatch(op.name.value, info.arity, |op.operands|))
        else if op.depth.None? then Declined(MissingAttr("depth_contribution"))
        else if op.clifford.None? then Declined(MissingAttr("clifford"))
        else Got(WireGate(info.id, Origins(args, before, op.operands), op.angle, op.depth.value, op.clifford.value))
  }

  /** Where the block returns; its length if it never does. */
  function ReturnAt(ops: seq<Op>): (i: nat)
    ensures i <= |ops| && (i < |ops| ==> ops[i].ReturnOp?)
    ensures forall j | 0 <= j < i :: !ops[j].ReturnOp?
  {
    if ops == [] || ops[0].ReturnOp? then 0 else 1 + ReturnAt(ops[1..])
  }

  /** `gates` is what the block computes before it returns. */
  ghost predicate Reads(reg: Registry, args: seq<ValueId>, ops: seq<Op>, gates: seq<CircGate>) {
    && |gates| == ReturnAt(ops)
    && forall i | 0 <= i < |gates| :: ReadGate(reg, args, ops[..i], ops[i]) == Got(gates[i])
  }

  /** `e` is why the first unreadable operation before the return cannot be read. */
  ghost predicate Refuses(reg: Registry, args: seq<ValueId>, ops: seq<Op>, e: SeamError) {
    exists i | 0 <= i < ReturnAt(ops) ::
      && ReadGate(reg, args, ops[..i], ops[i]) == Declined(e)
      && forall j | 0 <= j < i :: ReadGate(reg, args, ops[..j], ops[j]).Got?
  }

  /** `r` is what extraction gives for a block: all its gates, or why the first unreadable one is not. */
  ghost predicate Extracts(reg: Registry, args: seq<ValueId>, ops: seq<Op>, r: Seam<CircIr>) {
    match r
    case Got(circ) => circ.nQubits == |args| && Reads(reg, args, ops, circ.gates)
    case Declined(e) => Refuses(reg, args, ops, e)
  }

  lemma RefusedAt(reg: Registry, args: seq<ValueId>, ops: seq<Op>, i: nat, e: SeamError)
    requires i < ReturnAt(ops) && ReadGate(reg, args, ops[..i], ops[i]) == Declined(e)
    requires forall j | 0 <= j < i :: ReadGate(reg, args, ops[..j], ops[j]).Got?
    ensures Refuses(reg, args, ops, e)
  {
    hide ReadGate, ReturnAt;
  }

  // ── Circuit functions ──────────────────────────────────────────────────────

  /** Whether the verified builders accept a gate. */
  predicate Builds(g: CircGate) { g.depth >= 0 && g.qubits != [] }

  /** The first complaint of the up-front validation. */
  function Complaint(gs: seq<CircGate>, n: nat): (r: Option<SeamError>)
    ensures r.Some? ==> r.value.WireOutOfRange? || r.value.MultiQubitRotation?
  {
    if gs == [] then None
    else
      match FirstOutside(gs[0].qubits, n)
      case Some(q) => Some(WireOutOfRange(q, n))
      case None =>
        if gs[0].angle.Some? && |gs[0].qubits| != 1 then Some(MultiQubitRotation(gs[0].name))
        else Complaint(gs[1..], n)
  }

  function FirstOutside(qs: seq<nat>, n: nat): Option<nat> {
    if qs == [] then None else if qs[0] >= n then Some(qs[0]) else FirstOutside(qs[1..], n)
  }

  predicate Accepted(g: CircGate, n: nat) { OnWires(g, n) && (g.angle.Some? ==> |g.qubits| == 1) }

  lemma {:induction false} NoneOutside(qs: seq<nat>, n: nat)
    ensures FirstOutside(qs, n).None? <==> forall i | 0 <= i < |qs| :: qs[i] < n
  {
    if qs != [] { NoneOutside(qs[1..], n); }
  }

  lemma {:induction false} ComplaintIff(gs: seq<CircGate>, n: nat)
    ensures Complaint(gs, n).None? <==> forall i | 0 <= i < |gs| :: Accepted(gs[i], n)
  {
    if gs != [] {
      NoneOutside(gs[0].qubits, n);
      ComplaintIff(gs[1..], n);
    }
  }

  class CircFunc {
    const args: seq<ValueId>
    var ops: seq<Op>
    var next: ValueId

    constructor (args: seq<ValueId>, ops: seq<Op>, next: ValueId)
      ensures this.args == args && this.ops == ops && this.next == next
    {
      this.args := args;
      this.ops := ops;
      this.next := next;
    }

    /** The values in use are below `next`, and no operation defines one twice. */
    ghost predicate Valid()
      reads this
    {
      && Distinct(args) && (forall v | v in args :: v < next)
      && SingleResults(ops)
    }

    /** `extract`: fails closed at the first operation it cannot read, and drops nothing. */
    method Extract(reg: Registry) returns (r: Seam<CircIr>)
      requires Valid()
      ensures Extracts(reg, args, ops, r)
    {
      hide ReadGate, Refuses, Follows, ReturnAt;
      var tracker := new WireTracker();
      tracker.SeedBlockArgs(args);
      FollowsArgs(args);
      var gates: seq<CircGate> := [];
      var i := 0;
      while i < |ops|
        invariant 0 <= i <= ReturnAt(ops) && Follows(tracker.roots, args, ops[..i])
        invariant |gates| == i && forall j | 0 <= j < i :: ReadGate(reg, args, ops[..j], ops[j]) == Got(gates[j])
        invariant fresh(tracker)
      {
        var op := ops[i];
        if op.ReturnOp? { break; }
        var read := ReadOp(reg, tracker, op, ops[..i]);
        if read.Declined? {
          RefusedAt(reg, args, ops, i, read.error);
          return Declined(read.error);
        }
        gates := gates + [read.value];
        ghost var was := tracker.roots;
        tracker.ObserveOperation(op.operands, op.results);
        FollowsStep(was, tracker.roots, args, ops[..i], op);
        assert ops[..i + 1] == ops[..i] + [op];
        i := i + 1;
      }
      r := Got(CircIr(|args|, gates));
    }

    /** One operation of the loop; the attributes are read after the wires. */
    method ReadOp(reg: Registry, tracker: WireTracker, op: Op, ghost before: seq<Op>) returns (r: Seam<CircGate>)
      requires Follows(tracker.roots, args, before)
      modifies tracker
      ensures r == ReadGate(reg, args, before, op) && Follows(tracker.roots, args, before)
    {
      if !op.GateOp? { return Declined(UnsupportedConstruct(KindOf(op))); }
      if op.name.None? { return Declined(MissingAttr("gate_name")); }
      var info := reg.lookup(op.name.value);
      if info.None? { return Declined(UnknownGate(op.name.value)); }
      if |op.operands| != info.value.arity {
        return Declined(ArityMismatch(op.name.value, info.value.arity, |op.operands|));
      }
      var qubits := tracker.RootsForOperands(op.operands);
      assert qubits == Origins(args, before, op.operands);
      if op.depth.None? { return Declined(MissingAttr("depth_contribution")); }
      if op.clifford.None? { return Declined(MissingAttr("clifford")); }
      r := Got(WireGate(info.value.id, qubits, op.angle, op.depth.value, op.clifford.value));
    }

    /** `rebuild`. The validation refuses before anything changes. A gate the builder refuses is met
        only after the gates before it have been inserted in front of the return. */
    method Rebuild(circ: CircIr) returns (r: Option<SeamError>)
      requires Valid()
      modifies this
      ensures var (n, at) := (|args|, ReturnAt(old(ops)));
              r == if n != circ.nQubits then Some(BuildWidth(circ.nQubits, n))
                   else if Complaint(circ.gates, n).Some? then Complaint(circ.gates, n)
                   else if at == |old(ops)| then Some(NoTerminator)
                   else FirstRefused(circ.gates)
      ensures r.None? ==>
                (forall i | 0 <= i < |circ.gates| :: Accepted(circ.gates[i], |args|))
                && AllOnWires(circ.gates, |args|)
                && var t := PlaceAll(Start(args, old(next)), circ.gates);
                   ops == Finished(t) + old(ops)[ReturnAt(old(ops)) + 1..] && next == t.next
      ensures r.Some? && !r.value.BuildGate? ==> ops == old(ops) && next == old(next)
      ensures r.Some? && r.value.BuildGate? ==>
                var (k, at) := (r.value.position, ReturnAt(old(ops)));
                && k < |circ.gates| && AllOnWires(circ.gates[..k], |args|)
                && ops == old(ops)[..at] + PlaceAll(Start(args, old(next)), circ.gates[..k]).ops + old(ops)[at..]
    {
      if |args| != circ.nQubits { return Some(BuildWidth(circ.nQubits, |args|)); }
      r := Validate(circ.gates, |args|);
      if r.Some? { return; }
      ComplaintIff(circ.gates, |args|);
      var at := FindReturn();
      if at == |ops| { return Some(NoTerminator); }
      hide PlaceAll, FirstBad, Complaint, ReturnAt, Accepted;
      var bad, wires, end := InsertGates(circ.gates, at);
      if bad.Some? { return Some(BuildGate(bad.value)); }
      assert circ.gates[..|circ.gates|] == circ.gates;
      ghost var t := PlaceAll(Start(args, old(next)), circ.gates);
      ReplaceReturn(at, end, wires, old(ops)[..at], t.ops, old(ops)[at..]);
      r := None;
    }

    /** Puts the new return in front of the old one, then erases the old return and the old gates. */
    method ReplaceReturn(at: nat, end: nat, wires: seq<ValueId>, ghost head: seq<Op>, ghost made: seq<Op>, ghost tail: seq<Op>)
      requires ops == head + made + tail && |head| == at && |head + made| == end && tail != []
      modifies this`ops
      ensures ops == made + [ReturnOp(wires, [])] + tail[1..]
    {
      ops := ops[..end] + [ReturnOp(wires, [])] + ops[end..];
      assert ops == head + made + [ReturnOp(wires, [])] + tail;
      ops := ops[..end + 1] + ops[end + 2..];
      assert ops == head + (made + [ReturnOp(wires, [])] + tail[1..]);
      EraseFirst(at);
    }

    /** Inserts the gates in front of position `at`, up to the first that the builder refuses. */
    method InsertGates(gs: seq<CircGate>, at: nat) returns (bad: Option<nat>, wires: seq<ValueId>, end: nat)
      requires at <= |ops| && forall i | 0 <= i < |gs| :: Accepted(gs[i], |args|)
      modifies this
      ensures bad == FirstBad(gs)
      ensures var k := if bad.Some? then bad.value else |gs|;
              && k <= |gs| && AllOnWires(gs[..k], |args|)
              && var t := PlaceAll(Start(args, old(next)), gs[..k]);
                 && ops == old(ops)[..at] + t.ops + old(ops)[at..]
                 && wires == t.wires && next == t.next && end == at + |t.ops|
    {
      hide Builds, FirstBad, PlaceAll, PlaceGate, OnWires;
      ghost var (ops0, t0) := (ops, Start(args, next));
      NothingPlaced(t0, gs);
      wires := args;
      end := at;
      for i := 0 to |gs|
        invariant AllOnWires(gs[..i], |args|) && forall j | 0 <= j < i :: Builds(gs[j])
        invariant ops == ops0[..at] + PlaceAll(t0, gs[..i]).ops + ops0[at..]
        invariant wires == PlaceAll(t0, gs[..i]).wires && next == PlaceAll(t0, gs[..i]).next
        invariant end == at + |PlaceAll(t0, gs[..i]).ops|
      {
        assert Accepted(gs[i], |args|);
        if !Builds(gs[i]) {
          FirstRefusedIs(gs, i);
          return Some(i), wires, end;
        }
        OneMorePlaced(t0, gs, i);
        wires := InsertGate(gs[i], wires, end, PlaceAll(t0, gs[..i]), ops0[..at], ops0[at..]);
        end := end + 1;
      }
      assert gs[..|gs|] == gs;
      NoneRefused(gs);
      bad := None;
    }

    /** Inserts one gate at `end`, on the current wires. */
    method InsertGate(g: CircGate, wires: seq<ValueId>, end: nat, ghost t: Threaded, ghost head: seq<Op>, ghost tail: seq<Op>)
      returns (after: seq<ValueId>)
      requires OnWires(g, |wires|) && wires == t.wires && next == t.next
      requires ops == head + t.ops + tail && end == |head| + |t.ops|
      modifies this
      ensures var t' := PlaceGate(t, g); ops == head + t'.ops + tail && after == t'.wires && next == t'.next
    {
      var results := Fresh(next, |g.qubits|);
      var op := GateOpOf(g, At(wires, g.qubits), results);
      next := next + |g.qubits|;
      ops := ops[..end] + [op] + ops[end..];
      assert ops == head + (t.ops + [op]) + tail;
      after := SetWires(wires, g.qubits, results);
    }

    /** Erases the first `k` operations, deepest first. */
    method EraseFirst(k: nat)
      requires k <= |ops|
      modifies this`ops
      ensures ops == old(ops)[k..]
    {
      var i := k;
      while i > 0
        invariant 0 <= i <= k && ops == old(ops)[..i] + old(ops)[k..]
      {
        i := i - 1;
        ops := ops[..i] + ops[i + 1..];
      }
    }

    method FindReturn() returns (i: nat)
      ensures i == ReturnAt(ops)
    {
      i := 0;
      while i < |ops| && !ops[i].ReturnOp?
        invariant i <= ReturnAt(ops)
      {
        i := i + 1;
      }
    }

    method Validate(gs: seq<CircGate>, n: nat) returns (r: Option<SeamError>)
      ensures r == Complaint(gs, n)
    {
      assert gs[0..] == gs;
      for i := 0 to |gs|
        invariant Complaint(gs[i..], n) == Complaint(gs, n)
      {
        var g := gs[i];
        assert gs[i..][1..] == gs[i + 1..];
        assert g.qubits[0..] == g.qubits;
        for j := 0 to |g.qubits|
          invariant FirstOutside(g.qubits[j..], n) == FirstOutside(g.qubits, n)
        {
          if g.qubits[j] >= n { return Some(WireOutOfRange(g.qubits[j], n)); }
          assert g.qubits[j..][1..] == g.qubits[j + 1..];
        }
        if g.angle.Some? && |g.qubits| != 1 { return Some(MultiQubitRotation(g.name)); }
      }
      r := None;
    }

    method SetWires(wires: seq<ValueId>, qubits: seq<nat>, results: seq<ValueId>) returns (r: seq<ValueId>)
      requires |qubits| == |results| && forall i | 0 <= i < |qubits| :: qubits[i] < |wires|
      ensures r == Overwrite(wires, qubits, results)
    {
      r := wires;
      for i := 0 to |qubits|
        invariant r == Overwrite(wires, qubits[..i], results[..i])
      {
        r := r[qubits[i] := results[i]];
        assert qubits[..i + 1][..i] == qubits[..i] && results[..i + 1][..i] == results[..i];
      }
      assert qubits[..|qubits|] == qubits && results[..|results|] == results;
    }
  }

  lemma NothingPlaced(t: Threaded, gs: seq<CircGate>)
    ensures gs[..0] == [] && PlaceAll(t, []) == t
  {
  }

  lemma OneMorePlaced(t: Threaded, gs: seq<CircGate>, i: nat)
    requires i < |gs| && AllOnWires(gs[..i], |t.wires|) && OnWires(gs[i], |t.wires|)
    ensures AllOnWires(gs[..i + 1], |t.wires|)
    ensures PlaceAll(t, gs[..i + 1]) == PlaceGate(PlaceAll(t, gs[..i]), gs[i])
    ensures |PlaceAll(t, gs[..i + 1]).ops| == |PlaceAll(t, gs[..i]).ops| + 1
  {
    hide OnWires;
    assert gs[..i + 1][..i] == gs[..i];
  }

  function FirstRefused(gs: seq<CircGate>): Option<SeamError> {
    match FirstBad(gs)
    case Some(i) => Some(BuildGate(i))
    case None => None
  }

  function FirstBad(gs: seq<CircGate>): (r: Option<nat>)
    ensures r.Some? ==> r.value < |gs| && !Builds(gs[r.value])
  {
    if gs == [] then None
    else if !Builds(gs[0]) then Some(0)
    else
      match FirstBad(gs[1..])
      case Some(i) => Some(i + 1)
      case None => None
  }

  lemma {:induction false} FirstRefusedIs(gs: seq<CircGate>, i: nat)
    requires i < |gs| && !Builds(gs[i]) && forall j | 0 <= j < i :: Builds(gs[j])
    ensures FirstBad(gs) == Some(i)
  {
    if i > 0 { FirstRefusedIs(gs[1..], i - 1); }
  }

  lemma {:induction false} NoneRefused(gs: seq<CircGate>)
    requires forall j | 0 <= j < |gs| :: Builds(gs[j])
    ensures FirstBad(gs).None?
  {
    if gs != [] { NoneRefused(gs[1..]); }
  }
}
