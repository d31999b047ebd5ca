/** SSA blocks of circuit operations, and the tracker that recovers wires from values. */
module Ssa {
  import opened Ast

  /** The identity of an SSA value. */
  type ValueId = nat

  datatype Op =
    | GateOp(name: Option<Name>, operands: seq<ValueId>, results: seq<ValueId>,
             angle: Option<real>, depth: Option<int>, clifford: Option<bool>)
    | BorrowOp(operands: seq<ValueId>, results: seq<ValueId>)
    | OtherOp(kind: Name, operands: seq<ValueId>, results: seq<ValueId>)
    | ReturnOp(operands: seq<ValueId>, results: seq<ValueId>)

  // ── Where a value comes from ───────────────────────────────────────────────

  function Position(vs: seq<ValueId>, v: ValueId): (i: Option<nat>)
    ensures i.Some? <==> v in vs
    ensures i.Some? ==> i.value < |vs| && vs[i.value] == v
  {
    if vs == [] then None
    else if vs[0] == v then Some(0)
    else
      match Position(vs[1..], v)
      case Some(i) => Some(i + 1)
      case None => None
  }

  predicate Distinct(vs: seq<ValueId>) { forall i, j | 0 <= i < j < |vs| :: vs[i] != vs[j] }

  /** The wire a value stands for, by following its definitions back. Argument `i` is wire `i`; result
      `j` stands for the wire of operand `j`; a value made from nothing is a wire of its own, named by
      the value. */
  function Origin(args: seq<ValueId>, ops: seq<Op>, v: ValueId): nat
    decreases |ops|
  {
    if ops == [] then
      match Position(args, v)
      case Some(i) => i
      case None => v
    else
      var (last, before) := (ops[|ops| - 1], ops[..|ops| - 1]);
      match Position(last.results, v)
      case None => Origin(args, before, v)
      case Some(j) =>
        if |last.operands| == |last.results| then Origin(args, before, last.operands[j])
        else if last.operands == [] then v
        else Origin(args, before, v)
  }

  function Origins(args: seq<ValueId>, ops: seq<Op>, vs: seq<ValueId>): (r: seq<nat>)
    ensures |r| == |vs| && forall i | 0 <= i < |vs| :: r[i] == Origin(args, ops, vs[i])
  {
    seq(|vs|, i requires 0 <= i < |vs| => Origin(args, ops, vs[i]))
  }

  /** No operation defines a value twice. */
  predicate SingleResults(ops: seq<Op>) { forall op | op in ops :: Distinct(op.results) }

  // ── The tracker ────────────────────────────────────────────────────────────

  type Roots = map<ValueId, nat>

  function RootIn(roots: Roots, v: ValueId): nat { if v in roots then roots[v] else v }

  function RootsOf(roots: Roots, vs: seq<ValueId>): (r: seq<nat>)
    ensures |r| == |vs| && forall i | 0 <= i < |vs| :: r[i] == RootIn(roots, vs[i])
  {
    seq(|vs|, i requires 0 <= i < |vs| => RootIn(roots, vs[i]))
  }

  /** The two tables give every value the same root. */
  ghost predicate Same(a: Roots, b: Roots) { forall v: ValueId :: RootIn(a, v) == RootIn(b, v) }

  /** Gives each value its root, in order. */
  function Assign(roots: Roots, vs: seq<ValueId>, rs: seq<nat>): Roots
    requires |vs| == |rs|
  {
    if vs == [] then roots
    else
      var n := |vs| - 1;
      Assign(roots, vs[..n], rs[..n])[vs[n] := rs[n]]
  }

  /** Results inherit the roots of the operands by position; results made from nothing are new; where
      the counts differ, nothing is recorded. */
  function Observe(roots: Roots, operands: seq<ValueId>, results: seq<ValueId>): Roots {
    if |operands| == |results| then Assign(roots, results, RootsOf(roots, operands))
    else if operands == [] then Assign(roots, results, results)
    else roots
  }

  lemma {:induction false} AssignAt(roots: Roots, vs: seq<ValueId>, rs: seq<nat>, v: ValueId)
    requires |vs| == |rs| && Distinct(vs)
    ensures RootIn(Assign(roots, vs, rs), v) ==
              match Position(vs, v) case Some(i) => rs[i] case None => RootIn(roots, v)
  {
    if vs != [] {
      hide Position, Distinct;
      var n := |vs| - 1;
      AssignAt(roots, vs[..n], rs[..n], v);
      if v in vs {
        var i :| 0 <= i < |vs| && vs[i] == v;
      }
    }
  }

  lemma {:induction false} SameAssign(a: Roots, b: Roots, vs: seq<ValueId>, rs: seq<nat>)
    requires |vs| == |rs| && Same(a, b)
    ensures Same(Assign(a, vs, rs), Assign(b, vs, rs))
  {
    if vs != [] {
      var n := |vs| - 1;
      SameAssign(a, b, vs[..n], rs[..n]);
      var (a', b') := (Assign(a, vs[..n], rs[..n]), Assign(b, vs[..n], rs[..n]));
      var (x, y) := (a'[vs[n] := rs[n]], b'[vs[n] := rs[n]]);
      forall v: ValueId ensures RootIn(x, v) == RootIn(y, v) { assert RootIn(a', v) == RootIn(b', v); }
    }
  }

  lemma SameObserve(a: Roots, b: Roots, operands: seq<ValueId>, results: seq<ValueId>)
    requires Same(a, b)
    ensures Same(Observe(a, operands, results), Observe(b, operands, results))
  {
    assert RootsOf(a, operands) == RootsOf(b, operands);
    if |operands| == |results| {
      SameAssign(a, b, results, RootsOf(a, operands));
    } else if operands == [] {
      SameAssign(a, b, results, results);
    }
  }

  class WireTracker {
    var roots: Roots

    constructor ()
      ensures roots == map[]
    {
      roots := map[];
    }

    /** Argument `i` gets root `i`. */
    method SeedBlockArgs(args: seq<ValueId>)
      modifies this
      ensures roots == Assign(old(roots), args, seq(|args|, i => i))
    {
      for index := 0 to |args|
        invariant roots == Assign(old(roots), args[..index], seq(index, i => i))
      {
        roots := roots[args[index] := index];
        assert args[..index + 1][..index] == args[..index];
        assert seq(index + 1, i => i)[..index] == seq(index, i => i);
      }
      assert args[..|args|] == args;
    }

    /** The root of a value; a value not seen before becomes its own root. */
    method Root(v: ValueId) returns (root: nat)
      modifies this
      ensures root == RootIn(old(roots), v) && Same(roots, old(roots))
    {
      if v !in roots { roots := roots[v := v]; }
      root := roots[v];
    }

    method Alias(v: ValueId, root: nat)
      modifies this
      ensures roots == old(roots)[v := root]
    {
      roots := roots[v := root];
    }

    method RootsForOperands(operands: seq<ValueId>) returns (r: seq<nat>)
      modifies this
      ensures r == RootsOf(old(roots), operands) && Same(roots, old(roots))
    {
      r := [];
      for i := 0 to |operands|
        invariant |r| == i && forall j | 0 <= j < i :: r[j] == RootIn(old(roots), operands[j])
        invariant Same(roots, old(roots))
      {
        var root := Root(operands[i]);
        r := r + [root];
      }
    }

    /** Aliases each value in turn. */
    method AliasAll(vs: seq<ValueId>, rs: seq<nat>)
      requires |vs| == |rs|
      modifies this
      ensures roots == Assign(old(roots), vs, rs)
    {
      for i := 0 to |vs|
        invariant roots == Assign(old(roots), vs[..i], rs[..i])
      {
        Alias(vs[i], rs[i]);
        assert vs[..i + 1][..i] == vs[..i] && rs[..i + 1][..i] == rs[..i];
      }
      assert vs[..|vs|] == vs && rs[..|rs|] == rs;
    }

    method ObserveOperation(operands: seq<ValueId>, results: seq<ValueId>)
      modifies this
      ensures Same(roots, Observe(old(roots), operands, results))
    {
      var operandRoots := RootsForOperands(operands);
      SameObserve(roots, old(roots), operands, results);
      assert RootsOf(roots, operands) == operandRoots;
      if |operandRoots| == |results| {
        AliasAll(results, operandRoots);
      } else if operandRoots == [] {
        AliasAll(results, results);
      }
    }
  }

  // ── The tracker follows definitions ────────────────────────────────────────

  /** The roots follow the definitions of `ops` over the arguments `args`. */
  ghost predicate Follows(roots: Roots, args: seq<ValueId>, ops: seq<Op>) {
    forall v: ValueId :: RootIn(roots, v) == Origin(args, ops, v)
  }

  lemma FollowsArgs(args: seq<ValueId>)
    requires Distinct(args)
    ensures Follows(Assign(map[], args, seq(|args|, i => i)), args, [])
  {
    forall v: ValueId ensures RootIn(Assign(map[], args, seq(|args|, i => i)), v) == Origin(args, [], v) {
      AssignAt(map[], args, seq(|args|, i => i), v);
    }
  }

  /** What the tracker records after an operation is what following definitions through it gives. */
  lemma FollowsStep(roots: Roots, now: Roots, args: seq<ValueId>, ops: seq<Op>, op: Op)
    requires Follows(roots, args, ops) && Distinct(op.results)
    requires Same(now, Observe(roots, op.operands, op.results))
    ensures Follows(now, args, ops + [op])
  {
    forall v: ValueId ensures RootIn(now, v) == Origin(args, ops + [op], v) {
      if |op.operands| == |op.results| {
        AssignAt(roots, op.results, RootsOf(roots, op.operands), v);
      } else if op.operands == [] {
        AssignAt(roots, op.results, op.results, v);
      }
    }
  }
}
