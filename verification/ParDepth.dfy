/** Parallel composition costs no depth. */
module ParDepth {
  import opened Ast
  import opened Classical
  import opened GateTree
  import opened CircuitForms
  import opened Elaborate
  import opened Meaning
  import opened RunLaws
  import opened WireLaws
  import opened Depth

  /** The wires each leaf touches. */
  function GatesOf(ls: seq<Leaf>): (gs: Gates)
    ensures |gs| == |ls| && forall i | 0 <= i < |ls| :: gs[i] == LeafTargets(ls[i])
  {
    seq(|ls|, i requires 0 <= i < |ls| => LeafTargets(ls[i]))
  }

  ghost function DepthOf(ls: seq<Leaf>): nat { DagDepth(GatesOf(ls)) }

  lemma GatesConcat(a: seq<Leaf>, b: seq<Leaf>)
    ensures GatesOf(a + b) == GatesOf(a) + GatesOf(b)
  {
  }

  lemma {:induction false} InTouched(ls: seq<Leaf>, i: nat)
    requires i < |ls|
    ensures Wires(ls[i]) <= Touched(ls)
  {
    if i > 0 { InTouched(ls[1..], i - 1); }
  }

  lemma SharesIffMeet(a: Leaf, b: Leaf)
    ensures Shares(LeafTargets(a), LeafTargets(b)) <==> !(Wires(a) !! Wires(b))
  {
    if Shares(LeafTargets(a), LeafTargets(b)) {
      var q :| q in LeafTargets(a) && q in LeafTargets(b);
      assert q in Wires(a) && q in Wires(b);
    }
    if !(Wires(a) !! Wires(b)) {
      var q :| q in Wires(a) && q in Wires(b);
      assert q in LeafTargets(a) && q in LeafTargets(b);
    }
  }

  lemma DisjointDepth(a: seq<Leaf>, b: seq<Leaf>)
    requires Touched(a) !! Touched(b)
    ensures DepthOf(a + b) == if DepthOf(a) > DepthOf(b) then DepthOf(a) else DepthOf(b)
  {
    hide Touched, DagDepth, Wires;
    GatesConcat(a, b);
    forall i, j | 0 <= i < |a| && 0 <= j < |b| ensures !Shares(GatesOf(a)[i], GatesOf(b)[j]) {
      InTouched(a, i);
      InTouched(b, j);
      SharesIffMeet(a[i], b[j]);
    }
    DepthOfDisjoint(GatesOf(a), GatesOf(b));
  }

  lemma {:induction false} ShiftAllAt(ls: seq<Leaf>, k: int, i: nat)
    requires i < |ls|
    ensures ShiftAll(ls, k)[i] == ShiftLeaf(ls[i], k)
  {
    if i > 0 { ShiftAllAt(ls[1..], k, i - 1); }
  }

  lemma MovedMeet(a: Leaf, b: Leaf, k: nat)
    requires WellPlaced(a) && WellPlaced(b)
    ensures Wires(ShiftLeaf(a, k)) !! Wires(ShiftLeaf(b, k)) <==> Wires(a) !! Wires(b)
  {
    hide Wires, WellPlaced, ShiftLeaf;
    LeafShifted(a, k);
    LeafShifted(b, k);
    var (a', b') := (Wires(ShiftLeaf(a, k)), Wires(ShiftLeaf(b, k)));
    if q :| q in a' && q in b' { assert q - k in Wires(a) && q - k in Wires(b); }
    if q :| q in Wires(a) && q in Wires(b) { assert q + k in a' && q + k in b'; }
  }

  /** Moving a circuit along the register keeps its depth. */
  lemma ShiftKeepsDepth(ls: seq<Leaf>, k: nat)
    requires AllWellPlaced(ls)
    ensures DepthOf(ShiftAll(ls, k)) == DepthOf(ls)
  {
    hide ShiftAll, DagDepth, ShiftLeaf, LeafTargets, WellPlaced;
    var (a, b) := (GatesOf(ls), GatesOf(ShiftAll(ls, k)));
    forall i, j | 0 <= i < |a| && 0 <= j < |a| ensures Shares(a[i], a[j]) <==> Shares(b[i], b[j]) {
      ShiftAllAt(ls, k, i);
      ShiftAllAt(ls, k, j);
      MovedMeet(ls[i], ls[j], k);
      SharesIffMeet(ls[i], ls[j]);
      SharesIffMeet(ShiftLeaf(ls[i], k), ShiftLeaf(ls[j], k));
    }
    DepthBySharing(a, b);
  }

  lemma NextSlice(i: nat, w: nat)
    ensures (i + 1) * w == i * w + w
  {
  }

  lemma OnSlice(ls: seq<Leaf>, at: nat, q: nat)
    requires AllWellPlaced(ls) && q in Touched(ShiftAll(ls, at))
    ensures q >= at && q - at in Touched(ls)
  {
    hide Touched, AllWellPlaced;
    TouchedShifted(ls, at);
    assert q - at in Touched(ls);
  }

  lemma FirstCopy(ls: seq<Leaf>, w: nat, i: nat, at: nat, k: int)
    requires at == i * w
    ensures i < k ==> Touched(Copies(ls, w, i, k)) == Touched(ShiftAll(ls, at)) + Touched(Copies(ls, w, i + 1, k))
  {
    hide Touched, ShiftAll;
    TouchedConcat(ShiftAll(ls, at), Copies(ls, w, i + 1, k));
  }

  lemma {:induction false} TouchedCopies(ls: seq<Leaf>, w: nat, i: nat, at: nat, k: int, q: nat)
    requires AllWellPlaced(ls) && q in Touched(Copies(ls, w, i, k)) && at == i * w
    ensures q >= at
    decreases k - i
  {
    hide Touched, AllWellPlaced, Copies, ShiftAll;
    NoCopies(ls, w, i, k);
    FirstCopy(ls, w, i, at, k);
    if q in Touched(ShiftAll(ls, at)) {
      OnSlice(ls, at, q);
    } else {
      NextSlice(i, w);
      TouchedCopies(ls, w, i + 1, at + w, k, q);
    }
  }

  lemma NoCopies(ls: seq<Leaf>, w: nat, i: nat, k: int)
    ensures i >= k ==> Touched(Copies(ls, w, i, k)) == {}
  {
  }

  lemma {:induction false} CopiesKeepDepth(t: Expr, i: nat, k: int)
    requires IsGateTree(t) && AllWellPlaced(Leaves(t)) && i < k
    ensures DepthOf(Copies(Leaves(t), Width(t), i, k)) == DepthOf(Leaves(t))
    decreases k - i
  {
    hide Touched, WellPlaced, DepthOf, Width;
    var ls, w := Leaves(t), Width(t);
    var (first, rest) := (ShiftAll(ls, i * w), Copies(ls, w, i + 1, k));
    ShiftKeepsDepth(ls, i * w);
    if i + 1 < k {
      CopiesKeepDepth(t, i + 1, k);
      SlicesApart(t, i, k);
      DisjointDepth(first, rest);
    } else {
      assert first + rest == first;
    }
  }

  lemma SlicesApart(t: Expr, i: nat, k: int)
    requires IsGateTree(t) && AllWellPlaced(Leaves(t))
    ensures Touched(ShiftAll(Leaves(t), i * Width(t))) !! Touched(Copies(Leaves(t), Width(t), i + 1, k))
  {
    hide Touched, AllWellPlaced, Copies;
    var ls, w := Leaves(t), Width(t);
    var at := i * w;
    NextSlice(i, w);
    MaxIndexIsMaximum(t);
    var (first, rest) := (Touched(ShiftAll(ls, at)), Touched(Copies(ls, w, i + 1, k)));
    forall q | q in rest ensures q >= at + w { TouchedCopies(ls, w, i + 1, at + w, k, q); }
    forall q | q in first ensures q < at + w { OnSlice(ls, at, q); }
  }

  /** `par { c } * k` is as deep as `c`, for every `k` of at least one. */
  lemma ParKeepsDepth(t: Expr, k: int)
    requires IsGateTree(t) && AllWellPlaced(Leaves(t)) && k >= 1
    ensures DepthOf(Leaves(ParCopies(t, Width(t), 0, k, EMPTY))) == DepthOf(Leaves(t))
  {
    hide DepthOf, Width, AllWellPlaced;
    ParCopiesLeaves(t, Width(t), 0, k, EMPTY);
    assert Leaves(EMPTY) + Copies(Leaves(t), Width(t), 0, k) == Copies(Leaves(t), Width(t), 0, k);
    CopiesKeepDepth(t, 0, k);
  }

  // ── par { c1, c2, … } ──────────────────────────────────────────────────────

  /** The gates of the arms, each arm on the wires past the arms before it. */
  function ArmLeaves(trees: seq<Expr>, offset: nat): seq<Leaf> {
    if trees == [] then []
    else ShiftAll(Leaves(trees[0]), offset) + ArmLeaves(trees[1..], offset + Width(trees[0]))
  }

  ghost function DeepestArm(trees: seq<Expr>): nat {
    if trees == [] then 0
    else
      var rest := DeepestArm(trees[1..]);
      if DepthOf(Leaves(trees[0])) > rest then DepthOf(Leaves(trees[0])) else rest
  }

  predicate PlacedTree(t: Expr) { IsGateTree(t) && AllWellPlaced(Leaves(t)) }

  lemma {:induction false} TouchedArms(trees: seq<Expr>, offset: nat)
    requires forall t | t in trees :: PlacedTree(t)
    ensures forall q | q in Touched(ArmLeaves(trees, offset)) :: q >= offset
  {
    if trees != [] {
      hide Touched, WellPlaced, Width;
      assert PlacedTree(trees[0]);
      TouchedShifted(Leaves(trees[0]), offset);
      TouchedConcat(ShiftAll(Leaves(trees[0]), offset), ArmLeaves(trees[1..], offset + Width(trees[0])));
      TouchedArms(trees[1..], offset + Width(trees[0]));
    }
  }

  /** The arms of `par` together are as deep as the deepest one. */
  lemma {:induction false} ArmsKeepDepth(trees: seq<Expr>, offset: nat)
    requires forall t | t in trees :: PlacedTree(t)
    ensures DepthOf(ArmLeaves(trees, offset)) == DeepestArm(trees)
  {
    if trees != [] {
      hide Touched, WellPlaced, DepthOf;
      var t, w := trees[0], Width(trees[0]);
      assert PlacedTree(t);
      TouchedShifted(Leaves(t), offset);
      TouchedArms(trees[1..], offset + w);
      MaxIndexIsMaximum(t);
      DisjointDepth(ShiftAll(Leaves(t), offset), ArmLeaves(trees[1..], offset + w));
      ShiftKeepsDepth(Leaves(t), offset);
      ArmsKeepDepth(trees[1..], offset + w);
    }
  }

  /** The elaborated arms of `par { … }`, up to the first that fails. */
  function ArmTrees(c: Ctx, items: seq<Expr>, env: Env, fuel: nat, exp: set<Name>): seq<Expr> {
    if items == [] then []
    else
      match ElabParBody(c, items[0], env, fuel, exp)
      case Fail(_) => []
      case Done(t, f) => [t] + ArmTrees(c, items[1..], env, f, exp)
  }

  /** What the `par { … }` loop places: its elaborated arms side by side. */
  lemma {:induction false} ParNPlacesArms(c: Ctx, items: seq<Expr>, offset: nat, acc: Expr, env: Env, fuel: nat, exp: set<Name>)
    requires IsGateTree(acc) && ElabParN(c, items, offset, acc, env, fuel, exp).Done?
    ensures var trees := ArmTrees(c, items, env, fuel, exp);
            && |trees| == |items|
            && Leaves(ElabParN(c, items, offset, acc, env, fuel, exp).value) == Leaves(acc) + ArmLeaves(trees, offset)
    decreases |items|
  {
    hide ElabParBody, Width, Leaves, ShiftAll, ComposeNonempty, ShiftCircuit, ShiftQubits, IsGateTree;
    if items == [] {
      assert Leaves(acc) + [] == Leaves(acc);
    } else {
      var r := ElabParBody(c, items[0], env, fuel, exp);
      var (t, rest) := (r.value, ArmTrees(c, items[1..], env, r.fuel, exp));
      LeavesShifted(t, offset);
      LeavesNonempty(acc, ShiftCircuit(t, offset));
      ParNPlacesArms(c, items[1..], offset + Width(t), ComposeNonempty(acc, ShiftCircuit(t, offset)), env, r.fuel, exp);
      assert ([t] + rest)[1..] == rest;
    }
  }

  /** `par { c1, c2, … }` is as deep as its deepest arm. */
  lemma ParNKeepsDepth(c: Ctx, items: seq<Expr>, env: Env, fuel: nat, exp: set<Name>)
    requires ElabParN(c, items, 0, EMPTY, env, fuel, exp).Done?
    requires forall t | t in ArmTrees(c, items, env, fuel, exp) :: PlacedTree(t)
    ensures |ArmTrees(c, items, env, fuel, exp)| == |items|
    ensures DepthOf(Leaves(ElabParN(c, items, 0, EMPTY, env, fuel, exp).value)) == DeepestArm(ArmTrees(c, items, env, fuel, exp))
  {
    hide ElabParN, ArmTrees, ArmLeaves, DepthOf, PlacedTree, DeepestArm;
    var trees := ArmTrees(c, items, env, fuel, exp);
    ParNPlacesArms(c, items, 0, EMPTY, env, fuel, exp);
    assert Leaves(EMPTY) + ArmLeaves(trees, 0) == ArmLeaves(trees, 0);
    ArmsKeepDepth(trees, 0);
  }

  // ── The gate count bounds the depth ────────────────────────────────────────

  lemma {:induction false} CountIsLeaves(t: Expr)
    requires IsGateTree(t) && Collect(t).Ok?
    ensures CountGates(t) == |Leaves(t)|
  {
    if t.Compose? {
      CountIsLeaves(t.lhs);
      CountIsLeaves(t.rhs);
    }
  }

  /** The depth recorded for an anonymous circuit, its gate count, bounds its critical path. */
  lemma CountBoundsDepth(t: Expr)
    requires IsGateTree(t) && Collect(t).Ok?
    ensures DepthOf(Leaves(t)) <= CountGates(t)
  {
    CountIsLeaves(t);
    DepthAtMostCount(GatesOf(Leaves(t)));
  }
}
