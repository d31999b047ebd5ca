/** Where gates stand: gates on disjoint wires commute, shifting moves wires, swap chains reverse them. */
module WireLaws {
  import opened Ast
  import opened Classical
  import opened GateTree
  import opened CircuitForms
  import opened Elaborate
  import opened Meaning
  import opened RunLaws

  // ── Disjoint wires ─────────────────────────────────────────────────────────

  /** A gate placed on literal, non-negative wires. */
  predicate WellPlaced(l: Leaf) {
    l.Placed? && match l.qubits
                 case Int(n) => n >= 0
                 case Tuple(items) => forall i | 0 <= i < |items| :: items[i].Int? && items[i].i >= 0
                 case _ => false
  }

  predicate AllWellPlaced(ls: seq<Leaf>) { forall l | l in ls :: WellPlaced(l) }

  /** Gates on disjoint wires commute. */
  ghost predicate LocalLaw<S(!new)>(m: Model<S>) {
    forall a: Leaf, b: Leaf, s: S :: CommutesAt(m, a, b, s)
  }

  ghost predicate CommutesAt<S>(m: Model<S>, a: Leaf, b: Leaf, s: S) {
    WellPlaced(a) && WellPlaced(b) && Wires(a) !! Wires(b) ==> m.act(a, m.act(b, s)) == m.act(b, m.act(a, s))
  }

  function Wires(l: Leaf): set<nat> { set q | q in LeafTargets(l) }

  lemma RunFirst<S>(m: Model<S>, ls: seq<Leaf>, s: S)
    requires ls != []
    ensures Run(m, ls, true, 0, s) == Run(m, ls[1..], true, 0, m.act(ls[0], s))
  {
    if ls[0].Placed? { ShiftTargetsTwice(ls[0].qubits, 0, 0); }
    assert ShiftLeaf(ls[0], 0) == ls[0];
  }

  lemma {:induction false} GateCommutes<S(!new)>(m: Model<S>, a: Leaf, ls: seq<Leaf>, s: S)
    requires LocalLaw(m) && WellPlaced(a) && AllWellPlaced(ls) && Wires(a) !! Touched(ls)
    ensures Run(m, ls, true, 0, m.act(a, s)) == m.act(a, Run(m, ls, true, 0, s))
  {
    if ls != [] {
      hide Touched, Run, Wires, WellPlaced;
      RunFirst(m, ls, m.act(a, s));
      RunFirst(m, ls, s);
      assert CommutesAt(m, ls[0], a, s);
      GateCommutes(m, a, ls[1..], m.act(ls[0], s));
    }
  }

  /** Gate sequences on disjoint wires run in either order. */
  lemma {:induction false} DisjointCommute<S(!new)>(m: Model<S>, a: seq<Leaf>, b: seq<Leaf>, s: S)
    requires LocalLaw(m) && AllWellPlaced(a) && AllWellPlaced(b) && Touched(a) !! Touched(b)
    ensures Run(m, b, true, 0, Run(m, a, true, 0, s)) == Run(m, a, true, 0, Run(m, b, true, 0, s))
  {
    if a != [] {
      hide Touched, Run, Wires, WellPlaced;
      var (head, tail) := (a[0], a[1..]);
      RunFirst(m, a, s);
      RunFirst(m, a, Run(m, b, true, 0, s));
      DisjointCommute(m, tail, b, m.act(head, s));
      GateCommutes(m, head, b, s);
    }
  }

  // ── Shifting ───────────────────────────────────────────────────────────────

  /** `b` is `a` moved up by `k`. */
  ghost predicate MovedUp(a: set<nat>, b: set<nat>, k: nat) {
    forall q: int :: q in b <==> q - k in a
  }

  lemma {:induction false} LiteralsShifted(items: seq<Expr>, shifted: seq<Expr>, k: nat)
    requires |items| == |shifted|
    requires forall i | 0 <= i < |items| :: items[i].Int? && items[i].i >= 0 && shifted[i] == Int(items[i].i + k)
    ensures |Literals(shifted)| == |Literals(items)|
    ensures forall i | 0 <= i < |Literals(items)| :: Literals(shifted)[i] == Literals(items)[i] + k
  {
    if items != [] { LiteralsShifted(items[1..], shifted[1..], k); }
  }

  lemma LeafShifted(l: Leaf, k: nat)
    requires WellPlaced(l)
    ensures WellPlaced(ShiftLeaf(l, k)) && MovedUp(Wires(l), Wires(ShiftLeaf(l, k)), k)
  {
    var q, r := l.qubits, ShiftTargets(l.qubits, k);
    if q.Tuple? {
      forall i | 0 <= i < |q.items| ensures r.items[i] == Int(q.items[i].i + k) {
        assert r.items[i] == ShiftTargets(q.items[i], k);
      }
      LiteralsShifted(q.items, r.items, k);
    }
    var (a, b) := (LeafTargets(l), LeafTargets(ShiftLeaf(l, k)));
    assert |a| == |b| && forall i | 0 <= i < |a| :: b[i] == a[i] + k;
  }

  /** Shifting well-placed gates up by `k` adds `k` to every wire touched. */
  lemma {:induction false} TouchedShifted(ls: seq<Leaf>, k: nat)
    requires AllWellPlaced(ls)
    ensures AllWellPlaced(ShiftAll(ls, k))
    ensures MovedUp(Touched(ls), Touched(ShiftAll(ls, k)), k)
  {
    if ls != [] {
      var shifted := ShiftAll(ls, k);
      assert shifted[0] == ShiftLeaf(ls[0], k) && shifted[1..] == ShiftAll(ls[1..], k);
      hide Touched, WellPlaced, Wires, ShiftAll, ShiftLeaf;
      TouchedShifted(ls[1..], k);
      LeafShifted(ls[0], k);
    }
  }

  /** Sets below `w`, and moved past `offset + w`, do not meet once the first is moved by `offset`. */
  lemma SlicesDisjoint(a: set<nat>, b: set<nat>, low: set<nat>, high: set<nat>, offset: nat, w: nat)
    requires (forall q | q in a :: q < w) && MovedUp(a, low, offset) && MovedUp(b, high, offset + w)
    ensures low !! high
  {
    forall q | q in low ensures q < offset + w {
      assert q - offset in a;
    }
    forall q | q in high ensures q >= offset + w {
      assert q - (offset + w) in b;
    }
  }

  lemma BelowWidth(arm: Expr)
    requires IsGateTree(arm)
    ensures forall q | q in Touched(Leaves(arm)) :: q < Width(arm)
  {
    hide Touched, Leaves, MaxQubitIndex;
    MaxIndexIsMaximum(arm);
  }

  /** The arms of `par` stand on disjoint slices: an arm and whatever is placed past it commute. */
  lemma ParArmsCommute<S(!new)>(m: Model<S>, arm: Expr, later: seq<Leaf>, offset: nat, s: S)
    requires LocalLaw(m) && IsGateTree(arm) && AllWellPlaced(Leaves(arm)) && AllWellPlaced(later)
    ensures var first := Leaves(ShiftCircuit(arm, offset));
            var rest := ShiftAll(later, offset + Width(arm));
            Run(m, first + rest, true, 0, s) == Run(m, rest + first, true, 0, s)
  {
    hide *;
    var leaves, w := Leaves(arm), Width(arm);
    var first, rest := ShiftAll(leaves, offset), ShiftAll(later, offset + w);
    LeavesShifted(arm, offset);
    TouchedShifted(leaves, offset);
    TouchedShifted(later, offset + w);
    BelowWidth(arm);
    SlicesDisjoint(Touched(leaves), Touched(later), Touched(first), Touched(rest), offset, w);
    DisjointCommute(m, first, rest, s);
    RunConcat(m, first, rest, true, 0, s);
    RunConcat(m, rest, first, true, 0, s);
  }

  // ── The swap chain of `swap_reverse` ───────────────────────────────────────

  /** Swaps move the contents of wires; the state is the content of each wire. */
  function Swapped(l: Leaf, s: seq<int>): (r: seq<int>)
    ensures |r| == |s|
  {
    if l.Placed? && l.gate == Var("SWAP") && l.qubits.Tuple? && |l.qubits.items| == 2
       && l.qubits.items[0].Int? && l.qubits.items[1].Int?
    then Exchange(s, l.qubits.items[0].i, l.qubits.items[1].i)
    else s
  }

  function Exchange(s: seq<int>, i: int, j: int): (r: seq<int>)
    ensures |r| == |s|
  {
    if 0 <= i < |s| && 0 <= j < |s| then s[i := s[j]][j := s[i]] else s
  }

  function WireContents(): Model<seq<int>> { Model(Swapped, Swapped) }

  /** `r` is `s` with its outermost `k` pairs exchanged. */
  ghost predicate OuterReversed(s: seq<int>, r: seq<int>, k: nat) {
    |r| == |s| && forall i | 0 <= i < |s| :: r[i] == s[OuterFrom(|s|, k, i)]
  }

  function OuterFrom(n: nat, k: nat, i: nat): nat
    requires i < n
    ensures OuterFrom(n, k, i) < n
  {
    if i < k || i >= n - k then n - 1 - i else i
  }

  lemma SwapActs(n: nat, i: nat, s: seq<int>)
    requires i < |Swaps(n)|
    ensures Run(WireContents(), [Swaps(n)[i]], true, 0, s) == Exchange(s, i, n - 1 - i)
  {
    RunFirst(WireContents(), [Swaps(n)[i]], s);
  }

  lemma {:induction false} SwapPrefix(k: nat, s: seq<int>)
    requires 2 * k <= |s|
    ensures k <= |Swaps(|s|)| && OuterReversed(s, Run(WireContents(), Swaps(|s|)[..k], true, 0, s), k)
    decreases k
  {
    if k > 0 {
      hide Run, Exchange, OuterReversed, WireContents;
      var m, chain := WireContents(), Swaps(|s|);
      SwapPrefix(k - 1, s);
      assert chain[..k] == chain[..k - 1] + [chain[k - 1]];
      RunConcat(m, chain[..k - 1], [chain[k - 1]], true, 0, s);
      var mid := Run(m, chain[..k - 1], true, 0, s);
      SwapActs(|s|, k - 1, mid);
    } else {
      assert Swaps(|s|)[..0] == [];
    }
  }

  /** `swap_reverse(n)` sends wire `i` to wire `n - 1 - i`, and doing it twice does nothing. */
  lemma SwapReverseReverses(s: seq<int>)
    ensures var chain := Leaves(SwapReverse(|s|));
            var r := Run(WireContents(), chain, true, 0, s);
            && |r| == |s| && (forall i | 0 <= i < |s| :: r[i] == s[|s| - 1 - i])
            && Run(WireContents(), chain, true, 0, r) == s
  {
    SwapReverseMeans(|s|);
    var chain := Swaps(|s|);
    assert |chain| == |s| / 2 && chain[..|chain|] == chain;
    hide Run, Leaves, Swaps, SwapReverse, WireContents;
    SwapPrefix(|chain|, s);
    var r := Run(WireContents(), chain, true, 0, s);
    SwapPrefix(|chain|, r);
    Mirrored(s, r, Run(WireContents(), chain, true, 0, r));
  }

  lemma Mirrored(s: seq<int>, r: seq<int>, t: seq<int>)
    requires OuterReversed(s, r, |s| / 2) && OuterReversed(r, t, |s| / 2)
    ensures |r| == |s| && (forall i | 0 <= i < |s| :: r[i] == s[|s| - 1 - i]) && t == s
  {
    forall i | 0 <= i < |s| ensures r[i] == s[|s| - 1 - i] && t[i] == s[i] {
      assert t[i] == r[|s| - 1 - i] && r[|s| - 1 - i] == s[i];
    }
  }
}
