/** Physical qubit connectivity: edge lists, walks, and the all-pairs distance matrix. */
module Connectivity {

  const USIZE_MAX: nat := 0xFFFF_FFFF_FFFF_FFFF

  /** The distance of a pair no walk joins. */
  const UNREACHABLE: nat := USIZE_MAX / 2

  type Edge = (nat, nat)

  type Matrix = seq<seq<nat>>

  datatype BackendError =
    | SelfLoop(qubit: nat)
    | EdgeOutOfRange(a: nat, b: nat, numQubits: nat)
    | DuplicateEdge(a: nat, b: nat)

  datatype GraphResult = Built(graph: Graph) | Rejected(error: BackendError)

  datatype Graph = Graph(numQubits: nat, edges: seq<Edge>, dist: Matrix) {

    /** Out-of-range indices are unreachable rather than an error. */
    function Dist(a: nat, b: nat): nat
      requires IsSquare(dist, numQubits)
    {
      if a >= numQubits || b >= numQubits then UNREACHABLE else dist[a][b]
    }

    predicate IsEdge(a: nat, b: nat)
      requires IsSquare(dist, numQubits)
    {
      a != b && Dist(a, b) == 1
    }

    /** Every entry of the matrix is the hop count of a shortest walk. */
    ghost predicate Exact() {
      && numQubits <= UNREACHABLE
      && NoLoops(edges)
      && IsSquare(dist, numQubits)
      && forall i, j | 0 <= i < numQubits && 0 <= j < numQubits ::
           IsDistance(numQubits, edges, numQubits, i, j, dist[i][j])
    }
  }

  predicate IsSquare(m: Matrix, n: nat) {
    |m| == n && forall i | 0 <= i < n :: |m[i]| == n
  }

  predicate Adjacent(edges: seq<Edge>, u: nat, v: nat) {
    (u, v) in edges || (v, u) in edges
  }

  predicate NoLoops(edges: seq<Edge>) { forall e | e in edges :: e.0 != e.1 }

  function SaturatingAdd(a: nat, b: nat): nat {
    if a + b > USIZE_MAX then USIZE_MAX else a + b
  }

  // ── Walks and distances ────────────────────────────────────────────────────

  /** `p` walks from `u` to `v` along the edges, and its inner vertices are below `k`. */
  ghost predicate WalkVia(n: nat, edges: seq<Edge>, k: nat, u: nat, v: nat, p: seq<nat>) {
    && p != [] && p[0] == u && p[|p| - 1] == v
    && (forall i | 0 <= i < |p| :: p[i] < n)
    && (forall i | 0 < i < |p| :: Adjacent(edges, p[i - 1], p[i]))
    && (forall i | 0 < i < |p| - 1 :: p[i] < k)
  }

  /** `d` is the least number of hops from `u` to `v` by inner vertices below `k`, or the sentinel
      when no such walk exists. With `k == n` every walk is allowed. */
  ghost predicate IsDistance(n: nat, edges: seq<Edge>, k: nat, u: nat, v: nat, d: nat) {
    && (d < UNREACHABLE ==> exists p :: WalkVia(n, edges, k, u, v, p) && |p| == d + 1)
    && (d >= UNREACHABLE ==> d == UNREACHABLE)
    && (forall p | WalkVia(n, edges, k, u, v, p) :: d < UNREACHABLE && d < |p|)
  }

  lemma Join(n: nat, edges: seq<Edge>, k: nat, u: nat, v: nat, p: seq<nat>, q: seq<nat>)
    requires WalkVia(n, edges, k, u, k, p) && WalkVia(n, edges, k, k, v, q)
    ensures WalkVia(n, edges, k + 1, u, v, p + q[1..])
  {
    var r := p + q[1..];
    assert forall i | |p| <= i < |r| :: r[i] == q[i - |p| + 1];
    assert r[|r| - 1] == v by { if |q| == 1 { assert r == p; } }
    forall i | 0 < i < |r| ensures Adjacent(edges, r[i - 1], r[i]) {
      if i >= |p| { assert r[i - 1] == q[i - |p|]; }
    }
  }

  /** A walk into `k` by inner vertices up to `k` is no shorter than the distance into `k` below `k`. */
  lemma {:induction false} IntoPivot(n: nat, edges: seq<Edge>, k: nat, u: nat, d: nat, p: seq<nat>)
    requires IsDistance(n, edges, k, u, k, d) && WalkVia(n, edges, k + 1, u, k, p)
    ensures d < UNREACHABLE && d < |p|
    decreases |p|
  {
    if i: nat :| 0 < i < |p| - 1 && p[i] == k {
      IntoPivot(n, edges, k, u, d, p[..i + 1]);
    } else {
      assert WalkVia(n, edges, k, u, k, p);
    }
  }

  lemma {:induction false} OutOfPivot(n: nat, edges: seq<Edge>, k: nat, v: nat, d: nat, p: seq<nat>)
    requires IsDistance(n, edges, k, k, v, d) && WalkVia(n, edges, k + 1, k, v, p)
    ensures d < UNREACHABLE && d < |p|
    decreases |p|
  {
    if i: nat :| 0 < i < |p| - 1 && p[i] == k {
      OutOfPivot(n, edges, k, v, d, p[i..]);
    } else {
      assert WalkVia(n, edges, k, k, v, p);
    }
  }

  // ── Shortest walks repeat no vertex ────────────────────────────────────────

  function Range(n: nat): (r: set<nat>)
    ensures |r| == n && forall i: nat :: i in r <==> i < n
  {
    if n == 0 then {} else Range(n - 1) + {n - 1}
  }

  function Members(p: seq<nat>): (r: set<nat>) { set x | x in p }

  lemma {:induction false} DistinctSize(p: seq<nat>)
    requires forall i, j | 0 <= i < j < |p| :: p[i] != p[j]
    ensures |Members(p)| == |p|
  {
    if p != [] {
      var last, init := p[|p| - 1], p[..|p| - 1];
      DistinctSize(init);
      assert p == init + [last];
      assert Members(p) == Members(init) + {last};
      assert last !in Members(init);
    }
  }

  lemma {:induction false} SubsetSize(a: set<nat>, b: set<nat>)
    requires a <= b
    ensures |a| <= |b|
  {
    if a != {} {
      var x :| x in a;
      SubsetSize(a - {x}, b - {x});
    }
  }

  lemma Repeats(n: nat, p: seq<nat>)
    requires |p| > n && forall i | 0 <= i < |p| :: p[i] < n
    ensures exists i, j :: 0 <= i < j < |p| && p[i] == p[j]
  {
    if forall i, j | 0 <= i < j < |p| :: p[i] != p[j] {
      DistinctSize(p);
      assert Members(p) <= Range(n);
      SubsetSize(Members(p), Range(n));
    }
  }

  lemma {:induction false} Shorten(n: nat, edges: seq<Edge>, k: nat, u: nat, v: nat, p: seq<nat>) returns (q: seq<nat>)
    requires WalkVia(n, edges, k, u, v, p)
    ensures WalkVia(n, edges, k, u, v, q) && |q| <= n
    decreases |p|
  {
    if |p| <= n {
      q := p;
    } else {
      Repeats(n, p);
      var i, j :| 0 <= i < j < |p| && p[i] == p[j];
      var r := p[..i] + p[j..];
      assert forall x | i <= x < |r| :: r[x] == p[x - i + j];
      forall x | 0 < x < |r| ensures Adjacent(edges, r[x - 1], r[x]) {
        if x == i { assert r[x - 1] == p[x - 1] && r[x] == p[i]; }
      }
      q := Shorten(n, edges, k, u, v, r);
    }
  }

  /** A finite distance is at most `n - 1`. */
  lemma DistanceBelow(n: nat, edges: seq<Edge>, k: nat, u: nat, v: nat, d: nat)
    requires IsDistance(n, edges, k, u, v, d) && d < UNREACHABLE
    ensures d < n
  {
    var p :| WalkVia(n, edges, k, u, v, p) && |p| == d + 1;
    var q := Shorten(n, edges, k, u, v, p);
  }

  // ── One relaxation ─────────────────────────────────────────────────────────

  function Relax(direct: nat, into: nat, out: nat): nat {
    var through := SaturatingAdd(into, out);
    if through < direct then through else direct
  }

  /** The saturating sum never undercuts a sentinel leg. */
  lemma SentinelAbsorbs(into: nat, out: nat)
    requires into >= UNREACHABLE || out >= UNREACHABLE
    ensures SaturatingAdd(into, out) >= UNREACHABLE
  {
  }

  lemma RelaxIsDistance(n: nat, edges: seq<Edge>, k: nat, u: nat, v: nat, direct: nat, into: nat, out: nat)
    requires n <= UNREACHABLE
    requires IsDistance(n, edges, k, u, v, direct)
    requires IsDistance(n, edges, k, u, k, into)
    requires IsDistance(n, edges, k, k, v, out)
    ensures IsDistance(n, edges, k + 1, u, v, Relax(direct, into, out))
  {
    var d := Relax(direct, into, out);
    if into < UNREACHABLE { DistanceBelow(n, edges, k, u, k, into); }
    if out < UNREACHABLE { DistanceBelow(n, edges, k, k, v, out); }
    if d < UNREACHABLE {
      if d == direct {
        var p :| WalkVia(n, edges, k, u, v, p) && |p| == d + 1;
      } else {
        var p :| WalkVia(n, edges, k, u, k, p) && |p| == into + 1;
        var q :| WalkVia(n, edges, k, k, v, q) && |q| == out + 1;
        Join(n, edges, k, u, v, p, q);
        assert |p + q[1..]| == d + 1;
      }
    }
    forall p | WalkVia(n, edges, k + 1, u, v, p) ensures d < UNREACHABLE && d < |p| {
      var q := Shorten(n, edges, k + 1, u, v, p);
      RelaxBound(n, edges, k, u, v, direct, into, out, q);
      RelaxBound(n, edges, k, u, v, direct, into, out, p);
    }
  }

  lemma RelaxBound(n: nat, edges: seq<Edge>, k: nat, u: nat, v: nat, direct: nat, into: nat, out: nat, p: seq<nat>)
    requires IsDistance(n, edges, k, u, v, direct)
    requires IsDistance(n, edges, k, u, k, into)
    requires IsDistance(n, edges, k, k, v, out)
    requires WalkVia(n, edges, k + 1, u, v, p)
    ensures Relax(direct, into, out) < |p|
  {
    if i: nat :| 0 < i < |p| - 1 && p[i] == k {
      IntoPivot(n, edges, k, u, into, p[..i + 1]);
      OutOfPivot(n, edges, k, v, out, p[i..]);
    } else {
      assert WalkVia(n, edges, k, u, v, p);
    }
  }

  // ── The in-place algorithm ─────────────────────────────────────────────────

  /** The hop count before any relaxation: 0, 1 for an edge, or the sentinel. */
  function Direct(edges: seq<Edge>, u: nat, v: nat): nat {
    if u == v then 0 else if Adjacent(edges, u, v) then 1 else UNREACHABLE
  }

  lemma InnerVertex(n: nat, edges: seq<Edge>, k: nat, u: nat, v: nat, p: seq<nat>)
    requires WalkVia(n, edges, k, u, v, p) && |p| > 2
    ensures k > 0
  {
    assert p[1] < k;
  }

  lemma DirectIsDistance(n: nat, edges: seq<Edge>, u: nat, v: nat)
    requires u < n && v < n && NoLoops(edges)
    ensures IsDistance(n, edges, 0, u, v, Direct(edges, u, v))
  {
    if u == v {
      assert WalkVia(n, edges, 0, u, v, [u]);
    } else if Adjacent(edges, u, v) {
      assert WalkVia(n, edges, 0, u, v, [u, v]);
    }
    forall p | WalkVia(n, edges, 0, u, v, p) ensures Direct(edges, u, v) < |p| && Direct(edges, u, v) < UNREACHABLE {
      if |p| > 2 { InnerVertex(n, edges, 0, u, v, p); }
      if |p| == 2 { assert p == [u, v]; }
    }
  }

  /** Every entry is the distance by inner vertices below `k`. */
  ghost predicate ExactVia(n: nat, edges: seq<Edge>, k: nat, m: Matrix)
    requires IsSquare(m, n)
  {
    forall i, j | 0 <= i < n && 0 <= j < n :: IsDistance(n, edges, k, i, j, m[i][j])
  }

  function Snapshot(dist: array2<nat>): (m: Matrix)
    reads dist
    ensures |m| == dist.Length0
    ensures forall i | 0 <= i < |m| :: |m[i]| == dist.Length1
    ensures forall i, j | 0 <= i < dist.Length0 && 0 <= j < dist.Length1 :: m[i][j] == dist[i, j]
  {
    seq(dist.Length0, i requires 0 <= i < dist.Length0 reads dist =>
      seq(dist.Length1, j requires 0 <= j < dist.Length1 reads dist => dist[i, j]))
  }

  /** The matrix of one whole phase, every entry relaxed through `k` from the matrix before it. */
  ghost predicate Relaxed(n: nat, was: Matrix, k: nat, i: nat, j: nat, entry: nat)
    requires IsSquare(was, n) && i < n && j < n && k < n
  {
    entry == Relax(was[i][j], was[i][k], was[k][j])
  }

  /** Relaxing in place reads the same pivot row and column throughout: they do not change. */
  lemma PivotStays(n: nat, edges: seq<Edge>, was: Matrix, k: nat)
    requires IsSquare(was, n) && k < n && ExactVia(n, edges, k, was)
    ensures was[k][k] == 0
    ensures forall i | 0 <= i < n :: Relax(was[i][k], was[i][k], was[k][k]) == was[i][k]
    ensures forall j | 0 <= j < n :: Relax(was[k][j], was[k][k], was[k][j]) == was[k][j]
  {
    assert IsDistance(n, edges, k, k, k, was[k][k]);
    assert WalkVia(n, edges, k, k, k, [k]);
    forall i | 0 <= i < n ensures was[i][k] <= UNREACHABLE && was[k][i] <= UNREACHABLE {
      assert IsDistance(n, edges, k, i, k, was[i][k]) && IsDistance(n, edges, k, k, i, was[k][i]);
    }
  }

  /** Where a phase stands: the entries before `(i, j)` are relaxed, the others untouched. */
  ghost predicate Midway(n: nat, was: Matrix, k: nat, i: nat, j: nat, a: nat, b: nat, entry: nat)
    requires IsSquare(was, n) && a < n && b < n && k < n
  {
    if a < i || (a == i && b < j) then Relaxed(n, was, k, a, b, entry) else entry == was[a][b]
  }

  /** One phase of the triple loop. */
  method RelaxThrough(n: nat, edges: seq<Edge>, dist: array2<nat>, k: nat)
    requires n <= UNREACHABLE && k < n && dist.Length0 == dist.Length1 == n
    requires ExactVia(n, edges, k, Snapshot(dist))
    modifies dist
    ensures ExactVia(n, edges, k + 1, Snapshot(dist))
  {
    hide IsDistance, Snapshot, SaturatingAdd;
    ghost var was := Snapshot(dist);
    PivotStays(n, edges, was, k);
    for i := 0 to n
      invariant forall a, b | 0 <= a < n && 0 <= b < n :: Midway(n, was, k, i, 0, a, b, dist[a, b])
    {
      for j := 0 to n
        invariant forall a, b | 0 <= a < n && 0 <= b < n :: Midway(n, was, k, i, j, a, b, dist[a, b])
      {
        assert Midway(n, was, k, i, j, i, k, dist[i, k]) && Midway(n, was, k, i, j, k, j, dist[k, j]);
        assert Midway(n, was, k, i, j, i, j, dist[i, j]);
        assert dist[i, k] == was[i][k] && dist[k, j] == was[k][j] && dist[i, j] == was[i][j];
        var through := SaturatingAdd(dist[i, k], dist[k, j]);
        if through < dist[i, j] {
          dist[i, j] := through;
        }
        assert Relaxed(n, was, k, i, j, dist[i, j]);
      }
    }
    forall i, j | 0 <= i < n && 0 <= j < n ensures Relaxed(n, was, k, i, j, Snapshot(dist)[i][j]) {
      assert Midway(n, was, k, n, 0, i, j, dist[i, j]);
    }
    PhaseIsExact(n, edges, was, k, Snapshot(dist));
  }

  lemma PhaseIsExact(n: nat, edges: seq<Edge>, was: Matrix, k: nat, now: Matrix)
    requires n <= UNREACHABLE && IsSquare(was, n) && IsSquare(now, n) && k < n && ExactVia(n, edges, k, was)
    requires forall i, j | 0 <= i < n && 0 <= j < n :: Relaxed(n, was, k, i, j, now[i][j])
    ensures ExactVia(n, edges, k + 1, now)
  {
    forall i, j | 0 <= i < n && 0 <= j < n ensures IsDistance(n, edges, k + 1, i, j, now[i][j]) {
      RelaxIsDistance(n, edges, k, i, j, was[i][j], was[i][k], was[k][j]);
    }
  }

  /** In-place Floyd-Warshall over an undirected, unit-weight graph is exact. Edges with an endpoint
      out of range are skipped, and callers have ruled self-loops out. */
  method FloydWarshall(n: nat, edges: seq<Edge>) returns (matrix: Matrix)
    requires n <= UNREACHABLE && NoLoops(edges)
    ensures IsSquare(matrix, n) && ExactVia(n, edges, n, matrix)
  {
    hide IsDistance;
    var dist := new nat[n, n]((_, _) => UNREACHABLE);
    for d := 0 to n
      invariant forall i, j | 0 <= i < n && 0 <= j < n :: dist[i, j] == if i == j && i < d then 0 else UNREACHABLE
    {
      dist[d, d] := 0;
    }
    for e := 0 to |edges|
      invariant forall i, j | 0 <= i < n && 0 <= j < n :: dist[i, j] == Direct(edges[..e], i, j)
    {
      var (u, v) := edges[e];
      assert edges[e] in edges;
      if u < n && v < n {
        dist[u, v] := 1;
        dist[v, u] := 1;
      }
      assert edges[..e + 1] == edges[..e] + [edges[e]];
    }
    assert edges[..|edges|] == edges;
    forall i, j | 0 <= i < n && 0 <= j < n ensures IsDistance(n, edges, 0, i, j, Snapshot(dist)[i][j]) {
      DirectIsDistance(n, edges, i, j);
    }
    for k := 0 to n
      invariant ExactVia(n, edges, k, Snapshot(dist))
    {
      RelaxThrough(n, edges, dist, k);
    }
    matrix := Snapshot(dist);
  }

  // ── Building a graph ───────────────────────────────────────────────────────

  /** What is wrong with edge `i`, given the edges before it. */
  function EdgeProblem(n: nat, edges: seq<Edge>, i: nat): set<BackendError>
    requires i < |edges|
  {
    var (a, b) := edges[i];
    if a == b then {SelfLoop(a)}
    else if a >= n || b >= n then {EdgeOutOfRange(a, b, n)}
    else if Adjacent(edges[..i], a, b) then {DuplicateEdge(a, b)}
    else {}
  }

  /** The first bad edge is reported; without one, the graph is built and its matrix is exact. */
  method TryFromEdges(n: nat, edges: seq<Edge>) returns (r: GraphResult)
    requires n <= UNREACHABLE
    ensures r.Built? <==> forall i | 0 <= i < |edges| :: EdgeProblem(n, edges, i) == {}
    ensures r.Built? ==> r.graph.numQubits == n && r.graph.edges == edges && r.graph.Exact()
    ensures r.Rejected? ==> exists i | 0 <= i < |edges| ::
              EdgeProblem(n, edges, i) == {r.error} && forall j | 0 <= j < i :: EdgeProblem(n, edges, j) == {}
  {
    var seen: set<Edge> := {};
    for i := 0 to |edges|
      invariant forall a, b | a < b :: (a, b) in seen <==> Adjacent(edges[..i], a, b)
      invariant forall j | 0 <= j < i :: EdgeProblem(n, edges, j) == {}
    {
      var (a, b) := edges[i];
      if a == b {
        assert EdgeProblem(n, edges, i) == {SelfLoop(a)};
        return Rejected(SelfLoop(a));
      }
      if a >= n || b >= n {
        assert EdgeProblem(n, edges, i) == {EdgeOutOfRange(a, b, n)};
        return Rejected(EdgeOutOfRange(a, b, n));
      }
      var key := if a < b then (a, b) else (b, a);
      if key in seen {
        assert EdgeProblem(n, edges, i) == {DuplicateEdge(a, b)};
        return Rejected(DuplicateEdge(a, b));
      }
      seen := seen + {key};
      assert edges[..i + 1] == edges[..i] + [edges[i]];
    }
    forall e | e in edges ensures e.0 != e.1 {
      var i :| 0 <= i < |edges| && edges[i] == e;
      assert EdgeProblem(n, edges, i) == {};
    }
    var dist := FloydWarshall(n, edges);
    r := Built(Graph(n, edges, dist));
  }

  /** The pairs `(i, i+1), …, (i, n-1)`. */
  function RowOfPairs(i: nat, from: nat, n: nat): seq<Edge>
    decreases n - from
  {
    if from >= n then [] else [(i, from)] + RowOfPairs(i, from + 1, n)
  }

  function PairsFrom(i: nat, n: nat): seq<Edge>
    decreases n - i
  {
    if i >= n then [] else RowOfPairs(i, i + 1, n) + PairsFrom(i + 1, n)
  }

  /** The fully connected topology, with its matrix written down directly. */
  function AllToAll(n: nat): Graph {
    Graph(n, PairsFrom(0, n), seq(n, i => seq(n, j => if i == j then 0 else 1)))
  }

  lemma {:induction false} RowContains(i: nat, from: nat, n: nat, e: Edge)
    ensures e in RowOfPairs(i, from, n) <==> e.0 == i && from <= e.1 < n
    decreases n - from
  {
    if from < n { RowContains(i, from + 1, n, e); }
  }

  lemma {:induction false} PairsContain(i: nat, n: nat, e: Edge)
    ensures e in PairsFrom(i, n) <==> i <= e.0 < e.1 < n
    decreases n - i
  {
    if i < n {
      RowContains(i, i + 1, n, e);
      PairsContain(i + 1, n, e);
    }
  }

  /** The direct matrix is what Floyd-Warshall computes on the same edges: both are exact. */
  lemma AllToAllIsExact(n: nat)
    requires n <= UNREACHABLE
    ensures AllToAll(n).Exact()
  {
    var g := AllToAll(n);
    forall e | e in g.edges ensures e.0 != e.1 { PairsContain(0, n, e); }
    forall i, j | 0 <= i < n && 0 <= j < n ensures IsDistance(n, g.edges, n, i, j, g.dist[i][j]) {
      PairsContain(0, n, (i, j));
      PairsContain(0, n, (j, i));
      if i == j { assert WalkVia(n, g.edges, n, i, j, [i]); } else { assert WalkVia(n, g.edges, n, i, j, [i, j]); }
    }
  }

  /** An exact matrix is the only exact matrix of its edge list. */
  lemma ExactIsUnique(g: Graph, h: Graph)
    requires g.Exact() && h.Exact() && g.numQubits == h.numQubits && g.edges == h.edges
    ensures g.dist == h.dist
  {
    forall i, j | 0 <= i < g.numQubits && 0 <= j < g.numQubits ensures g.dist[i][j] == h.dist[i][j] {
    }
    forall i | 0 <= i < g.numQubits ensures g.dist[i] == h.dist[i] { }
  }

  // ── What exact matrices promise ────────────────────────────────────────────

  function Reverse(p: seq<nat>): (r: seq<nat>)
    ensures |r| == |p| && forall i | 0 <= i < |p| :: r[i] == p[|p| - 1 - i]
  {
    seq(|p|, i requires 0 <= i < |p| => p[|p| - 1 - i])
  }

  lemma ReverseWalk(n: nat, edges: seq<Edge>, u: nat, v: nat, p: seq<nat>)
    requires WalkVia(n, edges, n, u, v, p)
    ensures WalkVia(n, edges, n, v, u, Reverse(p))
  {
    var r := Reverse(p);
    forall i | 0 < i < |r| ensures Adjacent(edges, r[i - 1], r[i]) {
      assert Adjacent(edges, p[|p| - 1 - i], p[|p| - i]);
    }
  }

  lemma DistanceSymmetric(n: nat, edges: seq<Edge>, u: nat, v: nat, d: nat, d': nat)
    requires IsDistance(n, edges, n, u, v, d) && IsDistance(n, edges, n, v, u, d')
    ensures d <= d'
  {
    if d' < UNREACHABLE {
      var p :| WalkVia(n, edges, n, v, u, p) && |p| == d' + 1;
      ReverseWalk(n, edges, v, u, p);
    }
  }

  lemma Through(n: nat, edges: seq<Edge>, u: nat, w: nat, v: nat, p: seq<nat>, q: seq<nat>)
    requires WalkVia(n, edges, n, u, w, p) && WalkVia(n, edges, n, w, v, q)
    ensures WalkVia(n, edges, n, u, v, p + q[1..])
  {
    var r := p + q[1..];
    assert forall i | |p| <= i < |r| :: r[i] == q[i - |p| + 1];
    assert r[|r| - 1] == v by { if |q| == 1 { assert r == p; } }
    forall i | 0 < i < |r| ensures Adjacent(edges, r[i - 1], r[i]) {
      if i >= |p| { assert r[i - 1] == q[i - |p|]; }
    }
  }

  /** The distance is a metric on the qubits, infinite exactly between components, and finite
      distances stay below the number of qubits. */
  lemma DistanceIsMetric(g: Graph, a: nat, b: nat, c: nat)
    requires g.Exact()
    ensures g.Dist(a, b) == g.Dist(b, a)
    ensures g.Dist(a, b) == 0 <==> a == b && a < g.numQubits
    ensures g.Dist(a, c) < UNREACHABLE && g.Dist(c, b) < UNREACHABLE ==> g.Dist(a, b) <= g.Dist(a, c) + g.Dist(c, b)
    ensures g.Dist(a, b) < g.numQubits || g.Dist(a, b) == UNREACHABLE
    ensures g.Dist(a, b) == UNREACHABLE <==> !exists p :: WalkVia(g.numQubits, g.edges, g.numQubits, a, b, p)
  {
    var n, edges := g.numQubits, g.edges;
    if a < n && b < n {
      var d := g.dist[a][b];
      assert IsDistance(n, edges, n, a, b, d) && IsDistance(n, edges, n, b, a, g.dist[b][a]);
      DistanceSymmetric(n, edges, a, b, d, g.dist[b][a]);
      DistanceSymmetric(n, edges, b, a, g.dist[b][a], d);
      if d < UNREACHABLE { DistanceBelow(n, edges, n, a, b, d); }
      if a == b { assert WalkVia(n, edges, n, a, b, [a]); }
      if c < n && g.Dist(a, c) < UNREACHABLE && g.Dist(c, b) < UNREACHABLE {
        assert IsDistance(n, edges, n, a, c, g.dist[a][c]) && IsDistance(n, edges, n, c, b, g.dist[c][b]);
        var p :| WalkVia(n, edges, n, a, c, p) && |p| == g.dist[a][c] + 1;
        var q :| WalkVia(n, edges, n, c, b, q) && |q| == g.dist[c][b] + 1;
        Through(n, edges, a, c, b, p, q);
        assert |p + q[1..]| == g.dist[a][c] + g.dist[c][b] + 1;
      }
    }
  }

  /** `is_edge`, which reads distance 1 off the matrix, holds exactly of the declared edges. */
  lemma IsEdgeIffDeclared(g: Graph, a: nat, b: nat)
    requires g.Exact() && forall e | e in g.edges :: e.0 < g.numQubits && e.1 < g.numQubits
    ensures g.IsEdge(a, b) <==> Adjacent(g.edges, a, b)
  {
    var n, edges := g.numQubits, g.edges;
    if a < n && b < n {
      assert IsDistance(n, edges, n, a, b, g.dist[a][b]);
      if Adjacent(edges, a, b) { assert WalkVia(n, edges, n, a, b, [a, b]); }
      if g.IsEdge(a, b) {
        var p :| WalkVia(n, edges, n, a, b, p) && |p| == 2;
        assert Adjacent(edges, p[0], p[1]);
      }
    }
  }
}
