/** Elaborated gate trees: placements, adjoint normalisation, widths and counts. */
module GateTree {
  import opened Ast
  import opened Classical

  /** One row of the gate registry. */
  datatype GateInfo = GateInfo(id: Name, arity: nat, inverse: Name, parametric: bool, surface: bool)

  /** The gate registry, as the lookup it offers: canonical ids and aliases resolve to rows. */
  datatype Registry = Registry(lookup: Name -> Option<GateInfo>)

  /** Rows are found under their own id, and inverses are involutive. */
  ghost predicate Lawful(reg: Registry) {
    forall n {:trigger reg.lookup(n)} :: reg.lookup(n).Some? ==>
      var g := reg.lookup(n).value;
      && reg.lookup(g.id) == Some(g)
      && reg.lookup(g.inverse).Some?
      && reg.lookup(g.inverse).value.id == g.inverse
      && reg.lookup(g.inverse).value.inverse == g.id
  }

  function InverseName(reg: Registry, name: Name): Name {
    match reg.lookup(name)
    case Some(g) => g.inverse
    case None => name
  }

  function SurfaceGate(reg: Registry, name: Name): Option<GateInfo> {
    match reg.lookup(name)
    case Some(g) => if g.surface then Some(g) else None
    case None => None
  }

  // ── The empty sentinel and composition ─────────────────────────────────────

  const EMPTY: Expr := CircuitBlock([])

  predicate IsEmpty(e: Expr) { e.CircuitBlock? && e.stmts == [] }

  function ComposeNonempty(l: Expr, r: Expr): (t: Expr)
    ensures IsGateTree(l) && IsGateTree(r) ==> IsGateTree(t)
  {
    if IsEmpty(l) then r else if IsEmpty(r) then l else Compose(l, r)
  }

  /** The loop step of `for`, `repeat` and `swap_reverse`: only an empty accumulator is dropped. */
  function Append(acc: Expr, step: Expr): (t: Expr)
    ensures IsGateTree(acc) && IsGateTree(step) ==> IsGateTree(t)
  {
    if IsEmpty(acc) then step else Compose(acc, step)
  }

  // ── Placements ─────────────────────────────────────────────────────────────

  datatype Placement = Placement(gate: Expr, qubits: Expr)

  function Collect(e: Expr): Res<seq<Placement>> {
    match e
    case CircuitBlock(stmts) =>
      if |stmts| > 0 && stmts[|stmts| - 1].SExpr? then Collect(stmts[|stmts| - 1].e) else Ok([])
    case Compose(l, r) =>
      var a :- Collect(l);
      var b :- Collect(r);
      Ok(a + b)
    case GateApp(g, q) => Ok([Placement(g, q)])
    case _ => Err(Unsupported(AdjointOfNonGates))
  }

  function AngleOf(e: Expr): real {
    match e
    case Float(x) => x
    case Int(n) => n as real
    case _ => 0.0
  }

  function InvertGate(reg: Registry, gate: Expr): Res<Expr> {
    match gate
    case Var(name) => Ok(Var(InverseName(reg, name)))
    case App(f, x) =>
      var (head, args) := FlattenApp(f, x);
      if head.Var? && |args| == 1 then Ok(App(head, Float(-AngleOf(args[0]))))
      else Err(Unsupported(AdjointOfUnknownRotation))
    case _ => Err(Unsupported(AdjointOfNonPrimitive))
  }

  /** The backward loop of `reverse_and_invert` over the placements still to visit. */
  function InvertOnto(reg: Registry, ps: seq<Placement>, acc: Option<Expr>): Res<Option<Expr>>
    decreases |ps|
  {
    if ps == [] then Ok(acc)
    else
      var last := ps[|ps| - 1];
      var gate :- InvertGate(reg, last.gate);
      var step := GateApp(gate, last.qubits);
      InvertOnto(reg, ps[..|ps| - 1], Some(if acc.None? then step else Compose(acc.value, step)))
  }

  function ReverseAndInvert(reg: Registry, e: Expr): Res<Expr> {
    if IsEmpty(e) then Ok(e)
    else
      var ps :- Collect(e);
      var result :- InvertOnto(reg, ps, None);
      if result.Some? then Ok(result.value) else Err(Unsupported(AdjointOfEmpty))
  }

  function QubitTargets(qubits: Expr): seq<nat> {
    match qubits
    case Tuple(items) => Literals(items)
    case Int(n) => if n >= 0 then [n] else []
    case _ => []
  }

  function Literals(items: seq<Expr>): seq<nat> {
    if items == [] then []
    else if items[0].Int? && items[0].i >= 0 then [items[0].i] + Literals(items[1..])
    else Literals(items[1..])
  }

  function MaxOf(ns: seq<nat>): (m: Option<nat>)
    ensures ns == [] <==> m.None?
    ensures m.Some? ==> m.value in ns && forall n | n in ns :: n <= m.value
  {
    if ns == [] then None
    else
      assert ns == [ns[0]] + ns[1..];
      match MaxOf(ns[1..])
      case None => Some(ns[0])
      case Some(m) => Some(if m > ns[0] then m else ns[0])
  }

  function MaxOption(a: Option<nat>, b: Option<nat>): Option<nat> {
    match (a, b)
    case (None, _) => b
    case (_, None) => a
    case (Some(x), Some(y)) => Some(if x > y then x else y)
  }

  function MaxQubitIndex(e: Expr): Option<nat>
    decreases e, 1
  {
    match e
    case Compose(l, r) => MaxOption(MaxQubitIndex(l), MaxQubitIndex(r))
    case GateApp(_, q) => MaxOf(QubitTargets(q))
    case Adjoint(inner) => MaxQubitIndex(inner)
    case Par(body, _) => MaxQubitIndex(body)
    case ParN(items) => MaxQubitIndexes(items)
    case _ => None
  }

  function MaxQubitIndexes(es: seq<Expr>): Option<nat>
    decreases es, 0
  {
    if es == [] then None else MaxOption(MaxQubitIndex(es[0]), MaxQubitIndexes(es[1..]))
  }

  function CountGates(e: Expr): nat {
    match e
    case Compose(l, r) => CountGates(l) + CountGates(r)
    case GateApp(_, _) => 1
    case Adjoint(inner) => CountGates(inner)
    case _ => 0
  }

  /** `max_qubit_index + 1`, or 0 for a circuit that places nothing. */
  function Width(e: Expr): nat {
    match MaxQubitIndex(e)
    case Some(m) => m + 1
    case None => 0
  }

  // ── The shape the elaborator produces ──────────────────────────────────────

  /** A leaf that is not a placement: a name, call or value left for the caller to reject. */
  predicate Residual(e: Expr) {
    !(e.Compose? || e.CircuitBlock? || e.GateApp? || e.Par? || e.ParN? || e.Adjoint?)
  }

  /** A non-empty gate tree: the left of a composition is never the sentinel. */
  predicate Solid(e: Expr) {
    Residual(e) || e.GateApp? || (e.Compose? && Solid(e.lhs) && (IsEmpty(e.rhs) || Solid(e.rhs)))
  }

  predicate IsGateTree(e: Expr) { IsEmpty(e) || Solid(e) }

  lemma {:induction false} InvertOntoSolid(reg: Registry, ps: seq<Placement>, acc: Option<Expr>)
    requires acc.Some? ==> Solid(acc.value)
    ensures InvertOnto(reg, ps, acc).Ok? && InvertOnto(reg, ps, acc).value.Some?
            ==> Solid(InvertOnto(reg, ps, acc).value.value)
    decreases |ps|
  {
    if ps != [] {
      var last := ps[|ps| - 1];
      var gate := InvertGate(reg, last.gate);
      if gate.Ok? {
        var step := GateApp(gate.value, last.qubits);
        InvertOntoSolid(reg, ps[..|ps| - 1], Some(if acc.None? then step else Compose(acc.value, step)));
      }
    }
  }

  lemma AdjointIsGateTree(reg: Registry, e: Expr)
    ensures ReverseAndInvert(reg, e).Ok? ==> IsGateTree(ReverseAndInvert(reg, e).value)
  {
    if !IsEmpty(e) && Collect(e).Ok? { InvertOntoSolid(reg, Collect(e).value, None); }
  }
}
