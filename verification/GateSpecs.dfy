/** Looking up the gates of an elaborated body: which wire gate each placement asks for. */
module GateSpecs {
  import opened Ast
  import opened Classical
  import opened GateTree
  import opened Meaning
  import opened RunLaws
  import opened Threading

  datatype LowerError =
    | UnknownGate(name: Name)
    | NonStaticRotation(name: Name)
    | Unsupported(construct: string)
    | Internal(what: string)
    | BuildRejected
    | NotElaborated(error: ElabError)
    | Panic(what: string)

  datatype Lowered<+T> = Good(value: T) | Bad(error: LowerError) {
    predicate IsFailure() { Bad? }
    function PropagateFailure<U>(): Lowered<U> requires Bad? { Bad(error) }
    function Extract(): T requires Good? { value }
  }

  /** What the type environment knows of a gate name, and which names are rotations. */
  datatype GateMeta = GateMeta(clifford: bool, depth: int)

  datatype GateTypes = GateTypes(meta: Name -> Option<GateMeta>, rotations: set<Name>)

  datatype GateSpec = GateSpec(name: Name, angle: Option<real>, clifford: bool, depth: int)

  function GateSpecOf(types: GateTypes, gate: Expr): Lowered<GateSpec> {
    match gate
    case Var(name) =>
      (match types.meta(name)
       case None => Bad(LowerError.UnknownGate(name))
       case Some(m) => Good(GateSpec(name, None, m.clifford, m.depth)))
    case App(f, x) =>
      var (head, args) := FlattenApp(f, x);
      if !head.Var? then Bad(LowerError.Unsupported("indirect rotation gate"))
      else if head.name !in types.rotations then Bad(LowerError.UnknownGate(head.name))
      else if !args[0].Float? then Bad(NonStaticRotation(head.name))
      else
        (match types.meta(head.name)
         case None => Bad(LowerError.UnknownGate(head.name))
         case Some(m) => Good(GateSpec(head.name, Some(args[0].f), m.clifford, m.depth)))
    case _ => Bad(LowerError.Unsupported("gate expression"))
  }

  function PlacementGate(spec: GateSpec, targets: seq<nat>): WireGate {
    WireGate(spec.name, targets, spec.angle, spec.depth, spec.clifford)
  }

  /** The gates a placement list asks for, or the first error. */
  function WireGates(types: GateTypes, ps: seq<Placement>): Lowered<seq<WireGate>> {
    if ps == [] then Good([])
    else
      var n := |ps| - 1;
      var before :- WireGates(types, ps[..n]);
      var spec :- GateSpecOf(types, ps[n].gate);
      Good(before + [PlacementGate(spec, QubitTargets(ps[n].qubits))])
  }

  /** Whether the builders and the result threading accept a gate. */
  predicate Emittable(g: WireGate) { g.depth >= 0 && g.qubits != [] && (g.angle.Some? ==> |g.qubits| == 1) }

  /** The body places only gates that can be looked up and emitted. */
  predicate Placeable(types: GateTypes, body: Expr) {
    && Collect(body).Ok? && WireGates(types, Collect(body).value).Good?
    && forall g | g in WireGates(types, Collect(body).value).value :: Emittable(g)
  }

  // ── What a placement asks for ──────────────────────────────────────────────

  predicate Natural(e: Expr) { e.Int? && e.i >= 0 }

  function Naturals(items: seq<Expr>): nat {
    if items == [] then 0
    else Naturals(items[..|items| - 1]) + if Natural(items[|items| - 1]) then 1 else 0
  }

  /** The natural literal in place `k` is the wire after as many wires as there are literals before it. */
  predicate OneEach(items: seq<Expr>, ws: seq<nat>) {
    && |ws| == Naturals(items)
    && forall k | 0 <= k < |items| && Natural(items[k]) ::
         Naturals(items[..k]) < |ws| && ws[Naturals(items[..k])] == items[k].i
  }

  /** `ws` are the wires that `qubits` writes out, in order; what is no natural literal is passed over. */
  predicate Writes(qubits: Expr, ws: seq<nat>) {
    match qubits
    case Int(n) => ws == if n >= 0 then [n] else []
    case Tuple(items) => OneEach(items, ws)
    case _ => ws == []
  }

  /** `gate` applies `name` to `x` first. */
  predicate FirstArg(gate: Expr, name: Name, x: Expr) {
    gate.App? && ((gate.fn == Var(name) && gate.arg == x) || FirstArg(gate.fn, name, x))
  }

  /** `g` is what the placed gate `l` asks for: its name, its wires, its literal angle if it is a
      rotation, and what the type environment knows of it. */
  predicate AsksFor(types: GateTypes, l: Leaf, g: WireGate) {
    && l.Placed? && Writes(l.qubits, g.qubits)
    && types.meta(g.name) == Some(GateMeta(g.clifford, g.depth))
    && (match g.angle
        case None => l.gate == Var(g.name)
        case Some(a) => g.name in types.rotations && FirstArg(l.gate, g.name, Float(a)))
  }

  /** The gates of the body, one after another, ask for `gs`, and the builders accept them. */
  predicate BodyAsksFor(types: GateTypes, body: Expr, gs: seq<WireGate>) {
    && |gs| == |Leaves(body)|
    && forall i | 0 <= i < |gs| :: AsksFor(types, Leaves(body)[i], gs[i]) && Emittable(gs[i])
  }

  lemma {:induction false} LiteralsSnoc(items: seq<Expr>, last: Expr)
    ensures Literals(items + [last]) == Literals(items) + if Natural(last) then [last.i] else []
  {
    if items == [] {
      assert items + [last] == [last];
    } else {
      LiteralsSnoc(items[1..], last);
      assert (items + [last])[1..] == items[1..] + [last];
    }
  }

  lemma {:induction false} OneEachSnoc(items: seq<Expr>, ws: seq<nat>)
    requires items != []
    ensures var (init, last) := (items[..|items| - 1], items[|items| - 1]);
            OneEach(items, ws) <==>
              if Natural(last) then ws != [] && ws[|ws| - 1] == last.i && OneEach(init, ws[..|ws| - 1])
              else OneEach(init, ws)
  {
    hide Naturals;
    var n := |items| - 1;
    var init := items[..n];
    NaturalsSnoc(items);
    forall k | 0 <= k < n ensures init[..k] == items[..k] && init[k] == items[k] && Naturals(init[..k]) <= Naturals(init)
      ensures Natural(init[k]) ==> Naturals(init[..k]) < Naturals(init)
    {
      NaturalsBefore(init, k);
    }
  }

  lemma NaturalsSnoc(items: seq<Expr>)
    requires items != []
    ensures Naturals(items) == Naturals(items[..|items| - 1]) + if Natural(items[|items| - 1]) then 1 else 0
  {
  }

  lemma {:induction false} NaturalsBefore(items: seq<Expr>, k: nat)
    requires k < |items|
    ensures Naturals(items[..k]) + (if Natural(items[k]) then 1 else 0) <= Naturals(items)
  {
    var n := |items| - 1;
    if k < n {
      NaturalsBefore(items[..n], k);
      assert items[..n][..k] == items[..k];
    }
  }

  lemma {:induction false} LiteralsInOrder(items: seq<Expr>, ws: seq<nat>)
    ensures OneEach(items, ws) <==> ws == Literals(items)
  {
    if items != [] {
      hide OneEach;
      var (init, last) := (items[..|items| - 1], items[|items| - 1]);
      assert items == init + [last];
      LiteralsSnoc(init, last);
      OneEachSnoc(items, ws);
      if !Natural(last) { LiteralsInOrder(init, ws); }
      else if ws != [] {
        LiteralsInOrder(init, ws[..|ws| - 1]);
        assert ws == ws[..|ws| - 1] + [ws[|ws| - 1]];
      }
    }
  }

  lemma WritesTargets(qubits: Expr, ws: seq<nat>)
    ensures Writes(qubits, ws) <==> ws == QubitTargets(qubits)
  {
    if qubits.Tuple? { LiteralsInOrder(qubits.items, ws); }
  }

  lemma {:induction false} FirstOfApp(f: Expr, x: Expr, name: Name, arg: Expr)
    ensures FirstArg(App(f, x), name, arg) <==> FlattenApp(f, x).0 == Var(name) && FlattenApp(f, x).1[0] == arg
    decreases f
  {
    if f.App? { FirstOfApp(f.fn, f.arg, name, arg); }
  }

  lemma SpecAsked(types: GateTypes, gate: Expr, qubits: Expr, g: WireGate)
    ensures AsksFor(types, Placed(gate, qubits), g) <==>
              GateSpecOf(types, gate).Good? && g == PlacementGate(GateSpecOf(types, gate).value, QubitTargets(qubits))
  {
    hide Writes, QubitTargets;
    WritesTargets(qubits, g.qubits);
    if gate.App? {
      var (head, args) := FlattenApp(gate.fn, gate.arg);
      if g.angle.Some? { FirstOfApp(gate.fn, gate.arg, g.name, Float(g.angle.value)); }
    }
  }

  /** Looking up a placement list succeeds exactly when each placement asks for a gate. */
  lemma {:induction false} AskedOneByOne(types: GateTypes, ps: seq<Placement>, gs: seq<WireGate>)
    ensures WireGates(types, ps) == Good(gs) <==>
              |gs| == |ps| && forall i | 0 <= i < |ps| :: AsksFor(types, Placed(ps[i].gate, ps[i].qubits), gs[i])
    decreases |ps|
  {
    if ps != [] {
      hide AsksFor, GateSpecOf, PlacementGate, QubitTargets;
      var n := |ps| - 1;
      if gs == [] { return; }
      var (init, last) := (gs[..|gs| - 1], gs[|gs| - 1]);
      AskedOneByOne(types, ps[..n], init);
      SpecAsked(types, ps[n].gate, ps[n].qubits, last);
      assert gs == init + [last];
      if |gs| == |ps| { assert forall i | 0 <= i < n :: ps[..n][i] == ps[i] && init[i] == gs[i]; }
    }
  }

  lemma {:induction false} PlacementsAt(ps: seq<Placement>)
    ensures |Placements(ps)| == |ps| && forall i | 0 <= i < |ps| :: Placements(ps)[i] == Placed(ps[i].gate, ps[i].qubits)
  {
    if ps != [] { PlacementsAt(ps[1..]); }
  }

  lemma {:induction false} PlacedIsCollected(t: Expr)
    ensures Collect(t).Ok? <==> forall l | l in Leaves(t) :: l.Placed?
  {
    if t.Compose? {
      PlacedIsCollected(t.lhs);
      PlacedIsCollected(t.rhs);
    } else if t.CircuitBlock? && |t.stmts| > 0 && t.stmts[|t.stmts| - 1].SExpr? {
      PlacedIsCollected(t.stmts[|t.stmts| - 1].e);
    } else if !t.GateApp? && !t.CircuitBlock? {
      assert Bare(t) in Leaves(t);
    }
  }

  lemma OnlyPlacedAsks(types: GateTypes, l: Leaf, g: WireGate)
    ensures AsksFor(types, l, g) ==> l.Placed?
  {
  }

  /** A body can be placed exactly when its gates ask for some gates, and those are the gates placed. */
  lemma PlacedAsAsked(types: GateTypes, body: Expr, gs: seq<WireGate>)
    ensures BodyAsksFor(types, body, gs) <==> Placeable(types, body) && WireGates(types, Collect(body).value).value == gs
  {
    hide AsksFor, WireGates, Collect, Leaves, Emittable;
    PlacedIsCollected(body);
    if Collect(body).Ok? {
      CollectIsLeaves(body);
      var ps := Collect(body).value;
      AskedOneByOne(types, ps, gs);
      PlacementsAt(ps);
      if WireGates(types, ps) == Good(gs) {
        assert (forall g | g in gs :: Emittable(g)) <==> forall i | 0 <= i < |gs| :: Emittable(gs[i]);
      }
    } else if BodyAsksFor(types, body, gs) {
      var l :| l in Leaves(body) && !l.Placed?;
      var i :| 0 <= i < |gs| && Leaves(body)[i] == l;
      OnlyPlacedAsks(types, l, gs[i]);
    }
  }

  // ── Lookups in order ───────────────────────────────────────────────────────

  lemma WireGatesStep(types: GateTypes, ps: seq<Placement>, i: nat)
    requires i < |ps| && WireGates(types, ps[..i]).Good?
    ensures var spec := GateSpecOf(types, ps[i].gate);
            WireGates(types, ps[..i + 1]) ==
              if spec.Bad? then Bad(spec.error)
              else Good(WireGates(types, ps[..i]).value + [PlacementGate(spec.value, QubitTargets(ps[i].qubits))])
  {
    assert ps[..i + 1][..i] == ps[..i];
  }

  lemma {:induction false} WireGatesFail(types: GateTypes, ps: seq<Placement>, i: nat)
    requires i < |ps| && WireGates(types, ps[..i]).Good? && GateSpecOf(types, ps[i].gate).Bad?
    ensures WireGates(types, ps).Bad?
    decreases |ps|
  {
    hide GateSpecOf, QubitTargets;
    var n := |ps| - 1;
    if i < n {
      assert ps[..n][..i] == ps[..i];
      WireGatesFail(types, ps[..n], i);
    }
  }

  lemma {:induction false} BadGateStays(types: GateTypes, ps: seq<Placement>, i: nat, g: WireGate)
    requires i <= |ps| && WireGates(types, ps[..i]).Good? && g in WireGates(types, ps[..i]).value
    ensures WireGates(types, ps).Good? ==> g in WireGates(types, ps).value
    decreases |ps|
  {
    if i < |ps| {
      var n := |ps| - 1;
      assert ps[..n][..i] == ps[..i];
      BadGateStays(types, ps[..n], i, g);
    } else {
      assert ps[..i] == ps;
    }
  }
}
