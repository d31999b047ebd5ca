/** An exact semantics of the gates that permute basis states and turn their phase.

    A state is a basis state, one bit a wire, with a phase counted in turns; a full turn is nothing.
    A circuit over these gates is fixed by what it does to every such state. */
module Phase {
  import opened Ast
  import opened Classical
  import opened GateTree
  import opened CircuitForms
  import opened Meaning
  import opened RunLaws

  type Turn = x: real | 0.0 <= x < 1.0 witness 0.0

  function Frac(x: real): Turn { x - x.Floor as real }

  datatype Basis = Basis(bits: seq<bool>, turns: Turn)

  /** The same basis state, further round by `d` turns. */
  function Turned(s: Basis, d: real): Basis { s.(turns := Frac(s.turns + d)) }

  /** An angle in radians, in turns. */
  function Turns(pi: real, angle: real): real
    requires pi != 0.0
  {
    angle / (2.0 * pi)
  }

  // ── One gate ───────────────────────────────────────────────────────────────

  datatype Action =
    | Nothing
    | OnOne(flips: bool, phase0: real, phase1: real, t: nat)   // turns given to bit 0 and to bit 1
    | ControlledOne(flips: bool, phase0: real, phase1: real, c: nat, t: nat)
    | Exchange(a: nat, b: nat)

  function FixedAction(name: Name, ts: seq<nat>): Action {
    if |ts| == 1 then
      if name == "X" then OnOne(true, 0.0, 0.0, ts[0])
      else if name == "Y" then OnOne(true, 0.25, -0.25, ts[0])
      else if name == "Z" then OnOne(false, 0.0, 0.5, ts[0])
      else if name == "S" then OnOne(false, 0.0, 0.25, ts[0])
      else if name == "S_dag" then OnOne(false, 0.0, -0.25, ts[0])
      else if name == "T" then OnOne(false, 0.0, 0.125, ts[0])
      else if name == "T_dag" then OnOne(false, 0.0, -0.125, ts[0])
      else Nothing
    else if |ts| == 2 && ts[0] != ts[1] then
      if name == "CNOT" then ControlledOne(true, 0.0, 0.0, ts[0], ts[1])
      else if name == "CY" then ControlledOne(true, 0.25, -0.25, ts[0], ts[1])
      else if name == "CZ" then ControlledOne(false, 0.0, 0.5, ts[0], ts[1])
      else if name == "SWAP" then Exchange(ts[0], ts[1])
      else Nothing
    else Nothing
  }

  /** `Rz(a)` turns bit 0 back and bit 1 on by half the angle. */
  function RzAction(pi: real, angle: real, t: nat): Action
    requires pi != 0.0
  {
    OnOne(false, -Turns(pi, angle) / 2.0, Turns(pi, angle) / 2.0, t)
  }

  /** The registry's spelling of a name. */
  function Spelled(reg: Registry, name: Name): Name {
    match reg.lookup(name)
    case Some(g) => g.id
    case None => name
  }

  function ActionOf(reg: Registry, pi: real, gate: Expr, ts: seq<nat>): Action
    requires pi != 0.0
  {
    match gate
    case Var(name) => FixedAction(Spelled(reg, name), ts)
    case App(f, x) => if f == Var("Rz") && |ts| == 1 then RzAction(pi, AngleOf(x), ts[0]) else Nothing
    case _ => Nothing
  }

  /** The bits after the action. */
  function Permuted(a: Action, bits: seq<bool>): (r: seq<bool>)
    ensures |r| == |bits|
  {
    match a
    case Nothing => bits
    case OnOne(flips, _, _, t) => if flips && t < |bits| then bits[t := !bits[t]] else bits
    case ControlledOne(flips, _, _, c, t) =>
      if flips && c < |bits| && t < |bits| && c != t && bits[c] then bits[t := !bits[t]] else bits
    case Exchange(a, b) => if a < |bits| && b < |bits| then bits[a := bits[b]][b := bits[a]] else bits
  }

  /** The turns given to the bits before the action. */
  function Given(a: Action, bits: seq<bool>): real {
    match a
    case OnOne(_, p0, p1, t) => if t < |bits| then if bits[t] then p1 else p0 else 0.0
    case ControlledOne(_, p0, p1, c, t) =>
      if c < |bits| && t < |bits| && c != t && bits[c] then if bits[t] then p1 else p0 else 0.0
    case _ => 0.0
  }

  function Does(a: Action, s: Basis): (r: Basis)
    ensures |r.bits| == |s.bits|
  {
    Basis(Permuted(a, s.bits), Frac(s.turns + Given(a, s.bits)))
  }

  function Undoes(a: Action, s: Basis): (r: Basis)
    ensures |r.bits| == |s.bits|
  {
    var before := Permuted(a, s.bits);
    Basis(before, Frac(s.turns - Given(a, before)))
  }

  function LeafAction(reg: Registry, pi: real, l: Leaf): Action
    requires pi != 0.0
  {
    if l.Placed? then ActionOf(reg, pi, l.gate, QubitTargets(l.qubits)) else Nothing
  }

  function PhaseModel(reg: Registry, pi: real): Model<Basis>
    requires pi != 0.0
  {
    Model((l, s) => Does(LeafAction(reg, pi, l), s), (l, s) => Undoes(LeafAction(reg, pi, l), s))
  }

  // ── Laws of phases ─────────────────────────────────────────────────────────

  lemma FracAdds(x: real, y: real)
    ensures Frac(Frac(x) + y) == Frac(x + y)
  {
    var n := x.Floor;
    assert (x + y - n as real).Floor == (x + y).Floor - n;
  }

  lemma FracWhole(x: real, n: int)
    ensures Frac(x + n as real) == Frac(x)
  {
    assert (x + n as real).Floor == x.Floor + n;
  }

  lemma PermutedTwice(a: Action, bits: seq<bool>)
    ensures Permuted(a, Permuted(a, bits)) == bits
  {
  }

  /** Undoing undoes. */
  lemma DoesThenUndoes(a: Action, s: Basis)
    ensures Undoes(a, Does(a, s)) == s && Does(a, Undoes(a, s)) == s
  {
    PermutedTwice(a, s.bits);
    var g := Given(a, s.bits);
    FracAdds(s.turns + g, -g);
    assert s.turns + g + -g == s.turns;
    var h := Given(a, Permuted(a, s.bits));
    FracAdds(s.turns - h, h);
    assert s.turns - h + h == s.turns;
  }

  /** A phase common to all states passes through every gate. */
  lemma DoesTurned(a: Action, s: Basis, d: real)
    ensures Does(a, Turned(s, d)) == Turned(Does(a, s), d)
    ensures Undoes(a, Turned(s, d)) == Turned(Undoes(a, s), d)
  {
    var g := Given(a, s.bits);
    FracAdds(s.turns + d, g);
    FracAdds(s.turns + g, d);
    assert s.turns + d + g == s.turns + g + d;
    var h := Given(a, Permuted(a, s.bits));
    FracAdds(s.turns + d, -h);
    FracAdds(s.turns - h, d);
    assert s.turns + d + -h == s.turns - h + d;
  }

  lemma {:induction false} RunTurned(reg: Registry, pi: real, ls: seq<Leaf>, fwd: bool, s: Basis, d: real)
    requires pi != 0.0
    ensures Run(PhaseModel(reg, pi), ls, fwd, 0, Turned(s, d)) == Turned(Run(PhaseModel(reg, pi), ls, fwd, 0, s), d)
  {
    if ls != [] {
      var (m, l) := (PhaseModel(reg, pi), ShiftLeaf(ls[0], 0));
      if fwd {
        DoesTurned(LeafAction(reg, pi, l), s, d);
        RunTurned(reg, pi, ls[1..], fwd, Step(m, l, fwd, s), d);
      } else {
        RunTurned(reg, pi, ls[1..], fwd, s, d);
        DoesTurned(LeafAction(reg, pi, l), Run(m, ls[1..], fwd, 0, s), d);
      }
    }
  }

  // ── The registry's inverses ────────────────────────────────────────────────

  predicate Whole(x: real) { x == x.Floor as real }

  /** `b` undoes `a`: it permutes the same way and gives back what `a` gave, up to full turns. */
  ghost predicate Opposite(a: Action, b: Action) {
    forall bits: seq<bool> ::
      Permuted(b, bits) == Permuted(a, bits) && Whole(Given(b, bits) + Given(a, Permuted(a, bits)))
  }

  lemma OppositeUndoes(a: Action, b: Action, s: Basis)
    requires Opposite(a, b)
    ensures Does(b, s) == Undoes(a, s) && Undoes(b, s) == Does(a, s)
  {
    var before := Permuted(a, s.bits);
    assert Permuted(b, s.bits) == before && Permuted(b, before) == Permuted(a, before);
    PermutedTwice(a, s.bits);
    var x, y := Given(b, s.bits) + Given(a, before), Given(b, before) + Given(a, Permuted(a, before));
    FracWhole(s.turns - Given(a, before), x.Floor);
    assert s.turns + Given(b, s.bits) == s.turns - Given(a, before) + x;
    FracWhole(s.turns + Given(a, s.bits), -(y.Floor));
    assert s.turns - Given(b, before) == s.turns + Given(a, s.bits) + -y;
  }

  /** The inverses of the gates modelled here. */
  function InverseOf(name: Name): Option<Name> {
    if name == "S" then Some("S_dag") else if name == "S_dag" then Some("S")
    else if name == "T" then Some("T_dag") else if name == "T_dag" then Some("T")
    else if name in {"I", "X", "Y", "Z", "CNOT", "CY", "CZ", "SWAP"} then Some(name)
    else None
  }

  /** The registry lists the gates modelled here under these names, with these inverses. */
  ghost predicate ListsPhaseGates(reg: Registry) {
    forall n {:trigger reg.lookup(n)} :: InverseOf(n).Some? ==>
      && reg.lookup(n).Some? && reg.lookup(n).value.id == n && reg.lookup(n).value.inverse == InverseOf(n).value
  }

  lemma OneOpposite(flips: bool, p0: real, p1: real, q0: real, q1: real, t: nat)
    requires if flips then Whole(q0 + p1) && Whole(q1 + p0) else Whole(q0 + p0) && Whole(q1 + p1)
    ensures Opposite(OnOne(flips, p0, p1, t), OnOne(flips, q0, q1, t))
  {
  }

  lemma ControlledOpposite(flips: bool, p0: real, p1: real, q0: real, q1: real, c: nat, t: nat)
    requires if flips then Whole(q0 + p1) && Whole(q1 + p0) else Whole(q0 + p0) && Whole(q1 + p1)
    ensures Opposite(ControlledOne(flips, p0, p1, c, t), ControlledOne(flips, q0, q1, c, t))
  {
  }

  lemma PlainOpposite(a: nat, b: nat)
    ensures Opposite(Nothing, Nothing) && Opposite(Exchange(a, b), Exchange(a, b))
  {
    hide Permuted;
    assert Whole(0.0);
  }

  lemma FixedOpposite(name: Name, ts: seq<nat>)
    ensures InverseOf(name).Some? ==> Opposite(FixedAction(name, ts), FixedAction(InverseOf(name).value, ts))
    ensures InverseOf(name).None? ==> FixedAction(name, ts) == Nothing && Opposite(Nothing, Nothing)
  {
    hide Opposite;
    PlainOpposite(0, 0);
    if |ts| == 1 {
      var t := ts[0];
      OneOpposite(true, 0.0, 0.0, 0.0, 0.0, t);
      OneOpposite(true, 0.25, -0.25, 0.25, -0.25, t);
      OneOpposite(false, 0.0, 0.5, 0.0, 0.5, t);
      OneOpposite(false, 0.0, 0.25, 0.0, -0.25, t);
      OneOpposite(false, 0.0, -0.25, 0.0, 0.25, t);
      OneOpposite(false, 0.0, 0.125, 0.0, -0.125, t);
      OneOpposite(false, 0.0, -0.125, 0.0, 0.125, t);
    } else if |ts| == 2 {
      var c, t := ts[0], ts[1];
      ControlledOpposite(true, 0.0, 0.0, 0.0, 0.0, c, t);
      ControlledOpposite(true, 0.25, -0.25, 0.25, -0.25, c, t);
      ControlledOpposite(false, 0.0, 0.5, 0.0, 0.5, c, t);
      PlainOpposite(c, t);
    }
  }

  lemma RzOpposite(pi: real, angle: real, t: nat)
    requires pi != 0.0
    ensures Opposite(RzAction(pi, angle, t), RzAction(pi, -angle, t))
  {
    TurnsNegated(pi, angle);
  }

  lemma TurnsNegated(pi: real, angle: real)
    requires pi != 0.0
    ensures Turns(pi, -angle) == -Turns(pi, angle)
  {
    assert (-angle) / (2.0 * pi) == -(angle / (2.0 * pi));
  }

  lemma InverseIsOpposite(reg: Registry, pi: real, g: Expr, ts: seq<nat>)
    requires pi != 0.0 && Lawful(reg) && ListsPhaseGates(reg) && InvertGate(reg, g).Ok?
    ensures Opposite(ActionOf(reg, pi, g, ts), ActionOf(reg, pi, InvertGate(reg, g).value, ts))
  {
    hide Opposite, FixedAction, InverseOf, Lawful, ListsPhaseGates, Spelled, InverseName;
    match g
    case Var(name) =>
      FixedOpposite(Spelled(reg, name), ts);
      SpelledInverse(reg, name);
      FixedOpposite(Spelled(reg, InverseName(reg, name)), ts);
    case App(f, x) =>
      PlainOpposite(0, 0);
      if f == Var("Rz") && |ts| == 1 { RzOpposite(pi, AngleOf(x), ts[0]); }
    case _ =>
  }

  lemma SpelledInverse(reg: Registry, name: Name)
    requires Lawful(reg) && ListsPhaseGates(reg)
    ensures var (id, inv) := (Spelled(reg, name), Spelled(reg, InverseName(reg, name)));
            if InverseOf(id).Some? then inv == InverseOf(id).value else InverseOf(inv).None?
  {
    match reg.lookup(name)
    case None => assert InverseOf(name).None?;
    case Some(g) =>
      assert reg.lookup(g.id) == Some(g);
      assert reg.lookup(g.inverse).Some? && reg.lookup(g.inverse).value.inverse == g.id;
  }

  /** In this semantics the registry's inverse of a gate undoes it. */
  lemma PhaseInverses(reg: Registry, pi: real)
    requires pi != 0.0 && Lawful(reg) && ListsPhaseGates(reg)
    ensures InverseLaw(reg, PhaseModel(reg, pi))
  {
    var m := PhaseModel(reg, pi);
    forall g, q, s: Basis ensures InverseAt(reg, m, g, q, s) {
      if InvertGate(reg, g).Ok? {
        var ts := QubitTargets(q);
        InverseIsOpposite(reg, pi, g, ts);
        OppositeUndoes(ActionOf(reg, pi, g, ts), ActionOf(reg, pi, InvertGate(reg, g).value, ts), s);
      }
    }
  }
}
