/** The exact phase semantics is a model of the laws that the general results ask of one. */
module PhaseLaws {
  import opened Ast
  import opened Classical
  import opened GateTree
  import opened CircuitForms
  import opened Meaning
  import opened RunLaws
  import opened GateTreeLaws
  import opened WireLaws
  import opened Phase

  /** The wires an action reads or writes. */
  function Support(a: Action): set<nat> {
    match a
    case Nothing => {}
    case OnOne(_, _, _, t) => {t}
    case ControlledOne(_, _, _, c, t) => {c, t}
    case Exchange(a, b) => {a, b}
  }

  lemma SupportInWires(reg: Registry, pi: real, l: Leaf)
    requires pi != 0.0
    ensures Support(LeafAction(reg, pi, l)) <= Wires(l)
  {
    if l.Placed? {
      var ts := QubitTargets(l.qubits);
      hide Spelled, QubitTargets;
      assert forall i | 0 <= i < |ts| :: ts[i] in Wires(l);
    }
  }

  /** Actions on different wires leave each other's wires alone. */
  lemma BitsElsewhere(a: Action, bits: seq<bool>, q: nat)
    requires q !in Support(a) && q < |bits|
    ensures Permuted(a, bits)[q] == bits[q]
  {
  }

  lemma GivenElsewhere(a: Action, b: Action, bits: seq<bool>)
    requires Support(a) !! Support(b)
    ensures Given(a, Permuted(b, bits)) == Given(a, bits)
  {
    hide Permuted;
    forall q: nat | q in Support(a) && q < |bits| ensures Permuted(b, bits)[q] == bits[q] { BitsElsewhere(b, bits, q); }
  }

  /** What an action does to a bit, from the bits it reads. */
  lemma BitsFrom(a: Action, bits: seq<bool>, other: seq<bool>, q: nat)
    requires |bits| == |other| && q < |bits| && q in Support(a)
    requires forall r: nat | r in Support(a) && r < |bits| :: bits[r] == other[r]
    ensures Permuted(a, bits)[q] == Permuted(a, other)[q]
  {
  }

  lemma BitsCommute(a: Action, b: Action, bits: seq<bool>)
    requires Support(a) !! Support(b)
    ensures Permuted(a, Permuted(b, bits)) == Permuted(b, Permuted(a, bits))
  {
    hide Permuted;
    var (ab, ba) := (Permuted(a, Permuted(b, bits)), Permuted(b, Permuted(a, bits)));
    forall q | 0 <= q < |bits| ensures ab[q] == ba[q] {
      if q in Support(a) { OneSide(a, b, bits, q); }
      else if q in Support(b) { OneSide(b, a, bits, q); }
      else {
        BitsElsewhere(a, Permuted(b, bits), q);
        BitsElsewhere(b, bits, q);
        BitsElsewhere(b, Permuted(a, bits), q);
        BitsElsewhere(a, bits, q);
      }
    }
  }

  lemma OneSide(a: Action, b: Action, bits: seq<bool>, q: nat)
    requires Support(a) !! Support(b) && q in Support(a) && q < |bits|
    ensures Permuted(a, Permuted(b, bits))[q] == Permuted(a, bits)[q] == Permuted(b, Permuted(a, bits))[q]
  {
    hide Permuted;
    forall r: nat | r in Support(a) && r < |bits| ensures Permuted(b, bits)[r] == bits[r] { BitsElsewhere(b, bits, r); }
    BitsFrom(a, Permuted(b, bits), bits, q);
    BitsElsewhere(b, Permuted(a, bits), q);
  }

  lemma ActionsCommute(a: Action, b: Action, s: Basis)
    requires Support(a) !! Support(b)
    ensures Does(a, Does(b, s)) == Does(b, Does(a, s))
  {
    hide Permuted, Given, Frac;
    BitsCommute(a, b, s.bits);
    GivenElsewhere(a, b, s.bits);
    GivenElsewhere(b, a, s.bits);
    var (x, y) := (Given(a, s.bits), Given(b, s.bits));
    FracAdds(s.turns + y, x);
    FracAdds(s.turns + x, y);
    assert s.turns + y + x == s.turns + x + y;
  }

  /** Gates on disjoint wires commute in the phase semantics. */
  lemma PhaseIsLocal(reg: Registry, pi: real)
    requires pi != 0.0
    ensures LocalLaw(PhaseModel(reg, pi))
  {
    hide Does, WellPlaced, Wires;
    var m := PhaseModel(reg, pi);
    forall a: Leaf, b: Leaf, s: Basis ensures CommutesAt(m, a, b, s) {
      if WellPlaced(a) && WellPlaced(b) && Wires(a) !! Wires(b) {
        SupportInWires(reg, pi, a);
        SupportInWires(reg, pi, b);
        ActionsCommute(LeafAction(reg, pi, a), LeafAction(reg, pi, b), s);
      }
    }
  }

  /** The undo of each gate undoes it in the phase semantics. */
  lemma PhaseCancels(reg: Registry, pi: real)
    requires pi != 0.0
    ensures CancelLaw(PhaseModel(reg, pi))
  {
    hide Does, Undoes, LeafAction;
    var m := PhaseModel(reg, pi);
    forall l: Leaf, s: Basis ensures Cancels(m, l, s) { DoesThenUndoes(LeafAction(reg, pi, l), s); }
  }
}
