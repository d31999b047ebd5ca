/** Controlled gate sequences: what the control gadgets do, and how control composes. */
module Control {
  import opened Ast
  import opened Classical
  import opened GateTree
  import opened CircuitForms
  import opened Meaning
  import opened RunLaws
  import opened GateTreeLaws
  import opened Phase

  // ── Sequences of actions ───────────────────────────────────────────────────

  function PermAll(acts: seq<Action>, bits: seq<bool>): (r: seq<bool>)
    ensures |r| == |bits|
  {
    if acts == [] then bits else PermAll(acts[1..], Permuted(acts[0], bits))
  }

  function GivenAll(acts: seq<Action>, bits: seq<bool>): real {
    if acts == [] then 0.0 else Given(acts[0], bits) + GivenAll(acts[1..], Permuted(acts[0], bits))
  }

  function ActionsOf(reg: Registry, pi: real, ls: seq<Leaf>): (acts: seq<Action>)
    requires pi != 0.0
    ensures |acts| == |ls| && forall i | 0 <= i < |ls| :: acts[i] == LeafAction(reg, pi, ls[i])
  {
    seq(|ls|, i requires 0 <= i < |ls| => LeafAction(reg, pi, ls[i]))
  }

  function DoAll(acts: seq<Action>, s: Basis): Basis {
    if acts == [] then s else DoAll(acts[1..], Does(acts[0], s))
  }

  lemma {:induction false} DoAllSums(acts: seq<Action>, s: Basis)
    ensures DoAll(acts, s) == Basis(PermAll(acts, s.bits), Frac(s.turns + GivenAll(acts, s.bits)))
  {
    if acts != [] {
      hide Frac, Given, Permuted;
      var a := acts[0];
      DoAllSums(acts[1..], Does(a, s));
      FracAddsThree(s.turns, Given(a, s.bits), GivenAll(acts[1..], Permuted(a, s.bits)));
    }
  }

  lemma {:induction false} RunIsDoAll(reg: Registry, pi: real, ls: seq<Leaf>, s: Basis)
    requires pi != 0.0
    ensures Run(PhaseModel(reg, pi), ls, true, 0, s) == DoAll(ActionsOf(reg, pi, ls), s)
  {
    if ls != [] {
      hide LeafAction, Run, Does, PhaseModel;
      FirstLeaf(reg, pi, ls, s);
      RunIsDoAll(reg, pi, ls[1..], Does(LeafAction(reg, pi, ls[0]), s));
      assert ActionsOf(reg, pi, ls)[1..] == ActionsOf(reg, pi, ls[1..]);
    }
  }

  /** Running gates permutes the bits and adds up the turns. */
  lemma RunSums(reg: Registry, pi: real, ls: seq<Leaf>, s: Basis)
    requires pi != 0.0
    ensures var acts := ActionsOf(reg, pi, ls);
            Run(PhaseModel(reg, pi), ls, true, 0, s)
              == Basis(PermAll(acts, s.bits), Frac(s.turns + GivenAll(acts, s.bits)))
  {
    hide *;
    RunIsDoAll(reg, pi, ls, s);
    DoAllSums(ActionsOf(reg, pi, ls), s);
  }

  lemma FirstLeaf(reg: Registry, pi: real, ls: seq<Leaf>, s: Basis)
    requires pi != 0.0 && ls != []
    ensures var m := PhaseModel(reg, pi);
            Run(m, ls, true, 0, s) == Run(m, ls[1..], true, 0, Does(LeafAction(reg, pi, ls[0]), s))
  {
    hide LeafAction, Does;
    if ls[0].Placed? { ShiftTargetsTwice(ls[0].qubits, 0, 0); }
    assert ShiftLeaf(ls[0], 0) == ls[0];
  }

  lemma FracAddsThree(x: real, y: real, z: real)
    ensures Frac(Frac(x + y) + z) == Frac(x + (y + z))
  {
    FracAdds(x + y, z);
    assert x + y + z == x + (y + z);
  }

  lemma {:induction false} SumsConcat(a: seq<Action>, b: seq<Action>, bits: seq<bool>)
    ensures PermAll(a + b, bits) == PermAll(b, PermAll(a, bits))
    ensures GivenAll(a + b, bits) == GivenAll(a, bits) + GivenAll(b, PermAll(a, bits))
  {
    if a == [] {
      assert a + b == b;
    } else {
      assert (a + b)[1..] == a[1..] + b;
      SumsConcat(a[1..], b, Permuted(a[0], bits));
    }
  }

  lemma WholeSum(x: real, y: real)
    requires Whole(x) && Whole(y)
    ensures Whole(x + y) && Whole(x - y) && Whole(-x)
  {
    assert (x + y).Floor == x.Floor + y.Floor && (x - y).Floor == x.Floor - y.Floor && (-x).Floor == -(x.Floor);
  }

  lemma WholeIs(x: real, y: real, z: real)
    requires Whole(x) && Whole(y) && (z == x + y || z == x - y)
    ensures Whole(z)
  {
    WholeSum(x, y);
  }

  // ── Control ────────────────────────────────────────────────────────────────

  /** On registers of `n` wires, `t` does `b` when the control bit is set and nothing when it is not,
      up to one phase `alpha` for all states. */
  ghost predicate Controls(n: nat, ctrl: nat, t: seq<Action>, b: seq<Action>, alpha: real)
    requires ctrl < n
  {
    forall bits: seq<bool> | |bits| == n :: ControlsAt(ctrl, t, b, alpha, bits)
  }

  ghost predicate ControlsAt(ctrl: nat, t: seq<Action>, b: seq<Action>, alpha: real, bits: seq<bool>)
    requires ctrl < |bits|
  {
    && PermAll(t, bits) == (if bits[ctrl] then PermAll(b, bits) else bits)
    && Whole(GivenAll(t, bits) - alpha - (if bits[ctrl] then GivenAll(b, bits) else 0.0))
  }

  /** The body acts on single wires other than the control. */
  predicate Avoids(b: seq<Action>, ctrl: nat) {
    forall i | 0 <= i < |b| :: b[i].Nothing? || (b[i].OnOne? && b[i].t != ctrl)
  }

  lemma {:induction false} AvoidsKeeps(b: seq<Action>, ctrl: nat, bits: seq<bool>)
    requires Avoids(b, ctrl) && ctrl < |bits|
    ensures PermAll(b, bits)[ctrl] == bits[ctrl]
  {
    if b != [] { AvoidsKeeps(b[1..], ctrl, Permuted(b[0], bits)); }
  }

  lemma ControlsNothing(n: nat, ctrl: nat)
    requires ctrl < n
    ensures Controls(n, ctrl, [], [], 0.0)
  {
    assert Whole(0.0);
  }

  /** Control of a sequence is the controls in sequence. */
  lemma ControlsConcat(n: nat, ctrl: nat, t1: seq<Action>, b1: seq<Action>, a1: real, t2: seq<Action>, b2: seq<Action>, a2: real)
    requires ctrl < n && Controls(n, ctrl, t1, b1, a1) && Controls(n, ctrl, t2, b2, a2) && Avoids(b1, ctrl)
    ensures Controls(n, ctrl, t1 + t2, b1 + b2, a1 + a2)
  {
    hide ControlsAt, Avoids;
    forall bits: seq<bool> | |bits| == n ensures ControlsAt(ctrl, t1 + t2, b1 + b2, a1 + a2, bits) {
      AvoidsKeeps(b1, ctrl, bits);
      assert ControlsAt(ctrl, t1, b1, a1, bits);
      var mid := PermAll(t1, bits);
      assert ControlsAt(ctrl, t2, b2, a2, mid);
      ConcatAt(ctrl, t1, b1, a1, t2, b2, a2, bits);
    }
  }

  lemma ConcatAt(ctrl: nat, t1: seq<Action>, b1: seq<Action>, a1: real, t2: seq<Action>, b2: seq<Action>, a2: real, bits: seq<bool>)
    requires ctrl < |bits| && ControlsAt(ctrl, t1, b1, a1, bits) && ControlsAt(ctrl, t2, b2, a2, PermAll(t1, bits))
    requires PermAll(b1, bits)[ctrl] == bits[ctrl]
    ensures ControlsAt(ctrl, t1 + t2, b1 + b2, a1 + a2, bits)
  {
    hide PermAll, GivenAll, Whole;
    var mid := PermAll(t1, bits);
    SumsConcat(t1, t2, bits);
    SumsConcat(b1, b2, bits);
    var (g1, g2) := (GivenAll(t1, bits), GivenAll(t2, mid));
    if bits[ctrl] {
      var (h1, h2) := (GivenAll(b1, bits), GivenAll(b2, mid));
      WholeIs(g1 - a1 - h1, g2 - a2 - h2, (g1 + g2) - (a1 + a2) - (h1 + h2));
    } else {
      WholeIs(g1 - a1 - 0.0, g2 - a2 - 0.0, (g1 + g2) - (a1 + a2) - 0.0);
    }
  }

  // ── Adjoint ────────────────────────────────────────────────────────────────

  /** `b` runs `a` backwards. */
  ghost predicate Reverses(a: seq<Action>, b: seq<Action>) {
    forall bits: seq<bool> :: ReversesAt(a, b, bits)
  }

  ghost predicate ReversesAt(a: seq<Action>, b: seq<Action>, bits: seq<bool>) {
    TakesBack(a, b, bits) && TakesBack(b, a, bits)
  }

  /** `b` takes back what `a` does to `bits`. */
  ghost predicate TakesBack(a: seq<Action>, b: seq<Action>, bits: seq<bool>) {
    PermAll(b, PermAll(a, bits)) == bits && Whole(GivenAll(a, bits) + GivenAll(b, PermAll(a, bits)))
  }

  lemma OppositeReverses(a: Action, b: Action)
    requires Opposite(a, b)
    ensures Reverses([a], [b])
  {
    hide Permuted, Given, TakesBack;
    forall bits: seq<bool> ensures ReversesAt([a], [b], bits) {
      PermutedTwice(a, bits);
      var x := Permuted(a, bits);
      assert Permuted(b, bits) == x && Permuted(b, x) == Permuted(a, x);
      assert Whole(Given(b, bits) + Given(a, x)) && Whole(Given(b, x) + Given(a, Permuted(a, x)));
      OneTakesBack(a, b, bits);
      OneTakesBack(b, a, bits);
    }
  }

  lemma OneTakesBack(a: Action, b: Action, bits: seq<bool>)
    requires Permuted(b, Permuted(a, bits)) == bits && Whole(Given(a, bits) + Given(b, Permuted(a, bits)))
    ensures TakesBack([a], [b], bits)
  {
    hide Permuted, Given, Whole;
    OneSum(a, bits);
    OneSum(b, Permuted(a, bits));
  }

  lemma OneSum(a: Action, bits: seq<bool>)
    ensures PermAll([a], bits) == Permuted(a, bits) && GivenAll([a], bits) == Given(a, bits)
  {
    hide Permuted, Given;
    assert [a][1..] == [];
  }

  lemma ReversesConcat(a1: seq<Action>, b1: seq<Action>, a2: seq<Action>, b2: seq<Action>)
    requires Reverses(a1, b1) && Reverses(a2, b2)
    ensures Reverses(a1 + a2, b2 + b1)
  {
    hide TakesBack;
    forall bits: seq<bool> ensures ReversesAt(a1 + a2, b2 + b1, bits) {
      assert ReversesAt(a1, b1, bits) && ReversesAt(a2, b2, bits);
      assert ReversesAt(a2, b2, PermAll(a1, bits)) && ReversesAt(a1, b1, PermAll(b2, bits));
      HalfConcat(a1, b1, a2, b2, bits);
      HalfConcat(b2, a2, b1, a1, bits);
    }
  }

  lemma HalfConcat(a1: seq<Action>, b1: seq<Action>, a2: seq<Action>, b2: seq<Action>, bits: seq<bool>)
    requires TakesBack(a1, b1, bits) && TakesBack(a2, b2, PermAll(a1, bits))
    ensures TakesBack(a1 + a2, b2 + b1, bits)
  {
    hide PermAll, GivenAll, Whole;
    var x := PermAll(a1, bits);
    SumsConcat(a1, a2, bits);
    SumsConcat(b2, b1, PermAll(a1 + a2, bits));
    var (g1, h1, g2, h2) := (GivenAll(a1, bits), GivenAll(b1, x), GivenAll(a2, x), GivenAll(b2, PermAll(a2, x)));
    WholeIs(g1 + h1, g2 + h2, (g1 + g2) + (h2 + h1));
  }

  /** Inverting every leaf and reversing the order runs the actions backwards. */
  lemma {:induction false} InvertedReverses(reg: Registry, pi: real, ls: seq<Leaf>)
    requires pi != 0.0 && Lawful(reg) && ListsPhaseGates(reg)
    requires forall i | 0 <= i < |ls| :: ls[i].Placed? && InvertGate(reg, ls[i].gate).Ok?
    ensures Reverses(ActionsOf(reg, pi, ls), ActionsOf(reg, pi, InvertAll(reg, ls)))
  {
    if ls == [] {
      assert Whole(0.0);
      assert forall bits: seq<bool> :: ReversesAt([], [], bits);
    } else {
      hide Reverses, Opposite, LeafAction;
      var (l, rest) := (ls[0], ls[1..]);
      var inv := InvertedLeaf(reg, l);
      InvertedReverses(reg, pi, rest);
      LeafOpposite(reg, pi, l);
      var (a, b) := (LeafAction(reg, pi, l), LeafAction(reg, pi, inv));
      OppositeReverses(a, b);
      ReversesConcat([a], [b], ActionsOf(reg, pi, rest), ActionsOf(reg, pi, InvertAll(reg, rest)));
      assert ActionsOf(reg, pi, ls) == [a] + ActionsOf(reg, pi, rest);
      assert ActionsOf(reg, pi, InvertAll(reg, rest) + [inv]) == ActionsOf(reg, pi, InvertAll(reg, rest)) + [b];
    }
  }

  lemma LeafOpposite(reg: Registry, pi: real, l: Leaf)
    requires pi != 0.0 && Lawful(reg) && ListsPhaseGates(reg) && l.Placed? && InvertGate(reg, l.gate).Ok?
    ensures Opposite(LeafAction(reg, pi, l), LeafAction(reg, pi, InvertedLeaf(reg, l)))
  {
    InverseIsOpposite(reg, pi, l.gate, QubitTargets(l.qubits));
  }

  /** Control commutes with adjoint. */
  lemma ControlsAdjoint(n: nat, ctrl: nat, t: seq<Action>, b: seq<Action>, alpha: real, t': seq<Action>, b': seq<Action>)
    requires ctrl < n && Controls(n, ctrl, t, b, alpha)
    requires Reverses(t, t') && Reverses(b, b') && Avoids(b', ctrl)
    ensures Controls(n, ctrl, t', b', -alpha)
  {
    hide ControlsAt, ReversesAt, Avoids;
    forall bits: seq<bool> | |bits| == n ensures ControlsAt(ctrl, t', b', -alpha, bits) {
      AvoidsKeeps(b', ctrl, bits);
      var x := PermAll(b', bits);
      assert ControlsAt(ctrl, t, b, alpha, x) && ControlsAt(ctrl, t, b, alpha, bits);
      assert ReversesAt(t, t', x) && ReversesAt(t, t', bits) && ReversesAt(b, b', bits);
      if bits[ctrl] { AdjointSet(ctrl, t, b, alpha, t', b', bits); } else { AdjointClear(ctrl, t, b, alpha, t', b', bits); }
    }
  }

  lemma AdjointSet(ctrl: nat, t: seq<Action>, b: seq<Action>, alpha: real, t': seq<Action>, b': seq<Action>, bits: seq<bool>)
    requires ctrl < |bits| && bits[ctrl] && PermAll(b', bits)[ctrl]
    requires ControlsAt(ctrl, t, b, alpha, PermAll(b', bits))
    requires ReversesAt(t, t', PermAll(b', bits)) && ReversesAt(b, b', bits)
    ensures ControlsAt(ctrl, t', b', -alpha, bits)
  {
    hide PermAll, GivenAll, Whole;
    var x := PermAll(b', bits);
    var p, q := GivenAll(t, x) + GivenAll(t', bits), GivenAll(t, x) - alpha - GivenAll(b, x);
    var r := GivenAll(b', bits) + GivenAll(b, x);
    WholeSum(p, q);
    WholeSum(p - q, r);
    assert (p - q) - r == GivenAll(t', bits) - -alpha - GivenAll(b', bits);
  }

  lemma AdjointClear(ctrl: nat, t: seq<Action>, b: seq<Action>, alpha: real, t': seq<Action>, b': seq<Action>, bits: seq<bool>)
    requires ctrl < |bits| && !bits[ctrl]
    requires ControlsAt(ctrl, t, b, alpha, bits) && ReversesAt(t, t', bits)
    ensures ControlsAt(ctrl, t', b', -alpha, bits)
  {
    hide PermAll, GivenAll, Whole;
    var p, q := GivenAll(t, bits) + GivenAll(t', bits), GivenAll(t, bits) - alpha - 0.0;
    WholeSum(p, q);
    assert p - q == GivenAll(t', bits) - -alpha - 0.0;
  }

  /** What control means for the states themselves. */
  lemma ControlsStates(reg: Registry, pi: real, n: nat, ctrl: nat, t: seq<Leaf>, b: seq<Leaf>, alpha: real, s: Basis)
    requires pi != 0.0 && ctrl < n && |s.bits| == n
    requires Controls(n, ctrl, ActionsOf(reg, pi, t), ActionsOf(reg, pi, b), alpha)
    ensures var m := PhaseModel(reg, pi);
            Run(m, t, true, 0, s) == Turned(if s.bits[ctrl] then Run(m, b, true, 0, s) else s, alpha)
  {
    hide Run, PermAll, GivenAll, Frac, ActionsOf, ControlsAt;
    var (ta, ba) := (ActionsOf(reg, pi, t), ActionsOf(reg, pi, b));
    assert ControlsAt(ctrl, ta, ba, alpha, s.bits);
    RunSums(reg, pi, t, s);
    RunSums(reg, pi, b, s);
    StatesAt(ctrl, ta, ba, alpha, s);
  }

  lemma StatesAt(ctrl: nat, t: seq<Action>, b: seq<Action>, alpha: real, s: Basis)
    requires ctrl < |s.bits| && ControlsAt(ctrl, t, b, alpha, s.bits)
    ensures Basis(PermAll(t, s.bits), Frac(s.turns + GivenAll(t, s.bits))) ==
              Turned(if s.bits[ctrl] then Basis(PermAll(b, s.bits), Frac(s.turns + GivenAll(b, s.bits))) else s, alpha)
  {
    hide PermAll, GivenAll;
    var given := if s.bits[ctrl] then GivenAll(b, s.bits) else 0.0;
    var x := GivenAll(t, s.bits) - alpha - given;
    FracAdds(s.turns + given, alpha);
    FracWhole(s.turns + given + alpha, x.Floor);
    assert s.turns + given + alpha + x == s.turns + GivenAll(t, s.bits);
  }
}
