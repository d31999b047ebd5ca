/** From a source expression to the gates read back from its lowered function: what they compute in the
    phase semantics is what the expression denotes. */
module LoweringMeaning {
  import opened Ast
  import opened Classical
  import opened GateTree
  import opened CircuitForms
  import opened Elaborate
  import opened Meaning
  import opened RunLaws
  import opened Phase
  import opened Control
  import opened MeaningProof
  import opened Ssa
  import opened Threading
  import opened CircExtract
  import opened CircLaws
  import opened GateSpecs
  import opened Lowering

  // ── Wire gates in the phase semantics ──────────────────────────────────────

  /** What a gate on wires does, by its registered spelling. */
  function GateAction(reg: Registry, pi: real, g: WireGate): Action
    requires pi != 0.0
  {
    match g.angle
    case None => FixedAction(Spelled(reg, g.name), g.qubits)
    case Some(a) => if g.name == "Rz" && |g.qubits| == 1 then RzAction(pi, a, g.qubits[0]) else Nothing
  }

  /** Runs a gate list left to right. */
  function RunGates(reg: Registry, pi: real, gs: seq<WireGate>, s: Basis): Basis
    requires pi != 0.0
    decreases |gs|
  {
    if gs == [] then s else RunGates(reg, pi, gs[1..], Does(GateAction(reg, pi, gs[0]), s))
  }

  /** A rotation has one argument. */
  predicate OneArgument(l: Leaf) { l.Placed? && l.gate.App? ==> !l.gate.fn.App? }

  /** A rotation goes by its registered name. */
  predicate RotationAsRegistered(reg: Registry, g: WireGate) { g.angle.Some? ==> Spelled(reg, g.name) == g.name }

  lemma AskedActs(reg: Registry, pi: real, types: GateTypes, l: Leaf, g: WireGate)
    requires pi != 0.0 && AsksFor(types, l, g) && OneArgument(l)
    ensures GateAction(reg, pi, g) == LeafAction(reg, pi, l)
  {
    hide QubitTargets, FixedAction, RzAction, Writes, Spelled;
    WritesTargets(l.qubits, g.qubits);
    if g.angle.Some? {
      assert l.gate.App? && !FirstArg(l.gate.fn, g.name, Float(g.angle.value));
      assert l.gate == App(Var(g.name), Float(g.angle.value));
    }
  }

  lemma CanonizedActs(reg: Registry, pi: real, g: WireGate)
    requires pi != 0.0 && Lawful(reg) && RotationAsRegistered(reg, g)
    ensures GateAction(reg, pi, Canonized(reg, g)) == GateAction(reg, pi, g)
  {
    hide FixedAction, RzAction;
    assert Spelled(reg, Spelled(reg, g.name)) == Spelled(reg, g.name);
  }

  lemma {:induction false} GatesActAlike(reg: Registry, pi: real, gs: seq<WireGate>, acts: seq<Action>, s: Basis)
    requires pi != 0.0 && |gs| == |acts| && forall i | 0 <= i < |gs| :: GateAction(reg, pi, gs[i]) == acts[i]
    ensures RunGates(reg, pi, gs, s) == DoAll(acts, s)
    decreases |gs|
  {
    if gs != [] {
      hide GateAction, Does;
      GatesActAlike(reg, pi, gs[1..], acts[1..], Does(acts[0], s));
    }
  }

  /** The gates a body asks for, spelled as the registry does, act as the body. */
  lemma AskedGatesAct(reg: Registry, pi: real, types: GateTypes, body: Expr, gs: seq<WireGate>, s: Basis)
    requires pi != 0.0 && Lawful(reg) && BodyAsksFor(types, body, gs)
    requires forall i | 0 <= i < |gs| :: OneArgument(Leaves(body)[i]) && RotationAsRegistered(reg, gs[i])
    ensures RunGates(reg, pi, CanonizedAll(reg, gs), s) == Run(PhaseModel(reg, pi), Leaves(body), true, 0, s)
  {
    hide Lawful, AsksFor, Emittable, OneArgument, RotationAsRegistered, GateAction, Canonized, RunGates, Run, PhaseModel, LeafAction,
      Leaves;
    var ls := Leaves(body);
    forall i | 0 <= i < |gs| ensures GateAction(reg, pi, CanonizedAll(reg, gs)[i]) == LeafAction(reg, pi, ls[i]) {
      AskedActs(reg, pi, types, ls[i], gs[i]);
      CanonizedActs(reg, pi, gs[i]);
    }
    GatesActAlike(reg, pi, CanonizedAll(reg, gs), ActionsOf(reg, pi, ls), s);
    RunIsDoAll(reg, pi, ls, s);
  }

  // ── The whole way ──────────────────────────────────────────────────────────

  /** Elaboration succeeds with `body`. */
  predicate ElaboratesTo(c: Ctx, e: Expr, env: Env, fuel: nat, exp: set<Name>, body: Expr) {
    Elab(c, e, env, fuel, exp).Done? && Elab(c, e, env, fuel, exp).value == body
  }

  /** Elaborating, lowering and extracting keep the meaning: when `gs` are the gates that the elaborated
      body asks for, and they fit the arguments, extraction gets a circuit from the function that
      lowering emits, and that circuit acts as the source expression denotes. */
  lemma CompilingKeepsMeaning(c: Ctx, pi: real, types: GateTypes, e: Expr, env: Env, fuel: nat, exp: set<Name>, d: nat,
                              body: Expr, gs: seq<WireGate>, args: seq<ValueId>, next: ValueId, r: Seam<CircIr>, s: Basis)
    requires pi != 0.0 && Lawful(c.reg) && Setting(c, PhaseModel(c.reg, pi)) && Clean(c, e, env, fuel, exp) && d > fuel
    requires ElaboratesTo(c, e, env, fuel, exp, body) && BodyAsksFor(types, body, gs)
    requires forall l | l in Leaves(body) :: OneArgument(l)
    requires Distinct(args) && (forall v | v in args :: v < next) && AllOnWires(gs, |args|)
    requires forall i | 0 <= i < |gs| :: Known(c.reg, gs[i]) && RotationAsRegistered(c.reg, gs[i])
    requires Extracts(c.reg, args, Finished(EmitAll(Threading.Start(args, next), gs)), r)
    ensures r.Got? && r.value.nQubits == |args|
    ensures Den(c, PhaseModel(c.reg, pi), e, env, d, true, 0, s) == Some(RunGates(c.reg, pi, r.value.gates, s))
  {
    hide *;
    ElaboratedMeans(c, PhaseModel(c.reg, pi), e, env, fuel, exp, d, body, s);
    ExtractAfterLowering(c.reg, args, next, gs, r);
    AskedAreLeaves(types, body, gs);
    AskedGatesAct(c.reg, pi, types, body, gs, s);
  }

  lemma ElaboratedMeans<S(!new)>(c: Ctx, m: Model<S>, e: Expr, env: Env, fuel: nat, exp: set<Name>, d: nat, body: Expr, s: S)
    requires Setting(c, m) && Clean(c, e, env, fuel, exp) && d > fuel && ElaboratesTo(c, e, env, fuel, exp, body)
    ensures Den(c, m, e, env, d, true, 0, s) == Some(Run(m, Leaves(body), true, 0, s))
  {
    hide Elab, Den, Leaves, Run, Clean;
    ElaborationPreservesMeaning(c, m, e, env, fuel, exp, d, true, 0, s);
  }

  lemma AskedAreLeaves(types: GateTypes, body: Expr, gs: seq<WireGate>)
    requires BodyAsksFor(types, body, gs)
    ensures |gs| == |Leaves(body)|
  {
  }
}
