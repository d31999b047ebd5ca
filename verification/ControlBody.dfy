/** What the body of `controlled(..)` is: gates on body wires, placed on the target wires. */
module ControlBody {
  import opened Ast
  import opened Classical
  import opened GateTree
  import opened CircuitForms
  import opened Elaborate
  import opened Meaning
  import opened ScopeLaws
  import opened RunLaws
  import opened GateTreeLaws
  import opened Phase
  import opened Control
  import opened Gadgets

  /** A gate of the fragment: a fixed gate, or `Rz` by a literal angle. */
  predicate FragmentGate(g: Expr) {
    match g
    case Var(name) => IsFixed(name)
    case App(f, x) => f == Var("Rz") && IsLiteralAngle(x)
    case _ => false
  }

  /** A fragment gate on one body wire. */
  predicate BodyLeaf(l: Leaf) { l.Placed? && FragmentGate(l.gate) && l.qubits.Int? && l.qubits.i >= 0 }

  predicate BodyLeaves(ls: seq<Leaf>) { forall i | 0 <= i < |ls| :: BodyLeaf(ls[i]) }

  /** Every gate stands on body wire 0. */
  predicate OnWireZero(ls: seq<Leaf>) { forall i | 0 <= i < |ls| :: ls[i].Placed? && ls[i].qubits == Int(0) }

  /** An index that names wire 0. */
  predicate NamesWireZero(q: Expr) { q == Int(0) || q == Tuple([Int(0)]) }

  predicate NamesCallee(c: Ctx, e: Expr) { IsParametricCall(c, e) || ZeroArgCallee(c, e).Some? }

  // ── Target wires ───────────────────────────────────────────────────────────

  /** The target wire of body wire `q`: from a tuple of wires, or counted on from a start index. */
  function WireAt(target: Expr, q: nat): Option<nat> {
    if target.Tuple? then
      if q < |target.items| && target.items[q].Int? && target.items[q].i >= 0 then Some(target.items[q].i) else None
    else if target.Int? && target.i >= 0 then Some(target.i + q)
    else None
  }

  function LeafOn(target: Expr, l: Leaf): Leaf {
    if l.Placed? && l.qubits.Int? && l.qubits.i >= 0 && WireAt(target, l.qubits.i).Some?
    then Placed(l.gate, Int(WireAt(target, l.qubits.i).value))
    else l
  }

  /** The body placed on its target wires. */
  function PlacedOn(target: Expr, ls: seq<Leaf>): (r: seq<Leaf>)
    ensures |r| == |ls| && forall i | 0 <= i < |ls| :: r[i] == LeafOn(target, ls[i])
  {
    seq(|ls|, i requires 0 <= i < |ls| => LeafOn(target, ls[i]))
  }

  /** Every gate of the body has a target wire below `n` other than the control. */
  predicate ClearOf(ls: seq<Leaf>, target: Expr, ctrl: nat, n: nat) {
    forall i | 0 <= i < |ls| :: ClearLeaf(ls[i], target, ctrl, n)
  }

  predicate ClearLeaf(l: Leaf, target: Expr, ctrl: nat, n: nat) {
    BodyLeaf(l) && WireAt(target, l.qubits.i).Some? && WireAt(target, l.qubits.i).value < n
    && WireAt(target, l.qubits.i).value != ctrl
  }

  // ── The body an expression denotes ─────────────────────────────────────────

  ghost predicate IsGateBody(c: Ctx, g: Expr, env: Env, b: seq<Leaf>) {
    match g
    case Var(_) => b == [Placed(g, Int(0))]
    case App(f, x) => b == [Placed(App(f, Subst(c.ops, x, env)), Int(0))]
    case _ => false
  }

  /** `b` lists the gates of the body `e` on the body's own wires. A call stands for the gates it
      elaborates to on its own, whatever is bound where it is controlled. */
  ghost predicate IsBody(c: Ctx, e: Expr, env: Env, exp: set<Name>, b: seq<Leaf>)
    decreases ControlSize(e), 2, 0
  {
    if NamesCallee(c, e) then
      exists fuel: nat, t: Expr, f: nat :: NamedCallee(c, e, CalleeScope(c, e, env), fuel, exp) == Done(Some(t), f) && b == Leaves(t)
    else IsBodyNode(c, e, env, exp, b)
  }

  ghost predicate IsBodyNode(c: Ctx, e: Expr, env: Env, exp: set<Name>, b: seq<Leaf>)
    decreases ControlSize(e), 1, 0
  {
    match e
    case GateApp(g, q) => NamesWireZero(q) && IsGateBody(c, g, env, b)
    case Compose(l, r) => exists b1, b2 :: IsBody(c, l, env, exp, b1) && IsBody(c, r, env, exp, b2) && b == b1 + b2
    case Adjoint(inner) => exists b1 :: IsBody(c, inner, env, exp, b1) && b == InvertAll(c.reg, b1)
    case CircuitBlock(stmts) =>
      BlockBody(c.ops, stmts, env).Ok? && IsBody(c, BlockBody(c.ops, stmts, env).value, env, exp, b)
    case Par(body, count) =>
      var k := Eval(c.ops, count, env, c.ops.probe);
      k.Done? && k.value.VInt? && k.value.i >= 0 && AreCopies(c, body, 0, k.value.i, env, exp, b)
    case ParN(items) => AreArms(c, items, 0, env, exp, b)
    case _ => IsGateBody(c, e, env, b)
  }

  /** Copy `i` of `k` stands on body wire `i`. */
  ghost predicate AreCopies(c: Ctx, body: Expr, i: nat, k: int, env: Env, exp: set<Name>, b: seq<Leaf>)
    decreases ControlSize(body), 3, if k < i then 0 else k - i
  {
    if i >= k then b == []
    else exists b1, b2 :: IsBody(c, body, env, exp, b1) && AreCopies(c, body, i + 1, k, env, exp, b2)
                          && b == ShiftAll(b1, i) + b2
  }

  /** Arm `i` stands on body wire `i`. */
  ghost predicate AreArms(c: Ctx, items: seq<Expr>, i: nat, env: Env, exp: set<Name>, b: seq<Leaf>)
    decreases ControlSizes(items), 3, |items|
  {
    if items == [] then b == []
    else exists b1, b2 :: IsBody(c, items[0], env, exp, b1) && AreArms(c, items[1..], i + 1, env, exp, b2)
                          && b == ShiftAll(b1, i) + b2
  }

  // ── The fragment ───────────────────────────────────────────────────────────

  /** Every leaf of an elaborated callee is a fragment gate on wire 0. */
  predicate FragmentTree(t: Expr) { BodyLeaves(Leaves(t)) && OnWireZero(Leaves(t)) }

  ghost predicate CalleesAre(c: Ctx, e: Expr, env: Env, exp: set<Name>) {
    forall fuel: nat :: CalleeIs(NamedCallee(c, e, CalleeScope(c, e, env), fuel, exp))
  }

  /** A zero-argument function called here mentions no name bound here. */
  ghost predicate CallUnseen(c: Ctx, e: Expr, env: Env) {
    IsParametricCall(c, e) || (ZeroArgCallee(c, e).Some? ==> Unseen(c, ZeroArgCallee(c, e).value, env))
  }

  ghost predicate CalleeIs(r: Out<Option<Expr>>) { r.Done? && r.value.Some? ==> FragmentTree(r.value.value) }

  /** Wherever it can be measured, the arm takes one wire. */
  ghost predicate TakesOneWire(c: Ctx, arm: Expr, env: Env, exp: set<Name>) {
    forall fuel: nat :: WidthIsOne(ArmWidth(c, arm, env, fuel, exp))
  }

  ghost predicate WidthIsOne(r: Out<nat>) { r.Done? ==> r.value == 1 }

  /** Counts are 64-bit integers. */
  predicate CountFits(c: Ctx, count: Expr, env: Env) {
    var k := Eval(c.ops, count, env, c.ops.probe);
    k.Done? && k.value.VInt? ==> FitsI64(k.value.i)
  }

  /** Bodies over I, X, Y, Z, S, T, their daggers and `Rz`, under composition, adjoint, blocks, calls
      that do not see the bindings they are made under,
      and (unless `flat`) `par` of flat arms that take one wire. */
  ghost predicate InFragment(c: Ctx, e: Expr, env: Env, exp: set<Name>, flat: bool)
    decreases ControlSize(e), 2
  {
    if NamesCallee(c, e) then CallUnseen(c, e, env) && CalleesAre(c, e, env, exp)
    else
      match e
      case Var(name) => IsFixed(name)
      case App(f, _) => f == Var("Rz")
      case GateApp(g, q) =>
        NamesWireZero(q) && (match g case Var(name) => IsFixed(name) case App(f, _) => f == Var("Rz") case _ => false)
      case Compose(l, r) => InFragment(c, l, env, exp, flat) && InFragment(c, r, env, exp, flat)
      case Adjoint(inner) => InFragment(c, inner, env, exp, flat)
      case CircuitBlock(stmts) =>
        BlockBody(c.ops, stmts, env).Ok? ==> InFragment(c, BlockBody(c.ops, stmts, env).value, env, exp, flat)
      case Par(body, count) =>
        !flat && CountFits(c, count, env) && InFragment(c, body, env, exp, true) && TakesOneWire(c, body, env, exp)
      case ParN(items) => !flat && |items| <= I64_MAX && ArmsInFragment(c, items, env, exp)
      case _ => false
  }

  ghost predicate ArmsInFragment(c: Ctx, items: seq<Expr>, env: Env, exp: set<Name>)
    decreases ControlSizes(items), 3, |items|
  {
    items == [] ||
      (InFragment(c, items[0], env, exp, true) && TakesOneWire(c, items[0], env, exp) && ArmsInFragment(c, items[1..], env, exp))
  }
}
