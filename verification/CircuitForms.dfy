/** What the elaborator builds its trees from: substitution, shifting, control gadgets, wire slices. */
module CircuitForms {
  import opened Ast
  import opened Classical
  import opened GateTree

  /** `width` is the declared in-width at natural arguments; `None` when the result is no circuit. */
  datatype ParametricDef = ParametricDef(params: seq<Name>, body: Expr, width: Option<map<Name, nat> -> Option<nat>>)

  datatype Ctx = Ctx(reg: Registry, ops: Ops, parametric: map<Name, ParametricDef>, bodies: map<Name, Expr>)

  // ── Classical substitution ─────────────────────────────────────────────────

  function ValueToExpr(v: Value): (r: Expr)
    ensures Residual(r)
  {
    match v
    case VInt(n) => Int(n)
    case VFloat(x) => Float(x)
    case VBool(b) => Bool(b)
    case VUnit => Unit
    case VTuple(items) => Tuple(seq(|items|, i requires 0 <= i < |items| => ValueToExpr(items[i])))
    case VList(items) => List(seq(|items|, i requires 0 <= i < |items| => ValueToExpr(items[i])))
  }

  /** Evaluates `e` if its probe succeeds, and otherwise substitutes inside it. */
  function Subst(ops: Ops, e: Expr, env: Env): (r: Expr)
    ensures e.App? ==> Residual(r)
    decreases e
  {
    var probe := Eval(ops, e, env, ops.probe);
    if probe.Done? then ValueToExpr(probe.value) else SubstInside(ops, e, env)
  }

  function SubstInside(ops: Ops, e: Expr, env: Env): Expr
    decreases e, 0
  {
    match e
    case Neg(inner) => Neg(Subst(ops, inner, env))
    case Bin(op, lhs, rhs) => Bin(op, Subst(ops, lhs, env), Subst(ops, rhs, env))
    case Tuple(items) => Tuple(seq(|items|, i requires 0 <= i < |items| => Subst(ops, items[i], env)))
    case App(f, x) => App(Subst(ops, f, env), Subst(ops, x, env))
    case Compose(l, r) => Compose(Subst(ops, l, env), Subst(ops, r, env))
    case Par(body, count) => Par(Subst(ops, body, env), Subst(ops, count, env))
    case ParN(items) => ParN(seq(|items|, i requires 0 <= i < |items| => Subst(ops, items[i], env)))
    case Adjoint(inner) => Adjoint(Subst(ops, inner, env))
    case Controlled(inner) => Controlled(Subst(ops, inner, env))
    case GateApp(g, q) => GateApp(Subst(ops, g, env), Subst(ops, q, env))
    case _ => e
  }

  /** Binds the leading `let`s of a circuit block. */
  function EvalLets(ops: Ops, stmts: seq<Stmt>, env: Env, fuel: nat): (r: Out<Env>)
    ensures r.Done? ==> r.fuel <= fuel
    decreases |stmts|
  {
    if stmts == [] then Done(env, fuel)
    else if !stmts[0].SLet? then Fail(Unsupported(NonLetStatement))
    else
      var (v, f) :- Eval(ops, stmts[0].rhs, env, fuel);
      var (env', f') :- Lift(BindPat(stmts[0].pat, v, env), f);
      EvalLets(ops, stmts[1..], env', f')
  }

  /** The circuit-level `match`: boolean literal arms are passed over. */
  function CircuitArm(arms: seq<Arm>, v: Value, env: Env): (r: ArmChoice)
    ensures r.Chosen? ==> exists i | 0 <= i < |arms| :: arms[i].body == r.body
  {
    if arms == [] then NoArm(Unsupported(CircuitMatchExhausted))
    else
      match arms[0].pat
      case PLit(IntLit(k)) =>
        if v == VInt(k) then Chosen(arms[0].body, env) else CircuitArm(arms[1..], v, env)
      case PLit(BoolLit(_)) => CircuitArm(arms[1..], v, env)
      case PWild => Chosen(arms[0].body, env)
      case PVar(name) => Chosen(arms[0].body, env[name := v])
      case PTuple(_) => NoArm(Unsupported(CircuitTuplePattern))
  }

  /** The zero-argument callee a bare `f` or `f()` names, if its body is recorded. */
  function ZeroArgCallee(c: Ctx, e: Expr): (r: Option<Name>)
    ensures r.Some? ==> r.value in c.bodies
  {
    var name :=
      match e
      case Var(n) => Some(n)
      case App(f, x) =>
        var (head, args) := FlattenApp(f, x);
        if (forall i | 0 <= i < |args| :: args[i] == Unit) && head.Var? then Some(head.name) else None
      case _ => None;
    if name.Some? && name.value in c.bodies then name else None
  }

  // ── Index shifting ─────────────────────────────────────────────────────────

  function ShiftTargets(qubits: Expr, offset: int): Expr {
    match qubits
    case Int(n) => Int(n + offset)
    case Tuple(items) => Tuple(seq(|items|, i requires 0 <= i < |items| => ShiftTargets(items[i], offset)))
    case _ => qubits
  }

  /** `shift_circuit_indices`, the placement step of `par`. */
  function ShiftCircuit(e: Expr, offset: int): (r: Expr)
    ensures IsGateTree(e) ==> IsGateTree(r) && (IsEmpty(r) <==> IsEmpty(e))
    decreases e
  {
    match e
    case Compose(l, r) => Compose(ShiftCircuit(l, offset), ShiftCircuit(r, offset))
    case Adjoint(inner) => Adjoint(ShiftCircuit(inner, offset))
    case GateApp(g, q) => GateApp(g, ShiftTargets(q, offset))
    case Par(body, count) => Par(ShiftCircuit(body, offset), count)
    case ParN(items) => ParN(seq(|items|, i requires 0 <= i < |items| => ShiftCircuit(items[i], offset)))
    case _ => e
  }

  /** `shift_qubits`, the embedding step of `on_high`. */
  function ShiftQubits(e: Expr, offset: int): (r: Expr)
    ensures IsGateTree(e) ==> IsGateTree(r) && (IsEmpty(r) <==> IsEmpty(e))
  {
    match e
    case Compose(l, r) => Compose(ShiftQubits(l, offset), ShiftQubits(r, offset))
    case GateApp(g, q) => GateApp(g, ShiftTargets(q, offset))
    case Adjoint(inner) => Adjoint(ShiftQubits(inner, offset))
    case _ => e
  }

  // ── Gate gadgets ───────────────────────────────────────────────────────────

  function Gate(name: Name, qubits: Expr): Expr { GateApp(Var(name), qubits) }

  function Rotation(name: Name, angle: Expr, qubits: Expr): Expr { GateApp(App(Var(name), angle), qubits) }

  function Pair(a: Expr, b: Expr): Expr { Tuple([a, b]) }

  function ComposeOnto(acc: Expr, steps: seq<Expr>): (r: Expr)
    ensures Solid(acc) && (forall i | 0 <= i < |steps| :: Solid(steps[i])) ==> Solid(r)
    decreases |steps|
  {
    if steps == [] then acc else ComposeOnto(Compose(acc, steps[0]), steps[1..])
  }

  /** `compose`: the steps from left to right, nested to the left. */
  function ComposeAll(steps: seq<Expr>): (r: Expr)
    requires steps != []
    ensures (forall i | 0 <= i < |steps| :: Solid(steps[i])) ==> Solid(r)
  {
    ComposeOnto(steps[0], steps[1..])
  }

  function RzzGadget(angle: Expr, q0: Expr, q1: Expr): (r: Expr)
    ensures Solid(r)
  {
    ComposeAll([Gate("CNOT", Pair(q0, q1)), Rotation("Rz", angle, q1), Gate("CNOT", Pair(q0, q1))])
  }

  /** `CRz` for axis `"Rz"`, `CRy` for axis `"Ry"`. */
  function RotationGadget(axis: Name, theta: real, control: Expr, target: Expr): (r: Expr)
    ensures Solid(r)
  {
    var cnot := Gate("CNOT", Pair(control, target));
    ComposeAll([Rotation(axis, Float(theta / 2.0), target), cnot,
                Rotation(axis, Float(-(theta / 2.0)), target), cnot])
  }

  function RxGadget(theta: real, control: Expr, target: Expr): (r: Expr)
    ensures Solid(r)
  {
    ComposeAll([Gate("H", target), RotationGadget("Rz", theta, control, target), Gate("H", target)])
  }

  function PhaseGadget(phi: real, control: Expr, target: Expr): (r: Expr)
    ensures Solid(r)
  {
    var cnot := Gate("CNOT", Pair(control, target));
    ComposeAll([Rotation("Rz", Float(phi / 2.0), control), cnot,
                Rotation("Rz", Float(-phi / 2.0), target), cnot,
                Rotation("Rz", Float(phi / 2.0), target)])
  }

  function HadamardGadget(control: Expr, target: Expr): (r: Expr)
    ensures Solid(r)
  {
    ComposeAll([Gate("S", target), Gate("H", target), Gate("T", target), Gate("CNOT", Pair(control, target)),
                Gate("T_dag", target), Gate("H", target), Gate("S_dag", target)])
  }

  function SingletonTarget(target: Expr): Expr {
    if target.Tuple? && |target.items| == 1 then target.items[0] else target
  }

  predicate IsLiteralAngle(e: Expr) { e.Float? || e.Int? }

  /** `controlled_named_gate`. */
  function ControlledGate(c: Ctx, name: Name, angle: Option<Expr>, control: Expr, target: Expr): (r: Res<Expr>)
    ensures r.Ok? ==> IsGateTree(r.value)
  {
    if target.Tuple? && |target.items| != 1 then Err(Unsupported(ControlledMultiQubit))
    else
      var t := SingletonTarget(target);
      match angle
      case None => ControlledFixed(c, name, control, t)
      case Some(theta) => ControlledRotation(c, name, theta, control, t)
  }

  function ControlledFixed(c: Ctx, name: Name, control: Expr, t: Expr): (r: Res<Expr>)
    ensures r.Ok? ==> IsGateTree(r.value)
  {
    var pi := c.ops.pi;
    if name == "I" then Ok(EMPTY)
    else if name == "X" then Ok(Gate("CNOT", Pair(control, t)))
    else if name == "Y" then Ok(Gate("CY", Pair(control, t)))
    else if name == "Z" then Ok(Gate("CZ", Pair(control, t)))
    else if name == "H" then Ok(HadamardGadget(control, t))
    else if name == "S" then Ok(PhaseGadget(pi / 2.0, control, t))
    else if name == "S_dag" then Ok(PhaseGadget(-pi / 2.0, control, t))
    else if name == "T" then Ok(PhaseGadget(pi / 4.0, control, t))
    else if name == "T_dag" then Ok(PhaseGadget(-pi / 4.0, control, t))
    else if name == "SX" then Ok(RxGadget(pi / 2.0, control, t))
    else if name == "SX_dag" then Ok(RxGadget(-pi / 2.0, control, t))
    else if name == "Rz" || name == "Rx" || name == "Ry" then
      Err(Unsupported(ControlledWithoutAngle))
    else Err(UnknownControlled(c, name))
  }

  function ControlledRotation(c: Ctx, name: Name, theta: Expr, control: Expr, t: Expr): (r: Res<Expr>)
    ensures r.Ok? ==> IsGateTree(r.value)
  {
    if name == "Rz" || name == "Rx" || name == "Ry" then
      if !IsLiteralAngle(theta) then Err(Crash(AngleNotLiteral))
      else if name == "Rz" then Ok(RotationGadget("Rz", AngleOf(theta), control, t))
      else if name == "Rx" then Ok(RxGadget(AngleOf(theta), control, t))
      else Ok(RotationGadget("Ry", AngleOf(theta), control, t))
    else Err(UnknownControlled(c, name))
  }

  function UnknownControlled(c: Ctx, name: Name): ElabError {
    if SurfaceGate(c.reg, name).Some?
    then Unsupported(ControlledUnknownGate)
    else Unsupported(ControlledGateExpression)
  }

  // ── Wires of a controlled body ─────────────────────────────────────────────

  datatype BodyWires = Explicit(wires: seq<Expr>) | Start(wire: Expr)

  function BodyWiresOf(target: Expr): BodyWires {
    if target.Tuple? && target.items != [] then Explicit(target.items) else Start(target)
  }

  function Saturate(n: int): int {
    if n > I64_MAX then I64_MAX else if n < I64_MIN then I64_MIN else n
  }

  /** `wire_slice`: the `width` body wires from `offset` on. */
  function WireSlice(wires: BodyWires, offset: int, width: int): Res<Expr> {
    if width <= 0 || offset < 0 then Err(Unsupported(ControlledParNoWires))
    else
      match wires
      case Explicit(ws) =>
        if offset + width > |ws| then Err(Unsupported(ControlledParCover))
        else if width == 1 then Ok(ws[offset])
        else Ok(Tuple(ws[offset..offset + width]))
      case Start(w) =>
        if (offset != 0 || width != 1) && !(w.Int? && w.i >= 0) then
          Err(Unsupported(ControlledParStart))
        else if width == 1 then Ok(ShiftTargets(w, offset))
        else Ok(Tuple(seq(width, i => ShiftTargets(w, Saturate(offset + i)))))
  }

  function SplitControl(qubits: Expr): Res<(Expr, Expr)> {
    if qubits.Tuple? && |qubits.items| == 2 then Ok((qubits.items[0], qubits.items[1]))
    else if qubits.Tuple? && |qubits.items| > 2 then Ok((qubits.items[0], Tuple(qubits.items[1..])))
    else Err(Unsupported(PlacementExpected))
  }

  /** The registry arity of a bare gate name or of a name applied to one argument. */
  function PrimitiveWires(c: Ctx, e: Expr): Option<nat> {
    var name :=
      match e
      case Var(n) => Some(n)
      case App(f, x) =>
        var (head, args) := FlattenApp(f, x);
        if |args| == 1 && head.Var? then Some(head.name) else None
      case _ => None;
    if name.None? then None
    else
      match SurfaceGate(c.reg, name.value)
      case Some(g) => Some(g.arity)
      case None => None
  }

  /** Nesting of the forms `decompose_controlled` looks inside. */
  function ControlSize(e: Expr): nat
    decreases e, 1
  {
    match e
    case Compose(l, r) => 1 + ControlSize(l) + ControlSize(r)
    case CircuitBlock(stmts) =>
      1 + if |stmts| > 0 && stmts[|stmts| - 1].SExpr? then ControlSize(stmts[|stmts| - 1].e) else 0
    case Par(body, _) => 1 + ControlSize(body)
    case ParN(items) => 1 + ControlSizes(items)
    case Adjoint(inner) => 1 + ControlSize(inner)
    case _ => 0
  }

  function ControlSizes(es: seq<Expr>): nat
    decreases es, 0
  {
    if es == [] then 0 else ControlSize(es[0]) + ControlSizes(es[1..])
  }

  lemma SubstControlSize(ops: Ops, e: Expr, env: Env)
    ensures ControlSize(Subst(ops, e, env)) <= ControlSize(e)
    decreases e, 2
  {
    hide Eval, SubstInside, ControlSize;
    var probe := Eval(ops, e, env, ops.probe);
    if probe.Done? { ValueControlSize(probe.value); } else { InsideControlSize(ops, e, env); }
  }

  lemma ValueControlSize(v: Value)
    ensures ControlSize(ValueToExpr(v)) == 0
  {
  }

  lemma InsideControlSize(ops: Ops, e: Expr, env: Env)
    ensures ControlSize(SubstInside(ops, e, env)) <= ControlSize(e)
    decreases e, 1
  {
    hide Subst;
    match e
    case Compose(l, r) =>
      SubstControlSize(ops, l, env);
      SubstControlSize(ops, r, env);
    case Par(body, _) => SubstControlSize(ops, body, env);
    case Adjoint(inner) => SubstControlSize(ops, inner, env);
    case ParN(items) => SubstControlSizes(ops, items, env);
    case _ =>
  }

  lemma SubstControlSizes(ops: Ops, es: seq<Expr>, env: Env)
    ensures ControlSizes(seq(|es|, i requires 0 <= i < |es| => Subst(ops, es[i], env))) <= ControlSizes(es)
    decreases es, 0
  {
    var mapped := seq(|es|, i requires 0 <= i < |es| => Subst(ops, es[i], env));
    if es != [] {
      SubstControlSize(ops, es[0], env);
      SubstControlSizes(ops, es[1..], env);
      assert mapped[1..] == seq(|es[1..]|, i requires 0 <= i < |es[1..]| => Subst(ops, es[1..][i], env));
    }
  }

  /** The trailing expression of a block under `controlled()`, with the block's `let`s substituted. */
  function BlockBody(ops: Ops, stmts: seq<Stmt>, env: Env): (r: Res<Expr>)
    ensures r.Ok? ==> ControlSize(r.value) < ControlSize(CircuitBlock(stmts))
  {
    if stmts == [] then Err(Unsupported(EmptyControlledBlock))
    else
      match EvalLets(ops, stmts[..|stmts| - 1], env, ops.probe)
      case Fail(err) => Err(err)
      case Done(inner, _) =>
        var last := stmts[|stmts| - 1];
        if !last.SExpr? then Err(Unsupported(ControlledBlockWithoutResult))
        else
          SubstControlSize(ops, last.e, inner);
          Ok(Subst(ops, last.e, inner))
  }
}
