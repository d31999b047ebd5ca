/** The circuit elaborator, as a function of the expression, the environment, the fuel and the set
    `exp` of zero-argument functions being inlined. */
module Elaborate {
  import opened Ast
  import opened Classical
  import opened GateTree
  import opened CircuitForms

  /** An elaboration consumes fuel and yields a gate tree. */
  ghost predicate Elaborated(r: Out<Expr>, fuel: nat) {
    r.Done? ==> r.fuel <= fuel && IsGateTree(r.value)
  }

  /** `elaborate_circuit_body`: every node costs one unit of fuel. */
  function Elab(c: Ctx, e: Expr, env: Env, fuel: nat, exp: set<Name>): (r: Out<Expr>)
    ensures Elaborated(r, fuel) && (r.Done? ==> r.fuel < fuel)
    decreases fuel, 0
  {
    if fuel == 0 then Fail(FuelExhausted) else ElabNode(c, e, env, fuel - 1, exp)
  }

  function ElabNode(c: Ctx, e: Expr, env: Env, fuel: nat, exp: set<Name>): (r: Out<Expr>)
    ensures Elaborated(r, fuel)
    decreases fuel, 30
  {
    match e
    case CircuitBlock(stmts) => ElabBlock(c, stmts, env, fuel, exp)
    case Compose(lhs, rhs) => ElabCompose(c, lhs, rhs, env, fuel, exp)
    case Match(scrutinee, arms) => ElabMatch(c, scrutinee, arms, env, fuel, exp)
    case Let(pat, rhs, body) => ElabLet(c, pat, rhs, body, env, fuel, exp)
    case GateApp(gate, qubits) => ElabGateApp(c, gate, qubits, env, fuel, exp)
    case Adjoint(inner) => ElabAdjoint(c, inner, env, fuel, exp)
    case For(pat, iter, body) => ElabFor(c, pat, iter, body, env, fuel, exp)
    case App(f, x) => ElabApp(c, f, x, env, fuel, exp)
    case Var(name) => if name in c.bodies then Inline(c, name, map[], fuel, exp) else Done(e, fuel)
    case Par(body, count) => ElabPar(c, body, count, env, fuel, exp)
    case ParN(items) => ElabParN(c, items, 0, EMPTY, env, fuel, exp)
    case _ => Fail(Unsupported(CircuitBody))
  }

  function ElabBlock(c: Ctx, stmts: seq<Stmt>, env: Env, fuel: nat, exp: set<Name>): (r: Out<Expr>)
    ensures Elaborated(r, fuel)
    decreases fuel, 10
  {
    if stmts == [] then Fail(Unsupported(EmptyBlock))
    else
      var (inner, f) :- EvalLets(c.ops, stmts[..|stmts| - 1], env, fuel);
      var last := stmts[|stmts| - 1];
      if !last.SExpr? then Fail(Unsupported(BlockWithoutResult))
      else Elab(c, last.e, inner, f, exp)
  }

  function ElabCompose(c: Ctx, lhs: Expr, rhs: Expr, env: Env, fuel: nat, exp: set<Name>): (r: Out<Expr>)
    ensures Elaborated(r, fuel)
    decreases fuel, 10
  {
    var (l, f) :- Elab(c, lhs, env, fuel, exp);
    var (r, f') :- Elab(c, rhs, env, f, exp);
    Done(ComposeNonempty(l, r), f')
  }

  function ElabMatch(c: Ctx, scrutinee: Expr, arms: seq<Arm>, env: Env, fuel: nat, exp: set<Name>): (r: Out<Expr>)
    ensures Elaborated(r, fuel)
    decreases fuel, 10
  {
    var (v, f) :- Eval(c.ops, scrutinee, env, fuel);
    match CircuitArm(arms, v, env)
    case Chosen(body, inner) => Elab(c, body, inner, f, exp)
    case NoArm(err) => Fail(err)
  }

  function ElabLet(c: Ctx, pat: Pat, rhs: Expr, body: Expr, env: Env, fuel: nat, exp: set<Name>): (r: Out<Expr>)
    ensures Elaborated(r, fuel)
    decreases fuel, 10
  {
    var (v, f) :- Eval(c.ops, rhs, env, fuel);
    var (inner, f') :- Lift(BindPat(pat, v, env), f);
    Elab(c, body, inner, f', exp)
  }

  predicate IsRzz(gate: Expr) {
    && gate.App?
    && var (head, args) := FlattenApp(gate.fn, gate.arg);
       head == Var("Rzz") && |args| == 1
  }

  function ElabGateApp(c: Ctx, gate: Expr, qubits: Expr, env: Env, fuel: nat, exp: set<Name>): (r: Out<Expr>)
    ensures Elaborated(r, fuel)
    decreases fuel, 10
  {
    var q := Subst(c.ops, qubits, env);
    if IsRzz(gate) then
      if q.Tuple? && |q.items| == 2
      then Done(RzzGadget(Subst(c.ops, gate.arg, env), q.items[0], q.items[1]), fuel)
      else Fail(Unsupported(PairExpected))
    else if gate.Controlled? then
      var (ct, _) :- Lift(SplitControl(q), fuel);
      Ctl(c, gate.inner, ct.0, SingletonTarget(ct.1), env, fuel, exp)
    else Done(GateApp(Subst(c.ops, gate, env), q), fuel)
  }

  function ElabAdjoint(c: Ctx, inner: Expr, env: Env, fuel: nat, exp: set<Name>): (r: Out<Expr>)
    ensures Elaborated(r, fuel)
    decreases fuel, 10
  {
    var (t, f) :- Elab(c, inner, env, fuel, exp);
    AdjointIsGateTree(c.reg, t);
    Lift(ReverseAndInvert(c.reg, t), f)
  }

  function ElabFor(c: Ctx, pat: Pat, iter: Expr, body: Expr, env: Env, fuel: nat, exp: set<Name>): (r: Out<Expr>)
    ensures Elaborated(r, fuel)
    decreases fuel, 10
  {
    var (v, f) :- Eval(c.ops, iter, env, fuel);
    if !v.VList? then Fail(Unsupported(ForIterator))
    else ElabSteps(c, pat, v.items, body, EMPTY, env, f, exp)
  }

  /** The `for` loop over the items still to run. */
  function ElabSteps(c: Ctx, pat: Pat, items: seq<Value>, body: Expr, acc: Expr, env: Env, fuel: nat, exp: set<Name>)
    : (r: Out<Expr>)
    ensures r.Done? ==> r.fuel <= fuel
    ensures IsGateTree(acc) ==> Elaborated(r, fuel)
    decreases fuel, 9, |items|
  {
    if items == [] then Done(acc, fuel)
    else
      var (inner, _) :- Lift(BindPat(pat, items[0], env), fuel);
      var (step, f) :- Elab(c, body, inner, fuel, exp);
      ElabSteps(c, pat, items[1..], body, Append(acc, step), env, f, exp)
  }

  // ── Calls ──────────────────────────────────────────────────────────────────

  /** Inlines a recorded zero-argument body, unless it is already being inlined. */
  function Inline(c: Ctx, name: Name, env: Env, fuel: nat, exp: set<Name>): (r: Out<Expr>)
    requires name in c.bodies
    ensures Elaborated(r, fuel) && (r.Done? ==> r.fuel < fuel)
    decreases fuel, 1
  {
    if name in exp then Fail(Unsupported(SelfReference))
    else Elab(c, c.bodies[name], env, fuel, exp + {name})
  }

  function ElabApp(c: Ctx, f: Expr, x: Expr, env: Env, fuel: nat, exp: set<Name>): (r: Out<Expr>)
    ensures Elaborated(r, fuel)
    decreases fuel, 20
  {
    var (head, args) := FlattenApp(f, x);
    if head.Var? then
      match Juxtaposed(c, head.name, args)
      case Some(angles) =>
        var gate := if angles == 1 then App(head, Subst(c.ops, args[0], env)) else head;
        Done(GateApp(gate, Subst(c.ops, args[|args| - 1], env)), fuel)
      case None => ElabNamedApp(c, head.name, args, App(f, x), env, fuel, exp)
    else ElabOther(c, App(f, x), env, fuel, exp)
  }

  /** Bare gate juxtaposition: `Some(1)` for a rotation with its angle, `Some(0)` for a plain gate. */
  function Juxtaposed(c: Ctx, name: Name, args: seq<Expr>): (r: Option<nat>)
    requires args != []
  {
    match SurfaceGate(c.reg, name)
    case None => None
    case Some(g) =>
      if g.parametric then if |args| == g.arity + 1 then Some(1) else None
      else if |args| == 1 && args[0] != Unit then Some(0) else None
  }

  function ElabNamedApp(c: Ctx, name: Name, args: seq<Expr>, call: Expr, env: Env, fuel: nat, exp: set<Name>)
    : (r: Out<Expr>)
    requires args != [] && call.App?
    ensures Elaborated(r, fuel)
    decreases fuel, 19
  {
    if name == "repeat" && |args| == 2 then ElabRepeat(c, args[0], args[1], env, fuel, exp)
    else if name == "identity" && |args| == 1 then Done(EMPTY, fuel)
    else if (name == "on_high" || name == "on_low") && |args| == 2 then
      ElabEmbed(c, name == "on_high", args[0], args[1], env, fuel, exp)
    else if name == "swap_reverse" && |args| == 1 then
      var (v, f) :- Eval(c.ops, args[0], env, fuel);
      if v.VInt? then Done(SwapReverse(v.i), f) else Fail(NotClassical(SwapReverseWidth))
    else if name in c.parametric then ElabCall(c, c.parametric[name], args, env, fuel, exp)
    else ElabOther(c, call, env, fuel, exp)
  }

  /** A zero-argument call is inlined; anything else is left, substituted, for the caller to reject. */
  function ElabOther(c: Ctx, call: Expr, env: Env, fuel: nat, exp: set<Name>): (r: Out<Expr>)
    requires call.App?
    ensures Elaborated(r, fuel)
    decreases fuel, 18
  {
    match ZeroArgCallee(c, call)
    case Some(name) => Inline(c, name, map[], fuel, exp)
    case None => Done(Subst(c.ops, call, env), fuel)
  }

  function ElabRepeat(c: Ctx, count: Expr, body: Expr, env: Env, fuel: nat, exp: set<Name>): (r: Out<Expr>)
    ensures Elaborated(r, fuel)
    decreases fuel, 10
  {
    var (v, f) :- Eval(c.ops, count, env, fuel);
    if !v.VInt? then Fail(NotClassical(RepeatCount))
    else
      var (t, f') :- Elab(c, body, env, f, exp);
      Done(Repeat(t, v.i, EMPTY), f')
  }

  function ElabEmbed(c: Ctx, high: bool, inner: Expr, target: Expr, env: Env, fuel: nat, exp: set<Name>): (r: Out<Expr>)
    ensures Elaborated(r, fuel)
    decreases fuel, 10
  {
    var (v, f) :- Eval(c.ops, target, env, fuel);
    if !v.VInt? then Fail(NotClassical(RegisterWidth))
    else
      var (w, f') :- DeclaredWidth(c, inner, env, f);
      var (t, f'') :- Elab(c, inner, env, f', exp);
      Done(ShiftQubits(t, if high then v.i - w else 0), f'')
  }

  function ElabCall(c: Ctx, def: ParametricDef, args: seq<Expr>, env: Env, fuel: nat, exp: set<Name>): (r: Out<Expr>)
    ensures Elaborated(r, fuel)
    decreases fuel, 10
  {
    if |def.params| != |args| then Fail(Unsupported(CallArity))
    else
      var (vs, f) :- EvalSeq(c.ops, args, env, fuel);
      Elab(c, def.body, BindParams(def.params, vs, map[]), f, exp)
  }

  function BindParams(params: seq<Name>, vs: seq<Value>, env: Env): Env
    requires |params| == |vs|
    decreases |params|
  {
    if params == [] then env else BindParams(params[1..], vs[1..], env[params[0] := vs[0]])
  }

  /** `on_high_width`: the declared width of `identity(n)` or of a parametric call. */
  function DeclaredWidth(c: Ctx, e: Expr, env: Env, fuel: nat): (r: Out<int>)
    ensures r.Done? ==> r.fuel <= fuel
  {
    if !e.App? then Fail(Unsupported(UnknownWidth))
    else
      var (head, args) := FlattenApp(e.fn, e.arg);
      if head == Var("identity") && |args| == 1 then
        var (v, f) :- Eval(c.ops, args[0], env, fuel);
        if v.VInt? then Done(v.i, f) else Fail(NotClassical(IdentityWidth))
      else if head.Var? && head.name in c.parametric then
        var def := c.parametric[head.name];
        if def.width.None? then Fail(Unsupported(NonCircuitCall))
        else
          var n := if |def.params| < |args| then |def.params| else |args|;
          var (vs, f) :- EvalSeq(c.ops, args[..n], env, fuel);
          match def.width.value(NatArgs(def.params[..n], vs))
          case Some(w) => Done(w, f)
          case None => Fail(Unsupported(UnresolvedWidth))
      else Fail(Unsupported(UnknownWidth))
  }

  /** The natural-number arguments by parameter name; a later one replaces an earlier one. */
  function NatArgs(params: seq<Name>, vs: seq<Value>): map<Name, nat>
    requires |params| == |vs|
  {
    if params == [] then map[]
    else
      var n := |params| - 1;
      var rest := NatArgs(params[..n], vs[..n]);
      if vs[n].VInt? && vs[n].i >= 0 then rest[params[n] := vs[n].i] else rest
  }

  // ── Loops over trees ───────────────────────────────────────────────────────

  /** The `repeat` loop with `k` rounds to go. */
  function Repeat(body: Expr, k: int, acc: Expr): (r: Expr)
    ensures IsGateTree(body) && IsGateTree(acc) ==> IsGateTree(r)
    decreases k
  {
    if k <= 0 then acc else Repeat(body, k - 1, Append(acc, body))
  }

  /** Rust's `n / 2` truncates toward zero. */
  function SwapReverse(n: int): (r: Expr)
    ensures IsGateTree(r)
  {
    SwapSteps(n, 0, EMPTY)
  }

  function SwapSteps(n: int, i: nat, acc: Expr): (r: Expr)
    ensures IsGateTree(acc) ==> IsGateTree(r)
    decreases TruncDiv(n, 2) - i
  {
    if i >= TruncDiv(n, 2) then acc
    else SwapSteps(n, i + 1, Append(acc, Gate("SWAP", Pair(Int(i), Int(n - 1 - i)))))
  }

  /** The `par { c } * k` loop from copy `i` on, each copy shifted past the earlier ones. */
  function ParCopies(t: Expr, width: nat, i: int, k: int, acc: Expr): (r: Expr)
    ensures IsGateTree(t) && IsGateTree(acc) ==> IsGateTree(r)
    decreases k - i
  {
    if i >= k then acc
    else ParCopies(t, width, i + 1, k, ComposeNonempty(acc, ShiftCircuit(t, i * width)))
  }

  // ── Parallel composition ───────────────────────────────────────────────────

  /** `elaborate_par_subbody`: a zero-argument callee is inlined under the caller's bindings. */
  function ElabParBody(c: Ctx, body: Expr, env: Env, fuel: nat, exp: set<Name>): (r: Out<Expr>)
    ensures Elaborated(r, fuel)
    decreases fuel, 2
  {
    match ZeroArgCallee(c, body)
    case Some(name) => Inline(c, name, env, fuel, exp)
    case None => Elab(c, body, env, fuel, exp)
  }

  function ElabPar(c: Ctx, body: Expr, count: Expr, env: Env, fuel: nat, exp: set<Name>): (r: Out<Expr>)
    ensures Elaborated(r, fuel)
    decreases fuel, 10
  {
    var (v, f) :- Eval(c.ops, count, env, fuel);
    if !v.VInt? then Fail(Unsupported(ParCount))
    else if v.i < 0 then Fail(Unsupported(NegativeParCount))
    else if v.i == 0 then Done(EMPTY, f)
    else
      var (t, f') :- ElabParBody(c, body, env, f, exp);
      Done(ParCopies(t, Width(t), 0, v.i, EMPTY), f')
  }

  /** The `par { c1, c2, … }` loop over the arms still to place. */
  function ElabParN(c: Ctx, items: seq<Expr>, offset: int, acc: Expr, env: Env, fuel: nat, exp: set<Name>): (r: Out<Expr>)
    ensures r.Done? ==> r.fuel <= fuel
    ensures IsGateTree(acc) ==> Elaborated(r, fuel)
    decreases fuel, 9, |items|
  {
    if items == [] then Done(acc, fuel)
    else
      var (t, f) :- ElabParBody(c, items[0], env, fuel, exp);
      ElabParN(c, items[1..], offset + Width(t), ComposeNonempty(acc, ShiftCircuit(t, offset)), env, f, exp)
  }

  // ── Control ────────────────────────────────────────────────────────────────

  predicate IsParametricCall(c: Ctx, e: Expr) {
    e.App? && FlattenApp(e.fn, e.arg).0.Var? && FlattenApp(e.fn, e.arg).0.name in c.parametric
  }

  /** `elaborate_named_callee`: a parametric call or a zero-argument callee, elaborated first. */
  function NamedCallee(c: Ctx, inner: Expr, env: Env, fuel: nat, exp: set<Name>): (r: Out<Option<Expr>>)
    ensures r.Done? ==> r.fuel <= fuel
    ensures r.Done? && r.value.Some? ==> r.fuel < fuel && IsGateTree(r.value.value)
    decreases fuel, 2
  {
    if IsParametricCall(c, inner) then
      var (t, f) :- Elab(c, inner, env, fuel, exp);
      Done(Some(t), f)
    else
      match ZeroArgCallee(c, inner)
      case None => Done(None, fuel)
      case Some(name) =>
        var (t, f) :- Inline(c, name, env, fuel, exp);
        Done(Some(t), f)
  }

  /** `decompose_controlled`. */
  function Ctl(c: Ctx, inner: Expr, control: Expr, target: Expr, env: Env, fuel: nat, exp: set<Name>): (r: Out<Expr>)
    ensures Elaborated(r, fuel)
    decreases fuel, 5, ControlSize(inner), 2, 0
  {
    var (callee, f) :- NamedCallee(c, inner, env, fuel, exp);
    match callee
    case Some(t) => Ctl(c, t, control, target, env, f, exp)
    case None => CtlNode(c, inner, control, target, env, fuel, exp)
  }

  function CtlNode(c: Ctx, inner: Expr, control: Expr, target: Expr, env: Env, fuel: nat, exp: set<Name>): (r: Out<Expr>)
    ensures Elaborated(r, fuel)
    decreases fuel, 5, ControlSize(inner), 1, 0
  {
    match inner
    case Compose(lhs, rhs) =>
      var (l, f) :- Ctl(c, lhs, control, target, env, fuel, exp);
      var (r, f') :- Ctl(c, rhs, control, target, env, f, exp);
      Done(ComposeNonempty(l, r), f')
    case CircuitBlock(stmts) =>
      var (body, _) :- Lift(BlockBody(c.ops, stmts, env), fuel);
      Ctl(c, body, control, target, env, fuel, exp)
    case Par(body, count) => CtlPar(c, body, count, control, target, env, fuel, exp)
    case ParN(items) => CtlArms(c, items, control, BodyWiresOf(target), 0, EMPTY, env, fuel, exp)
    case Adjoint(body) =>
      var (t, f) :- Ctl(c, body, control, target, env, fuel, exp);
      AdjointIsGateTree(c.reg, t);
      Lift(ReverseAndInvert(c.reg, t), f)
    case _ => Lift(CtlLeaf(c, inner, control, target, env), fuel)
  }

  /** Control of a bare or placed gate; the index a placed gate carries is not read. */
  function CtlLeaf(c: Ctx, inner: Expr, control: Expr, target: Expr, env: Env): (r: Res<Expr>)
    ensures r.Ok? ==> IsGateTree(r.value)
  {
    match inner
    case Var(name) => ControlledGate(c, name, None, control, target)
    case App(f, x) =>
      var (head, args) := FlattenApp(f, x);
      if !head.Var? then Err(Unsupported(ControlledUnknownExpression))
      else if |args| != 1 then Err(Unsupported(ControlledManyArguments))
      else ControlledGate(c, head.name, Some(Subst(c.ops, args[0], env)), control, target)
    case GateApp(gate, qubits) =>
      if !gate.Var? && !gate.App? then Err(Unsupported(ControlledUnknownNamedGate))
      else if qubits.Tuple? && |qubits.items| > 1 then
        Err(Unsupported(ControlledNamedMultiQubit))
      else CtlLeaf(c, gate, control, target, env)
    case Controlled(_) => Err(Unsupported(NestedControlled))
    case _ => Err(Unsupported(ControlledBody))
  }

  /** How many body wires an arm takes. */
  function ArmWidth(c: Ctx, arm: Expr, env: Env, fuel: nat, exp: set<Name>): (r: Out<nat>)
    ensures r.Done? ==> r.fuel <= fuel
    decreases fuel, 1
  {
    match PrimitiveWires(c, arm)
    case Some(w) => Done(w, fuel)
    case None =>
      var (t, f) :- Elab(c, arm, env, fuel, exp);
      Done(if MaxQubitIndex(t).Some? then Width(t) else 1, f)
  }

  function CtlPar(c: Ctx, body: Expr, count: Expr, control: Expr, target: Expr, env: Env, fuel: nat, exp: set<Name>)
    : (r: Out<Expr>)
    ensures Elaborated(r, fuel)
    decreases fuel, 5, ControlSize(body), 4, 1
  {
    var (v, _) :- Eval(c.ops, count, env, c.ops.probe);
    if !v.VInt? then Fail(Unsupported(ControlledParCount))
    else if v.i < 0 then Fail(Unsupported(ControlledParNegative))
    else if v.i == 0 then Done(EMPTY, fuel)
    else CtlParK(c, body, v.i, control, target, env, fuel, exp)
  }

  function CtlParK(c: Ctx, body: Expr, k: int, control: Expr, target: Expr, env: Env, fuel: nat, exp: set<Name>)
    : (r: Out<Expr>)
    ensures Elaborated(r, fuel)
    decreases fuel, 5, ControlSize(body), 4, 0
  {
    var (w, f) :- ArmWidth(c, body, env, fuel, exp);
    var wires := BodyWiresOf(target);
    if wires.Explicit? && |wires.wires| != Saturate(k * w) then
      Fail(Unsupported(ControlledParWidth))
    else CtlCopies(c, body, control, wires, w, 0, k, EMPTY, env, f, exp)
  }

  /** The `controlled(par { c } * k)` loop from copy `i` on. */
  function CtlCopies(c: Ctx, body: Expr, control: Expr, wires: BodyWires, w: nat, i: nat, k: int, acc: Expr,
                     env: Env, fuel: nat, exp: set<Name>): (r: Out<Expr>)
    ensures r.Done? ==> r.fuel <= fuel
    ensures IsGateTree(acc) ==> Elaborated(r, fuel)
    decreases fuel, 5, ControlSize(body), 3, k - i
  {
    if i >= k then Done(acc, fuel)
    else
      var (t, _) :- Lift(WireSlice(wires, Saturate(i * w), w), fuel);
      var (step, f) :- Ctl(c, body, control, t, env, fuel, exp);
      CtlCopies(c, body, control, wires, w, i + 1, k, ComposeNonempty(acc, step), env, f, exp)
  }

  /** The `controlled(par { c1, c2, … })` loop over the arms still to place. */
  function CtlArms(c: Ctx, items: seq<Expr>, control: Expr, wires: BodyWires, offset: int, acc: Expr,
                   env: Env, fuel: nat, exp: set<Name>): (r: Out<Expr>)
    ensures r.Done? ==> r.fuel <= fuel
    ensures IsGateTree(acc) ==> Elaborated(r, fuel)
    decreases fuel, 5, ControlSizes(items), 4, |items|
  {
    if items == [] then
      if wires.Explicit? && offset != |wires.wires|
      then Fail(Unsupported(ControlledParWidth))
      else Done(acc, fuel)
    else
      var (arm, f) :- CtlArm(c, items[0], control, wires, offset, env, fuel, exp);
      CtlArms(c, items[1..], control, wires, Saturate(offset + arm.1), ComposeNonempty(acc, arm.0), env, f, exp)
  }

  /** One arm on its slice of the wires, with the arm's width. */
  function CtlArm(c: Ctx, item: Expr, control: Expr, wires: BodyWires, offset: int, env: Env, fuel: nat, exp: set<Name>)
    : (r: Out<(Expr, nat)>)
    ensures r.Done? ==> r.fuel <= fuel && IsGateTree(r.value.0)
    decreases fuel, 5, ControlSize(item), 3, 0
  {
    var (w, f) :- ArmWidth(c, item, env, fuel, exp);
    var (t, _) :- Lift(WireSlice(wires, offset, w), f);
    var (step, f') :- Ctl(c, item, control, t, env, f, exp);
    Done((step, w), f')
  }
}
