/** The classical fragment of the elaborator: values, `eval_classical` and its fuel. */
module Classical {
  import opened Ast

  /** What an error message complains about. */
  datatype Construct =
    | AdjointOfEmpty | AdjointOfNonGates | AdjointOfNonPrimitive | AdjointOfUnknownRotation | AngleNotLiteral
    | BinaryOperand | BlockWithoutResult | CallArity | CircuitBody | CircuitMatchExhausted | CircuitTuplePattern
    | ClassicalCall | ClassicalExpression | ClassicalMatchExhausted | ClassicalTuplePattern
    | ControlledBlockWithoutResult | ControlledBody | ControlledGateExpression | ControlledManyArguments
    | ControlledMultiQubit | ControlledNamedMultiQubit | ControlledParCount | ControlledParCover
    | ControlledParNegative | ControlledParNoWires | ControlledParStart | ControlledParWidth
    | ControlledUnknownExpression | ControlledUnknownGate | ControlledUnknownNamedGate | ControlledWithoutAngle
    | EmptyBlock | EmptyControlledBlock | FloatArgument | ForIterator | IdentityWidth | IfCondition | LiteralPattern
    | NegationOperand | NegativeParCount | NestedControlled | NonCircuitCall | NonLetStatement | PairExpected
    | PairsCount | ParCount | PlacementExpected | RangeCount | RegisterWidth | RepeatCount | RoundArgument
    | SelfReference | SqrtArgument | SwapReverseWidth | TupleArity | TuplePattern | UnknownWidth | UnresolvedWidth

  datatype Arith = OfAdd | OfSubtract | OfMultiply | OfDivide | OfPower | OfNegate

  datatype ElabError =
    | Unsupported(construct: Construct)
    | NotClassical(what: Construct)
    | UnboundVar(name: Name)
    | FuelExhausted
    | Overflow(op: Arith)
    | DivByZero
    | NegativeExponent(exp: int)
    | Crash(what: Construct)  // the compiler panics here

  /** A fuel-free outcome. */
  datatype Res<+T> = Ok(value: T) | Err(error: ElabError) {
    predicate IsFailure() { Err? }
    function PropagateFailure<U>(): Res<U> requires Err? { Err(error) }
    function Extract(): T requires Ok? { value }
  }

  /** An outcome together with the fuel that is left after it. */
  datatype Out<+T> = Done(value: T, fuel: nat) | Fail(error: ElabError) {
    predicate IsFailure() { Fail? }
    function PropagateFailure<U>(): Out<U> requires Fail? { Fail(error) }
    function Extract(): (T, nat) requires Done? { (value, fuel) }
  }

  function Lift<T>(r: Res<T>, fuel: nat): Out<T> {
    match r
    case Ok(v) => Done(v, fuel)
    case Err(err) => Fail(err)
  }

  datatype Value =
    | VInt(i: int)
    | VFloat(f: real)
    | VBool(b: bool)
    | VList(items: seq<Value>)
    | VTuple(items: seq<Value>)
    | VUnit

  type Env = map<Name, Value>

  /** The floating-point primitives that are not exact real arithmetic, and the fuel a substitution
      probe gets for itself: 10 000 in the compiler, any figure here. */
  datatype Ops = Ops(
    pi: real,
    e: real,
    sqrt: real -> real,
    powf: (real, real) -> real,
    overZero: real -> real,
    probe: nat)

  const I64_MIN: int := -0x8000_0000_0000_0000
  const I64_MAX: int := 0x7FFF_FFFF_FFFF_FFFF
  const U32_MAX: int := 0xFFFF_FFFF

  predicate FitsI64(n: int) { I64_MIN <= n <= I64_MAX }

  function Checked(n: int, op: Arith): Res<Value> {
    if FitsI64(n) then Ok(VInt(n)) else Err(Overflow(op))
  }

  function AsReal(v: Value): Option<real> {
    match v
    case VInt(n) => Some(n as real)
    case VFloat(x) => Some(x)
    case _ => None
  }

  /** Integer division that truncates toward zero. */
  function TruncDiv(x: int, y: int): int
    requires y != 0
  {
    if x >= 0 then x / y else -((-x) / y)
  }

  function IntPow(x: int, n: nat): int {
    if n == 0 then 1 else x * IntPow(x, n - 1)
  }

  function IntOp(op: BinOp, x: int, y: int): Res<Value> {
    match op
    case Add => Checked(x + y, OfAdd)
    case Sub => Checked(x - y, OfSubtract)
    case Mul => Checked(x * y, OfMultiply)
    case Div => if y == 0 then Err(DivByZero) else Checked(TruncDiv(x, y), OfDivide)
    case Pow =>
      if y < 0 then Err(NegativeExponent(y))
      else if y > U32_MAX then Err(Overflow(OfPower))
      else Checked(IntPow(x, y), OfPower)
  }

  function RealOp(ops: Ops, op: BinOp, x: real, y: real): real {
    match op
    case Add => x + y
    case Sub => x - y
    case Mul => x * y
    case Div => if y == 0.0 then ops.overZero(x) else x / y
    case Pow => ops.powf(x, y)
  }

  function EvalBinop(ops: Ops, op: BinOp, a: Value, b: Value): Res<Value> {
    if a.VInt? && b.VInt? then IntOp(op, a.i, b.i)
    else if AsReal(a).None? || AsReal(b).None? then Err(NotClassical(BinaryOperand))
    else Ok(VFloat(RealOp(ops, op, AsReal(a).value, AsReal(b).value)))
  }

  function Negate(v: Value): Res<Value> {
    match v
    case VInt(n) => Checked(-n, OfNegate)
    case VFloat(x) => Ok(VFloat(-x))
    case _ => Err(NotClassical(NegationOperand))
  }

  function Upto(n: int): seq<Value> {
    seq(if n < 0 then 0 else n, i => VInt(i))
  }

  /** The row `(i, from), (i, from+1), …, (i, n-1)` of `pairs(n)`. */
  function PairRow(i: int, from: int, n: int): seq<Value>
    decreases n - from
  {
    if from >= n then [] else [VTuple([VInt(i), VInt(from)])] + PairRow(i, from + 1, n)
  }

  /** The rows of `pairs(n)` from row `i` on. */
  function PairRows(i: int, n: int): seq<Value>
    decreases n - i
  {
    if i >= n then [] else PairRow(i, i + 1, n) + PairRows(i + 1, n)
  }

  function RoundHalfAway(x: real): int {
    var r := if x >= 0.0 then (x + 0.5).Floor else -((0.5 - x).Floor);
    if r < I64_MIN then I64_MIN else if r > I64_MAX then I64_MAX else r
  }

  function RealArg(v: Value, what: Construct): Res<real> {
    match AsReal(v)
    case Some(x) => Ok(x)
    case None => Err(NotClassical(what))
  }

  /** The builtin functions; `Ok(None)` means the name and arity are not a builtin. */
  function EvalBuiltin(ops: Ops, name: Name, args: seq<Value>): Res<Option<Value>> {
    if |args| != 1 then Ok(None)
    else if name == "range" || name == "qubits" || name == "diag" then
      if args[0].VInt? then Ok(Some(VList(Upto(args[0].i))))
      else Err(NotClassical(RangeCount))
    else if name == "pairs" then
      if args[0].VInt? then Ok(Some(VList(PairRows(0, args[0].i))))
      else Err(NotClassical(PairsCount))
    else if name == "sqrt" then
      var x :- RealArg(args[0], SqrtArgument);
      Ok(Some(VFloat(ops.sqrt(x))))
    else if name == "round" then
      var x :- RealArg(args[0], RoundArgument);
      Ok(Some(VInt(RoundHalfAway(x))))
    else if name == "float" then
      var x :- RealArg(args[0], FloatArgument);
      Ok(Some(VFloat(x)))
    else Ok(None)
  }

  /** Binds an irrefutable pattern; a repeated name keeps its last binding. */
  function BindPat(pat: Pat, value: Value, env: Env): Res<Env>
    decreases pat, 1
  {
    match pat
    case PVar(name) => Ok(env[name := value])
    case PWild => Ok(env)
    case PTuple(pats) =>
      if !value.VTuple? then Err(Unsupported(TuplePattern))
      else if |pats| != |value.items| then Err(Unsupported(TupleArity))
      else BindPats(pats, value.items, env)
    case PLit(_) => Err(Unsupported(LiteralPattern))
  }

  function BindPats(pats: seq<Pat>, values: seq<Value>, env: Env): Res<Env>
    requires |pats| == |values|
    decreases pats, 0
  {
    if pats == [] then Ok(env)
    else
      var env1 :- BindPat(pats[0], values[0], env);
      BindPats(pats[1..], values[1..], env1)
  }

  /** Reads `f x` as a head applied to a left-to-right argument list. */
  function FlattenApp(f: Expr, x: Expr): (r: (Expr, seq<Expr>))
    ensures |r.1| >= 1 && r.1[|r.1| - 1] == x
    ensures !r.0.App?
    ensures r.0 < App(f, x)
    ensures forall i | 0 <= i < |r.1| :: r.1[i] < App(f, x)
    decreases f
  {
    if f.App? then
      var (head, args) := FlattenApp(f.fn, f.arg);
      (head, args + [x])
    else (f, [x])
  }

  /** Which arm of a classical `match` runs, and under which bindings. */
  datatype ArmChoice = Chosen(body: Expr, env: Env) | NoArm(error: ElabError)

  function ClassicalArm(arms: seq<Arm>, v: Value, env: Env): (r: ArmChoice)
    ensures r.Chosen? ==> exists i | 0 <= i < |arms| :: arms[i].body == r.body
  {
    if arms == [] then NoArm(Unsupported(ClassicalMatchExhausted))
    else
      match arms[0].pat
      case PLit(IntLit(k)) =>
        if v == VInt(k) then Chosen(arms[0].body, env) else ClassicalArm(arms[1..], v, env)
      case PLit(BoolLit(b)) =>
        if v == VBool(b) then Chosen(arms[0].body, env) else ClassicalArm(arms[1..], v, env)
      case PWild => Chosen(arms[0].body, env)
      case PVar(name) => Chosen(arms[0].body, env[name := v])
      case PTuple(_) => NoArm(Unsupported(ClassicalTuplePattern))
  }

  function Lookup(ops: Ops, name: Name, env: Env): Res<Value> {
    if name in env then Ok(env[name])
    else if name == "PI" then Ok(VFloat(ops.pi))
    else if name == "TAU" then Ok(VFloat(2.0 * ops.pi))
    else if name == "E" then Ok(VFloat(ops.e))
    else Err(UnboundVar(name))
  }

  /** `eval_classical`: every node costs one unit of fuel. */
  function Eval(ops: Ops, e: Expr, env: Env, fuel: nat): (r: Out<Value>)
    ensures r.Done? ==> r.fuel < fuel
    decreases fuel, 0
  {
    if fuel == 0 then Fail(FuelExhausted) else EvalNode(ops, e, env, fuel - 1)
  }

  function EvalNode(ops: Ops, e: Expr, env: Env, fuel: nat): (r: Out<Value>)
    ensures r.Done? ==> r.fuel <= fuel
    decreases fuel, 2
  {
    match e
    case Int(n) => Done(VInt(n), fuel)
    case Float(x) => Done(VFloat(x), fuel)
    case Bool(b) => Done(VBool(b), fuel)
    case Unit => Done(VUnit, fuel)
    case Var(name) => Lift(Lookup(ops, name, env), fuel)
    case Neg(inner) =>
      var (v, f) :- Eval(ops, inner, env, fuel);
      Lift(Negate(v), f)
    case Bin(op, lhs, rhs) =>
      var (a, f) :- Eval(ops, lhs, env, fuel);
      var (b, f') :- Eval(ops, rhs, env, f);
      Lift(EvalBinop(ops, op, a, b), f')
    case Tuple(items) =>
      var (vs, f) :- EvalSeq(ops, items, env, fuel);
      Done(VTuple(vs), f)
    case List(items) =>
      var (vs, f) :- EvalSeq(ops, items, env, fuel);
      Done(VList(vs), f)
    case Let(pat, rhs, body) =>
      var (v, f) :- Eval(ops, rhs, env, fuel);
      var (inner, f') :- Lift(BindPat(pat, v, env), f);
      Eval(ops, body, inner, f')
    case If(cond, thn, els) =>
      var (v, f) :- Eval(ops, cond, env, fuel);
      if !v.VBool? then Fail(NotClassical(IfCondition))
      else Eval(ops, if v.b then thn else els, env, f)
    case Match(scrutinee, arms) =>
      var (v, f) :- Eval(ops, scrutinee, env, fuel);
      (match ClassicalArm(arms, v, env)
       case Chosen(body, inner) => Eval(ops, body, inner, f)
       case NoArm(err) => Fail(err))
    case App(fn, arg) =>
      var (head, args) := FlattenApp(fn, arg);
      if !head.Var? then Fail(Unsupported(ClassicalCall))
      else
        var (vs, f) :- EvalSeq(ops, args, env, fuel);
        var (r, f') :- Lift(EvalBuiltin(ops, head.name, vs), f);
        if r.Some? then Done(r.value, f') else Fail(Unsupported(ClassicalCall))
    case _ => Fail(Unsupported(ClassicalExpression))
  }

  function EvalSeq(ops: Ops, items: seq<Expr>, env: Env, fuel: nat): (r: Out<seq<Value>>)
    ensures r.Done? ==> r.fuel <= fuel && |r.value| == |items|
    decreases fuel, 1, |items|
  {
    if items == [] then Done([], fuel)
    else
      var (v, f) :- Eval(ops, items[0], env, fuel);
      var (vs, f') :- EvalSeq(ops, items[1..], env, f);
      Done([v] + vs, f')
  }

  // ── What a classical expression means, without fuel ────────────────────────

  /** The value of a classical expression, by recursion on the expression alone. */
  function Val(ops: Ops, e: Expr, env: Env): Res<Value>
    decreases e, 1
  {
    match e
    case Int(n) => Ok(VInt(n))
    case Float(x) => Ok(VFloat(x))
    case Bool(b) => Ok(VBool(b))
    case Unit => Ok(VUnit)
    case Var(name) => Lookup(ops, name, env)
    case Neg(inner) =>
      var v :- Val(ops, inner, env);
      Negate(v)
    case Bin(op, lhs, rhs) =>
      var a :- Val(ops, lhs, env);
      var b :- Val(ops, rhs, env);
      EvalBinop(ops, op, a, b)
    case Tuple(items) =>
      var vs :- ValSeq(ops, e, items, env);
      Ok(VTuple(vs))
    case List(items) =>
      var vs :- ValSeq(ops, e, items, env);
      Ok(VList(vs))
    case Let(pat, rhs, body) =>
      var v :- Val(ops, rhs, env);
      var inner :- BindPat(pat, v, env);
      Val(ops, body, inner)
    case If(cond, thn, els) =>
      var v :- Val(ops, cond, env);
      if !v.VBool? then Err(NotClassical(IfCondition))
      else if v.b then Val(ops, thn, env) else Val(ops, els, env)
    case Match(scrutinee, arms) =>
      var v :- Val(ops, scrutinee, env);
      (match ClassicalArm(arms, v, env)
       case Chosen(body, inner) => Val(ops, body, inner)
       case NoArm(err) => Err(err))
    case App(fn, arg) =>
      var (head, args) := FlattenApp(fn, arg);
      if !head.Var? then Err(Unsupported(ClassicalCall))
      else
        var vs :- ValSeq(ops, e, args, env);
        var r :- EvalBuiltin(ops, head.name, vs);
        if r.Some? then Ok(r.value) else Err(Unsupported(ClassicalCall))
    case _ => Err(Unsupported(ClassicalExpression))
  }

  function ValSeq(ops: Ops, ghost parent: Expr, items: seq<Expr>, env: Env): (r: Res<seq<Value>>)
    requires forall i | 0 <= i < |items| :: items[i] < parent
    ensures r.Ok? ==> |r.value| == |items|
    decreases parent, 0, |items|
  {
    if items == [] then Ok([])
    else
      var v :- Val(ops, items[0], env);
      var vs :- ValSeq(ops, parent, items[1..], env);
      Ok([v] + vs)
  }
}
