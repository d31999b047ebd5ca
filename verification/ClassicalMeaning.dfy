/** What the classical primitives compute: arithmetic, named constants, ranges, patterns and arms. */
module ClassicalMeaning {
  import opened Ast
  import opened Classical
  import opened Meaning

  // ── Integer arithmetic ─────────────────────────────────────────────────────

  /** `n` is the exact result of an integer operation: what subtraction and division undo, the quotient
      rounded toward zero. */
  ghost predicate Exactly(op: BinOp, x: int, y: int, n: int) {
    match op
    case Add => n - y == x
    case Sub => n + y == x
    case Mul => n == x * y
    case Div =>
      y != 0
      && exists r: int :: Remainder(x, y, n, r)
    case Pow => y >= 0 && IsPower(x, y, n)
  }

  /** `x` is `n` times `y` and `r` more, where `r` is closer to zero than `y` and has the sign of `x`. */
  predicate Remainder(x: int, y: int, n: int, r: int) {
    x == n * y + r && (if r < 0 then -r else r) < (if y < 0 then -y else y) && (x >= 0 ==> r >= 0) && (x <= 0 ==> r <= 0)
  }

  /** `n` is the product of `y` copies of `x`. */
  ghost predicate IsPower(x: int, y: nat, n: int) {
    exists products: seq<int> :: Powers(x, products) && |products| == y + 1 && products[y] == n
  }

  /** Each entry is the one before it times `x`, from one. */
  predicate Powers(x: int, products: seq<int>) {
    && |products| > 0 && products[0] == 1
    && forall i | 0 < i < |products| :: products[i] == products[i - 1] * x
  }

  function OpName(op: BinOp): Arith {
    match op
    case Add => OfAdd case Sub => OfSubtract case Mul => OfMultiply case Div => OfDivide case Pow => OfPower
  }

  lemma QuotientIsExact(x: int, y: int)
    requires y != 0
    ensures Exactly(Div, x, y, TruncDiv(x, y))
  {
    assert Remainder(x, y, TruncDiv(x, y), x - TruncDiv(x, y) * y);
  }

  lemma {:induction false} PowerIsExact(x: int, y: nat) returns (products: seq<int>)
    ensures Powers(x, products) && |products| == y + 1 && products[y] == IntPow(x, y)
  {
    if y == 0 { return [1]; }
    products := PowerIsExact(x, y - 1);
    products := products + [products[y - 1] * x];
  }

  /** Integer arithmetic is exact: it gives the exact result when that is a 64-bit integer and otherwise
      reports an overflow; division by zero and negative exponents have errors of their own, and an
      exponent past 32 bits is an overflow whatever the result. */
  lemma IntegersAreExact(ops: Ops, op: BinOp, lhs: Expr, rhs: Expr, env: Env, x: int, y: int)
    requires Val(ops, lhs, env) == Ok(VInt(x)) && Val(ops, rhs, env) == Ok(VInt(y))
    ensures match Val(ops, Bin(op, lhs, rhs), env)
            case Ok(v) => v.VInt? && FitsI64(v.i) && Exactly(op, x, y, v.i) && (op.Pow? ==> y <= U32_MAX)
            case Err(DivByZero) => op.Div? && y == 0
            case Err(NegativeExponent(n)) => op.Pow? && y < 0 && n == y
            case Err(e) => e == Overflow(OpName(op)) && ((op.Pow? && y > U32_MAX) || exists n :: Exactly(op, x, y, n) && !FitsI64(n))
  {
    assert Val(ops, Bin(op, lhs, rhs), env) == IntOp(op, x, y);
    ExactResult(op, x, y);
  }

  lemma ExactResult(op: BinOp, x: int, y: int)
    ensures (op.Div? ==> y != 0) && (op.Pow? ==> 0 <= y <= U32_MAX) ==>
              exists n :: Exactly(op, x, y, n) && IntOp(op, x, y) == Checked(n, OpName(op))
  {
    match op
    case Add => assert Exactly(op, x, y, x + y);
    case Sub => assert Exactly(op, x, y, x - y);
    case Mul => assert Exactly(op, x, y, x * y);
    case Div => if y != 0 { QuotientIsExact(x, y); }
    case Pow =>
      if 0 <= y <= U32_MAX {
        var products := PowerIsExact(x, y);
        assert Exactly(op, x, y, IntPow(x, y));
      }
  }

  /** There is one exact result. */
  lemma {:induction false} ExactlyOne(op: BinOp, x: int, y: int, m: int, n: int)
    requires Exactly(op, x, y, m) && Exactly(op, x, y, n)
    ensures m == n
  {
    if op.Div? {
      var r :| Remainder(x, y, m, r);
      var s :| Remainder(x, y, n, s);
      OneQuotient(x, y, m, r, n, s);
    } else if op.Pow? {
      var ps :| Powers(x, ps) && |ps| == y + 1 && ps[y] == m;
      var qs :| Powers(x, qs) && |qs| == y + 1 && qs[y] == n;
      SamePowers(x, ps, qs, y);
    }
  }

  lemma OneQuotient(x: int, y: int, m: int, r: int, n: int, s: int)
    requires Remainder(x, y, m, r) && Remainder(x, y, n, s)
    ensures m == n
  {
    var (k, size) := (if m > n then m - n else n - m, if y < 0 then -y else y);
    assert (m - n) * y == m * y - n * y;
    SignsOf(m - n, y);
    if m != n { AtLeastOnce(k, size); }
  }

  lemma AtLeastOnce(k: int, size: int)
    requires k >= 1 && size >= 0
    ensures k * size >= size
  {
  }

  lemma SignsOf(k: int, y: int)
    ensures var product := (if k > 0 then k else -k) * (if y < 0 then -y else y); product == k * y || product == -(k * y)
  {
  }

  lemma {:induction false} SamePowers(x: int, ps: seq<int>, qs: seq<int>, i: nat)
    requires Powers(x, ps) && Powers(x, qs) && i < |ps| && i < |qs|
    ensures ps[i] == qs[i]
  {
    if i > 0 { SamePowers(x, ps, qs, i - 1); }
  }

  /** Negation gives what adds up to zero, except that the least 64-bit integer has no negative. */
  lemma NegationIsExact(ops: Ops, e: Expr, env: Env, v: Value)
    requires Val(ops, e, env) == Ok(v) && (v.VInt? ==> FitsI64(v.i))
    ensures match Val(ops, Neg(e), env)
            case Ok(VInt(n)) => v.VInt? && n + v.i == 0
            case Ok(VFloat(x)) => v.VFloat? && x + v.f == 0.0
            case Ok(_) => false
            case Err(err) => if v == VInt(I64_MIN) then err == Overflow(OfNegate)
                             else !v.VInt? && !v.VFloat? && err == NotClassical(NegationOperand)
  {
  }

  // ── Real arithmetic ────────────────────────────────────────────────────────

  /** The number a value stands for. */
  predicate IsNumber(v: Value, x: real) { v == VFloat(x) || (v.VInt? && v.i as real == x) }

  /** `z` is the exact result of a real operation: what subtraction and division undo. Division by zero and
      powers are the machine's own. */
  predicate ExactlyReal(ops: Ops, op: BinOp, x: real, y: real, z: real) {
    match op
    case Add => z - y == x
    case Sub => z + y == x
    case Mul => z == x * y
    case Div => if y == 0.0 then z == ops.overZero(x) else z * y == x
    case Pow => z == ops.powf(x, y)
  }

  /** As soon as one operand is real the operation is exact on reals. */
  lemma RealsAreExact(ops: Ops, op: BinOp, lhs: Expr, rhs: Expr, env: Env, a: Value, b: Value, x: real, y: real)
    requires Val(ops, lhs, env) == Ok(a) && Val(ops, rhs, env) == Ok(b) && (a.VFloat? || b.VFloat?)
    requires IsNumber(a, x) && IsNumber(b, y)
    ensures var r := Val(ops, Bin(op, lhs, rhs), env);
            r.Ok? && r.value.VFloat? && ExactlyReal(ops, op, x, y, r.value.f)
  {
    hide ExactlyReal, RealOp;
    RealOpIsExact(ops, op, x, y);
    assert Val(ops, Bin(op, lhs, rhs), env) == EvalBinop(ops, op, a, b);
  }

  lemma RealOpIsExact(ops: Ops, op: BinOp, x: real, y: real)
    ensures ExactlyReal(ops, op, x, y, RealOp(ops, op, x, y))
  {
  }

  function Distance(n: int, x: real): real { if n as real >= x then n as real - x else x - n as real }

  /** Within 64 bits rounding gives a nearest integer, and at a tie the one further from zero; beyond them it
      gives the bound on that side. */
  lemma RoundsToNearest(x: real, n: int)
    ensures var r := RoundHalfAway(x);
            && FitsI64(r)
            && (I64_MIN < r < I64_MAX ==>
                  && Distance(r, x) <= Distance(n, x)
                  && (Distance(n, x) == Distance(r, x) && n != r ==> if x >= 0.0 then n < r else r < n))
            && (x >= I64_MAX as real ==> r == I64_MAX) && (x <= I64_MIN as real ==> r == I64_MIN)
  {
    var r := RoundHalfAway(x);
    Within(x);
    if I64_MIN < r < I64_MAX && n != r { Further(x, r, n); }
  }

  lemma Within(x: real)
    ensures var r := RoundHalfAway(x);
            I64_MIN < r < I64_MAX ==> if x >= 0.0 then -0.5 < r as real - x <= 0.5 else -0.5 <= r as real - x < 0.5
    ensures x >= I64_MAX as real ==> RoundHalfAway(x) == I64_MAX
    ensures x <= I64_MIN as real ==> RoundHalfAway(x) == I64_MIN
  {
  }

  lemma Further(x: real, r: int, n: int)
    requires n != r && (if x >= 0.0 then -0.5 < r as real - x <= 0.5 else -0.5 <= r as real - x < 0.5)
    ensures Distance(r, x) <= Distance(n, x) && (Distance(n, x) == Distance(r, x) ==> if x >= 0.0 then n < r else r < n)
  {
    if n > r { assert n as real >= r as real + 1.0; } else { assert n as real <= r as real - 1.0; }
  }

  // ── Names ──────────────────────────────────────────────────────────────────

  /** A bound name has its value even where it is a constant's; an unbound one is a constant or an error,
      and `TAU` is twice `PI`. */
  lemma NamesMean(ops: Ops, name: Name, env: Env)
    ensures match Val(ops, Var(name), env)
            case Ok(v) =>
              if name in env then v == env[name]
              else name in {"PI", "TAU", "E"} && v.VFloat? && (name == "PI" ==> v.f == ops.pi) && (name == "E" ==> v.f == ops.e)
            case Err(e) => name !in env && name !in {"PI", "TAU", "E"} && e == UnboundVar(name)
    ensures "PI" !in env && "TAU" !in env ==>
              && Val(ops, Var("PI"), env).Ok? && Val(ops, Var("TAU"), env).Ok?
              && EvalBinop(ops, Sub, Val(ops, Var("TAU"), env).value, Val(ops, Var("PI"), env).value) == Val(ops, Var("PI"), env)
  {
  }

  /** `range(n)` lists the numbers below `n` in order, and nothing for a negative `n`. */
  lemma RangeLists(ops: Ops, arg: Expr, env: Env, n: int)
    requires Val(ops, arg, env) == Ok(VInt(n))
    ensures var r := Val(ops, App(Var("range"), arg), env);
            && r.Ok? && r.value.VList?
            && |r.value.items| == (if n < 0 then 0 else n)
            && forall i | 0 <= i < n :: r.value.items[i] == VInt(i)
  {
    assert FlattenApp(Var("range"), arg) == (Var("range"), [arg]);
    var e := App(Var("range"), arg);
    OneArgument(ops, e, arg, env);
    assert Val(ops, e, env) == Ok(VList(Upto(n)));
  }

  lemma OneArgument(ops: Ops, e: Expr, arg: Expr, env: Env)
    requires arg < e && Val(ops, arg, env).Ok?
    ensures ValSeq(ops, e, [arg], env) == Ok([Val(ops, arg, env).value])
  {
    assert [arg][1..] == [];
    assert ValSeq(ops, e, [], env) == Ok([]);
    var v := Val(ops, arg, env).value;
    assert [v] + [] == [v];
  }

  // ── Patterns ───────────────────────────────────────────────────────────────

  /** The value has the shape of the pattern. */
  predicate Fits(p: Pat, v: Value)
    decreases p
  {
    match p
    case PVar(_) => true
    case PWild => true
    case PTuple(ps) => v.VTuple? && |ps| == |v.items| && forall i | 0 <= i < |ps| :: Fits(ps[i], v.items[i])
    case PLit(_) => false
  }

  /** The names in a pattern, from left to right. */
  function NamesIn(p: Pat): seq<Name>
    decreases p, 1
  {
    match p
    case PVar(n) => [n]
    case PTuple(ps) => NamesInAll(p, |ps|)
    case _ => []
  }

  function NamesInAll(p: Pat, k: nat): seq<Name>
    requires p.PTuple? && k <= |p.pats|
    decreases p, 0, k
  {
    if k == 0 then [] else NamesInAll(p, k - 1) + NamesIn(p.pats[k - 1])
  }

  /** The parts of the value that stand where the names do. */
  function PartsAt(p: Pat, v: Value): (r: seq<Value>)
    requires Fits(p, v)
    ensures |r| == |NamesIn(p)|
    decreases p, 1
  {
    match p
    case PVar(_) => [v]
    case PTuple(ps) => PartsAtAll(p, v, |ps|)
    case _ => []
  }

  function PartsAtAll(p: Pat, v: Value, k: nat): (r: seq<Value>)
    requires p.PTuple? && Fits(p, v) && k <= |p.pats|
    ensures |r| == |NamesInAll(p, k)|
    decreases p, 0, k
  {
    if k == 0 then [] else PartsAtAll(p, v, k - 1) + PartsAt(p.pats[k - 1], v.items[k - 1])
  }

  lemma ArgsOfMore(ns: seq<Name>, vs: seq<Value>, ms: seq<Name>, ws: seq<Value>)
    requires |ns| == |vs| && |ms| == |ws|
    ensures ArgsOf(ns + ms, vs + ws) == ArgsOf(ns, vs) + ArgsOf(ms, ws)
  {
    hide LastNamed;
    forall n | n in ns + ms ensures ArgsOf(ns + ms, vs + ws)[n] == (ArgsOf(ns, vs) + ArgsOf(ms, ws))[n] {
      LastOfBoth(ns, ms, n);
    }
  }

  lemma {:induction false} LastOfBoth(ns: seq<Name>, ms: seq<Name>, n: Name)
    requires n in ns + ms
    ensures LastNamed(ns + ms, n) == if n in ms then |ns| + LastNamed(ms, n) else LastNamed(ns, n)
    decreases |ms|
  {
    if ms == [] {
      assert ns + ms == ns;
    } else {
      var k := |ms| - 1;
      assert (ns + ms)[..|ns + ms| - 1] == ns + ms[..k];
      if ms[k] != n {
        assert n in ns + ms[..k];
        LastOfBoth(ns, ms[..k], n);
      }
    }
  }

  /** A pattern binds each of its names the part of the value that stands where the name does, the last one
      if a name is repeated, and nothing else; and it fails exactly on values of another shape. */
  lemma {:induction false} PatternBinds(p: Pat, v: Value, env: Env)
    ensures BindPat(p, v, env).Ok? <==> Fits(p, v)
    ensures Fits(p, v) ==> BindPat(p, v, env) == Ok(env + ArgsOf(NamesIn(p), PartsAt(p, v)))
    decreases p, 1
  {
    hide BindPats, ArgsOf, NamesInAll, PartsAtAll;
    match p
    case PVar(n) => OneName(n, v, env);
    case PWild => NoNames(env);
    case PLit(_) =>
    case PTuple(ps) =>
      if v.VTuple? && |ps| == |v.items| {
        FitsFrom(p, v, 0, env);
        assert ps[0..] == ps && v.items[0..] == v.items;
        if Fits(p, v) {
          NoNames(env);
          NoneBefore(p, v);
          BindsFrom(p, v, 0, env, env);
        }
      }
  }

  lemma OneName(n: Name, v: Value, env: Env)
    ensures env + ArgsOf([n], [v]) == env[n := v]
  {
    assert ArgsOf([n], [v]) == map[n := v];
  }

  lemma NoNames(env: Env)
    ensures env + ArgsOf([], []) == env
  {
  }

  lemma NoneBefore(p: Pat, v: Value)
    requires p.PTuple? && Fits(p, v)
    ensures NamesInAll(p, 0) == [] && PartsAtAll(p, v, 0) == []
  {
  }

  lemma {:induction false} FitsFrom(p: Pat, v: Value, k: nat, env: Env)
    requires p.PTuple? && v.VTuple? && |p.pats| == |v.items| && k <= |p.pats|
    ensures BindPats(p.pats[k..], v.items[k..], env).Ok? <==> forall i | k <= i < |p.pats| :: Fits(p.pats[i], v.items[i])
    decreases p, 0, |p.pats| - k
  {
    if k < |p.pats| {
      hide BindPat, Fits, ArgsOf;
      PatternBinds(p.pats[k], v.items[k], env);
      assert p.pats[k..][1..] == p.pats[k + 1..] && v.items[k..][1..] == v.items[k + 1..];
      var r := BindPat(p.pats[k], v.items[k], env);
      if r.Ok? { FitsFrom(p, v, k + 1, r.value); }
    }
  }

  /** The patterns of a tuple from place `k` on, over what the ones before it bound. */
  lemma {:induction false} BindsFrom(p: Pat, v: Value, k: nat, start: Env, env: Env)
    requires p.PTuple? && Fits(p, v) && k <= |p.pats|
    requires env == start + ArgsOf(NamesInAll(p, k), PartsAtAll(p, v, k))
    ensures BindPats(p.pats[k..], v.items[k..], env) == Ok(start + ArgsOf(NamesIn(p), PartsAt(p, v)))
    decreases p, 0, |p.pats| - k
  {
    hide BindPat, ArgsOf;
    if k < |p.pats| {
      PatternBinds(p.pats[k], v.items[k], env);
      assert p.pats[k..][1..] == p.pats[k + 1..] && v.items[k..][1..] == v.items[k + 1..];
      var r := BindPat(p.pats[k], v.items[k], env);
      ArgsOfMore(NamesInAll(p, k), PartsAtAll(p, v, k), NamesIn(p.pats[k]), PartsAt(p.pats[k], v.items[k]));
      BindsFrom(p, v, k + 1, start, r.value);
    }
  }

  // ── Arms ───────────────────────────────────────────────────────────────────

  /** A name and a wildcard accept every value, a literal its own. */
  predicate Accepts(p: Pat, v: Value) {
    match p
    case PLit(IntLit(k)) => v == VInt(k)
    case PLit(BoolLit(b)) => v == VBool(b)
    case PTuple(_) => false
    case _ => true
  }

  /** The first arm that settles a classical `match`: one that accepts the value, or a tuple pattern. */
  predicate Settles(arms: seq<Arm>, v: Value, i: nat) {
    && i <= |arms|
    && (forall j | 0 <= j < i :: !Accepts(arms[j].pat, v) && !arms[j].pat.PTuple?)
    && (i < |arms| ==> Accepts(arms[i].pat, v) || arms[i].pat.PTuple?)
  }

  /** A classical `match` runs the first arm that accepts the value, with the value bound to its name if the
      arm is a name; a tuple pattern before it, or no such arm, is an error. */
  lemma {:induction false} FirstArmRuns(arms: seq<Arm>, v: Value, env: Env, i: nat)
    requires Settles(arms, v, i)
    ensures ClassicalArm(arms, v, env) ==
              if i == |arms| then NoArm(Unsupported(ClassicalMatchExhausted))
              else if arms[i].pat.PTuple? then NoArm(Unsupported(ClassicalTuplePattern))
              else Chosen(arms[i].body, if arms[i].pat.PVar? then env[arms[i].pat.name := v] else env)
    decreases |arms|
  {
    if arms != [] && i > 0 {
      assert !Accepts(arms[0].pat, v);
      assert forall j | 0 <= j < |arms[1..]| :: arms[1..][j] == arms[j + 1];
      FirstArmRuns(arms[1..], v, env, i - 1);
    }
  }
}
