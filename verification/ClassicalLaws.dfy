/** Fuel does not change what `eval_classical` computes, and enough fuel always suffices. */
module ClassicalLaws {
  import opened Ast
  import opened Classical

  /** A result with fuel agrees with the fuel-free value, or the fuel ran out. */
  ghost predicate Agrees<T>(r: Out<T>, v: Res<T>) {
    match r
    case Done(x, _) => v == Ok(x)
    case Fail(err) => err == FuelExhausted || v == Err(err)
  }

  /** `eval_classical` computes `Val`, unless it runs out of fuel. */
  lemma {:induction false} EvalIsVal(ops: Ops, e: Expr, env: Env, fuel: nat)
    ensures Agrees(Eval(ops, e, env, fuel), Val(ops, e, env))
    decreases fuel, 0
  {
    if fuel > 0 {
      if e.Neg? || e.Bin? || e.Tuple? || e.List? || e.App? { OperatorIsVal(ops, e, env, fuel - 1); }
      else { BranchIsVal(ops, e, env, fuel - 1); }
    }
  }

  lemma {:induction false} OperatorIsVal(ops: Ops, e: Expr, env: Env, fuel: nat)
    requires e.Neg? || e.Bin? || e.Tuple? || e.List? || e.App?
    ensures Agrees(EvalNode(ops, e, env, fuel), Val(ops, e, env))
    decreases fuel, 2
  {
    match e
    case Neg(inner) => EvalIsVal(ops, inner, env, fuel);
    case Bin(op, lhs, rhs) =>
      EvalIsVal(ops, lhs, env, fuel);
      var r := Eval(ops, lhs, env, fuel);
      if r.Done? { EvalIsVal(ops, rhs, env, r.fuel); }
    case Tuple(items) => EvalSeqIsVal(ops, e, items, env, fuel);
    case List(items) => EvalSeqIsVal(ops, e, items, env, fuel);
    case App(fn, arg) => EvalSeqIsVal(ops, e, FlattenApp(fn, arg).1, env, fuel);
  }

  lemma {:induction false} BranchIsVal(ops: Ops, e: Expr, env: Env, fuel: nat)
    requires !(e.Neg? || e.Bin? || e.Tuple? || e.List? || e.App?)
    ensures Agrees(EvalNode(ops, e, env, fuel), Val(ops, e, env))
    decreases fuel, 2
  {
    if e.Let? { LetIsVal(ops, e, env, fuel); }
    else if e.If? || e.Match? { ChoiceIsVal(ops, e, env, fuel); }
  }

  lemma {:induction false} LetIsVal(ops: Ops, e: Expr, env: Env, fuel: nat)
    requires e.Let?
    ensures Agrees(EvalNode(ops, e, env, fuel), Val(ops, e, env))
    decreases fuel, 1
  {
    hide Eval, EvalSeq, EvalBuiltin, FlattenApp, EvalBinop, Negate, BindPat, ClassicalArm;
    EvalIsVal(ops, e.rhs, env, fuel);
    var r := Eval(ops, e.rhs, env, fuel);
    if r.Done? && BindPat(e.pat, r.value, env).Ok? {
      EvalIsVal(ops, e.body, BindPat(e.pat, r.value, env).value, r.fuel);
    }
  }

  lemma {:induction false} ChoiceIsVal(ops: Ops, e: Expr, env: Env, fuel: nat)
    requires e.If? || e.Match?
    ensures Agrees(EvalNode(ops, e, env, fuel), Val(ops, e, env))
    decreases fuel, 1
  {
    hide Eval, EvalSeq, EvalBuiltin, FlattenApp, EvalBinop, Negate, BindPat, ClassicalArm;
    if e.If? {
      EvalIsVal(ops, e.cond, env, fuel);
      var r := Eval(ops, e.cond, env, fuel);
      if r.Done? && r.value.VBool? {
        EvalIsVal(ops, if r.value.b then e.thn else e.els, env, r.fuel);
      }
    } else {
      EvalIsVal(ops, e.scrutinee, env, fuel);
      var r := Eval(ops, e.scrutinee, env, fuel);
      if r.Done? {
        var choice := ClassicalArm(e.arms, r.value, env);
        if choice.Chosen? { EvalIsVal(ops, choice.body, choice.env, r.fuel); }
      }
    }
  }

  lemma {:induction false} EvalSeqIsVal(ops: Ops, parent: Expr, items: seq<Expr>, env: Env, fuel: nat)
    requires forall i | 0 <= i < |items| :: items[i] < parent
    ensures Agrees(EvalSeq(ops, items, env, fuel), ValSeq(ops, parent, items, env))
    decreases fuel, 1, |items|
  {
    if items != [] {
      EvalIsVal(ops, items[0], env, fuel);
      var r := Eval(ops, items[0], env, fuel);
      if r.Done? { EvalSeqIsVal(ops, parent, items[1..], env, r.fuel); }
    }
  }

  /** Fuel with some extra on top. */
  function Topped(fuel: nat, extra: nat): (n: nat)
    ensures n == fuel + extra
  {
    fuel + extra
  }

  /** `s` is `r` with `extra` more units of fuel left. */
  ghost predicate MoreFuel<T>(r: Out<T>, s: Out<T>, extra: nat) {
    r.Done? ==> s == Done(r.value, r.fuel + extra)
  }

  /** A computed value does not depend on how much fuel was left over. */
  lemma {:induction false} EvalMono(ops: Ops, e: Expr, env: Env, fuel: nat, extra: nat)
    ensures MoreFuel(Eval(ops, e, env, fuel), Eval(ops, e, env, fuel + extra), extra)
    decreases fuel, 0
  {
    if Eval(ops, e, env, fuel).Done? { NodeMono(ops, e, env, fuel - 1, extra); }
  }

  lemma {:induction false} NodeMono(ops: Ops, e: Expr, env: Env, fuel: nat, extra: nat)
    ensures MoreFuel(EvalNode(ops, e, env, fuel), EvalNode(ops, e, env, fuel + extra), extra)
    decreases fuel, 4
  {
    if e.Neg? || e.Bin? { OperatorMono(ops, e, env, fuel, extra); }
    else if e.Let? || e.If? || e.Match? { BranchMono(ops, e, env, fuel, extra); }
    else { LeafMono(ops, e, env, fuel, extra); }
  }

  lemma {:induction false} OperatorMono(ops: Ops, e: Expr, env: Env, fuel: nat, extra: nat)
    requires e.Neg? || e.Bin?
    ensures MoreFuel(EvalNode(ops, e, env, fuel), EvalNode(ops, e, env, fuel + extra), extra)
    decreases fuel, 2
  {
    if EvalNode(ops, e, env, fuel).Done? {
      if e.Neg? {
        EvalMono(ops, e.inner, env, fuel, extra);
      } else {
        EvalMono(ops, e.lhs, env, fuel, extra);
        EvalMono(ops, e.rhs, env, Eval(ops, e.lhs, env, fuel).fuel, extra);
      }
    }
  }

  lemma {:induction false} BranchMono(ops: Ops, e: Expr, env: Env, fuel: nat, extra: nat)
    requires e.Let? || e.If? || e.Match?
    ensures MoreFuel(EvalNode(ops, e, env, fuel), EvalNode(ops, e, env, fuel + extra), extra)
    decreases fuel, 2
  {
    if EvalNode(ops, e, env, fuel).Done? {
      var first := if e.Let? then e.rhs else if e.If? then e.cond else e.scrutinee;
      EvalMono(ops, first, env, fuel, extra);
      var r := Eval(ops, first, env, fuel);
      if e.Let? {
        EvalMono(ops, e.body, BindPat(e.pat, r.value, env).value, r.fuel, extra);
      } else if e.If? {
        EvalMono(ops, if r.value.b then e.thn else e.els, env, r.fuel, extra);
      } else {
        var choice := ClassicalArm(e.arms, r.value, env);
        EvalMono(ops, choice.body, choice.env, r.fuel, extra);
      }
    }
  }

  lemma {:induction false} LeafMono(ops: Ops, e: Expr, env: Env, fuel: nat, extra: nat)
    requires !(e.Neg? || e.Bin? || e.Let? || e.If? || e.Match?)
    ensures MoreFuel(EvalNode(ops, e, env, fuel), EvalNode(ops, e, env, fuel + extra), extra)
    decreases fuel, 3
  {
    hide Eval, EvalSeq, EvalBuiltin, FlattenApp, Lookup, EvalBinop, Negate, BindPat, ClassicalArm;
    if e.App? { CallMono(ops, e, env, fuel, extra); }
    else if e.Tuple? || e.List? { EvalSeqMono(ops, e.items, env, fuel, extra); }
  }

  lemma {:induction false} CallMono(ops: Ops, e: Expr, env: Env, fuel: nat, extra: nat)
    requires e.App?
    ensures MoreFuel(EvalNode(ops, e, env, fuel), EvalNode(ops, e, env, fuel + extra), extra)
    decreases fuel, 2
  {
    hide Eval, EvalSeq, EvalBuiltin, FlattenApp, Lookup, EvalBinop, Negate, BindPat, ClassicalArm;
    EvalSeqMono(ops, FlattenApp(e.fn, e.arg).1, env, fuel, extra);
  }

  lemma {:induction false} EvalSeqMono(ops: Ops, items: seq<Expr>, env: Env, fuel: nat, extra: nat)
    ensures MoreFuel(EvalSeq(ops, items, env, fuel), EvalSeq(ops, items, env, fuel + extra), extra)
    decreases fuel, 1, |items|
  {
    if items != [] && EvalSeq(ops, items, env, fuel).Done? {
      EvalMono(ops, items[0], env, fuel, extra);
      EvalSeqMono(ops, items[1..], env, Eval(ops, items[0], env, fuel).fuel, extra);
    }
  }

  /** An upper bound on the fuel that evaluating `e` can use. */
  function Cost(e: Expr): (n: nat)
    ensures n >= 1
    decreases e, 1
  {
    match e
    case Neg(inner) => 1 + Cost(inner)
    case Bin(_, lhs, rhs) => 1 + Cost(lhs) + Cost(rhs)
    case Tuple(items) => 1 + CostSeq(e, items)
    case List(items) => 1 + CostSeq(e, items)
    case Let(_, rhs, body) => 1 + Cost(rhs) + Cost(body)
    case If(cond, thn, els) => 1 + Cost(cond) + Cost(thn) + Cost(els)
    case Match(scrutinee, arms) => 1 + Cost(scrutinee) + CostArms(e, arms)
    case App(fn, arg) => 1 + CostSeq(e, FlattenApp(fn, arg).1)
    case _ => 1
  }

  function CostSeq(ghost parent: Expr, items: seq<Expr>): nat
    requires forall i | 0 <= i < |items| :: items[i] < parent
    decreases parent, 0, |items|
  {
    if items == [] then 0 else Cost(items[0]) + CostSeq(parent, items[1..])
  }

  function CostArms(ghost parent: Expr, arms: seq<Arm>): nat
    requires forall i | 0 <= i < |arms| :: arms[i].body < parent
    decreases parent, 0, |arms|
  {
    if arms == [] then 0 else Cost(arms[0].body) + CostArms(parent, arms[1..])
  }

  lemma {:induction false} ArmCost(parent: Expr, arms: seq<Arm>, v: Value, env: Env)
    requires forall i | 0 <= i < |arms| :: arms[i].body < parent
    requires ClassicalArm(arms, v, env).Chosen?
    ensures Cost(ClassicalArm(arms, v, env).body) <= CostArms(parent, arms)
  {
    if ClassicalArm(arms[1..], v, env).Chosen? {
      ArmCost(parent, arms[1..], v, env);
    }
  }

  /** `n` units of fuel are enough for `r`, which started from `fuel`. */
  ghost predicate Enough<T>(r: Out<T>, fuel: nat, n: nat) {
    match r
    case Done(_, left) => left + n >= fuel
    case Fail(err) => err != FuelExhausted
  }

  /** With `Cost(e)` units of fuel the evaluator never runs dry: it computes exactly `Val`. */
  lemma {:induction false} EvalEnough(ops: Ops, e: Expr, env: Env, fuel: nat)
    requires fuel >= Cost(e)
    ensures Enough(Eval(ops, e, env, fuel), fuel, Cost(e))
    decreases fuel, 0
  {
    if e.Neg? || e.Bin? || e.Tuple? || e.List? || e.App? { OperatorEnough(ops, e, env, fuel - 1); }
    else { BranchEnough(ops, e, env, fuel - 1); }
  }

  lemma {:induction false} OperatorEnough(ops: Ops, e: Expr, env: Env, fuel: nat)
    requires e.Neg? || e.Bin? || e.Tuple? || e.List? || e.App?
    requires fuel + 1 >= Cost(e)
    ensures Enough(EvalNode(ops, e, env, fuel), fuel, Cost(e) - 1)
    decreases fuel, 2
  {
    match e
    case Neg(inner) => EvalEnough(ops, inner, env, fuel);
    case Bin(op, lhs, rhs) =>
      EvalEnough(ops, lhs, env, fuel);
      var r := Eval(ops, lhs, env, fuel);
      if r.Done? { EvalEnough(ops, rhs, env, r.fuel); }
    case Tuple(items) => EvalSeqEnough(ops, e, items, env, fuel);
    case List(items) => EvalSeqEnough(ops, e, items, env, fuel);
    case App(fn, arg) => EvalSeqEnough(ops, e, FlattenApp(fn, arg).1, env, fuel);
  }

  lemma {:induction false} BranchEnough(ops: Ops, e: Expr, env: Env, fuel: nat)
    requires !(e.Neg? || e.Bin? || e.Tuple? || e.List? || e.App?)
    requires fuel + 1 >= Cost(e)
    ensures Enough(EvalNode(ops, e, env, fuel), fuel, Cost(e) - 1)
    decreases fuel, 2
  {
    hide Eval, EvalSeq, EvalBuiltin, FlattenApp, EvalBinop, Negate, BindPat, ClassicalArm;
    match e
    case Let(pat, rhs, body) =>
      EvalEnough(ops, rhs, env, fuel);
      var r := Eval(ops, rhs, env, fuel);
      if r.Done? {
        BindNeverDry(pat, r.value, env);
        var inner := BindPat(pat, r.value, env);
        if inner.Ok? { EvalEnough(ops, body, inner.value, r.fuel); }
      }
    case If(cond, thn, els) =>
      EvalEnough(ops, cond, env, fuel);
      var r := Eval(ops, cond, env, fuel);
      if r.Done? && r.value.VBool? {
        EvalEnough(ops, if r.value.b then thn else els, env, r.fuel);
      }
    case Match(scrutinee, arms) =>
      EvalEnough(ops, scrutinee, env, fuel);
      var r := Eval(ops, scrutinee, env, fuel);
      if r.Done? {
        var choice := ClassicalArm(arms, r.value, env);
        if choice.Chosen? {
          ArmCost(e, arms, r.value, env);
          EvalEnough(ops, choice.body, choice.env, r.fuel);
        } else {
          NoArmNeverDry(arms, r.value, env);
        }
      }
    case _ =>
  }

  lemma {:induction false} EvalSeqEnough(ops: Ops, parent: Expr, items: seq<Expr>, env: Env, fuel: nat)
    requires forall i | 0 <= i < |items| :: items[i] < parent
    requires fuel >= CostSeq(parent, items)
    ensures Enough(EvalSeq(ops, items, env, fuel), fuel, CostSeq(parent, items))
    decreases fuel, 1, |items|
  {
    if items != [] {
      EvalEnough(ops, items[0], env, fuel);
      var r := Eval(ops, items[0], env, fuel);
      if r.Done? { EvalSeqEnough(ops, parent, items[1..], env, r.fuel); }
    }
  }

  lemma {:induction false} BindNeverDry(pat: Pat, v: Value, env: Env)
    ensures BindPat(pat, v, env) != Err(FuelExhausted)
    decreases pat, 1
  {
    if pat.PTuple? && v.VTuple? && |v.items| == |pat.pats| { BindsNeverDry(pat.pats, v.items, env); }
  }

  lemma {:induction false} BindsNeverDry(pats: seq<Pat>, values: seq<Value>, env: Env)
    requires |pats| == |values|
    ensures BindPats(pats, values, env) != Err(FuelExhausted)
    decreases pats, 0
  {
    if pats != [] {
      BindNeverDry(pats[0], values[0], env);
      var r := BindPat(pats[0], values[0], env);
      if r.Ok? { BindsNeverDry(pats[1..], values[1..], r.value); }
    }
  }

  lemma {:induction false} NoArmNeverDry(arms: seq<Arm>, v: Value, env: Env)
    ensures ClassicalArm(arms, v, env) != NoArm(FuelExhausted)
  {
    if arms != [] { NoArmNeverDry(arms[1..], v, env); }
  }

  // ── The builtin `pairs` ────────────────────────────────────────────────────

  function Pair(i: int, j: int): Value { VTuple([VInt(i), VInt(j)]) }

  lemma {:induction false} PairRowContents(i: int, from: int, n: int)
    ensures |PairRow(i, from, n)| == if from >= n then 0 else n - from
    ensures forall k | 0 <= k < |PairRow(i, from, n)| :: PairRow(i, from, n)[k] == Pair(i, from + k)
    decreases n - from
  {
    if from < n { PairRowContents(i, from + 1, n); }
  }

  /** Where the pair `(i, j)` stands in `PairRows(from, n)`. */
  function PairIndex(from: int, i: int, j: int, n: int): int
    requires from <= i < j < n
    decreases i - from
  {
    if i == from then j - i - 1 else (n - from - 1) + PairIndex(from + 1, i, j, n)
  }

  /** Every pair `from <= i < j < n` stands at its own index. */
  lemma {:induction false} PairAtIndex(from: int, i: int, j: int, n: int)
    requires 0 <= from <= i < j < n
    ensures 0 <= PairIndex(from, i, j, n) < |PairRows(from, n)|
    ensures PairRows(from, n)[PairIndex(from, i, j, n)] == Pair(i, j)
    decreases i - from
  {
    PairRowContents(from, from + 1, n);
    if from < i { PairAtIndex(from + 1, i, j, n); }
  }

  /** Every index holds a pair `from <= i < j < n` whose own index it is. */
  lemma {:induction false} IndexHoldsPair(from: int, n: int, k: nat) returns (i: int, j: int)
    requires 0 <= from && k < |PairRows(from, n)|
    ensures from <= i < j < n && PairIndex(from, i, j, n) == k
    decreases n - from
  {
    PairRowContents(from, from + 1, n);
    if k < n - from - 1 {
      i, j := from, from + 1 + k;
    } else {
      i, j := IndexHoldsPair(from + 1, n, k - (n - from - 1));
    }
  }

  lemma {:induction false} PairRowsCount(from: int, n: int)
    requires 0 <= from <= n
    ensures 2 * |PairRows(from, n)| == (n - from) * (n - from - 1)
    decreases n - from
  {
    if from < n {
      PairRowContents(from, from + 1, n);
      PairRowsCount(from + 1, n);
      var m := n - from;
      assert (m - 1) * (m - 2) + 2 * (m - 1) == m * (m - 1);
    }
  }

  ghost predicate IsPairBelow(v: Value, n: int) {
    exists i, j | 0 <= i < j < n :: v == Pair(i, j)
  }

  /** `pairs(n)` lists each pair `0 <= i < j < n` exactly once, `n(n-1)/2` in all. */
  lemma PairsListsEachPairOnce(n: nat)
    ensures 2 * |PairRows(0, n)| == n * (n - 1)
    ensures forall v :: v in PairRows(0, n) <==> IsPairBelow(v, n)
    ensures forall k, l | 0 <= k < l < |PairRows(0, n)| :: PairRows(0, n)[k] != PairRows(0, n)[l]
  {
    PairRowsCount(0, n);
    var rows := PairRows(0, n);
    forall v | IsPairBelow(v, n) ensures v in rows {
      var i, j :| 0 <= i < j < n && v == Pair(i, j);
      PairAtIndex(0, i, j, n);
    }
    forall v | v in rows ensures IsPairBelow(v, n) {
      var k :| 0 <= k < |rows| && rows[k] == v;
      var i, j := IndexHoldsPair(0, n, k);
      PairAtIndex(0, i, j, n);
    }
    forall k, l | 0 <= k < l < |rows| ensures rows[k] != rows[l] {
      var i, j := IndexHoldsPair(0, n, k);
      var i', j' := IndexHoldsPair(0, n, l);
      PairAtIndex(0, i, j, n);
      PairAtIndex(0, i', j', n);
      assert Pair(i, j).items[0] == VInt(i) && Pair(i', j').items[0] == VInt(i');
      assert Pair(i, j).items[1] == VInt(j) && Pair(i', j').items[1] == VInt(j');
    }
  }
}
