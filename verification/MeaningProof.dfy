/** Elaboration preserves meaning: the gates an elaboration places act as the source denotes. */
module MeaningProof {
  import opened Ast
  import opened Classical
  import opened ClassicalLaws
  import opened GateTree
  import opened CircuitForms
  import opened Elaborate
  import opened ElaborateLaws
  import opened Meaning
  import opened RunLaws
  import opened ScopeLaws
  import opened ControlScope

  // ── Boolean arms of circuit-level matches ──────────────────────────────────

  /** The arm the classical rule takes is a boolean literal. */
  ghost predicate TakesBoolArm(arms: seq<Arm>, v: Value) {
    arms != [] &&
    match arms[0].pat
    case PLit(IntLit(k)) => v != VInt(k) && TakesBoolArm(arms[1..], v)
    case PLit(BoolLit(b)) => v == VBool(b) || TakesBoolArm(arms[1..], v)
    case _ => false
  }

  /** Whether a pattern takes a value; `bools` says whether boolean literals are tried. */
  predicate Takes(p: Pat, v: Value, bools: bool) {
    match p
    case PWild => true
    case PVar(_) => true
    case PLit(IntLit(k)) => v == VInt(k)
    case PLit(BoolLit(b)) => bools && v == VBool(b)
    case PTuple(_) => false
  }

  /** The position of the arm a rule takes; a tuple pattern stops the search. */
  function TakenArm(arms: seq<Arm>, v: Value, bools: bool): Option<nat> {
    if arms == [] || arms[0].pat.PTuple? then None
    else if Takes(arms[0].pat, v, bools) then Some(0)
    else
      match TakenArm(arms[1..], v, bools)
      case Some(n) => Some(n + 1)
      case None => None
  }

  lemma {:induction false} ClassicalArmIsTaken(arms: seq<Arm>, v: Value, env: Env)
    ensures ClassicalArm(arms, v, env).Chosen? <==> TakenArm(arms, v, true).Some?
    ensures TakenArm(arms, v, true).Some? ==>
              TakenArm(arms, v, true).value < |arms| &&
              ClassicalArm(arms, v, env).body == arms[TakenArm(arms, v, true).value].body
  {
    if arms != [] { ClassicalArmIsTaken(arms[1..], v, env); }
  }

  lemma {:induction false} CircuitArmIsTaken(arms: seq<Arm>, v: Value, env: Env)
    ensures CircuitArm(arms, v, env).Chosen? <==> TakenArm(arms, v, false).Some?
    ensures TakenArm(arms, v, false).Some? ==>
              TakenArm(arms, v, false).value < |arms| &&
              CircuitArm(arms, v, env).body == arms[TakenArm(arms, v, false).value].body
  {
    if arms != [] { CircuitArmIsTaken(arms[1..], v, env); }
  }

  /** A circuit-level `match` takes the arm the value selects exactly when that arm is not a
      boolean literal. */
  lemma {:induction false} CircuitArmIff(arms: seq<Arm>, v: Value)
    ensures TakenArm(arms, v, false) == TakenArm(arms, v, true) <==> !TakesBoolArm(arms, v)
  {
    if arms != [] { CircuitArmIff(arms[1..], v); }
  }

  lemma {:induction false} ArmsAgree(arms: seq<Arm>, v: Value, env: Env)
    requires !TakesBoolArm(arms, v) && CircuitArm(arms, v, env).Chosen?
    ensures ClassicalArm(arms, v, env) == CircuitArm(arms, v, env)
  {
    if CircuitArm(arms[1..], v, env).Chosen? && !TakesBoolArm(arms[1..], v) { ArmsAgree(arms[1..], v, env); }
  }

  // ── Classical parts ────────────────────────────────────────────────────────

  lemma {:induction false} LetsMean(ops: Ops, stmts: seq<Stmt>, env: Env, fuel: nat)
    requires EvalLets(ops, stmts, env, fuel).Done?
    ensures LetEnv(ops, stmts, env) == Ok(EvalLets(ops, stmts, env, fuel).value)
    decreases |stmts|
  {
    if stmts != [] {
      EvalIsVal(ops, stmts[0].rhs, env, fuel);
      var r := Eval(ops, stmts[0].rhs, env, fuel);
      LetsMean(ops, stmts[1..], BindPat(stmts[0].pat, r.value, env).value, r.fuel);
    }
  }

  /** A call binds each parameter the argument in its place. */
  lemma {:induction false} ParamsBound(params: seq<Name>, vs: seq<Value>, env: Env)
    requires |params| == |vs|
    ensures BindParams(params, vs, env).Keys == env.Keys + set n | n in params
    ensures forall i | 0 <= i < |params| && params[i] !in params[i + 1..] :: BindParams(params, vs, env)[params[i]] == vs[i]
    ensures forall n | n in env && n !in params :: BindParams(params, vs, env)[n] == env[n]
    decreases |params|
  {
    if params != [] {
      var rest := params[1..];
      ParamsBound(rest, vs[1..], env[params[0] := vs[0]]);
      forall i | 0 <= i < |params| && params[i] !in params[i + 1..]
        ensures BindParams(params, vs, env)[params[i]] == vs[i]
      {
        if i > 0 { assert params[i] == rest[i - 1] && params[i + 1..] == rest[i..]; }
      }
    }
  }

  lemma ParamsAreArgs(params: seq<Name>, vs: seq<Value>)
    requires |params| == |vs|
    ensures BindParams(params, vs, map[]) == ArgsOf(params, vs)
  {
    ParamsBound(params, vs, map[]);
    forall n | n in params ensures BindParams(params, vs, map[])[n] == vs[LastNamed(params, n)] {
      assert params[LastNamed(params, n)] !in params[LastNamed(params, n) + 1..];
    }
  }

  lemma {:induction false} NatBound(params: seq<Name>, vs: seq<Value>, n: Name)
    requires |params| == |vs|
    ensures n in NatArgs(params, vs) <==> LastNat(params, vs, n).Some?
    ensures n in NatArgs(params, vs) ==> NatArgs(params, vs)[n] == vs[LastNat(params, vs, n).value].i
    decreases |params|
  {
    var k := |params| - 1;
    if k >= 0 { NatBound(params[..k], vs[..k], n); }
  }

  /** What a declared width may read: each name's last natural argument. */
  lemma NatsBound(params: seq<Name>, vs: seq<Value>)
    requires |params| == |vs|
    ensures NatArgs(params, vs) == NatsOf(params, vs)
  {
    forall n: Name ensures n in NatArgs(params, vs) <==> n in NatsOf(params, vs)
                   ensures n in NatsOf(params, vs) ==> NatArgs(params, vs)[n] == NatsOf(params, vs)[n]
    {
      hide NatArgs;
      NatBound(params, vs, n);
    }
  }

  lemma WidthMeans(c: Ctx, e: Expr, env: Env, fuel: nat)
    requires DeclaredWidth(c, e, env, fuel).Done?
    ensures WidthOf(c, e, env) == Ok(DeclaredWidth(c, e, env, fuel).value)
  {
    var (head, args) := FlattenApp(e.fn, e.arg);
    if head == Var("identity") && |args| == 1 {
      EvalIsVal(c.ops, args[0], env, fuel);
    } else {
      var params := c.parametric[head.name].params;
      var n := if |params| < |args| then |params| else |args|;
      EvalSeqIsVal(c.ops, e, args[..n], env, fuel);
      NatsBound(params[..n], EvalSeq(c.ops, args[..n], env, fuel).value);
    }
  }

  // ── Clean runs ─────────────────────────────────────────────────────────────

  /** Every circuit-level `match` that elaborating `e` comes to takes an arm that is no boolean
      literal, and no call there, in an arm of `par` or under `controlled`, sees the names bound at it.
      Arms and calls that elaboration does not come to may be anything. */
  ghost predicate Clean(c: Ctx, e: Expr, env: Env, fuel: nat, exp: set<Name>)
    decreases fuel, 0
  {
    fuel > 0 ==> CleanNode(c, e, env, fuel - 1, exp)
  }

  ghost predicate CleanNode(c: Ctx, e: Expr, env: Env, fuel: nat, exp: set<Name>)
    decreases fuel, 30
  {
    match e
    case CircuitBlock(stmts) =>
      |stmts| > 0 && stmts[|stmts| - 1].SExpr? ==>
        var lets := EvalLets(c.ops, stmts[..|stmts| - 1], env, fuel);
        lets.Done? ==> Clean(c, stmts[|stmts| - 1].e, lets.value, lets.fuel, exp)
    case Compose(lhs, rhs) =>
      var l := Elab(c, lhs, env, fuel, exp);
      Clean(c, lhs, env, fuel, exp) && (l.Done? ==> Clean(c, rhs, env, l.fuel, exp))
    case Match(scrutinee, arms) =>
      var v := Eval(c.ops, scrutinee, env, fuel);
      v.Done? ==> !TakesBoolArm(arms, v.value) && CleanChoice(c, CircuitArm(arms, v.value, env), v.fuel, exp)
    case Let(pat, rhs, body) =>
      var v := Eval(c.ops, rhs, env, fuel);
      v.Done? && BindPat(pat, v.value, env).Ok? ==> Clean(c, body, BindPat(pat, v.value, env).value, v.fuel, exp)
    case GateApp(gate, _) => gate.Controlled? ==> OnItsOwn(c, gate.inner, env, exp)
    case Adjoint(inner) => Clean(c, inner, env, fuel, exp)
    case For(pat, iter, body) =>
      var v := Eval(c.ops, iter, env, fuel);
      v.Done? && v.value.VList? ==> CleanSteps(c, pat, v.value.items, body, env, v.fuel, exp)
    case App(f, x) => CleanApp(c, f, x, env, fuel, exp)
    case Var(name) => name in c.bodies ==> CleanCallee(c, name, fuel, exp)
    case Par(body, count) =>
      var v := Eval(c.ops, count, env, fuel);
      v.Done? ==> CleanArm(c, body, env, v.fuel, exp)
    case ParN(items) => CleanArms(c, items, env, fuel, exp)
    case _ => true
  }

  ghost predicate CleanChoice(c: Ctx, choice: ArmChoice, fuel: nat, exp: set<Name>)
    decreases fuel, 1
  {
    choice.Chosen? ==> Clean(c, choice.body, choice.env, fuel, exp)
  }

  ghost predicate CleanSteps(c: Ctx, pat: Pat, items: seq<Value>, body: Expr, env: Env, fuel: nat, exp: set<Name>)
    decreases fuel, 9, |items|
  {
    items != [] && BindPat(pat, items[0], env).Ok? ==>
      var inner := BindPat(pat, items[0], env).value;
      var step := Elab(c, body, inner, fuel, exp);
      Clean(c, body, inner, fuel, exp) && (step.Done? ==> CleanSteps(c, pat, items[1..], body, env, step.fuel, exp))
  }

  ghost predicate CleanCallee(c: Ctx, name: Name, fuel: nat, exp: set<Name>)
    requires name in c.bodies
    decreases fuel, 1
  {
    name !in exp ==> Clean(c, c.bodies[name], map[], fuel, exp + {name})
  }

  ghost predicate CleanApp(c: Ctx, f: Expr, x: Expr, env: Env, fuel: nat, exp: set<Name>)
    decreases fuel, 20
  {
    var (head, args) := FlattenApp(f, x);
    if !head.Var? then CleanOther(c, App(f, x), env, fuel, exp)
    else if Juxtaposed(c, head.name, args).Some? then true
    else
      var name := head.name;
      if name == "repeat" && |args| == 2 then CleanRepeat(c, args[0], args[1], env, fuel, exp)
      else if name == "identity" && |args| == 1 then true
      else if (name == "on_high" || name == "on_low") && |args| == 2 then CleanEmbed(c, args[0], args[1], env, fuel, exp)
      else if name == "swap_reverse" && |args| == 1 then true
      else if name in c.parametric then CleanCall(c, c.parametric[name], args, env, fuel, exp)
      else CleanOther(c, App(f, x), env, fuel, exp)
  }

  ghost predicate CleanRepeat(c: Ctx, count: Expr, body: Expr, env: Env, fuel: nat, exp: set<Name>)
    decreases fuel, 10
  {
    var v := Eval(c.ops, count, env, fuel);
    v.Done? ==> Clean(c, body, env, v.fuel, exp)
  }

  ghost predicate CleanEmbed(c: Ctx, inner: Expr, target: Expr, env: Env, fuel: nat, exp: set<Name>)
    decreases fuel, 10
  {
    var v := Eval(c.ops, target, env, fuel);
    v.Done? ==> var w := DeclaredWidth(c, inner, env, v.fuel); w.Done? ==> Clean(c, inner, env, w.fuel, exp)
  }

  ghost predicate CleanCall(c: Ctx, def: ParametricDef, args: seq<Expr>, env: Env, fuel: nat, exp: set<Name>)
    decreases fuel, 10
  {
    |def.params| == |args| ==>
      var vs := EvalSeq(c.ops, args, env, fuel);
      vs.Done? ==> Clean(c, def.body, BindParams(def.params, vs.value, map[]), vs.fuel, exp)
  }

  ghost predicate CleanOther(c: Ctx, call: Expr, env: Env, fuel: nat, exp: set<Name>)
    decreases fuel, 18
  {
    var callee := ZeroArgCallee(c, call);
    callee.Some? ==> CleanCallee(c, callee.value, fuel, exp)
  }

  ghost predicate CleanArm(c: Ctx, arm: Expr, env: Env, fuel: nat, exp: set<Name>)
    decreases fuel, 2
  {
    match ZeroArgCallee(c, arm)
    case Some(name) => Unseen(c, name, env) && CleanCallee(c, name, fuel, exp)
    case None => Clean(c, arm, env, fuel, exp)
  }

  ghost predicate CleanArms(c: Ctx, items: seq<Expr>, env: Env, fuel: nat, exp: set<Name>)
    decreases fuel, 9, |items|
  {
    items != [] ==>
      var t := ElabParBody(c, items[0], env, fuel, exp);
      CleanArm(c, items[0], env, fuel, exp) && (t.Done? ==> CleanArms(c, items[1..], env, t.fuel, exp))
  }

  // ── The theorem, by induction on fuel ──────────────────────────────────────

  /** The model inverts gates as the registry does. */
  ghost predicate Setting<S(!new)>(c: Ctx, m: Model<S>) {
    InverseLaw(c.reg, m)
  }

  /** Elaboration preserves meaning. Whatever the model of the gates, the gates that an elaboration
      places, run in either direction and at any offset, act as the source expression denotes, as long
      as the run comes to no match that takes a boolean literal arm and to no call, in an arm of `par` or
      under `controlled`, that sees its caller's bindings. */
  lemma {:induction false} ElaborationPreservesMeaning<S(!new)>(c: Ctx, m: Model<S>, e: Expr, env: Env, fuel: nat, exp: set<Name>, d: nat,
                                              fwd: bool, off: int, s: S)
    requires Setting(c, m) && Clean(c, e, env, fuel, exp) && d > fuel
    requires Elab(c, e, env, fuel, exp).Done?
    ensures Den(c, m, e, env, d, fwd, off, s) == Some(Run(m, Leaves(Elab(c, e, env, fuel, exp).value), fwd, off, s))
    decreases fuel, 0
  {
    hide ElabNode, Den, Leaves, Run, CleanNode;
    NodeMeans(c, m, e, env, fuel - 1, exp, d, fwd, off, s);
  }

  lemma {:induction false} NodeMeans<S(!new)>(c: Ctx, m: Model<S>, e: Expr, env: Env, fuel: nat, exp: set<Name>, d: nat,
                                              fwd: bool, off: int, s: S)
    requires Setting(c, m) && CleanNode(c, e, env, fuel, exp) && d > fuel + 1
    requires ElabNode(c, e, env, fuel, exp).Done?
    ensures Means(m, Den(c, m, e, env, d, fwd, off, s), ElabNode(c, e, env, fuel, exp), fwd, off, s)
    decreases fuel, 40
  {
    hide *;
    match e
    case CircuitBlock(_) => BlockMeans(c, m, e, env, fuel, exp, d, fwd, off, s);
    case Compose(_, _) => ComposeMeans(c, m, e, env, fuel, exp, d, fwd, off, s);
    case Match(_, _) => MatchMeans(c, m, e, env, fuel, exp, d, fwd, off, s);
    case Let(_, _, _) => LetMeans(c, m, e, env, fuel, exp, d, fwd, off, s);
    case GateApp(_, _) => GateMeans(c, m, e, env, fuel, exp, d, fwd, off, s);
    case Adjoint(_) => AdjointMeans(c, m, e, env, fuel, exp, d, fwd, off, s);
    case For(_, _, _) => ForMeans(c, m, e, env, fuel, exp, d, fwd, off, s);
    case App(_, _) => AppMeans(c, m, e, env, fuel, exp, d, fwd, off, s);
    case Var(_) => VarMeans(c, m, e, env, fuel, exp, d, fwd, off, s);
    case Par(_, _) => ParMeans(c, m, e, env, fuel, exp, d, fwd, off, s);
    case ParN(_) => ParNMeans(c, m, e, env, fuel, exp, d, fwd, off, s);
    case _ => NothingElse(c, e, env, fuel, exp);
  }

  lemma NothingElse(c: Ctx, e: Expr, env: Env, fuel: nat, exp: set<Name>)
    requires ElabNode(c, e, env, fuel, exp).Done?
    ensures || e.CircuitBlock? || e.Compose? || e.Match? || e.Let? || e.GateApp? || e.Adjoint? || e.For? || e.App?
            || e.Var? || e.Par? || e.ParN?
  {
    hide ElabBlock, ElabCompose, ElabMatch, ElabLet, ElabGateApp, ElabAdjoint, ElabFor, ElabApp, Inline, ElabPar, ElabParN;
  }

  lemma {:induction false} BlockMeans<S(!new)>(c: Ctx, m: Model<S>, e: Expr, env: Env, fuel: nat, exp: set<Name>, d: nat,
                                               fwd: bool, off: int, s: S)
    requires Setting(c, m) && CleanNode(c, e, env, fuel, exp) && d > fuel + 1 && e.CircuitBlock?
    requires ElabNode(c, e, env, fuel, exp).Done?
    ensures Means(m, Den(c, m, e, env, d, fwd, off, s), ElabNode(c, e, env, fuel, exp), fwd, off, s)
    decreases fuel, 30
  {
    hide Elab, Clean, Leaves, Run;
    var n := |e.stmts| - 1;
    var r := EvalLets(c.ops, e.stmts[..n], env, fuel);
    LetsMean(c.ops, e.stmts[..n], env, fuel);
    ElaborationPreservesMeaning(c, m, e.stmts[n].e, r.value, r.fuel, exp, d, fwd, off, s);
  }

  lemma {:induction false} ComposeMeans<S(!new)>(c: Ctx, m: Model<S>, e: Expr, env: Env, fuel: nat, exp: set<Name>, d: nat,
                                                 fwd: bool, off: int, s: S)
    requires Setting(c, m) && CleanNode(c, e, env, fuel, exp) && d > fuel + 1 && e.Compose?
    requires ElabNode(c, e, env, fuel, exp).Done?
    ensures Means(m, Den(c, m, e, env, d, fwd, off, s), ElabNode(c, e, env, fuel, exp), fwd, off, s)
    decreases fuel, 30
  {
    hide Elab, Clean, Leaves, Run;
    var l := Elab(c, e.lhs, env, fuel, exp);
    var r := Elab(c, e.rhs, env, l.fuel, exp);
    LeavesNonempty(l.value, r.value);
    RunConcat(m, Leaves(l.value), Leaves(r.value), fwd, off, s);
    if fwd {
      ElaborationPreservesMeaning(c, m, e.lhs, env, fuel, exp, d, fwd, off, s);
      ElaborationPreservesMeaning(c, m, e.rhs, env, l.fuel, exp, d, fwd, off, Run(m, Leaves(l.value), fwd, off, s));
    } else {
      ElaborationPreservesMeaning(c, m, e.rhs, env, l.fuel, exp, d, fwd, off, s);
      ElaborationPreservesMeaning(c, m, e.lhs, env, fuel, exp, d, fwd, off, Run(m, Leaves(r.value), fwd, off, s));
    }
  }

  lemma {:induction false} MatchMeans<S(!new)>(c: Ctx, m: Model<S>, e: Expr, env: Env, fuel: nat, exp: set<Name>, d: nat,
                                               fwd: bool, off: int, s: S)
    requires Setting(c, m) && CleanNode(c, e, env, fuel, exp) && d > fuel + 1 && e.Match?
    requires ElabNode(c, e, env, fuel, exp).Done?
    ensures Means(m, Den(c, m, e, env, d, fwd, off, s), ElabNode(c, e, env, fuel, exp), fwd, off, s)
    decreases fuel, 30
  {
    hide Elab, Clean, Leaves, Run, Eval;
    var r := Eval(c.ops, e.scrutinee, env, fuel);
    EvalIsVal(c.ops, e.scrutinee, env, fuel);
    ArmsAgree(e.arms, r.value, env);
    var choice := CircuitArm(e.arms, r.value, env);
    ElaborationPreservesMeaning(c, m, choice.body, choice.env, r.fuel, exp, d, fwd, off, s);
  }

  // ── Where a boolean arm is taken ───────────────────────────────────────────

  /** What a `match` elaborates to denotes the arm that the circuit rule takes. The match itself denotes
      the arm that its value selects. So elaborating the match is right exactly when some arm is
      selected and the two denote alike. */
  lemma MatchMeansIff<S(!new)>(c: Ctx, m: Model<S>, e: Expr, env: Env, fuel: nat, exp: set<Name>, d: nat, fwd: bool, off: int, s: S)
    requires Setting(c, m) && d > fuel && e.Match? && Elab(c, e, env, fuel, exp).Done?
    requires var v := Eval(c.ops, e.scrutinee, env, fuel - 1);
             v.Done? && CleanChoice(c, CircuitArm(e.arms, v.value, env), v.fuel, exp)
    ensures var v := Eval(c.ops, e.scrutinee, env, fuel - 1).value;
            var (taken, selected) := (CircuitArm(e.arms, v, env), ClassicalArm(e.arms, v, env));
            && taken.Chosen?
            && (Den(c, m, e, env, d, fwd, off, s) == Some(Run(m, Leaves(Elab(c, e, env, fuel, exp).value), fwd, off, s))
                <==> selected.Chosen?
                     && Den(c, m, selected.body, selected.env, d, fwd, off, s) == Den(c, m, taken.body, taken.env, d, fwd, off, s))
  {
    hide Elab, Leaves, Run, Eval, Clean, Den, Setting;
    OneStep(c, e, env, fuel, exp);
    MatchStep(c, m, e, env, fuel - 1, exp, d, fwd, off, s);
    var v := Eval(c.ops, e.scrutinee, env, fuel - 1);
    var taken := CircuitArm(e.arms, v.value, env);
    ElaborationPreservesMeaning(c, m, taken.body, taken.env, v.fuel, exp, d, fwd, off, s);
  }

  lemma OneStep(c: Ctx, e: Expr, env: Env, fuel: nat, exp: set<Name>)
    requires Elab(c, e, env, fuel, exp).Done?
    ensures fuel > 0 && Elab(c, e, env, fuel, exp) == ElabNode(c, e, env, fuel - 1, exp)
  {
    hide ElabNode;
  }

  lemma MatchStep<S>(c: Ctx, m: Model<S>, e: Expr, env: Env, fuel: nat, exp: set<Name>, d: nat, fwd: bool, off: int, s: S)
    requires e.Match? && ElabNode(c, e, env, fuel, exp).Done?
    ensures var v := Eval(c.ops, e.scrutinee, env, fuel);
            && v.Done?
            && var (taken, selected) := (CircuitArm(e.arms, v.value, env), ClassicalArm(e.arms, v.value, env));
               && taken.Chosen?
               && ElabNode(c, e, env, fuel, exp) == Elab(c, taken.body, taken.env, v.fuel, exp)
               && Den(c, m, e, env, d, fwd, off, s)
                    == if selected.Chosen? then Den(c, m, selected.body, selected.env, d, fwd, off, s) else None
  {
    hide Elab, Eval;
    EvalIsVal(c.ops, e.scrutinee, env, fuel);
  }

  /** `match true { true => X @ 0, _ => H @ 0 }`. */
  function BoolMatch(): Expr {
    Match(Bool(true), [Arm(PLit(BoolLit(true)), GateApp(Var("X"), Int(0))), Arm(PWild, GateApp(Var("H"), Int(0)))])
  }

  /** It elaborates to what its second arm elaborates to, though its value selects the first. */
  lemma BoolArmIsPassedOver(c: Ctx, env: Env, fuel: nat, exp: set<Name>)
    requires fuel > 1
    ensures Elab(c, BoolMatch(), env, fuel, exp) == Elab(c, GateApp(Var("H"), Int(0)), env, fuel - 2, exp)
    ensures ClassicalArm(BoolMatch().arms, VBool(true), env) == Chosen(GateApp(Var("X"), Int(0)), env)
  {
    hide Elab;
    var (e, arms) := (BoolMatch(), BoolMatch().arms);
    assert arms[1..] == [Arm(PWild, GateApp(Var("H"), Int(0)))];
    assert CircuitArm(arms, VBool(true), env) == Chosen(GateApp(Var("H"), Int(0)), env);
    assert Eval(c.ops, Bool(true), env, fuel - 1) == EvalNode(c.ops, Bool(true), env, fuel - 2);
    TakenElaborates(c, Bool(true), arms, env, fuel, exp);
  }

  lemma TakenElaborates(c: Ctx, scrutinee: Expr, arms: seq<Arm>, env: Env, fuel: nat, exp: set<Name>)
    requires fuel > 0 && Eval(c.ops, scrutinee, env, fuel - 1).Done?
    requires CircuitArm(arms, Eval(c.ops, scrutinee, env, fuel - 1).value, env).Chosen?
    ensures var v := Eval(c.ops, scrutinee, env, fuel - 1);
            var taken := CircuitArm(arms, v.value, env);
            Elab(c, Match(scrutinee, arms), env, fuel, exp) == Elab(c, taken.body, taken.env, v.fuel, exp)
  {
    hide Eval, ElabBlock, ElabCompose, ElabLet, ElabGateApp, ElabAdjoint, ElabFor, ElabApp, Inline, ElabPar, ElabParN;
    assert ElabNode(c, Match(scrutinee, arms), env, fuel - 1, exp) == ElabMatch(c, scrutinee, arms, env, fuel - 1, exp);
  }

  lemma {:induction false} LetMeans<S(!new)>(c: Ctx, m: Model<S>, e: Expr, env: Env, fuel: nat, exp: set<Name>, d: nat,
                                             fwd: bool, off: int, s: S)
    requires Setting(c, m) && CleanNode(c, e, env, fuel, exp) && d > fuel + 1 && e.Let?
    requires ElabNode(c, e, env, fuel, exp).Done?
    ensures Means(m, Den(c, m, e, env, d, fwd, off, s), ElabNode(c, e, env, fuel, exp), fwd, off, s)
    decreases fuel, 30
  {
    hide Elab, Clean, Leaves, Run, Eval;
    var r := Eval(c.ops, e.rhs, env, fuel);
    EvalIsVal(c.ops, e.rhs, env, fuel);
    ElaborationPreservesMeaning(c, m, e.body, BindPat(e.pat, r.value, env).value, r.fuel, exp, d, fwd, off, s);
  }

  /** A tree that is one gate takes one step. */
  lemma OneGateRuns<S>(m: Model<S>, t: Expr, fwd: bool, off: int, s: S)
    requires !t.Compose? && !t.CircuitBlock?
    ensures Run(m, Leaves(t), fwd, off, s)
         == Step(m, ShiftLeaf(if t.GateApp? then Placed(t.gate, t.qubits) else Bare(t), off), fwd, s)
  {
    hide Step;
    var l := if t.GateApp? then Placed(t.gate, t.qubits) else Bare(t);
    assert Leaves(t) == [l];
    assert Run(m, [l][1..], fwd, off, s) == s;
  }

  lemma {:induction false} GateMeans<S(!new)>(c: Ctx, m: Model<S>, e: Expr, env: Env, fuel: nat, exp: set<Name>, d: nat,
                                              fwd: bool, off: int, s: S)
    requires Setting(c, m) && CleanNode(c, e, env, fuel, exp) && d > fuel + 1 && e.GateApp?
    requires ElabNode(c, e, env, fuel, exp).Done?
    ensures Means(m, Den(c, m, e, env, d, fwd, off, s), ElabNode(c, e, env, fuel, exp), fwd, off, s)
    decreases fuel, 30
  {
    hide Ctl, Subst, DenControl, OnItsOwn;
    if e.gate.Controlled? {
      var ct := SplitControl(Subst(c.ops, e.qubits, env)).value;
      ControlMeans(c, m, e.gate.inner, ct.0, SingletonTarget(ct.1), env, fuel, exp, d, fwd, off, s);
    } else if !IsRzz(e.gate) {
      OneGateRuns(m, GateApp(Subst(c.ops, e.gate, env), Subst(c.ops, e.qubits, env)), fwd, off, s);
    }
  }

  lemma {:induction false} AdjointMeans<S(!new)>(c: Ctx, m: Model<S>, e: Expr, env: Env, fuel: nat, exp: set<Name>, d: nat,
                                                 fwd: bool, off: int, s: S)
    requires Setting(c, m) && CleanNode(c, e, env, fuel, exp) && d > fuel + 1 && e.Adjoint?
    requires ElabNode(c, e, env, fuel, exp).Done?
    ensures Means(m, Den(c, m, e, env, d, fwd, off, s), ElabNode(c, e, env, fuel, exp), fwd, off, s)
    decreases fuel, 30
  {
    hide Elab, Clean, Leaves, Run, ReverseAndInvert;
    ElaborationPreservesMeaning(c, m, e.inner, env, fuel, exp, d, !fwd, off, s);
    RunAdjoint(c.reg, m, Elab(c, e.inner, env, fuel, exp).value, fwd, off, s);
  }

  lemma {:induction false} ForMeans<S(!new)>(c: Ctx, m: Model<S>, e: Expr, env: Env, fuel: nat, exp: set<Name>, d: nat,
                                             fwd: bool, off: int, s: S)
    requires Setting(c, m) && CleanNode(c, e, env, fuel, exp) && d > fuel + 1 && e.For?
    requires ElabNode(c, e, env, fuel, exp).Done?
    ensures Means(m, Den(c, m, e, env, d, fwd, off, s), ElabNode(c, e, env, fuel, exp), fwd, off, s)
    decreases fuel, 30
  {
    hide Elab, CleanSteps, ElabSteps, DenFor, Run, Eval;
    var r := Eval(c.ops, e.iter, env, fuel);
    EvalIsVal(c.ops, e.iter, env, fuel);
    StepsPlace(c, e.pat, r.value.items, e.body, EMPTY, env, r.fuel, exp);
    StepsMean(c, m, e.pat, r.value.items, e.body, EMPTY, env, r.fuel, exp, d, fwd, off, s);
    var rest := StepLeaves(c, e.pat, r.value.items, e.body, env, r.fuel, exp);
    assert Leaves(EMPTY) + rest == rest;
  }

  /** The gates the remaining rounds of a `for` loop place. */
  ghost function StepLeaves(c: Ctx, pat: Pat, items: seq<Value>, body: Expr, env: Env, fuel: nat, exp: set<Name>): seq<Leaf>
    decreases |items|
  {
    if items == [] then []
    else
      match BindPat(pat, items[0], env)
      case Err(_) => []
      case Ok(inner) =>
        match Elab(c, body, inner, fuel, exp)
        case Fail(_) => []
        case Done(t, f) => Leaves(t) + StepLeaves(c, pat, items[1..], body, env, f, exp)
  }

  lemma {:induction false} StepsPlace(c: Ctx, pat: Pat, items: seq<Value>, body: Expr, acc: Expr, env: Env, fuel: nat, exp: set<Name>)
    requires IsGateTree(acc) && ElabSteps(c, pat, items, body, acc, env, fuel, exp).Done?
    ensures Adds(ElabSteps(c, pat, items, body, acc, env, fuel, exp), acc, StepLeaves(c, pat, items, body, env, fuel, exp))
    decreases |items|
  {
    hide Elab, Leaves, Append, BindPat, IsGateTree;
    if items != [] {
      var step := Elab(c, body, BindPat(pat, items[0], env).value, fuel, exp);
      LeavesNonempty(acc, step.value);
      StepsPlace(c, pat, items[1..], body, Append(acc, step.value), env, step.fuel, exp);
    }
  }

  /** The remaining rounds act as the `for` loop denotes. */
  lemma {:induction false} StepsMean<S(!new)>(c: Ctx, m: Model<S>, pat: Pat, items: seq<Value>, body: Expr, acc: Expr,
      env: Env, fuel: nat, exp: set<Name>, d: nat, fwd: bool, off: int, s: S)
    requires Setting(c, m) && CleanSteps(c, pat, items, body, env, fuel, exp) && d > fuel && IsGateTree(acc)
    requires ElabSteps(c, pat, items, body, acc, env, fuel, exp).Done?
    ensures DenFor(c, m, pat, items, body, env, d, fwd, off, s)
         == Some(Run(m, StepLeaves(c, pat, items, body, env, fuel, exp), fwd, off, s))
    decreases fuel, 10, |items|
  {
    hide *;
    if items == [] { NoStepsMean(c, m, pat, body, env, fuel, exp, d, fwd, off, s); }
    else if fwd { StepForward(c, m, pat, items, body, acc, env, fuel, exp, d, fwd, off, s); }
    else { StepBackward(c, m, pat, items, body, acc, env, fuel, exp, d, fwd, off, s); }
  }

  lemma NoStepsMean<S>(c: Ctx, m: Model<S>, pat: Pat, body: Expr, env: Env, fuel: nat, exp: set<Name>, d: nat, fwd: bool,
                       off: int, s: S)
    ensures DenFor(c, m, pat, [], body, env, d, fwd, off, s)
         == Some(Run(m, StepLeaves(c, pat, [], body, env, fuel, exp), fwd, off, s))
  {
    hide Elab, Den, Leaves;
  }

  /** What the first of the remaining rounds does. */
  lemma StepParts(c: Ctx, pat: Pat, items: seq<Value>, body: Expr, acc: Expr, env: Env, fuel: nat, exp: set<Name>)
    requires CleanSteps(c, pat, items, body, env, fuel, exp) && IsGateTree(acc) && items != []
    requires ElabSteps(c, pat, items, body, acc, env, fuel, exp).Done?
    ensures BindPat(pat, items[0], env).Ok?
    ensures var inner := BindPat(pat, items[0], env).value;
            var step := Elab(c, body, inner, fuel, exp);
            && step.Done? && step.fuel < fuel && IsGateTree(Append(acc, step.value))
            && Clean(c, body, inner, fuel, exp) && CleanSteps(c, pat, items[1..], body, env, step.fuel, exp)
            && ElabSteps(c, pat, items[1..], body, Append(acc, step.value), env, step.fuel, exp).Done?
            && StepLeaves(c, pat, items, body, env, fuel, exp)
                 == Leaves(step.value) + StepLeaves(c, pat, items[1..], body, env, step.fuel, exp)
  {
    hide Elab, Leaves, Append, BindPat, IsGateTree, Clean;
  }

  lemma {:induction false} StepForward<S(!new)>(c: Ctx, m: Model<S>, pat: Pat, items: seq<Value>, body: Expr, acc: Expr,
      env: Env, fuel: nat, exp: set<Name>, d: nat, fwd: bool, off: int, s: S)
    requires Setting(c, m) && CleanSteps(c, pat, items, body, env, fuel, exp) && d > fuel && IsGateTree(acc) && items != [] && fwd
    requires ElabSteps(c, pat, items, body, acc, env, fuel, exp).Done?
    ensures DenFor(c, m, pat, items, body, env, d, fwd, off, s)
         == Some(Run(m, StepLeaves(c, pat, items, body, env, fuel, exp), fwd, off, s))
    decreases fuel, 9, |items|
  {
    hide Elab, ElabSteps, Den, Leaves, StepLeaves, Append, BindPat, IsGateTree, Run, Setting, Clean, CleanSteps;
    StepParts(c, pat, items, body, acc, env, fuel, exp);
    var inner := BindPat(pat, items[0], env).value;
    var step := Elab(c, body, inner, fuel, exp);
    var first, rest := Leaves(step.value), StepLeaves(c, pat, items[1..], body, env, step.fuel, exp);
    RunConcat(m, first, rest, fwd, off, s);
    ElaborationPreservesMeaning(c, m, body, inner, fuel, exp, d, fwd, off, s);
    StepsMean(c, m, pat, items[1..], body, Append(acc, step.value), env, step.fuel, exp, d, fwd, off,
              Run(m, first, fwd, off, s));
  }

  lemma {:induction false} StepBackward<S(!new)>(c: Ctx, m: Model<S>, pat: Pat, items: seq<Value>, body: Expr, acc: Expr,
      env: Env, fuel: nat, exp: set<Name>, d: nat, fwd: bool, off: int, s: S)
    requires Setting(c, m) && CleanSteps(c, pat, items, body, env, fuel, exp) && d > fuel && IsGateTree(acc) && items != [] && !fwd
    requires ElabSteps(c, pat, items, body, acc, env, fuel, exp).Done?
    ensures DenFor(c, m, pat, items, body, env, d, fwd, off, s)
         == Some(Run(m, StepLeaves(c, pat, items, body, env, fuel, exp), fwd, off, s))
    decreases fuel, 9, |items|
  {
    hide Elab, ElabSteps, Den, Leaves, StepLeaves, Append, BindPat, IsGateTree, Run, Setting, Clean, CleanSteps;
    StepParts(c, pat, items, body, acc, env, fuel, exp);
    var inner := BindPat(pat, items[0], env).value;
    var step := Elab(c, body, inner, fuel, exp);
    var first, rest := Leaves(step.value), StepLeaves(c, pat, items[1..], body, env, step.fuel, exp);
    RunConcat(m, first, rest, fwd, off, s);
    StepsMean(c, m, pat, items[1..], body, Append(acc, step.value), env, step.fuel, exp, d, fwd, off, s);
    ElaborationPreservesMeaning(c, m, body, inner, fuel, exp, d, fwd, off, Run(m, rest, fwd, off, s));
  }

  lemma {:induction false} VarMeans<S(!new)>(c: Ctx, m: Model<S>, e: Expr, env: Env, fuel: nat, exp: set<Name>, d: nat,
                                             fwd: bool, off: int, s: S)
    requires Setting(c, m) && CleanNode(c, e, env, fuel, exp) && d > fuel + 1 && e.Var?
    requires ElabNode(c, e, env, fuel, exp).Done?
    ensures Means(m, Den(c, m, e, env, d, fwd, off, s), ElabNode(c, e, env, fuel, exp), fwd, off, s)
    decreases fuel, 30
  {
    hide Inline, DenCallee, CleanCallee;
    if e.name in c.bodies { InlineMeans(c, m, e.name, fuel, exp, d, fwd, off, s); } else { OneGateRuns(m, e, fwd, off, s); }
  }

  lemma {:induction false} InlineMeans<S(!new)>(c: Ctx, m: Model<S>, name: Name, fuel: nat, exp: set<Name>, d: nat,
                                                fwd: bool, off: int, s: S)
    requires Setting(c, m) && d > fuel + 1 && name in c.bodies && CleanCallee(c, name, fuel, exp)
    requires Inline(c, name, map[], fuel, exp).Done?
    ensures Means(m, DenCallee(c, m, name, d, fwd, off, s), Inline(c, name, map[], fuel, exp), fwd, off, s)
    decreases fuel, 1
  {
    hide Elab, Clean, Den, Leaves, Run;
    ElaborationPreservesMeaning(c, m, c.bodies[name], map[], fuel, exp + {name}, d - 1, fwd, off, s);
  }

  // ── Calls ──────────────────────────────────────────────────────────────────

  lemma {:induction false} AppMeans<S(!new)>(c: Ctx, m: Model<S>, e: Expr, env: Env, fuel: nat, exp: set<Name>, d: nat,
                                             fwd: bool, off: int, s: S)
    requires Setting(c, m) && CleanNode(c, e, env, fuel, exp) && d > fuel + 1 && e.App?
    requires ElabNode(c, e, env, fuel, exp).Done?
    ensures Means(m, Den(c, m, e, env, d, fwd, off, s), ElabNode(c, e, env, fuel, exp), fwd, off, s)
    decreases fuel, 30
  {
    hide CleanApp, ElabApp, DenApp, Leaves, Run;
    ApplicationMeans(c, m, e, env, fuel, exp, d, fwd, off, s);
  }

  lemma {:induction false} ApplicationMeans<S(!new)>(c: Ctx, m: Model<S>, e: Expr, env: Env, fuel: nat, exp: set<Name>, d: nat,
                                                     fwd: bool, off: int, s: S)
    requires Setting(c, m) && e.App? && CleanApp(c, e.fn, e.arg, env, fuel, exp) && d > fuel + 1
    requires ElabApp(c, e.fn, e.arg, env, fuel, exp).Done?
    ensures Means(m, DenApp(c, m, e, env, d, fwd, off, s), ElabApp(c, e.fn, e.arg, env, fuel, exp), fwd, off, s)
    decreases fuel, 29
  {
    hide CleanOther, CleanRepeat, CleanEmbed, CleanCall, ElabNamedApp, ElabOther, DenOther, DenRepeat, DenCall, EmbedOffset, Subst;
    var (head, args) := FlattenApp(e.fn, e.arg);
    assert e == App(e.fn, e.arg);
    if !head.Var? {
      OtherMeans(c, m, e, env, fuel, exp, d, fwd, off, s);
    } else if Juxtaposed(c, head.name, args).None? {
      NamedMeans(c, m, e, env, fuel, exp, d, fwd, off, s);
    } else {
      OneGateRuns(m, ElabApp(c, e.fn, e.arg, env, fuel, exp).value, fwd, off, s);
    }
  }

  lemma {:induction false} OtherMeans<S(!new)>(c: Ctx, m: Model<S>, e: Expr, env: Env, fuel: nat, exp: set<Name>, d: nat,
                                               fwd: bool, off: int, s: S)
    requires Setting(c, m) && d > fuel + 1 && e.App? && CleanOther(c, e, env, fuel, exp)
    requires ElabOther(c, e, env, fuel, exp).Done?
    ensures Means(m, DenOther(c, m, e, env, d, fwd, off, s), ElabOther(c, e, env, fuel, exp), fwd, off, s)
    decreases fuel, 18
  {
    hide CleanCallee, Inline, DenCallee, Subst;
    var callee := ZeroArgCallee(c, e);
    if callee.Some? {
      InlineMeans(c, m, callee.value, fuel, exp, d, fwd, off, s);
    } else {
      OneGateRuns(m, Subst(c.ops, e, env), fwd, off, s);
    }
  }

  lemma {:induction false} NamedMeans<S(!new)>(c: Ctx, m: Model<S>, e: Expr, env: Env, fuel: nat, exp: set<Name>, d: nat,
                                               fwd: bool, off: int, s: S)
    requires Setting(c, m) && e.App? && CleanApp(c, e.fn, e.arg, env, fuel, exp) && d > fuel + 1
    requires var (head, args) := FlattenApp(e.fn, e.arg);
             && head.Var? && Juxtaposed(c, head.name, args).None?
             && ElabNamedApp(c, head.name, args, e, env, fuel, exp).Done?
    ensures var (head, args) := FlattenApp(e.fn, e.arg);
            DenApp(c, m, e, env, d, fwd, off, s)
            == Some(Run(m, Leaves(ElabNamedApp(c, head.name, args, e, env, fuel, exp).value), fwd, off, s))
    decreases fuel, 28
  {
    hide CleanOther, CleanRepeat, CleanEmbed, CleanCall, ElabRepeat, ElabEmbed, ElabCall, ElabOther, SwapReverse, DenOther, DenRepeat, DenCall, EmbedOffset, Eval, Val, Leaves, Run;
    var (head, args) := FlattenApp(e.fn, e.arg);
    var name := head.name;
    if name == "repeat" && |args| == 2 {
      RepeatMeans(c, m, args[0], args[1], env, fuel, exp, d, fwd, off, s);
    } else if name == "identity" && |args| == 1 {
      EmptyMeans(m, fwd, off, s);
    } else if (name == "on_high" || name == "on_low") && |args| == 2 {
      EmbedMeans(c, m, name == "on_high", args[0], args[1], env, fuel, exp, d, fwd, off, s);
    } else if name == "swap_reverse" && |args| == 1 {
      EvalIsVal(c.ops, args[0], env, fuel);
      SwapReverseMeans(Eval(c.ops, args[0], env, fuel).value.i);
    } else if name in c.parametric {
      CallMeans(c, m, c.parametric[name], e, args, env, fuel, exp, d, fwd, off, s);
    } else {
      OtherMeans(c, m, e, env, fuel, exp, d, fwd, off, s);
    }
  }

  lemma EmptyMeans<S>(m: Model<S>, fwd: bool, off: int, s: S)
    ensures Run(m, Leaves(EMPTY), fwd, off, s) == s
    ensures Run(m, [], fwd, off, s) == s
  {
  }

  lemma {:induction false} RepeatMeans<S(!new)>(c: Ctx, m: Model<S>, count: Expr, body: Expr, env: Env, fuel: nat, exp: set<Name>,
                                                d: nat, fwd: bool, off: int, s: S)
    requires Setting(c, m) && CleanRepeat(c, count, body, env, fuel, exp) && d > fuel + 1
    requires ElabRepeat(c, count, body, env, fuel, exp).Done?
    ensures Val(c.ops, count, env).Ok? && Val(c.ops, count, env).value.VInt?
    ensures Means(m, DenRepeat(c, m, body, Val(c.ops, count, env).value.i, env, d, fwd, off, s),
                  ElabRepeat(c, count, body, env, fuel, exp), fwd, off, s)
    decreases fuel, 12
  {
    hide Elab, DenRepeat, Eval, Val, Run, Repeat, Times, IsGateTree, Clean;
    EvalIsVal(c.ops, count, env, fuel);
    var r := Eval(c.ops, count, env, fuel);
    var t := Elab(c, body, env, r.fuel, exp);
    RepeatLeaves(t.value, r.value.i, EMPTY);
    assert Leaves(EMPTY) + Times(Leaves(t.value), r.value.i) == Times(Leaves(t.value), r.value.i);
    RoundsMean(c, m, body, r.value.i, env, r.fuel, exp, d, fwd, off, s);
  }

  lemma {:induction false} RoundsMean<S(!new)>(c: Ctx, m: Model<S>, body: Expr, k: int, env: Env, fuel: nat, exp: set<Name>, d: nat,
                                               fwd: bool, off: int, s: S)
    requires Setting(c, m) && Clean(c, body, env, fuel, exp) && d > fuel
    requires Elab(c, body, env, fuel, exp).Done?
    ensures DenRepeat(c, m, body, k, env, d, fwd, off, s)
         == Some(Run(m, Times(Leaves(Elab(c, body, env, fuel, exp).value), k), fwd, off, s))
    decreases fuel, 9, if k < 0 then 0 else k
  {
    hide Clean, Elab, Den, Leaves;
    if k > 0 {
      var ls := Leaves(Elab(c, body, env, fuel, exp).value);
      ElaborationPreservesMeaning(c, m, body, env, fuel, exp, d, fwd, off, s);
      RoundsMean(c, m, body, k - 1, env, fuel, exp, d, fwd, off, Run(m, ls, fwd, off, s));
      RunConcat(m, ls, Times(ls, k - 1), fwd, off, s);
      if !fwd {
        TimesCommutes(ls, k - 1);
        RunConcat(m, Times(ls, k - 1), ls, fwd, off, s);
      }
    }
  }

  lemma {:induction false} TimesCommutes(ls: seq<Leaf>, k: int)
    ensures ls + Times(ls, k) == Times(ls, k) + ls
    decreases k
  {
    if k > 0 {
      TimesCommutes(ls, k - 1);
      assert ls + (ls + Times(ls, k - 1)) == ls + (Times(ls, k - 1) + ls);
    }
  }

  lemma {:induction false} EmbedMeans<S(!new)>(c: Ctx, m: Model<S>, high: bool, inner: Expr, target: Expr, env: Env, fuel: nat,
                                               exp: set<Name>, d: nat, fwd: bool, off: int, s: S)
    requires Setting(c, m) && CleanEmbed(c, inner, target, env, fuel, exp) && d > fuel + 1
    requires ElabEmbed(c, high, inner, target, env, fuel, exp).Done?
    ensures EmbedOffset(c, high, inner, target, env).Ok?
    ensures Means(m, Den(c, m, inner, env, d, fwd, off + EmbedOffset(c, high, inner, target, env).value, s),
                  ElabEmbed(c, high, inner, target, env, fuel, exp), fwd, off, s)
    decreases fuel, 12
  {
    hide Clean, Elab, Den, Eval, Val, DeclaredWidth, WidthOf, Leaves, Run;
    EvalIsVal(c.ops, target, env, fuel);
    var r := Eval(c.ops, target, env, fuel);
    WidthMeans(c, inner, env, r.fuel);
    var w := DeclaredWidth(c, inner, env, r.fuel);
    var k := if high then r.value.i - w.value else 0;
    ElaborationPreservesMeaning(c, m, inner, env, w.fuel, exp, d, fwd, off + k, s);
    RunShiftedTree(m, Elab(c, inner, env, w.fuel, exp).value, k, fwd, off, s);
  }

  lemma {:induction false} CallMeans<S(!new)>(c: Ctx, m: Model<S>, def: ParametricDef, parent: Expr, args: seq<Expr>, env: Env,
                                              fuel: nat, exp: set<Name>, d: nat, fwd: bool, off: int, s: S)
    requires Setting(c, m) && CleanCall(c, def, args, env, fuel, exp) && d > fuel + 1
    requires forall i | 0 <= i < |args| :: args[i] < parent
    requires ElabCall(c, def, args, env, fuel, exp).Done?
    ensures Means(m, DenCall(c, m, def, parent, args, env, d, fwd, off, s), ElabCall(c, def, args, env, fuel, exp), fwd, off, s)
    decreases fuel, 12
  {
    hide Clean, Elab, Den, EvalSeq, ValSeq, BindParams, ArgsOf, Leaves, Run;
    EvalSeqIsVal(c.ops, parent, args, env, fuel);
    var r := EvalSeq(c.ops, args, env, fuel);
    ParamsAreArgs(def.params, r.value);
    ElaborationPreservesMeaning(c, m, def.body, BindParams(def.params, r.value, map[]), r.fuel, exp, d - 1, fwd, off, s);
  }

  // ── Parallel composition ───────────────────────────────────────────────────

  lemma {:induction false} ArmMeans<S(!new)>(c: Ctx, m: Model<S>, arm: Expr, env: Env, fuel: nat, exp: set<Name>, d: nat,
                                             fwd: bool, off: int, s: S)
    requires Setting(c, m) && CleanArm(c, arm, env, fuel, exp) && d > fuel + 1
    requires ElabParBody(c, arm, env, fuel, exp).Done?
    ensures Means(m, DenArm(c, m, arm, env, d, fwd, off, s), ElabParBody(c, arm, env, fuel, exp), fwd, off, s)
    decreases fuel, 2
  {
    hide Clean, CleanCallee, Elab, Inline, Den, DenCallee, Leaves, Run, Unseen;
    var callee := ZeroArgCallee(c, arm);
    if callee.Some? {
      InlineUnseen(c, callee.value, env, fuel, exp);
      InlineMeans(c, m, callee.value, fuel, exp, d, fwd, off, s);
    } else { ElaborationPreservesMeaning(c, m, arm, env, fuel, exp, d, fwd, off, s); }
  }

  /** The width `par` gives an arm is the extent of the wires the arm's meaning touches. */
  lemma {:induction false} ArmExtent<S(!new)>(c: Ctx, m: Model<S>, arm: Expr, env: Env, fuel: nat, exp: set<Name>, d: nat)
    requires Setting(c, m) && CleanArm(c, arm, env, fuel, exp) && d > fuel + 1
    requires ElabParBody(c, arm, env, fuel, exp).Done?
    ensures DenArm(c, Recorder(), arm, env, d, true, 0, {}).Some?
    ensures Extent(DenArm(c, Recorder(), arm, env, d, true, 0, {}).value) == Width(ElabParBody(c, arm, env, fuel, exp).value)
    decreases fuel, 3
  {
    hide CleanArm, ElabParBody, DenArm, Leaves, Run, Width, Extent, Recorder;
    RecorderInverse(c.reg);
    ArmMeans(c, Recorder(), arm, env, fuel, exp, d, true, 0, {});
    WidthIsExtent(ElabParBody(c, arm, env, fuel, exp).value);
  }

  lemma {:induction false} ParMeans<S(!new)>(c: Ctx, m: Model<S>, e: Expr, env: Env, fuel: nat, exp: set<Name>, d: nat,
                                             fwd: bool, off: int, s: S)
    requires Setting(c, m) && CleanNode(c, e, env, fuel, exp) && d > fuel + 1 && e.Par?
    requires ElabNode(c, e, env, fuel, exp).Done?
    ensures Means(m, Den(c, m, e, env, d, fwd, off, s), ElabNode(c, e, env, fuel, exp), fwd, off, s)
    decreases fuel, 30
  {
    hide CleanArm, ElabParBody, DenArm, DenCopies, ParCopies, Width, Extent, Recorder, Eval, Val, Run;
    var r := Eval(c.ops, e.count, env, fuel);
    EvalIsVal(c.ops, e.count, env, fuel);
    if r.value.i == 0 {
      EmptyMeans(m, fwd, off, s);
    } else {
      var t := ElabParBody(c, e.body, env, r.fuel, exp).value;
      ArmExtent(c, m, e.body, env, r.fuel, exp, d);
      ParCopiesLeaves(t, Width(t), 0, r.value.i, EMPTY);
      assert Leaves(EMPTY) + Copies(Leaves(t), Width(t), 0, r.value.i) == Copies(Leaves(t), Width(t), 0, r.value.i);
      CopiesMean(c, m, e.body, Width(t), 0, r.value.i, env, r.fuel, exp, d, fwd, off, s);
    }
  }

  lemma {:induction false} CopiesMean<S(!new)>(c: Ctx, m: Model<S>, body: Expr, w: nat, i: int, k: int, env: Env, fuel: nat,
                                               exp: set<Name>, d: nat, fwd: bool, off: int, s: S)
    requires Setting(c, m) && CleanArm(c, body, env, fuel, exp) && d > fuel + 1
    requires ElabParBody(c, body, env, fuel, exp).Done?
    ensures DenCopies(c, m, body, w, i, k, env, d, fwd, off, s)
         == Some(Run(m, Copies(Leaves(ElabParBody(c, body, env, fuel, exp).value), w, i, k), fwd, off, s))
    decreases fuel, 9, if k < i then 0 else k - i
  {
    hide ElabParBody, DenArm, Leaves, ShiftAll, Run, Setting, CleanArm;
    EmptyMeans(m, fwd, off, s);
    if i < k {
      var ls := Leaves(ElabParBody(c, body, env, fuel, exp).value);
      var first, rest := ShiftAll(ls, i * w), Copies(ls, w, i + 1, k);
      RunConcat(m, first, rest, fwd, off, s);
      if fwd {
        ArmMeans(c, m, body, env, fuel, exp, d, fwd, off + i * w, s);
        RunShifted(m, ls, i * w, fwd, off, s);
        CopiesMean(c, m, body, w, i + 1, k, env, fuel, exp, d, fwd, off, Run(m, first, fwd, off, s));
      } else {
        CopiesMean(c, m, body, w, i + 1, k, env, fuel, exp, d, fwd, off, s);
        ArmMeans(c, m, body, env, fuel, exp, d, fwd, off + i * w, Run(m, rest, fwd, off, s));
        RunShifted(m, ls, i * w, fwd, off, Run(m, rest, fwd, off, s));
      }
    }
  }

  lemma {:induction false} ParNMeans<S(!new)>(c: Ctx, m: Model<S>, e: Expr, env: Env, fuel: nat, exp: set<Name>, d: nat,
                                              fwd: bool, off: int, s: S)
    requires Setting(c, m) && CleanNode(c, e, env, fuel, exp) && d > fuel + 1 && e.ParN?
    requires ElabNode(c, e, env, fuel, exp).Done?
    ensures Means(m, Den(c, m, e, env, d, fwd, off, s), ElabNode(c, e, env, fuel, exp), fwd, off, s)
    decreases fuel, 30
  {
    hide CleanArms, ElabParN, DenArms, Run;
    var rest := ArmsMean(c, m, e, e.items, 0, EMPTY, env, fuel, exp, d, fwd, off, s);
    assert Leaves(EMPTY) + rest == rest;
  }

  /** The `par { … }` loop appends to its accumulator the gates its remaining arms denote. */
  lemma {:induction false} ArmsMean<S(!new)>(c: Ctx, m: Model<S>, parent: Expr, items: seq<Expr>, offset: int, acc: Expr, env: Env,
                                             fuel: nat, exp: set<Name>, d: nat, fwd: bool, off: int, s: S)
    returns (rest: seq<Leaf>)
    requires Setting(c, m) && d > fuel + 1 && IsGateTree(acc) && CleanArms(c, items, env, fuel, exp)
    requires forall i | 0 <= i < |items| :: items[i] < parent
    requires ElabParN(c, items, offset, acc, env, fuel, exp).Done?
    ensures Leaves(ElabParN(c, items, offset, acc, env, fuel, exp).value) == Leaves(acc) + rest
    ensures DenArms(c, m, parent, items, env, d, fwd, off + offset, s) == Some(Run(m, rest, fwd, off, s))
    decreases fuel, 9, |items|
  {
    hide ElabParBody, DenArm, Leaves, ShiftCircuit, ShiftQubits, ComposeNonempty, IsGateTree, Width, Extent, Recorder, Run,
         Setting, CleanArm;
    if items == [] {
      rest := [];
      EmptyMeans(m, fwd, off, s);
    } else {
      var arm := ElabParBody(c, items[0], env, fuel, exp);
      var t := arm.value;
      var shifted := ShiftCircuit(t, offset);
      var first := Leaves(shifted);
      ArmExtent(c, m, items[0], env, fuel, exp, d);
      LeavesNonempty(acc, shifted);
      assert off + offset + Width(t) == off + (offset + Width(t));
      if fwd {
        ArmMeans(c, m, items[0], env, fuel, exp, d, fwd, off + offset, s);
        RunShiftedTree(m, t, offset, fwd, off, s);
        rest := ArmsMean(c, m, parent, items[1..], offset + Width(t), ComposeNonempty(acc, shifted), env, arm.fuel, exp,
                         d, fwd, off, Run(m, first, fwd, off, s));
      } else {
        rest := ArmsMean(c, m, parent, items[1..], offset + Width(t), ComposeNonempty(acc, shifted), env, arm.fuel, exp,
                         d, fwd, off, s);
        ArmMeans(c, m, items[0], env, fuel, exp, d, fwd, off + offset, Run(m, rest, fwd, off, s));
        RunShiftedTree(m, t, offset, fwd, off, Run(m, rest, fwd, off, s));
      }
      RunConcat(m, first, rest, fwd, off, s);
      rest := first + rest;
    }
  }
}
