/** Elaboration reads an environment only at the names it can come upon. */
module ScopeLaws {
  import opened Ast
  import opened Classical
  import opened GateTree
  import opened CircuitForms
  import opened Elaborate
  import opened EnvLaws
  import opened NameLaws

  /** Every function named in `names` has a body that mentions only `names`. */
  ghost predicate Closed(c: Ctx, names: set<Name>) {
    && (forall n | n in names && n in c.bodies :: Mentions(c.bodies[n]) <= names)
    && (forall n | n in names && n in c.parametric :: Mentions(c.parametric[n].body) <= names)
  }

  ghost predicate Scoped(c: Ctx, a: Env, b: Env, names: set<Name>) {
    Closed(c, names) && SameOn(a, b, names)
  }

  /** The same outcome, and a tree in which only `names` can still be read. */
  ghost predicate Alike(a: Out<Expr>, b: Out<Expr>, names: set<Name>) {
    a == b && (a.Done? ==> Quiet(names, a.value))
  }

  lemma SameItself(c: Ctx, a: Env, names: set<Name>)
    requires Closed(c, names)
    ensures Scoped(c, a, a, names)
  {
  }

  // ── Expressions ────────────────────────────────────────────────────────────

  /** Environments that bind the names alike give the same elaboration, errors and fuel included. */
  lemma {:induction false} ElabSame(c: Ctx, e: Expr, a: Env, b: Env, fuel: nat, exp: set<Name>, names: set<Name>)
    requires Scoped(c, a, b, names) && Mentions(e) <= names
    ensures Alike(Elab(c, e, a, fuel, exp), Elab(c, e, b, fuel, exp), names)
    decreases fuel, 0
  {
    hide ElabNode, Scoped, Mentions, Quiet;
    if fuel > 0 { NodeSameTree(c, e, a, b, fuel - 1, exp, names); }
  }

  lemma {:induction false} NodeSameTree(c: Ctx, e: Expr, a: Env, b: Env, fuel: nat, exp: set<Name>, names: set<Name>)
    requires Scoped(c, a, b, names) && Mentions(e) <= names
    ensures Alike(ElabNode(c, e, a, fuel, exp), ElabNode(c, e, b, fuel, exp), names)
    decreases fuel, 33
  {
    hide *;
    if e.CircuitBlock? || e.Compose? || e.Match? { FormSame(c, e, a, b, fuel, exp, names); }
    else if e.Let? || e.Adjoint? || e.For? { BinderSame(c, e, a, b, fuel, exp, names); }
    else if e.GateApp? || e.App? || e.Var? { CallFormSame(c, e, a, b, fuel, exp, names); }
    else { ParFormSame(c, e, a, b, fuel, exp, names); }
  }

  lemma {:induction false} FormSame(c: Ctx, e: Expr, a: Env, b: Env, fuel: nat, exp: set<Name>, names: set<Name>)
    requires Scoped(c, a, b, names) && Mentions(e) <= names && (e.CircuitBlock? || e.Compose? || e.Match?)
    ensures Alike(ElabNode(c, e, a, fuel, exp), ElabNode(c, e, b, fuel, exp), names)
    decreases fuel, 30
  {
    hide ElabBlock, ElabCompose, ElabMatch, Scoped, Alike, MentionsArms, MentionsStmts;
    match e
    case CircuitBlock(stmts) => BlockSame(c, stmts, a, b, fuel, exp, names);
    case Compose(lhs, rhs) => ComposeSame(c, lhs, rhs, a, b, fuel, exp, names);
    case Match(scrutinee, arms) => MatchSame(c, scrutinee, arms, a, b, fuel, exp, names);
  }

  lemma {:induction false} BinderSame(c: Ctx, e: Expr, a: Env, b: Env, fuel: nat, exp: set<Name>, names: set<Name>)
    requires Scoped(c, a, b, names) && Mentions(e) <= names && (e.Let? || e.Adjoint? || e.For?)
    ensures Alike(ElabNode(c, e, a, fuel, exp), ElabNode(c, e, b, fuel, exp), names)
    decreases fuel, 30
  {
    hide ElabLet, ElabFor, ElabAdjoint, Scoped, Alike;
    match e
    case Let(pat, rhs, body) => LetSame(c, pat, rhs, body, a, b, fuel, exp, names);
    case Adjoint(inner) => AdjointSame(c, inner, a, b, fuel, exp, names);
    case For(pat, iter, body) => ForSame(c, pat, iter, body, a, b, fuel, exp, names);
  }

  lemma {:induction false} CallFormSame(c: Ctx, e: Expr, a: Env, b: Env, fuel: nat, exp: set<Name>, names: set<Name>)
    requires Scoped(c, a, b, names) && Mentions(e) <= names && (e.GateApp? || e.App? || e.Var?)
    ensures Alike(ElabNode(c, e, a, fuel, exp), ElabNode(c, e, b, fuel, exp), names)
    decreases fuel, 30
  {
    hide ElabGateApp, ElabApp, Inline, Closed, SameOn;
    match e
    case GateApp(gate, qubits) => GateSame(c, gate, qubits, a, b, fuel, exp, names);
    case App(f, x) => AppSame(c, f, x, a, b, fuel, exp, names);
    case Var(name) =>
      if name in c.bodies {
        SameItself(c, map[], names);
        InlineSame(c, name, map[], map[], fuel, exp, names);
      }
  }

  lemma {:induction false} ParFormSame(c: Ctx, e: Expr, a: Env, b: Env, fuel: nat, exp: set<Name>, names: set<Name>)
    requires Scoped(c, a, b, names) && Mentions(e) <= names
    requires !(e.CircuitBlock? || e.Compose? || e.Match? || e.Let? || e.Adjoint? || e.For? || e.GateApp? || e.App? || e.Var?)
    ensures Alike(ElabNode(c, e, a, fuel, exp), ElabNode(c, e, b, fuel, exp), names)
    decreases fuel, 30
  {
    hide ElabPar, ElabParN, Scoped, Quiet, IsGateTree, MentionsAll;
    match e
    case Par(body, count) => ParSame(c, body, count, a, b, fuel, exp, names);
    case ParN(items) =>
      EmptyTree(names);
      ParNSame(c, items, 0, EMPTY, a, b, fuel, exp, names);
    case _ =>
  }

  lemma EmptyTree(names: set<Name>)
    ensures IsGateTree(EMPTY) && Quiet(names, EMPTY)
  {
  }

  lemma {:induction false} BlockSame(c: Ctx, stmts: seq<Stmt>, a: Env, b: Env, fuel: nat, exp: set<Name>, names: set<Name>)
    requires Scoped(c, a, b, names) && MentionsStmts(stmts) <= names
    ensures Alike(ElabBlock(c, stmts, a, fuel, exp), ElabBlock(c, stmts, b, fuel, exp), names)
    decreases fuel, 10
  {
    hide Elab, EvalLets, Closed, SameOn, Mentions, MentionsStmts, Quiet;
    if stmts != [] {
      var n := |stmts| - 1;
      StmtsPrefix(stmts, n);
      LetsSame(c.ops, stmts[..n], a, b, fuel, names);
      var (ra, rb) := (EvalLets(c.ops, stmts[..n], a, fuel), EvalLets(c.ops, stmts[..n], b, fuel));
      if ra.Done? && stmts[n].SExpr? { ElabSame(c, stmts[n].e, ra.value, rb.value, ra.fuel, exp, names); }
    }
  }

  lemma {:induction false} ComposeSame(c: Ctx, lhs: Expr, rhs: Expr, a: Env, b: Env, fuel: nat, exp: set<Name>, names: set<Name>)
    requires Scoped(c, a, b, names) && Mentions(lhs) <= names && Mentions(rhs) <= names
    ensures Alike(ElabCompose(c, lhs, rhs, a, fuel, exp), ElabCompose(c, lhs, rhs, b, fuel, exp), names)
    decreases fuel, 10
  {
    hide Elab, ComposeNonempty, Scoped, Mentions, Quiet;
    ElabSame(c, lhs, a, b, fuel, exp, names);
    var l := Elab(c, lhs, a, fuel, exp);
    if l.Done? {
      ElabSame(c, rhs, a, b, l.fuel, exp, names);
      var r := Elab(c, rhs, a, l.fuel, exp);
      if r.Done? { QuietAppend(names, l.value, r.value); }
    }
  }

  lemma {:induction false} MatchSame(c: Ctx, scrutinee: Expr, arms: seq<Arm>, a: Env, b: Env, fuel: nat, exp: set<Name>, names: set<Name>)
    requires Scoped(c, a, b, names) && Mentions(scrutinee) <= names && MentionsArms(arms) <= names
    ensures Alike(ElabMatch(c, scrutinee, arms, a, fuel, exp), ElabMatch(c, scrutinee, arms, b, fuel, exp), names)
    decreases fuel, 10
  {
    hide Elab, Eval, CircuitArm, Closed, SameOn, Mentions, MentionsArms, Quiet;
    EvalSame(c.ops, scrutinee, a, b, fuel, names);
    var v := Eval(c.ops, scrutinee, a, fuel);
    if v.Done? {
      CircuitArmSame(arms, v.value, a, b, names);
      var (ca, cb) := (CircuitArm(arms, v.value, a), CircuitArm(arms, v.value, b));
      if ca.Chosen? { ElabSame(c, ca.body, ca.env, cb.env, v.fuel, exp, names); }
    }
  }

  lemma {:induction false} LetSame(c: Ctx, pat: Pat, rhs: Expr, body: Expr, a: Env, b: Env, fuel: nat, exp: set<Name>, names: set<Name>)
    requires Scoped(c, a, b, names) && Mentions(rhs) <= names && Mentions(body) <= names
    ensures Alike(ElabLet(c, pat, rhs, body, a, fuel, exp), ElabLet(c, pat, rhs, body, b, fuel, exp), names)
    decreases fuel, 10
  {
    hide Elab, Eval, BindPat, Closed, SameOn, Mentions, Quiet;
    EvalSame(c.ops, rhs, a, b, fuel, names);
    var v := Eval(c.ops, rhs, a, fuel);
    if v.Done? {
      BindSame(pat, v.value, a, b, names);
      if BindPat(pat, v.value, a).Ok? {
        ElabSame(c, body, BindPat(pat, v.value, a).value, BindPat(pat, v.value, b).value, v.fuel, exp, names);
      }
    }
  }

  lemma {:induction false} AdjointSame(c: Ctx, inner: Expr, a: Env, b: Env, fuel: nat, exp: set<Name>, names: set<Name>)
    requires Scoped(c, a, b, names) && Mentions(inner) <= names
    ensures Alike(ElabAdjoint(c, inner, a, fuel, exp), ElabAdjoint(c, inner, b, fuel, exp), names)
    decreases fuel, 10
  {
    hide Elab, ReverseAndInvert, Scoped, Mentions, Quiet;
    ElabSame(c, inner, a, b, fuel, exp, names);
    var t := Elab(c, inner, a, fuel, exp);
    if t.Done? { QuietInverse(names, c.reg, t.value); }
  }

  lemma {:induction false} GateSame(c: Ctx, gate: Expr, qubits: Expr, a: Env, b: Env, fuel: nat, exp: set<Name>, names: set<Name>)
    requires Scoped(c, a, b, names) && Mentions(gate) <= names && Mentions(qubits) <= names
    ensures Alike(ElabGateApp(c, gate, qubits, a, fuel, exp), ElabGateApp(c, gate, qubits, b, fuel, exp), names)
    decreases fuel, 10
  {
    hide ElabGateApp, Ctl, Subst, SplitControl, SingletonTarget, RzzGadget, IsRzz, Closed, SameOn, Mentions, MentionsAll, IsGateTree, Quiet;
    SubstSame(c.ops, qubits, a, b, names);
    var q := Subst(c.ops, qubits, a);
    GateAppStep(c, gate, qubits, a, fuel, exp);
    GateAppStep(c, gate, qubits, b, fuel, exp);
    if IsRzz(gate) {
      RzzArg(gate);
      SubstSame(c.ops, gate.arg, a, b, names);
      if q.Tuple? && |q.items| == 2 { QuietRzz(names, Subst(c.ops, gate.arg, a), q.items[0], q.items[1]); }
    } else if gate.Controlled? {
      ControlledMentions(names, gate);
      if SplitControl(q).Ok? {
        var ct := SplitControl(q).value;
        CtlSame(c, gate.inner, ct.0, SingletonTarget(ct.1), a, b, fuel, exp, names);
      }
    } else {
      SubstSame(c.ops, gate, a, b, names);
      PlacedMentions(names, Subst(c.ops, gate, a), q);
    }
  }

  lemma GateAppStep(c: Ctx, gate: Expr, qubits: Expr, env: Env, fuel: nat, exp: set<Name>)
    ensures ElabGateApp(c, gate, qubits, env, fuel, exp) ==
              var q := Subst(c.ops, qubits, env);
              if IsRzz(gate) then
                if q.Tuple? && |q.items| == 2 then Done(RzzGadget(Subst(c.ops, gate.arg, env), q.items[0], q.items[1]), fuel)
                else Fail(Unsupported(PairExpected))
              else if gate.Controlled? then
                var ct := SplitControl(q);
                if ct.Err? then Fail(ct.error)
                else Ctl(c, gate.inner, ct.value.0, SingletonTarget(ct.value.1), env, fuel, exp)
              else Done(GateApp(Subst(c.ops, gate, env), q), fuel)
  {
    hide Ctl, Subst, SplitControl, SingletonTarget, RzzGadget, IsGateTree;
  }

  lemma RzzArg(gate: Expr)
    requires IsRzz(gate)
    ensures gate.App? && Mentions(gate.arg) <= Mentions(gate)
  {
    hide FlattenApp;
  }

  lemma ControlledMentions(names: set<Name>, gate: Expr)
    requires gate.Controlled? && Mentions(gate) <= names
    ensures Quiet(names, gate.inner)
  {
    hide Quiet;
    MentionedIsQuiet(names, gate.inner);
  }

  lemma PlacedMentions(names: set<Name>, g: Expr, q: Expr)
    requires Mentions(g) <= names
    ensures Quiet(names, GateApp(g, q))
  {
    hide Mentions, ArgNames;
    ArgsMentioned(g);
  }

  lemma {:induction false} ForSame(c: Ctx, pat: Pat, iter: Expr, body: Expr, a: Env, b: Env, fuel: nat, exp: set<Name>, names: set<Name>)
    requires Scoped(c, a, b, names) && Mentions(iter) <= names && Mentions(body) <= names
    ensures Alike(ElabFor(c, pat, iter, body, a, fuel, exp), ElabFor(c, pat, iter, body, b, fuel, exp), names)
    decreases fuel, 10
  {
    hide ElabSteps, Eval, Closed, SameOn, Mentions, Quiet, IsGateTree;
    EvalSame(c.ops, iter, a, b, fuel, names);
    var v := Eval(c.ops, iter, a, fuel);
    EmptyTree(names);
    if v.Done? && v.value.VList? { StepsSame(c, pat, v.value.items, body, EMPTY, a, b, v.fuel, exp, names); }
  }

  lemma StepsEnd(c: Ctx, pat: Pat, items: seq<Value>, body: Expr, acc: Expr, env: Env, fuel: nat, exp: set<Name>)
    requires IsGateTree(acc)
    ensures items == [] ==> ElabSteps(c, pat, items, body, acc, env, fuel, exp) == Done(acc, fuel)
    ensures items != [] && BindPat(pat, items[0], env).Err? ==>
              ElabSteps(c, pat, items, body, acc, env, fuel, exp) == Fail(BindPat(pat, items[0], env).error)
  {
    hide Elab, BindPat, Append, IsGateTree;
  }

  lemma StepsFail(c: Ctx, pat: Pat, items: seq<Value>, body: Expr, acc: Expr, env: Env, fuel: nat, exp: set<Name>)
    requires IsGateTree(acc) && items != [] && BindPat(pat, items[0], env).Ok?
    requires Elab(c, body, BindPat(pat, items[0], env).value, fuel, exp).Fail?
    ensures ElabSteps(c, pat, items, body, acc, env, fuel, exp) == Elab(c, body, BindPat(pat, items[0], env).value, fuel, exp)
  {
    hide Elab, BindPat, Append, IsGateTree;
  }

  lemma StepsNext(c: Ctx, pat: Pat, items: seq<Value>, body: Expr, acc: Expr, env: Env, fuel: nat, exp: set<Name>)
    requires IsGateTree(acc) && items != [] && BindPat(pat, items[0], env).Ok?
    requires Elab(c, body, BindPat(pat, items[0], env).value, fuel, exp).Done?
    ensures var step := Elab(c, body, BindPat(pat, items[0], env).value, fuel, exp);
            && IsGateTree(Append(acc, step.value)) && step.fuel < fuel
            && ElabSteps(c, pat, items, body, acc, env, fuel, exp)
                 == ElabSteps(c, pat, items[1..], body, Append(acc, step.value), env, step.fuel, exp)
  {
    hide Elab, BindPat, Append, IsGateTree;
  }

  lemma {:induction false} StepsSame(c: Ctx, pat: Pat, items: seq<Value>, body: Expr, acc: Expr, a: Env, b: Env, fuel: nat,
                                     exp: set<Name>, names: set<Name>)
    requires Scoped(c, a, b, names) && Mentions(body) <= names && IsGateTree(acc) && Quiet(names, acc)
    ensures Alike(ElabSteps(c, pat, items, body, acc, a, fuel, exp), ElabSteps(c, pat, items, body, acc, b, fuel, exp), names)
    decreases fuel, 9, |items|
  {
    hide Elab, ElabSteps, BindPat, Append, Closed, SameOn, Mentions, Quiet, IsGateTree;
    StepsEnd(c, pat, items, body, acc, a, fuel, exp);
    StepsEnd(c, pat, items, body, acc, b, fuel, exp);
    if items != [] {
      BindSame(pat, items[0], a, b, names);
      if BindPat(pat, items[0], a).Ok? {
        var inner := BindPat(pat, items[0], a).value;
        ElabSame(c, body, inner, BindPat(pat, items[0], b).value, fuel, exp, names);
        var step := Elab(c, body, inner, fuel, exp);
        if step.Fail? {
          StepsFail(c, pat, items, body, acc, a, fuel, exp);
          StepsFail(c, pat, items, body, acc, b, fuel, exp);
        } else {
          StepsNext(c, pat, items, body, acc, a, fuel, exp);
          StepsNext(c, pat, items, body, acc, b, fuel, exp);
          QuietAppend(names, acc, step.value);
          StepsSame(c, pat, items[1..], body, Append(acc, step.value), a, b, step.fuel, exp, names);
        }
      }
    }
  }

  // ── Calls ──────────────────────────────────────────────────────────────────

  lemma {:induction false} InlineSame(c: Ctx, name: Name, a: Env, b: Env, fuel: nat, exp: set<Name>, names: set<Name>)
    requires Scoped(c, a, b, names) && name in c.bodies && name in names
    ensures Alike(Inline(c, name, a, fuel, exp), Inline(c, name, b, fuel, exp), names)
    decreases fuel, 1
  {
    hide Elab, SameOn, Mentions, Quiet;
    if name !in exp { ElabSame(c, c.bodies[name], a, b, fuel, exp + {name}, names); }
  }

  lemma {:induction false} AppSame(c: Ctx, f: Expr, x: Expr, a: Env, b: Env, fuel: nat, exp: set<Name>, names: set<Name>)
    requires Scoped(c, a, b, names) && Mentions(f) <= names && Mentions(x) <= names
    ensures Alike(ElabApp(c, f, x, a, fuel, exp), ElabApp(c, f, x, b, fuel, exp), names)
    decreases fuel, 20
  {
    hide ElabNamedApp, ElabOther, Juxtaposed, Subst, FlattenApp, Closed, SameOn, MentionsAll;
    var (head, args) := FlattenApp(f, x);
    SpineMentions(f, x);
    if !head.Var? {
      OtherSame(c, App(f, x), a, b, fuel, exp, names);
    } else if Juxtaposed(c, head.name, args).None? {
      NamedSame(c, head.name, args, App(f, x), a, b, fuel, exp, names);
    } else {
      ItemMentions(args, 0);
      ItemMentions(args, |args| - 1);
      SubstSame(c.ops, args[0], a, b, names);
      SubstSame(c.ops, args[|args| - 1], a, b, names);
      PlacedIsQuiet(names, head, Subst(c.ops, args[0], a), Subst(c.ops, args[|args| - 1], a));
    }
  }

  lemma PlacedIsQuiet(names: set<Name>, head: Expr, angle: Expr, q: Expr)
    requires head.Var? && Mentions(angle) <= names
    ensures Quiet(names, GateApp(head, q)) && Quiet(names, GateApp(App(head, angle), q))
  {
    hide Mentions;
  }

  lemma {:induction false} NamedSame(c: Ctx, name: Name, args: seq<Expr>, call: Expr, a: Env, b: Env, fuel: nat, exp: set<Name>,
                                     names: set<Name>)
    requires Scoped(c, a, b, names) && args != [] && call.App? && name in names && MentionsAll(args) <= names && Mentions(call) <= names
    ensures Alike(ElabNamedApp(c, name, args, call, a, fuel, exp), ElabNamedApp(c, name, args, call, b, fuel, exp), names)
    decreases fuel, 19
  {
    hide ElabRepeat, ElabEmbed, ElabCall, ElabOther, SwapReverse, Eval, SameOn, Mentions, MentionsAll, Quiet, Closed;
    ItemMentions(args, 0);
    if |args| == 2 { ItemMentions(args, 1); }
    if name == "repeat" && |args| == 2 {
      RepeatSame(c, args[0], args[1], a, b, fuel, exp, names);
    } else if name == "identity" && |args| == 1 {
      QuietEmpty(names);
    } else if (name == "on_high" || name == "on_low") && |args| == 2 {
      EmbedSame(c, name == "on_high", args[0], args[1], a, b, fuel, exp, names);
    } else if name == "swap_reverse" && |args| == 1 {
      EvalSame(c.ops, args[0], a, b, fuel, names);
      var v := Eval(c.ops, args[0], a, fuel);
      if v.Done? && v.value.VInt? { SwapIsQuiet(names, v.value.i); }
    } else if name in c.parametric {
      CallSame(c, name, args, a, b, fuel, exp, names);
    } else {
      OtherSame(c, call, a, b, fuel, exp, names);
    }
  }

  lemma SwapIsQuiet(names: set<Name>, n: int)
    ensures Quiet(names, SwapReverse(n))
  {
    hide SwapSteps, Quiet, IsGateTree;
    EmptyTree(names);
    QuietSwaps(names, n, 0, EMPTY);
  }

  lemma {:induction false} OtherSame(c: Ctx, call: Expr, a: Env, b: Env, fuel: nat, exp: set<Name>, names: set<Name>)
    requires Scoped(c, a, b, names) && call.App? && Mentions(call) <= names
    ensures Alike(ElabOther(c, call, a, fuel, exp), ElabOther(c, call, b, fuel, exp), names)
    decreases fuel, 18
  {
    hide Inline, Subst, ZeroArgCallee, Closed, SameOn, Mentions, Quiet;
    var callee := ZeroArgCallee(c, call);
    if callee.Some? {
      CalleeMentioned(c, call);
      SameItself(c, map[], names);
      InlineSame(c, callee.value, map[], map[], fuel, exp, names);
    } else {
      SubstSame(c.ops, call, a, b, names);
      MentionedIsQuiet(names, Subst(c.ops, call, a));
    }
  }

  lemma CalleeMentioned(c: Ctx, e: Expr)
    ensures ZeroArgCallee(c, e).Some? ==> ZeroArgCallee(c, e).value in Mentions(e)
  {
    hide FlattenApp, MentionsAll;
    if e.App? { SpineMentions(e.fn, e.arg); }
  }

  lemma RepeatStep(c: Ctx, count: Expr, body: Expr, env: Env, fuel: nat, exp: set<Name>)
    ensures ElabRepeat(c, count, body, env, fuel, exp) ==
              var v := Eval(c.ops, count, env, fuel);
              if v.Fail? then Fail(v.error) else if !v.value.VInt? then Fail(NotClassical(RepeatCount))
              else
                var t := Elab(c, body, env, v.fuel, exp);
                if t.Fail? then t else Done(Repeat(t.value, v.value.i, EMPTY), t.fuel)
  {
    hide Elab, Eval, Repeat;
  }

  lemma {:induction false} RepeatSame(c: Ctx, count: Expr, body: Expr, a: Env, b: Env, fuel: nat, exp: set<Name>, names: set<Name>)
    requires Scoped(c, a, b, names) && Mentions(count) <= names && Mentions(body) <= names
    ensures Alike(ElabRepeat(c, count, body, a, fuel, exp), ElabRepeat(c, count, body, b, fuel, exp), names)
    decreases fuel, 10
  {
    hide Elab, ElabRepeat, Eval, Repeat, Closed, SameOn, Mentions, Quiet, IsGateTree;
    RepeatStep(c, count, body, a, fuel, exp);
    RepeatStep(c, count, body, b, fuel, exp);
    EvalSame(c.ops, count, a, b, fuel, names);
    var v := Eval(c.ops, count, a, fuel);
    if v.Done? {
      ElabSame(c, body, a, b, v.fuel, exp, names);
      var t := Elab(c, body, a, v.fuel, exp);
      QuietEmpty(names);
      if t.Done? && v.value.VInt? { QuietRepeat(names, t.value, v.value.i, EMPTY); }
    }
  }

  lemma {:induction false} WidthSame(c: Ctx, e: Expr, a: Env, b: Env, fuel: nat, names: set<Name>)
    requires SameOn(a, b, names) && Mentions(e) <= names
    ensures DeclaredWidth(c, e, a, fuel) == DeclaredWidth(c, e, b, fuel)
  {
    hide Eval, EvalSeq, SameOn, MentionsAll, FlattenApp, NatArgs;
    if e.App? {
      var args := FlattenApp(e.fn, e.arg).1;
      var head := FlattenApp(e.fn, e.arg).0;
      SpineMentions(e.fn, e.arg);
      ItemMentions(args, 0);
      EvalSame(c.ops, args[0], a, b, fuel, names);
      if head.Var? && head.name in c.parametric {
        var params := c.parametric[head.name].params;
        var n := if |params| < |args| then |params| else |args|;
        PrefixMentions(args, n);
        EvalSeqSame(c.ops, args[..n], a, b, fuel, names);
      }
    }
  }

  lemma EmbedStep(c: Ctx, high: bool, inner: Expr, target: Expr, env: Env, fuel: nat, exp: set<Name>)
    ensures ElabEmbed(c, high, inner, target, env, fuel, exp) ==
              var v := Eval(c.ops, target, env, fuel);
              if v.Fail? then Fail(v.error) else if !v.value.VInt? then Fail(NotClassical(RegisterWidth))
              else
                var w := DeclaredWidth(c, inner, env, v.fuel);
                if w.Fail? then Fail(w.error)
                else
                  var t := Elab(c, inner, env, w.fuel, exp);
                  if t.Fail? then t else Done(ShiftQubits(t.value, if high then v.value.i - w.value else 0), t.fuel)
  {
    hide Elab, Eval, DeclaredWidth, ShiftQubits;
  }

  lemma {:induction false} EmbedSame(c: Ctx, high: bool, inner: Expr, target: Expr, a: Env, b: Env, fuel: nat, exp: set<Name>, names: set<Name>)
    requires Scoped(c, a, b, names) && Mentions(inner) <= names && Mentions(target) <= names
    ensures Alike(ElabEmbed(c, high, inner, target, a, fuel, exp), ElabEmbed(c, high, inner, target, b, fuel, exp), names)
    decreases fuel, 10
  {
    hide Elab, ElabEmbed, Eval, DeclaredWidth, ShiftQubits, ShiftCircuit, Closed, SameOn, Mentions, Quiet, IsGateTree;
    EmbedStep(c, high, inner, target, a, fuel, exp);
    EmbedStep(c, high, inner, target, b, fuel, exp);
    EvalSame(c.ops, target, a, b, fuel, names);
    var v := Eval(c.ops, target, a, fuel);
    if v.Done? && v.value.VInt? {
      WidthSame(c, inner, a, b, v.fuel, names);
      var w := DeclaredWidth(c, inner, a, v.fuel);
      if w.Done? {
        ElabSame(c, inner, a, b, w.fuel, exp, names);
        var t := Elab(c, inner, a, w.fuel, exp);
        if t.Done? { QuietShift(names, t.value, if high then v.value.i - w.value else 0); }
      }
    }
  }

  lemma {:induction false} CallSame(c: Ctx, name: Name, args: seq<Expr>, a: Env, b: Env, fuel: nat, exp: set<Name>, names: set<Name>)
    requires Scoped(c, a, b, names) && name in c.parametric && name in names && MentionsAll(args) <= names
    ensures Alike(ElabCall(c, c.parametric[name], args, a, fuel, exp), ElabCall(c, c.parametric[name], args, b, fuel, exp), names)
    decreases fuel, 10
  {
    hide Elab, EvalSeq, BindParams, SameOn, Mentions, MentionsAll, Quiet;
    var def := c.parametric[name];
    EvalSeqSame(c.ops, args, a, b, fuel, names);
    var vs := EvalSeq(c.ops, args, a, fuel);
    if |def.params| == |args| && vs.Done? {
      var callee := BindParams(def.params, vs.value, map[]);
      SameItself(c, callee, names);
      ElabSame(c, def.body, callee, callee, vs.fuel, exp, names);
    }
  }

  // ── Parallel composition ───────────────────────────────────────────────────

  lemma {:induction false} ArmSame(c: Ctx, body: Expr, a: Env, b: Env, fuel: nat, exp: set<Name>, names: set<Name>)
    requires Scoped(c, a, b, names) && Mentions(body) <= names
    ensures Alike(ElabParBody(c, body, a, fuel, exp), ElabParBody(c, body, b, fuel, exp), names)
    decreases fuel, 2
  {
    hide Elab, Inline, ZeroArgCallee, Scoped, Mentions, Quiet;
    CalleeMentioned(c, body);
    var callee := ZeroArgCallee(c, body);
    if callee.Some? { InlineSame(c, callee.value, a, b, fuel, exp, names); }
    else { ElabSame(c, body, a, b, fuel, exp, names); }
  }

  lemma ParStep(c: Ctx, body: Expr, count: Expr, env: Env, fuel: nat, exp: set<Name>)
    ensures IsGateTree(EMPTY)
    ensures ElabPar(c, body, count, env, fuel, exp) ==
              var v := Eval(c.ops, count, env, fuel);
              if v.Fail? then Fail(v.error)
              else if !v.value.VInt? then Fail(Unsupported(ParCount))
              else if v.value.i < 0 then Fail(Unsupported(NegativeParCount))
              else if v.value.i == 0 then Done(EMPTY, v.fuel)
              else
                var t := ElabParBody(c, body, env, v.fuel, exp);
                if t.Fail? then t else Done(ParCopies(t.value, Width(t.value), 0, v.value.i, EMPTY), t.fuel)
  {
    hide ElabParBody, Eval, ParCopies, Width;
  }

  lemma {:induction false} ParSame(c: Ctx, body: Expr, count: Expr, a: Env, b: Env, fuel: nat, exp: set<Name>, names: set<Name>)
    requires Scoped(c, a, b, names) && Mentions(body) <= names && Mentions(count) <= names
    ensures Alike(ElabPar(c, body, count, a, fuel, exp), ElabPar(c, body, count, b, fuel, exp), names)
    decreases fuel, 10
  {
    hide ElabPar, ElabParBody, Eval, ParCopies, Width, Closed, SameOn, Mentions, Quiet, IsGateTree;
    ParStep(c, body, count, a, fuel, exp);
    ParStep(c, body, count, b, fuel, exp);
    EvalSame(c.ops, count, a, b, fuel, names);
    EmptyTree(names);
    var v := Eval(c.ops, count, a, fuel);
    if v.Done? {
      ArmSame(c, body, a, b, v.fuel, exp, names);
      var t := ElabParBody(c, body, a, v.fuel, exp);
      if t.Done? && v.value.VInt? { QuietCopies(names, t.value, Width(t.value), 0, v.value.i, EMPTY); }
    }
  }

  lemma {:induction false} ParNSame(c: Ctx, items: seq<Expr>, offset: int, acc: Expr, a: Env, b: Env, fuel: nat, exp: set<Name>, names: set<Name>)
    requires Scoped(c, a, b, names) && MentionsAll(items) <= names && IsGateTree(acc) && Quiet(names, acc)
    ensures Alike(ElabParN(c, items, offset, acc, a, fuel, exp), ElabParN(c, items, offset, acc, b, fuel, exp), names)
    decreases fuel, 9, |items|
  {
    hide ElabParBody, ShiftCircuit, ShiftQubits, ComposeNonempty, Append, Width, Scoped, Mentions, Quiet, IsGateTree;
    if items != [] {
      ArmSame(c, items[0], a, b, fuel, exp, names);
      var t := ElabParBody(c, items[0], a, fuel, exp);
      if t.Done? {
        QuietShift(names, t.value, offset);
        QuietAppend(names, acc, ShiftCircuit(t.value, offset));
        ParNSame(c, items[1..], offset + Width(t.value), ComposeNonempty(acc, ShiftCircuit(t.value, offset)), a, b, t.fuel, exp, names);
      }
    }
  }

  // ── Control ────────────────────────────────────────────────────────────────

  ghost predicate AlikeCallee(a: Out<Option<Expr>>, b: Out<Option<Expr>>, names: set<Name>) {
    a == b && (a.Done? && a.value.Some? ==> Quiet(names, a.value.value))
  }

  predicate IsCall(e: Expr) { e.Var? || e.App? }

  lemma {:induction false} CalleeSame(c: Ctx, e: Expr, a: Env, b: Env, fuel: nat, exp: set<Name>, names: set<Name>)
    requires Scoped(c, a, b, names) && (IsCall(e) ==> Mentions(e) <= names)
    ensures AlikeCallee(NamedCallee(c, e, a, fuel, exp), NamedCallee(c, e, b, fuel, exp), names)
    decreases fuel, 3
  {
    hide Elab, Inline, ZeroArgCallee, IsParametricCall, Scoped, Mentions, Quiet;
    OnlyCalls(c, e);
    if IsParametricCall(c, e) {
      ElabSame(c, e, a, b, fuel, exp, names);
    } else if ZeroArgCallee(c, e).Some? {
      CalleeMentioned(c, e);
      InlineSame(c, ZeroArgCallee(c, e).value, a, b, fuel, exp, names);
    }
  }

  lemma OnlyCalls(c: Ctx, e: Expr)
    ensures IsParametricCall(c, e) || ZeroArgCallee(c, e).Some? ==> IsCall(e)
  {
  }

  lemma QuietCalls(names: set<Name>, e: Expr)
    requires Quiet(names, e)
    ensures IsCall(e) ==> Mentions(e) <= names
  {
  }

  /** `decompose_controlled`, on a source body or on a tree already elaborated. */
  lemma {:induction false} CtlSame(c: Ctx, e: Expr, control: Expr, target: Expr, a: Env, b: Env, fuel: nat, exp: set<Name>, names: set<Name>)
    requires Scoped(c, a, b, names) && Quiet(names, e)
    ensures Alike(Ctl(c, e, control, target, a, fuel, exp), Ctl(c, e, control, target, b, fuel, exp), names)
    decreases fuel, 5, ControlSize(e), 2, 0
  {
    hide CtlNode, NamedCallee, Scoped, Quiet, Mentions;
    QuietCalls(names, e);
    CalleeSame(c, e, a, b, fuel, exp, names);
    var callee := NamedCallee(c, e, a, fuel, exp);
    if callee.Done? {
      if callee.value.Some? { CtlSame(c, callee.value.value, control, target, a, b, callee.fuel, exp, names); }
      else { CtlNodeSame(c, e, control, target, a, b, fuel, exp, names); }
    }
  }

  lemma {:induction false} CtlNodeSame(c: Ctx, e: Expr, control: Expr, target: Expr, a: Env, b: Env, fuel: nat, exp: set<Name>, names: set<Name>)
    requires Scoped(c, a, b, names) && Quiet(names, e)
    ensures Alike(CtlNode(c, e, control, target, a, fuel, exp), CtlNode(c, e, control, target, b, fuel, exp), names)
    decreases fuel, 5, ControlSize(e), 1, 0
  {
    hide *;
    if e.Compose? || e.Adjoint? { CtlPartsSame(c, e, control, target, a, b, fuel, exp, names); }
    else if e.CircuitBlock? { CtlBlockSame(c, e, control, target, a, b, fuel, exp, names); }
    else if e.Par? || e.ParN? { CtlParFormSame(c, e, control, target, a, b, fuel, exp, names); }
    else { CtlLeafFormSame(c, e, control, target, a, b, fuel, exp, names); }
  }

  lemma {:induction false} CtlPartsSame(c: Ctx, e: Expr, control: Expr, target: Expr, a: Env, b: Env, fuel: nat, exp: set<Name>, names: set<Name>)
    requires Scoped(c, a, b, names) && Quiet(names, e) && (e.Compose? || e.Adjoint?)
    ensures Alike(CtlNode(c, e, control, target, a, fuel, exp), CtlNode(c, e, control, target, b, fuel, exp), names)
    decreases fuel, 5, ControlSize(e), 0, 0
  {
    hide Ctl, CtlNode, ComposeNonempty, ReverseAndInvert, Scoped, IsGateTree, Mentions, ArgNames;
    var first := if e.Compose? then e.lhs else e.inner;
    CtlSame(c, first, control, target, a, b, fuel, exp, names);
    var l := Ctl(c, first, control, target, a, fuel, exp);
    if e.Compose? {
      CtlComposeStep(c, e, control, target, a, fuel, exp);
      CtlComposeStep(c, e, control, target, b, fuel, exp);
      if l.Done? {
        CtlSame(c, e.rhs, control, target, a, b, l.fuel, exp, names);
        var r := Ctl(c, e.rhs, control, target, a, l.fuel, exp);
        if r.Done? { QuietAppend(names, l.value, r.value); }
      }
    } else {
      CtlAdjointStep(c, e, control, target, a, fuel, exp);
      CtlAdjointStep(c, e, control, target, b, fuel, exp);
      if l.Done? { QuietInverse(names, c.reg, l.value); }
    }
  }

  lemma CtlComposeStep(c: Ctx, e: Expr, control: Expr, target: Expr, env: Env, fuel: nat, exp: set<Name>)
    requires e.Compose?
    ensures CtlNode(c, e, control, target, env, fuel, exp) ==
              var l := Ctl(c, e.lhs, control, target, env, fuel, exp);
              if l.Fail? then l
              else
                var r := Ctl(c, e.rhs, control, target, env, l.fuel, exp);
                if r.Fail? then r else Done(ComposeNonempty(l.value, r.value), r.fuel)
  {
    hide Ctl, ComposeNonempty, IsGateTree;
  }

  lemma CtlAdjointStep(c: Ctx, e: Expr, control: Expr, target: Expr, env: Env, fuel: nat, exp: set<Name>)
    requires e.Adjoint?
    ensures CtlNode(c, e, control, target, env, fuel, exp) ==
              var t := Ctl(c, e.inner, control, target, env, fuel, exp);
              if t.Fail? then t else Lift(ReverseAndInvert(c.reg, t.value), t.fuel)
  {
    hide Ctl, ReverseAndInvert, IsGateTree;
  }

  lemma {:induction false} CtlBlockSame(c: Ctx, e: Expr, control: Expr, target: Expr, a: Env, b: Env, fuel: nat, exp: set<Name>, names: set<Name>)
    requires Scoped(c, a, b, names) && Quiet(names, e) && e.CircuitBlock?
    ensures Alike(CtlNode(c, e, control, target, a, fuel, exp), CtlNode(c, e, control, target, b, fuel, exp), names)
    decreases fuel, 5, ControlSize(e), 0, 0
  {
    hide Ctl, CtlPar, CtlArms, CtlLeaf, ReverseAndInvert, BlockBody, IsGateTree, MentionsStmts, ArgNames, SameOn, Closed;
    BlockBodySame(c.ops, e.stmts, a, b, names);
    var body := BlockBody(c.ops, e.stmts, a);
    if body.Ok? {
      MentionedIsQuiet(names, body.value);
      CtlSame(c, body.value, control, target, a, b, fuel, exp, names);
    }
  }

  lemma BlockBodySame(ops: Ops, stmts: seq<Stmt>, a: Env, b: Env, names: set<Name>)
    requires SameOn(a, b, names) && MentionsStmts(stmts) <= names
    ensures BlockBody(ops, stmts, a) == BlockBody(ops, stmts, b)
    ensures BlockBody(ops, stmts, a).Ok? ==> Mentions(BlockBody(ops, stmts, a).value) <= names
  {
    hide EvalLets, Subst, SameOn, Mentions, MentionsStmts, ControlSize;
    if stmts != [] {
      var n := |stmts| - 1;
      StmtsPrefix(stmts, n);
      LetsSame(ops, stmts[..n], a, b, ops.probe, names);
      var (ra, rb) := (EvalLets(ops, stmts[..n], a, ops.probe), EvalLets(ops, stmts[..n], b, ops.probe));
      if ra.Done? && stmts[n].SExpr? { SubstSame(ops, stmts[n].e, ra.value, rb.value, names); }
    }
  }

  lemma {:induction false} CtlParFormSame(c: Ctx, e: Expr, control: Expr, target: Expr, a: Env, b: Env, fuel: nat, exp: set<Name>, names: set<Name>)
    requires Scoped(c, a, b, names) && Quiet(names, e) && (e.Par? || e.ParN?)
    ensures Alike(CtlNode(c, e, control, target, a, fuel, exp), CtlNode(c, e, control, target, b, fuel, exp), names)
    decreases fuel, 5, ControlSize(e), 0, 0
  {
    hide Ctl, CtlPar, CtlArms, CtlLeaf, ReverseAndInvert, BlockBody, Scoped, IsGateTree, MentionsAll, ArgNames, BodyWiresOf;
    if e.Par? {
      CtlParSame(c, e.body, e.count, control, target, a, b, fuel, exp, names);
    } else {
      EmptyTree(names);
      CtlArmsSame(c, e.items, control, BodyWiresOf(target), 0, EMPTY, a, b, fuel, exp, names);
    }
  }

  lemma {:induction false} CtlLeafFormSame(c: Ctx, e: Expr, control: Expr, target: Expr, a: Env, b: Env, fuel: nat, exp: set<Name>, names: set<Name>)
    requires Scoped(c, a, b, names) && Quiet(names, e)
    requires !(e.Compose? || e.Adjoint? || e.CircuitBlock? || e.Par? || e.ParN?)
    ensures Alike(CtlNode(c, e, control, target, a, fuel, exp), CtlNode(c, e, control, target, b, fuel, exp), names)
    decreases fuel, 5, ControlSize(e), 0, 0
  {
    hide Ctl, CtlPar, CtlArms, CtlLeaf, ReverseAndInvert, BlockBody, Closed, SameOn, IsGateTree, Quiet;
    CtlLeafSame(c, e, control, target, a, b, names);
  }

  ghost predicate AlikeLeaf(a: Res<Expr>, b: Res<Expr>, names: set<Name>) {
    a == b && (a.Ok? ==> Quiet(names, a.value))
  }

  lemma {:induction false} CtlLeafSame(c: Ctx, e: Expr, control: Expr, target: Expr, a: Env, b: Env, names: set<Name>)
    requires SameOn(a, b, names) && Quiet(names, e)
    ensures AlikeLeaf(CtlLeaf(c, e, control, target, a), CtlLeaf(c, e, control, target, b), names)
    decreases e, 1
  {
    hide CtlLeaf, SameOn, Quiet, ArgsWithin, Refuses;
    QuietArgs(names, e);
    if e.GateApp? && Refuses(e) {
      PlacedRefused(c, e, control, target, a, b);
    } else if e.GateApp? {
      CtlPlacedSame(c, e, control, target, a, b, names);
    } else {
      CtlBareSame(c, e, control, target, a, b, names);
    }
  }

  ghost predicate ArgsWithin(names: set<Name>, g: Expr) {
    g.App? ==> ArgNames(g) <= names
  }

  lemma QuietArgs(names: set<Name>, e: Expr)
    requires Quiet(names, e)
    ensures ArgsWithin(names, e)
    ensures e.GateApp? ==> ArgsWithin(names, e.gate)
  {
    hide Mentions, ArgNames;
    if e.App? { ArgsMentioned(e); }
  }

  lemma CtlNamed(c: Ctx, e: Expr, control: Expr, target: Expr, env: Env)
    requires e.Var?
    ensures CtlLeaf(c, e, control, target, env) == ControlledGate(c, e.name, None, control, target)
  {
    hide ControlledGate, Subst, FlattenApp;
  }

  lemma CtlNoGate(c: Ctx, e: Expr, control: Expr, target: Expr, a: Env, b: Env)
    requires !e.Var? && !e.App? && !e.GateApp?
    ensures CtlLeaf(c, e, control, target, a) == CtlLeaf(c, e, control, target, b)
    ensures CtlLeaf(c, e, control, target, a).Err?
  {
    hide ControlledGate, Subst, FlattenApp;
  }

  lemma {:induction false} CtlCallSame(c: Ctx, e: Expr, control: Expr, target: Expr, a: Env, b: Env, names: set<Name>)
    requires SameOn(a, b, names) && e.App? && ArgNames(e) <= names
    ensures CtlLeaf(c, e, control, target, a) == CtlLeaf(c, e, control, target, b)
    ensures CtlLeaf(c, e, control, target, a).Ok? ==> Quiet(names, CtlLeaf(c, e, control, target, a).value)
  {
    hide ControlledGate, Subst, FlattenApp, SameOn, MentionsAll, Quiet, Mentions;
    SpineArgNames(e.fn, e.arg);
    var (head, args) := FlattenApp(e.fn, e.arg);
    if head.Var? && |args| == 1 {
      ItemMentions(args, 0);
      SubstSame(c.ops, args[0], a, b, names);
      QuietControlled(names, c, head.name, Some(Subst(c.ops, args[0], a)), control, target);
    }
  }

  lemma {:induction false} CtlBareSame(c: Ctx, e: Expr, control: Expr, target: Expr, a: Env, b: Env, names: set<Name>)
    requires SameOn(a, b, names) && !e.GateApp? && ArgsWithin(names, e)
    ensures AlikeLeaf(CtlLeaf(c, e, control, target, a), CtlLeaf(c, e, control, target, b), names)
  {
    hide CtlLeaf, ControlledGate, SameOn, Quiet, ArgNames;
    if e.Var? {
      CtlNamed(c, e, control, target, a);
      CtlNamed(c, e, control, target, b);
      QuietControlled(names, c, e.name, None, control, target);
    } else if e.App? {
      CtlCallSame(c, e, control, target, a, b, names);
    } else {
      CtlNoGate(c, e, control, target, a, b);
    }
  }

  /** `controlled` refuses a gate already placed on wires, unless it is one named gate on one wire. */
  predicate Refuses(e: Expr)
    requires e.GateApp?
  {
    !(e.gate.Var? || e.gate.App?) || (e.qubits.Tuple? && |e.qubits.items| > 1)
  }

  lemma PlacedRefused(c: Ctx, e: Expr, control: Expr, target: Expr, a: Env, b: Env)
    requires e.GateApp? && Refuses(e)
    ensures CtlLeaf(c, e, control, target, a) == CtlLeaf(c, e, control, target, b)
    ensures CtlLeaf(c, e, control, target, a).Err?
  {
    hide ControlledGate, Subst, FlattenApp;
  }

  lemma PlacedForwards(c: Ctx, e: Expr, control: Expr, target: Expr, env: Env)
    requires e.GateApp? && !Refuses(e)
    ensures CtlLeaf(c, e, control, target, env) == CtlLeaf(c, e.gate, control, target, env)
  {
    hide ControlledGate, Subst, FlattenApp;
  }

  lemma {:induction false} CtlPlacedSame(c: Ctx, e: Expr, control: Expr, target: Expr, a: Env, b: Env, names: set<Name>)
    requires SameOn(a, b, names) && e.GateApp? && !Refuses(e) && ArgsWithin(names, e.gate)
    ensures AlikeLeaf(CtlLeaf(c, e, control, target, a), CtlLeaf(c, e, control, target, b), names)
  {
    hide CtlLeaf, SameOn, Quiet, ArgsWithin;
    CtlBareSame(c, e.gate, control, target, a, b, names);
    PlacedForwards(c, e, control, target, a);
    PlacedForwards(c, e, control, target, b);
  }

  lemma {:induction false} ArmWidthSame(c: Ctx, arm: Expr, a: Env, b: Env, fuel: nat, exp: set<Name>, names: set<Name>)
    requires Scoped(c, a, b, names) && Mentions(arm) <= names
    ensures ArmWidth(c, arm, a, fuel, exp) == ArmWidth(c, arm, b, fuel, exp)
    decreases fuel, 1
  {
    hide Elab, PrimitiveWires, Width, MaxQubitIndex, Scoped, Mentions, Quiet;
    if PrimitiveWires(c, arm).None? { ElabSame(c, arm, a, b, fuel, exp, names); }
  }

  lemma {:induction false} CtlParSame(c: Ctx, body: Expr, count: Expr, control: Expr, target: Expr, a: Env, b: Env, fuel: nat, exp: set<Name>, names: set<Name>)
    requires Scoped(c, a, b, names) && Mentions(body) <= names && Mentions(count) <= names
    ensures Alike(CtlPar(c, body, count, control, target, a, fuel, exp), CtlPar(c, body, count, control, target, b, fuel, exp), names)
    decreases fuel, 5, ControlSize(body), 4, 1
  {
    hide Eval, CtlParK, Closed, SameOn, Mentions, Quiet;
    EvalSame(c.ops, count, a, b, c.ops.probe, names);
    QuietEmpty(names);
    var v := Eval(c.ops, count, a, c.ops.probe);
    if v.Done? && v.value.VInt? { CtlParKSame(c, body, v.value.i, control, target, a, b, fuel, exp, names); }
  }

  lemma {:induction false} CtlParKSame(c: Ctx, body: Expr, k: int, control: Expr, target: Expr, a: Env, b: Env, fuel: nat, exp: set<Name>, names: set<Name>)
    requires Scoped(c, a, b, names) && Mentions(body) <= names
    ensures Alike(CtlParK(c, body, k, control, target, a, fuel, exp), CtlParK(c, body, k, control, target, b, fuel, exp), names)
    decreases fuel, 5, ControlSize(body), 4, 0
  {
    hide ArmWidth, CtlCopies, BodyWiresOf, Saturate, Scoped, Mentions, Quiet, IsGateTree;
    ArmWidthSame(c, body, a, b, fuel, exp, names);
    EmptyTree(names);
    var w := ArmWidth(c, body, a, fuel, exp);
    if w.Done? { CtlCopiesSame(c, body, control, BodyWiresOf(target), w.value, 0, k, EMPTY, a, b, w.fuel, exp, names); }
  }

  lemma CopiesDone(c: Ctx, body: Expr, control: Expr, wires: BodyWires, w: nat, i: nat, k: int, acc: Expr, env: Env, fuel: nat, exp: set<Name>)
    requires IsGateTree(acc) && i >= k
    ensures CtlCopies(c, body, control, wires, w, i, k, acc, env, fuel, exp) == Done(acc, fuel)
  {
    hide Ctl, IsGateTree;
  }

  lemma CopiesOffEnd(c: Ctx, body: Expr, control: Expr, wires: BodyWires, w: nat, i: nat, k: int, acc: Expr, env: Env, fuel: nat, exp: set<Name>)
    requires IsGateTree(acc) && i < k && WireSlice(wires, Saturate(i * w), w).Err?
    ensures CtlCopies(c, body, control, wires, w, i, k, acc, env, fuel, exp)
         == Fail(WireSlice(wires, Saturate(i * w), w).error)
  {
    hide Ctl, WireSlice, Saturate, IsGateTree;
  }

  lemma CopiesFail(c: Ctx, body: Expr, control: Expr, wires: BodyWires, w: nat, i: nat, k: int, acc: Expr, env: Env, fuel: nat, exp: set<Name>)
    requires IsGateTree(acc) && i < k && WireSlice(wires, Saturate(i * w), w).Ok?
    requires Ctl(c, body, control, WireSlice(wires, Saturate(i * w), w).value, env, fuel, exp).Fail?
    ensures CtlCopies(c, body, control, wires, w, i, k, acc, env, fuel, exp)
         == Ctl(c, body, control, WireSlice(wires, Saturate(i * w), w).value, env, fuel, exp)
  {
    hide Ctl, WireSlice, Saturate, IsGateTree;
  }

  lemma CopiesNext(c: Ctx, body: Expr, control: Expr, wires: BodyWires, w: nat, i: nat, k: int, acc: Expr, env: Env, fuel: nat, exp: set<Name>)
    requires IsGateTree(acc) && i < k && WireSlice(wires, Saturate(i * w), w).Ok?
    requires Ctl(c, body, control, WireSlice(wires, Saturate(i * w), w).value, env, fuel, exp).Done?
    ensures var r := Ctl(c, body, control, WireSlice(wires, Saturate(i * w), w).value, env, fuel, exp);
            CtlCopies(c, body, control, wires, w, i, k, acc, env, fuel, exp)
              == CtlCopies(c, body, control, wires, w, i + 1, k, ComposeNonempty(acc, r.value), env, r.fuel, exp)
  {
    hide Ctl, WireSlice, Saturate, IsGateTree, ComposeNonempty;
  }

  lemma {:induction false} CtlCopiesSame(c: Ctx, body: Expr, control: Expr, wires: BodyWires, w: nat, i: nat, k: int, acc: Expr,
                                         a: Env, b: Env, fuel: nat, exp: set<Name>, names: set<Name>)
    requires Scoped(c, a, b, names) && Mentions(body) <= names && IsGateTree(acc) && Quiet(names, acc)
    ensures Alike(CtlCopies(c, body, control, wires, w, i, k, acc, a, fuel, exp), CtlCopies(c, body, control, wires, w, i, k, acc, b, fuel, exp), names)
    decreases fuel, 5, ControlSize(body), 3, k - i
  {
    hide Ctl, CtlCopies, WireSlice, Saturate, ComposeNonempty, Scoped, Mentions, Quiet, IsGateTree, ControlSize;
    var t := WireSlice(wires, Saturate(i * w), w);
    if i >= k {
      CopiesDone(c, body, control, wires, w, i, k, acc, a, fuel, exp);
      CopiesDone(c, body, control, wires, w, i, k, acc, b, fuel, exp);
    } else if t.Err? {
      CopiesOffEnd(c, body, control, wires, w, i, k, acc, a, fuel, exp);
      CopiesOffEnd(c, body, control, wires, w, i, k, acc, b, fuel, exp);
    } else {
      MentionedIsQuiet(names, body);
      CtlSame(c, body, control, t.value, a, b, fuel, exp, names);
      var r := Ctl(c, body, control, t.value, a, fuel, exp);
      if r.Fail? {
        CopiesFail(c, body, control, wires, w, i, k, acc, a, fuel, exp);
        CopiesFail(c, body, control, wires, w, i, k, acc, b, fuel, exp);
      } else {
        CopiesNext(c, body, control, wires, w, i, k, acc, a, fuel, exp);
        CopiesNext(c, body, control, wires, w, i, k, acc, b, fuel, exp);
        QuietAppend(names, acc, r.value);
        CtlCopiesSame(c, body, control, wires, w, i + 1, k, ComposeNonempty(acc, r.value), a, b, r.fuel, exp, names);
      }
    }
  }

  ghost predicate AlikeArm(a: Out<(Expr, nat)>, b: Out<(Expr, nat)>, names: set<Name>) {
    a == b && (a.Done? ==> Quiet(names, a.value.0))
  }

  lemma {:induction false} CtlArmsSame(c: Ctx, items: seq<Expr>, control: Expr, wires: BodyWires, offset: int, acc: Expr,
                                       a: Env, b: Env, fuel: nat, exp: set<Name>, names: set<Name>)
    requires Scoped(c, a, b, names) && MentionsAll(items) <= names && IsGateTree(acc) && Quiet(names, acc)
    ensures Alike(CtlArms(c, items, control, wires, offset, acc, a, fuel, exp), CtlArms(c, items, control, wires, offset, acc, b, fuel, exp), names)
    decreases fuel, 5, ControlSizes(items), 4, |items|
  {
    hide CtlArm, Saturate, ComposeNonempty, Append, Scoped, Mentions, Quiet, IsGateTree, ControlSize;
    if items != [] {
      CtlArmSame(c, items[0], control, wires, offset, a, b, fuel, exp, names);
      var r := CtlArm(c, items[0], control, wires, offset, a, fuel, exp);
      if r.Done? {
        QuietAppend(names, acc, r.value.0);
        CtlArmsSame(c, items[1..], control, wires, Saturate(offset + r.value.1), ComposeNonempty(acc, r.value.0), a, b, r.fuel, exp, names);
      }
    }
  }

  lemma ArmNoWidth(c: Ctx, item: Expr, control: Expr, wires: BodyWires, offset: int, env: Env, fuel: nat, exp: set<Name>)
    requires ArmWidth(c, item, env, fuel, exp).Fail?
    ensures CtlArm(c, item, control, wires, offset, env, fuel, exp) == Fail(ArmWidth(c, item, env, fuel, exp).error)
  {
    hide Ctl, ArmWidth, WireSlice, IsGateTree;
  }

  lemma ArmOffEnd(c: Ctx, item: Expr, control: Expr, wires: BodyWires, offset: int, env: Env, fuel: nat, exp: set<Name>)
    requires ArmWidth(c, item, env, fuel, exp).Done? && WireSlice(wires, offset, ArmWidth(c, item, env, fuel, exp).value).Err?
    ensures CtlArm(c, item, control, wires, offset, env, fuel, exp) == Fail(WireSlice(wires, offset, ArmWidth(c, item, env, fuel, exp).value).error)
  {
    hide Ctl, ArmWidth, WireSlice, IsGateTree;
  }

  lemma ArmControlled(c: Ctx, item: Expr, control: Expr, wires: BodyWires, offset: int, env: Env, fuel: nat, exp: set<Name>)
    requires ArmWidth(c, item, env, fuel, exp).Done? && WireSlice(wires, offset, ArmWidth(c, item, env, fuel, exp).value).Ok?
    ensures var w := ArmWidth(c, item, env, fuel, exp);
            var r := Ctl(c, item, control, WireSlice(wires, offset, w.value).value, env, w.fuel, exp);
            CtlArm(c, item, control, wires, offset, env, fuel, exp) == if r.Fail? then Fail(r.error) else Done((r.value, w.value), r.fuel)
  {
    hide Ctl, ArmWidth, WireSlice, IsGateTree;
  }

  lemma {:induction false} CtlArmSame(c: Ctx, item: Expr, control: Expr, wires: BodyWires, offset: int, a: Env, b: Env, fuel: nat,
                                      exp: set<Name>, names: set<Name>)
    requires Scoped(c, a, b, names) && Mentions(item) <= names
    ensures AlikeArm(CtlArm(c, item, control, wires, offset, a, fuel, exp), CtlArm(c, item, control, wires, offset, b, fuel, exp), names)
    decreases fuel, 5, ControlSize(item), 3, 0
  {
    hide Ctl, CtlArm, ArmWidth, WireSlice, Scoped, Mentions, Quiet, IsGateTree;
    ArmWidthSame(c, item, a, b, fuel, exp, names);
    var w := ArmWidth(c, item, a, fuel, exp);
    if w.Fail? {
      ArmNoWidth(c, item, control, wires, offset, a, fuel, exp);
      ArmNoWidth(c, item, control, wires, offset, b, fuel, exp);
    } else {
      var t := WireSlice(wires, offset, w.value);
      if t.Err? {
        ArmOffEnd(c, item, control, wires, offset, a, fuel, exp);
        ArmOffEnd(c, item, control, wires, offset, b, fuel, exp);
      } else {
        MentionedIsQuiet(names, item);
        CtlSame(c, item, control, t.value, a, b, w.fuel, exp, names);
        ArmControlled(c, item, control, wires, offset, a, fuel, exp);
        ArmControlled(c, item, control, wires, offset, b, fuel, exp);
      }
    }
  }

  // ── Callees on their own ───────────────────────────────────────────────────

  /** No name bound in `env` is mentioned by the function's body, or by a function it reaches. */
  ghost predicate Unseen(c: Ctx, name: Name, env: Env)
    requires name in c.bodies
  {
    exists names: set<Name> :: Closed(c, names) && Mentions(c.bodies[name]) <= names && names !! env.Keys
  }

  lemma NothingBound(c: Ctx, env: Env, names: set<Name>)
    requires Closed(c, names) && names !! env.Keys
    ensures Scoped(c, env, map[], names)
  {
    hide Closed;
    assert forall n :: n in env <==> n in env.Keys;
  }

  /** Inlining under bindings that the function does not see is inlining it on its own. */
  lemma InlineUnseen(c: Ctx, name: Name, env: Env, fuel: nat, exp: set<Name>)
    requires name in c.bodies && Unseen(c, name, env)
    ensures Inline(c, name, env, fuel, exp) == Inline(c, name, map[], fuel, exp)
  {
    hide Elab, Closed, Mentions, Scoped, Quiet;
    if name !in exp {
      var names: set<Name> :| Closed(c, names) && Mentions(c.bodies[name]) <= names && names !! env.Keys;
      NothingBound(c, env, names);
      ElabSame(c, c.bodies[name], env, map[], fuel, exp + {name}, names);
    }
  }
}
