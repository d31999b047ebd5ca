/** An elaboration that succeeds is unchanged by more fuel and by a smaller set of guarded names. */
module ElaborateLaws {
  import opened Ast
  import opened Classical
  import opened ClassicalLaws
  import opened GateTree
  import opened CircuitForms
  import opened Elaborate

  lemma {:induction false} LetsMono(ops: Ops, stmts: seq<Stmt>, env: Env, fuel: nat, extra: nat)
    ensures MoreFuel(EvalLets(ops, stmts, env, fuel), EvalLets(ops, stmts, env, Topped(fuel, extra)), extra)
    decreases |stmts|
  {
    if stmts != [] && EvalLets(ops, stmts, env, fuel).Done? {
      EvalMono(ops, stmts[0].rhs, env, fuel, extra);
      var r := Eval(ops, stmts[0].rhs, env, fuel);
      LetsMono(ops, stmts[1..], BindPat(stmts[0].pat, r.value, env).value, r.fuel, extra);
    }
  }

  lemma WidthMono(c: Ctx, e: Expr, env: Env, fuel: nat, extra: nat)
    ensures MoreFuel(DeclaredWidth(c, e, env, fuel), DeclaredWidth(c, e, env, Topped(fuel, extra)), extra)
  {
    if e.App? {
      var (head, args) := FlattenApp(e.fn, e.arg);
      if head == Var("identity") && |args| == 1 {
        EvalMono(c.ops, args[0], env, fuel, extra);
      } else if head.Var? && head.name in c.parametric {
        var params := c.parametric[head.name].params;
        var n := if |params| < |args| then |params| else |args|;
        EvalSeqMono(c.ops, args[..n], env, fuel, extra);
      }
    }
  }

  lemma {:induction false} ElabStable(c: Ctx, e: Expr, env: Env, fuel: nat, exp: set<Name>, extra: nat, less: set<Name>)
    requires less <= exp
    ensures MoreFuel(Elab(c, e, env, fuel, exp), Elab(c, e, env, Topped(fuel, extra), less), extra)
    decreases fuel, 0
  {
    if fuel > 0 { NodeStable(c, e, env, fuel - 1, exp, extra, less); }
  }

  lemma {:induction false} NodeStable(c: Ctx, e: Expr, env: Env, fuel: nat, exp: set<Name>, extra: nat, less: set<Name>)
    requires less <= exp
    ensures MoreFuel(ElabNode(c, e, env, fuel, exp), ElabNode(c, e, env, Topped(fuel, extra), less), extra)
    decreases fuel, 32
  {
    hide *;
    if e.CircuitBlock? || e.Compose? || e.Match? { FormStable(c, e, env, fuel, exp, extra, less); }
    else if e.Let? || e.Adjoint? || e.For? { BinderStable(c, e, env, fuel, exp, extra, less); }
    else { CallFormStable(c, e, env, fuel, exp, extra, less); }
  }

  lemma {:induction false} FormStable(c: Ctx, e: Expr, env: Env, fuel: nat, exp: set<Name>, extra: nat, less: set<Name>)
    requires less <= exp && (e.CircuitBlock? || e.Compose? || e.Match?)
    ensures MoreFuel(ElabNode(c, e, env, fuel, exp), ElabNode(c, e, env, Topped(fuel, extra), less), extra)
    decreases fuel, 30
  {
    hide ElabBlock, ElabCompose, ElabMatch;
    match e
    case CircuitBlock(stmts) => BlockStable(c, stmts, env, fuel, exp, extra, less);
    case Compose(lhs, rhs) => ComposeStable(c, lhs, rhs, env, fuel, exp, extra, less);
    case Match(scrutinee, arms) => MatchStable(c, scrutinee, arms, env, fuel, exp, extra, less);
  }

  lemma {:induction false} BinderStable(c: Ctx, e: Expr, env: Env, fuel: nat, exp: set<Name>, extra: nat, less: set<Name>)
    requires less <= exp && (e.Let? || e.Adjoint? || e.For?)
    ensures MoreFuel(ElabNode(c, e, env, fuel, exp), ElabNode(c, e, env, Topped(fuel, extra), less), extra)
    decreases fuel, 30
  {
    hide ElabLet, ElabFor;
    match e
    case Let(pat, rhs, body) => LetStable(c, pat, rhs, body, env, fuel, exp, extra, less);
    case Adjoint(inner) => ElabStable(c, inner, env, fuel, exp, extra, less);
    case For(pat, iter, body) => ForStable(c, pat, iter, body, env, fuel, exp, extra, less);
  }

  lemma {:induction false} CallFormStable(c: Ctx, e: Expr, env: Env, fuel: nat, exp: set<Name>, extra: nat, less: set<Name>)
    requires less <= exp
    requires !(e.CircuitBlock? || e.Compose? || e.Match? || e.Let? || e.Adjoint? || e.For?)
    ensures MoreFuel(ElabNode(c, e, env, fuel, exp), ElabNode(c, e, env, Topped(fuel, extra), less), extra)
    decreases fuel, 30
  {
    hide ElabGateApp, ElabApp, Inline, ElabPar, ElabParN;
    match e
    case GateApp(gate, qubits) => GateStable(c, gate, qubits, env, fuel, exp, extra, less);
    case App(f, x) => AppStable(c, f, x, env, fuel, exp, extra, less);
    case Var(name) => if name in c.bodies { InlineStable(c, name, map[], fuel, exp, extra, less); }
    case Par(body, count) => ParStable(c, body, count, env, fuel, exp, extra, less);
    case ParN(items) => ParNStable(c, items, 0, EMPTY, env, fuel, exp, extra, less);
    case _ =>
  }

  lemma {:induction false} BlockStable(c: Ctx, stmts: seq<Stmt>, env: Env, fuel: nat, exp: set<Name>, extra: nat, less: set<Name>)
    requires less <= exp
    ensures MoreFuel(ElabBlock(c, stmts, env, fuel, exp), ElabBlock(c, stmts, env, Topped(fuel, extra), less), extra)
    decreases fuel, 10
  {
    if ElabBlock(c, stmts, env, fuel, exp).Done? {
      var n := |stmts| - 1;
      LetsMono(c.ops, stmts[..n], env, fuel, extra);
      var r := EvalLets(c.ops, stmts[..n], env, fuel);
      ElabStable(c, stmts[n].e, r.value, r.fuel, exp, extra, less);
    }
  }

  lemma {:induction false} ComposeStable(c: Ctx, lhs: Expr, rhs: Expr, env: Env, fuel: nat, exp: set<Name>, extra: nat, less: set<Name>)
    requires less <= exp
    ensures MoreFuel(ElabCompose(c, lhs, rhs, env, fuel, exp), ElabCompose(c, lhs, rhs, env, Topped(fuel, extra), less), extra)
    decreases fuel, 10
  {
    if ElabCompose(c, lhs, rhs, env, fuel, exp).Done? {
      ElabStable(c, lhs, env, fuel, exp, extra, less);
      ElabStable(c, rhs, env, Elab(c, lhs, env, fuel, exp).fuel, exp, extra, less);
    }
  }

  lemma {:induction false} MatchStable(c: Ctx, scrutinee: Expr, arms: seq<Arm>, env: Env, fuel: nat, exp: set<Name>, extra: nat, less: set<Name>)
    requires less <= exp
    ensures MoreFuel(ElabMatch(c, scrutinee, arms, env, fuel, exp), ElabMatch(c, scrutinee, arms, env, Topped(fuel, extra), less), extra)
    decreases fuel, 10
  {
    if ElabMatch(c, scrutinee, arms, env, fuel, exp).Done? {
      EvalMono(c.ops, scrutinee, env, fuel, extra);
      var r := Eval(c.ops, scrutinee, env, fuel);
      var choice := CircuitArm(arms, r.value, env);
      ElabStable(c, choice.body, choice.env, r.fuel, exp, extra, less);
    }
  }

  lemma {:induction false} LetStable(c: Ctx, pat: Pat, rhs: Expr, body: Expr, env: Env, fuel: nat, exp: set<Name>, extra: nat, less: set<Name>)
    requires less <= exp
    ensures MoreFuel(ElabLet(c, pat, rhs, body, env, fuel, exp), ElabLet(c, pat, rhs, body, env, Topped(fuel, extra), less), extra)
    decreases fuel, 10
  {
    if ElabLet(c, pat, rhs, body, env, fuel, exp).Done? {
      EvalMono(c.ops, rhs, env, fuel, extra);
      var r := Eval(c.ops, rhs, env, fuel);
      ElabStable(c, body, BindPat(pat, r.value, env).value, r.fuel, exp, extra, less);
    }
  }

  lemma {:induction false} GateStable(c: Ctx, gate: Expr, qubits: Expr, env: Env, fuel: nat, exp: set<Name>, extra: nat, less: set<Name>)
    requires less <= exp
    ensures MoreFuel(ElabGateApp(c, gate, qubits, env, fuel, exp), ElabGateApp(c, gate, qubits, env, Topped(fuel, extra), less), extra)
    decreases fuel, 10
  {
    hide Ctl, Subst, SplitControl;
    if !IsRzz(gate) && gate.Controlled? && ElabGateApp(c, gate, qubits, env, fuel, exp).Done? {
      var ct := SplitControl(Subst(c.ops, qubits, env)).value;
      CtlStable(c, gate.inner, ct.0, SingletonTarget(ct.1), env, fuel, exp, extra, less);
    }
  }

  lemma {:induction false} ForStable(c: Ctx, pat: Pat, iter: Expr, body: Expr, env: Env, fuel: nat, exp: set<Name>, extra: nat, less: set<Name>)
    requires less <= exp
    ensures MoreFuel(ElabFor(c, pat, iter, body, env, fuel, exp), ElabFor(c, pat, iter, body, env, Topped(fuel, extra), less), extra)
    decreases fuel, 10
  {
    if ElabFor(c, pat, iter, body, env, fuel, exp).Done? {
      EvalMono(c.ops, iter, env, fuel, extra);
      var r := Eval(c.ops, iter, env, fuel);
      StepsStable(c, pat, r.value.items, body, EMPTY, env, r.fuel, exp, extra, less);
    }
  }

  lemma {:induction false} StepsStable(c: Ctx, pat: Pat, items: seq<Value>, body: Expr, acc: Expr, env: Env, fuel: nat, exp: set<Name>, extra: nat, less: set<Name>)
    requires less <= exp && IsGateTree(acc)
    ensures MoreFuel(ElabSteps(c, pat, items, body, acc, env, fuel, exp), ElabSteps(c, pat, items, body, acc, env, Topped(fuel, extra), less), extra)
    decreases fuel, 9, |items|
  {
    hide Elab, Append, BindPat, IsGateTree;
    if items != [] && ElabSteps(c, pat, items, body, acc, env, fuel, exp).Done? {
      var inner := BindPat(pat, items[0], env).value;
      ElabStable(c, body, inner, fuel, exp, extra, less);
      var r := Elab(c, body, inner, fuel, exp);
      StepsStable(c, pat, items[1..], body, Append(acc, r.value), env, r.fuel, exp, extra, less);
    }
  }

  lemma {:induction false} InlineStable(c: Ctx, name: Name, env: Env, fuel: nat, exp: set<Name>, extra: nat, less: set<Name>)
    requires less <= exp && name in c.bodies
    ensures MoreFuel(Inline(c, name, env, fuel, exp), Inline(c, name, env, Topped(fuel, extra), less), extra)
    decreases fuel, 1
  {
    if name !in exp { ElabStable(c, c.bodies[name], env, fuel, exp + {name}, extra, less + {name}); }
  }

  lemma {:induction false} AppStable(c: Ctx, f: Expr, x: Expr, env: Env, fuel: nat, exp: set<Name>, extra: nat, less: set<Name>)
    requires less <= exp
    ensures MoreFuel(ElabApp(c, f, x, env, fuel, exp), ElabApp(c, f, x, env, Topped(fuel, extra), less), extra)
    decreases fuel, 20
  {
    var (head, args) := FlattenApp(f, x);
    if head.Var? {
      if Juxtaposed(c, head.name, args).None? { NamedAppStable(c, head.name, args, App(f, x), env, fuel, exp, extra, less); }
    } else {
      OtherStable(c, App(f, x), env, fuel, exp, extra, less);
    }
  }

  lemma {:induction false} NamedAppStable(c: Ctx, name: Name, args: seq<Expr>, call: Expr, env: Env, fuel: nat, exp: set<Name>, extra: nat, less: set<Name>)
    requires less <= exp && args != [] && call.App?
    ensures MoreFuel(ElabNamedApp(c, name, args, call, env, fuel, exp), ElabNamedApp(c, name, args, call, env, Topped(fuel, extra), less), extra)
    decreases fuel, 19
  {
    if name == "repeat" && |args| == 2 {
      RepeatStable(c, args[0], args[1], env, fuel, exp, extra, less);
    } else if name == "identity" && |args| == 1 {
    } else if (name == "on_high" || name == "on_low") && |args| == 2 {
      EmbedStable(c, name == "on_high", args[0], args[1], env, fuel, exp, extra, less);
    } else if name == "swap_reverse" && |args| == 1 {
      EvalMono(c.ops, args[0], env, fuel, extra);
    } else if name in c.parametric {
      CallStable(c, c.parametric[name], args, env, fuel, exp, extra, less);
    } else {
      OtherStable(c, call, env, fuel, exp, extra, less);
    }
  }

  lemma {:induction false} OtherStable(c: Ctx, call: Expr, env: Env, fuel: nat, exp: set<Name>, extra: nat, less: set<Name>)
    requires less <= exp && call.App?
    ensures MoreFuel(ElabOther(c, call, env, fuel, exp), ElabOther(c, call, env, Topped(fuel, extra), less), extra)
    decreases fuel, 18
  {
    var callee := ZeroArgCallee(c, call);
    if callee.Some? { InlineStable(c, callee.value, map[], fuel, exp, extra, less); }
  }

  lemma {:induction false} RepeatStable(c: Ctx, count: Expr, body: Expr, env: Env, fuel: nat, exp: set<Name>, extra: nat, less: set<Name>)
    requires less <= exp
    ensures MoreFuel(ElabRepeat(c, count, body, env, fuel, exp), ElabRepeat(c, count, body, env, Topped(fuel, extra), less), extra)
    decreases fuel, 10
  {
    if ElabRepeat(c, count, body, env, fuel, exp).Done? {
      EvalMono(c.ops, count, env, fuel, extra);
      ElabStable(c, body, env, Eval(c.ops, count, env, fuel).fuel, exp, extra, less);
    }
  }

  lemma {:induction false} EmbedStable(c: Ctx, high: bool, inner: Expr, target: Expr, env: Env, fuel: nat, exp: set<Name>, extra: nat, less: set<Name>)
    requires less <= exp
    ensures MoreFuel(ElabEmbed(c, high, inner, target, env, fuel, exp), ElabEmbed(c, high, inner, target, env, Topped(fuel, extra), less), extra)
    decreases fuel, 10
  {
    hide Eval, DeclaredWidth, Elab, ShiftQubits;
    if ElabEmbed(c, high, inner, target, env, fuel, exp).Done? {
      EvalMono(c.ops, target, env, fuel, extra);
      var r := Eval(c.ops, target, env, fuel);
      WidthMono(c, inner, env, r.fuel, extra);
      ElabStable(c, inner, env, DeclaredWidth(c, inner, env, r.fuel).fuel, exp, extra, less);
    }
  }

  lemma {:induction false} CallStable(c: Ctx, def: ParametricDef, args: seq<Expr>, env: Env, fuel: nat, exp: set<Name>, extra: nat, less: set<Name>)
    requires less <= exp
    ensures MoreFuel(ElabCall(c, def, args, env, fuel, exp), ElabCall(c, def, args, env, Topped(fuel, extra), less), extra)
    decreases fuel, 10
  {
    if ElabCall(c, def, args, env, fuel, exp).Done? {
      EvalSeqMono(c.ops, args, env, fuel, extra);
      var r := EvalSeq(c.ops, args, env, fuel);
      ElabStable(c, def.body, BindParams(def.params, r.value, map[]), r.fuel, exp, extra, less);
    }
  }

  lemma {:induction false} ParBodyStable(c: Ctx, body: Expr, env: Env, fuel: nat, exp: set<Name>, extra: nat, less: set<Name>)
    requires less <= exp
    ensures MoreFuel(ElabParBody(c, body, env, fuel, exp), ElabParBody(c, body, env, Topped(fuel, extra), less), extra)
    decreases fuel, 2
  {
    var callee := ZeroArgCallee(c, body);
    if callee.Some? { InlineStable(c, callee.value, env, fuel, exp, extra, less); }
    else { ElabStable(c, body, env, fuel, exp, extra, less); }
  }

  lemma {:induction false} ParStable(c: Ctx, body: Expr, count: Expr, env: Env, fuel: nat, exp: set<Name>, extra: nat, less: set<Name>)
    requires less <= exp
    ensures MoreFuel(ElabPar(c, body, count, env, fuel, exp), ElabPar(c, body, count, env, Topped(fuel, extra), less), extra)
    decreases fuel, 10
  {
    if ElabPar(c, body, count, env, fuel, exp).Done? {
      EvalMono(c.ops, count, env, fuel, extra);
      ParBodyStable(c, body, env, Eval(c.ops, count, env, fuel).fuel, exp, extra, less);
    }
  }

  lemma {:induction false} ParNStable(c: Ctx, items: seq<Expr>, offset: int, acc: Expr, env: Env, fuel: nat, exp: set<Name>, extra: nat, less: set<Name>)
    requires less <= exp && IsGateTree(acc)
    ensures MoreFuel(ElabParN(c, items, offset, acc, env, fuel, exp), ElabParN(c, items, offset, acc, env, Topped(fuel, extra), less), extra)
    decreases fuel, 9, |items|
  {
    hide ElabParBody, ShiftCircuit, ComposeNonempty, Width, IsGateTree;
    if items != [] && ElabParN(c, items, offset, acc, env, fuel, exp).Done? {
      ParBodyStable(c, items[0], env, fuel, exp, extra, less);
      var r := ElabParBody(c, items[0], env, fuel, exp);
      ParNStable(c, items[1..], offset + Width(r.value), ComposeNonempty(acc, ShiftCircuit(r.value, offset)),
                 env, r.fuel, exp, extra, less);
    }
  }

  lemma {:induction false} CalleeStable(c: Ctx, inner: Expr, env: Env, fuel: nat, exp: set<Name>, extra: nat, less: set<Name>)
    requires less <= exp
    ensures MoreFuel(NamedCallee(c, inner, env, fuel, exp), NamedCallee(c, inner, env, Topped(fuel, extra), less), extra)
    decreases fuel, 3
  {
    hide *;
    if IsParametricCall(c, inner) { CallCalleeStable(c, inner, env, fuel, exp, extra, less); }
    else { BodyCalleeStable(c, inner, env, fuel, exp, extra, less); }
  }

  lemma {:induction false} CallCalleeStable(c: Ctx, inner: Expr, env: Env, fuel: nat, exp: set<Name>, extra: nat, less: set<Name>)
    requires less <= exp && IsParametricCall(c, inner)
    ensures MoreFuel(NamedCallee(c, inner, env, fuel, exp), NamedCallee(c, inner, env, Topped(fuel, extra), less), extra)
    decreases fuel, 2
  {
    hide Elab, ElabNode, Inline, ZeroArgCallee, IsParametricCall, IsGateTree;
    ElabStable(c, inner, env, fuel, exp, extra, less);
  }

  lemma {:induction false} BodyCalleeStable(c: Ctx, inner: Expr, env: Env, fuel: nat, exp: set<Name>, extra: nat, less: set<Name>)
    requires less <= exp && !IsParametricCall(c, inner)
    ensures MoreFuel(NamedCallee(c, inner, env, fuel, exp), NamedCallee(c, inner, env, Topped(fuel, extra), less), extra)
    decreases fuel, 2
  {
    hide Elab, ElabNode, Inline, ZeroArgCallee, IsParametricCall, IsGateTree;
    var callee := ZeroArgCallee(c, inner);
    if callee.Some? { InlineStable(c, callee.value, env, fuel, exp, extra, less); }
  }

  lemma {:induction false} CtlStable(c: Ctx, inner: Expr, control: Expr, target: Expr, env: Env, fuel: nat, exp: set<Name>, extra: nat, less: set<Name>)
    requires less <= exp
    ensures MoreFuel(Ctl(c, inner, control, target, env, fuel, exp), Ctl(c, inner, control, target, env, Topped(fuel, extra), less), extra)
    decreases fuel, 5, ControlSize(inner), 2, 0
  {
    hide CtlNode, NamedCallee;
    if Ctl(c, inner, control, target, env, fuel, exp).Done? {
      CalleeStable(c, inner, env, fuel, exp, extra, less);
      var r := NamedCallee(c, inner, env, fuel, exp);
      if r.value.Some? { CtlStable(c, r.value.value, control, target, env, r.fuel, exp, extra, less); }
      else { CtlNodeStable(c, inner, control, target, env, fuel, exp, extra, less); }
    }
  }

  lemma {:induction false} CtlNodeStable(c: Ctx, inner: Expr, control: Expr, target: Expr, env: Env, fuel: nat, exp: set<Name>, extra: nat, less: set<Name>)
    requires less <= exp
    ensures MoreFuel(CtlNode(c, inner, control, target, env, fuel, exp), CtlNode(c, inner, control, target, env, Topped(fuel, extra), less), extra)
    decreases fuel, 5, ControlSize(inner), 1, 0
  {
    hide *;
    if inner.Compose? { CtlComposeStable(c, inner, control, target, env, fuel, exp, extra, less); }
    else if inner.CircuitBlock? || inner.Adjoint? { CtlBlockStable(c, inner, control, target, env, fuel, exp, extra, less); }
    else { CtlRestStable(c, inner, control, target, env, fuel, exp, extra, less); }
  }

  lemma {:induction false} CtlRestStable(c: Ctx, inner: Expr, control: Expr, target: Expr, env: Env, fuel: nat, exp: set<Name>, extra: nat, less: set<Name>)
    requires less <= exp && !(inner.Compose? || inner.CircuitBlock? || inner.Adjoint?)
    ensures MoreFuel(CtlNode(c, inner, control, target, env, fuel, exp), CtlNode(c, inner, control, target, env, Topped(fuel, extra), less), extra)
    decreases fuel, 5, ControlSize(inner), 0, 0
  {
    hide Ctl, CtlPar, CtlArms, BlockBody, CtlLeaf;
    if inner.Par? {
      CtlParStable(c, inner.body, inner.count, control, target, env, fuel, exp, extra, less);
    } else if inner.ParN? {
      CtlArmsStable(c, inner.items, control, BodyWiresOf(target), 0, EMPTY, env, fuel, exp, extra, less);
    }
  }

  lemma {:induction false} CtlComposeStable(c: Ctx, inner: Expr, control: Expr, target: Expr, env: Env, fuel: nat, exp: set<Name>, extra: nat, less: set<Name>)
    requires less <= exp && inner.Compose?
    ensures MoreFuel(CtlNode(c, inner, control, target, env, fuel, exp), CtlNode(c, inner, control, target, env, Topped(fuel, extra), less), extra)
    decreases fuel, 5, ControlSize(inner), 0, 0
  {
    hide Ctl, CtlPar, CtlArms, CtlLeaf, ComposeNonempty, BlockBody, ReverseAndInvert, IsGateTree;
    if CtlNode(c, inner, control, target, env, fuel, exp).Done? {
      CtlStable(c, inner.lhs, control, target, env, fuel, exp, extra, less);
      CtlStable(c, inner.rhs, control, target, env, Ctl(c, inner.lhs, control, target, env, fuel, exp).fuel, exp, extra, less);
    }
  }

  lemma {:induction false} CtlBlockStable(c: Ctx, inner: Expr, control: Expr, target: Expr, env: Env, fuel: nat, exp: set<Name>, extra: nat, less: set<Name>)
    requires less <= exp && (inner.CircuitBlock? || inner.Adjoint?)
    ensures MoreFuel(CtlNode(c, inner, control, target, env, fuel, exp), CtlNode(c, inner, control, target, env, Topped(fuel, extra), less), extra)
    decreases fuel, 5, ControlSize(inner), 0, 0
  {
    hide Ctl, CtlPar, CtlArms, CtlLeaf, ComposeNonempty, BlockBody, ReverseAndInvert, IsGateTree;
    if CtlNode(c, inner, control, target, env, fuel, exp).Done? {
      var body := if inner.Adjoint? then inner.inner else BlockBody(c.ops, inner.stmts, env).value;
      CtlStable(c, body, control, target, env, fuel, exp, extra, less);
    }
  }

  lemma {:induction false} ArmWidthStable(c: Ctx, arm: Expr, env: Env, fuel: nat, exp: set<Name>, extra: nat, less: set<Name>)
    requires less <= exp
    ensures MoreFuel(ArmWidth(c, arm, env, fuel, exp), ArmWidth(c, arm, env, Topped(fuel, extra), less), extra)
    decreases fuel, 1
  {
    if PrimitiveWires(c, arm).None? { ElabStable(c, arm, env, fuel, exp, extra, less); }
  }

  lemma {:induction false} CtlParStable(c: Ctx, body: Expr, count: Expr, control: Expr, target: Expr, env: Env, fuel: nat, exp: set<Name>, extra: nat, less: set<Name>)
    requires less <= exp
    ensures MoreFuel(CtlPar(c, body, count, control, target, env, fuel, exp), CtlPar(c, body, count, control, target, env, Topped(fuel, extra), less), extra)
    decreases fuel, 5, ControlSize(body), 4, 1
  {
    if CtlPar(c, body, count, control, target, env, fuel, exp).Done? {
      CtlParKStable(c, body, Eval(c.ops, count, env, c.ops.probe).value.i, control, target, env, fuel, exp, extra, less);
    }
  }

  lemma {:induction false} CtlParKStable(c: Ctx, body: Expr, k: int, control: Expr, target: Expr, env: Env, fuel: nat, exp: set<Name>, extra: nat, less: set<Name>)
    requires less <= exp
    ensures MoreFuel(CtlParK(c, body, k, control, target, env, fuel, exp), CtlParK(c, body, k, control, target, env, Topped(fuel, extra), less), extra)
    decreases fuel, 5, ControlSize(body), 4, 0
  {
    if CtlParK(c, body, k, control, target, env, fuel, exp).Done? {
      ArmWidthStable(c, body, env, fuel, exp, extra, less);
      var w := ArmWidth(c, body, env, fuel, exp);
      CtlCopiesStable(c, body, control, BodyWiresOf(target), w.value, 0, k, EMPTY, env, w.fuel, exp, extra, less);
    }
  }

  lemma {:induction false} CtlCopiesStable(c: Ctx, body: Expr, control: Expr, wires: BodyWires, w: nat, i: nat, k: int, acc: Expr,
                                           env: Env, fuel: nat, exp: set<Name>, extra: nat, less: set<Name>)
    requires less <= exp && IsGateTree(acc)
    ensures MoreFuel(CtlCopies(c, body, control, wires, w, i, k, acc, env, fuel, exp),
                     CtlCopies(c, body, control, wires, w, i, k, acc, env, Topped(fuel, extra), less), extra)
    decreases fuel, 5, ControlSize(body), 3, k - i
  {
    hide Ctl, WireSlice, ComposeNonempty, IsGateTree;
    if i < k && CtlCopies(c, body, control, wires, w, i, k, acc, env, fuel, exp).Done? {
      var t := WireSlice(wires, Saturate(i * w), w).value;
      CtlStable(c, body, control, t, env, fuel, exp, extra, less);
      var r := Ctl(c, body, control, t, env, fuel, exp);
      CtlCopiesStable(c, body, control, wires, w, i + 1, k, ComposeNonempty(acc, r.value), env, r.fuel, exp, extra, less);
    }
  }

  lemma ArmsUnfold(c: Ctx, items: seq<Expr>, control: Expr, wires: BodyWires, offset: int, acc: Expr, env: Env, fuel: nat,
                   exp: set<Name>)
    requires IsGateTree(acc) && items != []
    ensures var arm := CtlArm(c, items[0], control, wires, offset, env, fuel, exp);
            CtlArms(c, items, control, wires, offset, acc, env, fuel, exp) ==
              if arm.Fail? then Fail(arm.error)
              else CtlArms(c, items[1..], control, wires, Saturate(offset + arm.value.1), ComposeNonempty(acc, arm.value.0),
                           env, arm.fuel, exp)
  {
    hide CtlArm, Saturate, ComposeNonempty, IsGateTree;
  }

  lemma NoArmsStable(c: Ctx, control: Expr, wires: BodyWires, offset: int, acc: Expr, env: Env, fuel: nat, exp: set<Name>,
                     extra: nat, less: set<Name>)
    requires IsGateTree(acc)
    ensures MoreFuel(CtlArms(c, [], control, wires, offset, acc, env, fuel, exp),
                     CtlArms(c, [], control, wires, offset, acc, env, Topped(fuel, extra), less), extra)
  {
    hide CtlArm, Saturate, ComposeNonempty, IsGateTree, Elaborated;
  }

  lemma {:induction false} CtlArmsStable(c: Ctx, items: seq<Expr>, control: Expr, wires: BodyWires, offset: int, acc: Expr,
                                         env: Env, fuel: nat, exp: set<Name>, extra: nat, less: set<Name>)
    requires less <= exp && IsGateTree(acc)
    ensures MoreFuel(CtlArms(c, items, control, wires, offset, acc, env, fuel, exp),
                     CtlArms(c, items, control, wires, offset, acc, env, Topped(fuel, extra), less), extra)
    decreases fuel, 5, ControlSizes(items), 4, |items|
  {
    hide CtlArms, CtlArm, Saturate, ComposeNonempty, IsGateTree;
    if items == [] {
      NoArmsStable(c, control, wires, offset, acc, env, fuel, exp, extra, less);
    } else {
      ArmsUnfold(c, items, control, wires, offset, acc, env, fuel, exp);
      var r := CtlArm(c, items[0], control, wires, offset, env, fuel, exp);
      if r.Done? {
        ArmsUnfold(c, items, control, wires, offset, acc, env, fuel + extra, less);
        CtlArmStable(c, items[0], control, wires, offset, env, fuel, exp, extra, less);
        CtlArmsStable(c, items[1..], control, wires, Saturate(offset + r.value.1), ComposeNonempty(acc, r.value.0),
                      env, r.fuel, exp, extra, less);
      }
    }
  }

  lemma {:induction false} CtlArmStable(c: Ctx, item: Expr, control: Expr, wires: BodyWires, offset: int,
                                        env: Env, fuel: nat, exp: set<Name>, extra: nat, less: set<Name>)
    requires less <= exp
    ensures MoreFuel(CtlArm(c, item, control, wires, offset, env, fuel, exp),
                     CtlArm(c, item, control, wires, offset, env, Topped(fuel, extra), less), extra)
    decreases fuel, 5, ControlSize(item), 3, 0
  {
    hide Ctl, ArmWidth, WireSlice, IsGateTree;
    if CtlArm(c, item, control, wires, offset, env, fuel, exp).Done? {
      var w := ArmWidth(c, item, env, fuel, exp);
      var t := WireSlice(wires, offset, w.value);
      ArmWidthStable(c, item, env, fuel, exp, extra, less);
      CtlStable(c, item, control, t.value, env, w.fuel, exp, extra, less);
    }
  }
}
