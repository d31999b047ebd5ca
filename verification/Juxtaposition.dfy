/** What gate placements elaborate to: `g q` beside `g @ q`, rotations with their angle, and `Rzz`. */
module Juxtaposition {
  import opened Ast
  import opened Classical
  import opened GateTree
  import opened CircuitForms
  import opened Elaborate
  import opened Meaning
  import opened Phase
  import opened Gadgets

  /** A gate name that stands for the gate alone: nothing bound, recorded or built in goes by it. */
  predicate OnlyAGate(c: Ctx, name: Name, env: Env) {
    && name !in env && name !in c.parametric && name !in c.bodies
    && name !in {"PI", "TAU", "E", "repeat", "identity", "on_high", "on_low", "swap_reverse"}
  }

  /** No classical builtin goes by the name. */
  predicate NoBuiltinName(name: Name) { name !in {"range", "qubits", "diag", "pairs", "sqrt", "round", "float"} }

  predicate GateOf(c: Ctx, name: Name, parametric: bool, arity: nat) {
    && SurfaceGate(c.reg, name).Some?
    && SurfaceGate(c.reg, name).value.parametric == parametric && SurfaceGate(c.reg, name).value.arity == arity
  }

  /** `r` is one placed gate and nothing else. */
  predicate Places(r: Out<Expr>, gate: Expr, qubits: Expr) { r.Done? && Leaves(r.value) == [Placed(gate, qubits)] }

  /** Elaborating a call or a placement is one step. */
  lemma OneStep(c: Ctx, e: Expr, env: Env, fuel: nat, exp: set<Name>)
    requires fuel > 0
    ensures e.App? ==> Elab(c, e, env, fuel, exp) == ElabApp(c, e.fn, e.arg, env, fuel - 1, exp)
    ensures e.GateApp? ==> Elab(c, e, env, fuel, exp) == ElabGateApp(c, e.gate, e.qubits, env, fuel - 1, exp)
  {
    hide ElabBlock, ElabCompose, ElabMatch, ElabLet, ElabAdjoint, ElabFor, ElabApp, ElabGateApp, Inline, ElabPar, ElabParN;
  }

  /** A free name is left as it is. */
  lemma NameStays(c: Ctx, name: Name, env: Env)
    requires OnlyAGate(c, name, env)
    ensures Subst(c.ops, Var(name), env) == Var(name)
  {
    assert Lookup(c.ops, name, env).Err?;
    NoLookup(c.ops, name, env, c.ops.probe);
  }

  lemma NoLookup(ops: Ops, name: Name, env: Env, fuel: nat)
    requires Lookup(ops, name, env).Err?
    ensures Eval(ops, Var(name), env, fuel).Fail?
  {
    hide Lookup;
  }

  /** A call that no builtin answers is substituted in its parts. */
  lemma CallStays(c: Ctx, name: Name, x: Expr, env: Env)
    requires OnlyAGate(c, name, env) && NoBuiltinName(name)
    ensures Subst(c.ops, App(Var(name), x), env) == App(Var(name), Subst(c.ops, x, env))
  {
    hide Subst, EvalSeq;
    NameStays(c, name, env);
    assert Eval(c.ops, App(Var(name), x), env, c.ops.probe).Fail? by { NoBuiltin(c.ops, name, x, env, c.ops.probe); }
    SubstOfCall(c.ops, Var(name), x, env);
  }

  lemma NoBuiltin(ops: Ops, name: Name, x: Expr, env: Env, fuel: nat)
    requires NoBuiltinName(name)
    ensures Eval(ops, App(Var(name), x), env, fuel).Fail?
  {
    hide EvalSeq;
  }

  lemma SubstOfCall(ops: Ops, f: Expr, x: Expr, env: Env)
    requires Eval(ops, App(f, x), env, ops.probe).Fail?
    ensures Subst(ops, App(f, x), env) == App(Subst(ops, f, env), Subst(ops, x, env))
  {
    hide Eval;
  }

  // ── Placements with `@` ────────────────────────────────────────────────────

  /** `g @ q` and `g(a) @ q` place the gate on the substituted target, with the substituted angle. */
  lemma PlacedWithAt(c: Ctx, name: Name, angle: Option<Expr>, q: Expr, env: Env, fuel: nat, exp: set<Name>)
    requires fuel > 0 && OnlyAGate(c, name, env) && NoBuiltinName(name) && name != "Rzz"
    ensures var gate := if angle.Some? then App(Var(name), angle.value) else Var(name);
            var gate' := if angle.Some? then App(Var(name), Subst(c.ops, angle.value, env)) else Var(name);
            Places(Elab(c, GateApp(gate, q), env, fuel, exp), gate', Subst(c.ops, q, env))
  {
    hide Elab, Subst;
    var gate := if angle.Some? then App(Var(name), angle.value) else Var(name);
    OneStep(c, GateApp(gate, q), env, fuel, exp);
    NameStays(c, name, env);
    if angle.Some? { CallStays(c, name, angle.value, env); }
    PlainPlacement(c, gate, q, env, fuel - 1, exp);
  }

  lemma PlainPlacement(c: Ctx, gate: Expr, q: Expr, env: Env, fuel: nat, exp: set<Name>)
    requires !gate.Controlled? && (gate.App? ==> gate.fn.Var? && gate.fn != Var("Rzz"))
    ensures Places(ElabGateApp(c, gate, q, env, fuel, exp), Subst(c.ops, gate, env), Subst(c.ops, q, env))
  {
    hide Subst, Ctl, RzzGadget, SplitControl;
    assert !IsRzz(gate);
  }

  // ── Juxtaposition ──────────────────────────────────────────────────────────

  /** `g q` is `g @ q`. */
  lemma PlainJuxtaposed(c: Ctx, name: Name, q: Expr, env: Env, fuel: nat, exp: set<Name>, arity: nat)
    requires fuel > 0 && OnlyAGate(c, name, env) && GateOf(c, name, false, arity) && q != Unit
    ensures Places(Elab(c, App(Var(name), q), env, fuel, exp), Var(name), Subst(c.ops, q, env))
  {
    hide Elab, Subst, ElabNamedApp, ElabOther;
    OneStep(c, App(Var(name), q), env, fuel, exp);
    assert FlattenApp(Var(name), q) == (Var(name), [q]);
    assert Juxtaposed(c, name, [q]) == Some(0);
  }

  /** `g a q` is `g(a) @ q` exactly when the rotation stands on one qubit; otherwise it is left unplaced. */
  lemma RotationJuxtaposed(c: Ctx, name: Name, a: Expr, q: Expr, env: Env, fuel: nat, exp: set<Name>, arity: nat)
    requires fuel > 0 && OnlyAGate(c, name, env) && NoBuiltinName(name) && GateOf(c, name, true, arity)
    ensures var r := Elab(c, App(App(Var(name), a), q), env, fuel, exp);
            Places(r, App(Var(name), Subst(c.ops, a, env)), Subst(c.ops, q, env)) <==> arity == 1
    ensures arity != 1 ==>
              Elab(c, App(App(Var(name), a), q), env, fuel, exp)
                == Done(App(App(Var(name), Subst(c.ops, a, env)), Subst(c.ops, q, env)), fuel - 1)
  {
    hide Elab, Subst, ElabNamedApp, Leaves;
    var call := App(App(Var(name), a), q);
    OneStep(c, call, env, fuel, exp);
    TwoWords(name, a, q);
    assert Juxtaposed(c, name, [a, q]) == if arity == 1 then Some(1) else None;
    if arity == 1 {
      PlacedLeaf(App(Var(name), Subst(c.ops, a, env)), Subst(c.ops, q, env));
    } else {
      LeftAlone(c, name, a, q, env, fuel - 1, exp);
      BareLeaf(App(App(Var(name), Subst(c.ops, a, env)), Subst(c.ops, q, env)));
    }
  }

  lemma TwoWords(name: Name, a: Expr, q: Expr)
    ensures FlattenApp(App(Var(name), a), q) == (Var(name), [a, q])
  {
    assert FlattenApp(Var(name), a) == (Var(name), [a]);
    assert [a] + [q] == [a, q];
  }

  lemma PlacedLeaf(gate: Expr, q: Expr)
    ensures Leaves(GateApp(gate, q)) == [Placed(gate, q)]
  {
  }

  lemma BareLeaf(e: Expr)
    requires e.App?
    ensures Leaves(e) == [Bare(e)]
  {
  }

  lemma LeftAlone(c: Ctx, name: Name, a: Expr, q: Expr, env: Env, fuel: nat, exp: set<Name>)
    requires OnlyAGate(c, name, env) && NoBuiltinName(name)
    ensures ElabNamedApp(c, name, [a, q], App(App(Var(name), a), q), env, fuel, exp)
         == Done(App(App(Var(name), Subst(c.ops, a, env)), Subst(c.ops, q, env)), fuel)
  {
    hide Subst, Inline, ElabRepeat, ElabEmbed, ElabCall, SwapReverse, EvalSeq;
    var call := App(App(Var(name), a), q);
    TwoWords(name, a, q);
    CallStays(c, name, a, env);
    assert Eval(c.ops, call, env, c.ops.probe).Fail? by { NoPairBuiltin(c.ops, name, a, q, env, c.ops.probe); }
    SubstOfCall(c.ops, App(Var(name), a), q, env);
    assert ZeroArgCallee(c, call).None?;
  }

  lemma NoPairBuiltin(ops: Ops, name: Name, a: Expr, q: Expr, env: Env, fuel: nat)
    ensures Eval(ops, App(App(Var(name), a), q), env, fuel).Fail?
  {
    hide EvalSeq;
    TwoWords(name, a, q);
  }

  // ── Rzz ────────────────────────────────────────────────────────────────────

  /** `Rzz(a) @ (i, j)` turns states whose two bits are equal back by half the angle, and the others on. */
  lemma RzzPlaced(c: Ctx, a: Expr, q: Expr, env: Env, fuel: nat, exp: set<Name>, angle: real, i: nat, j: nat, s: Basis)
    requires fuel > 0 && c.ops.pi != 0.0 && ListsPhaseGates(c.reg) && i != j && i < |s.bits| && j < |s.bits|
    requires Subst(c.ops, a, env) == Float(angle) && Subst(c.ops, q, env) == Tuple([Int(i), Int(j)])
    ensures var r := Elab(c, GateApp(App(Var("Rzz"), a), q), env, fuel, exp);
            && r.Done?
            && Run(PhaseModel(c.reg, c.ops.pi), Leaves(r.value), true, 0, s)
                 == Turned(s, if s.bits[i] == s.bits[j] then -Turns(c.ops.pi, angle) / 2.0 else Turns(c.ops.pi, angle) / 2.0)
  {
    hide Elab, Subst, Run, Leaves, RzzGadget, PhaseModel;
    OneStep(c, GateApp(App(Var("Rzz"), a), q), env, fuel, exp);
    assert FlattenApp(Var("Rzz"), a) == (Var("Rzz"), [a]);
    assert IsRzz(App(Var("Rzz"), a));
    RzzIsExact(c.reg, c.ops.pi, angle, i, j, s);
  }
}
