/** `par` inlines a zero-argument callee under the caller's bindings; a plain call does not. The two
    elaborate alike when the caller binds no name the callee can come upon, and not otherwise. */
module ParScope {
  import opened Ast
  import opened Classical
  import opened GateTree
  import opened CircuitForms
  import opened Elaborate
  import opened EnvLaws
  import opened NameLaws
  import opened ScopeLaws

  // ── Where the two calls agree ──────────────────────────────────────────────

  lemma ParInlines(c: Ctx, name: Name, env: Env, fuel: nat, exp: set<Name>)
    requires name in c.bodies
    ensures ElabParBody(c, Var(name), env, fuel, exp) == Inline(c, name, env, fuel, exp)
  {
    hide Inline;
  }

  lemma CallInlines(c: Ctx, name: Name, env: Env, fuel: nat, exp: set<Name>)
    requires name in c.bodies
    ensures Elab(c, Var(name), env, fuel + 1, exp) == Inline(c, name, map[], fuel, exp)
  {
    hide ElabNode, Inline;
    NamedNode(c, name, env, fuel, exp);
  }

  lemma NamedNode(c: Ctx, name: Name, env: Env, fuel: nat, exp: set<Name>)
    requires name in c.bodies
    ensures ElabNode(c, Var(name), env, fuel, exp) == Inline(c, name, map[], fuel, exp)
  {
    hide Inline;
  }

  /** If the caller binds no name that the callee, or a function it reaches, mentions, an arm of `par`
      elaborates exactly as a plain call does: the same tree, the same fuel, the same errors. */
  lemma ParBodyIsCall(c: Ctx, name: Name, env: Env, fuel: nat, exp: set<Name>)
    requires name in c.bodies && Unseen(c, name, env)
    ensures ElabParBody(c, Var(name), env, fuel, exp) == Elab(c, Var(name), env, fuel + 1, exp)
  {
    hide Elab, ElabParBody, Inline, Unseen;
    ParInlines(c, name, env, fuel, exp);
    InlineUnseen(c, name, env, fuel, exp);
    CallInlines(c, name, env, fuel, exp);
  }

  // ── And where they do not ──────────────────────────────────────────────────

  lemma EvalLeaf(ops: Ops, name: Name, n: int, env: Env, fuel: nat)
    requires fuel > 0
    ensures Eval(ops, Var(name), env, fuel) == Lift(Lookup(ops, name, env), fuel - 1)
    ensures Eval(ops, Int(n), env, fuel) == Done(VInt(n), fuel - 1)
  {
    hide Lookup;
  }

  lemma SubstCall(ops: Ops, f: Expr, x: Expr, env: Env)
    requires Eval(ops, App(f, x), env, ops.probe).Fail?
    ensures Subst(ops, App(f, x), env) == App(Subst(ops, f, env), Subst(ops, x, env))
  {
    hide Eval;
  }

  lemma PlainGate(c: Ctx, g: Name, x: Name, qubits: Expr, env: Env, fuel: nat, exp: set<Name>)
    requires g != "Rzz"
    ensures ElabGateApp(c, App(Var(g), Var(x)), qubits, env, fuel, exp)
         == Done(GateApp(Subst(c.ops, App(Var(g), Var(x)), env), Subst(c.ops, qubits, env)), fuel)
  {
    hide Ctl, SplitControl, RzzGadget, Subst;
    assert FlattenApp(Var(g), Var(x)) == (Var(g), [Var(x)]);
  }

  /** The caller binds the name to something other than what it means on its own. */
  predicate Shadows(ops: Ops, env: Env, n: Name) {
    n in env && Lookup(ops, n, map[]) != Ok(env[n])
  }

  predicate IsBuiltin(name: Name) { name in {"range", "qubits", "diag", "pairs", "sqrt", "round", "float"} }

  /** `g(x) @ y`. */
  function Placed(g: Name, x: Name, y: Name): Expr {
    GateApp(App(Var(g), Var(x)), Var(y))
  }

  lemma {:induction false} DifferentValues(v: Value, w: Value)
    requires v != w
    ensures ValueToExpr(v) != ValueToExpr(w)
    decreases v
  {
    if (v.VTuple? && w.VTuple?) || (v.VList? && w.VList?) {
      SameCount(v);
      SameCount(w);
      if |v.items| == |w.items| {
        var i :| 0 <= i < |v.items| && v.items[i] != w.items[i];
        DifferentValues(v.items[i], w.items[i]);
        ItemOf(v, i);
        ItemOf(w, i);
      }
    }
  }

  lemma SameCount(v: Value)
    requires v.VTuple? || v.VList?
    ensures (ValueToExpr(v).Tuple? || ValueToExpr(v).List?) && |ValueToExpr(v).items| == |v.items|
  {
  }

  lemma ItemOf(v: Value, i: nat)
    requires (v.VTuple? || v.VList?) && i < |v.items|
    ensures ValueToExpr(v).items[i] == ValueToExpr(v.items[i])
  {
  }

  lemma SubstName(ops: Ops, n: Name, env: Env)
    requires ops.probe > 0
    ensures Subst(ops, Var(n), env) == match Lookup(ops, n, env) case Ok(v) => ValueToExpr(v) case Err(_) => Var(n)
  {
    hide Eval, Lookup, ValueToExpr;
    EvalLeaf(ops, n, 0, env, ops.probe);
  }

  /** Substitution sees a binding exactly when it shadows. */
  lemma NameDiffers(ops: Ops, n: Name, env: Env)
    requires ops.probe > 0
    ensures Subst(ops, Var(n), env) != Subst(ops, Var(n), map[]) <==> Shadows(ops, env, n)
  {
    hide Subst, ValueToExpr;
    SubstName(ops, n, env);
    SubstName(ops, n, map[]);
    if n in env {
      assert Lookup(ops, n, env) == Ok(env[n]);
      ValueIsNoName(env[n]);
      if Lookup(ops, n, map[]).Ok? && Lookup(ops, n, map[]).value != env[n] { DifferentValues(Lookup(ops, n, map[]).value, env[n]); }
    }
  }

  lemma ValueIsNoName(v: Value)
    ensures !ValueToExpr(v).Var?
  {
  }

  lemma NoBuiltin(ops: Ops, g: Name, x: Expr, env: Env)
    requires !IsBuiltin(g) && !x.App?
    ensures Eval(ops, App(Var(g), x), env, ops.probe).Fail?
  {
    hide EvalSeq;
    assert FlattenApp(Var(g), x) == (Var(g), [x]);
    if ops.probe > 0 {
      var vs := EvalSeq(ops, [x], env, ops.probe - 1);
      if vs.Done? { assert EvalBuiltin(ops, g, vs.value) == Ok(None); }
    }
  }

  lemma PlacedElaborates(c: Ctx, g: Name, x: Name, y: Name, env: Env, fuel: nat, exp: set<Name>)
    requires !IsBuiltin(g) && g != "Rzz" && fuel > 0
    ensures Elab(c, Placed(g, x, y), env, fuel, exp)
         == Done(GateApp(App(Subst(c.ops, Var(g), env), Subst(c.ops, Var(x), env)), Subst(c.ops, Var(y), env)), fuel - 1)
  {
    hide ElabGateApp, Subst, IsBuiltin;
    NoBuiltin(c.ops, g, Var(x), env);
    SubstCall(c.ops, Var(g), Var(x), env);
    PlainGate(c, g, x, Var(y), env, fuel - 1, exp);
  }

  /** For a function whose body is one placed rotation, the two calls elaborate alike exactly when the
      caller shadows none of the names that substitution reads there. */
  lemma AlikeIffNotShadowed(c: Ctx, name: Name, g: Name, x: Name, y: Name, env: Env, fuel: nat, exp: set<Name>)
    requires name in c.bodies && c.bodies[name] == Placed(g, x, y) && name !in exp
    requires !IsBuiltin(g) && g != "Rzz" && c.ops.probe > 0 && fuel > 0
    ensures ElabParBody(c, Var(name), env, fuel, exp) == Elab(c, Var(name), env, fuel + 1, exp)
       <==> !Shadows(c.ops, env, g) && !Shadows(c.ops, env, x) && !Shadows(c.ops, env, y)
  {
    hide Elab, Subst, Shadows, IsBuiltin, ElabParBody;
    ParInlines(c, name, env, fuel, exp);
    CallInlines(c, name, env, fuel, exp);
    PlacedElaborates(c, g, x, y, env, fuel, exp + {name});
    PlacedElaborates(c, g, x, y, map[], fuel, exp + {name});
    NameDiffers(c.ops, g, env);
    NameDiffers(c.ops, x, env);
    NameDiffers(c.ops, y, env);
  }

  /** For example, where the caller binds `PI` to another number, an arm of `par` that calls
      `Rz(PI) @ q` turns by the caller's number and a plain call by pi. */
  lemma ParSeesCallersPi(c: Ctx, name: Name, x: real, fuel: nat, exp: set<Name>)
    requires name in c.bodies && c.bodies[name] == Placed("Rz", "PI", "q") && name !in exp
    requires c.ops.probe > 0 && fuel > 0
    ensures var env: Env := map["PI" := VFloat(x)];
            && ElabParBody(c, Var(name), env, fuel, exp) == Done(GateApp(App(Var("Rz"), Float(x)), Var("q")), fuel - 1)
            && Elab(c, Var(name), env, fuel + 1, exp) == Done(GateApp(App(Var("Rz"), Float(c.ops.pi)), Var("q")), fuel - 1)
  {
    hide Elab, Subst, ElabParBody;
    var env: Env := map["PI" := VFloat(x)];
    ParInlines(c, name, env, fuel, exp);
    CallInlines(c, name, env, fuel, exp);
    PlacedElaborates(c, "Rz", "PI", "q", env, fuel, exp + {name});
    PlacedElaborates(c, "Rz", "PI", "q", map[], fuel, exp + {name});
    PiIsBound(c.ops, env);
    PiIsBound(c.ops, map[]);
  }

  lemma PiIsBound(ops: Ops, env: Env)
    requires ops.probe > 0 && env.Keys <= {"PI"} && ("PI" in env ==> env["PI"].VFloat?)
    ensures Subst(ops, Var("Rz"), env) == Var("Rz") && Subst(ops, Var("q"), env) == Var("q")
    ensures Subst(ops, Var("PI"), env) == Float(if "PI" in env then env["PI"].f else ops.pi)
  {
    hide Subst;
    SubstName(ops, "Rz", env);
    SubstName(ops, "q", env);
    SubstName(ops, "PI", env);
    assert "Rz"[0] != "PI"[0] && |"q"| != |"PI"|;
  }
}
