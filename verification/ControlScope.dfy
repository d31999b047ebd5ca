/** `controlled` inlines a zero-argument callee under the caller's bindings, and reads the names left in
    what a call elaborates to under them too. Where those bindings are not seen, it denotes the control of
    the call on its own. */
module ControlScope {
  import opened Ast
  import opened Classical
  import opened ClassicalLaws
  import opened GateTree
  import opened CircuitForms
  import opened Elaborate
  import opened ElaborateLaws
  import opened Meaning
  import opened RunLaws
  import opened EnvLaws
  import opened NameLaws
  import opened ScopeLaws

  // ── Calls ──────────────────────────────────────────────────────────────────

  /** No name bound in `env` is left in the gates, or in a function they reach. */
  ghost predicate Unread(c: Ctx, t: Expr, env: Env) {
    exists names: set<Name> :: Closed(c, names) && Quiet(names, t) && names !! env.Keys
  }

  ghost predicate UnreadCallee(c: Ctx, r: Out<Option<Expr>>, env: Env) {
    r.Done? && r.value.Some? ==> Unread(c, r.value.value, env)
  }

  lemma NamedInline(c: Ctx, e: Expr, env: Env, fuel: nat, exp: set<Name>)
    requires !IsParametricCall(c, e) && ZeroArgCallee(c, e).Some?
    ensures var (r, t) := (NamedCallee(c, e, env, fuel, exp), Inline(c, ZeroArgCallee(c, e).value, env, fuel, exp));
            r == if t.Fail? then Fail(t.error) else Done(Some(t.value), t.fuel)
  {
    hide Elab, Inline, ZeroArgCallee, IsParametricCall;
  }

  /** A zero-argument callee elaborates alike under bindings it does not see and under none, and leaves
      no bound name behind. */
  lemma CalleeUnseen(c: Ctx, e: Expr, env: Env, fuel: nat, exp: set<Name>)
    requires !IsParametricCall(c, e) && ZeroArgCallee(c, e).Some? && Unseen(c, ZeroArgCallee(c, e).value, env)
    ensures NamedCallee(c, e, env, fuel, exp) == NamedCallee(c, e, map[], fuel, exp)
    ensures UnreadCallee(c, NamedCallee(c, e, env, fuel, exp), env)
  {
    hide Elab, Inline, ZeroArgCallee, IsParametricCall, Closed, Mentions, Scoped, Quiet, NamedCallee;
    var name := ZeroArgCallee(c, e).value;
    NamedInline(c, e, env, fuel, exp);
    NamedInline(c, e, map[], fuel, exp);
    InlineUnseen(c, name, env, fuel, exp);
    InlineUnread(c, name, env, fuel, exp);
  }

  lemma InlineUnread(c: Ctx, name: Name, env: Env, fuel: nat, exp: set<Name>)
    requires name in c.bodies && Unseen(c, name, env)
    ensures Inline(c, name, env, fuel, exp).Done? ==> Unread(c, Inline(c, name, env, fuel, exp).value, env)
  {
    hide Elab, Closed, Mentions, Scoped, Quiet;
    if name !in exp {
      var names: set<Name> :| Closed(c, names) && Mentions(c.bodies[name]) <= names && names !! env.Keys;
      NothingBound(c, env, names);
      ElabSame(c, c.bodies[name], env, map[], fuel, exp + {name}, names);
    }
  }

  lemma UnreadControl(c: Ctx, t: Expr, control: Expr, target: Expr, env: Env, fuel: nat, exp: set<Name>)
    requires Unread(c, t, env)
    ensures Ctl(c, t, control, target, env, fuel, exp) == Ctl(c, t, control, target, map[], fuel, exp)
  {
    hide Ctl, Closed, Quiet, Scoped;
    var names: set<Name> :| Closed(c, names) && Quiet(names, t) && names !! env.Keys;
    NothingBound(c, env, names);
    CtlSame(c, t, control, target, env, map[], fuel, exp, names);
  }

  lemma ControlsCallee(c: Ctx, e: Expr, control: Expr, target: Expr, env: Env, fuel: nat, exp: set<Name>)
    requires var r := NamedCallee(c, e, env, fuel, exp); r.Done? ==> r.value.Some?
    ensures var r := NamedCallee(c, e, env, fuel, exp);
            Ctl(c, e, control, target, env, fuel, exp)
              == if r.Fail? then Fail(r.error) else Ctl(c, r.value.value, control, target, env, r.fuel, exp)
  {
    hide NamedCallee, CtlNode;
  }

  /** If the caller binds no name that the callee, or a function it reaches, mentions, `controlled` of the
      call is `controlled` of the call on its own: the same gates, the same fuel, the same errors. */
  lemma ControlOfCallIsOwn(c: Ctx, e: Expr, control: Expr, target: Expr, env: Env, fuel: nat, exp: set<Name>)
    requires !IsParametricCall(c, e) && ZeroArgCallee(c, e).Some? && Unseen(c, ZeroArgCallee(c, e).value, env)
    ensures Ctl(c, e, control, target, env, fuel, exp) == Ctl(c, e, control, target, map[], fuel, exp)
  {
    hide Ctl, Inline, NamedCallee, IsParametricCall, ZeroArgCallee, Unread, Unseen;
    NamedInline(c, e, env, fuel, exp);
    CalleeUnseen(c, e, env, fuel, exp);
    ControlsCallee(c, e, control, target, env, fuel, exp);
    ControlsCallee(c, e, control, target, map[], fuel, exp);
    var r := NamedCallee(c, e, env, fuel, exp);
    if r.Done? { UnreadControl(c, r.value.value, control, target, env, r.fuel, exp); }
  }

  // ── Bodies whose calls are on their own ────────────────────────────────────

  /** No call that control comes to in `e` sees the bindings it is made under. */
  ghost predicate OnItsOwn(c: Ctx, e: Expr, env: Env, exp: set<Name>)
    decreases ControlSize(e), 2
  {
    if IsParametricCall(c, e) then forall fuel: nat :: UnreadCallee(c, NamedCallee(c, e, env, fuel, exp), env)
    else
      match ZeroArgCallee(c, e)
      case Some(name) => Unseen(c, name, env)
      case None => PartsOnTheirOwn(c, e, env, exp)
  }

  ghost predicate PartsOnTheirOwn(c: Ctx, e: Expr, env: Env, exp: set<Name>)
    decreases ControlSize(e), 1
  {
    match e
    case Compose(lhs, rhs) => OnItsOwn(c, lhs, env, exp) && OnItsOwn(c, rhs, env, exp)
    case CircuitBlock(stmts) => BlockBody(c.ops, stmts, env).Ok? ==> OnItsOwn(c, BlockBody(c.ops, stmts, env).value, env, exp)
    case Adjoint(inner) => OnItsOwn(c, inner, env, exp)
    case Par(body, count) => Val(c.ops, count, env) != Ok(VInt(0)) ==> OnItsOwn(c, body, env, exp)
    case ParN(items) => AllOnTheirOwn(c, items, env, exp)
    case _ => true
  }

  ghost predicate AllOnTheirOwn(c: Ctx, items: seq<Expr>, env: Env, exp: set<Name>)
    decreases ControlSizes(items), 3, |items|
  {
    items != [] ==> OnItsOwn(c, items[0], env, exp) && AllOnTheirOwn(c, items[1..], env, exp)
  }

  // ── What control denotes ───────────────────────────────────────────────────

  /** What the control of `e` elaborates to acts as the control of `e` denotes, if no call in `e` sees the
      bindings it is made under. */
  lemma {:induction false} ControlMeans<S(!new)>(c: Ctx, m: Model<S>, e: Expr, control: Expr, target: Expr, env: Env, fuel: nat,
                                                 exp: set<Name>, d: nat, fwd: bool, off: int, s: S)
    requires InverseLaw(c.reg, m) && OnItsOwn(c, e, env, exp) && d >= fuel
    requires Ctl(c, e, control, target, env, fuel, exp).Done?
    ensures Means(m, DenControl(c, m, e, control, target, env, d, fwd, off, s),
                  Ctl(c, e, control, target, env, fuel, exp), fwd, off, s)
    decreases ControlSize(e), 2, 0
  {
    hide *;
    if IsParametricCall(c, e) || ZeroArgCallee(c, e).Some? {
      CallMeansControl(c, m, e, control, target, env, fuel, exp, d, fwd, off, s);
    } else {
      NoCallStep(c, m, e, control, target, env, fuel, exp, d, fwd, off, s);
      ControlNodeMeans(c, m, e, control, target, env, fuel, exp, d, fwd, off, s);
    }
  }

  lemma NoCallStep<S>(c: Ctx, m: Model<S>, e: Expr, control: Expr, target: Expr, env: Env, fuel: nat, exp: set<Name>, d: nat,
                      fwd: bool, off: int, s: S)
    requires !IsParametricCall(c, e) && ZeroArgCallee(c, e).None?
    ensures Ctl(c, e, control, target, env, fuel, exp) == CtlNode(c, e, control, target, env, fuel, exp)
    ensures DenControl(c, m, e, control, target, env, d, fwd, off, s) == DenControlNode(c, m, e, control, target, env, d, fwd, off, s)
    ensures OnItsOwn(c, e, env, exp) <==> PartsOnTheirOwn(c, e, env, exp)
  {
    hide CtlNode, DenControlNode, Elab, Inline, PartsOnTheirOwn, IsParametricCall, ZeroArgCallee;
  }

  /** What a call elaborates to, whatever the fuel and the guard, and that the call is on its own. */
  lemma CallStep(c: Ctx, e: Expr, env: Env, fuel: nat, exp: set<Name>, d: nat)
    requires IsParametricCall(c, e) || ZeroArgCallee(c, e).Some?
    requires OnItsOwn(c, e, env, exp) && d >= fuel && NamedCallee(c, e, env, fuel, exp).Done?
    ensures var (r, r') := (NamedCallee(c, e, env, fuel, exp), NamedCallee(c, e, CalleeScope(c, e, env), d, {}));
            r.value.Some? && r.fuel <= fuel && r'.Done? && r'.value == r.value && Unread(c, r.value.value, env)
  {
    hide NamedCallee, ZeroArgCallee, IsParametricCall, Unread, Unseen;
    CallHasCallee(c, e, env, fuel, exp);
    CalleeStable(c, e, env, fuel, exp, d - fuel, {});
    if IsParametricCall(c, e) {
      assert UnreadCallee(c, NamedCallee(c, e, env, fuel, exp), env);
    } else {
      CalleeUnseen(c, e, env, d, {});
    }
  }

  lemma CallHasCallee(c: Ctx, e: Expr, env: Env, fuel: nat, exp: set<Name>)
    requires IsParametricCall(c, e) || ZeroArgCallee(c, e).Some?
    ensures var r := NamedCallee(c, e, env, fuel, exp); r.Done? ==> r.value.Some? && r.fuel <= fuel
  {
    hide Elab, Inline, ZeroArgCallee, IsParametricCall;
  }

  lemma {:induction false} CallMeansControl<S(!new)>(c: Ctx, m: Model<S>, e: Expr, control: Expr, target: Expr, env: Env, fuel: nat,
                                                     exp: set<Name>, d: nat, fwd: bool, off: int, s: S)
    requires IsParametricCall(c, e) || ZeroArgCallee(c, e).Some?
    requires OnItsOwn(c, e, env, exp) && d >= fuel && Ctl(c, e, control, target, env, fuel, exp).Done?
    ensures Means(m, DenControl(c, m, e, control, target, env, d, fwd, off, s),
                  Ctl(c, e, control, target, env, fuel, exp), fwd, off, s)
  {
    hide Ctl, NamedCallee, ZeroArgCallee, IsParametricCall, Unread, Unseen, OnItsOwn, CalleeScope, Leaves, Run;
    CallHasCallee(c, e, env, fuel, exp);
    ControlsCallee(c, e, control, target, env, fuel, exp);
    var r := NamedCallee(c, e, env, fuel, exp);
    CallStep(c, e, env, fuel, exp, d);
    UnreadControl(c, r.value.value, control, target, env, r.fuel, exp);
    CtlStable(c, r.value.value, control, target, map[], r.fuel, exp, d - r.fuel, {});
  }

  lemma {:induction false} ControlNodeMeans<S(!new)>(c: Ctx, m: Model<S>, e: Expr, control: Expr, target: Expr, env: Env, fuel: nat,
                                                     exp: set<Name>, d: nat, fwd: bool, off: int, s: S)
    requires InverseLaw(c.reg, m) && PartsOnTheirOwn(c, e, env, exp) && d >= fuel
    requires CtlNode(c, e, control, target, env, fuel, exp).Done?
    ensures Means(m, DenControlNode(c, m, e, control, target, env, d, fwd, off, s),
                  CtlNode(c, e, control, target, env, fuel, exp), fwd, off, s)
    decreases ControlSize(e), 1, 0
  {
    hide *;
    if e.Compose? { ControlComposeMeans(c, m, e, control, target, env, fuel, exp, d, fwd, off, s); }
    else if e.Adjoint? { ControlAdjointMeans(c, m, e, control, target, env, fuel, exp, d, fwd, off, s); }
    else if e.CircuitBlock? { ControlBlockMeans(c, m, e, control, target, env, fuel, exp, d, fwd, off, s); }
    else if e.Par? { ControlParMeans(c, m, e, control, target, env, fuel, exp, d, fwd, off, s); }
    else if e.ParN? { ControlParNMeans(c, m, e, control, target, env, fuel, exp, d, fwd, off, s); }
    else { ControlLeafMeans(c, m, e, control, target, env, fuel, exp, d, fwd, off, s); }
  }

  lemma ControlLeafMeans<S>(c: Ctx, m: Model<S>, e: Expr, control: Expr, target: Expr, env: Env, fuel: nat, exp: set<Name>, d: nat,
                            fwd: bool, off: int, s: S)
    requires !(e.Compose? || e.Adjoint? || e.CircuitBlock? || e.Par? || e.ParN?)
    requires CtlNode(c, e, control, target, env, fuel, exp).Done?
    ensures Means(m, DenControlNode(c, m, e, control, target, env, d, fwd, off, s),
                  CtlNode(c, e, control, target, env, fuel, exp), fwd, off, s)
  {
    hide Ctl, CtlPar, CtlArms, CtlLeaf, DenControl, DenControlCopies, DenControlArms, Leaves, Run, ReverseAndInvert, BlockBody;
  }

  lemma DenComposeStep<S>(c: Ctx, m: Model<S>, e: Expr, control: Expr, target: Expr, env: Env, d: nat, fwd: bool, off: int, s: S)
    requires e.Compose?
    ensures var (first, second) := if fwd then (e.lhs, e.rhs) else (e.rhs, e.lhs);
            var s1 := DenControl(c, m, first, control, target, env, d, fwd, off, s);
            s1.Some? ==> DenControlNode(c, m, e, control, target, env, d, fwd, off, s)
                           == DenControl(c, m, second, control, target, env, d, fwd, off, s1.value)
  {
    hide DenControl;
  }

  lemma {:induction false} ControlComposeMeans<S(!new)>(c: Ctx, m: Model<S>, e: Expr, control: Expr, target: Expr, env: Env,
                                                        fuel: nat, exp: set<Name>, d: nat, fwd: bool, off: int, s: S)
    requires InverseLaw(c.reg, m) && PartsOnTheirOwn(c, e, env, exp) && d >= fuel && e.Compose?
    requires CtlNode(c, e, control, target, env, fuel, exp).Done?
    ensures Means(m, DenControlNode(c, m, e, control, target, env, d, fwd, off, s),
                  CtlNode(c, e, control, target, env, fuel, exp), fwd, off, s)
    decreases ControlSize(e), 0, 1
  {
    hide *;
    if fwd { ComposeForward(c, m, e, control, target, env, fuel, exp, d, fwd, off, s); }
    else { ComposeBackward(c, m, e, control, target, env, fuel, exp, d, fwd, off, s); }
  }

  lemma {:induction false} ComposeForward<S(!new)>(c: Ctx, m: Model<S>, e: Expr, control: Expr, target: Expr, env: Env,
                                                        fuel: nat, exp: set<Name>, d: nat, fwd: bool, off: int, s: S)
    requires InverseLaw(c.reg, m) && PartsOnTheirOwn(c, e, env, exp) && d >= fuel && e.Compose? && fwd
    requires CtlNode(c, e, control, target, env, fuel, exp).Done?
    ensures Means(m, DenControlNode(c, m, e, control, target, env, d, fwd, off, s),
                  CtlNode(c, e, control, target, env, fuel, exp), fwd, off, s)
    decreases ControlSize(e), 0, 0
  {
    hide Ctl, CtlNode, DenControl, DenControlNode, ComposeNonempty, Leaves, Run, InverseLaw, OnItsOwn, IsGateTree;
    CtlComposeStep(c, e, control, target, env, fuel, exp);
    var l := Ctl(c, e.lhs, control, target, env, fuel, exp);
    var r := Ctl(c, e.rhs, control, target, env, l.fuel, exp);
    LeavesNonempty(l.value, r.value);
    RunConcat(m, Leaves(l.value), Leaves(r.value), fwd, off, s);
    DenComposeStep(c, m, e, control, target, env, d, fwd, off, s);
    ControlMeans(c, m, e.lhs, control, target, env, fuel, exp, d, fwd, off, s);
    ControlMeans(c, m, e.rhs, control, target, env, l.fuel, exp, d, fwd, off, Run(m, Leaves(l.value), fwd, off, s));
  }

  lemma {:induction false} ComposeBackward<S(!new)>(c: Ctx, m: Model<S>, e: Expr, control: Expr, target: Expr, env: Env,
                                                        fuel: nat, exp: set<Name>, d: nat, fwd: bool, off: int, s: S)
    requires InverseLaw(c.reg, m) && PartsOnTheirOwn(c, e, env, exp) && d >= fuel && e.Compose? && !fwd
    requires CtlNode(c, e, control, target, env, fuel, exp).Done?
    ensures Means(m, DenControlNode(c, m, e, control, target, env, d, fwd, off, s),
                  CtlNode(c, e, control, target, env, fuel, exp), fwd, off, s)
    decreases ControlSize(e), 0, 0
  {
    hide Ctl, CtlNode, DenControl, DenControlNode, ComposeNonempty, Leaves, Run, InverseLaw, OnItsOwn, IsGateTree;
    CtlComposeStep(c, e, control, target, env, fuel, exp);
    var l := Ctl(c, e.lhs, control, target, env, fuel, exp);
    var r := Ctl(c, e.rhs, control, target, env, l.fuel, exp);
    LeavesNonempty(l.value, r.value);
    RunConcat(m, Leaves(l.value), Leaves(r.value), fwd, off, s);
    DenComposeStep(c, m, e, control, target, env, d, fwd, off, s);
    ControlMeans(c, m, e.rhs, control, target, env, l.fuel, exp, d, fwd, off, s);
    ControlMeans(c, m, e.lhs, control, target, env, fuel, exp, d, fwd, off, Run(m, Leaves(r.value), fwd, off, s));
  }

  lemma {:induction false} ControlAdjointMeans<S(!new)>(c: Ctx, m: Model<S>, e: Expr, control: Expr, target: Expr, env: Env,
                                                        fuel: nat, exp: set<Name>, d: nat, fwd: bool, off: int, s: S)
    requires InverseLaw(c.reg, m) && PartsOnTheirOwn(c, e, env, exp) && d >= fuel && e.Adjoint?
    requires CtlNode(c, e, control, target, env, fuel, exp).Done?
    ensures Means(m, DenControlNode(c, m, e, control, target, env, d, fwd, off, s),
                  CtlNode(c, e, control, target, env, fuel, exp), fwd, off, s)
    decreases ControlSize(e), 0, 0
  {
    hide Ctl, CtlNode, DenControl, ReverseAndInvert, Leaves, Run, InverseLaw, OnItsOwn, IsGateTree;
    CtlAdjointStep(c, e, control, target, env, fuel, exp);
    var t := Ctl(c, e.inner, control, target, env, fuel, exp);
    ControlMeans(c, m, e.inner, control, target, env, fuel, exp, d, !fwd, off, s);
    RunAdjoint(c.reg, m, t.value, fwd, off, s);
  }

  lemma {:induction false} ControlBlockMeans<S(!new)>(c: Ctx, m: Model<S>, e: Expr, control: Expr, target: Expr, env: Env,
                                                      fuel: nat, exp: set<Name>, d: nat, fwd: bool, off: int, s: S)
    requires InverseLaw(c.reg, m) && PartsOnTheirOwn(c, e, env, exp) && d >= fuel && e.CircuitBlock?
    requires CtlNode(c, e, control, target, env, fuel, exp).Done?
    ensures Means(m, DenControlNode(c, m, e, control, target, env, d, fwd, off, s),
                  CtlNode(c, e, control, target, env, fuel, exp), fwd, off, s)
    decreases ControlSize(e), 0, 0
  {
    hide Ctl, DenControl, BlockBody, Leaves, Run, InverseLaw, OnItsOwn, ReverseAndInvert;
    var body := BlockBody(c.ops, e.stmts, env);
    ControlMeans(c, m, body.value, control, target, env, fuel, exp, d, fwd, off, s);
  }

  // ── Parallel composition under control ─────────────────────────────────────

  lemma {:induction false} ControlParMeans<S(!new)>(c: Ctx, m: Model<S>, e: Expr, control: Expr, target: Expr, env: Env,
                                                    fuel: nat, exp: set<Name>, d: nat, fwd: bool, off: int, s: S)
    requires InverseLaw(c.reg, m) && PartsOnTheirOwn(c, e, env, exp) && d >= fuel && e.Par?
    requires CtlNode(c, e, control, target, env, fuel, exp).Done?
    ensures Means(m, DenControlNode(c, m, e, control, target, env, d, fwd, off, s),
                  CtlNode(c, e, control, target, env, fuel, exp), fwd, off, s)
    decreases ControlSize(e), 0, 0
  {
    hide *;
    ParControlled(c, e, control, target, env, fuel, exp);
    ParCountMeans(c, e, env);
    ParOwn(c, e, env, exp);
    var k := Eval(c.ops, e.count, env, c.ops.probe).value.i;
    if k == 0 { NoCopiesControlled(c, m, e, control, target, env, fuel, exp, d, fwd, off, s); }
    else { SomeCopiesControlled(c, m, e, k, control, target, env, fuel, exp, d, fwd, off, s); }
  }

  lemma ParCountMeans(c: Ctx, e: Expr, env: Env)
    requires e.Par? && Eval(c.ops, e.count, env, c.ops.probe).Done?
    ensures Val(c.ops, e.count, env) == Ok(Eval(c.ops, e.count, env, c.ops.probe).value)
  {
    hide Eval, Val;
    EvalIsVal(c.ops, e.count, env, c.ops.probe);
  }

  lemma ParOwn(c: Ctx, e: Expr, env: Env, exp: set<Name>)
    requires e.Par? && PartsOnTheirOwn(c, e, env, exp)
    ensures Val(c.ops, e.count, env) != Ok(VInt(0)) ==> OnItsOwn(c, e.body, env, exp)
    ensures ControlSize(e.body) < ControlSize(e)
  {
    hide OnItsOwn, Val;
  }

  lemma NoCopiesControlled<S>(c: Ctx, m: Model<S>, e: Expr, control: Expr, target: Expr, env: Env, fuel: nat, exp: set<Name>, d: nat,
                              fwd: bool, off: int, s: S)
    requires e.Par? && Val(c.ops, e.count, env) == Ok(VInt(0)) && CtlNode(c, e, control, target, env, fuel, exp) == Done(EMPTY, fuel)
    ensures Means(m, DenControlNode(c, m, e, control, target, env, d, fwd, off, s),
                  CtlNode(c, e, control, target, env, fuel, exp), fwd, off, s)
  {
    hide CtlNode, DenControl, DenControlCopies, ArmWidth, BodyWiresOf, Saturate, Val, Run;
    EmptyRuns(m, fwd, off, s);
  }

  lemma {:induction false} SomeCopiesControlled<S(!new)>(c: Ctx, m: Model<S>, e: Expr, k: int, control: Expr, target: Expr, env: Env,
                                                         fuel: nat, exp: set<Name>, d: nat, fwd: bool, off: int, s: S)
    requires InverseLaw(c.reg, m) && e.Par? && OnItsOwn(c, e.body, env, exp) && d >= fuel && ControlSize(e.body) < ControlSize(e)
    requires k > 0 && Val(c.ops, e.count, env) == Ok(VInt(k)) && ParArmControlled(c, e, k, control, target, env, fuel, exp)
    requires CtlNode(c, e, control, target, env, fuel, exp).Done?
    ensures Means(m, DenControlNode(c, m, e, control, target, env, d, fwd, off, s),
                  CtlNode(c, e, control, target, env, fuel, exp), fwd, off, s)
    decreases ControlSize(e.body), 4, 0
  {
    hide CtlNode, CtlCopies, ArmWidth, DenControlNode, DenControlCopies, Leaves, Run, InverseLaw, OnItsOwn, Val, Saturate, BodyWiresOf,
         IsGateTree, ControlSize;
    DenParStep(c, m, e, control, target, env, d, fwd, off, s);
    ArmWidthStable(c, e.body, env, fuel, exp, d - fuel, {});
    var w := ArmWidth(c, e.body, env, fuel, exp);
    var gates := ControlCopiesMean(c, m, e.body, control, BodyWiresOf(target), w.value, 0, k, EMPTY, env, w.fuel, exp, d, fwd, off, s);
    NothingFirst(gates);
  }

  lemma ParControlled(c: Ctx, e: Expr, control: Expr, target: Expr, env: Env, fuel: nat, exp: set<Name>)
    requires e.Par? && CtlNode(c, e, control, target, env, fuel, exp).Done?
    ensures var k := Eval(c.ops, e.count, env, c.ops.probe);
            && k.Done? && k.value.VInt? && 0 <= k.value.i
            && (k.value.i == 0 ==> CtlNode(c, e, control, target, env, fuel, exp) == Done(EMPTY, fuel))
            && (k.value.i > 0 ==> ParArmControlled(c, e, k.value.i, control, target, env, fuel, exp))
  {
    hide Ctl, CtlParK, ParArmControlled;
    var k := Eval(c.ops, e.count, env, c.ops.probe);
    assert CtlNode(c, e, control, target, env, fuel, exp) == CtlPar(c, e.body, e.count, control, target, env, fuel, exp);
    if k.value.i > 0 { CopiesControlled(c, e, k.value.i, control, target, env, fuel, exp); }
  }

  /** The `par` is the loop over its copies. */
  ghost predicate ParArmControlled(c: Ctx, e: Expr, k: int, control: Expr, target: Expr, env: Env, fuel: nat, exp: set<Name>)
    requires e.Par?
  {
    var (w, wires) := (ArmWidth(c, e.body, env, fuel, exp), BodyWiresOf(target));
    && w.Done? && w.fuel <= fuel && !(wires.Explicit? && |wires.wires| != Saturate(k * w.value)) && IsGateTree(EMPTY)
    && CtlNode(c, e, control, target, env, fuel, exp)
         == CtlCopies(c, e.body, control, wires, w.value, 0, k, EMPTY, env, w.fuel, exp)
  }

  lemma CopiesControlled(c: Ctx, e: Expr, k: int, control: Expr, target: Expr, env: Env, fuel: nat, exp: set<Name>)
    requires e.Par? && CtlNode(c, e, control, target, env, fuel, exp).Done?
    requires CtlNode(c, e, control, target, env, fuel, exp) == CtlParK(c, e.body, k, control, target, env, fuel, exp)
    ensures ParArmControlled(c, e, k, control, target, env, fuel, exp)
  {
    hide Ctl, CtlNode, CtlCopies, ArmWidth, BodyWiresOf, Saturate;
  }

  lemma DenParStep<S>(c: Ctx, m: Model<S>, e: Expr, control: Expr, target: Expr, env: Env, d: nat, fwd: bool, off: int, s: S)
    requires e.Par? && Val(c.ops, e.count, env).Ok? && Val(c.ops, e.count, env).value.VInt? && Val(c.ops, e.count, env).value.i > 0
    ensures var k := Val(c.ops, e.count, env).value.i;
            var (w, wires) := (ArmWidth(c, e.body, env, d, {}), BodyWiresOf(target));
            w.Done? && !(wires.Explicit? && |wires.wires| != Saturate(k * w.value)) ==>
              DenControlNode(c, m, e, control, target, env, d, fwd, off, s)
                == DenControlCopies(c, m, e.body, control, wires, w.value, 0, k, env, d, fwd, off, s)
  {
    hide DenControl, DenControlCopies, ArmWidth, BodyWiresOf, Saturate, Val;
  }

  lemma EmptyRuns<S>(m: Model<S>, fwd: bool, off: int, s: S)
    ensures Run(m, Leaves(EMPTY), fwd, off, s) == s && Run(m, [], fwd, off, s) == s && IsGateTree(EMPTY)
  {
  }

  lemma NothingAdded(acc: Expr, fuel: nat)
    ensures Adds(Done(acc, fuel), acc, [])
  {
    hide Leaves;
  }

  lemma NothingFirst(ls: seq<Leaf>)
    ensures Leaves(EMPTY) + ls == ls
  {
  }

  lemma DenCopyStep<S>(c: Ctx, m: Model<S>, body: Expr, control: Expr, wires: BodyWires, w: nat, i: nat, k: int, env: Env, d: nat,
                       fwd: bool, off: int, s: S)
    requires i < k && WireSlice(wires, Saturate(i * w), w).Ok?
    ensures var slice := WireSlice(wires, Saturate(i * w), w).value;
            var s1 := if fwd then DenControl(c, m, body, control, slice, env, d, fwd, off, s)
                      else DenControlCopies(c, m, body, control, wires, w, i + 1, k, env, d, fwd, off, s);
            s1.Some? ==> DenControlCopies(c, m, body, control, wires, w, i, k, env, d, fwd, off, s)
                           == if fwd then DenControlCopies(c, m, body, control, wires, w, i + 1, k, env, d, fwd, off, s1.value)
                              else DenControl(c, m, body, control, slice, env, d, fwd, off, s1.value)
  {
    hide DenControl, WireSlice, Saturate;
  }

  lemma NoCopiesMean<S>(c: Ctx, m: Model<S>, body: Expr, control: Expr, wires: BodyWires, w: nat, i: nat, k: int, env: Env, d: nat,
                        fwd: bool, off: int, s: S)
    requires i >= k
    ensures DenControlCopies(c, m, body, control, wires, w, i, k, env, d, fwd, off, s) == Some(Run(m, [], fwd, off, s))
  {
    hide DenControl, WireSlice, Saturate;
  }

  lemma {:induction false} ControlCopiesMean<S(!new)>(c: Ctx, m: Model<S>, body: Expr, control: Expr, wires: BodyWires, w: nat,
      i: nat, k: int, acc: Expr, env: Env, fuel: nat, exp: set<Name>, d: nat, fwd: bool, off: int, s: S)
    returns (gates: seq<Leaf>)
    requires InverseLaw(c.reg, m) && OnItsOwn(c, body, env, exp) && d >= fuel && IsGateTree(acc)
    requires CtlCopies(c, body, control, wires, w, i, k, acc, env, fuel, exp).Done?
    ensures Adds(CtlCopies(c, body, control, wires, w, i, k, acc, env, fuel, exp), acc, gates)
    ensures DenControlCopies(c, m, body, control, wires, w, i, k, env, d, fwd, off, s) == Some(Run(m, gates, fwd, off, s))
    decreases ControlSize(body), 3, if k < i then 0 else k - i, 2
  {
    hide *;
    if i >= k {
      CopiesDone(c, body, control, wires, w, i, k, acc, env, fuel, exp);
      gates := [];
      NothingAdded(acc, fuel);
      NoCopiesMean(c, m, body, control, wires, w, i, k, env, d, fwd, off, s);
    } else if fwd {
      gates := CopyForward(c, m, body, control, wires, w, i, k, acc, env, fuel, exp, d, fwd, off, s);
    } else {
      gates := CopyBackward(c, m, body, control, wires, w, i, k, acc, env, fuel, exp, d, fwd, off, s);
    }
  }

  lemma {:induction false} CopyForward<S(!new)>(c: Ctx, m: Model<S>, body: Expr, control: Expr, wires: BodyWires, w: nat,
      i: nat, k: int, acc: Expr, env: Env, fuel: nat, exp: set<Name>, d: nat, fwd: bool, off: int, s: S)
    returns (gates: seq<Leaf>)
    requires InverseLaw(c.reg, m) && OnItsOwn(c, body, env, exp) && d >= fuel && IsGateTree(acc) && i < k && fwd
    requires CtlCopies(c, body, control, wires, w, i, k, acc, env, fuel, exp).Done?
    ensures Adds(CtlCopies(c, body, control, wires, w, i, k, acc, env, fuel, exp), acc, gates)
    ensures DenControlCopies(c, m, body, control, wires, w, i, k, env, d, fwd, off, s) == Some(Run(m, gates, fwd, off, s))
    decreases ControlSize(body), 3, if k < i then 0 else k - i, 1
  {
    hide Ctl, CtlCopies, WireSlice, Saturate, ComposeNonempty, DenControl, DenControlCopies, Leaves, Run, InverseLaw, OnItsOwn, IsGateTree;
    CopyControlled(c, body, control, wires, w, i, k, acc, env, fuel, exp);
    var slice := WireSlice(wires, Saturate(i * w), w).value;
    var r := Ctl(c, body, control, slice, env, fuel, exp);
    var first := Leaves(r.value);
    LeavesNonempty(acc, r.value);
    DenCopyStep(c, m, body, control, wires, w, i, k, env, d, fwd, off, s);
    ControlMeans(c, m, body, control, slice, env, fuel, exp, d, fwd, off, s);
    var rest := ControlCopiesMean(c, m, body, control, wires, w, i + 1, k, ComposeNonempty(acc, r.value), env, r.fuel, exp, d,
                                  fwd, off, Run(m, first, fwd, off, s));
    gates := first + rest;
    RunConcat(m, first, rest, fwd, off, s);
  }

  lemma {:induction false} CopyBackward<S(!new)>(c: Ctx, m: Model<S>, body: Expr, control: Expr, wires: BodyWires, w: nat,
      i: nat, k: int, acc: Expr, env: Env, fuel: nat, exp: set<Name>, d: nat, fwd: bool, off: int, s: S)
    returns (gates: seq<Leaf>)
    requires InverseLaw(c.reg, m) && OnItsOwn(c, body, env, exp) && d >= fuel && IsGateTree(acc) && i < k && !fwd
    requires CtlCopies(c, body, control, wires, w, i, k, acc, env, fuel, exp).Done?
    ensures Adds(CtlCopies(c, body, control, wires, w, i, k, acc, env, fuel, exp), acc, gates)
    ensures DenControlCopies(c, m, body, control, wires, w, i, k, env, d, fwd, off, s) == Some(Run(m, gates, fwd, off, s))
    decreases ControlSize(body), 3, if k < i then 0 else k - i, 1
  {
    hide Ctl, CtlCopies, WireSlice, Saturate, ComposeNonempty, DenControl, DenControlCopies, Leaves, Run, InverseLaw, OnItsOwn, IsGateTree;
    CopyControlled(c, body, control, wires, w, i, k, acc, env, fuel, exp);
    var slice := WireSlice(wires, Saturate(i * w), w).value;
    var r := Ctl(c, body, control, slice, env, fuel, exp);
    var first := Leaves(r.value);
    LeavesNonempty(acc, r.value);
    DenCopyStep(c, m, body, control, wires, w, i, k, env, d, fwd, off, s);
    var rest := ControlCopiesMean(c, m, body, control, wires, w, i + 1, k, ComposeNonempty(acc, r.value), env, r.fuel, exp, d,
                                  fwd, off, s);
    ControlMeans(c, m, body, control, slice, env, fuel, exp, d, fwd, off, Run(m, rest, fwd, off, s));
    gates := first + rest;
    RunConcat(m, first, rest, fwd, off, s);
  }

  lemma CopyControlled(c: Ctx, body: Expr, control: Expr, wires: BodyWires, w: nat, i: nat, k: int, acc: Expr, env: Env, fuel: nat,
                       exp: set<Name>)
    requires i < k && IsGateTree(acc) && CtlCopies(c, body, control, wires, w, i, k, acc, env, fuel, exp).Done?
    ensures var slice := WireSlice(wires, Saturate(i * w), w);
            && slice.Ok?
            && var r := Ctl(c, body, control, slice.value, env, fuel, exp);
               && r.Done? && r.fuel <= fuel && IsGateTree(ComposeNonempty(acc, r.value))
               && CtlCopies(c, body, control, wires, w, i, k, acc, env, fuel, exp)
                    == CtlCopies(c, body, control, wires, w, i + 1, k, ComposeNonempty(acc, r.value), env, r.fuel, exp)
  {
    hide Ctl, CtlCopies, WireSlice, Saturate, ComposeNonempty, IsGateTree;
    var slice := WireSlice(wires, Saturate(i * w), w);
    if slice.Err? {
      CopiesOffEnd(c, body, control, wires, w, i, k, acc, env, fuel, exp);
    } else if Ctl(c, body, control, slice.value, env, fuel, exp).Fail? {
      CopiesFail(c, body, control, wires, w, i, k, acc, env, fuel, exp);
    } else {
      CopiesNext(c, body, control, wires, w, i, k, acc, env, fuel, exp);
    }
  }

  lemma {:induction false} ControlParNMeans<S(!new)>(c: Ctx, m: Model<S>, e: Expr, control: Expr, target: Expr, env: Env,
                                                     fuel: nat, exp: set<Name>, d: nat, fwd: bool, off: int, s: S)
    requires InverseLaw(c.reg, m) && PartsOnTheirOwn(c, e, env, exp) && d >= fuel && e.ParN?
    requires CtlNode(c, e, control, target, env, fuel, exp).Done?
    ensures Means(m, DenControlNode(c, m, e, control, target, env, d, fwd, off, s),
                  CtlNode(c, e, control, target, env, fuel, exp), fwd, off, s)
    decreases ControlSize(e), 0, 0
  {
    hide Ctl, CtlArms, DenControl, DenControlArms, Leaves, Run, InverseLaw, AllOnTheirOwn, BodyWiresOf, IsGateTree;
    EmptyRuns(m, fwd, off, s);
    var gates := ControlArmsMean(c, m, e.items, control, BodyWiresOf(target), 0, EMPTY, env, fuel, exp, d, fwd, off, s);
    NothingFirst(gates);
  }

  lemma DenArmStep<S>(c: Ctx, m: Model<S>, items: seq<Expr>, control: Expr, wires: BodyWires, offset: int, env: Env, d: nat,
                      fwd: bool, off: int, s: S)
    requires items != [] && ArmWidth(c, items[0], env, d, {}).Done?
    requires WireSlice(wires, offset, ArmWidth(c, items[0], env, d, {}).value).Ok?
    ensures var w := ArmWidth(c, items[0], env, d, {}).value;
            var (slice, next) := (WireSlice(wires, offset, w).value, Saturate(offset + w));
            var s1 := if fwd then DenControl(c, m, items[0], control, slice, env, d, fwd, off, s)
                      else DenControlArms(c, m, items[1..], control, wires, next, env, d, fwd, off, s);
            s1.Some? ==> DenControlArms(c, m, items, control, wires, offset, env, d, fwd, off, s)
                           == if fwd then DenControlArms(c, m, items[1..], control, wires, next, env, d, fwd, off, s1.value)
                              else DenControl(c, m, items[0], control, slice, env, d, fwd, off, s1.value)
  {
    hide DenControl, WireSlice, Saturate, ArmWidth;
  }

  lemma NoArmsMean<S>(c: Ctx, m: Model<S>, control: Expr, wires: BodyWires, offset: int, env: Env, d: nat, fwd: bool, off: int, s: S)
    requires !(wires.Explicit? && offset != |wires.wires|)
    ensures DenControlArms(c, m, [], control, wires, offset, env, d, fwd, off, s) == Some(Run(m, [], fwd, off, s))
  {
    hide DenControl, WireSlice, Saturate, ArmWidth;
  }

  lemma {:induction false} ControlArmsMean<S(!new)>(c: Ctx, m: Model<S>, items: seq<Expr>, control: Expr, wires: BodyWires,
      offset: int, acc: Expr, env: Env, fuel: nat, exp: set<Name>, d: nat, fwd: bool, off: int, s: S)
    returns (gates: seq<Leaf>)
    requires InverseLaw(c.reg, m) && AllOnTheirOwn(c, items, env, exp) && d >= fuel && IsGateTree(acc)
    requires CtlArms(c, items, control, wires, offset, acc, env, fuel, exp).Done?
    ensures Adds(CtlArms(c, items, control, wires, offset, acc, env, fuel, exp), acc, gates)
    ensures DenControlArms(c, m, items, control, wires, offset, env, d, fwd, off, s) == Some(Run(m, gates, fwd, off, s))
    decreases ControlSizes(items), 4, |items|, 2
  {
    hide *;
    if items == [] {
      ArmsDone(c, control, wires, offset, acc, env, fuel, exp);
      gates := [];
      NothingAdded(acc, fuel);
      NoArmsMean(c, m, control, wires, offset, env, d, fwd, off, s);
    } else if fwd {
      gates := ArmForward(c, m, items, control, wires, offset, acc, env, fuel, exp, d, fwd, off, s);
    } else {
      gates := ArmBackward(c, m, items, control, wires, offset, acc, env, fuel, exp, d, fwd, off, s);
    }
  }

  lemma {:induction false} ArmForward<S(!new)>(c: Ctx, m: Model<S>, items: seq<Expr>, control: Expr, wires: BodyWires,
      offset: int, acc: Expr, env: Env, fuel: nat, exp: set<Name>, d: nat, fwd: bool, off: int, s: S)
    returns (gates: seq<Leaf>)
    requires InverseLaw(c.reg, m) && AllOnTheirOwn(c, items, env, exp) && d >= fuel && IsGateTree(acc) && items != [] && fwd
    requires CtlArms(c, items, control, wires, offset, acc, env, fuel, exp).Done?
    ensures Adds(CtlArms(c, items, control, wires, offset, acc, env, fuel, exp), acc, gates)
    ensures DenControlArms(c, m, items, control, wires, offset, env, d, fwd, off, s) == Some(Run(m, gates, fwd, off, s))
    decreases ControlSizes(items), 4, |items|, 1
  {
    hide Ctl, CtlArms, ArmWidth, WireSlice, Saturate, ComposeNonempty, DenControl, DenControlArms, Leaves, Run, InverseLaw, OnItsOwn,
         IsGateTree, ControlSize;
    ArmControls(c, items, control, wires, offset, acc, env, fuel, exp);
    var w := ArmWidth(c, items[0], env, fuel, exp);
    ArmWidthStable(c, items[0], env, fuel, exp, d - fuel, {});
    var slice := WireSlice(wires, offset, w.value).value;
    var r := Ctl(c, items[0], control, slice, env, w.fuel, exp);
    var next := Saturate(offset + w.value);
    var first := Leaves(r.value);
    LeavesNonempty(acc, r.value);
    DenArmStep(c, m, items, control, wires, offset, env, d, fwd, off, s);
    ControlMeans(c, m, items[0], control, slice, env, w.fuel, exp, d, fwd, off, s);
    var rest := ControlArmsMean(c, m, items[1..], control, wires, next, ComposeNonempty(acc, r.value), env, r.fuel, exp, d,
                                fwd, off, Run(m, first, fwd, off, s));
    gates := first + rest;
    RunConcat(m, first, rest, fwd, off, s);
  }

  lemma {:induction false} ArmBackward<S(!new)>(c: Ctx, m: Model<S>, items: seq<Expr>, control: Expr, wires: BodyWires,
      offset: int, acc: Expr, env: Env, fuel: nat, exp: set<Name>, d: nat, fwd: bool, off: int, s: S)
    returns (gates: seq<Leaf>)
    requires InverseLaw(c.reg, m) && AllOnTheirOwn(c, items, env, exp) && d >= fuel && IsGateTree(acc) && items != [] && !fwd
    requires CtlArms(c, items, control, wires, offset, acc, env, fuel, exp).Done?
    ensures Adds(CtlArms(c, items, control, wires, offset, acc, env, fuel, exp), acc, gates)
    ensures DenControlArms(c, m, items, control, wires, offset, env, d, fwd, off, s) == Some(Run(m, gates, fwd, off, s))
    decreases ControlSizes(items), 4, |items|, 1
  {
    hide Ctl, CtlArms, ArmWidth, WireSlice, Saturate, ComposeNonempty, DenControl, DenControlArms, Leaves, Run, InverseLaw, OnItsOwn,
         IsGateTree, ControlSize;
    ArmControls(c, items, control, wires, offset, acc, env, fuel, exp);
    var w := ArmWidth(c, items[0], env, fuel, exp);
    ArmWidthStable(c, items[0], env, fuel, exp, d - fuel, {});
    var slice := WireSlice(wires, offset, w.value).value;
    var r := Ctl(c, items[0], control, slice, env, w.fuel, exp);
    var next := Saturate(offset + w.value);
    var first := Leaves(r.value);
    LeavesNonempty(acc, r.value);
    DenArmStep(c, m, items, control, wires, offset, env, d, fwd, off, s);
    var rest := ControlArmsMean(c, m, items[1..], control, wires, next, ComposeNonempty(acc, r.value), env, r.fuel, exp, d,
                                fwd, off, s);
    ControlMeans(c, m, items[0], control, slice, env, w.fuel, exp, d, fwd, off, Run(m, rest, fwd, off, s));
    gates := first + rest;
    RunConcat(m, first, rest, fwd, off, s);
  }

  lemma ArmsDone(c: Ctx, control: Expr, wires: BodyWires, offset: int, acc: Expr, env: Env, fuel: nat, exp: set<Name>)
    requires IsGateTree(acc) && CtlArms(c, [], control, wires, offset, acc, env, fuel, exp).Done?
    ensures CtlArms(c, [], control, wires, offset, acc, env, fuel, exp) == Done(acc, fuel)
    ensures !(wires.Explicit? && offset != |wires.wires|)
  {
    hide CtlArm;
  }

  lemma ArmControls(c: Ctx, items: seq<Expr>, control: Expr, wires: BodyWires, offset: int, acc: Expr, env: Env, fuel: nat,
                    exp: set<Name>)
    requires items != [] && IsGateTree(acc) && CtlArms(c, items, control, wires, offset, acc, env, fuel, exp).Done?
    ensures var w := ArmWidth(c, items[0], env, fuel, exp);
            && w.Done? && w.fuel <= fuel
            && var slice := WireSlice(wires, offset, w.value);
               && slice.Ok?
               && var r := Ctl(c, items[0], control, slice.value, env, w.fuel, exp);
                  && r.Done? && r.fuel <= w.fuel && IsGateTree(ComposeNonempty(acc, r.value))
                  && CtlArms(c, items, control, wires, offset, acc, env, fuel, exp)
                       == CtlArms(c, items[1..], control, wires, Saturate(offset + w.value), ComposeNonempty(acc, r.value), env, r.fuel, exp)
  {
    hide Ctl, ArmWidth, WireSlice, Saturate, ComposeNonempty, IsGateTree;
  }
}
