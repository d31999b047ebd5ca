/** What desugaring means: the chain of binds and lets runs as the block reads. */
module DesugarMeaning {
  import opened Ast
  import opened Desugar
  import opened DesugarLaws

  // ── An interpreter of actions ──────────────────────────────────────────────

  /** How every other form behaves: any function of its desugared form, the visible bindings and
      the state. `items` splits a tuple or list value and `gather` makes one of what the rounds of a loop
      give, `apply` applies a function value, `takes` compares a value with a literal, and `acquire` and
      `release` give and take back what a `borrow` binds. */
  datatype Sem<!V, !S> = Sem(
    eval: (Expr, map<Name, V>) -> Option<V>,
    exec: (Expr, map<Name, V>, S) -> Option<(V, S)>,
    truth: V -> Option<bool>,
    items: V -> Option<seq<V>>,
    gather: seq<V> -> V,
    apply: (V, V, S) -> Option<(V, S)>,
    takes: (LitPat, V) -> bool,
    acquire: (seq<Binding>, S) -> Option<(seq<V>, S)>,
    release: (seq<V>, S) -> S)

  function Visible<V>(env: map<Name, V>): map<Name, V> {
    map n | n in env && !IsTemp(n) :: env[n]
  }

  /** The bindings of a pattern that takes the value. */
  function Matched<V, S>(sem: Sem<V, S>, pat: Pat, v: V, env: map<Name, V>): Option<map<Name, V>>
    decreases pat, 1
  {
    match pat
    case PWild => Some(env)
    case PVar(name) => Some(env[name := v])
    case PLit(lit) => if sem.takes(lit, v) then Some(env) else None
    case PTuple(pats) =>
      var vs :- sem.items(v);
      if |vs| != |pats| then None else MatchedAll(sem, pats, vs, env)
  }

  function MatchedAll<V, S>(sem: Sem<V, S>, pats: seq<Pat>, vs: seq<V>, env: map<Name, V>): Option<map<Name, V>>
    requires |pats| == |vs|
    decreases pats, 0
  {
    if pats == [] then Some(env)
    else
      var env1 :- Matched(sem, pats[0], vs[0], env);
      MatchedAll(sem, pats[1..], vs[1..], env1)
  }

  /** The value of an expression that is not run. */
  function ValueOf<V, S>(sem: Sem<V, S>, e: Expr, env: map<Name, V>): Option<V> {
    var d := Desugared(e);
    if d.Var? && d.name in env then Some(env[d.name]) else sem.eval(d, Visible(env))
  }

  /** The bindings of a `borrow`, in order. */
  function Borrowed<V>(bindings: seq<Binding>, vs: seq<V>, env: map<Name, V>): map<Name, V>
    requires |bindings| == |vs|
    decreases |bindings|
  {
    if bindings == [] then env else Borrowed(bindings[1..], vs[1..], env[bindings[0].name := vs[0]])
  }

  lemma ArmsBelow(e: Expr)
    requires e.Match?
    ensures forall i | 0 <= i < |e.arms| :: e.arms[i].body < e
  {
    forall i | 0 <= i < |e.arms| ensures e.arms[i].body < e { assert Children(e)[i + 1] == e.arms[i].body; }
  }

  lemma StmtsBelow(e: Expr)
    requires HasStmts(e)
    ensures forall i | 0 <= i < |e.stmts| :: RhsOf(e.stmts[i]) < e
  {
    forall i | 0 <= i < |e.stmts| ensures RhsOf(e.stmts[i]) < e { assert Children(e)[i] == RhsOf(e.stmts[i]); }
  }

  /** What stands as the function of an application, out of the blocks around it. */
  function Applied(f: Expr): (g: Expr)
    ensures g == f || g < f
  {
    if f.RunBlock? && |f.stmts| == 1 && f.stmts[0].SExpr? then Applied(f.stmts[0].e) else f
  }

  /** A function of one parameter, written out. */
  predicate IsLambda(g: Expr) { g.Lam? && |g.params| == 1 }

  /** Runs an expression as an action. A block runs its statements from left to right. */
  function RunAction<V, S>(sem: Sem<V, S>, e: Expr, env: map<Name, V>, s: S): Option<(V, S)>
    decreases e, 2
  {
    match e
    case RunBlock(stmts) => StmtsBelow(e); RunBody(sem, e, stmts, env, s)
    case Bind(rhs, param, body) =>
      var r :- RunAction(sem, rhs, env, s);
      RunAction(sem, body, env[param := r.0], r.1)
    case Let(pat, rhs, body) =>
      var v :- ValueOf(sem, rhs, env);
      var inner :- Matched(sem, pat, v, env);
      RunAction(sem, body, inner, s)
    case If(cond, thn, els) =>
      var v :- ValueOf(sem, cond, env);
      var b :- sem.truth(v);
      if b then RunAction(sem, thn, env, s) else RunAction(sem, els, env, s)
    case Match(scrutinee, arms) =>
      var v :- ValueOf(sem, scrutinee, env);
      ArmsBelow(e);
      RunArms(sem, e, arms, v, env, s)
    case Return(inner) =>
      var v :- ValueOf(sem, inner, env);
      Some((v, s))
    case Borrow(bindings, stmts) =>
      var got :- sem.acquire(bindings, s);
      if |got.0| != |bindings| then None
      else
        StmtsBelow(e);
        var r :- RunBody(sem, e, stmts, Borrowed(bindings, got.0, env), got.1);
        Some((r.0, sem.release(got.0, r.1)))
    case For(pat, iter, body) =>
      var v :- ValueOf(sem, iter, env);
      var vs :- sem.items(v);
      var r :- RunLoop(sem, pat, vs, body, env, s);
      Some((sem.gather(r.0), r.1))
    case App(f, x) =>
      var v :- ValueOf(sem, x, env);
      if IsLambda(Applied(f)) then
        var inner :- Matched(sem, Applied(f).params[0].pat, v, env);
        RunAction(sem, Applied(f).body, inner, s)
      else
        var fv :- ValueOf(sem, f, env);
        sem.apply(fv, v, s)
    case Ascribe(inner, _) => RunAction(sem, inner, env, s)
    case _ => sem.exec(Desugared(e), Visible(env), s)
  }

  /** The rounds of a loop, one for each value in turn. */
  function RunLoop<V, S>(sem: Sem<V, S>, pat: Pat, vs: seq<V>, body: Expr, env: map<Name, V>, s: S): Option<(seq<V>, S)>
    decreases body, 3, |vs|
  {
    if vs == [] then Some(([], s))
    else
      var inner :- Matched(sem, pat, vs[0], env);
      var r :- RunAction(sem, body, inner, s);
      var rest :- RunLoop(sem, pat, vs[1..], body, env, r.1);
      Some(([r.0] + rest.0, rest.1))
  }

  /** The first arm that takes the value. */
  function RunArms<V, S>(sem: Sem<V, S>, ghost parent: Expr, arms: seq<Arm>, v: V, env: map<Name, V>, s: S): Option<(V, S)>
    requires forall i | 0 <= i < |arms| :: arms[i].body < parent
    decreases parent, 0, |arms|
  {
    if arms == [] then None
    else
      match Matched(sem, arms[0].pat, v, env)
      case Some(inner) => RunAction(sem, arms[0].body, inner, s)
      case None => RunArms(sem, parent, arms[1..], v, env, s)
  }

  /** A block of statements; an empty one is the unit action. */
  function RunBody<V, S>(sem: Sem<V, S>, ghost parent: Expr, stmts: seq<Stmt>, env: map<Name, V>, s: S): Option<(V, S)>
    requires forall i | 0 <= i < |stmts| :: RhsOf(stmts[i]) < parent
    decreases parent, 1
  {
    if stmts == [] then sem.exec(Unit, Visible(env), s) else RunStmts(sem, parent, stmts, env, s)
  }

  /** The statements of a block, one after another; the last one gives the result. */
  function RunStmts<V, S>(sem: Sem<V, S>, ghost parent: Expr, stmts: seq<Stmt>, env: map<Name, V>, s: S): Option<(V, S)>
    requires stmts != [] && forall i | 0 <= i < |stmts| :: RhsOf(stmts[i]) < parent
    decreases parent, 0, |stmts|
  {
    if |stmts| == 1 then if stmts[0].SExpr? then RunAction(sem, RhsOf(stmts[0]), env, s) else None
    else
      match stmts[0]
      case SExpr(_) =>
        var r :- RunAction(sem, RhsOf(stmts[0]), env, s);
        RunStmts(sem, parent, stmts[1..], env, r.1)
      case SBind(pat, _, _) =>
        var r :- RunAction(sem, RhsOf(stmts[0]), env, s);
        var inner :- Matched(sem, pat, r.0, env);
        RunStmts(sem, parent, stmts[1..], inner, r.1)
      case SLet(pat, rhs) =>
        var v :- ValueOf(sem, rhs, env);
        var inner :- Matched(sem, pat, v, env);
        RunStmts(sem, parent, stmts[1..], inner, s)
  }

  /** Not one of the names no source identifier has. */
  predicate Readable(e: Expr) { Desugared(e).Var? ==> !IsTemp(Desugared(e).name) }

  /** A source expression: it reads no temporary. */
  predicate Source(e: Expr) {
    && (e.Let? ==> Readable(e.rhs))
    && (e.If? ==> Readable(e.cond))
    && (e.Match? ==> Readable(e.scrutinee))
    && (e.Return? ==> Readable(e.inner))
    && (e.For? ==> Readable(e.iter))
    && (e.App? ==> Readable(e.fn) && Readable(e.arg))
    && (e.RunBlock? || e.Borrow? ==> forall i | 0 <= i < |e.stmts| :: e.stmts[i].SLet? ==> Readable(e.stmts[i].rhs))
    && forall i | 0 <= i < |Children(e)| :: Source(Children(e)[i])
  }

  // ── Bindings that agree up to temporaries ──────────────────────────────────

  lemma {:induction false} MatchedVisible<V, S>(sem: Sem<V, S>, pat: Pat, v: V, env: map<Name, V>, env': map<Name, V>)
    requires Visible(env) == Visible(env')
    ensures Matched(sem, pat, v, env).Some? <==> Matched(sem, pat, v, env').Some?
    ensures Matched(sem, pat, v, env).Some? ==>
              Visible(Matched(sem, pat, v, env).value) == Visible(Matched(sem, pat, v, env').value)
    decreases pat, 1
  {
    match pat
    case PVar(name) => BindVisible(env, env', name, v);
    case PTuple(pats) =>
      var vs := sem.items(v);
      if vs.Some? && |vs.value| == |pats| { MatchedAllVisible(sem, pats, vs.value, env, env'); }
    case _ =>
  }

  lemma {:induction false} MatchedAllVisible<V, S>(sem: Sem<V, S>, pats: seq<Pat>, vs: seq<V>, env: map<Name, V>, env': map<Name, V>)
    requires |pats| == |vs| && Visible(env) == Visible(env')
    ensures MatchedAll(sem, pats, vs, env).Some? <==> MatchedAll(sem, pats, vs, env').Some?
    ensures MatchedAll(sem, pats, vs, env).Some? ==>
              Visible(MatchedAll(sem, pats, vs, env).value) == Visible(MatchedAll(sem, pats, vs, env').value)
    decreases pats, 0
  {
    if pats != [] {
      MatchedVisible(sem, pats[0], vs[0], env, env');
      var r, r' := Matched(sem, pats[0], vs[0], env), Matched(sem, pats[0], vs[0], env');
      if r.Some? { MatchedAllVisible(sem, pats[1..], vs[1..], r.value, r'.value); }
    }
  }

  lemma BindVisible<V>(env: map<Name, V>, env': map<Name, V>, name: Name, v: V)
    requires Visible(env) == Visible(env')
    ensures Visible(env[name := v]) == Visible(env'[name := v])
    ensures IsTemp(name) ==> Visible(env[name := v]) == Visible(env)
  {
    assert forall n | n in Visible(env) :: n in env && n in env' && env[n] == Visible(env)[n] == env'[n];
    assert forall n | n in env && !IsTemp(n) :: n in Visible(env);
    assert forall n | n in env' && !IsTemp(n) :: n in Visible(env');
  }

  lemma ValueVisible<V, S>(sem: Sem<V, S>, e: Expr, env: map<Name, V>, env': map<Name, V>)
    requires Visible(env) == Visible(env') && Readable(e)
    ensures ValueOf(sem, e, env) == ValueOf(sem, Desugared(e), env')
  {
    DesugaringTwice(e);
    var d := Desugared(e);
    if d.Var? {
      assert d.name in env <==> d.name in Visible(env);
      assert d.name in env' <==> d.name in Visible(env');
      if d.name in env { assert Visible(env)[d.name] == env[d.name] && Visible(env')[d.name] == env'[d.name]; }
    }
  }

  lemma {:induction false} BorrowedVisible<V>(bindings: seq<Binding>, vs: seq<V>, env: map<Name, V>, env': map<Name, V>)
    requires |bindings| == |vs| && Visible(env) == Visible(env')
    ensures Visible(Borrowed(bindings, vs, env)) == Visible(Borrowed(bindings, vs, env'))
    decreases |bindings|
  {
    if bindings != [] {
      hide Visible;
      BindVisible(env, env', bindings[0].name, vs[0]);
      BorrowedVisible(bindings[1..], vs[1..], env[bindings[0].name := vs[0]], env'[bindings[0].name := vs[0]]);
    }
  }

  // ── Forms of the output ────────────────────────────────────────────────────

  lemma DesugaredPair(e: Expr)
    requires e.Bind? || e.Let?
    ensures e.Bind? ==> Desugared(e) == Bind(Desugared(e.rhs), e.param, Desugared(e.body))
    ensures e.Let? ==> Desugared(e) == Let(e.pat, Desugared(e.rhs), Desugared(e.body))
    ensures WellFormed(e) && Source(e) ==> WellFormed(e.body) && Source(e.body) && WellFormed(e.rhs) && Source(e.rhs)
    ensures e.Let? && Source(e) ==> Readable(e.rhs)
  {
    hide Readable;
    assert Children(e)[0] == e.rhs && Children(e)[1] == e.body;
  }

  lemma DesugaredIf(e: Expr)
    requires e.If?
    ensures Desugared(e) == If(Desugared(e.cond), Desugared(e.thn), Desugared(e.els))
    ensures WellFormed(e) && Source(e) ==>
              Readable(e.cond) && WellFormed(e.thn) && Source(e.thn) && WellFormed(e.els) && Source(e.els)
  {
    hide Readable;
    assert Children(e)[1] == e.thn && Children(e)[2] == e.els;
  }

  lemma DesugaredReturn(e: Expr)
    requires e.Return?
    ensures Desugared(e) == Return(Desugared(e.inner)) && (Source(e) ==> Readable(e.inner))
  {
    hide Readable;
  }

  /** The arms of a desugared `match` are the arms, desugared. */
  ghost predicate ArmsDesugared(arms: seq<Arm>, arms': seq<Arm>) {
    |arms'| == |arms| && forall i | 0 <= i < |arms| :: arms'[i] == Arm(arms[i].pat, Desugared(arms[i].body))
  }

  ghost predicate GoodArms(arms: seq<Arm>) { forall i | 0 <= i < |arms| :: WellFormed(arms[i].body) && Source(arms[i].body) }

  lemma MatchParts(e: Expr)
    requires e.Match? && WellFormed(e) && Source(e)
    ensures Readable(e.scrutinee) && GoodArms(e.arms)
  {
    hide Readable;
    forall i | 0 <= i < |e.arms| ensures WellFormed(e.arms[i].body) && Source(e.arms[i].body) {
      assert Children(e)[i + 1] == e.arms[i].body;
    }
  }

  lemma MatchChildren(e: Expr, cs: seq<Expr>)
    requires e.Match?
    ensures |Children(e)| == |e.arms| + 1 && Children(e)[0] == e.scrutinee
    ensures forall i | 0 <= i < |e.arms| :: Children(e)[i + 1] == e.arms[i].body
    ensures |cs| == |e.arms| + 1 ==>
              WithChildren(e, cs) == Match(cs[0], seq(|e.arms|, i requires 0 <= i < |e.arms| => Arm(e.arms[i].pat, cs[i + 1])))
  {
  }

  lemma DesugaredMatch(e: Expr)
    requires e.Match?
    ensures var d := Desugared(e); d.Match? && d.scrutinee == Desugared(e.scrutinee) && ArmsDesugared(e.arms, d.arms)
  {
    hide Desugared, Children, WithChildren;
    var cs := DesugaredAll(e);
    MatchChildren(e, cs);
  }

  /** The statements of a desugared body are the statements, desugared. */
  ghost predicate StmtsDesugared(stmts: seq<Stmt>, stmts': seq<Stmt>) {
    |stmts'| == |stmts| && forall i | 0 <= i < |stmts| :: stmts'[i] == WithRhs(stmts[i], Desugared(RhsOf(stmts[i])))
  }

  lemma DesugaredBorrow(e: Expr)
    requires e.Borrow?
    ensures var d := Desugared(e); d.Borrow? && d.bindings == e.bindings && StmtsDesugared(e.stmts, d.stmts)
  {
    var cs := DesugaredAll(e);
    assert forall i | 0 <= i < |e.stmts| :: Children(e)[i] == RhsOf(e.stmts[i]);
  }

  lemma StmtsAreGood(e: Expr)
    requires WellFormed(e) && Source(e) && (e.RunBlock? || e.Borrow?)
    ensures SourceStmts(e, e.stmts) && (e.RunBlock? ==> GoodBlock(e.stmts))
  {
    StmtsBelow(e);
    assert forall i | 0 <= i < |e.stmts| :: Children(e)[i] == RhsOf(e.stmts[i]);
  }

  /** The statements of an accepted source body, or a tail of them. */
  ghost predicate SourceStmts(parent: Expr, stmts: seq<Stmt>) {
    forall i | 0 <= i < |stmts| ::
      && RhsOf(stmts[i]) < parent
      && WellFormed(RhsOf(stmts[i])) && Source(RhsOf(stmts[i]))
      && (stmts[i].SLet? ==> Readable(stmts[i].rhs))
  }

  /** The statements of an accepted source block, or a tail of them. */
  ghost predicate GoodStmts(parent: Expr, stmts: seq<Stmt>) { GoodBlock(stmts) && SourceStmts(parent, stmts) }

  lemma RestIsGood(parent: Expr, stmts: seq<Stmt>)
    requires GoodStmts(parent, stmts) && |stmts| > 1
    ensures GoodStmts(parent, stmts[1..])
  {
    var rest := stmts[1..];
    assert rest[|rest| - 1] == stmts[|stmts| - 1];
    assert forall i | 0 <= i < |rest| :: rest[i] == stmts[i + 1];
  }

  /** Desugaring keeps monadic meaning: an accepted expression runs as its desugaring does, under any
      bindings that agree up to temporaries, with the same result and the same effects. */
  lemma {:induction false} DesugaringKeepsMeaning<V, S>(sem: Sem<V, S>, e: Expr, env: map<Name, V>, env': map<Name, V>, s: S)
    requires WellFormed(e) && Source(e) && Visible(env) == Visible(env')
    ensures RunAction(sem, Desugared(e), env', s) == RunAction(sem, e, env, s)
    decreases e, 5
  {
    hide *;
    ActionForms(e);
    if e.RunBlock? {
      RunBlockKeepsMeaning(sem, e, env, env', s);
    } else if e.Bind? {
      BindKeepsMeaning(sem, e, env, env', s);
    } else if e.Let? {
      LetKeepsMeaning(sem, e, env, env', s);
    } else if e.If? {
      IfKeepsMeaning(sem, e, env, env', s);
    } else if e.Match? {
      MatchKeepsMeaning(sem, e, env, env', s);
    } else if e.Return? {
      ReturnKeepsMeaning(sem, e, env, env', s);
    } else if e.Borrow? {
      BorrowKeepsMeaning(sem, e, env, env', s);
    } else if e.For? {
      ForKeepsMeaning(sem, e, env, env', s);
    } else if e.App? {
      ApplyKeepsMeaning(sem, e, env, env', s);
    } else if e.Ascribe? {
      AscribeKeepsMeaning(sem, e, env, env', s);
    } else {
      OtherKeepsMeaning(sem, e, env, env', s);
    }
  }

  /** The forms the interpreter follows. */
  predicate IsAction(e: Expr) {
    e.RunBlock? || e.Bind? || e.Let? || e.If? || e.Match? || e.Return? || e.Borrow? || e.For? || e.App? || e.Ascribe?
  }

  lemma ActionForms(e: Expr)
    ensures IsAction(e) <==>
              e.RunBlock? || e.Bind? || e.Let? || e.If? || e.Match? || e.Return? || e.Borrow? || e.For? || e.App? || e.Ascribe?
  {
  }

  lemma OtherStays(e: Expr)
    requires !IsAction(e)
    ensures !IsAction(Desugared(e))
  {
    var cs := DesugaredAll(e);
  }

  lemma OtherRuns<V, S>(sem: Sem<V, S>, e: Expr, env: map<Name, V>, s: S)
    requires !IsAction(e)
    ensures RunAction(sem, e, env, s) == sem.exec(Desugared(e), Visible(env), s)
  {
    hide Desugared;
  }

  lemma OtherKeepsMeaning<V, S>(sem: Sem<V, S>, e: Expr, env: map<Name, V>, env': map<Name, V>, s: S)
    requires !IsAction(e) && Visible(env) == Visible(env')
    ensures RunAction(sem, Desugared(e), env', s) == RunAction(sem, e, env, s)
  {
    hide *;
    OtherStays(e);
    DesugaringTwice(e);
    OtherRuns(sem, e, env, s);
    OtherRuns(sem, Desugared(e), env', s);
  }

  lemma {:induction false} BindKeepsMeaning<V, S>(sem: Sem<V, S>, e: Expr, env: map<Name, V>, env': map<Name, V>, s: S)
    requires WellFormed(e) && Source(e) && Visible(env) == Visible(env') && e.Bind?
    ensures RunAction(sem, Desugared(e), env', s) == RunAction(sem, e, env, s)
    decreases e, 4
  {
    hide Desugared, WellFormed, Source, Visible, Children;
    DesugaredPair(e);
    DesugaringKeepsMeaning(sem, e.rhs, env, env', s);
    var r := RunAction(sem, e.rhs, env, s);
    if r.Some? {
      BindVisible(env, env', e.param, r.value.0);
      DesugaringKeepsMeaning(sem, e.body, env[e.param := r.value.0], env'[e.param := r.value.0], r.value.1);
    }
  }

  lemma {:induction false} LetKeepsMeaning<V, S>(sem: Sem<V, S>, e: Expr, env: map<Name, V>, env': map<Name, V>, s: S)
    requires WellFormed(e) && Source(e) && Visible(env) == Visible(env') && e.Let?
    ensures RunAction(sem, Desugared(e), env', s) == RunAction(sem, e, env, s)
    decreases e, 4
  {
    hide Desugared, WellFormed, Source, Visible, Children, Matched, ValueOf;
    DesugaredPair(e);
    ValueVisible(sem, e.rhs, env, env');
    var v := ValueOf(sem, e.rhs, env);
    if v.Some? {
      MatchedVisible(sem, e.pat, v.value, env, env');
      var inner, inner' := Matched(sem, e.pat, v.value, env), Matched(sem, e.pat, v.value, env');
      if inner.Some? { DesugaringKeepsMeaning(sem, e.body, inner.value, inner'.value, s); }
    }
  }

  lemma {:induction false} IfKeepsMeaning<V, S>(sem: Sem<V, S>, e: Expr, env: map<Name, V>, env': map<Name, V>, s: S)
    requires WellFormed(e) && Source(e) && Visible(env) == Visible(env') && e.If?
    ensures RunAction(sem, Desugared(e), env', s) == RunAction(sem, e, env, s)
    decreases e, 4
  {
    hide Desugared, WellFormed, Source, Visible, Children, ValueOf;
    DesugaredIf(e);
    ValueVisible(sem, e.cond, env, env');
    DesugaringKeepsMeaning(sem, e.thn, env, env', s);
    DesugaringKeepsMeaning(sem, e.els, env, env', s);
  }

  lemma ReturnKeepsMeaning<V, S>(sem: Sem<V, S>, e: Expr, env: map<Name, V>, env': map<Name, V>, s: S)
    requires Source(e) && Visible(env) == Visible(env') && e.Return?
    ensures RunAction(sem, Desugared(e), env', s) == RunAction(sem, e, env, s)
  {
    hide Desugared, Source, Visible, Children, ValueOf;
    DesugaredReturn(e);
    ValueVisible(sem, e.inner, env, env');
  }

  lemma {:induction false} MatchKeepsMeaning<V, S>(sem: Sem<V, S>, e: Expr, env: map<Name, V>, env': map<Name, V>, s: S)
    requires WellFormed(e) && Source(e) && Visible(env) == Visible(env') && e.Match?
    ensures RunAction(sem, Desugared(e), env', s) == RunAction(sem, e, env, s)
    decreases e, 4
  {
    hide *;
    DesugaredMatch(e);
    MatchParts(e);
    var d := Desugared(e);
    ValueVisible(sem, e.scrutinee, env, env');
    MatchRuns(sem, e, env, s);
    MatchRuns(sem, d, env', s);
    ArmsBelow(e);
    ArmsBelow(d);
    var v := ValueOf(sem, e.scrutinee, env);
    if v.Some? { ArmsKeepMeaning(sem, e, d, e.arms, d.arms, v.value, env, env', s); }
  }

  lemma MatchRuns<V, S>(sem: Sem<V, S>, e: Expr, env: map<Name, V>, s: S)
    requires e.Match? && forall i | 0 <= i < |e.arms| :: e.arms[i].body < e
    ensures RunAction(sem, e, env, s) ==
              match ValueOf(sem, e.scrutinee, env)
              case None => None
              case Some(v) => RunArms(sem, e, e.arms, v, env, s)
  {
    hide ValueOf, RunArms;
  }

  lemma {:induction false} ArmsKeepMeaning<V, S>(sem: Sem<V, S>, parent: Expr, parent': Expr, arms: seq<Arm>, arms': seq<Arm>, v: V,
                                                 env: map<Name, V>, env': map<Name, V>, s: S)
    requires (forall i | 0 <= i < |arms| :: arms[i].body < parent) && (forall i | 0 <= i < |arms'| :: arms'[i].body < parent')
    requires ArmsDesugared(arms, arms') && GoodArms(arms) && Visible(env) == Visible(env')
    ensures RunArms(sem, parent', arms', v, env', s) == RunArms(sem, parent, arms, v, env, s)
    decreases parent, 0, |arms|
  {
    hide Desugared, WellFormed, Source, Visible, Matched, RunAction, RunArms, ArmsDesugared, GoodArms;
    SameEmpty(arms, arms');
    if arms == [] {
      NoArms(sem, parent, v, env, s);
      NoArms(sem, parent', v, env', s);
    } else {
      FirstArm(arms, arms');
      ArmsRun(sem, parent, arms, v, env, s);
      ArmsRun(sem, parent', arms', v, env', s);
      MatchedVisible(sem, arms[0].pat, v, env, env');
      var inner, inner' := Matched(sem, arms[0].pat, v, env), Matched(sem, arms[0].pat, v, env');
      if inner.Some? { DesugaringKeepsMeaning(sem, arms[0].body, inner.value, inner'.value, s); }
      else { ArmsKeepMeaning(sem, parent, parent', arms[1..], arms'[1..], v, env, env', s); }
    }
  }

  lemma SameEmpty(arms: seq<Arm>, arms': seq<Arm>)
    requires ArmsDesugared(arms, arms')
    ensures |arms'| == |arms|
  {
  }

  lemma NoArms<V, S>(sem: Sem<V, S>, parent: Expr, v: V, env: map<Name, V>, s: S)
    ensures RunArms(sem, parent, [], v, env, s) == None
  {
  }

  lemma FirstArm(arms: seq<Arm>, arms': seq<Arm>)
    requires arms != [] && ArmsDesugared(arms, arms') && GoodArms(arms)
    ensures arms' != [] && arms'[0] == Arm(arms[0].pat, Desugared(arms[0].body))
    ensures WellFormed(arms[0].body) && Source(arms[0].body)
    ensures ArmsDesugared(arms[1..], arms'[1..]) && GoodArms(arms[1..])
  {
    hide Desugared, WellFormed, Source;
  }

  lemma ArmsRun<V, S>(sem: Sem<V, S>, parent: Expr, arms: seq<Arm>, v: V, env: map<Name, V>, s: S)
    requires arms != [] && forall i | 0 <= i < |arms| :: arms[i].body < parent
    ensures RunArms(sem, parent, arms, v, env, s) ==
              match Matched(sem, arms[0].pat, v, env)
              case Some(inner) => RunAction(sem, arms[0].body, inner, s)
              case None => RunArms(sem, parent, arms[1..], v, env, s)
  {
    hide RunAction, Matched;
  }

  // ── Loops and applications ─────────────────────────────────────────────────

  lemma DesugaredFor(e: Expr)
    requires e.For?
    ensures Desugared(e) == For(e.pat, Desugared(e.iter), Desugared(e.body))
    ensures WellFormed(e) && Source(e) ==> Readable(e.iter) && WellFormed(e.body) && Source(e.body)
  {
    hide Readable;
    assert Children(e)[0] == e.iter && Children(e)[1] == e.body;
  }

  lemma {:induction false} ForKeepsMeaning<V, S>(sem: Sem<V, S>, e: Expr, env: map<Name, V>, env': map<Name, V>, s: S)
    requires WellFormed(e) && Source(e) && Visible(env) == Visible(env') && e.For?
    ensures RunAction(sem, Desugared(e), env', s) == RunAction(sem, e, env, s)
    decreases e, 4
  {
    hide *;
    DesugaredFor(e);
    ValueVisible(sem, e.iter, env, env');
    ForRuns(sem, e, env, s);
    ForRuns(sem, Desugared(e), env', s);
    var v := ValueOf(sem, e.iter, env);
    if v.Some? && sem.items(v.value).Some? {
      LoopKeepsMeaning(sem, e.pat, sem.items(v.value).value, e.body, env, env', s);
    }
  }

  lemma ForRuns<V, S>(sem: Sem<V, S>, e: Expr, env: map<Name, V>, s: S)
    requires e.For?
    ensures RunAction(sem, e, env, s) ==
              match ValueOf(sem, e.iter, env)
              case None => None
              case Some(v) =>
                match sem.items(v)
                case None => None
                case Some(vs) =>
                  match RunLoop(sem, e.pat, vs, e.body, env, s)
                  case None => None
                  case Some(r) => Some((sem.gather(r.0), r.1))
  {
    hide ValueOf, RunLoop;
  }

  /** Every round runs as it did. */
  lemma {:induction false} LoopKeepsMeaning<V, S>(sem: Sem<V, S>, pat: Pat, vs: seq<V>, body: Expr, env: map<Name, V>,
                                                  env': map<Name, V>, s: S)
    requires WellFormed(body) && Source(body) && Visible(env) == Visible(env')
    ensures RunLoop(sem, pat, vs, Desugared(body), env', s) == RunLoop(sem, pat, vs, body, env, s)
    decreases body, 6, |vs|
  {
    hide *;
    LoopRuns(sem, pat, vs, body, env, s);
    LoopRuns(sem, pat, vs, Desugared(body), env', s);
    if vs != [] {
      MatchedVisible(sem, pat, vs[0], env, env');
      var inner, inner' := Matched(sem, pat, vs[0], env), Matched(sem, pat, vs[0], env');
      if inner.Some? {
        DesugaringKeepsMeaning(sem, body, inner.value, inner'.value, s);
        var r := RunAction(sem, body, inner.value, s);
        if r.Some? { LoopKeepsMeaning(sem, pat, vs[1..], body, env, env', r.value.1); }
      }
    }
  }

  lemma LoopRuns<V, S>(sem: Sem<V, S>, pat: Pat, vs: seq<V>, body: Expr, env: map<Name, V>, s: S)
    ensures vs == [] ==> RunLoop(sem, pat, vs, body, env, s) == Some(([], s))
    ensures vs != [] ==>
              RunLoop(sem, pat, vs, body, env, s) ==
                match Matched(sem, pat, vs[0], env)
                case None => None
                case Some(inner) =>
                  match RunAction(sem, body, inner, s)
                  case None => None
                  case Some(r) =>
                    match RunLoop(sem, pat, vs[1..], body, env, r.1)
                    case None => None
                    case Some(rest) => Some(([r.0] + rest.0, rest.1))
  {
    hide Matched, RunAction;
  }

  /** Desugaring sees through the blocks around a function, as running it does. */
  lemma {:induction false} AppliedDesugared(f: Expr)
    requires WellFormed(f) && Source(f)
    ensures WellFormed(Applied(f)) && Source(Applied(f))
    ensures Desugared(f) == Desugared(Applied(f)) && Applied(Desugared(f)) == Desugared(f)
    ensures IsLambda(Desugared(f)) <==> IsLambda(Applied(f))
  {
    hide Source, Readable;
    DesugaredHasNoRun(f);
    if f.RunBlock? && |f.stmts| == 1 && f.stmts[0].SExpr? {
      StmtsAreGood(f);
      AppliedDesugared(f.stmts[0].e);
    } else {
      KindStays(f);
    }
  }

  lemma KindStays(f: Expr)
    requires WellFormed(f) && !(f.RunBlock? && |f.stmts| == 1 && f.stmts[0].SExpr?)
    ensures IsLambda(Desugared(f)) <==> IsLambda(f)
  {
    if f.RunBlock? {
      if |f.stmts| > 1 { FoldFirst(f, f.stmts); }
    } else {
      var cs := DesugaredAll(f);
    }
  }

  lemma LambdaParts(g: Expr)
    requires IsLambda(g) && WellFormed(g) && Source(g)
    ensures Desugared(g) == Lam(g.params, Desugared(g.body)) && WellFormed(g.body) && Source(g.body)
  {
    hide Readable;
    assert Children(g)[0] == g.body;
  }

  lemma ApplyParts(e: Expr)
    requires e.App? && WellFormed(e) && Source(e)
    ensures Desugared(e) == App(Desugared(e.fn), Desugared(e.arg))
    ensures WellFormed(e.fn) && Source(e.fn) && Readable(e.fn) && Readable(e.arg)
  {
    hide Readable;
    assert Children(e)[0] == e.fn && Children(e)[1] == e.arg;
  }

  lemma ApplyRuns<V, S>(sem: Sem<V, S>, e: Expr, env: map<Name, V>, s: S)
    requires e.App?
    ensures RunAction(sem, e, env, s) ==
              match ValueOf(sem, e.arg, env)
              case None => None
              case Some(v) =>
                var g := Applied(e.fn);
                if IsLambda(g) then
                  match Matched(sem, g.params[0].pat, v, env)
                  case None => None
                  case Some(inner) => RunAction(sem, g.body, inner, s)
                else
                  match ValueOf(sem, e.fn, env)
                  case None => None
                  case Some(fv) => sem.apply(fv, v, s)
  {
    hide ValueOf, Applied, Matched;
  }

  lemma {:induction false} ApplyKeepsMeaning<V, S>(sem: Sem<V, S>, e: Expr, env: map<Name, V>, env': map<Name, V>, s: S)
    requires WellFormed(e) && Source(e) && Visible(env) == Visible(env') && e.App?
    ensures RunAction(sem, Desugared(e), env', s) == RunAction(sem, e, env, s)
    decreases e, 4
  {
    hide *;
    var g := Applied(e.fn);
    ApplyParts(e);
    AppliedDesugared(e.fn);
    ApplyRuns(sem, e, env, s);
    ApplyRuns(sem, Desugared(e), env', s);
    ValueVisible(sem, e.arg, env, env');
    ValueVisible(sem, e.fn, env, env');
    var v := ValueOf(sem, e.arg, env);
    if v.Some? && IsLambda(g) {
      LambdaParts(g);
      LambdaIs(g);
      MatchedVisible(sem, g.params[0].pat, v.value, env, env');
      var inner, inner' := Matched(sem, g.params[0].pat, v.value, env), Matched(sem, g.params[0].pat, v.value, env');
      if inner.Some? { DesugaringKeepsMeaning(sem, g.body, inner.value, inner'.value, s); }
    }
  }

  lemma LambdaIs(g: Expr)
    ensures IsLambda(g) <==> g.Lam? && |g.params| == 1
  {
  }

  lemma {:induction false} AscribeKeepsMeaning<V, S>(sem: Sem<V, S>, e: Expr, env: map<Name, V>, env': map<Name, V>, s: S)
    requires WellFormed(e) && Source(e) && Visible(env) == Visible(env') && e.Ascribe?
    ensures RunAction(sem, Desugared(e), env', s) == RunAction(sem, e, env, s)
    decreases e, 4
  {
    hide Visible, Readable, Children, WithChildren;
    AscribeParts(e);
    DesugaringKeepsMeaning(sem, e.inner, env, env', s);
  }

  lemma AscribeParts(e: Expr)
    requires e.Ascribe? && WellFormed(e) && Source(e)
    ensures Desugared(e) == Ascribe(Desugared(e.inner), e.ty) && WellFormed(e.inner) && Source(e.inner)
  {
    hide Readable;
    assert Children(e)[0] == e.inner;
  }

  // ── Borrow bodies ──────────────────────────────────────────────────────────

  lemma {:induction false} BorrowKeepsMeaning<V, S>(sem: Sem<V, S>, e: Expr, env: map<Name, V>, env': map<Name, V>, s: S)
    requires WellFormed(e) && Source(e) && Visible(env) == Visible(env') && e.Borrow?
    ensures RunAction(sem, Desugared(e), env', s) == RunAction(sem, e, env, s)
    decreases e, 4
  {
    hide *;
    DesugaredBorrow(e);
    var d := Desugared(e);
    StmtsBelow(e);
    StmtsBelow(d);
    StmtsAreGood(e);
    BorrowRuns(sem, e, env, s);
    BorrowRuns(sem, d, env', s);
    var got := sem.acquire(e.bindings, s);
    if got.Some? && |got.value.0| == |e.bindings| {
      BorrowedVisible(e.bindings, got.value.0, env, env');
      BodyKeepsMeaning(sem, e, d, e.stmts, d.stmts, Borrowed(e.bindings, got.value.0, env), Borrowed(e.bindings, got.value.0, env'), got.value.1);
    }
  }

  lemma BorrowRuns<V, S>(sem: Sem<V, S>, e: Expr, env: map<Name, V>, s: S)
    requires e.Borrow? && forall i | 0 <= i < |e.stmts| :: RhsOf(e.stmts[i]) < e
    ensures RunAction(sem, e, env, s) ==
              match sem.acquire(e.bindings, s)
              case None => None
              case Some(got) =>
                if |got.0| != |e.bindings| then None
                else
                  match RunBody(sem, e, e.stmts, Borrowed(e.bindings, got.0, env), got.1)
                  case None => None
                  case Some(r) => Some((r.0, sem.release(got.0, r.1)))
  {
    hide RunBody, Borrowed;
  }

  /** The statements of a desugared body run as the statements do. */
  lemma {:induction false} BodyKeepsMeaning<V, S>(sem: Sem<V, S>, parent: Expr, parent': Expr, stmts: seq<Stmt>, stmts': seq<Stmt>,
                                                  env: map<Name, V>, env': map<Name, V>, s: S)
    requires SourceStmts(parent, stmts) && StmtsDesugared(stmts, stmts') && Visible(env) == Visible(env')
    requires forall i | 0 <= i < |stmts'| :: RhsOf(stmts'[i]) < parent'
    ensures RunBody(sem, parent', stmts', env', s) == RunBody(sem, parent, stmts, env, s)
    decreases parent, 3
  {
    hide Desugared, WellFormed, Source, Visible, RunStmts, WithRhs, RhsOf, Readable;
    if stmts != [] { StmtsKeepMeaning(sem, parent, parent', stmts, stmts', env, env', s); }
  }

  lemma {:induction false} StmtsKeepMeaning<V, S>(sem: Sem<V, S>, parent: Expr, parent': Expr, stmts: seq<Stmt>, stmts': seq<Stmt>,
                                                  env: map<Name, V>, env': map<Name, V>, s: S)
    requires stmts != [] && SourceStmts(parent, stmts) && StmtsDesugared(stmts, stmts') && Visible(env) == Visible(env')
    requires forall i | 0 <= i < |stmts'| :: RhsOf(stmts'[i]) < parent'
    ensures RunStmts(sem, parent', stmts', env', s) == RunStmts(sem, parent, stmts, env, s)
    decreases parent, 0, |stmts|
  {
    hide *;
    FirstDesugared(stmts, stmts');
    FirstSource(parent, stmts);
    Below(parent, stmts);
    if |stmts| == 1 {
      OneRuns(sem, parent, stmts, env, s);
      OneRuns(sem, parent', stmts', env', s);
      if stmts[0].SExpr? { DesugaringKeepsMeaning(sem, RhsOf(stmts[0]), env, env', s); }
    } else if stmts[0].SLet? {
      StmtsLet(sem, parent, stmts, env, s);
      StmtsLet(sem, parent', stmts', env', s);
      ValueVisible(sem, stmts[0].rhs, env, env');
      var v := ValueOf(sem, stmts[0].rhs, env);
      if v.Some? {
        MatchedVisible(sem, stmts[0].pat, v.value, env, env');
        var inner, inner' := Matched(sem, stmts[0].pat, v.value, env), Matched(sem, stmts[0].pat, v.value, env');
        if inner.Some? { StmtsKeepMeaning(sem, parent, parent', stmts[1..], stmts'[1..], inner.value, inner'.value, s); }
      }
    } else {
      StmtsRun(sem, parent, stmts, env, s);
      StmtsRun(sem, parent', stmts', env', s);
      DesugaringKeepsMeaning(sem, RhsOf(stmts[0]), env, env', s);
      var r := RunAction(sem, RhsOf(stmts[0]), env, s);
      if r.Some? {
        AfterVisible(sem, stmts[0], stmts'[0], r.value.0, env, env');
        var inner, inner' := AfterBind(sem, stmts[0], r.value.0, env), AfterBind(sem, stmts'[0], r.value.0, env');
        if inner.Some? { StmtsKeepMeaning(sem, parent, parent', stmts[1..], stmts'[1..], inner.value, inner'.value, r.value.1); }
      }
    }
  }

  lemma FirstSource(parent: Expr, stmts: seq<Stmt>)
    requires stmts != [] && SourceStmts(parent, stmts)
    ensures WellFormed(RhsOf(stmts[0])) && Source(RhsOf(stmts[0])) && RhsOf(stmts[0]) < parent
    ensures stmts[0].SLet? ==> Readable(stmts[0].rhs)
    ensures SourceStmts(parent, stmts[1..])
  {
    hide WellFormed, Source, Readable, RhsOf;
  }

  lemma Below(parent: Expr, stmts: seq<Stmt>)
    requires SourceStmts(parent, stmts)
    ensures forall i | 0 <= i < |stmts| :: RhsOf(stmts[i]) < parent
  {
    hide WellFormed, Source, Readable, RhsOf;
  }

  lemma FirstDesugared(stmts: seq<Stmt>, stmts': seq<Stmt>)
    requires stmts != [] && StmtsDesugared(stmts, stmts')
    ensures stmts' != [] && StmtsDesugared(stmts[1..], stmts'[1..]) && stmts'[0] == WithRhs(stmts[0], Desugared(RhsOf(stmts[0])))
    ensures |stmts'| == |stmts| && RhsOf(stmts'[0]) == Desugared(RhsOf(stmts[0]))
    ensures (stmts'[0].SExpr? <==> stmts[0].SExpr?) && (stmts'[0].SLet? <==> stmts[0].SLet?)
    ensures !stmts[0].SExpr? ==> stmts'[0].pat == stmts[0].pat
    ensures stmts[0].SLet? ==> stmts'[0].rhs == Desugared(stmts[0].rhs)
  {
    hide Desugared;
    assert forall i | 0 <= i < |stmts[1..]| :: stmts[1..][i] == stmts[i + 1] && stmts'[1..][i] == stmts'[i + 1];
  }

  lemma AfterVisible<V, S>(sem: Sem<V, S>, first: Stmt, first': Stmt, v: V, env: map<Name, V>, env': map<Name, V>)
    requires Visible(env) == Visible(env') && (first'.SBind? <==> first.SBind?) && (first.SBind? ==> first'.pat == first.pat)
    ensures var (a, b) := (AfterBind(sem, first, v, env), AfterBind(sem, first', v, env'));
            (a.Some? <==> b.Some?) && (a.Some? ==> Visible(a.value) == Visible(b.value))
  {
    hide Visible, Matched;
    if first.SBind? { MatchedVisible(sem, first.pat, v, env, env'); }
  }

  lemma OneRuns<V, S>(sem: Sem<V, S>, parent: Expr, stmts: seq<Stmt>, env: map<Name, V>, s: S)
    requires |stmts| == 1 && forall i | 0 <= i < |stmts| :: RhsOf(stmts[i]) < parent
    ensures RunStmts(sem, parent, stmts, env, s) == if stmts[0].SExpr? then RunAction(sem, RhsOf(stmts[0]), env, s) else None
  {
    hide RunAction;
  }

  /** `fold_monadic_block`, on a `borrow` whose statements have been desugared already. */
  function FoldBody(e: Expr): Expr
    requires e.Borrow?
  {
    if e.stmts == [] then Unit else StmtsBelow(e); Fold(e, e.stmts)
  }

  lemma {:induction false} FoldTwice(parent: Expr, parent': Expr, stmts: seq<Stmt>, stmts': seq<Stmt>)
    requires stmts != [] && StmtsDesugared(stmts, stmts')
    requires (forall i | 0 <= i < |stmts| :: RhsOf(stmts[i]) < parent) && (forall i | 0 <= i < |stmts'| :: RhsOf(stmts'[i]) < parent')
    ensures Fold(parent', stmts') == Fold(parent, stmts)
    decreases |stmts|
  {
    hide *;
    FirstDesugared(stmts, stmts');
    DesugaringTwice(RhsOf(stmts[0]));
    FoldFirst(parent, stmts);
    FoldFirst(parent', stmts');
    if |stmts| > 1 {
      FoldTwice(parent, parent', stmts[1..], stmts'[1..]);
      SameChain(stmts[0], Desugared(RhsOf(stmts[0])), Desugared(RhsOf(stmts[0])), Fold(parent, stmts[1..]));
    }
  }

  lemma FoldFirst(parent: Expr, stmts: seq<Stmt>)
    requires stmts != [] && forall i | 0 <= i < |stmts| :: RhsOf(stmts[i]) < parent
    ensures Fold(parent, stmts) == if |stmts| == 1 then Desugared(RhsOf(stmts[0]))
                                   else Chain(stmts[0], Desugared(RhsOf(stmts[0])), Fold(parent, stmts[1..]))
  {
    hide Desugared, RhsOf, Chain;
  }

  lemma SameChain(s: Stmt, e: Expr, rhs: Expr, rest: Expr)
    ensures Chain(WithRhs(s, e), rhs, rest) == Chain(s, rhs, rest)
  {
  }

  /** Folding the body of a desugared `borrow` gives an action that runs as the body reads. */
  lemma FoldedBodyRuns<V, S>(sem: Sem<V, S>, e: Expr, env: map<Name, V>, env': map<Name, V>, s: S)
    requires e.Borrow? && WellFormed(e) && Source(e) && GoodBlock(e.stmts) && Visible(env) == Visible(env')
    requires forall i | 0 <= i < |e.stmts| :: RhsOf(e.stmts[i]) < e
    ensures Desugared(e).Borrow?
    ensures RunAction(sem, FoldBody(Desugared(e)), env', s) == RunBody(sem, e, e.stmts, env, s)
  {
    hide Desugared, WellFormed, Source, Visible, Children, RunAction, RunStmts, Fold, GoodBlock, RhsOf, WithRhs, SourceStmts;
    DesugaredBorrow(e);
    var d := Desugared(e);
    StmtsAreGood(e);
    if e.stmts == [] {
      UnitRuns(sem, env', s);
    } else {
      StmtsBelow(d);
      FoldTwice(e, d, e.stmts, d.stmts);
      BlockKeepsMeaning(sem, e, e.stmts, env, env', s);
    }
  }

  lemma SameKinds(stmts: seq<Stmt>, stmts': seq<Stmt>)
    requires StmtsDesugared(stmts, stmts')
    ensures GoodBlock(stmts') <==> GoodBlock(stmts)
    ensures forall i | 0 <= i < |stmts'| :: RhsOf(stmts'[i]) == Desugared(RhsOf(stmts[i]))
  {
    hide Desugared;
  }

  /** It reports nothing exactly when the body as written ends in an expression and binds no literal. */
  lemma FoldBodyErrorsIff(e: Expr)
    requires e.Borrow? && e.stmts != []
    ensures var d := Desugared(e);
            && d.Borrow? && d.stmts != [] && (forall i | 0 <= i < |d.stmts| :: RhsOf(d.stmts[i]) < d)
            && (FoldErrors(d, d.stmts) == [] <==> GoodBlock(e.stmts))
  {
    hide Desugared, GoodBlock, FoldErrors, Errors, RhsOf;
    DesugaredBorrow(e);
    var d := Desugared(e);
    StmtsBelow(d);
    SameKinds(e.stmts, d.stmts);
    FoldErrorsIff(d, d.stmts);
    forall i | 0 <= i < |d.stmts| ensures Errors(RhsOf(d.stmts[i])) == [] { DesugaringTwice(RhsOf(e.stmts[i])); }
  }

  lemma UnitRuns<V, S>(sem: Sem<V, S>, env: map<Name, V>, s: S)
    ensures RunAction(sem, Unit, env, s) == sem.exec(Unit, Visible(env), s)
    ensures Desugared(Unit) == Unit
  {
    assert Desugared(Unit) == Unit;
  }

  // ── Run blocks ─────────────────────────────────────────────────────────────

  lemma {:induction false} RunBlockKeepsMeaning<V, S>(sem: Sem<V, S>, e: Expr, env: map<Name, V>, env': map<Name, V>, s: S)
    requires WellFormed(e) && Source(e) && Visible(env) == Visible(env') && e.RunBlock?
    ensures RunAction(sem, Desugared(e), env', s) == RunAction(sem, e, env, s)
    decreases e, 4
  {
    hide *;
    StmtsAreGood(e);
    StmtsBelow(e);
    BlockRuns(sem, e, env, s);
    DesugaredBlock(e);
    UnitRuns(sem, env', s);
    if e.stmts != [] {
      BothGood(e, e.stmts);
      BlockKeepsMeaning(sem, e, e.stmts, env, env', s);
    }
  }

  lemma BothGood(parent: Expr, stmts: seq<Stmt>)
    requires GoodBlock(stmts) && SourceStmts(parent, stmts)
    ensures GoodStmts(parent, stmts)
  {
    hide GoodBlock, SourceStmts;
  }

  lemma BlockRuns<V, S>(sem: Sem<V, S>, e: Expr, env: map<Name, V>, s: S)
    requires e.RunBlock? && forall i | 0 <= i < |e.stmts| :: RhsOf(e.stmts[i]) < e
    ensures e.stmts == [] ==> RunAction(sem, e, env, s) == sem.exec(Unit, Visible(env), s)
    ensures e.stmts != [] ==> RunAction(sem, e, env, s) == RunStmts(sem, e, e.stmts, env, s)
  {
    hide RunStmts;
  }

  lemma DesugaredBlock(e: Expr)
    requires e.RunBlock? && forall i | 0 <= i < |e.stmts| :: RhsOf(e.stmts[i]) < e
    ensures e.stmts == [] ==> Desugared(e) == Unit
    ensures e.stmts != [] ==> Desugared(e) == Fold(e, e.stmts)
  {
    hide Fold;
  }

  lemma {:induction false} BlockKeepsMeaning<V, S>(sem: Sem<V, S>, parent: Expr, stmts: seq<Stmt>, env: map<Name, V>,
                                                   env': map<Name, V>, s: S)
    requires stmts != [] && GoodStmts(parent, stmts) && Visible(env) == Visible(env')
    ensures RunAction(sem, Fold(parent, stmts), env', s) == RunStmts(sem, parent, stmts, env, s)
    decreases parent, 0, |stmts|
  {
    hide Desugared, WellFormed, Source, Visible, Children, ValueOf, GoodBlock, Matched;
    if |stmts| == 1 {
      OneStatement(stmts);
      DesugaringKeepsMeaning(sem, RhsOf(stmts[0]), env, env', s);
    } else {
      RestIsGood(parent, stmts);
      if stmts[0].SLet? {
        LetThenRest(sem, parent, stmts, env, env', s);
      } else {
        DesugaringKeepsMeaning(sem, RhsOf(stmts[0]), env, env', s);
        ActionFirst(sem, parent, stmts, env, env', s);
      }
    }
  }

  lemma FirstOfGood(parent: Expr, stmts: seq<Stmt>)
    requires |stmts| > 1 && GoodStmts(parent, stmts)
    ensures stmts[0].SBind? ==> !stmts[0].pat.PLit?
    ensures stmts[0].SLet? ==> Readable(stmts[0].rhs)
    ensures forall i | 0 <= i < |stmts| :: RhsOf(stmts[i]) < parent
    ensures Fold(parent, stmts) == Chain(stmts[0], Desugared(RhsOf(stmts[0])), Fold(parent, stmts[1..]))
  {
  }

  lemma OneStatement(stmts: seq<Stmt>)
    requires |stmts| == 1 && GoodBlock(stmts)
    ensures stmts[0].SExpr?
  {
  }

  lemma {:induction false} LetThenRest<V, S>(sem: Sem<V, S>, parent: Expr, stmts: seq<Stmt>, env: map<Name, V>,
                                             env': map<Name, V>, s: S)
    requires |stmts| > 1 && GoodStmts(parent, stmts) && GoodStmts(parent, stmts[1..]) && Visible(env) == Visible(env')
    requires stmts[0].SLet?
    ensures RunAction(sem, Fold(parent, stmts), env', s) == RunStmts(sem, parent, stmts, env, s)
    decreases parent, 0, |stmts|, 0
  {
    var first := stmts[0];
    assert RhsOf(first) == first.rhs;
    hide *;
    FirstOfGood(parent, stmts);
    StmtsLet(sem, parent, stmts, env, s);
    ChainLet(sem, first, Desugared(RhsOf(first)), Fold(parent, stmts[1..]), env', s);
    ValueVisible(sem, first.rhs, env, env');
    var v := ValueOf(sem, first.rhs, env);
    if v.Some? {
      MatchedVisible(sem, first.pat, v.value, env, env');
      var inner, inner' := Matched(sem, first.pat, v.value, env), Matched(sem, first.pat, v.value, env');
      if inner.Some? { BlockKeepsMeaning(sem, parent, stmts[1..], inner.value, inner'.value, s); }
    }
  }

  /** What the chain does once the action of its first statement has given `v`. */
  function AfterAction<V, S>(sem: Sem<V, S>, first: Stmt, rest: Expr, v: V, env: map<Name, V>, s: S): Option<(V, S)>
    requires !first.SLet?
  {
    var chain := Chain(first, Unit, rest);
    RunAction(sem, chain.body, env[chain.param := v], s)
  }

  function AfterBind<V, S>(sem: Sem<V, S>, first: Stmt, v: V, env: map<Name, V>): Option<map<Name, V>> {
    if first.SBind? then Matched(sem, first.pat, v, env) else Some(env)
  }

  lemma {:induction false} ActionFirst<V, S>(sem: Sem<V, S>, parent: Expr, stmts: seq<Stmt>, env: map<Name, V>,
                                             env': map<Name, V>, s: S)
    requires |stmts| > 1 && GoodStmts(parent, stmts) && GoodStmts(parent, stmts[1..]) && Visible(env) == Visible(env')
    requires !stmts[0].SLet?
    requires RunAction(sem, Desugared(RhsOf(stmts[0])), env', s) == RunAction(sem, RhsOf(stmts[0]), env, s)
    ensures RunAction(sem, Fold(parent, stmts), env', s) == RunStmts(sem, parent, stmts, env, s)
    decreases parent, 0, |stmts|, 2
  {
    hide *;
    FirstOfGood(parent, stmts);
    ChainRuns(sem, stmts[0], Desugared(RhsOf(stmts[0])), Fold(parent, stmts[1..]), env', s);
    StmtsRun(sem, parent, stmts, env, s);
    var r := RunAction(sem, RhsOf(stmts[0]), env, s);
    if r.Some? { ActionThenRest(sem, parent, stmts, env, env', r.value.0, r.value.1); }
  }

  lemma ChainShape(first: Stmt, rhs: Expr, rest: Expr)
    requires !first.SLet?
    ensures Chain(first, rhs, rest) == Bind(rhs, Chain(first, Unit, rest).param, Chain(first, Unit, rest).body)
  {
  }

  lemma BindRuns<V, S>(sem: Sem<V, S>, e: Expr, env: map<Name, V>, s: S)
    requires e.Bind?
    ensures RunAction(sem, e, env, s) ==
              match RunAction(sem, e.rhs, env, s)
              case None => None
              case Some(r) => RunAction(sem, e.body, env[e.param := r.0], r.1)
  {
  }

  lemma ChainRuns<V, S>(sem: Sem<V, S>, first: Stmt, rhs: Expr, rest: Expr, env: map<Name, V>, s: S)
    requires !first.SLet?
    ensures RunAction(sem, Chain(first, rhs, rest), env, s) ==
              match RunAction(sem, rhs, env, s)
              case None => None
              case Some(r) => AfterAction(sem, first, rest, r.0, env, r.1)
  {
    hide RunAction, Chain;
    ChainShape(first, rhs, rest);
    ChainShape(first, Unit, rest);
    BindRuns(sem, Chain(first, rhs, rest), env, s);
  }

  lemma StmtsRun<V, S>(sem: Sem<V, S>, parent: Expr, stmts: seq<Stmt>, env: map<Name, V>, s: S)
    requires |stmts| > 1 && !stmts[0].SLet? && forall i | 0 <= i < |stmts| :: RhsOf(stmts[i]) < parent
    ensures RunStmts(sem, parent, stmts, env, s) ==
              match RunAction(sem, RhsOf(stmts[0]), env, s)
              case None => None
              case Some(r) =>
                var bound := AfterBind(sem, stmts[0], r.0, env);
                if bound.Some? then RunStmts(sem, parent, stmts[1..], bound.value, r.1) else None
  {
  }

  lemma StmtsLet<V, S>(sem: Sem<V, S>, parent: Expr, stmts: seq<Stmt>, env: map<Name, V>, s: S)
    requires |stmts| > 1 && stmts[0].SLet? && forall i | 0 <= i < |stmts| :: RhsOf(stmts[i]) < parent
    ensures RunStmts(sem, parent, stmts, env, s) ==
              match ValueOf(sem, stmts[0].rhs, env)
              case None => None
              case Some(v) =>
                var bound := Matched(sem, stmts[0].pat, v, env);
                if bound.Some? then RunStmts(sem, parent, stmts[1..], bound.value, s) else None
  {
    hide RunAction, ValueOf, Matched;
  }

  lemma ChainLet<V, S>(sem: Sem<V, S>, first: Stmt, rhs: Expr, rest: Expr, env: map<Name, V>, s: S)
    requires first.SLet?
    ensures RunAction(sem, Chain(first, rhs, rest), env, s) ==
              match ValueOf(sem, rhs, env)
              case None => None
              case Some(v) =>
                var bound := Matched(sem, first.pat, v, env);
                if bound.Some? then RunAction(sem, rest, bound.value, s) else None
  {
    hide ValueOf, Matched;
  }

  /** After a bind or a bare action, the rest of the block runs under the same visible bindings. */
  lemma {:induction false} ActionThenRest<V, S>(sem: Sem<V, S>, parent: Expr, stmts: seq<Stmt>, env: map<Name, V>,
                                                env': map<Name, V>, v: V, s: S)
    requires |stmts| > 1 && GoodStmts(parent, stmts[1..]) && Visible(env) == Visible(env') && !stmts[0].SLet?
    requires stmts[0].SBind? ==> !stmts[0].pat.PLit?
    ensures AfterAction(sem, stmts[0], Fold(parent, stmts[1..]), v, env', s) ==
              var bound := AfterBind(sem, stmts[0], v, env);
              if bound.Some? then RunStmts(sem, parent, stmts[1..], bound.value, s) else None
    decreases parent, 0, |stmts|, 1
  {
    hide Desugared, Fold, WellFormed, Source, Visible, Children, GoodBlock, RunStmts, GoodStmts, RhsOf, ValueOf, Temp, IsTemp;
    var (rest, first) := (stmts[1..], stmts[0]);
    if first.SBind? && first.pat.PTuple? {
      TupleThenRest(sem, parent, stmts, env, env', v, s);
    } else if first.SBind? && first.pat.PVar? {
      BindVisible(env, env', first.pat.name, v);
      BlockKeepsMeaning(sem, parent, rest, env[first.pat.name := v], env'[first.pat.name := v], s);
    } else {
      Underscore();
      BindVisible(env', env', "_", v);
      BlockKeepsMeaning(sem, parent, rest, env, env'["_" := v], s);
    }
  }

  lemma Underscore()
    ensures IsTemp("_")
  {
  }

  lemma {:induction false} TupleThenRest<V, S>(sem: Sem<V, S>, parent: Expr, stmts: seq<Stmt>, env: map<Name, V>,
                                               env': map<Name, V>, v: V, s: S)
    requires |stmts| > 1 && GoodStmts(parent, stmts[1..]) && Visible(env) == Visible(env')
    requires stmts[0].SBind? && stmts[0].pat.PTuple?
    ensures AfterAction(sem, stmts[0], Fold(parent, stmts[1..]), v, env', s) ==
              var bound := Matched(sem, stmts[0].pat, v, env);
              if bound.Some? then RunStmts(sem, parent, stmts[1..], bound.value, s) else None
    decreases parent, 0, |stmts|, 0
  {
    hide Desugared, Fold, WellFormed, Source, Visible, Children, GoodBlock, RunStmts, GoodStmts, RhsOf, ValueOf, Matched, Temp;
    var (rest, first) := (stmts[1..], stmts[0]);
    var bound := env'[Temp(first.at) := v];
    BindVisible(env', env', Temp(first.at), v);
    MatchedVisible(sem, first.pat, v, env, bound);
    TempIsRead(sem, first.at, env', v);
    var inner, inner' := Matched(sem, first.pat, v, env), Matched(sem, first.pat, v, bound);
    if inner.Some? { BlockKeepsMeaning(sem, parent, rest, inner.value, inner'.value, s); }
  }

  lemma TempIsRead<V, S>(sem: Sem<V, S>, at: nat, env: map<Name, V>, v: V)
    ensures ValueOf(sem, Var(Temp(at)), env[Temp(at) := v]) == Some(v)
  {
    assert Desugared(Var(Temp(at))) == Var(Temp(at));
  }
}
