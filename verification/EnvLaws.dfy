/** Evaluation and substitution read an environment only at the names an expression mentions. */
module EnvLaws {
  import opened Ast
  import opened Classical
  import opened CircuitForms

  // ── Names ──────────────────────────────────────────────────────────────────

  /** The names in `e`, wherever elaboration, evaluation or substitution can come upon them. */
  function Mentions(e: Expr): set<Name>
    decreases e, 1
  {
    match e
    case Var(name) => {name}
    case App(f, x) => Mentions(f) + Mentions(x)
    case Bin(_, l, r) => Mentions(l) + Mentions(r)
    case Neg(x) => Mentions(x)
    case Let(_, rhs, body) => Mentions(rhs) + Mentions(body)
    case If(cond, thn, els) => Mentions(cond) + Mentions(thn) + Mentions(els)
    case Match(s, arms) => Mentions(s) + MentionsArms(arms)
    case For(_, iter, body) => Mentions(iter) + Mentions(body)
    case Tuple(items) => MentionsAll(items)
    case List(items) => MentionsAll(items)
    case CircuitBlock(stmts) => MentionsStmts(stmts)
    case Compose(l, r) => Mentions(l) + Mentions(r)
    case Par(body, count) => Mentions(body) + Mentions(count)
    case ParN(items) => MentionsAll(items)
    case Adjoint(x) => Mentions(x)
    case Controlled(x) => Mentions(x)
    case GateApp(g, q) => Mentions(g) + Mentions(q)
    case _ => {}
  }

  function MentionsAll(es: seq<Expr>): set<Name>
    decreases es, 0
  {
    if es == [] then {} else Mentions(es[0]) + MentionsAll(es[1..])
  }

  function MentionsArm(arm: Arm): set<Name>
    decreases arm, 0
  {
    Mentions(arm.body)
  }

  function MentionsArms(arms: seq<Arm>): set<Name>
    decreases arms, 0
  {
    if arms == [] then {} else MentionsArm(arms[0]) + MentionsArms(arms[1..])
  }

  function MentionsStmt(s: Stmt): set<Name>
    decreases s, 0
  {
    match s
    case SBind(_, _, rhs) => Mentions(rhs)
    case SLet(_, rhs) => Mentions(rhs)
    case SExpr(e) => Mentions(e)
  }

  function MentionsStmts(ss: seq<Stmt>): set<Name>
    decreases ss, 0
  {
    if ss == [] then {} else MentionsStmt(ss[0]) + MentionsStmts(ss[1..])
  }

  lemma {:induction false} ItemMentions(es: seq<Expr>, i: nat)
    requires i < |es|
    ensures Mentions(es[i]) <= MentionsAll(es)
  {
    if i > 0 { ItemMentions(es[1..], i - 1); }
  }

  lemma {:induction false} AllMention(es: seq<Expr>, names: set<Name>)
    requires forall i | 0 <= i < |es| :: Mentions(es[i]) <= names
    ensures MentionsAll(es) <= names
  {
    if es != [] { AllMention(es[1..], names); }
  }

  lemma {:induction false} PrefixMentions(es: seq<Expr>, n: nat)
    requires n <= |es|
    ensures MentionsAll(es[..n]) <= MentionsAll(es)
  {
    if n > 0 {
      assert es[..n][1..] == es[1..][..n - 1];
      PrefixMentions(es[1..], n - 1);
    }
  }

  lemma {:induction false} StmtsPrefix(ss: seq<Stmt>, n: nat)
    requires n < |ss|
    ensures MentionsStmts(ss[..n]) <= MentionsStmts(ss) && MentionsStmt(ss[n]) <= MentionsStmts(ss)
  {
    if n > 0 {
      assert ss[..n][1..] == ss[1..][..n - 1];
      StmtsPrefix(ss[1..], n - 1);
    }
  }

  /** The parts of a call mention what the call mentions. */
  lemma {:induction false} SpineMentions(f: Expr, x: Expr)
    ensures var (head, args) := FlattenApp(f, x);
            Mentions(head) <= Mentions(f) + Mentions(x) && MentionsAll(args) <= Mentions(f) + Mentions(x)
    decreases f
  {
    if f.App? {
      var (head, args) := FlattenApp(f.fn, f.arg);
      SpineMentions(f.fn, f.arg);
      MentionsConcat(args, [x]);
      assert MentionsAll([x]) == Mentions(x) + MentionsAll([]);
    } else {
      assert MentionsAll([x]) == Mentions(x) + MentionsAll([]);
    }
  }

  lemma {:induction false} MentionsConcat(a: seq<Expr>, b: seq<Expr>)
    ensures MentionsAll(a + b) == MentionsAll(a) + MentionsAll(b)
  {
    if a == [] {
      assert a + b == b;
    } else {
      assert (a + b)[1..] == a[1..] + b;
      MentionsConcat(a[1..], b);
    }
  }

  // ── Environments ───────────────────────────────────────────────────────────

  /** The two environments bind the names alike. */
  ghost predicate SameOn(a: Env, b: Env, names: set<Name>) {
    forall n | n in names :: (n in a <==> n in b) && (n in a ==> a[n] == b[n])
  }

  ghost predicate SameBinding(a: Res<Env>, b: Res<Env>, names: set<Name>) {
    if a.Ok? then b.Ok? && SameOn(a.value, b.value, names) else a == b
  }

  lemma {:induction false} BindSame(pat: Pat, v: Value, a: Env, b: Env, names: set<Name>)
    requires SameOn(a, b, names)
    ensures SameBinding(BindPat(pat, v, a), BindPat(pat, v, b), names)
    decreases pat, 1
  {
    if pat.PTuple? && v.VTuple? && |pat.pats| == |v.items| { BindAllSame(pat.pats, v.items, a, b, names); }
  }

  lemma {:induction false} BindAllSame(pats: seq<Pat>, vs: seq<Value>, a: Env, b: Env, names: set<Name>)
    requires SameOn(a, b, names) && |pats| == |vs|
    ensures SameBinding(BindPats(pats, vs, a), BindPats(pats, vs, b), names)
    decreases pats, 0
  {
    if pats != [] {
      hide BindPat;
      BindSame(pats[0], vs[0], a, b, names);
      if BindPat(pats[0], vs[0], a).Ok? {
        BindAllSame(pats[1..], vs[1..], BindPat(pats[0], vs[0], a).value, BindPat(pats[0], vs[0], b).value, names);
      }
    }
  }

  ghost predicate SameChoice(a: ArmChoice, b: ArmChoice, arms: seq<Arm>, names: set<Name>) {
    if a.Chosen? then b.Chosen? && a.body == b.body && SameOn(a.env, b.env, names) && Mentions(a.body) <= MentionsArms(arms)
    else a == b
  }

  lemma FirstArm(arms: seq<Arm>)
    requires arms != []
    ensures MentionsArms(arms) == Mentions(arms[0].body) + MentionsArms(arms[1..])
  {
  }

  lemma {:induction false} ClassicalArmSame(arms: seq<Arm>, v: Value, a: Env, b: Env, names: set<Name>)
    requires SameOn(a, b, names)
    ensures SameChoice(ClassicalArm(arms, v, a), ClassicalArm(arms, v, b), arms, names)
  {
    hide Mentions, MentionsArms, MentionsArm, SameOn;
    if arms != [] {
      FirstArm(arms);
      ClassicalArmSame(arms[1..], v, a, b, names);
      if arms[0].pat.PVar? { BindSame(arms[0].pat, v, a, b, names); }
    }
  }

  lemma {:induction false} CircuitArmSame(arms: seq<Arm>, v: Value, a: Env, b: Env, names: set<Name>)
    requires SameOn(a, b, names)
    ensures SameChoice(CircuitArm(arms, v, a), CircuitArm(arms, v, b), arms, names)
  {
    hide Mentions, MentionsArms, MentionsArm, SameOn;
    if arms != [] {
      FirstArm(arms);
      CircuitArmSame(arms[1..], v, a, b, names);
      if arms[0].pat.PVar? { BindSame(arms[0].pat, v, a, b, names); }
    }
  }

  // ── Evaluation ─────────────────────────────────────────────────────────────

  /** `eval_classical` reads only the names the expression mentions. */
  lemma {:induction false} EvalSame(ops: Ops, e: Expr, a: Env, b: Env, fuel: nat, names: set<Name>)
    requires SameOn(a, b, names) && Mentions(e) <= names
    ensures Eval(ops, e, a, fuel) == Eval(ops, e, b, fuel)
    decreases fuel, 0
  {
    hide Mentions, EvalNode;
    if fuel > 0 { NodeSame(ops, e, a, b, fuel - 1, names); }
  }

  lemma {:induction false} NodeSame(ops: Ops, e: Expr, a: Env, b: Env, fuel: nat, names: set<Name>)
    requires SameOn(a, b, names) && Mentions(e) <= names
    ensures EvalNode(ops, e, a, fuel) == EvalNode(ops, e, b, fuel)
    decreases fuel, 4
  {
    hide EvalNode, Mentions;
    if e.Neg? || e.Bin? { OperatorSame(ops, e, a, b, fuel, names); }
    else if e.Let? || e.If? || e.Match? { BranchSame(ops, e, a, b, fuel, names); }
    else if e.Tuple? || e.List? || e.App? { ItemsSame(ops, e, a, b, fuel, names); }
    else { LeafSame(ops, e, a, b, fuel, names); }
  }

  lemma LeafSame(ops: Ops, e: Expr, a: Env, b: Env, fuel: nat, names: set<Name>)
    requires SameOn(a, b, names) && Mentions(e) <= names
    requires !(e.Neg? || e.Bin? || e.Let? || e.If? || e.Match? || e.Tuple? || e.List? || e.App?)
    ensures EvalNode(ops, e, a, fuel) == EvalNode(ops, e, b, fuel)
  {
    if e.Var? { assert e.name in names; }
  }

  lemma {:induction false} OperatorSame(ops: Ops, e: Expr, a: Env, b: Env, fuel: nat, names: set<Name>)
    requires SameOn(a, b, names) && Mentions(e) <= names && (e.Neg? || e.Bin?)
    ensures EvalNode(ops, e, a, fuel) == EvalNode(ops, e, b, fuel)
    decreases fuel, 2
  {
    hide Eval, EvalBinop, Negate;
    if e.Neg? {
      EvalSame(ops, e.inner, a, b, fuel, names);
    } else {
      EvalSame(ops, e.lhs, a, b, fuel, names);
      var l := Eval(ops, e.lhs, a, fuel);
      if l.Done? { EvalSame(ops, e.rhs, a, b, l.fuel, names); }
    }
  }

  lemma {:induction false} BranchSame(ops: Ops, e: Expr, a: Env, b: Env, fuel: nat, names: set<Name>)
    requires SameOn(a, b, names) && Mentions(e) <= names && (e.Let? || e.If? || e.Match?)
    ensures EvalNode(ops, e, a, fuel) == EvalNode(ops, e, b, fuel)
    decreases fuel, 2
  {
    hide Eval, BindPat, ClassicalArm, SameOn, MentionsArms;
    var first := if e.Let? then e.rhs else if e.If? then e.cond else e.scrutinee;
    EvalSame(ops, first, a, b, fuel, names);
    var r := Eval(ops, first, a, fuel);
    if r.Done? {
      if e.Let? {
        BindSame(e.pat, r.value, a, b, names);
        if BindPat(e.pat, r.value, a).Ok? {
          EvalSame(ops, e.body, BindPat(e.pat, r.value, a).value, BindPat(e.pat, r.value, b).value, r.fuel, names);
        }
      } else if e.If? {
        if r.value.VBool? { EvalSame(ops, if r.value.b then e.thn else e.els, a, b, r.fuel, names); }
      } else {
        ClassicalArmSame(e.arms, r.value, a, b, names);
        var (ca, cb) := (ClassicalArm(e.arms, r.value, a), ClassicalArm(e.arms, r.value, b));
        if ca.Chosen? { EvalSame(ops, ca.body, ca.env, cb.env, r.fuel, names); }
      }
    }
  }

  lemma {:induction false} ItemsSame(ops: Ops, e: Expr, a: Env, b: Env, fuel: nat, names: set<Name>)
    requires SameOn(a, b, names) && Mentions(e) <= names && (e.Tuple? || e.List? || e.App?)
    ensures EvalNode(ops, e, a, fuel) == EvalNode(ops, e, b, fuel)
    decreases fuel, 2
  {
    hide EvalSeq, FlattenApp, EvalBuiltin, SameOn, MentionsAll;
    if e.App? {
      SpineMentions(e.fn, e.arg);
      EvalSeqSame(ops, FlattenApp(e.fn, e.arg).1, a, b, fuel, names);
    } else {
      EvalSeqSame(ops, e.items, a, b, fuel, names);
    }
  }

  lemma {:induction false} EvalSeqSame(ops: Ops, es: seq<Expr>, a: Env, b: Env, fuel: nat, names: set<Name>)
    requires SameOn(a, b, names) && MentionsAll(es) <= names
    ensures EvalSeq(ops, es, a, fuel) == EvalSeq(ops, es, b, fuel)
    decreases fuel, 1, |es|
  {
    hide Eval, Mentions, SameOn;
    if es != [] {
      EvalSame(ops, es[0], a, b, fuel, names);
      var r := Eval(ops, es[0], a, fuel);
      if r.Done? { EvalSeqSame(ops, es[1..], a, b, r.fuel, names); }
    }
  }

  ghost predicate SameLets(a: Out<Env>, b: Out<Env>, names: set<Name>) {
    if a.Done? then b.Done? && a.fuel == b.fuel && SameOn(a.value, b.value, names) else a == b
  }

  lemma {:induction false} LetsSame(ops: Ops, ss: seq<Stmt>, a: Env, b: Env, fuel: nat, names: set<Name>)
    requires SameOn(a, b, names) && MentionsStmts(ss) <= names
    ensures SameLets(EvalLets(ops, ss, a, fuel), EvalLets(ops, ss, b, fuel), names)
    decreases |ss|
  {
    hide Eval, BindPat, Mentions, SameOn;
    if ss != [] && ss[0].SLet? {
      EvalSame(ops, ss[0].rhs, a, b, fuel, names);
      var r := Eval(ops, ss[0].rhs, a, fuel);
      if r.Done? {
        BindSame(ss[0].pat, r.value, a, b, names);
        if BindPat(ss[0].pat, r.value, a).Ok? {
          LetsSame(ops, ss[1..], BindPat(ss[0].pat, r.value, a).value, BindPat(ss[0].pat, r.value, b).value, r.fuel, names);
        }
      }
    }
  }

  // ── Substitution ───────────────────────────────────────────────────────────

  /** Substitution reads only the names the expression mentions, and adds none. */
  lemma {:induction false} SubstSame(ops: Ops, e: Expr, a: Env, b: Env, names: set<Name>)
    requires SameOn(a, b, names) && Mentions(e) <= names
    ensures Subst(ops, e, a) == Subst(ops, e, b) && Mentions(Subst(ops, e, a)) <= names
    decreases e, 2
  {
    hide Eval, SubstInside, SameOn, Mentions;
    EvalSame(ops, e, a, b, ops.probe, names);
    var r := Eval(ops, e, a, ops.probe);
    if r.Done? { ValueMentions(r.value); }
    else { InsideSame(ops, e, a, b, names); }
  }

  lemma {:induction false} ValueMentions(v: Value)
    ensures Mentions(ValueToExpr(v)) == {}
    decreases v
  {
    if v.VTuple? || v.VList? {
      var items := seq(|v.items|, i requires 0 <= i < |v.items| => ValueToExpr(v.items[i]));
      forall i | 0 <= i < |items| ensures Mentions(items[i]) <= {} { ValueMentions(v.items[i]); }
      AllMention(items, {});
    }
  }

  lemma {:induction false} InsideSame(ops: Ops, e: Expr, a: Env, b: Env, names: set<Name>)
    requires SameOn(a, b, names) && Mentions(e) <= names
    ensures SubstInside(ops, e, a) == SubstInside(ops, e, b) && Mentions(SubstInside(ops, e, a)) <= names
    decreases e, 1
  {
    hide *;
    if e.Neg? || e.Adjoint? || e.Controlled? { OneInside(ops, e, a, b, names); }
    else if e.Bin? || e.App? || e.Compose? || e.Par? || e.GateApp? { TwoInside(ops, e, a, b, names); }
    else if e.Tuple? || e.ParN? { AllInside(ops, e, a, b, names); }
    else { NoneInside(ops, e, a, b); }
  }

  lemma NoneInside(ops: Ops, e: Expr, a: Env, b: Env)
    requires !(e.Neg? || e.Adjoint? || e.Controlled? || e.Bin? || e.App? || e.Compose? || e.Par? || e.GateApp? || e.Tuple? || e.ParN?)
    ensures SubstInside(ops, e, a) == e && SubstInside(ops, e, b) == e
  {
    hide Subst;
  }

  lemma {:induction false} OneInside(ops: Ops, e: Expr, a: Env, b: Env, names: set<Name>)
    requires SameOn(a, b, names) && Mentions(e) <= names && (e.Neg? || e.Adjoint? || e.Controlled?)
    ensures SubstInside(ops, e, a) == SubstInside(ops, e, b) && Mentions(SubstInside(ops, e, a)) <= names
    decreases e, 0
  {
    hide Subst, SameOn, MentionsAll, MentionsArms, MentionsStmts;
    SubstSame(ops, e.inner, a, b, names);
  }

  lemma {:induction false} TwoInside(ops: Ops, e: Expr, a: Env, b: Env, names: set<Name>)
    requires SameOn(a, b, names) && Mentions(e) <= names && (e.Bin? || e.App? || e.Compose? || e.Par? || e.GateApp?)
    ensures SubstInside(ops, e, a) == SubstInside(ops, e, b) && Mentions(SubstInside(ops, e, a)) <= names
    decreases e, 0
  {
    hide Subst, SameOn, MentionsAll, MentionsArms, MentionsStmts;
    var (l, r) := if e.Bin? || e.Compose? then (e.lhs, e.rhs) else if e.App? then (e.fn, e.arg)
                  else if e.Par? then (e.body, e.count) else (e.gate, e.qubits);
    SubstSame(ops, l, a, b, names);
    SubstSame(ops, r, a, b, names);
  }

  lemma {:induction false} AllInside(ops: Ops, e: Expr, a: Env, b: Env, names: set<Name>)
    requires SameOn(a, b, names) && Mentions(e) <= names && (e.Tuple? || e.ParN?)
    ensures SubstInside(ops, e, a) == SubstInside(ops, e, b) && Mentions(SubstInside(ops, e, a)) <= names
    decreases e, 0
  {
    hide Subst, SameOn, MentionsAll, MentionsArms, MentionsStmts;
    SubstAllSame(ops, e.items, a, b, names);
  }

  function SubstAll(ops: Ops, es: seq<Expr>, env: Env): seq<Expr> {
    seq(|es|, i requires 0 <= i < |es| => Subst(ops, es[i], env))
  }

  lemma {:induction false} SubstAllSame(ops: Ops, es: seq<Expr>, a: Env, b: Env, names: set<Name>)
    requires SameOn(a, b, names) && MentionsAll(es) <= names
    ensures SubstAll(ops, es, a) == SubstAll(ops, es, b) && MentionsAll(SubstAll(ops, es, a)) <= names
    decreases es, 0
  {
    hide Subst, SameOn, Mentions;
    if es != [] {
      SubstSame(ops, es[0], a, b, names);
      SubstAllSame(ops, es[1..], a, b, names);
      assert SubstAll(ops, es, a) == [Subst(ops, es[0], a)] + SubstAll(ops, es[1..], a);
      assert SubstAll(ops, es, b) == [Subst(ops, es[0], b)] + SubstAll(ops, es[1..], b);
    }
  }
}
