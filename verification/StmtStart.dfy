/** A printed expression at the start of a line is not mistaken for the pattern of a bind. */
module StmtStart {
  import opened Ast
  import opened Tokens
  import opened NatGrammar
  import opened PatGrammar
  import opened TypeGrammar
  import opened TypeImage
  import opened ExprGrammar
  import opened ExprPrinter

  // ── Printed expressions keep their parentheses balanced ────────────────────

  lemma CloseGroup(ts: Tokens, k: Tokens, d: nat)
    requires d > 0
    ensures Close(Tok(LParen, ts), d) == Close(ts, d + 1) && Close(Tok(RParen, k), d + 1) == Close(k, d)
  {
  }

  lemma {:induction false} AtomCloses(e: Expr, k: Tokens, d: nat)
    requires d > 0
    ensures Close(PrintAtom(e, k), d) == Close(k, d)
    decreases e, 3
  {
    hide PrintExpr, Close;
    if Atomic(e) {
      ExprCloses(e, k, d);
    } else {
      ExprCloses(e, Tok(RParen, k), d + 1);
      CloseGroup(PrintExpr(e, Tok(RParen, k)), k, d);
    }
  }

  /** An expression in parentheses. */
  lemma {:induction false} GroupCloses(e: Expr, k: Tokens, d: nat)
    requires d > 0
    ensures Close(Tok(LParen, PrintExpr(e, Tok(RParen, k))), d) == Close(k, d)
    decreases e, 3
  {
    hide PrintExpr, Close;
    ExprCloses(e, Tok(RParen, k), d + 1);
    CloseGroup(PrintExpr(e, Tok(RParen, k)), k, d);
  }

  lemma {:induction false} ExprCloses(e: Expr, k: Tokens, d: nat)
    requires d > 0
    ensures Close(PrintExpr(e, k), d) == Close(k, d)
    decreases e, 2
  {
    hide PrintAtom, PrintPat, PrintType, PrintAngles, PrintExprs, PrintStmts, PrintArms, PrintBindings, PrintParams;
    match e
    case App(f, x) =>
      GroupCloses(x, k, d);
      AtomCloses(f, Tok(LParen, PrintExpr(x, Tok(RParen, k))), d);
    case TypeApp(callee, targs) =>
      AnglesClose(targs, k, d);
      AtomCloses(callee, PrintAngles(targs, k), d);
    case Bin(op, l, r) => PairCloses(OpSign(op), e, l, r, k, d);
    case Compose(l, r) => PairCloses(Pipe, e, l, r, k, d);
    case GateApp(g, q) => PairCloses(AtSign, e, g, q, k, d);
    case Neg(x) => AtomCloses(x, k, d);
    case Return(x) => AtomCloses(x, k, d);
    case Ascribe(x, t) =>
      TypeCloses(t, k, d);
      CloseSkips(ColonSign, PrintType(t, k), d);
      AtomCloses(x, Tok(ColonSign, PrintType(t, k)), d);
    case Adjoint(x) => GroupCloses(x, k, d);
    case Controlled(x) => GroupCloses(x, k, d);
    case Tuple(items) =>
      ExprsClose(items, Tok(RParen, k), d + 1);
      CloseGroup(PrintExprs(items, Tok(RParen, k)), k, d);
    case List(items) => ExprsClose(items, Tok(RBracket, k), d);
    case CircuitBlock(stmts) => BlockCloses(stmts, k, d);
    case RunBlock(stmts) => BlockCloses(stmts, k, d);
    case _ => KeywordCloses(e, k, d);
  }

  lemma {:induction false} PairCloses(sign: Token, e: Expr, l: Expr, r: Expr, k: Tokens, d: nat)
    requires d > 0 && l < e && r < e && !sign.LParen? && !sign.RParen?
    ensures Close(PrintAtom(l, Tok(sign, PrintAtom(r, k))), d) == Close(k, d)
    decreases e, 1
  {
    hide PrintAtom, Close;
    AtomCloses(r, k, d);
    CloseSkips(sign, PrintAtom(r, k), d);
    AtomCloses(l, Tok(sign, PrintAtom(r, k)), d);
  }

  lemma {:induction false} KeywordCloses(e: Expr, k: Tokens, d: nat)
    requires d > 0
    requires e.Int? || e.Float? || e.Bool? || e.Unit? || e.Var? || e.Lam? || e.Let? || e.If? || e.Match? || e.For? || e.Par?
             || e.ParN? || e.Borrow? || e.Bind?
    ensures Close(PrintExpr(e, k), d) == Close(k, d)
    decreases e, 1
  {
    hide PrintAtom, PrintPat, PrintType, PrintAngles, PrintExprs, PrintStmts, PrintArms, PrintBindings, PrintParams, FnOf, BindName;
    match e
    case Lam(params, body) => LamCloses(params, body, k, d);
    case Let(p, rhs, body) => LetCloses(p, rhs, body, k, d);
    case If(c, t, f) => IfCloses(c, t, f, k, d);
    case Match(s, arms) => MatchCloses(s, arms, k, d);
    case For(p, iter, body) => ForCloses(p, iter, body, k, d);
    case Par(body, count) => ParCloses(body, count, k, d);
    case ParN(items) =>
      ExprsClose(items, Tok(RBrace, k), d);
      CloseSkips(RBrace, k, d);
    case Borrow(bindings, stmts) => BorrowCloses(bindings, stmts, k, d);
    case Bind(rhs, param, body) => BindCloses(rhs, param, body, k, d);
    case _ =>
  }

  lemma {:induction false} LamCloses(params: seq<Param>, body: Expr, k: Tokens, d: nat)
    requires d > 0
    ensures Close(PrintExpr(Lam(params, body), k), d) == Close(k, d)
    decreases Lam(params, body), 0
  {
    hide PrintParams;
    var rest := Tok(RightArrow, PrintExpr(body, k));
    ExprCloses(body, k, d);
    CloseSkips(RightArrow, PrintExpr(body, k), d);
    ParamsClose(params, Tok(RParen, rest), d + 1);
    CloseGroup(PrintParams(params, Tok(RParen, rest)), rest, d);
  }

  lemma {:induction false} LetCloses(p: Pat, rhs: Expr, body: Expr, k: Tokens, d: nat)
    requires d > 0
    ensures Close(Tok(KLet, PrintPat(p, Tok(EqSign, PrintExpr(rhs, Tok(KIn, PrintExpr(body, k)))))), d) == Close(k, d)
    decreases Let(p, rhs, body), 0
  {
    hide PrintExpr, PrintPat, Close;
    var rest := PrintExpr(rhs, Tok(KIn, PrintExpr(body, k)));
    CloseSkips(KLet, PrintPat(p, Tok(EqSign, rest)), d);
    ExprCloses(body, k, d);
    CloseSkips(KIn, PrintExpr(body, k), d);
    ExprCloses(rhs, Tok(KIn, PrintExpr(body, k)), d);
    CloseSkips(EqSign, rest, d);
    PatCloses(p, Tok(EqSign, rest), d);
  }

  lemma {:induction false} IfCloses(c: Expr, t: Expr, f: Expr, k: Tokens, d: nat)
    requires d > 0
    ensures Close(Tok(KIf, PrintExpr(c, Tok(KThen, PrintExpr(t, Tok(KElse, PrintExpr(f, k)))))), d) == Close(k, d)
    decreases If(c, t, f), 0
  {
    hide PrintExpr, Close;
    var rest := Tok(KElse, PrintExpr(f, k));
    CloseSkips(KIf, PrintExpr(c, Tok(KThen, PrintExpr(t, rest))), d);
    ExprCloses(f, k, d);
    CloseSkips(KElse, PrintExpr(f, k), d);
    ExprCloses(t, rest, d);
    CloseSkips(KThen, PrintExpr(t, rest), d);
    ExprCloses(c, Tok(KThen, PrintExpr(t, rest)), d);
  }

  lemma {:induction false} MatchCloses(s: Expr, arms: seq<Arm>, k: Tokens, d: nat)
    requires d > 0
    ensures Close(Tok(KMatch, PrintAtom(s, Tok(LBrace, Tok(Newline, PrintArms(arms, k))))), d) == Close(k, d)
    decreases Match(s, arms), 0
  {
    hide PrintAtom, PrintArms;
    ArmsClose(arms, k, d);
    CloseSkips(Newline, PrintArms(arms, k), d);
    AtomCloses(s, Tok(LBrace, Tok(Newline, PrintArms(arms, k))), d);
  }

  lemma {:induction false} ForCloses(p: Pat, iter: Expr, body: Expr, k: Tokens, d: nat)
    requires d > 0
    ensures Close(Tok(KFor, PrintPat(p, Tok(KIn, PrintAtom(iter, Tok(LBrace, PrintExpr(body, Tok(RBrace, k))))))), d) == Close(k, d)
    decreases For(p, iter, body), 0
  {
    hide PrintAtom, PrintExpr, PrintPat, Close;
    var rest := PrintAtom(iter, Tok(LBrace, PrintExpr(body, Tok(RBrace, k))));
    CloseSkips(KFor, PrintPat(p, Tok(KIn, rest)), d);
    PatCloses(p, Tok(KIn, rest), d);
    CloseSkips(KIn, rest, d);
    ForBodyCloses(For(p, iter, body), k, d);
  }

  lemma {:induction false} ForBodyCloses(e: Expr, k: Tokens, d: nat)
    requires d > 0 && e.For?
    ensures Close(PrintAtom(e.iter, Tok(LBrace, PrintExpr(e.body, Tok(RBrace, k)))), d) == Close(k, d)
    decreases e, 0, 0
  {
    hide *;
    var inner := PrintExpr(e.body, Tok(RBrace, k));
    AtomCloses(e.iter, Tok(LBrace, inner), d);
    CloseSkips(LBrace, inner, d);
    ExprCloses(e.body, Tok(RBrace, k), d);
    CloseSkips(RBrace, k, d);
  }

  lemma {:induction false} ParCloses(body: Expr, count: Expr, k: Tokens, d: nat)
    requires d > 0
    ensures Close(Tok(KPar, Tok(LBrace, PrintExpr(body, Tok(RBrace, Tok(StarSign, PrintAtom(count, k)))))), d) == Close(k, d)
    decreases Par(body, count), 0
  {
    hide PrintAtom, PrintExpr, Close;
    var rest := Tok(StarSign, PrintAtom(count, k));
    CloseSkips(KPar, Tok(LBrace, PrintExpr(body, Tok(RBrace, rest))), d);
    AtomCloses(count, k, d);
    CloseSkips(StarSign, PrintAtom(count, k), d);
    CloseSkips(RBrace, rest, d);
    ExprCloses(body, Tok(RBrace, rest), d);
    CloseSkips(LBrace, PrintExpr(body, Tok(RBrace, rest)), d);
  }

  lemma {:induction false} BorrowCloses(bindings: seq<Binding>, stmts: seq<Stmt>, k: Tokens, d: nat)
    requires d > 0
    ensures Close(Tok(KBorrow, PrintBindings(bindings, Tok(KIn, Tok(LBrace, Tok(Newline, PrintStmts(stmts, k)))))), d) == Close(k, d)
    decreases Borrow(bindings, stmts), 0
  {
    hide PrintBindings, PrintStmts;
    var block := Tok(LBrace, Tok(Newline, PrintStmts(stmts, k)));
    BlockCloses(stmts, k, d);
    CloseSkips(KIn, block, d);
    BindingsClose(bindings, Tok(KIn, block), d);
  }

  lemma {:induction false} BindCloses(rhs: Expr, param: Name, body: Expr, k: Tokens, d: nat)
    requires d > 0
    ensures var fn := FnOf(param, PrintExpr(body, Tok(RParen, k)));
            Close(Tok(IdentToken(BindName()), Tok(LParen, PrintExpr(rhs, Tok(CommaSign, fn)))), d) == Close(k, d)
    decreases Bind(rhs, param, body), 0
  {
    hide BindName, PrintExpr, FnOf, Close;
    var inner := PrintExpr(body, Tok(RParen, k));
    var fn := FnOf(param, inner);
    ExprCloses(body, Tok(RParen, k), d + 1);
    FnCloses(param, inner, d + 1);
    CloseSkips(CommaSign, fn, d + 1);
    ExprCloses(rhs, Tok(CommaSign, fn), d + 1);
    CloseGroup(PrintExpr(rhs, Tok(CommaSign, fn)), k, d);
    CloseSkips(IdentToken(BindName()), Tok(LParen, PrintExpr(rhs, Tok(CommaSign, fn))), d);
  }

  lemma FnCloses(param: Name, inner: Tokens, d: nat)
    requires d > 0
    ensures Close(FnOf(param, inner), d) == Close(inner, d)
  {
    var rest := Tok(RightArrow, inner);
    CloseSkips(RightArrow, inner, d);
    CloseSkips(IdentToken(param), Tok(RParen, rest), d + 1);
    CloseGroup(Tok(IdentToken(param), Tok(RParen, rest)), rest, d);
  }

  lemma {:induction false} BlockCloses(stmts: seq<Stmt>, k: Tokens, d: nat)
    requires d > 0
    ensures Close(Tok(LBrace, Tok(Newline, PrintStmts(stmts, k))), d) == Close(k, d)
    decreases stmts, 1
  {
    hide PrintStmts;
    StmtsClose(stmts, k, d);
    CloseSkips(Newline, PrintStmts(stmts, k), d);
  }

  lemma {:induction false} ExprsClose(es: seq<Expr>, k: Tokens, d: nat)
    requires d > 0
    ensures Close(PrintExprs(es, k), d) == Close(k, d) && Close(PrintMoreExprs(es, k), d) == Close(k, d)
    decreases es, 0
  {
    hide PrintExpr;
    if es != [] {
      ExprCloses(es[0], PrintMoreExprs(es[1..], k), d);
      ExprsClose(es[1..], k, d);
    }
  }

  lemma {:induction false} StmtsClose(ss: seq<Stmt>, k: Tokens, d: nat)
    requires d > 0
    ensures Close(PrintStmts(ss, k), d) == Close(k, d)
    decreases ss, 0
  {
    hide PrintStmt;
    if ss != [] {
      var rest := PrintStmts(ss[1..], k);
      StmtsClose(ss[1..], k, d);
      CloseSkips(Newline, rest, d);
      StmtCloses(ss[0], Tok(Newline, rest), d);
    }
  }

  lemma {:induction false} StmtCloses(s: Stmt, k: Tokens, d: nat)
    requires d > 0
    ensures Close(PrintStmt(s, k), d) == Close(k, d)
    decreases s, 0
  {
    hide PrintExpr, PrintPat;
    match s
    case SBind(p, _, rhs) =>
      ExprCloses(rhs, k, d);
      CloseSkips(LeftArrow, PrintExpr(rhs, k), d);
      PatCloses(p, Tok(LeftArrow, PrintExpr(rhs, k)), d);
    case SLet(p, rhs) =>
      ExprCloses(rhs, k, d);
      CloseSkips(EqSign, PrintExpr(rhs, k), d);
      PatCloses(p, Tok(EqSign, PrintExpr(rhs, k)), d);
    case SExpr(e) => ExprCloses(e, k, d);
  }

  lemma {:induction false} ArmsClose(arms: seq<Arm>, k: Tokens, d: nat)
    requires d > 0
    ensures Close(PrintArms(arms, k), d) == Close(k, d) && Close(PrintMoreArms(arms, k), d) == Close(k, d)
    decreases arms, 0
  {
    hide PrintArm;
    if arms != [] {
      var rest := PrintMoreArms(arms[1..], k);
      ArmsClose(arms[1..], k, d);
      ArmCloses(arms[0], rest, d);
      CloseSkips(Newline, PrintArm(arms[0], rest), d);
    }
  }

  lemma {:induction false} ArmCloses(arm: Arm, k: Tokens, d: nat)
    requires d > 0
    ensures Close(PrintArm(arm, k), d) == Close(k, d)
    decreases arm, 0
  {
    hide PrintExpr, PrintPat;
    ExprCloses(arm.body, k, d);
    CloseSkips(FatArrow, PrintExpr(arm.body, k), d);
    PatCloses(arm.pat, Tok(FatArrow, PrintExpr(arm.body, k)), d);
  }

  lemma {:induction false} ParamsClose(ps: seq<Param>, k: Tokens, d: nat)
    requires d > 0
    ensures Close(PrintParams(ps, k), d) == Close(k, d) && Close(PrintMoreParams(ps, k), d) == Close(k, d)
  {
    hide PrintParam;
    if ps != [] {
      ParamCloses(ps[0], PrintMoreParams(ps[1..], k), d);
      ParamsClose(ps[1..], k, d);
    }
  }

  lemma ParamCloses(p: Param, k: Tokens, d: nat)
    requires d > 0
    ensures Close(PrintParam(p, k), d) == Close(k, d)
  {
    hide PrintType, PrintPat;
    match p.ty
    case Some(t) =>
      TypeCloses(t, k, d);
      CloseSkips(ColonSign, PrintType(t, k), d);
      PatCloses(p.pat, Tok(ColonSign, PrintType(t, k)), d);
    case None => PatCloses(p.pat, k, d);
  }

  lemma {:induction false} BindingsClose(bs: seq<Binding>, k: Tokens, d: nat)
    requires d > 0
    ensures Close(PrintBindings(bs, k), d) == Close(k, d) && Close(PrintMoreBindings(bs, k), d) == Close(k, d)
  {
    hide PrintBinding;
    if bs != [] {
      BindingCloses(bs[0], PrintMoreBindings(bs[1..], k), d);
      BindingsClose(bs[1..], k, d);
    }
  }

  lemma BindingCloses(b: Binding, k: Tokens, d: nat)
    requires d > 0
    ensures Close(PrintBinding(b, k), d) == Close(k, d)
  {
    hide PrintType;
    TypeCloses(b.ty, k, d);
    CloseSkips(ColonSign, PrintType(b.ty, k), d);
  }

  // ── No bind ────────────────────────────────────────────────────────────────

  /** `k` does not go on with `<-`. */
  predicate NoArrowHead(k: Tokens) {
    !Starts(k, LeftArrow)
  }

  /** A pattern parse of a printed operand is refused, or takes exactly the operand. */
  lemma PatternOnAtom(e: Expr, k: Tokens)
    ensures var r := ParsePat(PrintAtom(e, k)); r.Yes? ==> r.rest == k
  {
    hide PrintExpr, ParsePat;
    if Atomic(e) {
      PatternOnBare(e, k);
    } else {
      PatternOnGroup(PrintExpr(e, Tok(RParen, k)), k) by {
        ExprCloses(e, Tok(RParen, k), 1);
      }
    }
  }

  lemma PatternOnGroup(inner: Tokens, k: Tokens)
    requires Close(inner, 1) == Close(Tok(RParen, k), 1)
    ensures var r := ParsePat(Tok(LParen, inner)); r.Yes? ==> r.rest == k
  {
    hide ParsePat;
    if ParsePat(Tok(LParen, inner)).Yes? { GroupEnds(Tok(LParen, inner)); }
  }

  lemma PatternOnBare(e: Expr, k: Tokens)
    requires Atomic(e)
    ensures var r := ParsePat(PrintExpr(e, k)); r.Yes? ==> r.rest == k
  {
    hide PrintExprs, PrintStmts, PrintArms, PrintBindings, PrintPat, PrintAtom, PatList, Close;
    if e.Tuple? {
      ExprsClose(e.items, Tok(RParen, k), 1);
      PatternOnGroup(PrintExprs(e.items, Tok(RParen, k)), k);
    } else if e.Unit? {
      PatternOnGroup(Tok(RParen, k), k);
    }
  }

  /** No pattern that starts an expression ends at an arrow. */
  predicate NoPatternArrow(ts: Tokens) { ParsePat(ts).Yes? ==> NoArrowHead(ParsePat(ts).rest) }

  lemma NoArrowNoBind(ts: Tokens)
    requires NoPatternArrow(ts)
    ensures ParseBind(ts).No?
  {
    hide ParsePat, ParseExpr;
  }

  lemma OperatorNoPattern(e: Expr, k: Tokens)
    requires e.App? || e.TypeApp? || e.Bin? || e.Compose? || e.GateApp? || e.Ascribe?
    ensures NoPatternArrow(PrintExpr(e, k))
  {
    hide PrintAtom, ParsePat, PrintType, PrintAngles;
    match e
    case App(f, x) => PatternOnAtom(f, Tok(LParen, PrintExpr(x, Tok(RParen, k))));
    case TypeApp(callee, targs) => PatternOnAtom(callee, PrintAngles(targs, k)); AnglesHead(targs, k);
    case Bin(op, l, r) => PatternOnAtom(l, Tok(OpSign(op), PrintAtom(r, k)));
    case Compose(l, r) => PatternOnAtom(l, Tok(Pipe, PrintAtom(r, k)));
    case GateApp(g, q) => PatternOnAtom(g, Tok(AtSign, PrintAtom(q, k)));
    case Ascribe(x, t) => PatternOnAtom(x, Tok(ColonSign, PrintType(t, k)));
  }

  lemma KeywordNoArrow(e: Expr, k: Tokens)
    requires !Atomic(e) && !(e.App? || e.TypeApp? || e.Bin? || e.Compose? || e.GateApp? || e.Ascribe?)
    ensures NoPatternArrow(PrintExpr(e, k))
  {
    hide PrintAtom, PrintPat, ParsePat, PrintType, PrintAngles, PrintExprs, PrintStmts, PrintArms, PrintBindings, PrintParams, BindName;
    KeywordNoPattern(PrintExpr(e, k));
  }

  /** At the start of a line a printed expression is never read as a bind. */
  lemma BindRefused(e: Expr, k: Tokens)
    requires NoArrowHead(k)
    ensures ParseBind(PrintExpr(e, k)).No?
  {
    hide ParseBind, PrintExpr, ParsePat, NoArrowHead;
    if Atomic(e) { PatternOnBare(e, k); }
    else if e.App? || e.TypeApp? || e.Bin? || e.Compose? || e.GateApp? || e.Ascribe? { OperatorNoPattern(e, k); }
    else { KeywordNoArrow(e, k); }
    NoArrowNoBind(PrintExpr(e, k));
  }

  lemma AnglesHead(ns: seq<NatExpr>, k: Tokens)
    ensures Starts(PrintAngles(ns, k), LAngle)
  {
  }

  lemma KeywordNoPattern(ts: Tokens)
    requires ts.Tok?
    ensures ts.head.KFn? || ts.head.KLet? || ts.head.KIf? || ts.head.KReturn? || ts.head.KPar? || ts.head.MinusSign? ==> ParsePat(ts).No?
    ensures ts.head.IdentToken? ==> ParsePat(ts) == Yes(PVar(ts.head.name), ts.tail)
  {
  }
}
