/** The exact condition for an expression to survive printing and parsing. */
module ExprReread {
  import opened Ast
  import opened Tokens
  import opened NatGrammar
  import opened PatGrammar
  import opened TypeGrammar
  import opened TypeRoundTrip
  import opened ExprGrammar
  import opened ExprPrinter
  import opened ExprRoundTrip
  import opened ExprImage

  // ── What a printed tree reads as ───────────────────────────────────────────

  function RereadParam(p: Param): Param {
    Param(p.pat, if p.ty.Some? then Some(Reread(p.ty.value)) else None)
  }

  function RereadBinding(b: Binding): Binding {
    Binding(b.name, Reread(b.ty))
  }

  function RereadStmt(s: Stmt): Stmt {
    match s
    case SBind(p, at, rhs) => SBind(p, at, RereadExpr(rhs))
    case SLet(p, rhs) => SLet(p, RereadExpr(rhs))
    case SExpr(e) => SExpr(RereadExpr(e))
  }

  /** The expression with every type in it replaced by the type its text reads as. */
  function RereadExpr(e: Expr): Expr {
    match e
    case Lam(params, body) => Lam(RereadParams(params), RereadExpr(body))
    case App(f, x) => App(RereadExpr(f), RereadExpr(x))
    case TypeApp(callee, targs) => TypeApp(RereadExpr(callee), targs)
    case Bin(op, l, r) => Bin(op, RereadExpr(l), RereadExpr(r))
    case Neg(x) => Neg(RereadExpr(x))
    case Let(p, rhs, body) => Let(p, RereadExpr(rhs), RereadExpr(body))
    case If(c, t, f) => If(RereadExpr(c), RereadExpr(t), RereadExpr(f))
    case Match(s, arms) => Match(RereadExpr(s), RereadArms(arms))
    case For(p, iter, body) => For(p, RereadExpr(iter), RereadExpr(body))
    case Tuple(items) => Tuple(RereadExprs(items))
    case List(items) => List(RereadExprs(items))
    case CircuitBlock(stmts) => CircuitBlock(RereadStmts(stmts))
    case RunBlock(stmts) => RunBlock(RereadStmts(stmts))
    case Compose(l, r) => Compose(RereadExpr(l), RereadExpr(r))
    case Par(body, count) => Par(RereadExpr(body), RereadExpr(count))
    case ParN(items) => ParN(RereadExprs(items))
    case Adjoint(x) => Adjoint(RereadExpr(x))
    case Controlled(x) => Controlled(RereadExpr(x))
    case GateApp(g, q) => GateApp(RereadExpr(g), RereadExpr(q))
    case Return(x) => Return(RereadExpr(x))
    case Borrow(bindings, stmts) => Borrow(RereadBindings(bindings), RereadStmts(stmts))
    case Ascribe(x, t) => Ascribe(RereadExpr(x), Reread(t))
    case _ => e
  }

  function RereadExprs(es: seq<Expr>): (r: seq<Expr>)
    ensures |r| == |es|
  {
    if es == [] then [] else [RereadExpr(es[0])] + RereadExprs(es[1..])
  }

  function RereadStmts(ss: seq<Stmt>): (r: seq<Stmt>)
    ensures |r| == |ss|
  {
    if ss == [] then [] else [RereadStmt(ss[0])] + RereadStmts(ss[1..])
  }

  function RereadArms(arms: seq<Arm>): (r: seq<Arm>)
    ensures |r| == |arms|
  {
    if arms == [] then [] else [RereadArm(arms[0])] + RereadArms(arms[1..])
  }

  function RereadArm(arm: Arm): Arm {
    Arm(arm.pat, RereadExpr(arm.body))
  }

  function RereadParams(ps: seq<Param>): (r: seq<Param>)
    ensures |r| == |ps|
  {
    if ps == [] then [] else [RereadParam(ps[0])] + RereadParams(ps[1..])
  }

  function RereadBindings(bs: seq<Binding>): (r: seq<Binding>)
    ensures |r| == |bs|
  {
    if bs == [] then [] else [RereadBinding(bs[0])] + RereadBindings(bs[1..])
  }

  // ── It holds no clash ──────────────────────────────────────────────────────

  lemma {:induction false} SettledType(t: Type)
    requires SourceType(t)
    ensures SourceType(Reread(t)) && !HasClash(Reread(t))
  {
    hide Clashes, Shadowed;
    match t
    case TList(u) => SettledType(u);
    case TQ(u) => SettledType(u);
    case TMatrix(_, _, u) => SettledType(u);
    case TQecBlock(u, _) => SettledType(u);
    case TFn(a, b) => SettledType(a); SettledType(b);
    case TLinear(a, b) => SettledType(a); SettledType(b);
    case TTuple(ts) =>
      forall i | 0 <= i < |ts| ensures SourceType(Reread(ts[i])) && !HasClash(Reread(ts[i])) { SettledType(ts[i]); }
    case TNamed(name, args) => NamedSettles(name, args);
    case _ =>
  }

  lemma NamedSettles(name: Name, args: seq<NatExpr>)
    requires SourceType(TNamed(name, args))
    ensures SourceType(Reread(TNamed(name, args))) && !HasClash(Reread(TNamed(name, args)))
  {
    hide FormerOf, Shadowed;
  }

  lemma {:induction false} Settled(e: Expr)
    requires SourceExpr(e, false)
    ensures SourceExpr(RereadExpr(e), true)
    decreases e, 2
  {
    hide SourceExpr, RereadExpr;
    if e.App? || e.Par? || e.GateApp? { SettledPair(e); }
    else if e.Bin? || e.Compose? { SettledOperator(e); }
    else if e.Let? || e.For? || e.If? { SettledBinder(e); }
    else if e.Tuple? || e.List? || e.ParN? || e.CircuitBlock? || e.RunBlock? { SettledList(e); }
    else if e.Lam? || e.Match? || e.Borrow? || e.Ascribe? { SettledTyped(e); }
    else if e.TypeApp? || e.Neg? || e.Adjoint? || e.Controlled? || e.Return? { SettledUnary(e); }
    else { SettledLeaf(e); }
  }

  lemma {:induction false} SettledPair(e: Expr)
    requires SourceExpr(e, false) && (e.App? || e.Par? || e.GateApp?)
    ensures SourceExpr(RereadExpr(e), true)
    decreases e, 1
  {
    match e
    case App(f, x) => Settled(f); Settled(x);
    case Par(body, count) => Settled(body); Settled(count);
    case GateApp(g, q) => Settled(g); Settled(q);
  }

  lemma {:induction false} SettledOperator(e: Expr)
    requires SourceExpr(e, false) && (e.Bin? || e.Compose?)
    ensures SourceExpr(RereadExpr(e), true)
    decreases e, 1
  {
    match e
    case Bin(_, l, r) => Settled(l); Settled(r);
    case Compose(l, r) => Settled(l); Settled(r);
  }

  lemma {:induction false} SettledBinder(e: Expr)
    requires SourceExpr(e, false) && (e.Let? || e.For? || e.If?)
    ensures SourceExpr(RereadExpr(e), true)
    decreases e, 1
  {
    match e
    case Let(_, rhs, body) => Settled(rhs); Settled(body);
    case For(_, iter, body) => Settled(iter); Settled(body);
    case If(c, t, f) => Settled(c); Settled(t); Settled(f);
  }

  lemma {:induction false} SettledList(e: Expr)
    requires SourceExpr(e, false) && (e.Tuple? || e.List? || e.ParN? || e.CircuitBlock? || e.RunBlock?)
    ensures SourceExpr(RereadExpr(e), true)
    decreases e, 1
  {
    hide SourceStmt, SourceTy, SourcePat, SourceParam, Reread, RereadStmts, RereadArms, RereadExprs, RereadParams, RereadBindings;
    match e
    case Tuple(items) => SettledExprs(items);
    case List(items) => SettledExprs(items);
    case ParN(items) => SettledExprs(items);
    case CircuitBlock(stmts) => SettledStmts(stmts);
    case RunBlock(stmts) => SettledStmts(stmts);
  }

  lemma {:induction false} SettledTyped(e: Expr)
    requires SourceExpr(e, false) && (e.Lam? || e.Match? || e.Borrow? || e.Ascribe?)
    ensures SourceExpr(RereadExpr(e), true)
    decreases e, 1
  {
    hide SourceStmt, SourceTy, SourcePat, SourceParam, Reread, RereadStmts, RereadArms, RereadExprs, RereadParams, RereadBindings;
    match e
    case Lam(params, body) => SettledParams(params); Settled(body);
    case Match(s, arms) => Settled(s); SettledArms(arms);
    case Borrow(bindings, stmts) => SettledBindings(bindings); SettledStmts(stmts);
    case Ascribe(x, t) => Settled(x); SettledTy(t);
  }

  lemma {:induction false} SettledUnary(e: Expr)
    requires SourceExpr(e, false) && (e.TypeApp? || e.Neg? || e.Adjoint? || e.Controlled? || e.Return?)
    ensures SourceExpr(RereadExpr(e), true)
    decreases e, 1
  {
    match e
    case TypeApp(callee, _) => Settled(callee);
    case Neg(x) => Settled(x);
    case Adjoint(x) => Settled(x);
    case Controlled(x) => Settled(x);
    case Return(x) => Settled(x);
  }

  lemma SettledLeaf(e: Expr)
    requires SourceExpr(e, false) && (e.Int? || e.Float? || e.Bool? || e.Unit? || e.Var? || e.Bind?)
    ensures SourceExpr(RereadExpr(e), true)
  {
  }

  lemma SettledTy(t: Type)
    requires SourceTy(t, false)
    ensures SourceTy(Reread(t), true)
  {
    hide SourceType, HasClash, Reread;
    SettledType(t);
  }

  lemma {:induction false} SettledExprs(es: seq<Expr>)
    requires SourceExprs(es, false)
    ensures SourceExprs(RereadExprs(es), true)
    decreases es, 0
  {
    hide SourceExpr, RereadExpr;
    if es != [] {
      Settled(es[0]);
      SettledExprs(es[1..]);
    }
  }

  lemma {:induction false} SettledStmts(ss: seq<Stmt>)
    requires SourceStmts(ss, false)
    ensures SourceStmts(RereadStmts(ss), true)
    decreases ss, 0
  {
    hide SourceStmt, RereadStmt;
    if ss != [] {
      SettledStmt(ss[0]);
      SettledStmts(ss[1..]);
    }
  }

  lemma {:induction false} SettledStmt(s: Stmt)
    requires SourceStmt(s, false)
    ensures SourceStmt(RereadStmt(s), true)
    decreases s, 1
  {
    hide SourceExpr, RereadExpr, SourcePat;
    match s
    case SBind(_, _, rhs) => Settled(rhs);
    case SLet(_, rhs) => Settled(rhs);
    case SExpr(e) => Settled(e);
  }

  lemma {:induction false} SettledArms(arms: seq<Arm>)
    requires SourceArms(arms, false)
    ensures SourceArms(RereadArms(arms), true)
    decreases arms, 0
  {
    hide SourceExpr, RereadExpr, SourcePat;
    if arms != [] {
      SettledArm(arms[0]);
      SettledArms(arms[1..]);
    }
  }

  lemma {:induction false} SettledArm(arm: Arm)
    requires SourceExpr(arm.body, false)
    ensures SourceExpr(RereadArm(arm).body, true)
    decreases arm, 3
  {
    Settled(arm.body);
  }

  lemma {:induction false} SettledParams(ps: seq<Param>)
    requires SourceParams(ps, false)
    ensures SourceParams(RereadParams(ps), true)
  {
    hide SourceTy, SourcePat, Reread;
    if ps != [] {
      if ps[0].ty.Some? { SettledTy(ps[0].ty.value); }
      SettledParams(ps[1..]);
    }
  }

  lemma {:induction false} SettledBindings(bs: seq<Binding>)
    requires SourceBindings(bs, false)
    ensures SourceBindings(RereadBindings(bs), true)
  {
    hide SourceTy, Reread;
    if bs != [] {
      SettledTy(bs[0].ty);
      SettledBindings(bs[1..]);
    }
  }

  // ── It prints the same ─────────────────────────────────────────────────────

  lemma {:induction false} TypePrintsSame(t: Type, k: Tokens)
    requires SourceType(t)
    ensures PrintType(Reread(t), k) == PrintType(t, k)
    decreases t, 1
  {
    hide Clashes, Shadowed, PrintNat, PrintClass, PrintAngles, FormerName, ScalarName;
    var close := Tok(RAngle, k);
    match t
    case TList(u) => TypePrintsSame(u, close);
    case TQ(u) => TypePrintsSame(u, close);
    case TMatrix(_, _, u) => TypePrintsSame(u, close);
    case TQecBlock(u, n) => TypePrintsSame(u, Tok(CommaSign, PrintNat(n, close)));
    case TFn(a, b) => ArrowPrintsSame(RightArrow, t, a, b, k);
    case TLinear(a, b) => ArrowPrintsSame(LinearArrow, t, a, b, k);
    case TTuple(ts) => TypesPrintSame(ts, Tok(RParen, k));
    case TNamed(name, args) => if Clashes(name, args) { ClashPrintsSame(name, args, k); }
    case _ =>
  }

  lemma {:induction false} ArrowPrintsSame(arrow: Token, t: Type, a: Type, b: Type, k: Tokens)
    requires SourceType(a) && SourceType(b) && a < t && b < t
    ensures PrintType(Reread(b), Tok(RParen, k)) == PrintType(b, Tok(RParen, k))
    ensures var next := Tok(RParen, Tok(arrow, Tok(LParen, PrintType(b, Tok(RParen, k))))); PrintType(Reread(a), next) == PrintType(a, next)
    decreases t, 0
  {
    hide PrintType, Reread, SourceType;
    TypePrintsSame(b, Tok(RParen, k));
    TypePrintsSame(a, Tok(RParen, Tok(arrow, Tok(LParen, PrintType(b, Tok(RParen, k))))));
  }

  lemma {:induction false} TypesPrintSame(ts: seq<Type>, k: Tokens)
    requires SourceTypes(ts)
    ensures PrintTypes(RereadAll(ts), k) == PrintTypes(ts, k) && PrintMoreTypes(RereadAll(ts), k) == PrintMoreTypes(ts, k)
    decreases ts, 0
  {
    hide PrintType, Reread, SourceType;
    if ts != [] {
      TypePrintsSame(ts[0], PrintMoreTypes(ts[1..], k));
      TypesPrintSame(ts[1..], k);
      assert RereadAll(ts)[1..] == RereadAll(ts[1..]);
    }
  }

  lemma ClashPrintsSame(name: Name, args: seq<NatExpr>, k: Tokens)
    requires Clashes(name, args)
    ensures PrintType(TCircuit(args[0], args[1], args[2], ClassOf(args[3].name).value), k) == PrintType(TNamed(name, args), k)
  {
    hide PrintNat, FormerName, FormerOf, ClassOf, PrintClass, PrintNats;
    NameOfFormer(name);
    ClassPrints(args[3].name, ClassOf(args[3].name).value, Tok(RAngle, k));
    FourPrint(args, Tok(RAngle, k));
  }

  lemma {:induction false} AtomPrintsSame(e: Expr, k: Tokens)
    requires SourceExpr(e, false)
    ensures PrintAtom(RereadExpr(e), k) == PrintAtom(e, k)
    decreases e, 3
  {
    hide PrintExpr, SourceExpr;
    ExprPrintsSame(e, k);
    ExprPrintsSame(e, Tok(RParen, k));
  }

  lemma {:induction false} ExprPrintsSame(e: Expr, k: Tokens)
    requires SourceExpr(e, false)
    ensures PrintExpr(RereadExpr(e), k) == PrintExpr(e, k)
    decreases e, 2
  {
    hide SourceExpr, RereadExpr, PrintExpr;
    if e.Bin? || e.Compose? || e.GateApp? || e.App? { OperatorPrintsSame(e, k); }
    else if e.TypeApp? || e.Neg? || e.Return? || e.Ascribe? { UnaryPrintsSame(e, k); }
    else if e.Adjoint? || e.Controlled? { WrapperPrintsSame(e, k); }
    else if e.Lam? || e.Let? { ScopePrintsSame(e, k); }
    else if e.Tuple? || e.List? || e.ParN? || e.CircuitBlock? || e.RunBlock? { ListPrintsSame(e, k); }
    else { BinderPrintsSame(e, k); }
  }

  lemma {:induction false} OperatorPrintsSame(e: Expr, k: Tokens)
    requires SourceExpr(e, false) && (e.Bin? || e.Compose? || e.GateApp? || e.App?)
    ensures PrintExpr(RereadExpr(e), k) == PrintExpr(e, k)
    decreases e, 1
  {
    hide PrintAtom;
    match e
    case App(f, x) =>
      ExprPrintsSame(x, Tok(RParen, k));
      AtomPrintsSame(f, Tok(LParen, PrintExpr(x, Tok(RParen, k))));
    case Bin(op, l, r) => PairPrintsSame(OpSign(op), e, l, r, k);
    case Compose(l, r) => PairPrintsSame(Pipe, e, l, r, k);
    case GateApp(g, q) => PairPrintsSame(AtSign, e, g, q, k);
  }

  lemma {:induction false} UnaryPrintsSame(e: Expr, k: Tokens)
    requires SourceExpr(e, false) && (e.TypeApp? || e.Neg? || e.Return? || e.Ascribe?)
    ensures PrintExpr(RereadExpr(e), k) == PrintExpr(e, k)
    decreases e, 1
  {
    hide PrintAtom, PrintType, PrintAngles, SourceTy, Reread;
    match e
    case TypeApp(callee, targs) => AtomPrintsSame(callee, PrintAngles(targs, k));
    case Neg(x) => AtomPrintsSame(x, k);
    case Return(x) => AtomPrintsSame(x, k);
    case Ascribe(x, t) =>
      TyPrintsSame(t, k);
      AtomPrintsSame(x, Tok(ColonSign, PrintType(t, k)));
  }

  lemma {:induction false} WrapperPrintsSame(e: Expr, k: Tokens)
    requires SourceExpr(e, false) && (e.Adjoint? || e.Controlled?)
    ensures PrintExpr(RereadExpr(e), k) == PrintExpr(e, k)
    decreases e, 1
  {
    hide PrintAtom, PrintType, PrintAngles, SourceTy, Reread;
    ExprPrintsSame(e.inner, Tok(RParen, k));
  }

  lemma {:induction false} ScopePrintsSame(e: Expr, k: Tokens)
    requires SourceExpr(e, false) && (e.Lam? || e.Let?)
    ensures PrintExpr(RereadExpr(e), k) == PrintExpr(e, k)
    decreases e, 1
  {
    hide PrintAtom, PrintPat, PrintType, PrintParams, SourcePat, SourceTy, SourceParam, Reread, RereadParams;
    ExprPrintsSame(e.body, k);
    if e.Lam? { ParamsPrintSame(e.params, Tok(RParen, Tok(RightArrow, PrintExpr(e.body, k)))); }
    else { ExprPrintsSame(e.rhs, Tok(KIn, PrintExpr(e.body, k))); }
  }

  lemma {:induction false} ListPrintsSame(e: Expr, k: Tokens)
    requires SourceExpr(e, false) && (e.Tuple? || e.List? || e.ParN? || e.CircuitBlock? || e.RunBlock?)
    ensures PrintExpr(RereadExpr(e), k) == PrintExpr(e, k)
    decreases e, 1
  {
    hide PrintExprs, PrintStmts, SourceStmt, RereadStmts, RereadExprs;
    match e
    case Tuple(items) => ExprsPrintSame(items, Tok(RParen, k));
    case List(items) => ExprsPrintSame(items, Tok(RBracket, k));
    case ParN(items) => ExprsPrintSame(items, Tok(RBrace, k));
    case CircuitBlock(stmts) => StmtsPrintSame(stmts, k);
    case RunBlock(stmts) => StmtsPrintSame(stmts, k);
  }

  lemma {:induction false} BinderPrintsSame(e: Expr, k: Tokens)
    requires SourceExpr(e, false)
    requires e.Int? || e.Float? || e.Bool? || e.Unit? || e.Var? || e.If? || e.Match? || e.For? || e.Par? || e.Borrow? || e.Bind?
    ensures PrintExpr(RereadExpr(e), k) == PrintExpr(e, k)
    decreases e, 1
  {
    hide PrintAtom, PrintPat, PrintType, PrintExprs, PrintStmts, PrintArms, PrintBindings, PrintParams, SourcePat, SourceStmt,
         SourceTy, SourceParam, Reread, RereadStmts, RereadArms, RereadExprs, RereadParams, RereadBindings, FnOf, BindName;
    match e
    case Match(s, arms) =>
      ArmsPrintSame(arms, k);
      AtomPrintsSame(s, Tok(LBrace, Tok(Newline, PrintArms(arms, k))));
    case Borrow(bindings, stmts) =>
      StmtsPrintSame(stmts, k);
      BindingsPrintSame(bindings, Tok(KIn, Tok(LBrace, Tok(Newline, PrintStmts(stmts, k)))));
    case _ => if e.If? || e.For? || e.Par? { BracesPrintSame(e, k); }
  }

  lemma {:induction false} BracesPrintSame(e: Expr, k: Tokens)
    requires SourceExpr(e, false) && (e.If? || e.For? || e.Par?)
    ensures PrintExpr(RereadExpr(e), k) == PrintExpr(e, k)
    decreases e, 0
  {
    hide PrintAtom, PrintPat, SourcePat;
    match e
    case If(c, t, f) =>
      var last := Tok(KElse, PrintExpr(f, k));
      ExprPrintsSame(f, k);
      ExprPrintsSame(t, last);
      ExprPrintsSame(c, Tok(KThen, PrintExpr(t, last)));
    case For(p, iter, body) =>
      ExprPrintsSame(body, Tok(RBrace, k));
      AtomPrintsSame(iter, Tok(LBrace, PrintExpr(body, Tok(RBrace, k))));
    case Par(body, count) =>
      AtomPrintsSame(count, k);
      ExprPrintsSame(body, Tok(RBrace, Tok(StarSign, PrintAtom(count, k))));
  }

  lemma {:induction false} PairPrintsSame(sign: Token, e: Expr, l: Expr, r: Expr, k: Tokens)
    requires l < e && r < e && SourceExpr(l, false) && SourceExpr(r, false)
    ensures PrintAtom(RereadExpr(r), k) == PrintAtom(r, k)
    ensures PrintAtom(RereadExpr(l), Tok(sign, PrintAtom(r, k))) == PrintAtom(l, Tok(sign, PrintAtom(r, k)))
    decreases e, 0
  {
    hide PrintAtom, RereadExpr, SourceExpr;
    AtomPrintsSame(r, k);
    AtomPrintsSame(l, Tok(sign, PrintAtom(r, k)));
  }

  lemma TyPrintsSame(t: Type, k: Tokens)
    requires SourceTy(t, false)
    ensures PrintType(Reread(t), k) == PrintType(t, k)
  {
    hide PrintType, Reread, SourceType, HasClash;
    TypePrintsSame(t, k);
  }

  lemma {:induction false} ExprsPrintSame(es: seq<Expr>, k: Tokens)
    requires SourceExprs(es, false)
    ensures PrintExprs(RereadExprs(es), k) == PrintExprs(es, k) && PrintMoreExprs(RereadExprs(es), k) == PrintMoreExprs(es, k)
    decreases es, 0
  {
    hide PrintExpr, RereadExpr, SourceExpr;
    if es != [] {
      ExprPrintsSame(es[0], PrintMoreExprs(es[1..], k));
      ExprsPrintSame(es[1..], k);
      assert RereadExprs(es)[1..] == RereadExprs(es[1..]);
    }
  }

  lemma {:induction false} StmtsPrintSame(ss: seq<Stmt>, k: Tokens)
    requires SourceStmts(ss, false)
    ensures PrintStmts(RereadStmts(ss), k) == PrintStmts(ss, k)
    decreases ss, 0
  {
    hide PrintStmt, RereadStmt, SourceStmt;
    if ss != [] {
      StmtsPrintSame(ss[1..], k);
      StmtPrintsSame(ss[0], Tok(Newline, PrintStmts(ss[1..], k)));
      assert RereadStmts(ss)[1..] == RereadStmts(ss[1..]);
    }
  }

  lemma {:induction false} StmtPrintsSame(s: Stmt, k: Tokens)
    requires SourceStmt(s, false)
    ensures PrintStmt(RereadStmt(s), k) == PrintStmt(s, k)
    decreases s, 0
  {
    hide PrintExpr, PrintPat, RereadExpr, SourceExpr, SourcePat;
    match s
    case SBind(_, _, rhs) => ExprPrintsSame(rhs, k);
    case SLet(_, rhs) => ExprPrintsSame(rhs, k);
    case SExpr(e) => ExprPrintsSame(e, k);
  }

  lemma {:induction false} ArmsPrintSame(arms: seq<Arm>, k: Tokens)
    requires SourceArms(arms, false)
    ensures PrintArms(RereadArms(arms), k) == PrintArms(arms, k) && PrintMoreArms(RereadArms(arms), k) == PrintMoreArms(arms, k)
    decreases arms, 0
  {
    hide PrintArm, RereadArm, SourceExpr, SourcePat;
    if arms != [] {
      ArmsPrintSame(arms[1..], k);
      ArmPrintsSame(arms[0], PrintMoreArms(arms[1..], k));
      assert RereadArms(arms)[1..] == RereadArms(arms[1..]);
    }
  }

  lemma {:induction false} ArmPrintsSame(arm: Arm, k: Tokens)
    requires SourceExpr(arm.body, false)
    ensures PrintArm(RereadArm(arm), k) == PrintArm(arm, k)
    decreases arm, 3
  {
    hide PrintExpr, PrintPat, RereadExpr, SourceExpr;
    ExprPrintsSame(arm.body, k);
  }

  lemma {:induction false} ParamsPrintSame(ps: seq<Param>, k: Tokens)
    requires SourceParams(ps, false)
    ensures PrintParams(RereadParams(ps), k) == PrintParams(ps, k) && PrintMoreParams(RereadParams(ps), k) == PrintMoreParams(ps, k)
  {
    hide PrintType, PrintPat, Reread, SourceTy, SourcePat;
    if ps != [] {
      ParamsPrintSame(ps[1..], k);
      if ps[0].ty.Some? { TyPrintsSame(ps[0].ty.value, PrintMoreParams(ps[1..], k)); }
      assert RereadParams(ps)[1..] == RereadParams(ps[1..]);
    }
  }

  lemma {:induction false} BindingsPrintSame(bs: seq<Binding>, k: Tokens)
    requires SourceBindings(bs, false)
    ensures PrintBindings(RereadBindings(bs), k) == PrintBindings(bs, k)
    ensures PrintMoreBindings(RereadBindings(bs), k) == PrintMoreBindings(bs, k)
  {
    hide PrintType, Reread, SourceTy;
    if bs != [] {
      BindingsPrintSame(bs[1..], k);
      TyPrintsSame(bs[0].ty, PrintMoreBindings(bs[1..], k));
      assert RereadBindings(bs)[1..] == RereadBindings(bs[1..]);
    }
  }

  // ── The round trip, exactly ────────────────────────────────────────────────

  /** What the tokens of a source expression parse to. */
  lemma PrintedReads(e: Expr, k: Tokens)
    requires SourceExpr(e, false) && Ends(k)
    ensures ParseExpr(PrintExpr(e, k)) == Yes(RereadExpr(e), k)
  {
    hide ParseExpr, PrintExpr, RereadExpr, SourceExpr, Ends;
    Settled(e);
    ExprPrintsSame(e, k);
    ExprReads(RereadExpr(e), k);
  }

  /** Printing and parsing give a source expression back exactly when no type in it clashes. */
  lemma ExprRoundTripIff(e: Expr, k: Tokens)
    requires SourceExpr(e, false) && Ends(k)
    ensures ParseExpr(PrintExpr(e, k)) == Yes(e, k) <==> Plain(e)
  {
    hide ParseExpr, PrintExpr, RereadExpr, SourceExpr, Ends;
    PrintedReads(e, k);
    if RereadExpr(e) == e { Settled(e); }
    if Plain(e) { ExprReads(e, k); }
  }

  /** Whatever a parse yields: printing it and parsing again settles after one round. */
  lemma ReparsingSettles(ts: Tokens, k: Tokens)
    requires ParseExpr(ts).Yes? && Ends(k)
    ensures var e := ParseExpr(ts).value;
            && ParseExpr(PrintExpr(e, k)).Yes?
            && var again := ParseExpr(PrintExpr(e, k)).value;
               && ParseExpr(PrintExpr(again, k)) == Yes(again, k)
               && (again == e <==> Plain(e))
  {
    hide ParseExpr, PrintExpr, RereadExpr, SourceExpr, Ends;
    var e := ParseExpr(ts).value;
    ParsedExpr(ts);
    PrintedReads(e, k);
    ExprRoundTripIff(e, k);
    ExprPrintsSame(e, k);
  }
}
