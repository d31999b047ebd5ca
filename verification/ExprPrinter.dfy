/** Expressions: the printer, which parenthesises every operand that is not self-delimiting. */
module ExprPrinter {
  import opened Ast
  import opened Tokens
  import opened NatGrammar
  import opened PatGrammar
  import opened TypeGrammar

  /** The forms that `atom` prints bare. */
  predicate Atomic(e: Expr) {
    e.Int? || e.Float? || e.Bool? || e.Unit? || e.Var? || e.Tuple? || e.List? || e.CircuitBlock? || e.RunBlock? || e.Borrow?
    || e.For? || e.Match? || e.Adjoint? || e.Controlled?
  }

  function OpSign(op: BinOp): Token {
    match op
    case Add => PlusSign
    case Sub => MinusSign
    case Mul => StarSign
    case Div => SlashSign
    case Pow => CaretSign
  }

  function BindName(): Name { "bind" }

  function FnOf(param: Name, body: Tokens): Tokens {
    Tok(KFn, Tok(LParen, Tok(IdentToken(param), Tok(RParen, Tok(RightArrow, body)))))
  }

  /** `atom`. */
  function PrintAtom(e: Expr, k: Tokens): Tokens
    decreases e, 1
  {
    if Atomic(e) then PrintExpr(e, k) else Tok(LParen, PrintExpr(e, Tok(RParen, k)))
  }

  /** `e_str`, in front of the tokens `k`. */
  function PrintExpr(e: Expr, k: Tokens): Tokens
    decreases e, 0
  {
    match e
    case Int(n) => PrintInt(n, k)
    case Float(x) => if x >= 0.0 then Tok(FloatToken(x), k) else Tok(MinusSign, Tok(FloatToken(-x), k))
    case Bool(b) => Tok(if b then KTrue else KFalse, k)
    case Unit => Tok(LParen, Tok(RParen, k))
    case Var(name) => Tok(IdentToken(name), k)
    case App(f, x) => PrintAtom(f, Tok(LParen, PrintExpr(x, Tok(RParen, k))))
    case TypeApp(callee, targs) => PrintAtom(callee, PrintAngles(targs, k))
    case Bin(op, l, r) => PrintAtom(l, Tok(OpSign(op), PrintAtom(r, k)))
    case Neg(x) => Tok(MinusSign, PrintAtom(x, k))
    case Lam(params, body) =>
      Tok(KFn, Tok(LParen, PrintParams(params, Tok(RParen, Tok(RightArrow, PrintExpr(body, k))))))
    case Let(p, rhs, body) => Tok(KLet, PrintPat(p, Tok(EqSign, PrintExpr(rhs, Tok(KIn, PrintExpr(body, k))))))
    case If(c, t, f) => Tok(KIf, PrintExpr(c, Tok(KThen, PrintExpr(t, Tok(KElse, PrintExpr(f, k))))))
    case Match(s, arms) => Tok(KMatch, PrintAtom(s, Tok(LBrace, Tok(Newline, PrintArms(arms, k)))))
    case For(p, iter, body) =>
      Tok(KFor, PrintPat(p, Tok(KIn, PrintAtom(iter, Tok(LBrace, PrintExpr(body, Tok(RBrace, k)))))))
    case Tuple(items) => Tok(LParen, PrintExprs(items, Tok(RParen, k)))
    case List(items) => Tok(LBracket, PrintExprs(items, Tok(RBracket, k)))
    case CircuitBlock(stmts) => Tok(KCircuit, Tok(LBrace, Tok(Newline, PrintStmts(stmts, k))))
    case RunBlock(stmts) => Tok(KRun, Tok(LBrace, Tok(Newline, PrintStmts(stmts, k))))
    case Compose(l, r) => PrintAtom(l, Tok(Pipe, PrintAtom(r, k)))
    case Par(body, count) => Tok(KPar, Tok(LBrace, PrintExpr(body, Tok(RBrace, Tok(StarSign, PrintAtom(count, k))))))
    case ParN(items) => Tok(KPar, Tok(LBrace, PrintExprs(items, Tok(RBrace, k))))
    case Adjoint(x) => Tok(KAdjoint, Tok(LParen, PrintExpr(x, Tok(RParen, k))))
    case Controlled(x) => Tok(KControlled, Tok(LParen, PrintExpr(x, Tok(RParen, k))))
    case GateApp(g, q) => PrintAtom(g, Tok(AtSign, PrintAtom(q, k)))
    case Borrow(bindings, stmts) =>
      Tok(KBorrow, PrintBindings(bindings, Tok(KIn, Tok(LBrace, Tok(Newline, PrintStmts(stmts, k))))))
    case Return(x) => Tok(KReturn, PrintAtom(x, k))
    case Ascribe(x, t) => PrintAtom(x, Tok(ColonSign, PrintType(t, k)))
    case Bind(rhs, param, body) =>
      Tok(IdentToken(BindName()), Tok(LParen, PrintExpr(rhs, Tok(CommaSign, FnOf(param, PrintExpr(body, Tok(RParen, k)))))))
  }

  /** Expressions joined by commas. */
  function PrintExprs(es: seq<Expr>, k: Tokens): Tokens {
    if es == [] then k else PrintExpr(es[0], PrintMoreExprs(es[1..], k))
  }

  function PrintMoreExprs(es: seq<Expr>, k: Tokens): Tokens {
    if es == [] then k else Tok(CommaSign, PrintExpr(es[0], PrintMoreExprs(es[1..], k)))
  }

  function PrintStmt(s: Stmt, k: Tokens): Tokens {
    match s
    case SBind(p, _, rhs) => PrintPat(p, Tok(LeftArrow, PrintExpr(rhs, k)))
    case SLet(p, rhs) => Tok(KLet, PrintPat(p, Tok(EqSign, PrintExpr(rhs, k))))
    case SExpr(e) => PrintExpr(e, k)
  }

  /** The rest of a block, from the start of a line: each statement ends its line. */
  function PrintStmts(ss: seq<Stmt>, k: Tokens): Tokens {
    if ss == [] then Tok(RBrace, k) else PrintStmt(ss[0], Tok(Newline, PrintStmts(ss[1..], k)))
  }

  /** The arms of a `match`, from the start of a line: commas between them, none after the last. */
  function PrintArms(arms: seq<Arm>, k: Tokens): Tokens {
    if arms == [] then Tok(RBrace, k) else PrintArm(arms[0], PrintMoreArms(arms[1..], k))
  }

  function PrintMoreArms(arms: seq<Arm>, k: Tokens): Tokens {
    if arms == [] then Tok(Newline, Tok(RBrace, k))
    else Tok(CommaSign, Tok(Newline, PrintArm(arms[0], PrintMoreArms(arms[1..], k))))
  }

  function PrintArm(arm: Arm, k: Tokens): Tokens {
    PrintPat(arm.pat, Tok(FatArrow, PrintExpr(arm.body, k)))
  }

  function PrintParam(p: Param, k: Tokens): Tokens {
    match p.ty
    case Some(t) => PrintPat(p.pat, Tok(ColonSign, PrintType(t, k)))
    case None => PrintPat(p.pat, k)
  }

  function PrintParams(ps: seq<Param>, k: Tokens): Tokens {
    if ps == [] then k else PrintParam(ps[0], PrintMoreParams(ps[1..], k))
  }

  function PrintMoreParams(ps: seq<Param>, k: Tokens): Tokens {
    if ps == [] then k else Tok(CommaSign, PrintParam(ps[0], PrintMoreParams(ps[1..], k)))
  }

  function PrintBinding(b: Binding, k: Tokens): Tokens {
    Tok(IdentToken(b.name), Tok(ColonSign, PrintType(b.ty, k)))
  }

  function PrintBindings(bs: seq<Binding>, k: Tokens): Tokens {
    if bs == [] then k else PrintBinding(bs[0], PrintMoreBindings(bs[1..], k))
  }

  function PrintMoreBindings(bs: seq<Binding>, k: Tokens): Tokens {
    if bs == [] then k else Tok(CommaSign, PrintBinding(bs[0], PrintMoreBindings(bs[1..], k)))
  }
}
