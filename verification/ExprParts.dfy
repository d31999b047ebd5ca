/** What each bracketed form parses to, given what its parts parse to. */
module ExprParts {
  import opened Ast
  import opened Tokens
  import opened NatGrammar
  import opened PatGrammar
  import opened TypeGrammar
  import opened TypeRoundTrip
  import opened ExprGrammar
  import opened ExprPrinter
  import opened ExprLadder

  predicate Begins(ts: Tokens) {
    AtomStart(ts) || Prefix(ts)
  }

  // ── Heads ──────────────────────────────────────────────────────────────────

  lemma AtomHead(e: Expr, k: Tokens)
    requires SourceExpr(e, true)
    ensures AtomStart(PrintAtom(e, k)) && (Atomic(e) ==> AtomStart(PrintExpr(e, k)))
  {
    hide PrintExprs, PrintStmts, PrintArms, PrintBindings, PrintPat;
  }

  lemma ExprHead(e: Expr, k: Tokens)
    requires SourceExpr(e, true)
    ensures Begins(PrintExpr(e, k)) && SkipLines(PrintExpr(e, k)) == PrintExpr(e, k)
  {
    hide PrintExprs, PrintStmts, PrintArms, PrintBindings, PrintPat, PrintAtom, AtomStart, PrintParams, PrintAngles, PrintType;
    BeginsIsTok(PrintExpr(e, k));
    if Atomic(e) { AtomHead(e, k); }
    else { OperandHead(e, k); }
  }

  lemma BeginsIsTok(ts: Tokens)
    ensures Begins(ts) ==> SkipLines(ts) == ts && !IsSeparator(ts) && !Starts(ts, Pipe) && !Starts(ts, RBrace) && !Starts(ts, RParen)
  {
  }

  lemma OperandHead(e: Expr, k: Tokens)
    requires SourceExpr(e, true) && !Atomic(e)
    ensures Begins(PrintExpr(e, k))
  {
    hide PrintPat, PrintAtom, AtomStart, PrintParams, PrintAngles, PrintType, PrintExprs;
    match e
    case App(f, x) => AtomHead(f, Tok(LParen, PrintExpr(x, Tok(RParen, k))));
    case TypeApp(callee, targs) => AtomHead(callee, PrintAngles(targs, k));
    case Bin(op, l, r) => AtomHead(l, Tok(OpSign(op), PrintAtom(r, k)));
    case Compose(l, r) => AtomHead(l, Tok(Pipe, PrintAtom(r, k)));
    case GateApp(g, q) => AtomHead(g, Tok(AtSign, PrintAtom(q, k)));
    case Ascribe(x, t) => AtomHead(x, Tok(ColonSign, PrintType(t, k)));
    case _ =>
  }

  // ── Brackets around one expression ─────────────────────────────────────────

  lemma OneExpr(inner: Tokens, e: Expr, rest: Tokens)
    requires ParseExpr(inner) == Yes(e, rest) && Comma(rest).No?
    ensures ExprList(inner) == Yes([e], rest)
  {
    hide ParseExpr, Comma;
    assert MoreExprs(rest) == Yes([], rest);
    assert [e] + [] == [e];
  }

  lemma ArgsRead(inner: Tokens, es: seq<Expr>, k: Tokens)
    requires ExprList(inner) == Yes(es, Tok(RParen, k)) && SkipLines(inner) == inner
    ensures CallArgs(inner) == Yes(es, k)
  {
    hide ExprList;
  }

  lemma GroupRead(inner: Tokens, es: seq<Expr>, k: Tokens)
    requires CallArgs(inner) == Yes(es, k)
    ensures ParseAtom(Tok(LParen, inner)) == Yes(GroupExpr(es), k)
  {
    hide CallArgs, GroupExpr;
  }

  lemma ParenRead(inner: Tokens, e: Expr, k: Tokens)
    requires ParseExpr(inner) == Yes(e, Tok(RParen, k)) && SkipLines(inner) == inner
    ensures ParseAtom(Tok(LParen, inner)) == Yes(e, k) && CallArgs(inner) == Yes([e], k)
  {
    hide ParseExpr, ParseAtom, CallArgs, ExprList, Comma, SkipLines;
    NoComma(RParen, k);
    OneExpr(inner, e, Tok(RParen, k));
    ArgsRead(inner, [e], k);
    GroupRead(inner, [e], k);
  }

  lemma ParenthesisedRead(inner: Tokens, e: Expr, k: Tokens)
    requires ParseExpr(inner) == Yes(e, Tok(RParen, k)) && SkipLines(inner) == inner
    ensures Parenthesised(Tok(LParen, inner)) == Yes(e, k)
  {
    hide ParseExpr;
  }

  lemma BracedRead(inner: Tokens, e: Expr, k: Tokens)
    requires ParseExpr(inner) == Yes(e, Tok(RBrace, k)) && SkipLines(inner) == inner
    ensures Braced(Tok(LBrace, inner)) == Yes(e, k)
  {
    hide ParseExpr;
  }

  lemma EmptyArgs(k: Tokens)
    ensures CallArgs(Tok(RParen, k)) == Yes([], k)
  {
    hide ParseExpr;
    NoExpr(Tok(RParen, k));
    assert ExprList(Tok(RParen, k)) == Yes([], Tok(RParen, k));
  }

  lemma ListRead(inner: Tokens, es: seq<Expr>, k: Tokens)
    requires ExprList(inner) == Yes(es, Tok(RBracket, k)) && SkipLines(inner) == inner
    ensures ParseAtom(Tok(LBracket, inner)) == Yes(List(es), k)
  {
    hide ExprList, ParseList, CallArgs, Block, ParseBorrow, ParseFor, ParseMatch, Parenthesised;
    ListTail(inner, es, k);
  }

  lemma ListTail(inner: Tokens, es: seq<Expr>, k: Tokens)
    requires ExprList(inner) == Yes(es, Tok(RBracket, k)) && SkipLines(inner) == inner
    ensures ParseList(inner) == Yes(List(es), k)
  {
    hide ExprList, ParseAtom;
  }

  // ── Postfix forms ──────────────────────────────────────────────────────────

  lemma PostRead(ts: Tokens, base: Expr, post: Tokens, e: Expr, k: Tokens)
    requires ParseAtom(ts) == Yes(base, post) && ParsePost(base, post) == Yes(e, k) && Stops(k, 0)
    ensures ParsePostfix(ts) == Yes(e, k)
  {
    hide ParseAtom, ParsePost;
    NoPost(e, k);
    assert MorePostfix(e, k) == Yes(e, k);
    assert MorePostfix(base, post) == Yes(e, k);
  }

  lemma CallRead(base: Expr, inner: Tokens, x: Expr, k: Tokens)
    requires CallArgs(inner) == Yes([x], k)
    ensures ParsePost(base, Tok(LParen, inner)) == Yes(App(base, x), k)
  {
    hide CallArgs, IndexName;
    assert Applied(base, [x]) == App(base, x);
  }

  lemma TypeAppRead(base: Expr, ts: Tokens, ns: seq<NatExpr>, k: Tokens)
    requires AngleNats(ts) == Yes(ns, k) && Starts(ts, LAngle)
    ensures ParsePost(base, ts) == Yes(TypeApp(base, ns), k)
  {
    hide CallArgs, IndexName, AngleNats;
  }

  // ── Keyword forms ──────────────────────────────────────────────────────────

  lemma ForRead(ts: Tokens, p: Pat, iterToks: Tokens, iter: Expr, bodyToks: Tokens, body: Expr, k: Tokens)
    requires ParsePat(ts) == Yes(p, Tok(KIn, iterToks)) && ParseExpr(iterToks) == Yes(iter, bodyToks) && Braced(bodyToks) == Yes(body, k)
    ensures ParseAtom(Tok(KFor, ts)) == Yes(For(p, iter, body), k)
  {
    hide ParsePat, ParseExpr, Braced;
    assert ParseFor(ts) == Yes(For(p, iter, body), k);
  }

  lemma BlockRead(inner: Tokens, ss: seq<Stmt>, k: Tokens)
    requires StmtsFrom(inner) == Yes(ss, Tok(RBrace, k)) && SkipLines(inner) == inner
    ensures Block(Tok(LBrace, Tok(Newline, inner))) == Yes(ss, k)
  {
    hide StmtsFrom;
  }

  lemma BlocksRead(ts: Tokens, ss: seq<Stmt>, k: Tokens)
    requires Block(ts) == Yes(ss, k)
    ensures ParseAtom(Tok(KCircuit, ts)) == Yes(CircuitBlock(ss), k)
    ensures ParseAtom(Tok(KRun, ts)) == Yes(RunBlock(ss), k)
  {
    hide Block;
  }

  lemma BorrowRead(ts: Tokens, bs: seq<Binding>, block: Tokens, ss: seq<Stmt>, k: Tokens)
    requires Bindings(ts) == Yes(bs, Tok(KIn, block)) && Block(block) == Yes(ss, k)
    ensures ParseAtom(Tok(KBorrow, ts)) == Yes(Borrow(bs, ss), k)
  {
    hide Block, Bindings;
    assert ParseBorrow(ts) == Yes(Borrow(bs, ss), k);
  }

  lemma MatchRead(ts: Tokens, s: Expr, inner: Tokens, arms: seq<Arm>, k: Tokens)
    requires ParseExpr(ts) == Yes(s, Tok(LBrace, Tok(Newline, inner)))
    requires ArmsFrom(inner) == Yes(arms, Tok(RBrace, k)) && !IsSeparator(inner)
    ensures ParseAtom(Tok(KMatch, ts)) == Yes(Match(s, arms), k)
  {
    hide ExprList, ParseList, CallArgs, Block, ParseBorrow, ParseFor, ParseMatch, Parenthesised, SkipSeparators, IsSeparator;
    MatchTail(ts, s, inner, arms, k);
  }

  lemma MatchTail(ts: Tokens, s: Expr, inner: Tokens, arms: seq<Arm>, k: Tokens)
    requires ParseExpr(ts) == Yes(s, Tok(LBrace, Tok(Newline, inner)))
    requires ArmsFrom(inner) == Yes(arms, Tok(RBrace, k)) && !IsSeparator(inner)
    ensures ParseMatch(ts) == Yes(Match(s, arms), k)
  {
    hide ParseExpr, ArmsFrom, ParseAtom;
    assert SkipSeparators(Tok(Newline, inner)) == inner;
  }

  lemma WrappedRead(ts: Tokens, x: Expr, k: Tokens)
    requires Parenthesised(ts) == Yes(x, k)
    ensures ParseAtom(Tok(KAdjoint, ts)) == Yes(Adjoint(x), k)
    ensures ParseAtom(Tok(KControlled, ts)) == Yes(Controlled(x), k)
  {
    hide Parenthesised;
  }

  // ── Right-extending forms and `par` ────────────────────────────────────────

  lemma LamRead(inner: Tokens, ps: seq<Param>, bodyToks: Tokens, body: Expr, k: Tokens)
    requires ParamList(inner) == Yes(ps, Tok(RParen, Tok(RightArrow, bodyToks))) && SkipLines(inner) == inner
    requires ParseExpr(bodyToks) == Yes(body, k) && SkipLines(bodyToks) == bodyToks
    ensures ParseExpr(Tok(KFn, Tok(LParen, inner))) == Yes(Lam(ps, body), k)
  {
    hide ParamList, ParseAscribed, ParseLetIn, ParseIf;
    LamTail(inner, ps, bodyToks, body, k);
  }

  lemma LamTail(inner: Tokens, ps: seq<Param>, bodyToks: Tokens, body: Expr, k: Tokens)
    requires ParamList(inner) == Yes(ps, Tok(RParen, Tok(RightArrow, bodyToks))) && SkipLines(inner) == inner
    requires ParseExpr(bodyToks) == Yes(body, k) && SkipLines(bodyToks) == bodyToks
    ensures ParseLam(Tok(LParen, inner)) == Yes(Lam(ps, body), k)
  {
    hide ParamList, ParseExpr;
  }

  lemma LetRead(ts: Tokens, p: Pat, rhsToks: Tokens, rhs: Expr, bodyToks: Tokens, body: Expr, k: Tokens)
    requires ParsePat(ts) == Yes(p, Tok(EqSign, rhsToks)) && ParseExpr(rhsToks) == Yes(rhs, Tok(KIn, bodyToks))
    requires ParseExpr(bodyToks) == Yes(body, k) && SkipLines(bodyToks) == bodyToks
    ensures ParseLetIn(ts) == Yes(Let(p, rhs, body), k) && ParseLetStmt(ts) == Yes(SExpr(Let(p, rhs, body)), k)
  {
    hide ParsePat, ParseExpr;
  }

  lemma LetStmtRead(ts: Tokens, p: Pat, rhsToks: Tokens, rhs: Expr, k: Tokens)
    requires ParsePat(ts) == Yes(p, Tok(EqSign, rhsToks)) && ParseExpr(rhsToks) == Yes(rhs, k) && !Starts(k, KIn)
    ensures ParseLetStmt(ts) == Yes(SLet(p, rhs), k)
  {
    hide ParsePat, ParseExpr;
  }

  lemma IfRead(ts: Tokens, c: Expr, tToks: Tokens, t: Expr, fToks: Tokens, f: Expr, k: Tokens)
    requires ParseExpr(ts) == Yes(c, Tok(KThen, tToks)) && ParseExpr(tToks) == Yes(t, Tok(KElse, fToks)) && ParseExpr(fToks) == Yes(f, k)
    ensures ParseIf(ts) == Yes(If(c, t, f), k)
  {
    hide ParseExpr;
  }

  lemma KeywordRead(ts: Tokens)
    ensures ParseExpr(Tok(KLet, ts)) == ParseLetIn(ts)
    ensures ParseExpr(Tok(KIf, ts)) == ParseIf(ts)
  {
    hide ParseLetIn, ParseIf, ParseLam, ParseAscribed;
  }

  lemma ReturnRead(ts: Tokens, x: Expr, k: Tokens)
    requires ParseExpr(ts) == Yes(x, k)
    ensures ParseExpr(Tok(KReturn, ts)) == Yes(Return(x), k)
  {
    hide ParseLetIn, ParseIf, ParseLam, ParseAscribed;
  }

  /** `par { body } * count`. */
  lemma ParRead(ts: Tokens, body: Expr, countToks: Tokens, count: Expr, k: Tokens)
    requires Braced(ts) == Yes(body, Tok(StarSign, countToks)) && ParseTerms(countToks) == Yes(count, k)
    ensures ParseProduct(Tok(KPar, ts)) == Yes(Par(body, count), k)
  {
    hide Braced, ParseTerms, ParTensor;
    assert ParRepeat(ts) == Yes(Par(body, count), k);
  }

  lemma TensorRead(inner: Tokens, es: seq<Expr>, k: Tokens)
    requires ExprList(inner) == Yes(es, Tok(RBrace, k)) && SkipLines(inner) == inner && es != []
    ensures ParTensor(Tok(LBrace, inner)) == Yes(ParN(es), k)
  {
    hide ExprList;
  }

  /** `par { c1, c2, … }`: the repetition rule fails for want of a star or of a closing brace. */
  lemma ParNRead(inner: Tokens, es: seq<Expr>, k: Tokens)
    requires ExprList(inner) == Yes(es, Tok(RBrace, k)) && SkipLines(inner) == inner && es != []
    requires ParRepeat(Tok(LBrace, inner)).No?
    ensures ParseProduct(Tok(KPar, Tok(LBrace, inner))) == Yes(ParN(es), k)
  {
    hide ExprList, ParRepeat, ParTensor;
    TensorRead(inner, es, k);
  }

  lemma NoRepeat(inner: Tokens, e: Expr, rest: Tokens)
    requires ParseExpr(inner) == Yes(e, rest) && SkipLines(inner) == inner && SkipLines(rest) == rest
    requires Starts(rest, RBrace) ==> !Starts(rest.tail, StarSign)
    ensures ParRepeat(Tok(LBrace, inner)).No?
  {
    hide ParseExpr, ParseTerms;
  }
}
