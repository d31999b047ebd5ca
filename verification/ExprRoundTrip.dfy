/** Printing an expression and parsing the tokens gives the expression back. */
module ExprRoundTrip {
  import opened Ast
  import opened Tokens
  import opened NatGrammar
  import opened PatGrammar
  import opened TypeGrammar
  import opened TypeRoundTrip
  import opened ExprGrammar
  import opened ExprPrinter
  import opened ExprLadder
  import opened ExprParts
  import opened StmtStart

  /** A tree a parse can yield that holds no clashing type. */
  predicate Plain(e: Expr) {
    SourceExpr(e, true)
  }

  /** `k` ends an expression: nothing in it continues an expression or the type of an ascription. */
  predicate Ends(k: Tokens) {
    Stops(k, 9)
  }

  // ── Operands and expressions ───────────────────────────────────────────────

  /** A printed operand reads back whatever follows it. */
  lemma {:induction false} AtomReads(e: Expr, k: Tokens)
    requires Plain(e)
    ensures ParseAtom(PrintAtom(e, k)) == Yes(e, k)
    decreases e, 5
  {
    hide PrintExpr, ParseAtom, ParseExpr, Plain;
    if Atomic(e) {
      BareReads(e, k);
    } else {
      CloserEnds(RParen, k);
      ExprReads(e, Tok(RParen, k));
      PlainHead(e, Tok(RParen, k));
      ParenRead(PrintExpr(e, Tok(RParen, k)), e, k);
    }
  }

  lemma CloserEnds(t: Token, k: Tokens)
    requires Level(t) == 10 && !t.Newline?
    ensures Ends(Tok(t, k))
  {
  }

  lemma PlainHead(e: Expr, k: Tokens)
    requires Plain(e)
    ensures var ts := PrintExpr(e, k); Begins(ts) && SkipLines(ts) == ts && !IsSeparator(ts) && !Starts(ts, Pipe) && !Starts(ts, RBrace)
  {
    hide PrintExpr, SourceExpr, AtomStart, Prefix;
    ExprHead(e, k);
    BeginsIsTok(PrintExpr(e, k));
  }

  lemma PlainAtomHead(e: Expr, k: Tokens)
    requires Plain(e)
    ensures AtomStart(PrintAtom(e, k)) && (Atomic(e) ==> AtomStart(PrintExpr(e, k)))
  {
    hide PrintExpr, PrintAtom, SourceExpr, AtomStart;
    AtomHead(e, k);
  }

  /** A printed expression reads back where nothing continues it. */
  lemma {:induction false} ExprReads(e: Expr, k: Tokens)
    requires Plain(e) && Ends(k)
    ensures ParseExpr(PrintExpr(e, k)) == Yes(e, k)
    decreases e, 4
  {
    hide PrintExpr, ParseAtom, ParseExpr, Plain, AtomStart, Stops, Level;
    if Atomic(e) {
      BareReads(e, k);
      PlainAtomHead(e, k);
      EndsStop8(k);
      AtomToExpr(PrintExpr(e, k), e, k);
    } else if e.Lam? || e.Let? || e.If? || e.Return? || e.Par? || e.ParN? {
      PrefixReads(e, k);
    } else {
      NoBindNode(e);
      OperatorReads(e, k);
    }
  }

  lemma NoBindNode(e: Expr)
    requires Plain(e)
    ensures !e.Bind?
  {
  }

  lemma EndsStop8(k: Tokens)
    requires Ends(k)
    ensures Stops(k, 8) && Stops(k, 0) && Stops(k, 4) && TypeEnds(k)
  {
  }

  /** Operator forms. */
  lemma {:induction false} OperatorReads(e: Expr, k: Tokens)
    requires Plain(e) && Ends(k)
    requires e.App? || e.TypeApp? || e.Bin? || e.Neg? || e.Compose? || e.GateApp? || e.Ascribe?
    ensures ParseExpr(PrintExpr(e, k)) == Yes(e, k)
    decreases e, 3
  {
    hide ParseAtom, ParseExpr, PrintAtom, AtomStart, Stops, Level, PrintAngles, PrintType, Ends, HasClash, SourceType;
    EndsStop8(k);
    match e
    case App(f, x) => CallReads(f, x, k);
    case TypeApp(callee, targs) => TypeAppReads(callee, targs, k);
    case Bin(op, l, r) =>
      OperandsRead(e, OpSign(op), l, r, k);
      OperatorClimbs(PrintAtom(l, Tok(OpSign(op), PrintAtom(r, k))), op, l, PrintAtom(r, k), r, k);
    case Compose(l, r) =>
      OperandsRead(e, Pipe, l, r, k);
      PipeClimbs(PrintAtom(l, Tok(Pipe, PrintAtom(r, k))), l, PrintAtom(r, k), r, k);
    case GateApp(g, q) =>
      OperandsRead(e, AtSign, g, q, k);
      PlacementClimbs(PrintAtom(g, Tok(AtSign, PrintAtom(q, k))), g, PrintAtom(q, k), q, k);
    case Neg(x) =>
      AtomReads(x, k);
      PlainAtomHead(x, k);
      NegClimbs(PrintAtom(x, k), x, k);
    case Ascribe(x, t) => AscribeReads(x, t, k);
  }

  lemma {:induction false} OperandsRead(e: Expr, sign: Token, l: Expr, r: Expr, k: Tokens)
    requires Plain(l) && Plain(r) && l < e && r < e
    ensures ParseAtom(PrintAtom(l, Tok(sign, PrintAtom(r, k)))) == Yes(l, Tok(sign, PrintAtom(r, k)))
    ensures ParseAtom(PrintAtom(r, k)) == Yes(r, k)
    ensures AtomStart(PrintAtom(l, Tok(sign, PrintAtom(r, k)))) && AtomStart(PrintAtom(r, k))
    decreases e, 2
  {
    hide ParseAtom, PrintAtom, AtomStart, Plain;
    AtomReads(r, k);
    PlainAtomHead(r, k);
    AtomReads(l, Tok(sign, PrintAtom(r, k)));
    PlainAtomHead(l, Tok(sign, PrintAtom(r, k)));
  }

  lemma {:induction false} GroupReads(x: Expr, k: Tokens)
    requires Plain(x)
    ensures var inner := PrintExpr(x, Tok(RParen, k));
            CallArgs(inner) == Yes([x], k) && Parenthesised(Tok(LParen, inner)) == Yes(x, k)
    decreases x, 5
  {
    hide PrintExpr, ParseExpr, CallArgs, Parenthesised, Plain;
    CloserEnds(RParen, k);
    ExprReads(x, Tok(RParen, k));
    PlainHead(x, Tok(RParen, k));
    ParenRead(PrintExpr(x, Tok(RParen, k)), x, k);
    ParenthesisedRead(PrintExpr(x, Tok(RParen, k)), x, k);
  }

  lemma {:induction false} CallReads(f: Expr, x: Expr, k: Tokens)
    requires Plain(f) && Plain(x) && Ends(k)
    ensures ParseExpr(PrintAtom(f, Tok(LParen, PrintExpr(x, Tok(RParen, k))))) == Yes(App(f, x), k)
    decreases App(f, x), 2
  {
    hide PrintExpr, PrintAtom, ParseAtom, ParsePost, ParsePostfix, ParseExpr, CallArgs, Plain, AtomStart, Stops, Ends;
    var inner := PrintExpr(x, Tok(RParen, k));
    var ts := PrintAtom(f, Tok(LParen, inner));
    EndsStop8(k);
    GroupReads(x, k);
    AtomReads(f, Tok(LParen, inner));
    PlainAtomHead(f, Tok(LParen, inner));
    CallRead(f, inner, x, k);
    PostRead(ts, f, Tok(LParen, inner), App(f, x), k);
    ClimbPostfix(ts, App(f, x), k);
  }

  lemma {:induction false} TypeAppReads(callee: Expr, targs: seq<NatExpr>, k: Tokens)
    requires Plain(callee) && targs != [] && Ends(k)
    ensures ParseExpr(PrintAtom(callee, PrintAngles(targs, k))) == Yes(TypeApp(callee, targs), k)
    decreases TypeApp(callee, targs), 2
  {
    hide PrintAtom, ParseAtom, ParsePost, ParsePostfix, ParseExpr, AngleNats, PrintAngles, Plain, AtomStart, Stops, Ends;
    var post := PrintAngles(targs, k);
    var ts := PrintAtom(callee, post);
    EndsStop8(k);
    AtomReads(callee, post);
    PlainAtomHead(callee, post);
    NatListRoundTrip(targs, k);
    AnglesHead(targs, k);
    TypeAppRead(callee, post, targs, k);
    PostRead(ts, callee, post, TypeApp(callee, targs), k);
    ClimbPostfix(ts, TypeApp(callee, targs), k);
  }

  lemma PlainTypeReads(t: Type, k: Tokens)
    requires SourceTy(t, true) && TypeEnds(k)
    ensures ParseType(PrintType(t, k)) == Yes(t, k)
  {
    hide ParseType, PrintType, HasClash, SourceType;
    TypeRoundTripIff(t, k);
  }

  lemma {:induction false} AscribeReads(x: Expr, t: Type, k: Tokens)
    requires Plain(x) && SourceTy(t, true) && Ends(k)
    ensures ParseExpr(PrintAtom(x, Tok(ColonSign, PrintType(t, k)))) == Yes(Ascribe(x, t), k)
    decreases Ascribe(x, t), 2
  {
    hide PrintAtom, ParseAtom, ParseExpr, ParseType, PrintType, Plain, AtomStart, Stops, Ends, SourceTy;
    EndsStop8(k);
    PlainTypeReads(t, k);
    AtomReads(x, Tok(ColonSign, PrintType(t, k)));
    PlainAtomHead(x, Tok(ColonSign, PrintType(t, k)));
    AscriptionClimbs(PrintAtom(x, Tok(ColonSign, PrintType(t, k))), x, PrintType(t, k), t, k);
  }

  // ── Right-extending forms and `par` ────────────────────────────────────────

  lemma {:induction false} PrefixReads(e: Expr, k: Tokens)
    requires Plain(e) && Ends(k)
    requires e.Lam? || e.Let? || e.If? || e.Return? || e.Par? || e.ParN?
    ensures ParseExpr(PrintExpr(e, k)) == Yes(e, k)
    decreases e, 3
  {
    hide ParseExpr, PrintAtom, PrintExprs, PrintParams, PrintPat, Ends, SourcePat, SourceParam;
    match e
    case Lam(params, body) => LamReads(params, body, k);
    case Let(p, rhs, body) =>
      LetReads(p, rhs, body, k);
      KeywordRead(PrintExpr(e, k).tail);
    case If(c, t, f) =>
      IfReads(c, t, f, k);
      KeywordRead(PrintExpr(e, k).tail);
    case Return(x) => ReturnReads(x, k);
    case Par(body, count) => ParReads(body, count, k);
    case ParN(items) => ParNReads(items, k);
  }

  lemma {:induction false} ReturnReads(x: Expr, k: Tokens)
    requires Plain(x) && Ends(k)
    ensures ParseExpr(Tok(KReturn, PrintAtom(x, k))) == Yes(Return(x), k)
    decreases x, 6
  {
    hide ParseExpr, ParseAtom, PrintAtom, Plain, AtomStart, Stops, Ends;
    EndsStop8(k);
    AtomReads(x, k);
    PlainAtomHead(x, k);
    AtomToExpr(PrintAtom(x, k), x, k);
    ReturnRead(PrintAtom(x, k), x, k);
  }

  lemma {:induction false} LamReads(params: seq<Param>, body: Expr, k: Tokens)
    requires SourceParams(params, true) && Plain(body) && Ends(k)
    ensures ParseExpr(Tok(KFn, Tok(LParen, PrintParams(params, Tok(RParen, Tok(RightArrow, PrintExpr(body, k)))))))
         == Yes(Lam(params, body), k)
    decreases Lam(params, body), 2
  {
    hide ParseExpr, ParamList, PrintParams, PrintExpr, Plain, SourceParam, Ends, Begins;
    var rest := Tok(RightArrow, PrintExpr(body, k));
    ExprReads(body, k);
    PlainHead(body, k);
    ParamsRead(params, rest);
    LamRead(PrintParams(params, Tok(RParen, rest)), params, PrintExpr(body, k), body, k);
  }

  lemma ParamReads(p: Param, k: Tokens)
    requires SourceParam(p, true) && TypeEnds(k) && !Starts(k, ColonSign)
    ensures ParseParam(PrintParam(p, k)) == Yes(p, k) && SkipLines(PrintParam(p, k)) == PrintParam(p, k)
  {
    hide ParsePat, PrintPat, ParseType, PrintType, SourcePat, SourceType, HasClash;
    match p.ty
    case Some(t) =>
      PlainTypeReads(t, k);
      PatRoundTrip(p.pat, Tok(ColonSign, PrintType(t, k)));
      PatHead(p.pat, Tok(ColonSign, PrintType(t, k)));
    case None =>
      PatRoundTrip(p.pat, k);
      PatHead(p.pat, k);
  }

  lemma {:induction false} MoreParamsRead(ps: seq<Param>, k: Tokens)
    requires SourceParams(ps, true)
    ensures MoreParams(PrintMoreParams(ps, Tok(RParen, k))) == Yes(ps, Tok(RParen, k))
  {
    hide ParseParam, PrintParam, SourceParam, Comma;
    if ps == [] {
      NoComma(RParen, k);
    } else {
      var next := PrintMoreParams(ps[1..], Tok(RParen, k));
      MoreParamsRead(ps[1..], k);
      ParamReads(ps[0], next);
      CommaThen(PrintParam(ps[0], next));
      assert [ps[0]] + ps[1..] == ps;
    }
  }

  lemma ParamsRead(ps: seq<Param>, k: Tokens)
    requires SourceParams(ps, true)
    ensures var inner := PrintParams(ps, Tok(RParen, k));
            ParamList(inner) == Yes(ps, Tok(RParen, k)) && SkipLines(inner) == inner
  {
    hide ParseParam, PrintParam, SourceParam, MoreParams;
    if ps == [] {
      NoParam(Tok(RParen, k));
    } else {
      var next := PrintMoreParams(ps[1..], Tok(RParen, k));
      MoreParamsRead(ps[1..], k);
      ParamReads(ps[0], next);
      assert [ps[0]] + ps[1..] == ps;
    }
  }

  lemma NoParam(ts: Tokens)
    requires Starts(ts, RParen)
    ensures ParseParam(ts).No?
  {
  }

  lemma {:induction false} LetReads(p: Pat, rhs: Expr, body: Expr, k: Tokens)
    requires SourcePat(p) && Plain(rhs) && Plain(body) && Ends(k)
    ensures var ts := PrintPat(p, Tok(EqSign, PrintExpr(rhs, Tok(KIn, PrintExpr(body, k)))));
            ParseLetIn(ts) == Yes(Let(p, rhs, body), k) && ParseLetStmt(ts) == Yes(SExpr(Let(p, rhs, body)), k)
    decreases Let(p, rhs, body), 2
  {
    hide ParseExpr, PrintExpr, ParsePat, PrintPat, ParseLetIn, ParseLetStmt, Plain, SourcePat, Ends, Begins;
    var bodyToks := PrintExpr(body, k);
    var rhsToks := PrintExpr(rhs, Tok(KIn, bodyToks));
    ExprReads(body, k);
    PlainHead(body, k);
    CloserEnds(KIn, bodyToks);
    ExprReads(rhs, Tok(KIn, bodyToks));
    PatRoundTrip(p, Tok(EqSign, rhsToks));
    LetRead(PrintPat(p, Tok(EqSign, rhsToks)), p, rhsToks, rhs, bodyToks, body, k);
  }

  lemma BranchKeywords()
    ensures Level(KThen) == 10 && Level(KElse) == 10
  {
  }

  lemma {:induction false} IfReads(c: Expr, t: Expr, f: Expr, k: Tokens)
    requires Plain(c) && Plain(t) && Plain(f) && Ends(k)
    ensures ParseIf(PrintExpr(c, Tok(KThen, PrintExpr(t, Tok(KElse, PrintExpr(f, k)))))) == Yes(If(c, t, f), k)
    decreases If(c, t, f), 2
  {
    hide *;
    BranchKeywords();
    var fToks := PrintExpr(f, k);
    var tToks := PrintExpr(t, Tok(KElse, fToks));
    ExprReads(f, k);
    CloserEnds(KElse, fToks);
    ExprReads(t, Tok(KElse, fToks));
    CloserEnds(KThen, tToks);
    ExprReads(c, Tok(KThen, tToks));
    IfRead(PrintExpr(c, Tok(KThen, tToks)), c, tToks, t, fToks, f, k);
  }

  lemma {:induction false} BraceReads(x: Expr, k: Tokens)
    requires Plain(x)
    ensures Braced(Tok(LBrace, PrintExpr(x, Tok(RBrace, k)))) == Yes(x, k)
    decreases x, 5
  {
    hide PrintExpr, ParseExpr, Braced, Plain, Begins;
    CloserEnds(RBrace, k);
    ExprReads(x, Tok(RBrace, k));
    PlainHead(x, Tok(RBrace, k));
    BracedRead(PrintExpr(x, Tok(RBrace, k)), x, k);
  }

  lemma {:induction false} ParReads(body: Expr, count: Expr, k: Tokens)
    requires Plain(body) && Plain(count) && Ends(k)
    ensures ParseExpr(Tok(KPar, Tok(LBrace, PrintExpr(body, Tok(RBrace, Tok(StarSign, PrintAtom(count, k)))))))
         == Yes(Par(body, count), k)
    decreases Par(body, count), 2
  {
    hide ParseExpr, PrintExpr, PrintAtom, ParseAtom, ParseTerms, ParseProduct, Braced, Plain, AtomStart, Stops, Ends;
    var rest := Tok(StarSign, PrintAtom(count, k));
    var ts := Tok(LBrace, PrintExpr(body, Tok(RBrace, rest)));
    EndsStop8(k);
    BraceReads(body, rest);
    AtomReads(count, k);
    PlainAtomHead(count, k);
    AtomToProduct(PrintAtom(count, k), count, k);
    ParRead(ts, body, PrintAtom(count, k), count, k);
    ClimbProduct(Tok(KPar, ts), Par(body, count), k);
  }

  lemma {:induction false} ParNReads(items: seq<Expr>, k: Tokens)
    requires SourceExprs(items, true) && items != [] && Ends(k)
    ensures ParseExpr(Tok(KPar, Tok(LBrace, PrintExprs(items, Tok(RBrace, k))))) == Yes(ParN(items), k)
    decreases items, 7
  {
    hide ParseExpr, PrintExprs, ParseProduct, ParRepeat, ExprList, SourceExpr, Stops, Ends;
    var inner := PrintExprs(items, Tok(RBrace, k));
    EndsStop8(k);
    ExprsRead(items, RBrace, k);
    FirstNoRepeat(items, k);
    ParNRead(inner, items, k);
    ClimbProduct(Tok(KPar, Tok(LBrace, inner)), ParN(items), k);
  }

  lemma {:induction false} FirstNoRepeat(items: seq<Expr>, k: Tokens)
    requires SourceExprs(items, true) && items != [] && Ends(k)
    ensures ParRepeat(Tok(LBrace, PrintExprs(items, Tok(RBrace, k)))).No?
    decreases items, 6
  {
    hide ParseExpr, PrintExpr, ParRepeat, SourceExpr, Begins;
    var rest := PrintMoreExprs(items[1..], Tok(RBrace, k));
    MoreExprsEnd(items[1..], RBrace, k);
    ExprReads(items[0], rest);
    PlainHead(items[0], rest);
    NoRepeat(PrintExpr(items[0], rest), items[0], rest);
  }

  // ── Lists of expressions ───────────────────────────────────────────────────

  predicate IsCloser(t: Token) {
    t.RParen? || t.RBracket? || t.RBrace?
  }

  lemma MoreExprsEnd(es: seq<Expr>, close: Token, k: Tokens)
    requires IsCloser(close)
    ensures var ts := PrintMoreExprs(es, Tok(close, k)); Ends(ts) && SkipLines(ts) == ts
    ensures es != [] ==> Starts(PrintMoreExprs(es, Tok(close, k)), CommaSign)
  {
    hide PrintExpr, Ends;
    if es == [] { CloserEnds(close, k); }
    else { CloserEnds(CommaSign, PrintExpr(es[0], PrintMoreExprs(es[1..], Tok(close, k)))); }
  }

  lemma {:induction false} MoreExprsRead(es: seq<Expr>, close: Token, k: Tokens)
    requires SourceExprs(es, true) && IsCloser(close)
    ensures MoreExprs(PrintMoreExprs(es, Tok(close, k))) == Yes(es, Tok(close, k))
    decreases es, 6
  {
    hide ParseExpr, PrintExpr, SourceExpr, Comma, Begins, Ends;
    if es == [] {
      NoComma(close, k);
    } else {
      var next := PrintMoreExprs(es[1..], Tok(close, k));
      MoreExprsEnd(es[1..], close, k);
      MoreExprsRead(es[1..], close, k);
      ExprReads(es[0], next);
      PlainHead(es[0], next);
      CommaThen(PrintExpr(es[0], next));
      assert [es[0]] + es[1..] == es;
    }
  }

  lemma {:induction false} ExprsRead(es: seq<Expr>, close: Token, k: Tokens)
    requires SourceExprs(es, true) && IsCloser(close)
    ensures var inner := PrintExprs(es, Tok(close, k));
            ExprList(inner) == Yes(es, Tok(close, k)) && SkipLines(inner) == inner
    decreases es, 6
  {
    hide ParseExpr, PrintExpr, SourceExpr, MoreExprs, PrintMoreExprs, Begins, Ends;
    if es == [] {
      NoExpr(Tok(close, k));
    } else {
      var next := PrintMoreExprs(es[1..], Tok(close, k));
      MoreExprsEnd(es[1..], close, k);
      MoreExprsRead(es[1..], close, k);
      ExprReads(es[0], next);
      PlainHead(es[0], next);
      assert [es[0]] + es[1..] == es;
    }
  }

  // ── Atoms ──────────────────────────────────────────────────────────────────

  /** Self-delimiting forms read back whatever follows them. */
  lemma {:induction false} BareReads(e: Expr, k: Tokens)
    requires Plain(e) && Atomic(e)
    ensures ParseAtom(PrintExpr(e, k)) == Yes(e, k)
    decreases e, 3
  {
    hide ParseAtom, PrintAtom, PrintExprs, PrintStmts, PrintArms, PrintBindings, PrintPat, SourcePat, SourceTy, SourceStmt;
    match e
    case Unit =>
      EmptyArgs(k);
      GroupRead(Tok(RParen, k), [], k);
    case Tuple(items) => TupleReads(items, k);
    case List(items) => ListReads(items, k);
    case CircuitBlock(stmts) => BlockReads(stmts, k); BlocksRead(PrintExpr(e, k).tail, stmts, k);
    case RunBlock(stmts) => BlockReads(stmts, k); BlocksRead(PrintExpr(e, k).tail, stmts, k);
    case Borrow(bindings, stmts) => BorrowReads(bindings, stmts, k);
    case For(p, iter, body) => ForReads(p, iter, body, k);
    case Match(s, arms) => MatchReads(s, arms, k);
    case Adjoint(x) => GroupReads(x, k); WrappedRead(PrintExpr(e, k).tail, x, k);
    case Controlled(x) => GroupReads(x, k); WrappedRead(PrintExpr(e, k).tail, x, k);
    case _ => LeafReads(e, k);
  }

  lemma LeafReads(e: Expr, k: Tokens)
    requires Plain(e) && (e.Int? || e.Float? || e.Bool? || e.Var?)
    ensures ParseAtom(PrintExpr(e, k)) == Yes(e, k)
  {
    hide CallArgs, ParseList, Block, ParseBorrow, ParseFor, ParseMatch, Parenthesised;
  }

  lemma {:induction false} TupleReads(items: seq<Expr>, k: Tokens)
    requires SourceExprs(items, true) && |items| >= 2
    ensures ParseAtom(Tok(LParen, PrintExprs(items, Tok(RParen, k)))) == Yes(Tuple(items), k)
    decreases items, 7
  {
    hide ParseAtom, CallArgs, ExprList, PrintExprs, SourceExpr;
    ExprsRead(items, RParen, k);
    ArgsRead(PrintExprs(items, Tok(RParen, k)), items, k);
    GroupRead(PrintExprs(items, Tok(RParen, k)), items, k);
  }

  lemma {:induction false} ListReads(items: seq<Expr>, k: Tokens)
    requires SourceExprs(items, true)
    ensures ParseAtom(Tok(LBracket, PrintExprs(items, Tok(RBracket, k)))) == Yes(List(items), k)
    decreases items, 7
  {
    hide ParseAtom, ExprList, PrintExprs, SourceExpr;
    ExprsRead(items, RBracket, k);
    ListRead(PrintExprs(items, Tok(RBracket, k)), items, k);
  }

  lemma {:induction false} ForReads(p: Pat, iter: Expr, body: Expr, k: Tokens)
    requires SourcePat(p) && Plain(iter) && Plain(body)
    ensures ParseAtom(Tok(KFor, PrintPat(p, Tok(KIn, PrintAtom(iter, Tok(LBrace, PrintExpr(body, Tok(RBrace, k))))))))
         == Yes(For(p, iter, body), k)
    decreases For(p, iter, body), 2
  {
    hide ParseAtom, ParseExpr, PrintExpr, PrintAtom, ParsePat, PrintPat, Braced, Plain, SourcePat, AtomStart, Stops, Level;
    var bodyToks := Tok(LBrace, PrintExpr(body, Tok(RBrace, k)));
    var iterToks := PrintAtom(iter, bodyToks);
    BraceReads(body, k);
    OperandBeforeBrace(iter, bodyToks);
    PatRoundTrip(p, Tok(KIn, iterToks));
    ForRead(PrintPat(p, Tok(KIn, iterToks)), p, iterToks, iter, bodyToks, body, k);
  }

  /** A printed operand before an opening brace. */
  lemma {:induction false} OperandBeforeBrace(e: Expr, k: Tokens)
    requires Plain(e) && Starts(k, LBrace)
    ensures ParseExpr(PrintAtom(e, k)) == Yes(e, k)
    decreases e, 6
  {
    hide ParseAtom, ParseExpr, PrintAtom, Plain, AtomStart, Stops;
    BraceStops(k);
    AtomReads(e, k);
    PlainAtomHead(e, k);
    AtomToExpr(PrintAtom(e, k), e, k);
  }

  lemma BraceStops(k: Tokens)
    requires Starts(k, LBrace)
    ensures Stops(k, 8)
  {
  }

  // ── Blocks ─────────────────────────────────────────────────────────────────

  lemma {:induction false} BlockReads(ss: seq<Stmt>, k: Tokens)
    requires SourceStmts(ss, true)
    ensures Block(Tok(LBrace, Tok(Newline, PrintStmts(ss, k)))) == Yes(ss, k)
    decreases ss, 7
  {
    hide StmtsFrom, PrintStmts, Block, SourceStmt;
    StmtsRead(ss, k);
    StmtsHead(ss, k);
    BlockRead(PrintStmts(ss, k), ss, k);
  }

  lemma StmtsHead(ss: seq<Stmt>, k: Tokens)
    requires SourceStmts(ss, true)
    ensures var ts := PrintStmts(ss, k); SkipLines(ts) == ts && !Starts(ts, Pipe)
  {
    hide PrintStmt, SourceStmt;
    if ss != [] { StmtHead(ss[0], Tok(Newline, PrintStmts(ss[1..], k))); }
  }

  lemma StmtHead(s: Stmt, k: Tokens)
    requires SourceStmt(s, true)
    ensures var ts := PrintStmt(s, k); SkipLines(ts) == ts && !Starts(ts, Pipe)
  {
    hide PrintExpr, PrintPat, SourcePat, Begins, SourceExpr;
    match s
    case SBind(p, _, rhs) => PatHead(p, Tok(LeftArrow, PrintExpr(rhs, k)));
    case SLet(p, rhs) =>
    case SExpr(e) => PlainHead(e, k);
  }

  lemma LineEnds(rest: Tokens)
    requires SkipLines(rest) == rest && !Starts(rest, Pipe)
    ensures Ends(Tok(Newline, rest)) && SkipLines(Tok(Newline, rest)) == rest
  {
  }

  lemma {:induction false} StmtsRead(ss: seq<Stmt>, k: Tokens)
    requires SourceStmts(ss, true)
    ensures StmtsFrom(PrintStmts(ss, k)) == Yes(ss, Tok(RBrace, k))
    decreases ss, 6
  {
    hide ParseStmt, PrintStmt, SourceStmt, Ends;
    if ss == [] {
      NoStmt(Tok(RBrace, k));
    } else {
      var rest := PrintStmts(ss[1..], k);
      StmtsHead(ss[1..], k);
      LineEnds(rest);
      StmtReads(ss[0], Tok(Newline, rest));
      StmtsRead(ss[1..], k);
      assert [ss[0]] + ss[1..] == ss;
    }
  }

  lemma NoStmt(ts: Tokens)
    requires Starts(ts, RBrace)
    ensures ParseStmt(ts).No?
  {
    hide ParseExpr, ParseLetStmt;
    NoExpr(ts);
    assert ParsePat(ts).No?;
  }

  /** A statement reads back at the end of a line. */
  lemma {:induction false} StmtReads(s: Stmt, k: Tokens)
    requires SourceStmt(s, true) && Ends(k) && Starts(k, Newline)
    ensures ParseStmt(PrintStmt(s, k)) == Yes(s, k)
    decreases s, 6
  {
    hide ParseStmt, PrintExpr, PrintPat, SourceExpr, SourcePat, Ends;
    match s
    case SBind(p, _, rhs) => BindReads(p, rhs, k);
    case SLet(p, rhs) => LetStmtReads(p, rhs, k);
    case SExpr(e) => ExprStmtReads(e, k);
  }

  lemma {:induction false} BindReads(p: Pat, rhs: Expr, k: Tokens)
    requires SourcePat(p) && Plain(rhs) && Ends(k)
    ensures ParseStmt(PrintPat(p, Tok(LeftArrow, PrintExpr(rhs, k)))) == Yes(SBind(p, 0, rhs), k)
    decreases rhs, 6
  {
    hide ParseExpr, PrintExpr, ParsePat, PrintPat, Plain, SourcePat, Ends, ParseLetStmt;
    var ts := PrintPat(p, Tok(LeftArrow, PrintExpr(rhs, k)));
    ExprReads(rhs, k);
    PatRoundTrip(p, Tok(LeftArrow, PrintExpr(rhs, k)));
    assert ParseBind(ts) == Yes(SBind(p, 0, rhs), k);
  }

  lemma NoPatternAtLet(ts: Tokens)
    requires Starts(ts, KLet)
    ensures ParseBind(ts).No?
  {
    hide ParseExpr;
  }

  lemma LetFirst(ts: Tokens)
    requires ParseLetStmt(ts).Yes?
    ensures ParseStmt(Tok(KLet, ts)) == ParseLetStmt(ts)
  {
    hide ParseExpr, ParseLetStmt, ParseBind;
    NoPatternAtLet(Tok(KLet, ts));
  }

  lemma {:induction false} LetStmtReads(p: Pat, rhs: Expr, k: Tokens)
    requires SourcePat(p) && Plain(rhs) && Ends(k) && Starts(k, Newline)
    ensures ParseStmt(Tok(KLet, PrintPat(p, Tok(EqSign, PrintExpr(rhs, k))))) == Yes(SLet(p, rhs), k)
    decreases rhs, 6
  {
    hide ParseExpr, PrintExpr, ParsePat, PrintPat, ParseStmt, ParseLetStmt, Plain, SourcePat, Ends;
    var rhsToks := PrintExpr(rhs, k);
    var ts := PrintPat(p, Tok(EqSign, rhsToks));
    ExprReads(rhs, k);
    PatRoundTrip(p, Tok(EqSign, rhsToks));
    LetStmtRead(ts, p, rhsToks, rhs, k);
    LetFirst(ts);
  }

  lemma {:induction false} ExprStmtReads(e: Expr, k: Tokens)
    requires Plain(e) && Ends(k) && Starts(k, Newline)
    ensures ParseStmt(PrintExpr(e, k)) == Yes(SExpr(e), k)
    decreases e, 5
  {
    hide ParseExpr, ParseLetStmt, ParseBind, PrintPat, SourceExpr, Ends, PrintAtom;
    if e.Let? {
      LetExprStmtReads(e.pat, e.rhs, e.body, k);
    } else {
      ExprReads(e, k);
      BindRefused(e, k);
      NotALet(e, k);
    }
  }

  lemma NotALet(e: Expr, k: Tokens)
    requires Plain(e) && !e.Let?
    ensures !Starts(PrintExpr(e, k), KLet)
  {
    hide PrintAtom, PrintExprs, PrintStmts, PrintArms, PrintBindings, PrintPat, PrintParams, AtomStart, PrintAngles, PrintType, SourceExpr;
    match e
    case App(f, x) => OperandIsNoLet(e, f, Tok(LParen, PrintExpr(x, Tok(RParen, k))));
    case TypeApp(callee, targs) => OperandIsNoLet(e, callee, PrintAngles(targs, k));
    case Bin(op, l, r) => OperandIsNoLet(e, l, Tok(OpSign(op), PrintAtom(r, k)));
    case Compose(l, r) => OperandIsNoLet(e, l, Tok(Pipe, PrintAtom(r, k)));
    case GateApp(g, q) => OperandIsNoLet(e, g, Tok(AtSign, PrintAtom(q, k)));
    case Ascribe(x, t) => OperandIsNoLet(e, x, Tok(ColonSign, PrintType(t, k)));
    case _ => OtherIsNoLet(e, k);
  }

  lemma OtherIsNoLet(e: Expr, k: Tokens)
    requires Plain(e) && !e.Let? && !(e.App? || e.TypeApp? || e.Bin? || e.Compose? || e.GateApp? || e.Ascribe?)
    ensures !Starts(PrintExpr(e, k), KLet)
  {
    hide PrintAtom, PrintExprs, PrintStmts, PrintArms, PrintBindings, PrintPat, PrintParams;
  }

  lemma OperandIsNoLet(e: Expr, x: Expr, k: Tokens)
    requires Plain(e) && (e.App? || e.TypeApp? || e.Bin? || e.Compose? || e.GateApp? || e.Ascribe?)
    requires x == if e.App? then e.fn else if e.TypeApp? then e.callee else if e.Bin? || e.Compose? then e.lhs
                  else if e.GateApp? then e.gate else e.inner
    ensures !Starts(PrintAtom(x, k), KLet)
  {
    hide PrintAtom;
    PlainAtomHead(x, k);
  }

  lemma {:induction false} LetExprStmtReads(p: Pat, rhs: Expr, body: Expr, k: Tokens)
    requires Plain(Let(p, rhs, body)) && Ends(k)
    ensures ParseStmt(PrintExpr(Let(p, rhs, body), k)) == Yes(SExpr(Let(p, rhs, body)), k)
    decreases Let(p, rhs, body), 4
  {
    hide ParseExpr, ParsePat, PrintPat, ParseStmt, ParseLetStmt, ParseLetIn, SourcePat, Ends;
    var ts := PrintPat(p, Tok(EqSign, PrintExpr(rhs, Tok(KIn, PrintExpr(body, k)))));
    LetReads(p, rhs, body, k);
    LetFirst(ts);
  }

  // ── Arms and bindings ──────────────────────────────────────────────────────

  lemma ArmHead(arm: Arm, k: Tokens)
    requires SourcePat(arm.pat)
    ensures PrintArm(arm, k).Tok? && !IsSeparator(PrintArm(arm, k))
  {
    hide PrintPat, PrintExpr, SourcePat;
    PatHead(arm.pat, Tok(FatArrow, PrintExpr(arm.body, k)));
  }

  lemma SkipOne(t: Token, ts: Tokens)
    requires IsSeparator(Tok(t, ts))
    ensures SkipSeparators(Tok(t, ts)) == SkipSeparators(ts)
  {
  }

  lemma SkipDone(ts: Tokens)
    requires !IsSeparator(ts)
    ensures SkipSeparators(ts) == ts
  {
  }

  lemma ArmsHead(arms: seq<Arm>, k: Tokens)
    requires SourceArms(arms, true)
    ensures !IsSeparator(PrintArms(arms, k)) && SkipSeparators(PrintMoreArms(arms, k)) == PrintArms(arms, k)
    ensures Ends(PrintMoreArms(arms, k)) && IsSeparator(PrintMoreArms(arms, k))
  {
    hide PrintArm, SourceExpr, SourcePat, SkipSeparators, Ends;
    if arms == [] {
      SkipDone(Tok(RBrace, k));
      SkipOne(Newline, Tok(RBrace, k));
      LineEnds(Tok(RBrace, k));
    } else {
      var first := PrintArm(arms[0], PrintMoreArms(arms[1..], k));
      ArmHead(arms[0], PrintMoreArms(arms[1..], k));
      SkipDone(first);
      SkipOne(Newline, first);
      SkipOne(CommaSign, Tok(Newline, first));
      CloserEnds(CommaSign, Tok(Newline, first));
    }
  }

  lemma {:induction false} ArmsRead(arms: seq<Arm>, k: Tokens)
    requires SourceArms(arms, true)
    ensures ArmsFrom(PrintArms(arms, k)) == Yes(arms, Tok(RBrace, k))
    decreases arms, 6
  {
    hide ParseArm, PrintArm, PrintMoreArms, SourceExpr, SourcePat, Ends, SkipSeparators;
    if arms == [] {
      NoArm(Tok(RBrace, k));
    } else {
      var rest := PrintMoreArms(arms[1..], k);
      ArmsHead(arms[1..], k);
      ArmReads(arms[0], rest);
      ArmsRead(arms[1..], k);
      assert [arms[0]] + arms[1..] == arms;
    }
  }

  lemma NoArm(ts: Tokens)
    requires Starts(ts, RBrace)
    ensures ParseArm(ts).No?
  {
    hide ParseExpr;
  }

  lemma {:induction false} ArmReads(arm: Arm, k: Tokens)
    requires SourcePat(arm.pat) && Plain(arm.body) && Ends(k)
    ensures ParseArm(PrintArm(arm, k)) == Yes(arm, k)
    decreases arm, 6
  {
    hide ParseExpr, PrintExpr, ParsePat, PrintPat, Plain, SourcePat, Ends;
    ExprReads(arm.body, k);
    PatRoundTrip(arm.pat, Tok(FatArrow, PrintExpr(arm.body, k)));
  }

  lemma {:induction false} MatchReads(s: Expr, arms: seq<Arm>, k: Tokens)
    requires Plain(s) && SourceArms(arms, true)
    ensures ParseAtom(Tok(KMatch, PrintAtom(s, Tok(LBrace, Tok(Newline, PrintArms(arms, k)))))) == Yes(Match(s, arms), k)
    decreases Match(s, arms), 2
  {
    hide ParseAtom, ParseExpr, PrintAtom, PrintArms, ArmsFrom, SourceExpr, SourcePat;
    var inner := PrintArms(arms, k);
    OperandBeforeBrace(s, Tok(LBrace, Tok(Newline, inner)));
    ArmsRead(arms, k);
    ArmsHead(arms, k);
    MatchRead(PrintAtom(s, Tok(LBrace, Tok(Newline, inner))), s, inner, arms, k);
  }

  lemma BindingReads(b: Binding, k: Tokens)
    requires SourceTy(b.ty, true) && TypeEnds(k)
    ensures ParseBinding(PrintBinding(b, k)) == Yes(b, k) && SkipLines(PrintBinding(b, k)) == PrintBinding(b, k)
  {
    hide ParseType, PrintType, SourceTy;
    PlainTypeReads(b.ty, k);
  }

  lemma {:induction false} MoreBindingsRead(bs: seq<Binding>, k: Tokens)
    requires SourceBindings(bs, true)
    ensures var ts := PrintMoreBindings(bs, Tok(KIn, k)); MoreBindings(ts) == Yes(bs, Tok(KIn, k)) && TypeEnds(ts)
  {
    hide ParseBinding, PrintBinding, SourceTy, Comma;
    if bs == [] {
      NoComma(KIn, k);
    } else {
      var next := PrintMoreBindings(bs[1..], Tok(KIn, k));
      MoreBindingsRead(bs[1..], k);
      BindingReads(bs[0], next);
      CommaThen(PrintBinding(bs[0], next));
      assert [bs[0]] + bs[1..] == bs;
    }
  }

  lemma BindingsRead(bs: seq<Binding>, k: Tokens)
    requires SourceBindings(bs, true) && bs != []
    ensures Bindings(PrintBindings(bs, Tok(KIn, k))) == Yes(bs, Tok(KIn, k))
  {
    hide ParseBinding, PrintBinding, SourceTy, MoreBindings, PrintMoreBindings;
    var next := PrintMoreBindings(bs[1..], Tok(KIn, k));
    MoreBindingsRead(bs[1..], k);
    BindingReads(bs[0], next);
    assert [bs[0]] + bs[1..] == bs;
  }

  lemma {:induction false} BorrowReads(bindings: seq<Binding>, ss: seq<Stmt>, k: Tokens)
    requires SourceBindings(bindings, true) && bindings != [] && SourceStmts(ss, true)
    ensures ParseAtom(Tok(KBorrow, PrintBindings(bindings, Tok(KIn, Tok(LBrace, Tok(Newline, PrintStmts(ss, k)))))))
         == Yes(Borrow(bindings, ss), k)
    decreases Borrow(bindings, ss), 2
  {
    hide ParseAtom, Bindings, PrintBindings, Block, PrintStmts, SourceStmt, SourceTy;
    var block := Tok(LBrace, Tok(Newline, PrintStmts(ss, k)));
    BlockReads(ss, k);
    BindingsRead(bindings, block);
    BorrowRead(PrintBindings(bindings, Tok(KIn, block)), bindings, block, ss, k);
  }
}
