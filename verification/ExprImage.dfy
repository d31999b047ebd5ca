/** Whatever tokens it came from, a parsed expression is one the round trip speaks of. */
module ExprImage {
  import opened Ast
  import opened Tokens
  import opened NatGrammar
  import opened PatGrammar
  import opened TypeGrammar
  import opened TypeRoundTrip
  import opened TypeImage
  import opened ExprGrammar

  predicate Good(r: Parsed<Expr>) {
    r.Yes? ==> SourceExpr(r.value, false)
  }

  predicate GoodAll(r: Parsed<seq<Expr>>) {
    r.Yes? ==> SourceExprs(r.value, false)
  }

  lemma JoinsGood(l: Expr, r: Expr)
    requires SourceExpr(l, false) && SourceExpr(r, false)
    ensures SourceExpr(Compose(l, r), false) && SourceExpr(App(l, r), false) && SourceExpr(GateApp(l, r), false)
    ensures SourceExpr(Par(l, r), false)
    ensures forall op :: SourceExpr(Bin(op, l, r), false)
    ensures forall name :: SourceExpr(App(Var(name), l), false)
  {
  }

  // ── Operators ──────────────────────────────────────────────────────────────

  /** A parsed expression is a source expression. */
  lemma {:induction false} ParsedExpr(ts: Tokens)
    ensures Good(ParseExpr(ts))
    decreases ts, 20
  {
    hide ParseLam, ParseLetIn, ParseIf, ParseAscribed, SourceExpr;
    if Starts(ts, KFn) { ParsedLam(ts.tail); }
    else if Starts(ts, KLet) { ParsedLetIn(ts.tail); }
    else if Starts(ts, KIf) { ParsedIf(ts.tail); }
    else if Starts(ts, KReturn) {
      ParsedExpr(ts.tail);
      if ParseExpr(ts.tail).Yes? { ReturnGood(ParseExpr(ts.tail).value); }
    }
    else { ParsedAscribed(ts); }
  }

  lemma {:induction false} ParsedAscribed(ts: Tokens)
    ensures Good(ParseAscribed(ts))
    decreases ts, 19
  {
    hide ParseCompose, ParseType, SourceType, HasClash;
    ParsedCompose(ts);
    var r := ParseCompose(ts);
    if r.Yes? && Starts(r.rest, ColonSign) && ParseType(r.rest.tail).Yes? { ParsedType(r.rest.tail); }
  }

  lemma {:induction false} ParsedCompose(ts: Tokens)
    ensures Good(ParseCompose(ts))
    decreases ts, 18
  {
    hide ParseInfix, MoreComposed, SourceExpr;
    ParsedInfix(ts);
    if ParseInfix(ts).Yes? { ParsedMoreComposed(ParseInfix(ts).value, ParseInfix(ts).rest); }
  }

  lemma {:induction false} ParsedMoreComposed(l: Expr, ts: Tokens)
    requires SourceExpr(l, false)
    ensures Good(MoreComposed(l, ts))
    decreases ts, 18
  {
    hide ParseInfix, SkipLines, SourceExpr;
    if Starts(SkipLines(ts), Pipe) {
      var next := SkipLines(SkipLines(ts).tail);
      ParsedInfix(next);
      var r := ParseInfix(next);
      if r.Yes? { JoinsGood(l, r.value); ParsedMoreComposed(Compose(l, r.value), r.rest); }
    }
  }

  lemma {:induction false} ParsedInfix(ts: Tokens)
    ensures Good(ParseInfix(ts))
    decreases ts, 17
  {
    hide ParseSum, MoreInfix, SourceExpr;
    ParsedSum(ts);
    if ParseSum(ts).Yes? { ParsedMoreInfix(ParseSum(ts).value, ParseSum(ts).rest); }
  }

  lemma {:induction false} ParsedMoreInfix(l: Expr, ts: Tokens)
    requires SourceExpr(l, false)
    ensures Good(MoreInfix(l, ts))
    decreases ts, 17
  {
    hide ParseSum, SourceExpr;
    if Starts(ts, Backtick) && ts.tail.Tok? && ts.tail.head.IdentToken? && Starts(ts.tail.tail, Backtick) {
      ParsedSum(ts.tail.tail.tail);
      var r := ParseSum(ts.tail.tail.tail);
      if r.Yes? {
        JoinsGood(l, r.value);
        JoinsGood(App(Var(ts.tail.head.name), l), r.value);
        ParsedMoreInfix(App(App(Var(ts.tail.head.name), l), r.value), r.rest);
      }
    }
  }

  lemma {:induction false} ParsedSum(ts: Tokens)
    ensures Good(ParseSum(ts))
    decreases ts, 16
  {
    hide ParseProduct, MoreSum, SourceExpr;
    ParsedProduct(ts);
    if ParseProduct(ts).Yes? { ParsedMoreSum(ParseProduct(ts).value, ParseProduct(ts).rest); }
  }

  lemma {:induction false} ParsedMoreSum(l: Expr, ts: Tokens)
    requires SourceExpr(l, false)
    ensures Good(MoreSum(l, ts))
    decreases ts, 16
  {
    hide ParseProduct, SourceExpr;
    if Starts(ts, PlusSign) || Starts(ts, MinusSign) {
      ParsedProduct(ts.tail);
      var r := ParseProduct(ts.tail);
      if r.Yes? { JoinsGood(l, r.value); ParsedMoreSum(Bin(if ts.head.PlusSign? then Add else Sub, l, r.value), r.rest); }
    }
  }

  lemma {:induction false} ParsedProduct(ts: Tokens)
    ensures Good(ParseProduct(ts))
    decreases ts, 15
  {
    hide ParRepeat, ParTensor, ParseTerms, SourceExpr;
    if Starts(ts, KPar) { ParsedRepeat(ts.tail); ParsedTensor(ts.tail); }
    else { ParsedTerms(ts); }
  }

  lemma {:induction false} ParsedRepeat(ts: Tokens)
    ensures Good(ParRepeat(ts))
    decreases ts, 23
  {
    hide Braced, ParseTerms, SourceExpr;
    ParsedBraced(ts);
    var body := Braced(ts);
    if body.Yes? && Starts(body.rest, StarSign) {
      ParsedTerms(body.rest.tail);
      if ParseTerms(body.rest.tail).Yes? { JoinsGood(body.value, ParseTerms(body.rest.tail).value); }
    }
  }

  lemma {:induction false} ParsedTensor(ts: Tokens)
    ensures Good(ParTensor(ts))
    decreases ts, 23
  {
    hide ExprList, SkipLines, SourceExpr;
    if Starts(ts, LBrace) {
      ParsedList(SkipLines(ts.tail));
      ListsGood(ExprList(SkipLines(ts.tail)).value);
    }
  }

  lemma ListsGood(es: seq<Expr>)
    requires SourceExprs(es, false)
    ensures SourceExpr(List(es), false) && (es != [] ==> SourceExpr(ParN(es), false))
  {
  }

  lemma {:induction false} ParsedTerms(ts: Tokens)
    ensures Good(ParseTerms(ts))
    decreases ts, 14
  {
    hide ParsePower, MoreTerms, SourceExpr;
    ParsedPower(ts);
    if ParsePower(ts).Yes? { ParsedMoreTerms(ParsePower(ts).value, ParsePower(ts).rest); }
  }

  lemma {:induction false} ParsedMoreTerms(l: Expr, ts: Tokens)
    requires SourceExpr(l, false)
    ensures Good(MoreTerms(l, ts))
    decreases ts, 14
  {
    hide ParsePower, SourceExpr;
    if Starts(ts, StarSign) || Starts(ts, SlashSign) {
      ParsedPower(ts.tail);
      var r := ParsePower(ts.tail);
      if r.Yes? { JoinsGood(l, r.value); ParsedMoreTerms(Bin(if ts.head.StarSign? then Mul else Div, l, r.value), r.rest); }
    }
  }

  lemma {:induction false} ParsedPower(ts: Tokens)
    ensures Good(ParsePower(ts))
    decreases ts, 13
  {
    hide ParseNeg, MorePowers, PowOf, SourceExpr;
    ParsedNeg(ts);
    if ParseNeg(ts).Yes? {
      ParsedMorePowers(ParseNeg(ts).rest);
      PowIsGood(ParseNeg(ts).value, MorePowers(ParseNeg(ts).rest).value);
    }
  }

  lemma {:induction false} PowIsGood(first: Expr, rest: seq<Expr>)
    requires SourceExpr(first, false) && SourceExprs(rest, false)
    ensures SourceExpr(PowOf(first, rest), false)
    decreases |rest|
  {
    if rest != [] { PowIsGood(rest[0], rest[1..]); }
  }

  lemma {:induction false} ParsedMorePowers(ts: Tokens)
    ensures GoodAll(MorePowers(ts))
    decreases ts, 13
  {
    hide ParseNeg, SourceExpr;
    if Starts(ts, CaretSign) {
      ParsedNeg(ts.tail);
      if ParseNeg(ts.tail).Yes? { ParsedMorePowers(ParseNeg(ts.tail).rest); }
    }
  }

  lemma {:induction false} ParsedNeg(ts: Tokens)
    ensures Good(ParseNeg(ts))
    decreases ts, 12
  {
    hide ParseGateApp;
    if Starts(ts, MinusSign) { ParsedNeg(ts.tail); }
    else { ParsedGateApp(ts); }
  }

  lemma {:induction false} ParsedGateApp(ts: Tokens)
    ensures Good(ParseGateApp(ts))
    decreases ts, 11
  {
    hide ParseApplication, MorePlaced, SourceExpr;
    ParsedApplication(ts);
    if ParseApplication(ts).Yes? { ParsedMorePlaced(ParseApplication(ts).value, ParseApplication(ts).rest); }
  }

  lemma {:induction false} ParsedMorePlaced(g: Expr, ts: Tokens)
    requires SourceExpr(g, false)
    ensures Good(MorePlaced(g, ts))
    decreases ts, 11
  {
    hide ParseApplication, SourceExpr;
    if Starts(ts, AtSign) {
      ParsedApplication(ts.tail);
      var r := ParseApplication(ts.tail);
      if r.Yes? { JoinsGood(g, r.value); ParsedMorePlaced(GateApp(g, r.value), r.rest); }
    }
  }

  lemma {:induction false} ParsedApplication(ts: Tokens)
    ensures Good(ParseApplication(ts))
    decreases ts, 10
  {
    hide ParsePostfix, MoreApplied, SourceExpr;
    ParsedPostfix(ts);
    if ParsePostfix(ts).Yes? { ParsedMoreApplied(ParsePostfix(ts).value, ParsePostfix(ts).rest); }
  }

  lemma {:induction false} ParsedMoreApplied(f: Expr, ts: Tokens)
    requires SourceExpr(f, false)
    ensures Good(MoreApplied(f, ts))
    decreases ts, 10
  {
    hide ParsePostfix, SourceExpr;
    ParsedPostfix(ts);
    var r := ParsePostfix(ts);
    if r.Yes? { JoinsGood(f, r.value); ParsedMoreApplied(App(f, r.value), r.rest); }
  }

  lemma {:induction false} ParsedPostfix(ts: Tokens)
    ensures Good(ParsePostfix(ts))
    decreases ts, 9
  {
    hide ParseAtom, MorePostfix, SourceExpr;
    ParsedAtom(ts);
    if ParseAtom(ts).Yes? { ParsedMorePostfix(ParseAtom(ts).value, ParseAtom(ts).rest); }
  }

  lemma {:induction false} ParsedMorePostfix(base: Expr, ts: Tokens)
    requires SourceExpr(base, false)
    ensures Good(MorePostfix(base, ts))
    decreases ts, 9
  {
    hide ParsePost, SourceExpr;
    ParsedPost(base, ts);
    var r := ParsePost(base, ts);
    if r.Yes? { ParsedMorePostfix(r.value, r.rest); }
  }

  lemma {:induction false} ParsedPost(base: Expr, ts: Tokens)
    requires SourceExpr(base, false)
    ensures Good(ParsePost(base, ts))
    decreases ts, 8
  {
    hide CallArgs, ParseExpr, Applied, IndexName, AngleNats, SkipLines, SourceExpr;
    UnitsGood(base);
    if Starts(ts, LParen) {
      ParsedArgs(ts.tail);
      if CallArgs(ts.tail).Yes? { AppliedIsGood(base, CallArgs(ts.tail).value); }
    } else if Starts(ts, LBracket) {
      ParsedIndex(base, ts);
    } else if Starts(ts, DotSign) {
      ParsedMethod(base, ts);
    } else if AngleNats(ts).Yes? {
      TypeAppGood(base, AngleNats(ts).value);
    }
  }

  lemma {:induction false} ParsedIndex(base: Expr, ts: Tokens)
    requires SourceExpr(base, false) && Starts(ts, LBracket)
    ensures Good(ParsePost(base, ts))
    decreases ts, 7
  {
    hide CallArgs, ParseExpr, Applied, IndexName, SourceExpr, SkipLines, AngleNats;
    ParsedExpr(SkipLines(ts.tail));
    var i := ParseExpr(SkipLines(ts.tail));
    if i.Yes? {
      JoinsGood(base, i.value);
      JoinsGood(App(Var(IndexName()), base), i.value);
    }
  }

  lemma {:induction false} ParsedMethod(base: Expr, ts: Tokens)
    requires SourceExpr(base, false) && Starts(ts, DotSign)
    ensures Good(ParsePost(base, ts))
    decreases ts, 7
  {
    hide CallArgs, ParseExpr, Applied, IndexName, SourceExpr, AngleNats;
    NoAngles(ts);
    UnitsGood(base);
    if ts.tail.Tok? && ts.tail.head.IdentToken? && Starts(ts.tail.tail, LParen) {
      var args := CallArgs(ts.tail.tail.tail);
      ParsedArgs(ts.tail.tail.tail);
      JoinsGood(base, base);
      if args.Yes? { AppliedIsGood(App(Var(ts.tail.head.name), base), args.value); }
    }
  }

  lemma NoAngles(ts: Tokens)
    requires !Starts(ts, LAngle)
    ensures AngleNats(ts).No?
  {
  }

  lemma UnitsGood(base: Expr)
    requires SourceExpr(base, false)
    ensures SourceExpr(App(base, Unit), false)
  {
  }

  lemma TypeAppGood(base: Expr, ns: seq<NatExpr>)
    requires SourceExpr(base, false) && ns != []
    ensures SourceExpr(TypeApp(base, ns), false)
  {
  }

  lemma {:induction false} AppliedIsGood(f: Expr, args: seq<Expr>)
    requires SourceExpr(f, false) && SourceExprs(args, false)
    ensures SourceExpr(Applied(f, args), false)
    decreases |args|
  {
    if args != [] { AppliedIsGood(App(f, args[0]), args[1..]); }
  }

  // ── Lists and brackets ─────────────────────────────────────────────────────

  lemma {:induction false} ParsedArgs(ts: Tokens)
    ensures GoodAll(CallArgs(ts))
    decreases ts, 22
  {
    hide ExprList, SourceExpr, SkipLines;
    ParsedList(SkipLines(ts));
  }

  lemma {:induction false} ParsedList(ts: Tokens)
    ensures GoodAll(ExprList(ts))
    decreases ts, 21
  {
    hide ParseExpr, MoreExprs, SourceExpr;
    ParsedExpr(ts);
    if ParseExpr(ts).Yes? { ParsedMore(ParseExpr(ts).rest); }
  }

  lemma {:induction false} ParsedMore(ts: Tokens)
    ensures GoodAll(MoreExprs(ts))
    decreases ts, 21
  {
    hide ParseExpr, Comma, SourceExpr;
    if Comma(ts).Yes? {
      ParsedExpr(Comma(ts).rest);
      if ParseExpr(Comma(ts).rest).Yes? { ParsedMore(ParseExpr(Comma(ts).rest).rest); }
    }
  }

  lemma {:induction false} ParsedBraced(ts: Tokens)
    ensures Good(Braced(ts))
    decreases ts, 22
  {
    hide ParseExpr, SkipLines, SourceExpr;
    if Starts(ts, LBrace) { ParsedExpr(SkipLines(ts.tail)); }
  }

  lemma {:induction false} ParsedParenthesised(ts: Tokens)
    ensures Good(Parenthesised(ts))
    decreases ts, 22
  {
    hide ParseExpr, SkipLines, SourceExpr;
    if Starts(ts, LParen) { ParsedExpr(SkipLines(ts.tail)); }
  }

  // ── Atoms ──────────────────────────────────────────────────────────────────

  lemma {:induction false} ParsedAtom(ts: Tokens)
    ensures Good(ParseAtom(ts))
    decreases ts, 8
  {
    hide CallArgs, ParseList, Block, ParseBorrow, ParseFor, ParseMatch, Parenthesised, SourceStmt, GroupExpr;
    if ts.Tok? {
      match ts.head
      case LParen =>
        ParsedArgs(ts.tail);
        if CallArgs(ts.tail).Yes? { GroupIsGood(CallArgs(ts.tail).value); }
      case LBracket => ParsedBrackets(ts.tail);
      case KCircuit => ParsedBlock(ts.tail);
      case KRun => ParsedBlock(ts.tail);
      case KBorrow => ParsedBorrow(ts.tail);
      case KFor => ParsedFor(ts.tail);
      case KMatch => ParsedMatch(ts.tail);
      case KAdjoint => ParsedParenthesised(ts.tail);
      case KControlled => ParsedParenthesised(ts.tail);
      case _ =>
    }
  }

  lemma GroupIsGood(es: seq<Expr>)
    requires SourceExprs(es, false)
    ensures SourceExpr(GroupExpr(es), false)
  {
  }

  lemma {:induction false} ParsedBrackets(ts: Tokens)
    ensures Good(ParseList(ts))
    decreases ts, 22
  {
    hide ExprList, SkipLines, SourceExpr;
    ParsedList(SkipLines(ts));
    ListsGood(ExprList(SkipLines(ts)).value);
  }

  lemma {:induction false} ParsedFor(ts: Tokens)
    ensures Good(ParseFor(ts))
    decreases ts, 22
  {
    hide ParsePat, ParseExpr, Braced, SourcePat;
    var p := ParsePat(ts);
    if p.Yes? && Starts(p.rest, KIn) {
      ParsedPat(ts);
      ParsedExpr(p.rest.tail);
      if ParseExpr(p.rest.tail).Yes? { ParsedBraced(ParseExpr(p.rest.tail).rest); }
    }
  }

  lemma ParsedBinding(ts: Tokens)
    ensures ParseBinding(ts).Yes? ==> SourceTy(ParseBinding(ts).value.ty, false)
  {
    hide ParseType, SourceType, HasClash;
    if ts.Tok? && ts.head.IdentToken? && Starts(ts.tail, ColonSign) && ParseType(ts.tail.tail).Yes? { ParsedType(ts.tail.tail); }
  }

  lemma {:induction false} ParsedMoreBindings(ts: Tokens)
    ensures SourceBindings(MoreBindings(ts).value, false)
    decreases ts
  {
    hide ParseBinding, SourceTy, Comma;
    if Comma(ts).Yes? {
      ParsedBinding(Comma(ts).rest);
      if ParseBinding(Comma(ts).rest).Yes? { ParsedMoreBindings(ParseBinding(Comma(ts).rest).rest); }
    }
  }

  lemma ParsedBindings(ts: Tokens)
    ensures Bindings(ts).Yes? ==> Bindings(ts).value != [] && SourceBindings(Bindings(ts).value, false)
  {
    hide ParseBinding, SourceTy, MoreBindings;
    ParsedBinding(ts);
    if ParseBinding(ts).Yes? { ParsedMoreBindings(ParseBinding(ts).rest); }
  }

  lemma {:induction false} ParsedBorrow(ts: Tokens)
    ensures Good(ParseBorrow(ts))
    decreases ts, 22
  {
    hide Bindings, Block, SourceStmt, SourceTy;
    ParsedBindings(ts);
    var r := Bindings(ts);
    if r.Yes? && Starts(r.rest, KIn) { ParsedBlock(r.rest.tail); }
  }

  lemma MatchGood(s: Expr, arms: seq<Arm>)
    requires SourceExpr(s, false) && SourceArms(arms, false)
    ensures SourceExpr(Match(s, arms), false)
  {
  }

  lemma {:induction false} ParsedMatch(ts: Tokens)
    ensures Good(ParseMatch(ts))
    decreases ts, 25
  {
    hide ParseExpr, ArmsFrom, SkipSeparators, SourceExpr, SourceArms;
    ParsedExpr(ts);
    var r := ParseExpr(ts);
    if r.Yes? && Starts(r.rest, LBrace) {
      ParsedArms(SkipSeparators(r.rest.tail));
      MatchGood(r.value, ArmsFrom(SkipSeparators(r.rest.tail)).value);
    }
  }

  lemma {:induction false} ParsedArms(ts: Tokens)
    ensures SourceArms(ArmsFrom(ts).value, false)
    decreases ts, 24
  {
    hide ParseArm, SkipSeparators, SourceExpr, SourcePat;
    ParsedArm(ts);
    var r := ParseArm(ts);
    if r.Yes? && IsSeparator(r.rest) { ParsedArms(SkipSeparators(r.rest)); }
  }

  lemma {:induction false} ParsedArm(ts: Tokens)
    ensures ParseArm(ts).Yes? ==> SourcePat(ParseArm(ts).value.pat) && SourceExpr(ParseArm(ts).value.body, false)
    decreases ts, 23
  {
    hide ParsePat, ParseExpr, SourceExpr, SourcePat;
    var p := ParsePat(ts);
    if p.Yes? && Starts(p.rest, FatArrow) {
      ParsedPat(ts);
      ParsedExpr(p.rest.tail);
    }
  }

  // ── Blocks ─────────────────────────────────────────────────────────────────

  lemma {:induction false} ParsedBlock(ts: Tokens)
    ensures Block(ts).Yes? ==> SourceStmts(Block(ts).value, false)
    decreases ts, 24
  {
    hide StmtsFrom, SourceStmt, SkipLines;
    if Starts(ts, LBrace) { ParsedStmts(SkipLines(ts.tail)); }
  }

  lemma {:induction false} ParsedStmts(ts: Tokens)
    ensures SourceStmts(StmtsFrom(ts).value, false)
    decreases ts, 23
  {
    hide ParseStmt, SourceStmt, SkipLines;
    ParsedStmt(ts);
    var r := ParseStmt(ts);
    if r.Yes? && Starts(r.rest, Newline) { ParsedStmts(SkipLines(r.rest)); }
  }

  lemma {:induction false} ParsedStmt(ts: Tokens)
    ensures ParseStmt(ts).Yes? ==> SourceStmt(ParseStmt(ts).value, false)
    decreases ts, 22
  {
    hide ParseBind, ParseLetStmt, ParseExpr, SourceExpr;
    ParsedBind(ts);
    if Starts(ts, KLet) { ParsedLetStmt(ts.tail); }
    ParsedExpr(ts);
  }

  lemma {:induction false} ParsedBind(ts: Tokens)
    ensures ParseBind(ts).Yes? ==> SourceStmt(ParseBind(ts).value, false)
    decreases ts, 21
  {
    hide ParsePat, ParseExpr, SourceExpr, SourcePat;
    var p := ParsePat(ts);
    if p.Yes? && Starts(p.rest, LeftArrow) {
      ParsedPat(ts);
      ParsedExpr(p.rest.tail);
    }
  }

  lemma {:induction false} ParsedLetStmt(ts: Tokens)
    ensures ParseLetStmt(ts).Yes? ==> SourceStmt(ParseLetStmt(ts).value, false)
    decreases ts, 21
  {
    hide ParsePat, ParseExpr, SourcePat, SourceExpr;
    var p := ParsePat(ts);
    if p.Yes? && Starts(p.rest, EqSign) {
      ParsedPat(ts);
      ParsedExpr(p.rest.tail);
      var rhs := ParseExpr(p.rest.tail);
      if rhs.Yes? && Starts(rhs.rest, KIn) {
        var body := ParseExpr(rhs.rest.tail);
        ParsedExpr(rhs.rest.tail);
        if body.Yes? { BinderGood(p.value, rhs.value, body.value); }
      }
    }
  }

  // ── Right-extending forms ──────────────────────────────────────────────────

  lemma ReturnGood(x: Expr)
    requires SourceExpr(x, false)
    ensures SourceExpr(Return(x), false)
  {
  }

  lemma BinderGood(p: Pat, l: Expr, r: Expr)
    requires SourcePat(p) && SourceExpr(l, false) && SourceExpr(r, false)
    ensures SourceExpr(Let(p, l, r), false) && SourceExpr(For(p, l, r), false)
  {
  }

  lemma IfGood(c: Expr, t: Expr, f: Expr)
    requires SourceExpr(c, false) && SourceExpr(t, false) && SourceExpr(f, false)
    ensures SourceExpr(If(c, t, f), false)
  {
  }

  lemma LamGood(ps: seq<Param>, body: Expr)
    requires SourceParams(ps, false) && SourceExpr(body, false)
    ensures SourceExpr(Lam(ps, body), false)
  {
  }

  lemma {:induction false} ParsedLam(ts: Tokens)
    ensures Good(ParseLam(ts))
    decreases ts, 22
  {
    hide ParamList, ParseExpr, SkipLines, SourceParams, SourceExpr;
    if Starts(ts, LParen) {
      var ps := ParamList(SkipLines(ts.tail));
      ParsedParams(SkipLines(ts.tail));
      var after := SkipLines(ps.rest);
      if Starts(after, RParen) && Starts(after.tail, RightArrow) {
        var body := ParseExpr(SkipLines(after.tail.tail));
        ParsedExpr(SkipLines(after.tail.tail));
        if body.Yes? { LamGood(ps.value, body.value); }
      }
    }
  }

  lemma ParsedParam(ts: Tokens)
    ensures ParseParam(ts).Yes? ==> SourceParam(ParseParam(ts).value, false)
  {
    hide ParsePat, ParseType, SourcePat, SourceType, HasClash;
    var p := ParsePat(ts);
    if p.Yes? {
      ParsedPat(ts);
      if Starts(p.rest, ColonSign) && ParseType(p.rest.tail).Yes? { ParsedType(p.rest.tail); }
    }
  }

  lemma {:induction false} ParsedMoreParams(ts: Tokens)
    ensures SourceParams(MoreParams(ts).value, false)
    decreases ts
  {
    hide ParseParam, SourceParam, Comma;
    if Comma(ts).Yes? {
      ParsedParam(Comma(ts).rest);
      if ParseParam(Comma(ts).rest).Yes? { ParsedMoreParams(ParseParam(Comma(ts).rest).rest); }
    }
  }

  lemma ParsedParams(ts: Tokens)
    ensures SourceParams(ParamList(ts).value, false)
  {
    hide ParseParam, SourceParam, MoreParams;
    ParsedParam(ts);
    if ParseParam(ts).Yes? { ParsedMoreParams(ParseParam(ts).rest); }
  }

  lemma {:induction false} ParsedLetIn(ts: Tokens)
    ensures Good(ParseLetIn(ts))
    decreases ts, 22
  {
    hide ParsePat, ParseExpr, SourcePat, SkipLines, SourceExpr;
    var p := ParsePat(ts);
    if p.Yes? && Starts(p.rest, EqSign) {
      ParsedPat(ts);
      ParsedExpr(p.rest.tail);
      var rhs := ParseExpr(p.rest.tail);
      if rhs.Yes? && Starts(SkipLines(rhs.rest), KIn) {
        var body := ParseExpr(SkipLines(SkipLines(rhs.rest).tail));
        ParsedExpr(SkipLines(SkipLines(rhs.rest).tail));
        if body.Yes? { BinderGood(p.value, rhs.value, body.value); }
      }
    }
  }

  lemma {:induction false} ParsedIf(ts: Tokens)
    ensures Good(ParseIf(ts))
    decreases ts, 22
  {
    hide ParseExpr, SourceExpr;
    ParsedExpr(ts);
    var c := ParseExpr(ts);
    if c.Yes? && Starts(c.rest, KThen) {
      ParsedExpr(c.rest.tail);
      var t := ParseExpr(c.rest.tail);
      if t.Yes? && Starts(t.rest, KElse) {
        var f := ParseExpr(t.rest.tail);
        ParsedExpr(t.rest.tail);
        if f.Yes? { IfGood(c.value, t.value, f.value); }
      }
    }
  }
}
