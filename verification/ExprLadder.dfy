/** How an expression climbs the levels of the grammar when nothing after it continues it. */
module ExprLadder {
  import opened Ast
  import opened Tokens
  import opened NatGrammar
  import opened PatGrammar
  import opened TypeGrammar
  import opened TypeRoundTrip
  import opened ExprGrammar
  import opened ExprPrinter

  // ── What may start and what may continue an expression ─────────────────────

  predicate AtomStart(ts: Tokens) {
    && ts.Tok?
    && var t := ts.head;
       || t.IntToken? || t.FloatToken? || t.IdentToken? || t.KTrue? || t.KFalse? || t.LParen? || t.LBracket?
       || t.KCircuit? || t.KRun? || t.KBorrow? || t.KFor? || t.KMatch? || t.KAdjoint? || t.KControlled?
  }

  predicate Prefix(ts: Tokens) {
    ts.Tok? && (ts.head.KFn? || ts.head.KLet? || ts.head.KIf? || ts.head.KReturn? || ts.head.KPar? || ts.head.MinusSign?)
  }

  /** The tightest level of the grammar at which a token goes on with what stands before it. */
  function Level(t: Token): int {
    match t
    case LParen => 0
    case LBracket => 0
    case DotSign => 0
    case LAngle => 0
    case AtSign => 2
    case CaretSign => 3
    case StarSign => 4
    case SlashSign => 4
    case PlusSign => 5
    case MinusSign => 5
    case Backtick => 6
    case Pipe => 7
    case ColonSign => 8
    case RightArrow => 9
    case LinearArrow => 9
    case _ => if AtomStart(Tok(t, End)) then 1 else 10
  }

  /** Nothing in `k` goes on with an expression of this level or a tighter one. */
  predicate Stops(k: Tokens, level: int) {
    (k.Tok? ==> Level(k.head) > level) && (level >= 7 ==> !Starts(SkipLines(k), Pipe))
  }

  lemma StopsTighter(k: Tokens, level: int, tighter: int)
    requires Stops(k, level) && tighter <= level
    ensures Stops(k, tighter)
  {
  }

  // ── Where no expression starts ─────────────────────────────────────────────

  lemma NoApplication(ts: Tokens)
    requires !AtomStart(ts)
    ensures ParseAtom(ts).No? && ParsePostfix(ts).No? && ParseApplication(ts).No?
  {
    hide CallArgs, ParseList, Block, ParseBorrow, ParseFor, ParseMatch, Parenthesised, MorePostfix, MoreApplied;
  }

  lemma NoTerms(ts: Tokens)
    requires !AtomStart(ts) && !Prefix(ts)
    ensures ParseTerms(ts).No?
  {
    hide ParseApplication, MorePlaced, MorePowers, MoreTerms;
    NoApplication(ts);
    assert ParseGateApp(ts).No?;
    assert ParseNeg(ts).No?;
    assert ParsePower(ts).No?;
  }

  lemma NoSum(ts: Tokens)
    requires !AtomStart(ts) && !Prefix(ts)
    ensures ParseSum(ts).No?
  {
    hide ParseTerms, MoreSum, ParRepeat, ParTensor;
    NoTerms(ts);
  }

  lemma NoExpr(ts: Tokens)
    requires !AtomStart(ts) && !Prefix(ts)
    ensures ParseExpr(ts).No?
  {
    hide ParseSum, MoreInfix, MoreComposed, ParseLam, ParseLetIn, ParseIf;
    NoSum(ts);
    assert ParseInfix(ts).No?;
    assert ParseCompose(ts).No?;
    assert ParseAscribed(ts).No?;
  }

  // ── One level at a time ────────────────────────────────────────────────────

  lemma NoPost(e: Expr, k: Tokens)
    requires Stops(k, 0)
    ensures ParsePost(e, k).No?
  {
    hide CallArgs, Applied, IndexName, ParseExpr, NatList;
  }

  lemma PostfixStops(ts: Tokens, e: Expr, k: Tokens)
    requires ParseAtom(ts) == Yes(e, k) && Stops(k, 0)
    ensures ParsePostfix(ts) == Yes(e, k)
  {
    hide ParseAtom, ParsePost;
    NoPost(e, k);
    assert MorePostfix(e, k) == Yes(e, k);
  }

  lemma ApplicationStops(ts: Tokens, e: Expr, k: Tokens)
    requires ParsePostfix(ts) == Yes(e, k) && Stops(k, 1)
    ensures ParseApplication(ts) == Yes(e, k)
  {
    hide ParsePostfix;
    NoApplication(k);
    assert MoreApplied(e, k) == Yes(e, k);
  }

  lemma NoMorePlaced(e: Expr, k: Tokens)
    requires Stops(k, 2)
    ensures MorePlaced(e, k) == Yes(e, k)
  {
    hide ParseApplication;
  }

  lemma NoMorePowers(k: Tokens)
    requires Stops(k, 3)
    ensures MorePowers(k) == Yes([], k)
  {
    hide ParseNeg;
  }

  lemma NoMoreTerms(e: Expr, k: Tokens)
    requires Stops(k, 4)
    ensures MoreTerms(e, k) == Yes(e, k)
  {
    hide ParsePower;
  }

  lemma NoMoreSum(e: Expr, k: Tokens)
    requires Stops(k, 5)
    ensures MoreSum(e, k) == Yes(e, k)
  {
    hide ParseProduct;
  }

  lemma NoMoreInfix(e: Expr, k: Tokens)
    requires Stops(k, 6)
    ensures MoreInfix(e, k) == Yes(e, k)
  {
    hide ParseSum;
  }

  lemma NoMoreComposed(e: Expr, k: Tokens)
    requires Stops(k, 7)
    ensures MoreComposed(e, k) == Yes(e, k)
  {
    hide ParseInfix;
  }

  lemma NegStops(ts: Tokens, e: Expr, k: Tokens)
    requires ParseApplication(ts) == Yes(e, k) && Stops(k, 2) && !Starts(ts, MinusSign)
    ensures ParseNeg(ts) == Yes(e, k)
  {
    hide ParseApplication, MorePlaced;
    NoMorePlaced(e, k);
    assert ParseGateApp(ts) == Yes(e, k);
  }

  lemma PowerStops(ts: Tokens, e: Expr, k: Tokens)
    requires ParseNeg(ts) == Yes(e, k) && Stops(k, 3)
    ensures ParsePower(ts) == Yes(e, k)
  {
    hide ParseNeg, MorePowers;
    NoMorePowers(k);
  }

  lemma ProductStops(ts: Tokens, e: Expr, k: Tokens)
    requires ParsePower(ts) == Yes(e, k) && Stops(k, 4)
    ensures ParseTerms(ts) == Yes(e, k)
    ensures !Starts(ts, KPar) ==> ParseProduct(ts) == Yes(e, k)
  {
    hide ParsePower, ParRepeat, ParTensor, MoreTerms;
    NoMoreTerms(e, k);
    assert ParseTerms(ts) == Yes(e, k);
  }

  lemma InfixStops(ts: Tokens, e: Expr, k: Tokens)
    requires ParseProduct(ts) == Yes(e, k) && Stops(k, 6)
    ensures ParseInfix(ts) == Yes(e, k)
  {
    hide ParseProduct, MoreSum, MoreInfix;
    NoMoreSum(e, k);
    NoMoreInfix(e, k);
    assert ParseSum(ts) == Yes(e, k);
  }

  lemma ComposeStops(ts: Tokens, e: Expr, k: Tokens)
    requires ParseInfix(ts) == Yes(e, k) && Stops(k, 7)
    ensures ParseCompose(ts) == Yes(e, k)
  {
    hide ParseInfix, MoreComposed;
    NoMoreComposed(e, k);
  }

  predicate Keyword(ts: Tokens) {
    Starts(ts, KFn) || Starts(ts, KLet) || Starts(ts, KIf) || Starts(ts, KReturn)
  }

  lemma ExprStops(ts: Tokens, e: Expr, k: Tokens)
    requires ParseCompose(ts) == Yes(e, k) && Stops(k, 8) && !Keyword(ts)
    ensures ParseExpr(ts) == Yes(e, k)
  {
    hide ParseCompose, ParseLam, ParseLetIn, ParseIf, SkipLines, ParseType;
    assert ParseAscribed(ts) == Yes(e, k);
  }

  // ── Several levels ─────────────────────────────────────────────────────────

  lemma ClimbProduct(ts: Tokens, e: Expr, k: Tokens)
    requires ParseProduct(ts) == Yes(e, k) && Stops(k, 8) && !Keyword(ts)
    ensures ParseExpr(ts) == Yes(e, k)
  {
    hide ParseProduct, ParseInfix, ParseCompose, ParseExpr;
    StopsTighter(k, 8, 6);
    StopsTighter(k, 8, 7);
    InfixStops(ts, e, k);
    ComposeStops(ts, e, k);
    ExprStops(ts, e, k);
  }

  lemma ClimbPower(ts: Tokens, e: Expr, k: Tokens)
    requires ParsePower(ts) == Yes(e, k) && Stops(k, 8) && !Keyword(ts) && !Starts(ts, KPar)
    ensures ParseExpr(ts) == Yes(e, k)
  {
    hide ParsePower, ParseProduct, ParseTerms, ParseExpr;
    StopsTighter(k, 8, 4);
    ProductStops(ts, e, k);
    ClimbProduct(ts, e, k);
  }

  lemma ClimbNeg(ts: Tokens, e: Expr, k: Tokens)
    requires ParseNeg(ts) == Yes(e, k) && Stops(k, 8) && !Keyword(ts) && !Starts(ts, KPar)
    ensures ParseExpr(ts) == Yes(e, k)
  {
    hide ParseNeg, ParsePower, ParseExpr;
    StopsTighter(k, 8, 3);
    PowerStops(ts, e, k);
    ClimbPower(ts, e, k);
  }

  lemma ClimbPostfix(ts: Tokens, e: Expr, k: Tokens)
    requires ParsePostfix(ts) == Yes(e, k) && Stops(k, 8) && AtomStart(ts)
    ensures ParseExpr(ts) == Yes(e, k)
  {
    hide ParsePostfix, ParseApplication, ParseNeg, ParseExpr;
    StopsTighter(k, 8, 1);
    StopsTighter(k, 8, 2);
    ApplicationStops(ts, e, k);
    NegStops(ts, e, k);
    ClimbNeg(ts, e, k);
  }

  lemma AtomToApplication(ts: Tokens, e: Expr, k: Tokens)
    requires ParseAtom(ts) == Yes(e, k) && Stops(k, 1)
    ensures ParseApplication(ts) == Yes(e, k)
  {
    hide ParseAtom, ParsePostfix, ParseApplication;
    StopsTighter(k, 1, 0);
    PostfixStops(ts, e, k);
    ApplicationStops(ts, e, k);
  }

  lemma AtomToNeg(ts: Tokens, e: Expr, k: Tokens)
    requires ParseAtom(ts) == Yes(e, k) && Stops(k, 2) && AtomStart(ts)
    ensures ParseNeg(ts) == Yes(e, k)
  {
    hide ParseAtom, ParseApplication, ParseNeg;
    StopsTighter(k, 2, 1);
    AtomToApplication(ts, e, k);
    NegStops(ts, e, k);
  }

  lemma AtomToPower(ts: Tokens, e: Expr, k: Tokens)
    requires ParseAtom(ts) == Yes(e, k) && Stops(k, 3) && AtomStart(ts)
    ensures ParsePower(ts) == Yes(e, k)
  {
    hide ParseAtom, ParseNeg, ParsePower;
    StopsTighter(k, 3, 2);
    AtomToNeg(ts, e, k);
    PowerStops(ts, e, k);
  }

  lemma AtomToProduct(ts: Tokens, e: Expr, k: Tokens)
    requires ParseAtom(ts) == Yes(e, k) && Stops(k, 4) && AtomStart(ts)
    ensures ParseTerms(ts) == Yes(e, k) && ParseProduct(ts) == Yes(e, k)
  {
    hide ParseAtom, ParsePower, ParseTerms, ParseProduct;
    StopsTighter(k, 4, 3);
    AtomToPower(ts, e, k);
    ProductStops(ts, e, k);
  }

  lemma AtomToInfix(ts: Tokens, e: Expr, k: Tokens)
    requires ParseAtom(ts) == Yes(e, k) && Stops(k, 6) && AtomStart(ts)
    ensures ParseInfix(ts) == Yes(e, k)
  {
    hide ParseAtom, ParseProduct, ParseInfix;
    StopsTighter(k, 6, 4);
    AtomToProduct(ts, e, k);
    InfixStops(ts, e, k);
  }

  lemma AtomToExpr(ts: Tokens, e: Expr, k: Tokens)
    requires ParseAtom(ts) == Yes(e, k) && Stops(k, 8) && AtomStart(ts)
    ensures ParseExpr(ts) == Yes(e, k)
  {
    hide ParseAtom, ParsePostfix, ParseExpr;
    StopsTighter(k, 8, 0);
    PostfixStops(ts, e, k);
    ClimbPostfix(ts, e, k);
  }

  // ── Two operands ───────────────────────────────────────────────────────────

  /** `l op r` for the arithmetic operators. */
  lemma OperatorClimbs(ts: Tokens, op: BinOp, l: Expr, second: Tokens, r: Expr, k: Tokens)
    requires ParseAtom(ts) == Yes(l, Tok(OpSign(op), second)) && AtomStart(ts)
    requires ParseAtom(second) == Yes(r, k) && AtomStart(second) && Stops(k, 8)
    ensures ParseExpr(ts) == Yes(Bin(op, l, r), k)
  {
    hide ParseAtom, ParseNeg, ParsePower, ParseTerms, ParseProduct, ParseExpr;
    var next := Tok(OpSign(op), second);
    if op.Add? || op.Sub? {
      SumClimbs(ts, op, l, second, r, k);
    } else if op.Pow? {
      StopsTighter(k, 8, 2);
      AtomToNeg(ts, l, next);
      AtomToNeg(second, r, k);
      PowClimbs(ts, l, second, r, k);
    } else {
      TermClimbs(ts, op, l, second, r, k);
    }
  }

  lemma PowClimbs(ts: Tokens, l: Expr, second: Tokens, r: Expr, k: Tokens)
    requires ParseNeg(ts) == Yes(l, Tok(CaretSign, second)) && AtomStart(ts)
    requires ParseNeg(second) == Yes(r, k) && Stops(k, 8)
    ensures ParseExpr(ts) == Yes(Bin(Pow, l, r), k)
  {
    hide ParseNeg, ParsePower, ParseExpr;
    PowIsPower(ts, l, second, r, k);
    ClimbPower(ts, Bin(Pow, l, r), k);
  }

  lemma PowIsPower(ts: Tokens, l: Expr, second: Tokens, r: Expr, k: Tokens)
    requires ParseNeg(ts) == Yes(l, Tok(CaretSign, second)) && ParseNeg(second) == Yes(r, k) && Stops(k, 8)
    ensures ParsePower(ts) == Yes(Bin(Pow, l, r), k)
  {
    hide ParseNeg;
    NoMorePowers(k);
    assert MorePowers(Tok(CaretSign, second)) == Yes([r] + [], k);
    assert PowOf(l, [r]) == Bin(Pow, l, r);
  }

  lemma TermClimbs(ts: Tokens, op: BinOp, l: Expr, second: Tokens, r: Expr, k: Tokens)
    requires op.Mul? || op.Div?
    requires ParseAtom(ts) == Yes(l, Tok(OpSign(op), second)) && AtomStart(ts)
    requires ParseAtom(second) == Yes(r, k) && AtomStart(second) && Stops(k, 8)
    ensures ParseExpr(ts) == Yes(Bin(op, l, r), k)
  {
    hide ParseAtom, ParsePower, ParseTerms, ParseProduct, ParseExpr;
    StopsTighter(k, 8, 3);
    AtomToPower(ts, l, Tok(OpSign(op), second));
    AtomToPower(second, r, k);
    TermIsProduct(ts, op, l, second, r, k);
    ClimbProduct(ts, Bin(op, l, r), k);
  }

  lemma TermIsProduct(ts: Tokens, op: BinOp, l: Expr, second: Tokens, r: Expr, k: Tokens)
    requires (op.Mul? || op.Div?) && !Starts(ts, KPar)
    requires ParsePower(ts) == Yes(l, Tok(OpSign(op), second)) && ParsePower(second) == Yes(r, k) && Stops(k, 8)
    ensures ParseProduct(ts) == Yes(Bin(op, l, r), k)
  {
    hide ParsePower, ParRepeat, ParTensor, MoreTerms;
    OneMoreTerm(op, l, second, r, k);
    assert ParseTerms(ts) == Yes(Bin(op, l, r), k);
  }

  lemma OneMoreTerm(op: BinOp, l: Expr, second: Tokens, r: Expr, k: Tokens)
    requires (op.Mul? || op.Div?) && ParsePower(second) == Yes(r, k) && Stops(k, 8)
    ensures MoreTerms(l, Tok(OpSign(op), second)) == Yes(Bin(op, l, r), k)
  {
    hide ParsePower;
    NoMoreTerms(Bin(op, l, r), k);
  }

  lemma SumClimbs(ts: Tokens, op: BinOp, l: Expr, second: Tokens, r: Expr, k: Tokens)
    requires op.Add? || op.Sub?
    requires ParseAtom(ts) == Yes(l, Tok(OpSign(op), second)) && AtomStart(ts)
    requires ParseAtom(second) == Yes(r, k) && AtomStart(second) && Stops(k, 8)
    ensures ParseExpr(ts) == Yes(Bin(op, l, r), k)
  {
    hide ParseAtom, ParseProduct, ParseInfix, ParseCompose, ParseExpr;
    StopsTighter(k, 8, 4);
    AtomToProduct(ts, l, Tok(OpSign(op), second));
    AtomToProduct(second, r, k);
    SumIsInfix(ts, op, l, second, r, k);
    StopsTighter(k, 8, 7);
    ComposeStops(ts, Bin(op, l, r), k);
    ExprStops(ts, Bin(op, l, r), k);
  }

  lemma SumIsInfix(ts: Tokens, op: BinOp, l: Expr, second: Tokens, r: Expr, k: Tokens)
    requires op.Add? || op.Sub?
    requires ParseProduct(ts) == Yes(l, Tok(OpSign(op), second)) && ParseProduct(second) == Yes(r, k) && Stops(k, 8)
    ensures ParseInfix(ts) == Yes(Bin(op, l, r), k)
  {
    hide ParseProduct, MoreSum, MoreInfix;
    OneMoreSummand(op, l, second, r, k);
    NoMoreInfix(Bin(op, l, r), k);
    assert ParseSum(ts) == Yes(Bin(op, l, r), k);
  }

  lemma OneMoreSummand(op: BinOp, l: Expr, second: Tokens, r: Expr, k: Tokens)
    requires (op.Add? || op.Sub?) && ParseProduct(second) == Yes(r, k) && Stops(k, 8)
    ensures MoreSum(l, Tok(OpSign(op), second)) == Yes(Bin(op, l, r), k)
  {
    hide ParseProduct;
    NoMoreSum(Bin(op, l, r), k);
  }

  /** `g @ q`. */
  lemma PlacementClimbs(ts: Tokens, g: Expr, second: Tokens, q: Expr, k: Tokens)
    requires ParseAtom(ts) == Yes(g, Tok(AtSign, second)) && AtomStart(ts)
    requires ParseAtom(second) == Yes(q, k) && AtomStart(second) && Stops(k, 8)
    ensures ParseExpr(ts) == Yes(GateApp(g, q), k)
  {
    hide ParseAtom, ParseApplication, ParseNeg, ParseExpr;
    StopsTighter(k, 8, 1);
    AtomToApplication(ts, g, Tok(AtSign, second));
    AtomToApplication(second, q, k);
    PlacementIsNeg(ts, g, second, q, k);
    ClimbNeg(ts, GateApp(g, q), k);
  }

  lemma PlacementIsNeg(ts: Tokens, g: Expr, second: Tokens, q: Expr, k: Tokens)
    requires ParseApplication(ts) == Yes(g, Tok(AtSign, second)) && ParseApplication(second) == Yes(q, k)
    requires Stops(k, 8) && !Starts(ts, MinusSign)
    ensures ParseNeg(ts) == Yes(GateApp(g, q), k)
  {
    hide ParseApplication;
    NoMorePlaced(GateApp(g, q), k);
    assert ParseGateApp(ts) == Yes(GateApp(g, q), k);
  }

  /** `l |> r`. */
  lemma PipeClimbs(ts: Tokens, l: Expr, second: Tokens, r: Expr, k: Tokens)
    requires ParseAtom(ts) == Yes(l, Tok(Pipe, second)) && AtomStart(ts)
    requires ParseAtom(second) == Yes(r, k) && AtomStart(second) && Stops(k, 8)
    ensures ParseExpr(ts) == Yes(Compose(l, r), k)
  {
    hide ParseAtom, ParseInfix, ParseCompose, ParseExpr;
    StopsTighter(k, 8, 6);
    AtomToInfix(ts, l, Tok(Pipe, second));
    AtomToInfix(second, r, k);
    PipeIsCompose(ts, l, second, r, k);
    ExprStops(ts, Compose(l, r), k);
  }

  lemma PipeIsCompose(ts: Tokens, l: Expr, second: Tokens, r: Expr, k: Tokens)
    requires ParseInfix(ts) == Yes(l, Tok(Pipe, second)) && ParseInfix(second) == Yes(r, k) && AtomStart(second) && Stops(k, 8)
    ensures ParseCompose(ts) == Yes(Compose(l, r), k)
  {
    hide ParseInfix;
    NoMoreComposed(Compose(l, r), k);
    assert SkipLines(second) == second;
    assert MoreComposed(l, Tok(Pipe, second)) == Yes(Compose(l, r), k);
  }

  /** `- x`. */
  lemma NegClimbs(ts: Tokens, x: Expr, k: Tokens)
    requires ParseAtom(ts) == Yes(x, k) && AtomStart(ts) && Stops(k, 8)
    ensures ParseExpr(Tok(MinusSign, ts)) == Yes(Neg(x), k)
  {
    hide ParseAtom, ParseExpr;
    StopsTighter(k, 8, 2);
    AtomToNeg(ts, x, k);
    ClimbNeg(Tok(MinusSign, ts), Neg(x), k);
  }

  /** `e : t`. */
  lemma AscriptionClimbs(ts: Tokens, e: Expr, second: Tokens, t: Type, k: Tokens)
    requires ParseAtom(ts) == Yes(e, Tok(ColonSign, second)) && AtomStart(ts) && ParseType(second) == Yes(t, k)
    ensures ParseExpr(ts) == Yes(Ascribe(e, t), k)
  {
    hide ParseAtom, ParseInfix, ParseCompose, ParseType;
    AtomToInfix(ts, e, Tok(ColonSign, second));
    ComposeStops(ts, e, Tok(ColonSign, second));
    assert ParseAscribed(ts) == Yes(Ascribe(e, t), k);
  }
}
