/** Expressions: the grammar, as ordered choice over the tokens. */
module ExprGrammar {
  import opened Ast
  import opened Tokens
  import opened NatGrammar
  import opened PatGrammar
  import opened TypeGrammar
  import opened TypeRoundTrip

  // ── The trees a parse can yield ────────────────────────────────────────────

  /** A type a parse can yield; a `plain` one also prints as itself. */
  predicate SourceTy(t: Type, plain: bool) {
    SourceType(t) && (plain ==> !HasClash(t))
  }

  predicate SourceParam(p: Param, plain: bool) {
    SourcePat(p.pat) && (p.ty.Some? ==> SourceTy(p.ty.value, plain))
  }

  predicate SourceExpr(e: Expr, plain: bool) {
    match e
    case Int(n) => n >= 0
    case Float(x) => x >= 0.0
    case Bool(_) => true
    case Unit => true
    case Var(_) => true
    case Lam(params, body) => (forall i | 0 <= i < |params| :: SourceParam(params[i], plain)) && SourceExpr(body, plain)
    case App(f, x) => SourceExpr(f, plain) && SourceExpr(x, plain)
    case TypeApp(callee, targs) => targs != [] && SourceExpr(callee, plain)
    case Bin(_, l, r) => SourceExpr(l, plain) && SourceExpr(r, plain)
    case Neg(x) => SourceExpr(x, plain)
    case Let(p, rhs, body) => SourcePat(p) && SourceExpr(rhs, plain) && SourceExpr(body, plain)
    case If(c, t, f) => SourceExpr(c, plain) && SourceExpr(t, plain) && SourceExpr(f, plain)
    case Match(s, arms) =>
      SourceExpr(s, plain) && forall i | 0 <= i < |arms| :: SourcePat(arms[i].pat) && SourceExpr(arms[i].body, plain)
    case For(p, iter, body) => SourcePat(p) && SourceExpr(iter, plain) && SourceExpr(body, plain)
    case Tuple(items) => |items| >= 2 && forall i | 0 <= i < |items| :: SourceExpr(items[i], plain)
    case List(items) => forall i | 0 <= i < |items| :: SourceExpr(items[i], plain)
    case CircuitBlock(stmts) => forall i | 0 <= i < |stmts| :: SourceStmt(stmts[i], plain)
    case RunBlock(stmts) => forall i | 0 <= i < |stmts| :: SourceStmt(stmts[i], plain)
    case Compose(l, r) => SourceExpr(l, plain) && SourceExpr(r, plain)
    case Par(body, count) => SourceExpr(body, plain) && SourceExpr(count, plain)
    case ParN(items) => items != [] && forall i | 0 <= i < |items| :: SourceExpr(items[i], plain)
    case Adjoint(x) => SourceExpr(x, plain)
    case Controlled(x) => SourceExpr(x, plain)
    case GateApp(g, q) => SourceExpr(g, plain) && SourceExpr(q, plain)
    case Bind(_, _, _) => false
    case Return(x) => SourceExpr(x, plain)
    case Borrow(bindings, stmts) =>
      && bindings != []
      && (forall i | 0 <= i < |bindings| :: SourceTy(bindings[i].ty, plain))
      && (forall i | 0 <= i < |stmts| :: SourceStmt(stmts[i], plain))
    case Ascribe(x, t) => SourceExpr(x, plain) && SourceTy(t, plain)
  }

  /** Positions are left out, so a parsed bind stands at offset zero. */
  predicate SourceStmt(s: Stmt, plain: bool) {
    match s
    case SBind(p, at, rhs) => SourcePat(p) && at == 0 && SourceExpr(rhs, plain)
    case SLet(p, rhs) => SourcePat(p) && SourceExpr(rhs, plain)
    case SExpr(e) => SourceExpr(e, plain)
  }

  predicate SourceExprs(es: seq<Expr>, plain: bool) {
    forall i | 0 <= i < |es| :: SourceExpr(es[i], plain)
  }

  predicate SourceStmts(ss: seq<Stmt>, plain: bool) {
    forall i | 0 <= i < |ss| :: SourceStmt(ss[i], plain)
  }

  predicate SourceArms(arms: seq<Arm>, plain: bool) {
    forall i | 0 <= i < |arms| :: SourcePat(arms[i].pat) && SourceExpr(arms[i].body, plain)
  }

  predicate SourceParams(ps: seq<Param>, plain: bool) {
    forall i | 0 <= i < |ps| :: SourceParam(ps[i], plain)
  }

  predicate SourceBindings(bs: seq<Binding>, plain: bool) {
    forall i | 0 <= i < |bs| :: SourceTy(bs[i].ty, plain)
  }

  // ── Operators, loosest first ───────────────────────────────────────────────

  /** `fn`, `let`, `if` and `return` reach as far right as they can; no other rule starts with them. */
  function ParseExpr(ts: Tokens): (r: Parsed<Expr>)
    ensures r.Yes? ==> r.rest < ts
    decreases ts, 20
  {
    if Starts(ts, KFn) then ParseLam(ts.tail)
    else if Starts(ts, KLet) then ParseLetIn(ts.tail)
    else if Starts(ts, KIf) then ParseIf(ts.tail)
    else if Starts(ts, KReturn) then
      var (x, rest) :- ParseExpr(ts.tail);
      Yes(Return(x), rest)
    else ParseAscribed(ts)
  }

  function ParseAscribed(ts: Tokens): (r: Parsed<Expr>)
    ensures r.Yes? ==> r.rest < ts
    decreases ts, 19
  {
    var (e, rest) :- ParseCompose(ts);
    if Starts(rest, ColonSign) then
      match ParseType(rest.tail)
      case No => Yes(e, rest)
      case Yes(t, rest') => Yes(Ascribe(e, t), rest')
    else Yes(e, rest)
  }

  function ParseCompose(ts: Tokens): (r: Parsed<Expr>)
    ensures r.Yes? ==> r.rest < ts
    decreases ts, 18
  {
    var (l, rest) :- ParseInfix(ts);
    MoreComposed(l, rest)
  }

  /** `|>` may stand at the end of a line or at the start of the next. */
  function MoreComposed(l: Expr, ts: Tokens): (r: Parsed<Expr>)
    ensures r.Yes? && Left(r.rest, ts)
    decreases ts, 18
  {
    if Starts(SkipLines(ts), Pipe) then
      match ParseInfix(SkipLines(SkipLines(ts).tail))
      case No => Yes(l, ts)
      case Yes(r, rest) => MoreComposed(Compose(l, r), rest)
    else Yes(l, ts)
  }

  function ParseInfix(ts: Tokens): (r: Parsed<Expr>)
    ensures r.Yes? ==> r.rest < ts
    decreases ts, 17
  {
    var (l, rest) :- ParseSum(ts);
    MoreInfix(l, rest)
  }

  /** `` a `f` b `` is `f(a, b)`. */
  function MoreInfix(l: Expr, ts: Tokens): (r: Parsed<Expr>)
    ensures r.Yes? && Left(r.rest, ts)
    decreases ts, 17
  {
    if Starts(ts, Backtick) && ts.tail.Tok? && ts.tail.head.IdentToken? && Starts(ts.tail.tail, Backtick) then
      match ParseSum(ts.tail.tail.tail)
      case No => Yes(l, ts)
      case Yes(r, rest) => MoreInfix(App(App(Var(ts.tail.head.name), l), r), rest)
    else Yes(l, ts)
  }

  function ParseSum(ts: Tokens): (r: Parsed<Expr>)
    ensures r.Yes? ==> r.rest < ts
    decreases ts, 16
  {
    var (l, rest) :- ParseProduct(ts);
    MoreSum(l, rest)
  }

  function MoreSum(l: Expr, ts: Tokens): (r: Parsed<Expr>)
    ensures r.Yes? && Left(r.rest, ts)
    decreases ts, 16
  {
    if Starts(ts, PlusSign) || Starts(ts, MinusSign) then
      match ParseProduct(ts.tail)
      case No => Yes(l, ts)
      case Yes(r, rest) => MoreSum(Bin(if ts.head.PlusSign? then Add else Sub, l, r), rest)
    else Yes(l, ts)
  }

  /** `par { c } * k` is tried before `par { c1, c2, … }`. */
  function ParseProduct(ts: Tokens): (r: Parsed<Expr>)
    ensures r.Yes? ==> r.rest < ts
    decreases ts, 15
  {
    if Starts(ts, KPar) then
      match ParRepeat(ts.tail)
      case Yes(e, rest) => Yes(e, rest)
      case No => ParTensor(ts.tail)
    else ParseTerms(ts)
  }

  function ParRepeat(ts: Tokens): (r: Parsed<Expr>)
    ensures r.Yes? ==> r.rest < ts
    decreases ts, 23
  {
    var (body, rest) :- Braced(ts);
    var (_, next) :- Expect(rest, StarSign);
    var (count, rest') :- ParseTerms(next);
    Yes(Par(body, count), rest')
  }

  function ParTensor(ts: Tokens): (r: Parsed<Expr>)
    ensures r.Yes? ==> r.rest < ts
    decreases ts, 23
  {
    var (_, inside) :- Expect(ts, LBrace);
    var items := ExprList(SkipLines(inside));
    var (_, after) :- Expect(SkipLines(items.rest), RBrace);
    if items.value == [] then No else Yes(ParN(items.value), after)
  }

  function ParseTerms(ts: Tokens): (r: Parsed<Expr>)
    ensures r.Yes? ==> r.rest < ts
    decreases ts, 14
  {
    var (l, rest) :- ParsePower(ts);
    MoreTerms(l, rest)
  }

  function MoreTerms(l: Expr, ts: Tokens): (r: Parsed<Expr>)
    ensures r.Yes? && Left(r.rest, ts)
    decreases ts, 14
  {
    if Starts(ts, StarSign) || Starts(ts, SlashSign) then
      match ParsePower(ts.tail)
      case No => Yes(l, ts)
      case Yes(r, rest) => MoreTerms(Bin(if ts.head.StarSign? then Mul else Div, l, r), rest)
    else Yes(l, ts)
  }

  function ParsePower(ts: Tokens): (r: Parsed<Expr>)
    ensures r.Yes? ==> r.rest < ts
    decreases ts, 13
  {
    var (first, rest) :- ParseNeg(ts);
    var more := MorePowers(rest);
    Yes(PowOf(first, more.value), more.rest)
  }

  function MorePowers(ts: Tokens): (r: Parsed<seq<Expr>>)
    ensures r.Yes? && Left(r.rest, ts)
    decreases ts, 13
  {
    if Starts(ts, CaretSign) then
      match ParseNeg(ts.tail)
      case No => Yes([], ts)
      case Yes(e, rest) =>
        var more := MorePowers(rest);
        Yes([e] + more.value, more.rest)
    else Yes([], ts)
  }

  /** `^` associates to the right. */
  function PowOf(first: Expr, rest: seq<Expr>): Expr
    decreases |rest|
  {
    if rest == [] then first else Bin(Pow, first, PowOf(rest[0], rest[1..]))
  }

  /** The loop that builds a power from its last operand backwards. */
  method BuildPow(first: Expr, rest: seq<Expr>) returns (r: Expr)
    ensures r == PowOf(first, rest)
  {
    if rest == [] { return first; }
    r := rest[|rest| - 1];
    var i := |rest| - 1;
    while i > 0
      invariant 0 <= i < |rest| && r == PowOf(rest[i], rest[i + 1..])
    {
      assert rest[i..][1..] == rest[i + 1..];
      i := i - 1;
      r := Bin(Pow, rest[i], r);
    }
    r := Bin(Pow, first, r);
  }

  function ParseNeg(ts: Tokens): (r: Parsed<Expr>)
    ensures r.Yes? ==> r.rest < ts
    decreases ts, 12
  {
    if Starts(ts, MinusSign) then
      var (x, rest) :- ParseNeg(ts.tail);
      Yes(Neg(x), rest)
    else ParseGateApp(ts)
  }

  function ParseGateApp(ts: Tokens): (r: Parsed<Expr>)
    ensures r.Yes? ==> r.rest < ts
    decreases ts, 11
  {
    var (g, rest) :- ParseApplication(ts);
    MorePlaced(g, rest)
  }

  function MorePlaced(g: Expr, ts: Tokens): (r: Parsed<Expr>)
    ensures r.Yes? && Left(r.rest, ts)
    decreases ts, 11
  {
    if Starts(ts, AtSign) then
      match ParseApplication(ts.tail)
      case No => Yes(g, ts)
      case Yes(q, rest) => MorePlaced(GateApp(g, q), rest)
    else Yes(g, ts)
  }

  /** Application by juxtaposition. */
  function ParseApplication(ts: Tokens): (r: Parsed<Expr>)
    ensures r.Yes? ==> r.rest < ts
    decreases ts, 10
  {
    var (f, rest) :- ParsePostfix(ts);
    MoreApplied(f, rest)
  }

  function MoreApplied(f: Expr, ts: Tokens): (r: Parsed<Expr>)
    ensures r.Yes? && Left(r.rest, ts)
    decreases ts, 10
  {
    match ParsePostfix(ts)
    case No => Yes(f, ts)
    case Yes(x, rest) => MoreApplied(App(f, x), rest)
  }

  function ParsePostfix(ts: Tokens): (r: Parsed<Expr>)
    ensures r.Yes? ==> r.rest < ts
    decreases ts, 9
  {
    var (e, rest) :- ParseAtom(ts);
    MorePostfix(e, rest)
  }

  function MorePostfix(base: Expr, ts: Tokens): (r: Parsed<Expr>)
    ensures r.Yes? && Left(r.rest, ts)
    decreases ts, 9
  {
    match ParsePost(base, ts)
    case No => Yes(base, ts)
    case Yes(e, rest) => MorePostfix(e, rest)
  }

  /** `q[i]` is `index(q, i)`. */
  function IndexName(): Name { "index" }

  /** One call, index, method call or type application. */
  function ParsePost(base: Expr, ts: Tokens): (r: Parsed<Expr>)
    ensures r.Yes? ==> r.rest < ts
    decreases ts, 8
  {
    if Starts(ts, LParen) then
      var (args, rest) :- CallArgs(ts.tail);
      Yes(if args == [] then App(base, Unit) else Applied(base, args), rest)
    else if Starts(ts, LBracket) then
      var (i, rest) :- ParseExpr(SkipLines(ts.tail));
      var (_, after) :- Expect(SkipLines(rest), RBracket);
      Yes(App(App(Var(IndexName()), base), i), after)
    else if Starts(ts, DotSign) && ts.tail.Tok? && ts.tail.head.IdentToken? && Starts(ts.tail.tail, LParen) then
      var (args, rest) :- CallArgs(ts.tail.tail.tail);
      Yes(Applied(App(Var(ts.tail.head.name), base), args), rest)
    else
      var (ns, rest) :- AngleNats(ts);
      Yes(TypeApp(base, ns), rest)
  }

  /** The arguments of a call, after its opening parenthesis. */
  function CallArgs(ts: Tokens): (r: Parsed<seq<Expr>>)
    ensures r.Yes? ==> r.rest < ts
    decreases ts, 22
  {
    var args := ExprList(SkipLines(ts));
    var (_, after) :- Expect(SkipLines(args.rest), RParen);
    Yes(args.value, after)
  }

  /** `f(a, b)` is curried. */
  function Applied(f: Expr, args: seq<Expr>): Expr
    decreases |args|
  {
    if args == [] then f else Applied(App(f, args[0]), args[1..])
  }

  // ── Atoms ──────────────────────────────────────────────────────────────────

  function ParseAtom(ts: Tokens): (r: Parsed<Expr>)
    ensures r.Yes? ==> r.rest < ts
    decreases ts, 8
  {
    if ts.End? then No
    else
      match ts.head
      case FloatToken(x) => Yes(Float(x), ts.tail)
      case IntToken(n) => Yes(Int(n), ts.tail)
      case KTrue => Yes(Bool(true), ts.tail)
      case KFalse => Yes(Bool(false), ts.tail)
      case IdentToken(name) => Yes(Var(name), ts.tail)
      case LParen =>
        var (es, rest) :- CallArgs(ts.tail);
        Yes(GroupExpr(es), rest)
      case LBracket => ParseList(ts.tail)
      case KCircuit =>
        var (ss, rest) :- Block(ts.tail);
        Yes(CircuitBlock(ss), rest)
      case KRun =>
        var (ss, rest) :- Block(ts.tail);
        Yes(RunBlock(ss), rest)
      case KBorrow => ParseBorrow(ts.tail)
      case KFor => ParseFor(ts.tail)
      case KMatch => ParseMatch(ts.tail)
      case KAdjoint =>
        var (x, rest) :- Parenthesised(ts.tail);
        Yes(Adjoint(x), rest)
      case KControlled =>
        var (x, rest) :- Parenthesised(ts.tail);
        Yes(Controlled(x), rest)
      case _ => No
  }

  function GroupExpr(es: seq<Expr>): Expr {
    if es == [] then Unit else if |es| == 1 then es[0] else Tuple(es)
  }

  function ParseList(ts: Tokens): (r: Parsed<Expr>)
    ensures r.Yes? ==> r.rest < ts
    decreases ts, 22
  {
    var items := ExprList(SkipLines(ts));
    var (_, after) :- Expect(SkipLines(items.rest), RBracket);
    Yes(List(items.value), after)
  }

  function Parenthesised(ts: Tokens): (r: Parsed<Expr>)
    ensures r.Yes? ==> r.rest < ts
    decreases ts, 22
  {
    var (_, inside) :- Expect(ts, LParen);
    var (x, rest) :- ParseExpr(SkipLines(inside));
    var (_, after) :- Expect(SkipLines(rest), RParen);
    Yes(x, after)
  }

  function Braced(ts: Tokens): (r: Parsed<Expr>)
    ensures r.Yes? ==> r.rest < ts
    decreases ts, 22
  {
    var (_, inside) :- Expect(ts, LBrace);
    var (x, rest) :- ParseExpr(SkipLines(inside));
    var (_, after) :- Expect(SkipLines(rest), RBrace);
    Yes(x, after)
  }

  /** Expressions between commas, a trailing comma allowed. */
  function ExprList(ts: Tokens): (r: Parsed<seq<Expr>>)
    ensures r.Yes? && Left(r.rest, ts)
    decreases ts, 21
  {
    match ParseExpr(ts)
    case No => Yes([], ts)
    case Yes(e, rest) =>
      var more := MoreExprs(rest);
      Yes([e] + more.value, more.rest)
  }

  function MoreExprs(ts: Tokens): (r: Parsed<seq<Expr>>)
    ensures r.Yes? && Left(r.rest, ts)
    decreases ts, 21
  {
    match Comma(ts)
    case No => Yes([], ts)
    case Yes(_, next) =>
      match ParseExpr(next)
      case No => Yes([], next)
      case Yes(e, rest) =>
        var more := MoreExprs(rest);
        Yes([e] + more.value, more.rest)
  }

  function ParseFor(ts: Tokens): (r: Parsed<Expr>)
    ensures r.Yes? ==> r.rest < ts
    decreases ts, 22
  {
    var (p, rest) :- ParsePat(ts);
    var (_, next) :- Expect(rest, KIn);
    var (iter, rest') :- ParseExpr(next);
    var (body, after) :- Braced(rest');
    Yes(For(p, iter, body), after)
  }

  function ParseBorrow(ts: Tokens): (r: Parsed<Expr>)
    ensures r.Yes? ==> r.rest < ts
    decreases ts, 22
  {
    var (bs, rest) :- Bindings(ts);
    var (_, next) :- Expect(rest, KIn);
    var (ss, after) :- Block(next);
    Yes(Borrow(bs, ss), after)
  }

  function ParseBinding(ts: Tokens): (r: Parsed<Binding>)
    ensures r.Yes? ==> r.rest < ts
  {
    if ts.Tok? && ts.head.IdentToken? then
      var (_, next) :- Expect(ts.tail, ColonSign);
      var (t, rest) :- ParseType(next);
      Yes(Binding(ts.head.name, t), rest)
    else No
  }

  /** One or more bindings between commas, with no trailing comma. */
  function Bindings(ts: Tokens): (r: Parsed<seq<Binding>>)
    ensures r.Yes? ==> r.rest < ts && r.value != []
  {
    var (b, rest) :- ParseBinding(ts);
    var more := MoreBindings(rest);
    Yes([b] + more.value, more.rest)
  }

  function MoreBindings(ts: Tokens): (r: Parsed<seq<Binding>>)
    ensures r.Yes? && Left(r.rest, ts)
    decreases ts
  {
    match Comma(ts)
    case No => Yes([], ts)
    case Yes(_, next) =>
      match ParseBinding(next)
      case No => Yes([], ts)
      case Yes(b, rest) =>
        var more := MoreBindings(rest);
        Yes([b] + more.value, more.rest)
  }

  // ── Blocks and arms ────────────────────────────────────────────────────────

  function Block(ts: Tokens): (r: Parsed<seq<Stmt>>)
    ensures r.Yes? ==> r.rest < ts
    decreases ts, 24
  {
    var (_, inside) :- Expect(ts, LBrace);
    var ss := StmtsFrom(SkipLines(inside));
    var (_, after) :- Expect(ss.rest, RBrace);
    Yes(ss.value, after)
  }

  /** Statements between newlines, from the start of a line. */
  function StmtsFrom(ts: Tokens): (r: Parsed<seq<Stmt>>)
    ensures r.Yes? && Left(r.rest, ts)
    decreases ts, 23
  {
    match ParseStmt(ts)
    case No => Yes([], ts)
    case Yes(s, rest) =>
      if Starts(rest, Newline) then
        var more := StmtsFrom(SkipLines(rest));
        Yes([s] + more.value, more.rest)
      else Yes([s], rest)
  }

  /** A bind, else a `let`, else an expression. */
  function ParseStmt(ts: Tokens): (r: Parsed<Stmt>)
    ensures r.Yes? ==> r.rest < ts
    decreases ts, 22
  {
    match ParseBind(ts)
    case Yes(s, rest) => Yes(s, rest)
    case No =>
      var asLet := if Starts(ts, KLet) then ParseLetStmt(ts.tail) else No;
      if asLet.Yes? then asLet
      else
        var (e, rest) :- ParseExpr(ts);
        Yes(SExpr(e), rest)
  }

  function ParseBind(ts: Tokens): (r: Parsed<Stmt>)
    ensures r.Yes? ==> r.rest < ts
    decreases ts, 21
  {
    var (p, rest) :- ParsePat(ts);
    var (_, next) :- Expect(rest, LeftArrow);
    var (e, rest') :- ParseExpr(next);
    Yes(SBind(p, 0, e), rest')
  }

  /** `let p = e` is a statement, and with `in body` an expression. */
  function ParseLetStmt(ts: Tokens): (r: Parsed<Stmt>)
    ensures r.Yes? ==> r.rest < ts
    decreases ts, 21
  {
    var (p, rest) :- ParsePat(ts);
    var (_, next) :- Expect(rest, EqSign);
    var (rhs, rest') :- ParseExpr(next);
    var body := if Starts(rest', KIn) then ParseExpr(rest'.tail) else No;
    if body.Yes? then Yes(SExpr(Let(p, rhs, body.value)), body.rest) else Yes(SLet(p, rhs), rest')
  }

  function ParseMatch(ts: Tokens): (r: Parsed<Expr>)
    ensures r.Yes? ==> r.rest < ts
    decreases ts, 25
  {
    var (s, rest) :- ParseExpr(ts);
    var (_, inside) :- Expect(rest, LBrace);
    var arms := ArmsFrom(SkipSeparators(inside));
    var (_, after) :- Expect(arms.rest, RBrace);
    Yes(Match(s, arms.value), after)
  }

  predicate IsSeparator(ts: Tokens) {
    ts.Tok? && (ts.head.CommaSign? || ts.head.BarSign? || ts.head.Newline?)
  }

  function SkipSeparators(ts: Tokens): (r: Tokens)
    ensures Left(r, ts)
  {
    if IsSeparator(ts) then SkipSeparators(ts.tail) else ts
  }

  function ArmsFrom(ts: Tokens): (r: Parsed<seq<Arm>>)
    ensures r.Yes? && Left(r.rest, ts)
    decreases ts, 24
  {
    match ParseArm(ts)
    case No => Yes([], ts)
    case Yes(a, rest) =>
      if IsSeparator(rest) then
        var more := ArmsFrom(SkipSeparators(rest));
        Yes([a] + more.value, more.rest)
      else Yes([a], rest)
  }

  function ParseArm(ts: Tokens): (r: Parsed<Arm>)
    ensures r.Yes? ==> r.rest < ts
    decreases ts, 23
  {
    var (p, rest) :- ParsePat(ts);
    var (_, next) :- Expect(rest, FatArrow);
    var (e, rest') :- ParseExpr(next);
    Yes(Arm(p, e), rest')
  }

  // ── Right-extending forms ──────────────────────────────────────────────────

  function ParseLam(ts: Tokens): (r: Parsed<Expr>)
    ensures r.Yes? ==> r.rest < ts
    decreases ts, 22
  {
    var (_, inside) :- Expect(ts, LParen);
    var ps := ParamList(SkipLines(inside));
    var (_, rest) :- Expect(SkipLines(ps.rest), RParen);
    var (_, next) :- Expect(rest, RightArrow);
    var (body, rest') :- ParseExpr(SkipLines(next));
    Yes(Lam(ps.value, body), rest')
  }

  function ParseParam(ts: Tokens): (r: Parsed<Param>)
    ensures r.Yes? ==> r.rest < ts
  {
    var (p, rest) :- ParsePat(ts);
    if Starts(rest, ColonSign) then
      match ParseType(rest.tail)
      case No => Yes(Param(p, None), rest)
      case Yes(t, rest') => Yes(Param(p, Some(t)), rest')
    else Yes(Param(p, None), rest)
  }

  function ParamList(ts: Tokens): (r: Parsed<seq<Param>>)
    ensures r.Yes? && Left(r.rest, ts)
  {
    match ParseParam(ts)
    case No => Yes([], ts)
    case Yes(p, rest) =>
      var more := MoreParams(rest);
      Yes([p] + more.value, more.rest)
  }

  function MoreParams(ts: Tokens): (r: Parsed<seq<Param>>)
    ensures r.Yes? && Left(r.rest, ts)
    decreases ts
  {
    match Comma(ts)
    case No => Yes([], ts)
    case Yes(_, next) =>
      match ParseParam(next)
      case No => Yes([], next)
      case Yes(p, rest) =>
        var more := MoreParams(rest);
        Yes([p] + more.value, more.rest)
  }

  function ParseLetIn(ts: Tokens): (r: Parsed<Expr>)
    ensures r.Yes? ==> r.rest < ts
    decreases ts, 22
  {
    var (p, rest) :- ParsePat(ts);
    var (_, next) :- Expect(rest, EqSign);
    var (rhs, rest') :- ParseExpr(next);
    var (_, next') :- Expect(SkipLines(rest'), KIn);
    var (body, rest'') :- ParseExpr(SkipLines(next'));
    Yes(Let(p, rhs, body), rest'')
  }

  function ParseIf(ts: Tokens): (r: Parsed<Expr>)
    ensures r.Yes? ==> r.rest < ts
    decreases ts, 22
  {
    var (c, rest) :- ParseExpr(ts);
    var (_, next) :- Expect(rest, KThen);
    var (t, rest') :- ParseExpr(next);
    var (_, next') :- Expect(rest', KElse);
    var (f, rest'') :- ParseExpr(next');
    Yes(If(c, t, f), rest'')
  }
}
