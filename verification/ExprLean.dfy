/** Precedence and associativity: an expression written with as few parentheses as its operators allow,
    and with the arguments of a call in one pair of parentheses, parses to the same tree. */
module ExprLean {
  import opened Ast
  import opened Classical
  import opened Tokens
  import opened NatGrammar
  import opened PatGrammar
  import opened TypeGrammar
  import opened TypeRoundTrip
  import opened ExprGrammar
  import opened ExprPrinter
  import opened ExprLadder
  import opened ExprParts
  import opened StmtStart
  import opened ExprRoundTrip

  // ── Writing with few parentheses ───────────────────────────────────────────

  /** How tightly a form binds: atoms, postfix forms, `@`, unary minus, `^`, `*` and `/`, `+` and `-`,
      `|>`, and the forms that reach as far as they can. */
  function Rank(e: Expr): nat {
    match e
    case App(_, _) => 1
    case TypeApp(_, _) => 1
    case GateApp(_, _) => 2
    case Neg(_) => 3
    case Bin(op, _, _) => if op.Pow? then 4 else if op.Mul? || op.Div? then 5 else 6
    case Compose(_, _) => 7
    case _ => if Atomic(e) then 0 else 8
  }

  /** `e` where a form of rank `loosest` may stand, in front of the tokens `k`. */
  function Lean(e: Expr, loosest: int, k: Tokens): Tokens
    decreases e, 2
  {
    if Rank(e) <= loosest then Bare(e, k) else Tok(LParen, Bare(e, Tok(RParen, k)))
  }

  /** The left operand of `^` may be a minus but no power, and its right operand a power; the other
      operators take themselves on the left and something tighter on the right. */
  function Bare(e: Expr, k: Tokens): Tokens
    decreases e, 1
  {
    match e
    case App(f, x) =>
      var (head, args) := FlattenApp(f, x);
      Lean(head, 0, Tok(LParen, LeanArgs(e, args, Tok(RParen, k))))
    case TypeApp(callee, targs) => Lean(callee, 0, PrintAngles(targs, k))
    case GateApp(g, q) => Lean(g, 2, Tok(AtSign, Lean(q, 1, k)))
    case Neg(x) => Tok(MinusSign, Lean(x, 3, k))
    case Bin(op, l, r) =>
      if op.Pow? then Lean(l, 3, Tok(CaretSign, Lean(r, 4, k)))
      else if op.Mul? || op.Div? then Lean(l, 5, Tok(OpSign(op), Lean(r, 4, k)))
      else Lean(l, 6, Tok(OpSign(op), Lean(r, 5, k)))
    case Compose(l, r) => Lean(l, 7, Tok(Pipe, Lean(r, 6, k)))
    case _ => PrintExpr(e, k)
  }

  function LeanArgs(parent: Expr, es: seq<Expr>, k: Tokens): Tokens
    requires forall i | 0 <= i < |es| :: es[i] < parent
    decreases parent, 0, |es|
  {
    if es == [] then k else Lean(es[0], 8, LeanMoreArgs(parent, es[1..], k))
  }

  function LeanMoreArgs(parent: Expr, es: seq<Expr>, k: Tokens): Tokens
    requires forall i | 0 <= i < |es| :: es[i] < parent
    decreases parent, 0, |es|
  {
    if es == [] then k else Tok(CommaSign, Lean(es[0], 8, LeanMoreArgs(parent, es[1..], k)))
  }

  // ── Applications ───────────────────────────────────────────────────────────

  /** `f` applied to each of `args` in turn. */
  function Spine(f: Expr, args: seq<Expr>): Expr
    decreases |args|
  {
    if args == [] then f else App(Spine(f, args[..|args| - 1]), args[|args| - 1])
  }

  lemma {:induction false} AppliedIsSpine(f: Expr, args: seq<Expr>)
    ensures Applied(f, args) == Spine(f, args)
    decreases |args|
  {
    if |args| >= 2 {
      var n := |args| - 1;
      AppliedIsSpine(App(f, args[0]), args[1..]);
      assert args[1..][..n - 1] == args[1..n];
      AppliedIsSpine(App(f, args[0]), args[1..n]);
      AppliedIsSpine(f, args[..n]);
      assert args[..n][1..] == args[1..n];
    }
  }

  lemma {:induction false} FlattenIsSpine(f: Expr, x: Expr)
    ensures var (head, args) := FlattenApp(f, x); App(f, x) == Spine(head, args)
    decreases f
  {
    if f.App? {
      FlattenIsSpine(f.fn, f.arg);
      var (head, args) := FlattenApp(f.fn, f.arg);
      assert (args + [x])[..|args|] == args;
    }
  }

  /** What a chain of applications flattens to: its head, and its arguments from left to right. */
  lemma {:induction false} SpineFlattens(f: Expr, args: seq<Expr>)
    requires !f.App? && args != []
    ensures Spine(f, args).App? && FlattenApp(Spine(f, args).fn, Spine(f, args).arg) == (f, args)
    decreases |args|
  {
    hide FlattenApp;
    var n := |args| - 1;
    FlattenStep(Spine(f, args[..n]), args[n]);
    assert args == args[..n] + [args[n]];
    if n > 0 { SpineFlattens(f, args[..n]); }
    else { assert args[..n] == [] && Spine(f, []) == f; }
  }

  lemma FlattenStep(f: Expr, x: Expr)
    ensures FlattenApp(f, x) == if f.App? then (FlattenApp(f.fn, f.arg).0, FlattenApp(f.fn, f.arg).1 + [x]) else (f, [x])
  {
  }

  lemma PlainParts(f: Expr, x: Expr)
    requires Plain(App(f, x))
    ensures var (head, args) := FlattenApp(f, x); Plain(head) && SourceExprs(args, true)
    decreases f
  {
    if f.App? { PlainParts(f.fn, f.arg); }
  }

  // ── Heads ──────────────────────────────────────────────────────────────────

  predicate OpStart(ts: Tokens) { AtomStart(ts) || Starts(ts, MinusSign) }

  /** Tokens that start an operator form start neither a keyword form nor `par`. */
  lemma OpStartIs(ts: Tokens)
    requires OpStart(ts)
    ensures Begins(ts) && SkipLines(ts) == ts && !Keyword(ts) && !Starts(ts, KPar)
    ensures AtomStart(ts) ==> !Starts(ts, MinusSign)
  {
  }

  lemma {:induction false} LeanHead(e: Expr, loosest: int, k: Tokens)
    requires Plain(e)
    ensures loosest <= 2 ==> AtomStart(Lean(e, loosest, k))
    ensures loosest <= 7 ==> OpStart(Lean(e, loosest, k))
    decreases e, 2
  {
    hide Bare, AtomStart, Plain;
    ParenStarts(Bare(e, Tok(RParen, k)));
    if Rank(e) <= 7 { BareHead(e, k); }
  }

  lemma ParenStarts(ts: Tokens)
    ensures AtomStart(Tok(LParen, ts))
  {
  }

  lemma {:induction false} BareHead(e: Expr, k: Tokens)
    requires Plain(e) && Rank(e) <= 7
    ensures Rank(e) <= 2 ==> AtomStart(Bare(e, k))
    ensures OpStart(Bare(e, k))
    decreases e, 1
  {
    hide Lean, LeanArgs, AtomStart, PrintExpr, PrintAngles, Plain;
    FirstOperandPlain(e);
    match e
    case App(_, _) => CallHead(e, k);
    case TypeApp(callee, targs) => LeanHead(callee, 0, PrintAngles(targs, k));
    case GateApp(g, q) => LeanHead(g, 2, Tok(AtSign, Lean(q, 1, k)));
    case Bin(_, _, _) => BinHead(e, k);
    case Compose(l, r) => LeanHead(l, 7, Tok(Pipe, Lean(r, 6, k)));
    case Neg(x) =>
    case _ => AtomicHead(e, k);
  }

  lemma FirstOperandPlain(e: Expr)
    requires Plain(e)
    ensures e.TypeApp? ==> Plain(e.callee)
    ensures e.GateApp? ==> Plain(e.gate)
    ensures e.Compose? ==> Plain(e.lhs)
  {
  }

  lemma {:induction false} CallHead(e: Expr, k: Tokens)
    requires Plain(e) && e.App?
    ensures AtomStart(Bare(e, k))
    decreases e, 0
  {
    hide Lean, LeanArgs, AtomStart, Plain, FlattenApp;
    PlainParts(e.fn, e.arg);
    var (head, args) := FlattenApp(e.fn, e.arg);
    LeanHead(head, 0, Tok(LParen, LeanArgs(e, args, Tok(RParen, k))));
  }

  lemma {:induction false} BinHead(e: Expr, k: Tokens)
    requires Plain(e) && e.Bin?
    ensures OpStart(Bare(e, k))
    decreases e, 0
  {
    hide Lean, AtomStart, OpStart;
    if e.op.Pow? { LeanHead(e.lhs, 3, Tok(CaretSign, Lean(e.rhs, 4, k))); }
    else if e.op.Mul? || e.op.Div? { LeanHead(e.lhs, 5, Tok(OpSign(e.op), Lean(e.rhs, 4, k))); }
    else { LeanHead(e.lhs, 6, Tok(OpSign(e.op), Lean(e.rhs, 5, k))); }
  }

  lemma AtomicHead(e: Expr, k: Tokens)
    requires Plain(e) && Atomic(e)
    ensures AtomStart(PrintExpr(e, k)) && Bare(e, k) == PrintExpr(e, k)
  {
    hide PrintExpr, AtomStart, Plain, PrintAtom;
    PlainAtomHead(e, k);
  }

  lemma LeanBegins(e: Expr, k: Tokens)
    requires Plain(e)
    ensures Begins(Lean(e, 8, k)) && SkipLines(Lean(e, 8, k)) == Lean(e, 8, k)
  {
    hide Bare, PrintExpr, SourceExpr, AtomStart, Prefix, OpStart;
    if Rank(e) <= 7 {
      BareHead(e, k);
      OpStartIs(Bare(e, k));
    } else {
      PlainHead(e, k);
      LooseIsPrinted(e, k);
    }
  }

  lemma LooseIsPrinted(e: Expr, k: Tokens)
    requires Rank(e) == 8
    ensures Bare(e, k) == PrintExpr(e, k)
  {
    hide PrintExpr;
  }

  // ── One rank at a time ─────────────────────────────────────────────────────

  lemma Deeper(e: Expr, loosest: int, k: Tokens)
    requires loosest > 0 && Rank(e) != loosest
    ensures Lean(e, loosest, k) == Lean(e, loosest - 1, k)
  {
    hide Bare;
  }

  /** How deep the parentheses around `e` go: a form in parentheses starts over at the loosest rank. */
  function Wrapped(e: Expr, loosest: int): nat { if Rank(e) <= loosest then 0 else 1 }

  lemma {:induction false} AtomLean(e: Expr, k: Tokens)
    requires Plain(e)
    ensures ParseAtom(Lean(e, 0, k)) == Yes(e, k)
    decreases e, Wrapped(e, 0), 10
  {
    hide Bare, ParseAtom, ParseExpr, PrintExpr, Plain, CallArgs, Begins;
    if Rank(e) == 0 {
      AtomicIsPrinted(e, k);
      BareReads(e, k);
    } else {
      CloserEnds(RParen, k);
      LeanReads(e, Tok(RParen, k));
      LeanBegins(e, Tok(RParen, k));
      ParenRead(Lean(e, 8, Tok(RParen, k)), e, k);
    }
  }

  lemma AtomicIsPrinted(e: Expr, k: Tokens)
    requires Rank(e) == 0
    ensures Atomic(e) && Bare(e, k) == PrintExpr(e, k)
  {
    hide PrintExpr;
  }

  /** Calls, type applications and atoms. */
  lemma {:induction false} PostfixLean(e: Expr, k: Tokens)
    requires Plain(e) && Stops(k, 1)
    ensures ParseApplication(Lean(e, 1, k)) == Yes(e, k)
    decreases e, Wrapped(e, 1), 11
  {
    hide Bare, ParseAtom, ParseApplication, ParsePostfix, Plain, Stops, Begins;
    if Rank(e) == 1 {
      StopsTighter(k, 1, 0);
      PostNode(e, k);
      ApplicationStops(Bare(e, k), e, k);
    } else {
      Deeper(e, 1, k);
      AtomLean(e, k);
      AtomToApplication(Lean(e, 0, k), e, k);
    }
  }

  lemma {:induction false} PostNode(e: Expr, k: Tokens)
    requires Plain(e) && Rank(e) == 1 && Stops(k, 0)
    ensures ParsePostfix(Bare(e, k)) == Yes(e, k)
    decreases e, 0, 2
  {
    hide Lean, LeanArgs, ParseAtom, ParsePostfix, ParsePost, Stops, PrintAngles, SourceExpr, CallArgs;
    if e.App? {
      CallLean(e, k);
    } else {
      TypeAppPlain(e);
      AtomLean(e.callee, PrintAngles(e.targs, k));
      AnglesRead(e.targs, e.callee, k);
      PostRead(Bare(e, k), e.callee, PrintAngles(e.targs, k), e, k);
    }
  }

  lemma TypeAppPlain(e: Expr)
    requires Plain(e) && e.TypeApp?
    ensures Plain(e.callee) && e.targs != []
  {
  }

  lemma AnglesRead(targs: seq<NatExpr>, callee: Expr, k: Tokens)
    requires targs != []
    ensures ParsePost(callee, PrintAngles(targs, k)) == Yes(TypeApp(callee, targs), k)
  {
    hide ParsePost, AngleNats, PrintAngles;
    NatListRoundTrip(targs, k);
    AnglesHead(targs, k);
    TypeAppRead(callee, PrintAngles(targs, k), targs, k);
  }

  /** `f(a1, …, an)` is the application of `f` to `a1`, then to `a2`, and so on. */
  lemma {:induction false} CallLean(e: Expr, k: Tokens)
    requires Plain(e) && e.App? && Stops(k, 0)
    ensures ParsePostfix(Bare(e, k)) == Yes(e, k)
    decreases e, 0, 1
  {
    hide Lean, LeanArgs, ParseAtom, ParsePostfix, ParsePost, Stops, SourceExpr, CallArgs, FlattenApp, Spine, Applied;
    var (head, args) := FlattenApp(e.fn, e.arg);
    PlainParts(e.fn, e.arg);
    var inner := LeanArgs(e, args, Tok(RParen, k));
    AtomLean(head, Tok(LParen, inner));
    ArgsLean(e, args, k);
    CallIsSpine(head, inner, args, k);
    FlattenIsSpine(e.fn, e.arg);
    PostRead(Bare(e, k), head, Tok(LParen, inner), e, k);
  }

  lemma CallIsSpine(base: Expr, inner: Tokens, args: seq<Expr>, k: Tokens)
    requires CallArgs(inner) == Yes(args, k) && args != []
    ensures ParsePost(base, Tok(LParen, inner)) == Yes(Spine(base, args), k)
  {
    hide CallArgs, IndexName, Applied;
    AppliedIsSpine(base, args);
  }

  lemma {:induction false} ArgsLean(parent: Expr, es: seq<Expr>, k: Tokens)
    requires es != [] && SourceExprs(es, true) && forall i | 0 <= i < |es| :: es[i] < parent
    ensures CallArgs(LeanArgs(parent, es, Tok(RParen, k))) == Yes(es, k)
    decreases parent, 0, 0, |es| + 1
  {
    hide ParseExpr, Lean, SourceExpr, MoreExprs, LeanMoreArgs, CallArgs, Begins;
    var next := LeanMoreArgs(parent, es[1..], Tok(RParen, k));
    MoreArgsEnd(parent, es[1..], k);
    MoreArgsLean(parent, es[1..], k);
    LeanReads(es[0], next);
    LeanBegins(es[0], next);
    assert [es[0]] + es[1..] == es;
    ArgsRead(LeanArgs(parent, es, Tok(RParen, k)), es, k);
  }

  lemma MoreArgsEnd(parent: Expr, es: seq<Expr>, k: Tokens)
    requires forall i | 0 <= i < |es| :: es[i] < parent
    ensures Ends(LeanMoreArgs(parent, es, Tok(RParen, k)))
  {
    hide Lean, Ends;
    if es == [] { CloserEnds(RParen, k); }
    else { CloserEnds(CommaSign, Lean(es[0], 8, LeanMoreArgs(parent, es[1..], Tok(RParen, k)))); }
  }

  lemma {:induction false} MoreArgsLean(parent: Expr, es: seq<Expr>, k: Tokens)
    requires SourceExprs(es, true) && forall i | 0 <= i < |es| :: es[i] < parent
    ensures MoreExprs(LeanMoreArgs(parent, es, Tok(RParen, k))) == Yes(es, Tok(RParen, k))
    decreases parent, 0, 0, |es|
  {
    hide ParseExpr, Lean, SourceExpr, Comma, Begins, Ends;
    if es == [] {
      NoComma(RParen, k);
    } else {
      var next := LeanMoreArgs(parent, es[1..], Tok(RParen, k));
      MoreArgsEnd(parent, es[1..], k);
      MoreArgsLean(parent, es[1..], k);
      LeanReads(es[0], next);
      LeanBegins(es[0], next);
      CommaThen(Lean(es[0], 8, next));
      assert [es[0]] + es[1..] == es;
    }
  }

  /** `g @ q`, to the left. */
  lemma {:induction false} PlacedLean(e: Expr, k: Tokens)
    requires Plain(e) && Stops(k, 1)
    ensures ParseGateApp(Lean(e, 2, k)) == MorePlaced(e, k)
    decreases e, Wrapped(e, 2), 12
  {
    hide Lean, Bare, ParseApplication, MorePlaced, SourceExpr, Stops;
    if e.GateApp? {
      PlacedNode(e, k);
    } else {
      Deeper(e, 2, k);
      PostfixLean(e, k);
    }
  }

  lemma SignsGoOn(k: Tokens, op: BinOp)
    ensures Stops(Tok(AtSign, k), 1) && Stops(Tok(CaretSign, k), 2) && Stops(Tok(Pipe, k), 6)
    ensures (op.Mul? || op.Div?) ==> Stops(Tok(OpSign(op), k), 3)
    ensures (op.Add? || op.Sub?) ==> Stops(Tok(OpSign(op), k), 4)
  {
    hide AtomStart, SkipLines;
  }

  lemma {:induction false} PlacedNode(e: Expr, k: Tokens)
    requires Plain(e) && e.GateApp? && Stops(k, 1)
    ensures ParseGateApp(Lean(e, 2, k)) == MorePlaced(e, k)
    decreases e, 0, 0
  {
    hide Bare, ParseApplication, ParseGateApp, Stops;
    var second := Lean(e.qubits, 1, k);
    assert Lean(e, 2, k) == Lean(e.gate, 2, Tok(AtSign, second)) by { BareGateApp(e, k); }
    SignsGoOn(second, Add);
    PlacedLean(e.gate, Tok(AtSign, second));
    PostfixLean(e.qubits, k);
    OnePlaced(e.gate, second, e.qubits, k);
  }

  lemma BareGateApp(e: Expr, k: Tokens)
    requires e.GateApp?
    ensures Bare(e, k) == Lean(e.gate, 2, Tok(AtSign, Lean(e.qubits, 1, k)))
  {
    hide Lean;
  }

  lemma OnePlaced(g: Expr, second: Tokens, q: Expr, k: Tokens)
    requires ParseApplication(second) == Yes(q, k)
    ensures MorePlaced(g, Tok(AtSign, second)) == MorePlaced(GateApp(g, q), k)
  {
    hide ParseApplication;
  }

  /** `- x`. */
  lemma {:induction false} NegLean(e: Expr, k: Tokens)
    requires Plain(e) && Stops(k, 2)
    ensures ParseNeg(Lean(e, 3, k)) == Yes(e, k)
    decreases e, Wrapped(e, 3), 13
  {
    hide Lean, ParseGateApp, MorePlaced, SourceExpr, Stops, AtomStart;
    if e.Neg? {
      NegNode(e, k);
    } else {
      Deeper(e, 3, k);
      StopsTighter(k, 2, 1);
      PlacedLean(e, k);
      NoMorePlaced(e, k);
      LeanHead(e, 2, k);
      OpStartIs(Lean(e, 2, k));
    }
  }

  lemma {:induction false} NegNode(e: Expr, k: Tokens)
    requires Plain(e) && e.Neg? && Stops(k, 2)
    ensures ParseNeg(Lean(e, 3, k)) == Yes(e, k)
    decreases e, 0, 0
  {
    hide ParseGateApp, Stops;
    NegLean(e.inner, k);
    BareNeg(e, k);
    OneNeg(Lean(e.inner, 3, k), e.inner, k);
  }

  lemma BareNeg(e: Expr, k: Tokens)
    requires e.Neg?
    ensures Lean(e, 3, k) == Tok(MinusSign, Lean(e.inner, 3, k))
  {
  }

  lemma OneNeg(ts: Tokens, x: Expr, k: Tokens)
    requires ParseNeg(ts) == Yes(x, k)
    ensures ParseNeg(Tok(MinusSign, ts)) == Yes(Neg(x), k)
  {
    hide ParseGateApp;
  }

  /** `l ^ r`, to the right. */
  lemma {:induction false} PowerLean(e: Expr, k: Tokens)
    requires Plain(e) && Stops(k, 3)
    ensures ParsePower(Lean(e, 4, k)) == Yes(e, k)
    decreases e, Wrapped(e, 4), 14
  {
    hide Lean, Bare, ParseNeg, ParsePower, SourceExpr, Stops;
    if e.Bin? && e.op.Pow? {
      PowerNode(e, k);
    } else {
      Deeper(e, 4, k);
      StopsTighter(k, 3, 2);
      NegLean(e, k);
      PowerStops(Lean(e, 3, k), e, k);
    }
  }

  lemma {:induction false} PowerNode(e: Expr, k: Tokens)
    requires Plain(e) && e.Bin? && e.op.Pow? && Stops(k, 3)
    ensures ParsePower(Lean(e, 4, k)) == Yes(e, k)
    decreases e, 0, 0
  {
    hide Bare, ParseNeg, ParsePower, Stops;
    var second := Lean(e.rhs, 4, k);
    assert Lean(e, 4, k) == Lean(e.lhs, 3, Tok(CaretSign, second)) by { BareBin(e, k); }
    SignsGoOn(second, Add);
    NegLean(e.lhs, Tok(CaretSign, second));
    PowerLean(e.rhs, k);
    OnePower(Lean(e, 4, k), e.lhs, second, e.rhs, k);
  }

  lemma BareBin(e: Expr, k: Tokens)
    requires e.Bin?
    ensures e.op.Pow? ==> Bare(e, k) == Lean(e.lhs, 3, Tok(CaretSign, Lean(e.rhs, 4, k)))
    ensures e.op.Mul? || e.op.Div? ==> Bare(e, k) == Lean(e.lhs, 5, Tok(OpSign(e.op), Lean(e.rhs, 4, k)))
    ensures e.op.Add? || e.op.Sub? ==> Bare(e, k) == Lean(e.lhs, 6, Tok(OpSign(e.op), Lean(e.rhs, 5, k)))
  {
    hide Lean, OpSign;
  }

  lemma OnePower(ts: Tokens, l: Expr, second: Tokens, r: Expr, k: Tokens)
    requires ParseNeg(ts) == Yes(l, Tok(CaretSign, second)) && ParsePower(second) == Yes(r, k)
    ensures ParsePower(ts) == Yes(Bin(Pow, l, r), k)
  {
    hide ParseNeg;
    var first := ParseNeg(second);
    var more := MorePowers(first.rest);
    assert MorePowers(Tok(CaretSign, second)) == Yes([first.value] + more.value, more.rest);
    assert ([first.value] + more.value)[1..] == more.value;
  }

  /** `l * r` and `l / r`, to the left. */
  lemma {:induction false} TermsLean(e: Expr, k: Tokens)
    requires Plain(e) && Stops(k, 3)
    ensures ParseTerms(Lean(e, 5, k)) == MoreTerms(e, k)
    decreases e, Wrapped(e, 5), 15
  {
    hide Lean, Bare, ParsePower, MoreTerms, SourceExpr, Stops;
    if e.Bin? && (e.op.Mul? || e.op.Div?) {
      TermsNode(e, k);
    } else {
      Deeper(e, 5, k);
      PowerLean(e, k);
    }
  }

  lemma {:induction false} TermsNode(e: Expr, k: Tokens)
    requires Plain(e) && e.Bin? && (e.op.Mul? || e.op.Div?) && Stops(k, 3)
    ensures ParseTerms(Lean(e, 5, k)) == MoreTerms(e, k)
    decreases e, 0, 0
  {
    hide Bare, ParsePower, ParseTerms, Stops;
    var second := Lean(e.rhs, 4, k);
    assert Lean(e, 5, k) == Lean(e.lhs, 5, Tok(OpSign(e.op), second)) by { BareBin(e, k); }
    SignsGoOn(second, e.op);
    TermsLean(e.lhs, Tok(OpSign(e.op), second));
    PowerLean(e.rhs, k);
    OneTerm(e.op, e.lhs, second, e.rhs, k);
  }

  lemma OneTerm(op: BinOp, l: Expr, second: Tokens, r: Expr, k: Tokens)
    requires (op.Mul? || op.Div?) && ParsePower(second) == Yes(r, k)
    ensures MoreTerms(l, Tok(OpSign(op), second)) == MoreTerms(Bin(op, l, r), k)
  {
    hide ParsePower;
  }

  /** `l + r` and `l - r`, to the left. */
  lemma {:induction false} SumLean(e: Expr, k: Tokens)
    requires Plain(e) && Stops(k, 4)
    ensures ParseSum(Lean(e, 6, k)) == MoreSum(e, k)
    decreases e, Wrapped(e, 6), 17
  {
    hide Lean, Bare, ParseProduct, MoreSum, SourceExpr, Stops;
    if e.Bin? && (e.op.Add? || e.op.Sub?) {
      SumNode(e, k);
    } else {
      Deeper(e, 6, k);
      ProductLean(e, k);
    }
  }

  lemma {:induction false} ProductLean(e: Expr, k: Tokens)
    requires Plain(e) && Stops(k, 4)
    ensures ParseProduct(Lean(e, 5, k)) == Yes(e, k)
    decreases e, Wrapped(e, 5), 16
  {
    hide Lean, ParseTerms, MoreTerms, SourceExpr, Stops, OpStart, ParRepeat, ParTensor;
    StopsTighter(k, 4, 3);
    TermsLean(e, k);
    NoMoreTerms(e, k);
    LeanHead(e, 5, k);
    OpStartIs(Lean(e, 5, k));
  }

  lemma {:induction false} SumNode(e: Expr, k: Tokens)
    requires Plain(e) && e.Bin? && (e.op.Add? || e.op.Sub?) && Stops(k, 4)
    ensures ParseSum(Lean(e, 6, k)) == MoreSum(e, k)
    decreases e, 0, 0
  {
    hide Bare, ParseProduct, ParseSum, Stops;
    var second := Lean(e.rhs, 5, k);
    assert Lean(e, 6, k) == Lean(e.lhs, 6, Tok(OpSign(e.op), second)) by { BareBin(e, k); }
    SignsGoOn(second, e.op);
    SumLean(e.lhs, Tok(OpSign(e.op), second));
    ProductLean(e.rhs, k);
    OneSummand(e.op, e.lhs, second, e.rhs, k);
  }

  lemma OneSummand(op: BinOp, l: Expr, second: Tokens, r: Expr, k: Tokens)
    requires (op.Add? || op.Sub?) && ParseProduct(second) == Yes(r, k)
    ensures MoreSum(l, Tok(OpSign(op), second)) == MoreSum(Bin(op, l, r), k)
  {
    hide ParseProduct;
  }

  /** `l |> r`, to the left. */
  lemma {:induction false} ComposeLean(e: Expr, k: Tokens)
    requires Plain(e) && Stops(k, 6)
    ensures ParseCompose(Lean(e, 7, k)) == MoreComposed(e, k)
    decreases e, Wrapped(e, 7), 19
  {
    hide Lean, Bare, ParseInfix, MoreComposed, SourceExpr, Stops;
    if e.Compose? {
      ComposeNode(e, k);
    } else {
      Deeper(e, 7, k);
      InfixLean(e, k);
    }
  }

  lemma {:induction false} InfixLean(e: Expr, k: Tokens)
    requires Plain(e) && Stops(k, 6)
    ensures ParseInfix(Lean(e, 6, k)) == Yes(e, k)
    decreases e, Wrapped(e, 6), 18
  {
    hide Lean, ParseSum, MoreSum, MoreInfix, SourceExpr, Stops;
    StopsTighter(k, 6, 4);
    StopsTighter(k, 6, 5);
    SumLean(e, k);
    NoMoreSum(e, k);
    NoMoreInfix(e, k);
  }

  lemma {:induction false} ComposeNode(e: Expr, k: Tokens)
    requires Plain(e) && e.Compose? && Stops(k, 6)
    ensures ParseCompose(Lean(e, 7, k)) == MoreComposed(e, k)
    decreases e, 0, 0
  {
    hide Bare, ParseInfix, ParseCompose, Stops, OpStart;
    var second := Lean(e.rhs, 6, k);
    assert Lean(e, 7, k) == Lean(e.lhs, 7, Tok(Pipe, second)) by { BareCompose(e, k); }
    SignsGoOn(second, Add);
    ComposeLean(e.lhs, Tok(Pipe, second));
    InfixLean(e.rhs, k);
    LeanHead(e.rhs, 6, k);
    OpStartIs(second);
    OnePipe(e.lhs, second, e.rhs, k);
  }

  lemma BareCompose(e: Expr, k: Tokens)
    requires e.Compose?
    ensures Bare(e, k) == Lean(e.lhs, 7, Tok(Pipe, Lean(e.rhs, 6, k)))
  {
    hide Lean;
  }

  lemma OnePipe(l: Expr, second: Tokens, r: Expr, k: Tokens)
    requires ParseInfix(second) == Yes(r, k) && SkipLines(second) == second
    ensures MoreComposed(l, Tok(Pipe, second)) == MoreComposed(Compose(l, r), k)
  {
    hide ParseInfix;
  }

  /** An expression written with few parentheses parses to itself where nothing goes on with it: so `*`
      and `/` bind tighter than `+` and `-`, these tighter than `|>`, and `@`, the minus and `^` tighter
      still; `^` leans right, the others left; and a call applies its head to its arguments in order. */
  lemma {:induction false} LeanReads(e: Expr, k: Tokens)
    requires Plain(e) && Ends(k)
    ensures ParseExpr(Lean(e, 8, k)) == Yes(e, k)
    decreases e, Wrapped(e, 8), 20
  {
    hide Lean, PrintExpr, ParseExpr, ParseCompose, Plain, Stops, OpStart, Ends, Rank, MoreComposed;
    if Rank(e) == 8 {
      LooseLean(e, k);
    } else {
      EndsLoosely(k);
      Deeper(e, 8, k);
      TighterRank(e);
      ComposeLean(e, k);
      NoMoreComposed(e, k);
      LeanHead(e, 7, k);
      OpStartIs(Lean(e, 7, k));
      ExprStops(Lean(e, 7, k), e, k);
    }
  }

  lemma TighterRank(e: Expr)
    requires Rank(e) != 8
    ensures Wrapped(e, 7) == 0
  {
  }

  lemma EndsLoosely(k: Tokens)
    requires Ends(k)
    ensures Stops(k, 6) && Stops(k, 7) && Stops(k, 8)
  {
  }

  lemma LooseLean(e: Expr, k: Tokens)
    requires Plain(e) && Ends(k) && Rank(e) == 8
    ensures ParseExpr(Lean(e, 8, k)) == Yes(e, k)
  {
    hide PrintExpr, ParseExpr, Plain, Ends;
    LooseIsPrinted(e, k);
    ExprReads(e, k);
  }

  // ── Calls, methods, indices and names between backticks ────────────────────

  /** The tokens before `k` parse to `head` applied to `args`, in that order. */
  predicate Calls(ts: Tokens, head: Expr, args: seq<Expr>, k: Tokens) {
    var r := ParseExpr(ts);
    r.Yes? && r.rest == k && r.value.App? && FlattenApp(r.value.fn, r.value.arg) == (head, args)
  }

  lemma SpineCalls(ts: Tokens, head: Expr, args: seq<Expr>, k: Tokens)
    requires ParseExpr(ts) == Yes(Spine(head, args), k) && !head.App? && args != []
    ensures Calls(ts, head, args, k)
  {
    hide ParseExpr, FlattenApp, Spine;
    SpineFlattens(head, args);
  }

  lemma PostCalls(ts: Tokens, base: Expr, post: Tokens, head: Expr, args: seq<Expr>, k: Tokens)
    requires ParseAtom(ts) == Yes(base, post) && AtomStart(ts) && ParsePost(base, post) == Yes(Spine(head, args), k)
    requires Ends(k) && !head.App? && args != []
    ensures Calls(ts, head, args, k)
  {
    hide ParseAtom, ParseExpr, ParsePost, ParsePostfix, Calls, Spine, AtomStart, Stops, Ends;
    EndsStop8(k);
    PostRead(ts, base, post, Spine(head, args), k);
    ClimbPostfix(ts, Spine(head, args), k);
    SpineCalls(ts, head, args, k);
  }

  lemma PrintedArgs(args: seq<Expr>, k: Tokens)
    requires SourceExprs(args, true)
    ensures CallArgs(PrintExprs(args, Tok(RParen, k))) == Yes(args, k)
  {
    hide CallArgs, ExprList, PrintExprs, SourceExpr;
    ExprsRead(args, RParen, k);
    ArgsRead(PrintExprs(args, Tok(RParen, k)), args, k);
  }

  /** `f(a1, …, an)` calls `f` on `a1` to `an`. */
  lemma CallInOrder(f: Expr, args: seq<Expr>, k: Tokens)
    requires Plain(f) && !f.App? && SourceExprs(args, true) && args != [] && Ends(k)
    ensures Calls(PrintAtom(f, Tok(LParen, PrintExprs(args, Tok(RParen, k)))), f, args, k)
  {
    hide ParseAtom, ParsePost, PrintAtom, PrintExprs, Calls, CallArgs, Spine, SourceExpr, AtomStart, Ends;
    var inner := PrintExprs(args, Tok(RParen, k));
    AtomReads(f, Tok(LParen, inner));
    PlainAtomHead(f, Tok(LParen, inner));
    PrintedArgs(args, k);
    CallIsSpine(f, inner, args, k);
    PostCalls(PrintAtom(f, Tok(LParen, inner)), f, Tok(LParen, inner), f, args, k);
  }

  /** `f()` calls `f` on the unit value. */
  lemma CallOfNothing(f: Expr, k: Tokens)
    requires Plain(f) && !f.App? && Ends(k)
    ensures Calls(PrintAtom(f, Tok(LParen, Tok(RParen, k))), f, [Unit], k)
  {
    hide ParseAtom, ParsePost, PrintAtom, Calls, CallArgs, SourceExpr, AtomStart, Ends;
    AtomReads(f, Tok(LParen, Tok(RParen, k)));
    PlainAtomHead(f, Tok(LParen, Tok(RParen, k)));
    EmptyArgs(k);
    EmptyCallPost(f, k);
    PostCalls(PrintAtom(f, Tok(LParen, Tok(RParen, k))), f, Tok(LParen, Tok(RParen, k)), f, [Unit], k);
  }

  lemma EmptyCallPost(f: Expr, k: Tokens)
    requires CallArgs(Tok(RParen, k)) == Yes([], k)
    ensures ParsePost(f, Tok(LParen, Tok(RParen, k))) == Yes(Spine(f, [Unit]), k)
  {
    hide CallArgs, IndexName;
  }

  /** `q.f(a1, …, an)` calls `f` on `q` and then `a1` to `an`. */
  lemma MethodInOrder(q: Expr, name: Name, args: seq<Expr>, k: Tokens)
    requires Plain(q) && SourceExprs(args, true) && Ends(k)
    ensures Calls(PrintAtom(q, Tok(DotSign, Tok(IdentToken(name), Tok(LParen, PrintExprs(args, Tok(RParen, k)))))),
                  Var(name), [q] + args, k)
  {
    hide ParseAtom, ParsePost, PrintAtom, PrintExprs, Calls, CallArgs, Spine, SourceExpr, AtomStart, Ends;
    var inner := PrintExprs(args, Tok(RParen, k));
    var post := Tok(DotSign, Tok(IdentToken(name), Tok(LParen, inner)));
    AtomReads(q, post);
    PlainAtomHead(q, post);
    PrintedArgs(args, k);
    MethodIsSpine(q, name, inner, args, k);
    PostCalls(PrintAtom(q, post), q, post, Var(name), [q] + args, k);
  }

  lemma MethodIsSpine(q: Expr, name: Name, inner: Tokens, args: seq<Expr>, k: Tokens)
    requires CallArgs(inner) == Yes(args, k)
    ensures ParsePost(q, Tok(DotSign, Tok(IdentToken(name), Tok(LParen, inner)))) == Yes(Spine(Var(name), [q] + args), k)
  {
    hide CallArgs, IndexName, Spine;
    assert ([q] + args)[1..] == args;
    AppliedIsSpine(Var(name), [q] + args);
  }

  /** `q[i]` calls `index` on `q` and `i`. */
  lemma IndexInOrder(q: Expr, i: Expr, k: Tokens)
    requires Plain(q) && Plain(i) && Ends(k)
    ensures Calls(PrintAtom(q, Tok(LBracket, PrintExpr(i, Tok(RBracket, k)))), Var("index"), [q, i], k)
  {
    hide ParseAtom, ParsePost, ParseExpr, PrintAtom, PrintExpr, Calls, SourceExpr, Ends, Begins;
    var inner := PrintExpr(i, Tok(RBracket, k));
    var post := Tok(LBracket, inner);
    AtomReads(q, post);
    PlainAtomHead(q, post);
    CloserEnds(RBracket, k);
    ExprReads(i, Tok(RBracket, k));
    PlainHead(i, Tok(RBracket, k));
    IndexPost(q, inner, i, k);
    TwoArguments(Var("index"), q, i);
    PostCalls(PrintAtom(q, post), q, post, Var("index"), [q, i], k);
  }

  lemma TwoArguments(f: Expr, a: Expr, b: Expr)
    ensures Spine(f, [a, b]) == App(App(f, a), b)
  {
    assert [a, b][..1] == [a];
    assert Spine(f, [a]) == App(f, a) by { assert [a][..0] == []; }
  }

  lemma IndexPost(q: Expr, inner: Tokens, i: Expr, k: Tokens)
    requires ParseExpr(inner) == Yes(i, Tok(RBracket, k)) && SkipLines(inner) == inner
    ensures ParsePost(q, Tok(LBracket, inner)) == Yes(App(App(Var("index"), q), i), k)
  {
    hide ParseExpr;
  }

  function Ticked(name: Name, k: Tokens): Tokens { Tok(Backtick, Tok(IdentToken(name), Tok(Backtick, k))) }

  /** `` a `f` b `g` c `` calls `g` on the call of `f` on `a` and `b`, and on `c`. */
  lemma InfixInOrder(a: Expr, f: Name, b: Expr, g: Name, c: Expr, k: Tokens)
    requires Plain(a) && Plain(b) && Plain(c) && Ends(k)
    ensures Calls(Lean(a, 6, Ticked(f, Lean(b, 6, k))), Var(f), [a, b], k)
    ensures Calls(Lean(a, 6, Ticked(f, Lean(b, 6, Ticked(g, Lean(c, 6, k))))), Var(g), [App(App(Var(f), a), b), c], k)
  {
    hide Lean, ParseSum, ParseInfix, Calls, Plain, Stops, Ends, Ticked;
    var (one, two) := (App(App(Var(f), a), b), App(App(Var(g), App(App(Var(f), a), b)), c));
    EndsLoosely(k);
    StopsTighter(k, 6, 5);
    SummandLean(c, k);
    SummandLean(b, k);
    NoMoreInfix(one, k);
    NoMoreInfix(two, k);
    var (last, rest) := (Lean(c, 6, k), Ticked(g, Lean(c, 6, k)));
    TickStops(f, Lean(b, 6, k));
    TickStops(g, last);
    TickStops(f, Lean(b, 6, rest));
    SummandLean(b, rest);
    SummandLean(a, Ticked(f, Lean(b, 6, k)));
    SummandLean(a, Ticked(f, Lean(b, 6, rest)));
    OneTick(a, f, Lean(b, 6, k), b, k);
    OneTick(a, f, Lean(b, 6, rest), b, rest);
    OneTick(one, g, last, c, k);
    TickedExpr(Lean(a, 6, Ticked(f, Lean(b, 6, k))), a, Ticked(f, Lean(b, 6, k)), f, a, b, k);
    TickedExpr(Lean(a, 6, Ticked(f, Lean(b, 6, rest))), a, Ticked(f, Lean(b, 6, rest)), g, one, c, k);
  }

  lemma TickStops(name: Name, k: Tokens)
    ensures Stops(Ticked(name, k), 5)
  {
  }

  lemma SummandLean(e: Expr, k: Tokens)
    requires Plain(e) && Stops(k, 5)
    ensures ParseSum(Lean(e, 6, k)) == Yes(e, k) && OpStart(Lean(e, 6, k))
  {
    hide Lean, ParseSum, MoreSum, Plain, Stops, OpStart;
    StopsTighter(k, 5, 4);
    SumLean(e, k);
    NoMoreSum(e, k);
    LeanHead(e, 6, k);
  }

  lemma OneTick(l: Expr, name: Name, second: Tokens, r: Expr, k: Tokens)
    requires ParseSum(second) == Yes(r, k)
    ensures MoreInfix(l, Ticked(name, second)) == MoreInfix(App(App(Var(name), l), r), k)
  {
    hide ParseSum;
  }

  lemma TickedExpr(ts: Tokens, first: Expr, rest: Tokens, name: Name, l: Expr, r: Expr, k: Tokens)
    requires ParseSum(ts) == Yes(first, rest) && MoreInfix(first, rest) == Yes(App(App(Var(name), l), r), k)
    requires OpStart(ts) && Ends(k)
    ensures Calls(ts, Var(name), [l, r], k)
  {
    hide ParseSum, MoreInfix, ParseCompose, ParseExpr, Calls, OpStart, Stops, Ends;
    EndsLoosely(k);
    OpStartIs(ts);
    assert ParseInfix(ts) == Yes(App(App(Var(name), l), r), k);
    ComposeStops(ts, App(App(Var(name), l), r), k);
    ExprStops(ts, App(App(Var(name), l), r), k);
    TwoArguments(Var(name), l, r);
    SpineCalls(ts, Var(name), [l, r], k);
  }

  // ── Juxtaposition ──────────────────────────────────────────────────────────

  /** Literals and names stand next to what they are applied to. */
  predicate Word(e: Expr) { e.Int? || e.Float? || e.Bool? || e.Var? }

  function Words(es: seq<Expr>, k: Tokens): Tokens {
    if es == [] then k else PrintExpr(es[0], Words(es[1..], k))
  }

  /** `f x1 … xn` calls `f` on `x1` to `xn`. */
  lemma WordsInOrder(f: Expr, xs: seq<Expr>, k: Tokens)
    requires Plain(f) && !f.App? && SourceExprs(xs, true) && xs != [] && (forall i | 0 <= i < |xs| :: Word(xs[i])) && Ends(k)
    ensures Calls(PrintAtom(f, Words(xs, k)), f, xs, k)
  {
    hide ParseAtom, ParseApplication, ParsePostfix, MoreApplied, ParseNeg, ParseExpr, PrintAtom, Words, Calls, Spine, Applied,
      SourceExpr, AtomStart, Stops, Ends, Word;
    var ts := PrintAtom(f, Words(xs, k));
    EndsStop8(k);
    StopsTighter(k, 8, 1);
    StopsTighter(k, 8, 2);
    AtomReads(f, Words(xs, k));
    PlainAtomHead(f, Words(xs, k));
    WordsStop(xs, k);
    PostfixStops(ts, f, Words(xs, k));
    MoreWords(f, xs, k);
    AppliedIsSpine(f, xs);
    assert ParseApplication(ts) == Yes(Spine(f, xs), k) by { WordsApplied(ts, f, xs, k); }
    OpStartIs(ts);
    NegStops(ts, Spine(f, xs), k);
    ClimbNeg(ts, Spine(f, xs), k);
    SpineCalls(ts, f, xs, k);
  }

  lemma WordsApplied(ts: Tokens, f: Expr, xs: seq<Expr>, k: Tokens)
    requires ParsePostfix(ts) == Yes(f, Words(xs, k)) && MoreApplied(f, Words(xs, k)) == Yes(Applied(f, xs), k)
    ensures ParseApplication(ts) == Yes(Applied(f, xs), k)
  {
    hide ParsePostfix, MoreApplied, Words, Applied;
  }

  lemma WordsStop(xs: seq<Expr>, k: Tokens)
    requires SourceExprs(xs, true) && (forall i | 0 <= i < |xs| :: Word(xs[i])) && Stops(k, 1)
    ensures Stops(Words(xs, k), 0)
  {
  }

  lemma {:induction false} MoreWords(f: Expr, xs: seq<Expr>, k: Tokens)
    requires SourceExprs(xs, true) && (forall i | 0 <= i < |xs| :: Word(xs[i])) && Stops(k, 1)
    ensures MoreApplied(f, Words(xs, k)) == Yes(Applied(f, xs), k)
    decreases |xs|
  {
    hide ParsePostfix, ParseAtom, PrintExpr, SourceExpr, Stops, Word;
    if xs == [] {
      NoApplication(k) by { StopsNoAtom(k); }
    } else {
      var next := Words(xs[1..], k);
      WordsStop(xs[1..], k);
      WordReads(xs[0], next);
      PostfixStops(PrintExpr(xs[0], next), xs[0], next);
      MoreWords(App(f, xs[0]), xs[1..], k);
    }
  }

  lemma StopsNoAtom(k: Tokens)
    requires Stops(k, 1)
    ensures !AtomStart(k)
  {
  }

  lemma WordReads(e: Expr, k: Tokens)
    requires Plain(e) && Word(e)
    ensures ParseAtom(PrintExpr(e, k)) == Yes(e, k)
  {
    hide ParseAtom, PrintExpr, Plain;
    LeafReads(e, k);
  }
}
