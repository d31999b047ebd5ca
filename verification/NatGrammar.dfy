/** Type-level numbers: the grammar, the printer and their round trip. */
module NatGrammar {
  import opened Ast
  import opened Tokens

  // ── The grammar ────────────────────────────────────────────────────────────

  /** `+ -` over `* /` over `^`, the first two to the left and the last to the right. */
  function ParseNat(ts: Tokens): (r: Parsed<NatExpr>)
    ensures r.Yes? ==> r.rest < ts
    decreases ts, 3
  {
    var (l, rest) :- NatProduct(ts);
    NatSums(l, rest)
  }

  function NatSums(l: NatExpr, ts: Tokens): (r: Parsed<NatExpr>)
    ensures r.Yes? && Left(r.rest, ts)
    decreases ts, 3
  {
    if Starts(ts, PlusSign) || Starts(ts, MinusSign) then
      match NatProduct(ts.tail)
      case No => Yes(l, ts)
      case Yes(r, rest) => NatSums(if ts.head.PlusSign? then NAdd(l, r) else NSub(l, r), rest)
    else Yes(l, ts)
  }

  function NatProduct(ts: Tokens): (r: Parsed<NatExpr>)
    ensures r.Yes? ==> r.rest < ts
    decreases ts, 2
  {
    var (l, rest) :- NatPower(ts);
    NatProducts(l, rest)
  }

  function NatProducts(l: NatExpr, ts: Tokens): (r: Parsed<NatExpr>)
    ensures r.Yes? && Left(r.rest, ts)
    decreases ts, 2
  {
    if Starts(ts, StarSign) || Starts(ts, SlashSign) then
      match NatPower(ts.tail)
      case No => Yes(l, ts)
      case Yes(r, rest) => NatProducts(if ts.head.StarSign? then NMul(l, r) else NDiv(l, r), rest)
    else Yes(l, ts)
  }

  function NatPower(ts: Tokens): (r: Parsed<NatExpr>)
    ensures r.Yes? ==> r.rest < ts
    decreases ts, 1
  {
    var (first, rest) :- NatAtom(ts);
    var more := NatPowers(rest);
    Yes(PowerOf(first, more.value), more.rest)
  }

  /** The `^ atom` tails. */
  function NatPowers(ts: Tokens): (r: Parsed<seq<NatExpr>>)
    ensures r.Yes? && Left(r.rest, ts)
    decreases ts, 1
  {
    if Starts(ts, CaretSign) then
      match NatAtom(ts.tail)
      case No => Yes([], ts)
      case Yes(n, rest) =>
        var more := NatPowers(rest);
        Yes([n] + more.value, more.rest)
    else Yes([], ts)
  }

  /** `^` associates to the right. */
  function PowerOf(first: NatExpr, rest: seq<NatExpr>): NatExpr
    decreases |rest|
  {
    if rest == [] then first else NExp(first, PowerOf(rest[0], rest[1..]))
  }

  /** The loop that builds a power from its last operand backwards. */
  method BuildPower(first: NatExpr, rest: seq<NatExpr>) returns (r: NatExpr)
    ensures r == PowerOf(first, rest)
  {
    if rest == [] { return first; }
    r := rest[|rest| - 1];
    var i := |rest| - 1;
    while i > 0
      invariant 0 <= i < |rest| && r == PowerOf(rest[i], rest[i + 1..])
    {
      assert rest[i..][1..] == rest[i + 1..];
      i := i - 1;
      r := NExp(rest[i], r);
    }
    r := NExp(first, r);
  }

  function NatAtom(ts: Tokens): (r: Parsed<NatExpr>)
    ensures r.Yes? ==> r.rest < ts
    decreases ts, 0
  {
    if ts.End? then No
    else
      match ts.head
      case IntToken(n) => Yes(NLit(n), ts.tail)
      case UnderscoreSign => Yes(NHole, ts.tail)
      case IdentToken(name) => Yes(NVar(name), ts.tail)
      case LParen =>
        var (n, rest) :- ParseNat(SkipLines(ts.tail));
        var (_, after) :- Expect(SkipLines(rest), RParen);
        Yes(n, after)
      case _ => No
  }

  /** One or more numbers between commas, with no trailing comma. */
  function NatList(ts: Tokens): (r: Parsed<seq<NatExpr>>)
    ensures r.Yes? ==> r.rest < ts && r.value != []
  {
    var (n, rest) :- ParseNat(ts);
    var more := MoreNats(rest);
    Yes([n] + more.value, more.rest)
  }

  function MoreNats(ts: Tokens): (r: Parsed<seq<NatExpr>>)
    ensures r.Yes? && Left(r.rest, ts)
    decreases ts
  {
    match Comma(ts)
    case No => Yes([], ts)
    case Yes(_, next) =>
      match ParseNat(next)
      case No => Yes([], ts)
      case Yes(n, rest) =>
        var more := MoreNats(rest);
        Yes([n] + more.value, more.rest)
  }

  /** `< n1, n2, … >`. */
  function AngleNats(ts: Tokens): (r: Parsed<seq<NatExpr>>)
    ensures r.Yes? ==> r.rest < ts && r.value != []
  {
    var (_, inside) :- Expect(ts, LAngle);
    var (ns, rest) :- NatList(inside);
    var (_, after) :- Expect(rest, RAngle);
    Yes(ns, after)
  }

  // ── The printer ────────────────────────────────────────────────────────────

  /** `nat_str`, in front of the tokens `k`. */
  function PrintNat(n: NatExpr, k: Tokens): Tokens {
    match n
    case NLit(v) => Tok(IntToken(v), k)
    case NVar(name) => Tok(IdentToken(name), k)
    case NHole => Tok(UnderscoreSign, k)
    case NAdd(a, b) => Tok(LParen, PrintNat(a, Tok(RParen, Tok(PlusSign, Tok(LParen, PrintNat(b, Tok(RParen, k)))))))
    case NSub(a, b) => Tok(LParen, PrintNat(a, Tok(RParen, Tok(MinusSign, Tok(LParen, PrintNat(b, Tok(RParen, k)))))))
    case NMul(a, b) => Tok(LParen, PrintNat(a, Tok(RParen, Tok(StarSign, Tok(LParen, PrintNat(b, Tok(RParen, k)))))))
    case NDiv(a, b) => Tok(LParen, PrintNat(a, Tok(RParen, Tok(SlashSign, Tok(LParen, PrintNat(b, Tok(RParen, k)))))))
    case NExp(a, b) => Tok(LParen, PrintNat(a, Tok(RParen, Tok(CaretSign, Tok(LParen, PrintNat(b, Tok(RParen, k)))))))
  }

  /** Numbers joined by commas. */
  function PrintNats(ns: seq<NatExpr>, k: Tokens): Tokens {
    if ns == [] then k else PrintNat(ns[0], PrintMoreNats(ns[1..], k))
  }

  function PrintMoreNats(ns: seq<NatExpr>, k: Tokens): Tokens {
    if ns == [] then k else Tok(CommaSign, PrintNat(ns[0], PrintMoreNats(ns[1..], k)))
  }

  function PrintAngles(ns: seq<NatExpr>, k: Tokens): Tokens {
    Tok(LAngle, PrintNats(ns, Tok(RAngle, k)))
  }

  // ── The round trip ─────────────────────────────────────────────────────────

  /** `k` does not continue a number. */
  predicate NatEnds(k: Tokens) {
    k.Tok? ==> !(k.head.PlusSign? || k.head.MinusSign? || k.head.StarSign? || k.head.SlashSign? || k.head.CaretSign?)
  }

  lemma NatHead(n: NatExpr, k: Tokens)
    ensures var ts := PrintNat(n, k);
            ts.Tok? && (ts.head.IntToken? || ts.head.IdentToken? || ts.head.UnderscoreSign? || ts.head.LParen?)
    ensures SkipLines(PrintNat(n, k)) == PrintNat(n, k)
  {
  }

  lemma PowerIsNat(ts: Tokens, n: NatExpr, k: Tokens)
    requires NatPower(ts) == Yes(n, k) && NatEnds(k)
    ensures ParseNat(ts) == Yes(n, k)
  {
    hide NatPower;
    assert NatProducts(n, k) == Yes(n, k);
    assert NatProduct(ts) == Yes(n, k);
  }

  /** An atom that no `^` continues is a whole power. */
  lemma AtomIsPower(ts: Tokens, n: NatExpr, k: Tokens)
    requires NatAtom(ts) == Yes(n, k) && !Starts(k, CaretSign)
    ensures NatPower(ts) == Yes(n, k)
  {
    hide NatAtom;
    assert NatPowers(k) == Yes([], k);
  }

  lemma AtomIsNat(ts: Tokens, n: NatExpr, k: Tokens)
    requires NatAtom(ts) == Yes(n, k) && NatEnds(k)
    ensures ParseNat(ts) == Yes(n, k)
  {
    hide NatAtom, NatPower, ParseNat;
    AtomIsPower(ts, n, k);
    PowerIsNat(ts, n, k);
  }

  lemma {:induction false} ParenNat(n: NatExpr, k: Tokens)
    ensures NatAtom(Tok(LParen, PrintNat(n, Tok(RParen, k)))) == Yes(n, k)
    decreases n, 1
  {
    NatRoundTrip(n, Tok(RParen, k));
    NatHead(n, Tok(RParen, k));
  }

  /** Printing a number and parsing the tokens gives the number back. */
  lemma {:induction false} NatRoundTrip(n: NatExpr, k: Tokens)
    requires NatEnds(k)
    ensures ParseNat(PrintNat(n, k)) == Yes(n, k)
    decreases n, 0
  {
    if n.NLit? || n.NVar? || n.NHole? {
      AtomIsNat(PrintNat(n, k), n, k);
    } else {
      ParenNat(n.right, k);
      var second := Tok(LParen, PrintNat(n.right, Tok(RParen, k)));
      var op := if n.NAdd? then PlusSign else if n.NSub? then MinusSign else if n.NMul? then StarSign else if n.NDiv? then SlashSign
                else CaretSign;
      ParenNat(n.left, Tok(op, second));
      OperatorNat(PrintNat(n, k), n.left, op, second, n.right, k);
    }
  }

  function NatOf(op: Token, a: NatExpr, b: NatExpr): NatExpr {
    if op.PlusSign? then NAdd(a, b) else if op.MinusSign? then NSub(a, b) else if op.StarSign? then NMul(a, b)
    else if op.SlashSign? then NDiv(a, b) else NExp(a, b)
  }

  lemma OperatorNat(ts: Tokens, a: NatExpr, op: Token, second: Tokens, b: NatExpr, k: Tokens)
    requires NatAtom(ts) == Yes(a, Tok(op, second)) && NatAtom(second) == Yes(b, k) && NatEnds(k)
    requires op.PlusSign? || op.MinusSign? || op.StarSign? || op.SlashSign? || op.CaretSign?
    ensures ParseNat(ts) == Yes(NatOf(op, a, b), k)
  {
    hide NatAtom, NatPower, ParseNat;
    if op.CaretSign? {
      CaretNat(ts, a, second, b, k);
      PowerIsNat(ts, NExp(a, b), k);
    } else {
      AtomIsPower(ts, a, Tok(op, second));
      AtomIsPower(second, b, k);
      PowersNat(ts, a, op, second, b, k);
    }
  }

  lemma CaretNat(ts: Tokens, a: NatExpr, second: Tokens, b: NatExpr, k: Tokens)
    requires NatAtom(ts) == Yes(a, Tok(CaretSign, second)) && NatAtom(second) == Yes(b, k) && NatEnds(k)
    ensures NatPower(ts) == Yes(NExp(a, b), k)
  {
    hide NatAtom;
    assert NatPowers(k) == Yes([], k);
    assert NatPowers(Tok(CaretSign, second)) == Yes([b] + [], k);
    assert PowerOf(a, [b]) == NExp(a, b);
  }

  lemma PowersNat(ts: Tokens, a: NatExpr, op: Token, second: Tokens, b: NatExpr, k: Tokens)
    requires NatPower(ts) == Yes(a, Tok(op, second)) && NatPower(second) == Yes(b, k) && NatEnds(k)
    requires op.PlusSign? || op.MinusSign? || op.StarSign? || op.SlashSign?
    ensures ParseNat(ts) == Yes(NatOf(op, a, b), k)
  {
    hide NatPower;
    var whole := NatOf(op, a, b);
    assert NatSums(whole, k) == Yes(whole, k);
    assert NatProducts(whole, k) == Yes(whole, k);
    if op.StarSign? || op.SlashSign? {
      assert NatProduct(ts) == Yes(whole, k);
    } else {
      assert NatProducts(a, Tok(op, second)) == Yes(a, Tok(op, second));
      assert NatProducts(b, k) == Yes(b, k);
      assert NatProduct(ts) == Yes(a, Tok(op, second)) && NatProduct(second) == Yes(b, k);
    }
  }

  lemma MoreEnds(ns: seq<NatExpr>, k: Tokens)
    requires NatEnds(k)
    ensures NatEnds(PrintMoreNats(ns, k))
  {
  }

  lemma {:induction false} MoreNatsRoundTrip(ns: seq<NatExpr>, k: Tokens)
    ensures MoreNats(PrintMoreNats(ns, Tok(RAngle, k))) == Yes(ns, Tok(RAngle, k))
  {
    hide ParseNat, PrintNat, Comma;
    var close := Tok(RAngle, k);
    if ns == [] {
      NoComma(RAngle, k);
    } else {
      var next := PrintMoreNats(ns[1..], close);
      MoreEnds(ns[1..], close);
      NatRoundTrip(ns[0], next);
      NatHead(ns[0], next);
      CommaThen(PrintNat(ns[0], next));
      MoreNatsRoundTrip(ns[1..], k);
      assert [ns[0]] + ns[1..] == ns;
    }
  }

  /** Angle brackets around one or more numbers. */
  lemma NatListRoundTrip(ns: seq<NatExpr>, k: Tokens)
    requires ns != []
    ensures AngleNats(PrintAngles(ns, k)) == Yes(ns, k)
  {
    hide ParseNat, PrintNat, PrintMoreNats, MoreNats;
    var next := PrintMoreNats(ns[1..], Tok(RAngle, k));
    MoreEnds(ns[1..], Tok(RAngle, k));
    NatRoundTrip(ns[0], next);
    MoreNatsRoundTrip(ns[1..], k);
    assert [ns[0]] + ns[1..] == ns;
    assert NatList(PrintNats(ns, Tok(RAngle, k))) == Yes(ns, Tok(RAngle, k));
  }

  /** A printed number keeps its parentheses balanced. */
  lemma {:induction false} NatCloses(n: NatExpr, k: Tokens, d: nat)
    requires d > 0
    ensures Close(PrintNat(n, k), d) == Close(k, d)
  {
    if !(n.NLit? || n.NVar? || n.NHole?) {
      var second := PrintNat(n.right, Tok(RParen, k));
      var op := if n.NAdd? then PlusSign else if n.NSub? then MinusSign else if n.NMul? then StarSign else if n.NDiv? then SlashSign
                else CaretSign;
      var first := PrintNat(n.left, Tok(RParen, Tok(op, Tok(LParen, second))));
      assert PrintNat(n, k) == Tok(LParen, first);
      hide PrintNat;
      NatCloses(n.right, Tok(RParen, k), d + 1);
      NatCloses(n.left, Tok(RParen, Tok(op, Tok(LParen, second))), d + 1);
      CloseOperator(op, second, d);
      assert Close(Tok(RParen, k), d + 1) == Close(k, d);
      assert Close(Tok(LParen, first), d) == Close(first, d + 1);
    }
  }

  lemma CloseOperator(op: Token, second: Tokens, d: nat)
    requires d > 0 && !op.LParen? && !op.RParen?
    ensures Close(Tok(RParen, Tok(op, Tok(LParen, second))), d + 1) == Close(second, d + 1)
  {
    assert Close(Tok(LParen, second), d) == Close(second, d + 1);
    assert Close(Tok(op, Tok(LParen, second)), d) == Close(Tok(LParen, second), d);
  }

  lemma {:induction false} MoreNatsClose(ns: seq<NatExpr>, k: Tokens, d: nat)
    requires d > 0
    ensures Close(PrintMoreNats(ns, k), d) == Close(k, d)
  {
    if ns != [] {
      NatCloses(ns[0], PrintMoreNats(ns[1..], k), d);
      MoreNatsClose(ns[1..], k, d);
    }
  }

  lemma AnglesClose(ns: seq<NatExpr>, k: Tokens, d: nat)
    requires d > 0
    ensures Close(PrintAngles(ns, k), d) == Close(k, d)
  {
    if ns != [] {
      NatCloses(ns[0], PrintMoreNats(ns[1..], Tok(RAngle, k)), d);
      MoreNatsClose(ns[1..], Tok(RAngle, k), d);
    }
  }
}
