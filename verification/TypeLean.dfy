/** Precedence and associativity in types and type-level numbers: written with few parentheses, they
    parse to the same tree. */
module TypeLean {
  import opened Ast
  import opened Tokens
  import opened NatGrammar
  import opened TypeGrammar
  import opened TypeRoundTrip

  // ── Numbers ────────────────────────────────────────────────────────────────

  /** Atoms, `^`, `*` and `/`, `+` and `-`. */
  function NatRank(n: NatExpr): int {
    match n
    case NExp(_, _) => 1
    case NMul(_, _) => 2
    case NDiv(_, _) => 2
    case NAdd(_, _) => 3
    case NSub(_, _) => 3
    case _ => 0
  }

  function LeanNat(n: NatExpr, loosest: int, k: Tokens): Tokens
    decreases n, 1
  {
    if NatRank(n) <= loosest then BareNat(n, k) else Tok(LParen, BareNat(n, Tok(RParen, k)))
  }

  /** `^` takes itself on the right, the others themselves on the left. */
  function BareNat(n: NatExpr, k: Tokens): Tokens
    decreases n, 0
  {
    match n
    case NExp(a, b) => LeanNat(a, 0, Tok(CaretSign, LeanNat(b, 1, k)))
    case NMul(a, b) => LeanNat(a, 2, Tok(StarSign, LeanNat(b, 1, k)))
    case NDiv(a, b) => LeanNat(a, 2, Tok(SlashSign, LeanNat(b, 1, k)))
    case NAdd(a, b) => LeanNat(a, 3, Tok(PlusSign, LeanNat(b, 2, k)))
    case NSub(a, b) => LeanNat(a, 3, Tok(MinusSign, LeanNat(b, 2, k)))
    case _ => PrintNat(n, k)
  }

  function WrappedNat(n: NatExpr, loosest: int): nat { if NatRank(n) <= loosest then 0 else 1 }

  lemma {:induction false} NatBegins(n: NatExpr, loosest: int, k: Tokens)
    ensures SkipLines(LeanNat(n, loosest, k)) == LeanNat(n, loosest, k) && SkipLines(BareNat(n, k)) == BareNat(n, k)
    decreases n
  {
    match n
    case NExp(a, b) => NatBegins(a, 0, Tok(CaretSign, LeanNat(b, 1, k)));
    case NMul(a, b) => NatBegins(a, 2, Tok(StarSign, LeanNat(b, 1, k)));
    case NDiv(a, b) => NatBegins(a, 2, Tok(SlashSign, LeanNat(b, 1, k)));
    case NAdd(a, b) => NatBegins(a, 3, Tok(PlusSign, LeanNat(b, 2, k)));
    case NSub(a, b) => NatBegins(a, 3, Tok(MinusSign, LeanNat(b, 2, k)));
    case _ =>
  }

  lemma {:induction false} AtomLean(n: NatExpr, k: Tokens)
    ensures NatAtom(LeanNat(n, 0, k)) == Yes(n, k)
    decreases n, WrappedNat(n, 0), 0
  {
    hide ParseNat;
    if NatRank(n) > 0 {
      hide BareNat;
      LeanNatReads(n, Tok(RParen, k));
      NatBegins(n, 3, Tok(RParen, k));
    }
  }

  lemma {:induction false} PowerLean(n: NatExpr, k: Tokens)
    requires !Starts(k, CaretSign)
    ensures NatPower(LeanNat(n, 1, k)) == Yes(n, k)
    decreases n, WrappedNat(n, 1), 1
  {
    hide NatAtom, NatPower;
    if n.NExp? {
      assert LeanNat(n, 1, k) == BareNat(n, k) == LeanNat(n.left, 0, Tok(CaretSign, LeanNat(n.right, 1, k)));
      AtomLean(n.left, Tok(CaretSign, LeanNat(n.right, 1, k)));
      PowerLean(n.right, k);
      OnePower(LeanNat(n, 1, k), n.left, LeanNat(n.right, 1, k), n.right, k);
    } else {
      AtomLean(n, k);
      AtomIsPower(LeanNat(n, 0, k), n, k);
    }
  }

  lemma OnePower(ts: Tokens, a: NatExpr, second: Tokens, b: NatExpr, k: Tokens)
    requires NatAtom(ts) == Yes(a, Tok(CaretSign, second)) && NatPower(second) == Yes(b, k)
    ensures NatPower(ts) == Yes(NExp(a, b), k)
  {
    hide NatAtom;
    var first := NatAtom(second);
    var more := NatPowers(first.rest);
    assert NatPowers(Tok(CaretSign, second)) == Yes([first.value] + more.value, more.rest);
    assert ([first.value] + more.value)[1..] == more.value;
  }

  lemma {:induction false} ProductLean(n: NatExpr, k: Tokens)
    requires !Starts(k, CaretSign)
    ensures NatProduct(LeanNat(n, 2, k)) == NatProducts(n, k)
    decreases n, WrappedNat(n, 2), 2
  {
    hide NatPower;
    if n.NMul? || n.NDiv? {
      PowerLean(n.right, k);
      ProductLean(n.left, Tok(if n.NMul? then StarSign else SlashSign, LeanNat(n.right, 1, k)));
    } else {
      PowerLean(n, k);
    }
  }

  lemma {:induction false} SumLean(n: NatExpr, k: Tokens)
    requires !Starts(k, CaretSign) && !Starts(k, StarSign) && !Starts(k, SlashSign)
    ensures ParseNat(LeanNat(n, 3, k)) == NatSums(n, k)
    decreases n, WrappedNat(n, 3), 4
  {
    hide NatPower, NatProduct;
    if n.NAdd? || n.NSub? {
      TermLean(n.right, k);
      SumLean(n.left, Tok(if n.NAdd? then PlusSign else MinusSign, LeanNat(n.right, 2, k)));
    } else {
      TermLean(n, k);
    }
  }

  lemma {:induction false} TermLean(n: NatExpr, k: Tokens)
    requires !Starts(k, CaretSign) && !Starts(k, StarSign) && !Starts(k, SlashSign)
    ensures NatProduct(LeanNat(n, 2, k)) == Yes(n, k)
    decreases n, WrappedNat(n, 2), 3
  {
    hide NatPower, NatProduct;
    ProductLean(n, k);
  }

  /** A number written with few parentheses parses to itself: `^` binds tighter than `*` and `/`, and these
      tighter than `+` and `-`; `^` leans right and the others left. */
  lemma {:induction false} LeanNatReads(n: NatExpr, k: Tokens)
    requires NatEnds(k)
    ensures ParseNat(LeanNat(n, 3, k)) == Yes(n, k)
    decreases n, 0, 5
  {
    hide ParseNat, LeanNat;
    SumLean(n, k);
  }

  // ── Arrows ─────────────────────────────────────────────────────────────────

  /** Arrows with no parentheses around what they lead to. */
  function LeanArrows(t: Type, k: Tokens): Tokens {
    match t
    case TFn(a, b) => Tok(LParen, PrintType(a, Tok(RParen, Tok(RightArrow, LeanArrows(b, k)))))
    case TLinear(a, b) => Tok(LParen, PrintType(a, Tok(RParen, Tok(LinearArrow, LeanArrows(b, k)))))
    case _ => PrintType(t, k)
  }

  /** `(a) -> (b) -> c` is a function from `a` to functions from `b` to `c`. */
  lemma {:induction false} ArrowsLeanRight(t: Type, k: Tokens)
    requires SourceType(t) && !HasClash(t) && TypeEnds(k)
    ensures ParseType(LeanArrows(t, k)) == Yes(t, k)
    decreases t
  {
    hide ParseType, TypeAtom, PrintType;
    match t
    case TFn(a, b) =>
      ArrowsLeanRight(b, k);
      OneArrow(RightArrow, a, LeanArrows(b, k), b, k);
    case TLinear(a, b) =>
      ArrowsLeanRight(b, k);
      OneArrow(LinearArrow, a, LeanArrows(b, k), b, k);
    case _ => TypeRoundTripIff(t, k);
  }

  lemma OneArrow(arrow: Token, a: Type, second: Tokens, b: Type, k: Tokens)
    requires (arrow.RightArrow? || arrow.LinearArrow?) && SourceType(a) && !HasClash(a) && ParseType(second) == Yes(b, k)
    ensures ParseType(Tok(LParen, PrintType(a, Tok(RParen, Tok(arrow, second))))) ==
              Yes(if arrow.RightArrow? then TFn(a, b) else TLinear(a, b), k)
  {
    hide ParseType, TypeAtom, PrintType, SourceType, HasClash;
    var inner := PrintType(a, Tok(RParen, Tok(arrow, second)));
    TypeRoundTripIff(a, Tok(RParen, Tok(arrow, second)));
    TypeHead(a, Tok(RParen, Tok(arrow, second)));
    GroupReads(inner, a, Tok(arrow, second));
    ArrowJoins(arrow, Tok(LParen, inner), a, second, b, k);
  }
}
