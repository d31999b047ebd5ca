/** Every parsed type is a source type; the one that does not print as itself. */
module TypeImage {
  import opened Ast
  import opened Tokens
  import opened NatGrammar
  import opened TypeGrammar
  import opened TypeRoundTrip

  // ── A bare name among numbers is a bare name among types ───────────────────

  lemma {:induction false} BuiltSum(l: NatExpr, ts: Tokens)
    ensures NatSums(l, ts).value.NVar? ==> NatSums(l, ts) == Yes(l, ts)
    decreases ts
  {
    hide NatProduct;
    if (Starts(ts, PlusSign) || Starts(ts, MinusSign)) && NatProduct(ts.tail).Yes? {
      var r := NatProduct(ts.tail);
      BuiltSum(if ts.head.PlusSign? then NAdd(l, r.value) else NSub(l, r.value), r.rest);
    }
  }

  lemma {:induction false} BuiltProduct(l: NatExpr, ts: Tokens)
    ensures NatProducts(l, ts).value.NVar? ==> NatProducts(l, ts) == Yes(l, ts)
    decreases ts
  {
    hide NatPower;
    if (Starts(ts, StarSign) || Starts(ts, SlashSign)) && NatPower(ts.tail).Yes? {
      var r := NatPower(ts.tail);
      BuiltProduct(if ts.head.StarSign? then NMul(l, r.value) else NDiv(l, r.value), r.rest);
    }
  }

  lemma BuiltPower(ts: Tokens)
    requires NatPower(ts).Yes? && NatPower(ts).value.NVar?
    ensures NatAtom(ts) == NatPower(ts)
  {
    hide NatAtom;
  }

  /** A number that is a bare name was parsed as an atom. */
  lemma VarIsAtom(ts: Tokens)
    requires ParseNat(ts).Yes? && ParseNat(ts).value.NVar?
    ensures NatAtom(ts) == ParseNat(ts)
  {
    hide NatAtom, NatPower;
    var product := NatProduct(ts);
    BuiltSum(product.value, product.rest);
    VarIsPower(ts);
    BuiltPower(ts);
  }

  lemma VarIsPower(ts: Tokens)
    requires NatProduct(ts).Yes? && NatProduct(ts).value.NVar?
    ensures NatPower(ts) == NatProduct(ts)
  {
    hide NatPower;
    BuiltProduct(NatPower(ts).value, NatPower(ts).rest);
  }

  /** Where a number parse reads a bare name, a type parse reads the same tokens. */
  lemma {:induction false} NameIsType(ts: Tokens)
    requires ParseNat(ts).Yes? && ParseNat(ts).value.NVar? && TypeEnds(ParseNat(ts).rest)
    ensures ParseType(ts) == Yes(NameType(ParseNat(ts).value.name), ParseNat(ts).rest)
    decreases ts
  {
    hide ParseNat, ParseType, NameType, TypeList, TypeAtom, SkipLines;
    VarIsAtom(ts);
    if ts.head.IdentToken? {
      NameReads(ts.head.name, ts.tail);
    } else {
      var inner := SkipLines(ts.tail);
      var r := ParseNat(inner);
      ClosingEnds(r.rest);
      NameIsType(inner);
      OneType(inner);
      GroupOf(ts.tail);
      NoArrow(ts, NameType(r.value.name), SkipLines(r.rest).tail);
    }
  }

  lemma ClosingEnds(ts: Tokens)
    requires Starts(SkipLines(ts), RParen)
    ensures TypeEnds(ts) && Comma(ts).No?
  {
  }

  // ── Number arguments ───────────────────────────────────────────────────────

  lemma FirstOfMore(ts: Tokens)
    ensures MoreNats(ts).value == [] ==> MoreNats(ts).rest == ts
    ensures MoreNats(ts).value != [] ==>
              && Comma(ts).Yes? && ParseNat(Comma(ts).rest).Yes?
              && MoreNats(ts).value[0] == ParseNat(Comma(ts).rest).value
              && MoreNats(ts).value[1..] == MoreNats(ParseNat(Comma(ts).rest).rest).value
              && MoreNats(ts).rest == MoreNats(ParseNat(Comma(ts).rest).rest).rest
  {
    hide Comma, ParseNat;
  }

  lemma CommaEnds(ts: Tokens)
    requires Comma(ts).Yes?
    ensures TypeEnds(ts)
  {
  }

  /** Number arguments are read only where the constructor's own rule has failed, so they are unshadowed. */
  lemma NotShadowed(name: Name, ts: Tokens)
    requires FormerOf(name).Some? ==> FormerBody(FormerOf(name).value, ts).No?
    requires AngleNats(ts).Yes?
    ensures !Shadowed(name, AngleNats(ts).value)
  {
    hide FormerOf, ParseNat, ParseType, MoreNats, Comma, NameType, MatrixBody, CircuitBody;
    if FormerOf(name).Some? {
      var (inside, args) := (ts.tail, AngleNats(ts).value);
      var r := ParseNat(inside);
      FirstOfMore(r.rest);
      match FormerOf(name).value
      case FQReg =>
      case FMatrix => if |args| == 3 && args[2].NVar? { MatrixNotNamed(inside); }
      case FCircuit =>
      case FQecBlock => if |args| == 2 && args[0].NVar? { QecNotNamed(inside); }
      case _ => if |args| == 1 && args[0].NVar? { NameIsType(inside); }
    }
  }

  lemma QecNotNamed(inside: Tokens)
    requires NatList(inside).Yes? && |NatList(inside).value| == 2 && NatList(inside).value[0].NVar?
    requires Starts(NatList(inside).rest, RAngle)
    ensures FormerBody(FQecBlock, Tok(LAngle, inside)).Yes?
  {
    hide ParseNat, ParseType, MoreNats, Comma, NameType;
    var r := ParseNat(inside);
    FirstOfMore(r.rest);
    CommaEnds(r.rest);
    NameIsType(inside);
    FirstOfMore(ParseNat(Comma(r.rest).rest).rest);
  }

  lemma MatrixNotNamed(inside: Tokens)
    requires NatList(inside).Yes? && |NatList(inside).value| == 3 && NatList(inside).value[2].NVar?
    requires Starts(NatList(inside).rest, RAngle)
    ensures MatrixBody(inside).Yes?
  {
    hide ParseNat, ParseType, MoreNats, Comma, NameType;
    var r := ParseNat(inside);
    FirstOfMore(r.rest);
    var second := ParseNat(Comma(r.rest).rest);
    FirstOfMore(second.rest);
    var third := Comma(second.rest).rest;
    FirstOfMore(ParseNat(third).rest);
    NameIsType(third);
  }

  // ── The image of the parser ────────────────────────────────────────────────

  /** Whatever tokens it came from, a parsed type is a source type. */
  lemma {:induction false} ParsedType(ts: Tokens)
    requires ParseType(ts).Yes?
    ensures SourceType(ParseType(ts).value)
    decreases ts, 3
  {
    hide TypeAtom, SourceType;
    ParsedTypeAtom(ts);
    ParsedArrow(TypeAtom(ts).value, TypeAtom(ts).rest);
  }

  lemma {:induction false} ParsedArrow(l: Type, ts: Tokens)
    requires SourceType(l)
    ensures SourceType(TypeArrow(l, ts).value)
    decreases ts, 3
  {
    hide ParseType;
    if (Starts(ts, RightArrow) || Starts(ts, LinearArrow)) && ParseType(ts.tail).Yes? { ParsedType(ts.tail); }
  }

  lemma {:induction false} ParsedTypeAtom(ts: Tokens)
    requires TypeAtom(ts).Yes?
    ensures SourceType(TypeAtom(ts).value)
    decreases ts, 2
  {
    hide TypeGroup, FormerBody, FormerOf, NamedType, SourceType;
    if ts.head.LParen? {
      ParsedGroup(ts.tail);
    } else {
      var name := ts.head.name;
      if FormerOf(name).Some? && FormerBody(FormerOf(name).value, ts.tail).Yes? { ParsedFormer(FormerOf(name).value, ts.tail); }
      else { ParsedNamed(name, ts.tail); }
    }
  }

  lemma ParsedNamed(name: Name, ts: Tokens)
    requires FormerOf(name).Some? ==> FormerBody(FormerOf(name).value, ts).No?
    ensures SourceType(NamedType(name, ts).value)
  {
    hide FormerBody, FormerOf, AngleNats, Shadowed, ScalarOf;
    if AngleNats(ts).Yes? { NotShadowed(name, ts); }
    NameOfFormer(name);
  }

  lemma {:induction false} ParsedFormer(f: Former, ts: Tokens)
    requires FormerBody(f, ts).Yes?
    ensures SourceType(FormerBody(f, ts).value)
    decreases ts, 4
  {
    hide ParseNat, ParseType, Comma, CircuitBody, MatrixBody;
    match f
    case FQReg =>
    case FQ => ParsedType(ts.tail);
    case FList => ParsedType(ts.tail);
    case FQecBlock => ParsedType(ts.tail);
    case FMatrix => ParsedMatrix(ts.tail);
    case FCircuit => ParsedCircuit(ts.tail);
  }

  lemma {:induction false} ParsedMatrix(ts: Tokens)
    requires MatrixBody(ts).Yes?
    ensures SourceType(MatrixBody(ts).value)
    decreases ts, 4
  {
    hide ParseNat, ParseType, Comma;
    ParsedType(Comma(ParseNat(Comma(ParseNat(ts).rest).rest).rest).rest);
  }

  lemma ParsedCircuit(ts: Tokens)
    requires CircuitBody(ts).Yes?
    ensures SourceType(CircuitBody(ts).value)
  {
    hide ParseNat, Comma, ParseClass;
  }

  lemma {:induction false} ParsedGroup(ts: Tokens)
    requires TypeGroup(ts).Yes?
    ensures SourceType(TypeGroup(ts).value)
    decreases ts, 5
  {
    hide TypeList;
    ParsedTypes(SkipLines(ts));
  }

  lemma {:induction false} ParsedTypes(ts: Tokens)
    ensures SourceTypes(TypeList(ts).value)
    decreases ts, 4
  {
    hide ParseType, MoreTypes, SourceType;
    if ParseType(ts).Yes? {
      ParsedType(ts);
      ParsedMoreTypes(ParseType(ts).rest);
    }
  }

  lemma {:induction false} ParsedMoreTypes(ts: Tokens)
    ensures SourceTypes(MoreTypes(ts).value)
    decreases ts, 4
  {
    hide ParseType, Comma, SourceType;
    if Comma(ts).Yes? && ParseType(Comma(ts).rest).Yes? {
      ParsedType(Comma(ts).rest);
      ParsedMoreTypes(ParseType(Comma(ts).rest).rest);
    }
  }

  /** No text parses to a circuit type whose class is still to be inferred. */
  lemma InferNeverReads(ts: Tokens)
    ensures ParseType(ts).Yes? && ParseType(ts).value.TCircuit? ==> !ParseType(ts).value.c.Infer?
  {
    hide ParseType;
    if ParseType(ts).Yes? { ParsedType(ts); }
  }

  // ── The type that changes ──────────────────────────────────────────────────

  /** `name<n, m, d, (class)>`. */
  function ParenthesisedClass(name: Name, n: nat, m: nat, d: nat, cls: Name): Tokens {
    Tok(IdentToken(name), Tok(LAngle, Tok(IntToken(n), Tok(CommaSign, Tok(IntToken(m), Tok(CommaSign, Tok(IntToken(d),
      Tok(CommaSign, Tok(LParen, Tok(IdentToken(cls), Tok(RParen, Tok(RAngle, End))))))))))))
  }

  function NamedCircuit(name: Name, n: nat, m: nat, d: nat, cls: Name): Type {
    TNamed(name, [NLit(n), NLit(m), NLit(d), NVar(cls)])
  }

  /** `Circuit<n, m, d, (Clifford)>` parses to a named type, whose text parses to a circuit type. */
  lemma ParenthesisedClassChanges(n: nat, m: nat, d: nat)
    ensures var t := NamedCircuit("Circuit", n, m, d, "Clifford");
            && ParseType(ParenthesisedClass("Circuit", n, m, d, "Clifford")) == Yes(t, End)
            && ParseType(PrintType(t, End)) == Yes(TCircuit(NLit(n), NLit(m), NLit(d), Clifford), End)
  {
    hide ParseType, PrintType, ParenthesisedClass;
    ReadsAsNamed("Circuit", n, m, d, "Clifford");
    TypeReads(NamedCircuit("Circuit", n, m, d, "Clifford"), End);
  }

  lemma ReadsAsNamed(name: Name, n: nat, m: nat, d: nat, cls: Name)
    requires FormerOf(name) == Some(FCircuit)
    ensures ParseType(ParenthesisedClass(name, n, m, d, cls)) == Yes(NamedCircuit(name, n, m, d, cls), End)
  {
    hide ParseType, TypeAtom, ParenthesisedClass, NamedCircuit, FormerOf;
    AtomAsNamed(name, n, m, d, cls);
    NoArrow(ParenthesisedClass(name, n, m, d, cls), NamedCircuit(name, n, m, d, cls), End);
  }

  lemma AtomAsNamed(name: Name, n: nat, m: nat, d: nat, cls: Name)
    requires FormerOf(name) == Some(FCircuit)
    ensures TypeAtom(ParenthesisedClass(name, n, m, d, cls)) == Yes(NamedCircuit(name, n, m, d, cls), End)
  {
    hide NamedType, FormerBody, FormerOf, TypeGroup, NamedCircuit;
    OwnRuleThenName(name, n, m, d, cls);
  }

  lemma OwnRuleThenName(name: Name, n: nat, m: nat, d: nat, cls: Name)
    ensures var ts := ParenthesisedClass(name, n, m, d, cls);
            FormerBody(FCircuit, ts.tail).No? && NamedType(name, ts.tail) == Yes(NamedCircuit(name, n, m, d, cls), End)
  {
    hide *;
    FourNumbers(name, n, m, d, cls);
    FourNumbersMean(name, n, m, d, cls, ParenthesisedClass(name, n, m, d, cls));
  }

  lemma FourNumbersMean(name: Name, n: nat, m: nat, d: nat, cls: Name, ts: Tokens)
    requires ts == ParenthesisedClass(name, n, m, d, cls)
    requires CircuitBody(ts.tail.tail).No?
    requires NatList(ts.tail.tail) == Yes([NLit(n), NLit(m), NLit(d), NVar(cls)], Tok(RAngle, End))
    ensures FormerBody(FCircuit, ts.tail).No? && NamedType(name, ts.tail) == Yes(NamedCircuit(name, n, m, d, cls), End)
  {
    hide ParseType, NatList, CircuitBody, FormerOf, TypeGroup, MatrixBody, TypeAtom, SkipLines, Comma;
    assert AngleNats(ts.tail) == Yes(NamedCircuit(name, n, m, d, cls).args, End);
  }

  lemma FourNumbers(name: Name, n: nat, m: nat, d: nat, cls: Name)
    ensures var ts := ParenthesisedClass(name, n, m, d, cls).tail.tail;
            CircuitBody(ts).No? && NatList(ts) == Yes([NLit(n), NLit(m), NLit(d), NVar(cls)], Tok(RAngle, End))
  {
    hide ParseNat, Comma, ParseClass, NatList;
    var close := Tok(RAngle, End);
    var last := Tok(LParen, Tok(IdentToken(cls), Tok(RParen, close)));
    var t3 := Tok(IntToken(d), Tok(CommaSign, last));
    var t2 := Tok(IntToken(m), Tok(CommaSign, t3));
    LiteralThenComma(n, t2);
    LiteralThenComma(m, t3);
    LiteralThenComma(d, last);
    ClassInParens(cls);
    NoComma(RAngle, End);
    ListOfFour(Tok(IntToken(n), Tok(CommaSign, t2)), NLit(n), t2, NLit(m), t3, NLit(d), last, NVar(cls), close);
  }

  lemma ListOfFour(t1: Tokens, a: NatExpr, t2: Tokens, b: NatExpr, t3: Tokens, c: NatExpr, t4: Tokens, e: NatExpr, k: Tokens)
    requires ParseNat(t1) == Yes(a, Tok(CommaSign, t2)) && ParseNat(t2) == Yes(b, Tok(CommaSign, t3))
    requires ParseNat(t3) == Yes(c, Tok(CommaSign, t4)) && ParseNat(t4) == Yes(e, k) && Comma(k).No?
    requires SkipLines(t2) == t2 && SkipLines(t3) == t3 && SkipLines(t4) == t4
    ensures NatList(t1) == Yes([a, b, c, e], k)
  {
    hide ParseNat, Comma, MoreNats, SkipLines;
    NoMore(k);
    OneMore(t4, e, k);
    OneMore(t3, c, Tok(CommaSign, t4));
    OneMore(t2, b, Tok(CommaSign, t3));
    assert [a] + ([b] + ([c] + ([e] + []))) == [a, b, c, e];
  }

  lemma NoMore(ts: Tokens)
    requires Comma(ts).No?
    ensures MoreNats(ts) == Yes([], ts)
  {
  }

  lemma OneMore(ts: Tokens, n: NatExpr, rest: Tokens)
    requires SkipLines(ts) == ts && ParseNat(ts) == Yes(n, rest)
    ensures MoreNats(Tok(CommaSign, ts)) == Yes([n] + MoreNats(rest).value, MoreNats(rest).rest)
  {
    hide ParseNat, Comma;
    CommaThen(ts);
  }

  lemma LiteralThenComma(n: nat, next: Tokens)
    requires SkipLines(next) == next
    ensures ParseNat(Tok(IntToken(n), Tok(CommaSign, next))) == Yes(NLit(n), Tok(CommaSign, next))
    ensures Comma(Tok(CommaSign, next)) == Yes((), next)
  {
    NatThenComma(NLit(n), next);
  }

  lemma ClassInParens(cls: Name)
    ensures var last := Tok(LParen, Tok(IdentToken(cls), Tok(RParen, Tok(RAngle, End))));
            ParseClass(last).No? && ParseNat(last) == Yes(NVar(cls), Tok(RAngle, End)) && SkipLines(last) == last
  {
    var last := Tok(LParen, Tok(IdentToken(cls), Tok(RParen, Tok(RAngle, End))));
    ParenNat(NVar(cls), Tok(RAngle, End));
    AtomIsNat(last, NVar(cls), Tok(RAngle, End));
  }

  // ── Parentheses ────────────────────────────────────────────────────────────

  /** A printed type keeps its parentheses balanced. */
  lemma {:induction false} TypeCloses(t: Type, k: Tokens, d: nat)
    requires d > 0
    ensures Close(PrintType(t, k), d) == Close(k, d)
    decreases t, 1
  {
    hide FormerName, ScalarName, PrintNat, PrintAngles, PrintMoreTypes;
    var close := Tok(RAngle, k);
    match t
    case TQReg(n) => NatCloses(n, close, d);
    case TQ(u) => TypeCloses(u, close, d);
    case TList(u) => TypeCloses(u, close, d);
    case TMatrix(n, m, u) => MatrixCloses(n, m, u, k, d);
    case TCircuit(n, m, q, c) => CircuitCloses(n, m, q, c, k, d);
    case TQecBlock(u, n) =>
      NatCloses(n, close, d);
      TypeCloses(u, Tok(CommaSign, PrintNat(n, close)), d);
    case TFn(a, b) => ArrowCloses(RightArrow, t, a, b, k, d);
    case TLinear(a, b) => ArrowCloses(LinearArrow, t, a, b, k, d);
    case TTuple(ts) =>
      TypesClose(ts, Tok(RParen, k), d + 1);
      assert Close(Tok(RParen, k), d + 1) == Close(k, d);
    case TNamed(name, args) => if args != [] { AnglesClose(args, k, d); }
    case _ =>
  }

  lemma {:induction false} MatrixCloses(n: NatExpr, m: NatExpr, u: Type, k: Tokens, d: nat)
    requires d > 0
    ensures Close(PrintType(TMatrix(n, m, u), k), d) == Close(k, d)
    decreases u, 2
  {
    hide FormerName, PrintNat;
    var elem := PrintType(u, Tok(RAngle, k));
    var cols := PrintNat(m, Tok(CommaSign, elem));
    TypeCloses(u, Tok(RAngle, k), d);
    NatCloses(m, Tok(CommaSign, elem), d);
    NatCloses(n, Tok(CommaSign, cols), d);
  }

  lemma CircuitCloses(n: NatExpr, m: NatExpr, q: NatExpr, c: CliffordClass, k: Tokens, d: nat)
    requires d > 0
    ensures Close(PrintType(TCircuit(n, m, q, c), k), d) == Close(k, d)
  {
    hide FormerName, PrintNat;
    var class_ := PrintClass(c, Tok(RAngle, k));
    var depth := PrintNat(q, Tok(CommaSign, class_));
    var outs := PrintNat(m, Tok(CommaSign, depth));
    ClassCloses(c, k, d);
    NatCloses(q, Tok(CommaSign, class_), d);
    NatCloses(m, Tok(CommaSign, depth), d);
    NatCloses(n, Tok(CommaSign, outs), d);
  }

  lemma ClassCloses(c: CliffordClass, k: Tokens, d: nat)
    requires d > 0
    ensures Close(PrintClass(c, Tok(RAngle, k)), d) == Close(k, d)
  {
    if c.Infer? {
      var two := Tok(RAngle, Tok(RAngle, k));
      var four := Tok(MinusSign, Tok(IdentToken("class"), two));
      assert Close(two, d) == Close(k, d);
      CloseSkips(IdentToken("class"), two, d);
      CloseSkips(MinusSign, Tok(IdentToken("class"), two), d);
      CloseSkips(IdentToken("unresolved"), four, d);
    }
  }

  lemma {:induction false} ArrowCloses(arrow: Token, t: Type, a: Type, b: Type, k: Tokens, d: nat)
    requires d > 0 && !arrow.LParen? && !arrow.RParen? && a < t && b < t
    ensures Close(Tok(LParen, PrintType(a, Tok(RParen, Tok(arrow, Tok(LParen, PrintType(b, Tok(RParen, k))))))), d) == Close(k, d)
    decreases t, 0
  {
    hide PrintType;
    var second := PrintType(b, Tok(RParen, k));
    var next := Tok(RParen, Tok(arrow, Tok(LParen, second)));
    TypeCloses(a, next, d + 1);
    TypeCloses(b, Tok(RParen, k), d + 1);
    CloseOperator(arrow, second, d);
    assert Close(Tok(RParen, k), d + 1) == Close(k, d);
  }

  lemma {:induction false} TypesClose(ts: seq<Type>, k: Tokens, d: nat)
    requires d > 0
    ensures Close(PrintTypes(ts, k), d) == Close(k, d)
    ensures Close(PrintMoreTypes(ts, k), d) == Close(k, d)
    decreases ts, 0
  {
    hide PrintType;
    if ts != [] {
      TypeCloses(ts[0], PrintMoreTypes(ts[1..], k), d);
      TypesClose(ts[1..], k, d);
    }
  }
}
