/** Which types survive printing and parsing, and what becomes of the others. */
module TypeRoundTrip {
  import opened Ast
  import opened Tokens
  import opened NatGrammar
  import opened TypeGrammar

  // ── The types a parse can yield ────────────────────────────────────────────

  /** Number arguments that the constructor's own rule would have read instead. */
  predicate Shadowed(name: Name, args: seq<NatExpr>) {
    match FormerOf(name)
    case None => false
    case Some(FQReg) => |args| == 1
    case Some(FQ) => |args| == 1 && args[0].NVar?
    case Some(FList) => |args| == 1 && args[0].NVar?
    case Some(FMatrix) => |args| == 3 && args[2].NVar?
    case Some(FQecBlock) => |args| == 2 && args[0].NVar?
    case Some(FCircuit) => false
  }

  predicate SourceType(t: Type) {
    match t
    case TList(u) => SourceType(u)
    case TQ(u) => SourceType(u)
    case TMatrix(_, _, u) => SourceType(u)
    case TQecBlock(u, _) => SourceType(u)
    case TFn(a, b) => SourceType(a) && SourceType(b)
    case TLinear(a, b) => SourceType(a) && SourceType(b)
    case TTuple(ts) => |ts| >= 2 && forall i | 0 <= i < |ts| :: SourceType(ts[i])
    case TCircuit(_, _, _, c) => !c.Infer?
    case TVar(name) => ScalarOf(name).None?
    case TNamed(name, args) => args != [] && !Shadowed(name, args)
    case _ => true
  }

  predicate SourceTypes(ts: seq<Type>) {
    forall i | 0 <= i < |ts| :: SourceType(ts[i])
  }

  // ── What a printed type reads as ───────────────────────────────────────────

  /** `Circuit<n, m, d, (Clifford)>` parses as a named type, but prints without the parentheses. */
  predicate Clashes(name: Name, args: seq<NatExpr>) {
    FormerOf(name) == Some(FCircuit) && |args| == 4 && args[3].NVar? && ClassOf(args[3].name).Some?
  }

  predicate HasClash(t: Type) {
    match t
    case TList(u) => HasClash(u)
    case TQ(u) => HasClash(u)
    case TMatrix(_, _, u) => HasClash(u)
    case TQecBlock(u, _) => HasClash(u)
    case TFn(a, b) => HasClash(a) || HasClash(b)
    case TLinear(a, b) => HasClash(a) || HasClash(b)
    case TTuple(ts) => exists i | 0 <= i < |ts| :: HasClash(ts[i])
    case TNamed(name, args) => Clashes(name, args)
    case _ => false
  }

  /** The type with every clashing named type replaced by the circuit type it reads as. */
  function Reread(t: Type): Type {
    match t
    case TList(u) => TList(Reread(u))
    case TQ(u) => TQ(Reread(u))
    case TMatrix(n, m, u) => TMatrix(n, m, Reread(u))
    case TQecBlock(u, n) => TQecBlock(Reread(u), n)
    case TFn(a, b) => TFn(Reread(a), Reread(b))
    case TLinear(a, b) => TLinear(Reread(a), Reread(b))
    case TTuple(ts) => TTuple(seq(|ts|, i requires 0 <= i < |ts| => Reread(ts[i])))
    case TNamed(name, args) =>
      if Clashes(name, args) then TCircuit(args[0], args[1], args[2], ClassOf(args[3].name).value) else t
    case _ => t
  }

  function RereadAll(ts: seq<Type>): seq<Type> {
    seq(|ts|, i requires 0 <= i < |ts| => Reread(ts[i]))
  }

  /** A type reads back as itself exactly when it holds no clash. */
  lemma {:induction false} RereadIsSame(t: Type)
    ensures Reread(t) == t <==> !HasClash(t)
  {
    hide Clashes;
    match t
    case TList(u) => RereadIsSame(u);
    case TQ(u) => RereadIsSame(u);
    case TMatrix(_, _, u) => RereadIsSame(u);
    case TQecBlock(u, _) => RereadIsSame(u);
    case TFn(a, b) => RereadIsSame(a); RereadIsSame(b);
    case TLinear(a, b) => RereadIsSame(a); RereadIsSame(b);
    case TTuple(ts) =>
      forall i | 0 <= i < |ts| ensures Reread(ts[i]) == ts[i] <==> !HasClash(ts[i]) { RereadIsSame(ts[i]); }
      if exists i | 0 <= i < |ts| :: HasClash(ts[i]) {
        var i :| 0 <= i < |ts| && HasClash(ts[i]);
        assert Reread(t).elems[i] != t.elems[i];
      } else {
        assert Reread(t).elems == t.elems;
      }
    case _ =>
  }

  // ── The round trip ─────────────────────────────────────────────────────────

  predicate TypeEnds(k: Tokens) {
    k.Tok? ==> !(k.head.LAngle? || k.head.RightArrow? || k.head.LinearArrow?)
  }

  lemma TypeHead(t: Type, k: Tokens)
    ensures PrintType(t, k).Tok? && (PrintType(t, k).head.IdentToken? || PrintType(t, k).head.LParen?)
    ensures SkipLines(PrintType(t, k)) == PrintType(t, k)
  {
    hide FormerName, ScalarName, PrintClass, PrintAngles;
  }

  lemma NoArrow(ts: Tokens, t: Type, k: Tokens)
    requires TypeAtom(ts) == Yes(t, k) && TypeEnds(k)
    ensures ParseType(ts) == Yes(t, k)
  {
    hide TypeAtom;
  }

  /** A bare name that is not followed by `<`. */
  lemma NameReads(name: Name, k: Tokens)
    requires TypeEnds(k)
    ensures ParseType(Tok(IdentToken(name), k)) == Yes(NameType(name), k)
  {
    hide FormerOf, NameType;
    NoArrow(Tok(IdentToken(name), k), NameType(name), k);
  }

  /** What an opening parenthesis before `ts` gives. */
  lemma GroupOf(ts: Tokens)
    ensures var inside := TypeList(SkipLines(ts));
            TypeAtom(Tok(LParen, ts)) ==
              if Starts(SkipLines(inside.rest), RParen) then Yes(GroupType(inside.value), SkipLines(inside.rest).tail) else No
  {
    hide TypeList, GroupType, SkipLines;
  }

  lemma OneType(inner: Tokens)
    ensures var r := ParseType(inner);
            TypeList(inner) == if r.No? then Yes([], inner)
                               else if Comma(r.rest).No? then Yes([r.value], r.rest) else TypeList(inner)
  {
    hide ParseType, Comma;
    var r := ParseType(inner);
    if r.Yes? && Comma(r.rest).No? {
      assert MoreTypes(r.rest) == Yes([], r.rest);
      assert [r.value] + [] == [r.value];
    }
  }

  /** A parenthesised type. */
  lemma GroupReads(inner: Tokens, t: Type, k: Tokens)
    requires ParseType(inner) == Yes(t, Tok(RParen, k)) && SkipLines(inner) == inner
    ensures TypeAtom(Tok(LParen, inner)) == Yes(t, k)
  {
    hide ParseType, TypeList, TypeAtom, Comma;
    NoComma(RParen, k);
    OneType(inner);
    GroupOf(inner);
  }

  lemma {:induction false} TypesReads(ts: seq<Type>, k: Tokens)
    requires SourceTypes(ts)
    ensures ts != [] ==> TypeList(PrintTypes(ts, Tok(RParen, k))) == Yes(RereadAll(ts), Tok(RParen, k))
    decreases ts, 0
  {
    hide ParseType, PrintType, PrintMoreTypes, MoreTypes, SourceType, Reread;
    if ts != [] {
      var next := PrintMoreTypes(ts[1..], Tok(RParen, k));
      MoreTypesEnd(ts[1..], Tok(RParen, k));
      TypeReads(ts[0], next);
      MoreTypesReads(ts[1..], k);
      assert [Reread(ts[0])] + RereadAll(ts[1..]) == RereadAll(ts);
    }
  }

  lemma MoreTypesEnd(ts: seq<Type>, k: Tokens)
    requires TypeEnds(k)
    ensures TypeEnds(PrintMoreTypes(ts, k))
  {
  }

  lemma NoMoreTypes(k: Tokens)
    ensures MoreTypes(Tok(RParen, k)) == Yes([], Tok(RParen, k))
  {
    hide Comma, ParseType;
    NoComma(RParen, k);
  }

  lemma OneMoreType(ts: Tokens, next: Tokens, t: Type, rest: Tokens)
    requires Comma(ts) == Yes((), next) && ParseType(next) == Yes(t, rest)
    ensures MoreTypes(ts) == Yes([t] + MoreTypes(rest).value, MoreTypes(rest).rest)
  {
    hide Comma, ParseType;
  }

  lemma {:induction false} MoreTypesReads(ts: seq<Type>, k: Tokens)
    requires SourceTypes(ts)
    ensures MoreTypes(PrintMoreTypes(ts, Tok(RParen, k))) == Yes(RereadAll(ts), Tok(RParen, k))
    decreases ts, 0
  {
    hide ParseType, PrintType, SourceType, Reread, Comma, MoreTypes;
    if ts == [] {
      NoMoreTypes(k);
    } else {
      var next := PrintMoreTypes(ts[1..], Tok(RParen, k));
      MoreTypesEnd(ts[1..], Tok(RParen, k));
      TypeReads(ts[0], next);
      TypeHead(ts[0], next);
      CommaThen(PrintType(ts[0], next));
      OneMoreType(Tok(CommaSign, PrintType(ts[0], next)), PrintType(ts[0], next), Reread(ts[0]), next);
      MoreTypesReads(ts[1..], k);
      assert [Reread(ts[0])] + RereadAll(ts[1..]) == RereadAll(ts);
    }
  }

  /** Printing a source type and parsing the tokens gives the type its text stands for. */
  lemma {:induction false} TypeReads(t: Type, k: Tokens)
    requires SourceType(t) && TypeEnds(k)
    ensures ParseType(PrintType(t, k)) == Yes(Reread(t), k)
    decreases t, 1
  {
    hide TypeAtom, ParseType, Clashes, ScalarOf, ScalarName, FormerName, FormerOf, Shadowed, PrintFormer, PrintTypes, PrintNat,
         PrintClass;
    match t
    case TVar(name) => NameReads(name, k); 
    case TNamed(name, args) => NamedReads(name, args, k);
    case TFn(a, b) => ArrowReads(t, RightArrow, a, b, k);
    case TLinear(a, b) => ArrowReads(t, LinearArrow, a, b, k);
    case TTuple(ts) => TupleReads(ts, k);
    case TQReg(n) => QRegReads(n, k);
    case TQ(u) => WrapperReads(FQ, u, k);
    case TList(u) => WrapperReads(FList, u, k);
    case TMatrix(n, m, u) => MatrixReads(n, m, u, k);
    case TCircuit(n, m, d, c) => CircuitReads(n, m, d, c, k);
    case TQecBlock(u, n) => QecReads(u, n, k);
    case _ => ScalarReads(t, k);
  }

  lemma ScalarReads(t: Type, k: Tokens)
    requires IsScalar(t) && TypeEnds(k)
    ensures ParseType(Tok(IdentToken(ScalarName(t)), k)) == Yes(t, k)
  {
    hide ScalarName, ScalarOf, ParseType;
    NameReads(ScalarName(t), k);
    ScalarNames(t);
  }

  // Tuples and arrows

  lemma {:induction false} TupleReads(ts: seq<Type>, k: Tokens)
    requires SourceTypes(ts) && |ts| >= 2 && TypeEnds(k)
    ensures ParseType(Tok(LParen, PrintTypes(ts, Tok(RParen, k)))) == Yes(TTuple(RereadAll(ts)), k)
    decreases ts, 1
  {
    hide ParseType, TypeAtom, TypeList, SourceType, Reread, PrintType, PrintMoreTypes;
    var inner := PrintTypes(ts, Tok(RParen, k));
    TypesReads(ts, k);
    TypeHead(ts[0], PrintMoreTypes(ts[1..], Tok(RParen, k)));
    GroupOf(inner);
    NoArrow(Tok(LParen, inner), TTuple(RereadAll(ts)), k);
  }

  lemma ArrowJoins(arrow: Token, ts: Tokens, l: Type, second: Tokens, r: Type, k: Tokens)
    requires arrow.RightArrow? || arrow.LinearArrow?
    requires TypeAtom(ts) == Yes(l, Tok(arrow, second)) && ParseType(second) == Yes(r, k)
    ensures ParseType(ts) == Yes(if arrow.RightArrow? then TFn(l, r) else TLinear(l, r), k)
  {
    hide TypeAtom;
    assert TypeArrow(l, Tok(arrow, second)) == Yes(if arrow.RightArrow? then TFn(l, r) else TLinear(l, r), k);
  }

  lemma {:induction false} ArrowReads(t: Type, arrow: Token, a: Type, b: Type, k: Tokens)
    requires (arrow.RightArrow? || arrow.LinearArrow?) && SourceType(a) && SourceType(b) && TypeEnds(k)
    requires t == if arrow.RightArrow? then TFn(a, b) else TLinear(a, b)
    ensures ParseType(Tok(LParen, PrintType(a, Tok(RParen, Tok(arrow, Tok(LParen, PrintType(b, Tok(RParen, k))))))))
         == Yes(if arrow.RightArrow? then TFn(Reread(a), Reread(b)) else TLinear(Reread(a), Reread(b)), k)
    decreases t, 0
  {
    hide TypeAtom, ParseType, PrintType, SourceType, Reread;
    var second := Tok(LParen, PrintType(b, Tok(RParen, k)));
    var next := Tok(RParen, Tok(arrow, second));
    TypeReads(a, next);
    TypeHead(a, next);
    GroupReads(PrintType(a, next), Reread(a), Tok(arrow, second));
    TypeReads(b, Tok(RParen, k));
    TypeHead(b, Tok(RParen, k));
    GroupReads(PrintType(b, Tok(RParen, k)), Reread(b), k);
    NoArrow(second, Reread(b), k);
    ArrowJoins(arrow, Tok(LParen, PrintType(a, next)), Reread(a), second, Reread(b), k);
  }

  // Type constructors

  lemma OwnRule(f: Former, inside: Tokens, t: Type, k: Tokens)
    requires FormerBody(f, Tok(LAngle, inside)) == Yes(t, k) && TypeEnds(k)
    ensures ParseType(PrintFormer(f, inside)) == Yes(t, k)
  {
    hide FormerBody, FormerName, FormerOf;
    FormerNames(f);
    NoArrow(PrintFormer(f, inside), t, k);
  }

  lemma QRegReads(n: NatExpr, k: Tokens)
    requires TypeEnds(k)
    ensures ParseType(PrintFormer(FQReg, PrintNat(n, Tok(RAngle, k)))) == Yes(TQReg(n), k)
  {
    hide ParseType, ParseNat, PrintNat, PrintFormer;
    NatRoundTrip(n, Tok(RAngle, k));
    OwnRule(FQReg, PrintNat(n, Tok(RAngle, k)), TQReg(n), k);
  }

  lemma {:induction false} WrapperReads(f: Former, u: Type, k: Tokens)
    requires (f.FQ? || f.FList?) && SourceType(u) && TypeEnds(k)
    ensures ParseType(PrintFormer(f, PrintType(u, Tok(RAngle, k)))) == Yes(if f.FQ? then TQ(Reread(u)) else TList(Reread(u)), k)
    decreases u, 2
  {
    hide ParseType, PrintType, PrintFormer, SourceType, Reread;
    TypeReads(u, Tok(RAngle, k));
    OwnRule(f, PrintType(u, Tok(RAngle, k)), if f.FQ? then TQ(Reread(u)) else TList(Reread(u)), k);
  }

  lemma {:induction false} QecReads(u: Type, n: NatExpr, k: Tokens)
    requires SourceType(u) && TypeEnds(k)
    ensures ParseType(PrintFormer(FQecBlock, PrintType(u, Tok(CommaSign, PrintNat(n, Tok(RAngle, k)))))) == Yes(TQecBlock(Reread(u), n), k)
    decreases u, 2
  {
    hide ParseType, ParseNat, PrintType, PrintNat, PrintFormer, SourceType, Reread, Comma;
    var distance := PrintNat(n, Tok(RAngle, k));
    TypeReads(u, Tok(CommaSign, distance));
    NatHead(n, Tok(RAngle, k));
    CommaThen(distance);
    NatRoundTrip(n, Tok(RAngle, k));
    OwnRule(FQecBlock, PrintType(u, Tok(CommaSign, distance)), TQecBlock(Reread(u), n), k);
  }

  /** A number, a comma and what follows. */
  lemma NatThenComma(n: NatExpr, next: Tokens)
    requires SkipLines(next) == next
    ensures ParseNat(PrintNat(n, Tok(CommaSign, next))) == Yes(n, Tok(CommaSign, next)) && Comma(Tok(CommaSign, next)) == Yes((), next)
    ensures SkipLines(PrintNat(n, Tok(CommaSign, next))) == PrintNat(n, Tok(CommaSign, next))
  {
    hide ParseNat, PrintNat, Comma;
    NatRoundTrip(n, Tok(CommaSign, next));
    NatHead(n, Tok(CommaSign, next));
    CommaThen(next);
  }

  lemma {:induction false} MatrixReads(n: NatExpr, m: NatExpr, u: Type, k: Tokens)
    requires SourceType(u) && TypeEnds(k)
    ensures ParseType(PrintFormer(FMatrix, PrintNat(n, Tok(CommaSign, PrintNat(m, Tok(CommaSign, PrintType(u, Tok(RAngle, k))))))))
         == Yes(TMatrix(n, m, Reread(u)), k)
    decreases u, 2
  {
    hide ParseType, ParseNat, PrintType, PrintNat, PrintFormer, SourceType, Reread, Comma, SkipLines;
    var elem := PrintType(u, Tok(RAngle, k));
    var cols := PrintNat(m, Tok(CommaSign, elem));
    TypeReads(u, Tok(RAngle, k));
    TypeHead(u, Tok(RAngle, k));
    NatThenComma(m, elem);
    NatThenComma(n, cols);
    OwnRule(FMatrix, PrintNat(n, Tok(CommaSign, cols)), TMatrix(n, m, Reread(u)), k);
  }

  lemma ClassReads(c: CliffordClass, k: Tokens)
    requires !c.Infer?
    ensures ParseClass(PrintClass(c, k)) == Yes(c, k) && SkipLines(PrintClass(c, k)) == PrintClass(c, k)
  {
  }

  lemma CircuitReads(n: NatExpr, m: NatExpr, d: NatExpr, c: CliffordClass, k: Tokens)
    requires !c.Infer? && TypeEnds(k)
    ensures ParseType(PrintFormer(FCircuit, PrintNat(n, Tok(CommaSign, PrintNat(m, Tok(CommaSign, PrintNat(d, Tok(CommaSign, PrintClass(c, Tok(RAngle, k))))))))))
         == Yes(TCircuit(n, m, d, c), k)
  {
    hide ParseType, ParseNat, PrintNat, PrintFormer, PrintClass, ParseClass, Comma, SkipLines;
    var class_ := PrintClass(c, Tok(RAngle, k));
    var depth := PrintNat(d, Tok(CommaSign, class_));
    var outs := PrintNat(m, Tok(CommaSign, depth));
    ClassReads(c, Tok(RAngle, k));
    NatThenComma(d, class_);
    NatThenComma(m, depth);
    NatThenComma(n, outs);
    OwnRule(FCircuit, PrintNat(n, Tok(CommaSign, outs)), TCircuit(n, m, d, c), k);
  }

  // ── Named types ────────────────────────────────────────────────────────────

  /** After a number that is no bare name, a type parse is refused or stops at an operator. */
  predicate Stuck(r: Parsed<Type>) {
    r.Yes? ==> !NatEnds(r.rest) && r.rest.Tok?
  }

  lemma {:induction false} TypeOnNumber(n: NatExpr, k: Tokens)
    requires !n.NVar?
    ensures Stuck(ParseType(PrintNat(n, k)))
    decreases n, 1
  {
    if n.NLit? || n.NHole? {
      AtomOrNothing(PrintNat(n, k));
    } else {
      var op := if n.NAdd? then PlusSign else if n.NSub? then MinusSign else if n.NMul? then StarSign else if n.NDiv? then SlashSign
                else CaretSign;
      TypeOnOperator(n.left, op, Tok(LParen, PrintNat(n.right, Tok(RParen, k))));
    }
  }

  lemma {:induction false} TypeOnOperator(left: NatExpr, op: Token, second: Tokens)
    requires op.PlusSign? || op.MinusSign? || op.StarSign? || op.SlashSign? || op.CaretSign?
    ensures Stuck(ParseType(Tok(LParen, PrintNat(left, Tok(RParen, Tok(op, second))))))
    decreases left, 2
  {
    hide ParseType, TypeAtom;
    var next := Tok(RParen, Tok(op, second));
    if left.NVar? {
      NameReads(left.name, next);
      GroupReads(PrintNat(left, next), NameType(left.name), Tok(op, second));
      NoArrow(Tok(LParen, PrintNat(left, next)), NameType(left.name), Tok(op, second));
    } else {
      TypeOnNumber(left, next);
      NatHead(left, next);
      StuckGroup(PrintNat(left, next));
    }
  }

  lemma StuckGroup(inner: Tokens)
    requires Stuck(ParseType(inner)) && SkipLines(inner) == inner && !Starts(inner, RParen)
    ensures ParseType(Tok(LParen, inner)).No?
  {
    hide ParseType, TypeAtom;
    StuckAtom(inner);
    AtomOrNothing(Tok(LParen, inner));
  }

  lemma StuckAtom(inner: Tokens)
    requires Stuck(ParseType(inner)) && SkipLines(inner) == inner && !Starts(inner, RParen)
    ensures TypeAtom(Tok(LParen, inner)).No?
  {
    hide ParseType, TypeList, TypeAtom, Comma;
    StuckNoComma(ParseType(inner));
    OneType(inner);
    GroupOf(inner);
  }

  lemma AtomOrNothing(ts: Tokens)
    requires TypeAtom(ts).No?
    ensures ParseType(ts).No?
  {
    hide TypeAtom;
  }

  /** The constructor's own rule refuses unshadowed, unclashing number arguments. */
  lemma OwnRuleRefuses(f: Former, args: seq<NatExpr>, k: Tokens)
    requires args != [] && !Shadowed(FormerName(f), args) && !Clashes(FormerName(f), args)
    ensures FormerBody(f, PrintAngles(args, k)).No?
  {
    hide FormerBody, PrintAngles, ParseType, PrintNats, PrintMoreNats, FormerName, FormerOf, ClassOf, NameType, Stuck;
    FormerNames(f);
    match f
    case FQReg => NumberRefuses(args, k);
    case FQ => ElementRefuses(f, args, k);
    case FList => ElementRefuses(f, args, k);
    case FQecBlock => TypeOnFirst(args, Tok(RAngle, k)); QecRefuses(args, k);
    case FMatrix => MatrixRefuses(args, k); BodyRefuses(f, args, k);
    case FCircuit => CircuitRefuses(args, k); BodyRefuses(f, args, k);
  }

  lemma NumberRefuses(args: seq<NatExpr>, k: Tokens)
    requires |args| > 1
    ensures FormerBody(FQReg, PrintAngles(args, k)).No?
  {
    hide ParseType, ParseNat, PrintNats, PrintMoreNats, Comma, MatrixBody, CircuitBody;
    FirstNat(args, Tok(RAngle, k));
    AfterNat(args[1..], k);
  }

  lemma ElementRefuses(f: Former, args: seq<NatExpr>, k: Tokens)
    requires (f.FQ? || f.FList?) && args != [] && !(|args| == 1 && args[0].NVar?)
    ensures FormerBody(f, PrintAngles(args, k)).No?
  {
    hide ParseType, ParseNat, PrintNats, PrintMoreNats, Comma, MatrixBody, CircuitBody, NameType;
    TypeOnFirst(args, Tok(RAngle, k));
    AfterNat(args[1..], k);
  }

  lemma BodyRefuses(f: Former, args: seq<NatExpr>, k: Tokens)
    requires f.FMatrix? ==> MatrixBody(PrintNats(args, Tok(RAngle, k))).No?
    requires f.FCircuit? ==> CircuitBody(PrintNats(args, Tok(RAngle, k))).No?
    requires f.FMatrix? || f.FCircuit?
    ensures FormerBody(f, PrintAngles(args, k)).No?
  {
    hide MatrixBody, CircuitBody, PrintNats;
  }

  /** After one number: the closing bracket when it was the last, else a comma and the next. */
  lemma AfterNat(more: seq<NatExpr>, k: Tokens)
    ensures var ts := PrintMoreNats(more, Tok(RAngle, k));
            if more == [] then ts == Tok(RAngle, k) && Comma(ts).No?
            else Starts(ts, CommaSign) && Comma(ts) == Yes((), PrintNats(more, Tok(RAngle, k)))
  {
    hide Comma, PrintNat;
    if more == [] {
      NoComma(RAngle, k);
    } else {
      NatHead(more[0], PrintMoreNats(more[1..], Tok(RAngle, k)));
      CommaThen(PrintNats(more, Tok(RAngle, k)));
    }
  }

  lemma QecRefuses(args: seq<NatExpr>, k: Tokens)
    requires args != [] && !(|args| == 2 && args[0].NVar?)
    requires if args[0].NVar? then ParseType(PrintNats(args, Tok(RAngle, k))) == Yes(NameType(args[0].name), PrintMoreNats(args[1..], Tok(RAngle, k)))
             else Stuck(ParseType(PrintNats(args, Tok(RAngle, k))))
    ensures FormerBody(FQecBlock, PrintAngles(args, k)).No?
  {
    hide ParseType, ParseNat, PrintNats, PrintMoreNats, Comma, NameType;
    AfterNat(args[1..], k);
    if |args| > 1 {
      FirstNat(args[1..], Tok(RAngle, k));
      AfterNat(args[1..][1..], k);
    }
    if !args[0].NVar? { StuckNoComma(ParseType(PrintNats(args, Tok(RAngle, k)))); }
  }

  lemma StuckNoComma(r: Parsed<Type>)
    requires Stuck(r)
    ensures r.Yes? ==> Comma(r.rest).No? && !Starts(r.rest, RAngle) && !Starts(SkipLines(r.rest), RParen)
  {
  }

  lemma MatrixRefuses(args: seq<NatExpr>, k: Tokens)
    requires args != [] && !(|args| == 3 && args[2].NVar?)
    ensures MatrixBody(PrintNats(args, Tok(RAngle, k))).No?
  {
    hide ParseType, ParseNat, PrintNats, PrintMoreNats, Comma, NameType;
    FirstNat(args, Tok(RAngle, k));
    AfterNat(args[1..], k);
    if |args| > 1 {
      FirstNat(args[1..], Tok(RAngle, k));
      assert args[1..][1..] == args[2..];
      AfterNat(args[2..], k);
      if |args| > 2 { LastTypeRefuses(args[2..], k); }
    }
  }

  lemma LastTypeRefuses(args: seq<NatExpr>, k: Tokens)
    requires args != [] && !(|args| == 1 && args[0].NVar?)
    ensures var r := ParseType(PrintNats(args, Tok(RAngle, k))); r.Yes? ==> !Starts(r.rest, RAngle)
  {
    hide ParseType, PrintNats, PrintMoreNats, Comma, NameType;
    TypeOnFirst(args, Tok(RAngle, k));
    AfterNat(args[1..], k);
  }

  lemma CircuitRefuses(args: seq<NatExpr>, k: Tokens)
    requires args != [] && !(|args| == 4 && args[3].NVar? && ClassOf(args[3].name).Some?)
    ensures CircuitBody(PrintNats(args, Tok(RAngle, k))).No?
  {
    hide ParseNat, PrintNats, PrintMoreNats, Comma, ParseClass, ClassOf;
    FirstNat(args, Tok(RAngle, k));
    AfterNat(args[1..], k);
    if |args| > 1 {
      FirstNat(args[1..], Tok(RAngle, k));
      assert args[1..][1..] == args[2..];
      AfterNat(args[2..], k);
      if |args| > 2 {
        FirstNat(args[2..], Tok(RAngle, k));
        assert args[2..][1..] == args[3..];
        AfterNat(args[3..], k);
        if |args| > 3 { ClassOnFirst(args[3..], k); }
      }
    }
  }

  lemma FirstNat(ns: seq<NatExpr>, k: Tokens)
    requires ns != [] && NatEnds(k)
    ensures ParseNat(PrintNats(ns, k)) == Yes(ns[0], PrintMoreNats(ns[1..], k))
    ensures SkipLines(PrintNats(ns, k)) == PrintNats(ns, k)
  {
    hide ParseNat, PrintNat;
    MoreEnds(ns[1..], k);
    NatRoundTrip(ns[0], PrintMoreNats(ns[1..], k));
    NatHead(ns[0], PrintMoreNats(ns[1..], k));
  }

  lemma TypeOnFirst(ns: seq<NatExpr>, k: Tokens)
    requires ns != [] && NatEnds(k) && TypeEnds(k)
    ensures if ns[0].NVar? then ParseType(PrintNats(ns, k)) == Yes(NameType(ns[0].name), PrintMoreNats(ns[1..], k))
            else Stuck(ParseType(PrintNats(ns, k)))
    ensures SkipLines(PrintNats(ns, k)) == PrintNats(ns, k)
  {
    hide ParseType, ParseNat, NameType;
    FirstNat(ns, k);
    if ns[0].NVar? { NameReads(ns[0].name, PrintMoreNats(ns[1..], k)); }
    else { TypeOnNumber(ns[0], PrintMoreNats(ns[1..], k)); }
  }

  lemma ClassOnFirst(ns: seq<NatExpr>, k: Tokens)
    requires ns != [] && !(|ns| == 1 && ns[0].NVar? && ClassOf(ns[0].name).Some?)
    ensures var r := ParseClass(PrintNats(ns, Tok(RAngle, k))); r.Yes? ==> !Starts(r.rest, RAngle)
  {
    hide ClassOf;
  }

  lemma NamedReads(name: Name, args: seq<NatExpr>, k: Tokens)
    requires args != [] && !Shadowed(name, args) && TypeEnds(k)
    ensures ParseType(Tok(IdentToken(name), PrintAngles(args, k))) == Yes(Reread(TNamed(name, args)), k)
  {
    hide ParseType, FormerBody, FormerOf, FormerName, PrintAngles, AngleNats, NameType, Shadowed, ClassOf;
    NameOfFormer(name);
    if Clashes(name, args) {
      ClashReads(args, k);
    } else {
      NatListRoundTrip(args, k);
      if FormerOf(name).Some? { OwnRuleRefuses(FormerOf(name).value, args, k); }
      NoArrow(Tok(IdentToken(name), PrintAngles(args, k)), TNamed(name, args), k);
    }
  }

  /** A clashing named type reads as a circuit type. */
  lemma ClashReads(args: seq<NatExpr>, k: Tokens)
    requires |args| == 4 && args[3].NVar? && ClassOf(args[3].name).Some? && TypeEnds(k)
    ensures ParseType(Tok(IdentToken(FormerName(FCircuit)), PrintAngles(args, k)))
         == Yes(TCircuit(args[0], args[1], args[2], ClassOf(args[3].name).value), k)
  {
    hide ParseType, PrintNat, FormerName, ClassOf, PrintClass;
    var c := ClassOf(args[3].name).value;
    ClassPrints(args[3].name, c, Tok(RAngle, k));
    CircuitReads(args[0], args[1], args[2], c, k);
    FourPrint(args, Tok(RAngle, k));
  }

  lemma FourPrint(ns: seq<NatExpr>, k: Tokens)
    requires |ns| == 4
    ensures PrintNats(ns, k)
         == PrintNat(ns[0], Tok(CommaSign, PrintNat(ns[1], Tok(CommaSign, PrintNat(ns[2], Tok(CommaSign, PrintNat(ns[3], k)))))))
  {
    hide PrintNat;
    assert ns == [ns[0], ns[1], ns[2], ns[3]];
    assert ns[1..] == [ns[1], ns[2], ns[3]] && ns[1..][1..] == [ns[2], ns[3]] && ns[1..][1..][1..] == [ns[3]];
    assert PrintMoreNats([ns[3]], k) == Tok(CommaSign, PrintNat(ns[3], k));
    assert PrintMoreNats([ns[2], ns[3]], k) == Tok(CommaSign, PrintNat(ns[2], PrintMoreNats([ns[3]], k)));
  }

  lemma ClassPrints(name: Name, c: CliffordClass, k: Tokens)
    requires ClassOf(name) == Some(c)
    ensures PrintNat(NVar(name), k) == PrintClass(c, k) && !c.Infer?
  {
  }

  /** Printing and parsing give a source type back exactly when it holds no clash. */
  lemma TypeRoundTripIff(t: Type, k: Tokens)
    requires SourceType(t) && TypeEnds(k)
    ensures ParseType(PrintType(t, k)) == Yes(t, k) <==> !HasClash(t)
  {
    hide ParseType, PrintType, Reread, HasClash;
    TypeReads(t, k);
    RereadIsSame(t);
  }
}
