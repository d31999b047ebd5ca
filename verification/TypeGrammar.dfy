/** Types: the grammar and the printer. */
module TypeGrammar {
  import opened Ast
  import opened Tokens
  import opened NatGrammar

  // ── Names with a meaning in types ──────────────────────────────────────────

  /** The type constructors with a rule of their own. */
  datatype Former = FQReg | FQ | FList | FMatrix | FCircuit | FQecBlock

  function FormerName(f: Former): Name {
    match f
    case FQReg => "QReg"
    case FQ => "Q"
    case FList => "List"
    case FMatrix => "Matrix"
    case FCircuit => "Circuit"
    case FQecBlock => "QecBlock"
  }

  function FormerOf(name: Name): Option<Former> {
    if name == "QReg" then Some(FQReg) else if name == "Q" then Some(FQ) else if name == "List" then Some(FList)
    else if name == "Matrix" then Some(FMatrix) else if name == "Circuit" then Some(FCircuit)
    else if name == "QecBlock" then Some(FQecBlock) else None
  }

  predicate IsScalar(t: Type) {
    t.TQubit? || t.TBit? || t.TBool? || t.TInt? || t.TFloat? || t.TUnit? || t.TNat?
  }

  function ScalarName(t: Type): Name
    requires IsScalar(t)
  {
    if t.TQubit? then "Qubit" else if t.TBit? then "Bit" else if t.TBool? then "Bool" else if t.TInt? then "Int"
    else if t.TFloat? then "Float" else if t.TUnit? then "Unit" else "Nat"
  }

  function ScalarOf(name: Name): Option<Type> {
    if name == "Qubit" then Some(TQubit) else if name == "Bit" then Some(TBit) else if name == "Bool" then Some(TBool)
    else if name == "Int" then Some(TInt) else if name == "Float" then Some(TFloat) else if name == "Unit" then Some(TUnit)
    else if name == "Nat" then Some(TNat) else None
  }

  /** What a bare name means: a built-in scalar, or a variable. */
  function NameType(name: Name): Type {
    match ScalarOf(name)
    case Some(t) => t
    case None => TVar(name)
  }

  function ClassOf(name: Name): Option<CliffordClass> {
    if name == "Clifford" then Some(Clifford) else if name == "Universal" then Some(Universal) else None
  }

  lemma FormerNames(f: Former)
    ensures FormerOf(FormerName(f)) == Some(f) && ScalarOf(FormerName(f)) == None
    ensures forall g | FormerName(g) == FormerName(f) :: g == f
  {
  }

  lemma ScalarNames(t: Type)
    requires IsScalar(t)
    ensures ScalarOf(ScalarName(t)) == Some(t) && FormerOf(ScalarName(t)) == None
  {
  }

  lemma NameOfFormer(name: Name)
    ensures FormerOf(name).Some? ==> name == FormerName(FormerOf(name).value)
    ensures ScalarOf(name).Some? ==> IsScalar(ScalarOf(name).value) && name == ScalarName(ScalarOf(name).value)
  {
  }

  // ── The grammar ────────────────────────────────────────────────────────────

  /** Arrows are the loosest operators and associate to the right. */
  function ParseType(ts: Tokens): (r: Parsed<Type>)
    ensures r.Yes? ==> r.rest < ts
    decreases ts, 3
  {
    var (l, rest) :- TypeAtom(ts);
    TypeArrow(l, rest)
  }

  function TypeArrow(l: Type, ts: Tokens): (r: Parsed<Type>)
    ensures r.Yes? && Left(r.rest, ts)
    decreases ts, 3
  {
    if Starts(ts, RightArrow) || Starts(ts, LinearArrow) then
      match ParseType(ts.tail)
      case No => Yes(l, ts)
      case Yes(c, rest) => Yes(if ts.head.RightArrow? then TFn(l, c) else TLinear(l, c), rest)
    else Yes(l, ts)
  }

  /** A type constructor with its own rule is tried before the same name with number arguments. */
  function TypeAtom(ts: Tokens): (r: Parsed<Type>)
    ensures r.Yes? ==> r.rest < ts
    decreases ts, 2
  {
    if ts.End? then No
    else
      match ts.head
      case LParen => TypeGroup(ts.tail)
      case IdentToken(name) =>
        var own := if FormerOf(name).Some? then FormerBody(FormerOf(name).value, ts.tail) else No;
        if own.Yes? then own else NamedType(name, ts.tail)
      case _ => No
  }

  function TypeGroup(ts: Tokens): (r: Parsed<Type>)
    ensures r.Yes? ==> r.rest < ts
    decreases ts, 5
  {
    var inside := TypeList(SkipLines(ts));
    var (_, after) :- Expect(SkipLines(inside.rest), RParen);
    Yes(GroupType(inside.value), after)
  }

  function GroupType(ts: seq<Type>): Type {
    if ts == [] then TUnit else if |ts| == 1 then ts[0] else TTuple(ts)
  }

  /** Types between commas, a trailing comma allowed. */
  function TypeList(ts: Tokens): (r: Parsed<seq<Type>>)
    ensures r.Yes? && Left(r.rest, ts)
    decreases ts, 4
  {
    match ParseType(ts)
    case No => Yes([], ts)
    case Yes(t, rest) =>
      var more := MoreTypes(rest);
      Yes([t] + more.value, more.rest)
  }

  function MoreTypes(ts: Tokens): (r: Parsed<seq<Type>>)
    ensures r.Yes? && Left(r.rest, ts)
    decreases ts, 4
  {
    match Comma(ts)
    case No => Yes([], ts)
    case Yes(_, next) =>
      match ParseType(next)
      case No => Yes([], next)
      case Yes(t, rest) =>
        var more := MoreTypes(rest);
        Yes([t] + more.value, more.rest)
  }

  /** The arguments in angle brackets that a type constructor's own rule reads. */
  function FormerBody(f: Former, ts: Tokens): (r: Parsed<Type>)
    ensures r.Yes? ==> r.rest < ts
    decreases ts, 4
  {
    var (_, inside) :- Expect(ts, LAngle);
    match f
    case FQReg =>
      var (n, rest) :- ParseNat(inside);
      var (_, after) :- Expect(rest, RAngle);
      Yes(TQReg(n), after)
    case FQ =>
      var (t, rest) :- ParseType(inside);
      var (_, after) :- Expect(rest, RAngle);
      Yes(TQ(t), after)
    case FList =>
      var (t, rest) :- ParseType(inside);
      var (_, after) :- Expect(rest, RAngle);
      Yes(TList(t), after)
    case FMatrix => MatrixBody(inside)
    case FCircuit => CircuitBody(inside)
    case FQecBlock =>
      var (t, rest) :- ParseType(inside);
      var (_, next) :- Comma(rest);
      var (n, rest') :- ParseNat(next);
      var (_, after) :- Expect(rest', RAngle);
      Yes(TQecBlock(t, n), after)
  }

  function MatrixBody(ts: Tokens): (r: Parsed<Type>)
    ensures r.Yes? ==> r.rest < ts
    decreases ts, 4
  {
    var (n, rest) :- ParseNat(ts);
    var (_, next) :- Comma(rest);
    var (m, rest') :- ParseNat(next);
    var (_, last) :- Comma(rest');
    var (t, rest'') :- ParseType(last);
    var (_, after) :- Expect(rest'', RAngle);
    Yes(TMatrix(n, m, t), after)
  }

  function CircuitBody(ts: Tokens): (r: Parsed<Type>)
    ensures r.Yes? ==> r.rest < ts
  {
    var (n, rest) :- ParseNat(ts);
    var (_, next) :- Comma(rest);
    var (m, rest') :- ParseNat(next);
    var (_, next') :- Comma(rest');
    var (d, rest'') :- ParseNat(next');
    var (_, last) :- Comma(rest'');
    var (c, end) :- ParseClass(last);
    var (_, after) :- Expect(end, RAngle);
    Yes(TCircuit(n, m, d, c), after)
  }

  function ParseClass(ts: Tokens): (r: Parsed<CliffordClass>)
    ensures r.Yes? ==> r.rest < ts && !r.value.Infer?
  {
    if ts.Tok? && ts.head.IdentToken? && ClassOf(ts.head.name).Some? then Yes(ClassOf(ts.head.name).value, ts.tail) else No
  }

  function NamedType(name: Name, ts: Tokens): (r: Parsed<Type>)
    ensures r.Yes? && Left(r.rest, ts)
  {
    match AngleNats(ts)
    case No => Yes(NameType(name), ts)
    case Yes(args, rest) => Yes(TNamed(name, args), rest)
  }

  // ── The printer ────────────────────────────────────────────────────────────

  /** `ty_str`, in front of the tokens `k`. */
  function PrintType(t: Type, k: Tokens): Tokens {
    match t
    case TQReg(n) => PrintFormer(FQReg, PrintNat(n, Tok(RAngle, k)))
    case TQ(u) => PrintFormer(FQ, PrintType(u, Tok(RAngle, k)))
    case TList(u) => PrintFormer(FList, PrintType(u, Tok(RAngle, k)))
    case TMatrix(n, m, u) =>
      PrintFormer(FMatrix, PrintNat(n, Tok(CommaSign, PrintNat(m, Tok(CommaSign, PrintType(u, Tok(RAngle, k)))))))
    case TCircuit(n, m, d, c) =>
      PrintFormer(FCircuit, PrintNat(n, Tok(CommaSign, PrintNat(m, Tok(CommaSign, PrintNat(d, Tok(CommaSign, PrintClass(c, Tok(RAngle, k)))))))))
    case TQecBlock(u, n) => PrintFormer(FQecBlock, PrintType(u, Tok(CommaSign, PrintNat(n, Tok(RAngle, k)))))
    case TFn(a, b) => Tok(LParen, PrintType(a, Tok(RParen, Tok(RightArrow, Tok(LParen, PrintType(b, Tok(RParen, k)))))))
    case TLinear(a, b) => Tok(LParen, PrintType(a, Tok(RParen, Tok(LinearArrow, Tok(LParen, PrintType(b, Tok(RParen, k)))))))
    case TTuple(ts) => Tok(LParen, PrintTypes(ts, Tok(RParen, k)))
    case TVar(name) => Tok(IdentToken(name), k)
    case TNamed(name, args) => Tok(IdentToken(name), if args == [] then k else PrintAngles(args, k))
    case _ => Tok(IdentToken(ScalarName(t)), k)
  }

  function PrintFormer(f: Former, inside: Tokens): Tokens {
    Tok(IdentToken(FormerName(f)), Tok(LAngle, inside))
  }

  /** An unresolved class prints as `<unresolved-class>`, which no class rule reads. */
  function PrintClass(c: CliffordClass, k: Tokens): Tokens {
    match c
    case Clifford => Tok(IdentToken("Clifford"), k)
    case Universal => Tok(IdentToken("Universal"), k)
    case Infer => Tok(LAngle, Tok(IdentToken("unresolved"), Tok(MinusSign, Tok(IdentToken("class"), Tok(RAngle, k)))))
  }

  /** Types joined by commas. */
  function PrintTypes(ts: seq<Type>, k: Tokens): Tokens {
    if ts == [] then k else PrintType(ts[0], PrintMoreTypes(ts[1..], k))
  }

  function PrintMoreTypes(ts: seq<Type>, k: Tokens): Tokens {
    if ts == [] then k else Tok(CommaSign, PrintType(ts[0], PrintMoreTypes(ts[1..], k)))
  }
}
