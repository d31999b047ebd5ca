/** Patterns: the grammar, the printer and their round trip. */
module PatGrammar {
  import opened Ast
  import opened Tokens

  // ── The grammar ────────────────────────────────────────────────────────────

  /** The patterns a parse can yield: a group of one is the pattern inside, literals are not negative. */
  predicate SourcePat(p: Pat) {
    match p
    case PTuple(ps) => |ps| != 1 && forall i | 0 <= i < |ps| :: SourcePat(ps[i])
    case PLit(IntLit(n)) => n >= 0
    case _ => true
  }

  predicate SourcePats(ps: seq<Pat>) {
    forall i | 0 <= i < |ps| :: SourcePat(ps[i])
  }

  function ParsePat(ts: Tokens): (r: Parsed<Pat>)
    ensures r.Yes? ==> r.rest < ts
    decreases ts, 1
  {
    if ts.End? then No
    else
      match ts.head
      case UnderscoreSign => Yes(PWild, ts.tail)
      case IntToken(n) => Yes(PLit(IntLit(n)), ts.tail)
      case KTrue => Yes(PLit(BoolLit(true)), ts.tail)
      case KFalse => Yes(PLit(BoolLit(false)), ts.tail)
      case IdentToken(name) => Yes(PVar(name), ts.tail)
      case LParen =>
        var inside := PatList(SkipLines(ts.tail));
        var (_, after) :- Expect(SkipLines(inside.rest), RParen);
        Yes(if |inside.value| == 1 then inside.value[0] else PTuple(inside.value), after)
      case _ => No
  }

  /** Patterns between commas, a trailing comma allowed. */
  function PatList(ts: Tokens): (r: Parsed<seq<Pat>>)
    ensures r.Yes? && Left(r.rest, ts)
    decreases ts, 2
  {
    match ParsePat(ts)
    case No => Yes([], ts)
    case Yes(p, rest) =>
      var more := MorePats(rest);
      Yes([p] + more.value, more.rest)
  }

  function MorePats(ts: Tokens): (r: Parsed<seq<Pat>>)
    ensures r.Yes? && Left(r.rest, ts)
    decreases ts, 2
  {
    match Comma(ts)
    case No => Yes([], ts)
    case Yes(_, next) =>
      match ParsePat(next)
      case No => Yes([], next)
      case Yes(p, rest) =>
        var more := MorePats(rest);
        Yes([p] + more.value, more.rest)
  }

  // ── The printer ────────────────────────────────────────────────────────────

  /** `pat_str`, in front of the tokens `k`; an integer prints as a literal only when it is one. */
  function PrintPat(p: Pat, k: Tokens): Tokens {
    match p
    case PWild => Tok(UnderscoreSign, k)
    case PVar(name) => Tok(IdentToken(name), k)
    case PLit(IntLit(n)) => PrintInt(n, k)
    case PLit(BoolLit(b)) => Tok(if b then KTrue else KFalse, k)
    case PTuple(ps) => Tok(LParen, PrintPats(ps, Tok(RParen, k)))
  }

  /** Patterns joined by commas. */
  function PrintPats(ps: seq<Pat>, k: Tokens): Tokens {
    if ps == [] then k else PrintPat(ps[0], PrintMorePats(ps[1..], k))
  }

  function PrintMorePats(ps: seq<Pat>, k: Tokens): Tokens {
    if ps == [] then k else Tok(CommaSign, PrintPat(ps[0], PrintMorePats(ps[1..], k)))
  }

  /** A negative integer prints as a minus sign and its absolute value. */
  function PrintInt(n: int, k: Tokens): Tokens {
    if n >= 0 then Tok(IntToken(n), k) else Tok(MinusSign, Tok(IntToken(-n), k))
  }

  // ── The round trip ─────────────────────────────────────────────────────────

  lemma PatHead(p: Pat, k: Tokens)
    requires SourcePat(p)
    ensures var ts := PrintPat(p, k);
            ts.Tok? && (ts.head.UnderscoreSign? || ts.head.IntToken? || ts.head.KTrue? || ts.head.KFalse? || ts.head.IdentToken?
                        || ts.head.LParen?)
    ensures SkipLines(PrintPat(p, k)) == PrintPat(p, k)
  {
  }

  /** Printing a pattern and parsing the tokens gives the pattern back, whatever follows. */
  lemma {:induction false} PatRoundTrip(p: Pat, k: Tokens)
    requires SourcePat(p)
    ensures ParsePat(PrintPat(p, k)) == Yes(p, k)
    decreases p, 1
  {
    if p.PTuple? { GroupRoundTrip(p, k); }
  }

  lemma {:induction false} GroupRoundTrip(p: Pat, k: Tokens)
    requires SourcePat(p) && p.PTuple?
    ensures ParsePat(PrintPat(p, k)) == Yes(p, k)
    decreases p, 0
  {
    PatListRoundTrip(p.pats, k);
    GroupReads(PrintPats(p.pats, Tok(RParen, k)), p.pats, k);
  }

  lemma GroupReads(inner: Tokens, ps: seq<Pat>, k: Tokens)
    requires PatList(inner) == Yes(ps, Tok(RParen, k)) && SkipLines(inner) == inner
    ensures ParsePat(Tok(LParen, inner)) == Yes(if |ps| == 1 then ps[0] else PTuple(ps), k)
  {
    hide PatList;
  }

  lemma {:induction false} PatListRoundTrip(ps: seq<Pat>, k: Tokens)
    requires SourcePats(ps)
    ensures PatList(PrintPats(ps, Tok(RParen, k))) == Yes(ps, Tok(RParen, k))
    decreases ps, 0
  {
    hide PrintPat, MorePats, PrintMorePats, SourcePat;
    if ps != [] {
      PatRoundTrip(ps[0], PrintMorePats(ps[1..], Tok(RParen, k)));
      MorePatsRoundTrip(ps[1..], k);
      assert [ps[0]] + ps[1..] == ps;
    }
  }

  lemma {:induction false} MorePatsRoundTrip(ps: seq<Pat>, k: Tokens)
    requires SourcePats(ps)
    ensures MorePats(PrintMorePats(ps, Tok(RParen, k))) == Yes(ps, Tok(RParen, k))
    decreases ps, 0
  {
    hide ParsePat, PrintPat, Comma, SourcePat;
    if ps == [] {
      NoComma(RParen, k);
    } else {
      var next := PrintMorePats(ps[1..], Tok(RParen, k));
      PatRoundTrip(ps[0], next);
      PatHead(ps[0], next);
      CommaThen(PrintPat(ps[0], next));
      MorePatsRoundTrip(ps[1..], k);
      assert [ps[0]] + ps[1..] == ps;
    }
  }

  /** A parsed pattern is one that prints and parses back. */
  lemma {:induction false} ParsedPat(ts: Tokens)
    requires ParsePat(ts).Yes?
    ensures SourcePat(ParsePat(ts).value)
    decreases ts, 1
  {
    if ts.head.LParen? { ParsedPats(SkipLines(ts.tail)); }
  }

  lemma {:induction false} ParsedPats(ts: Tokens)
    ensures SourcePats(PatList(ts).value)
    decreases ts, 2
  {
    hide ParsePat, MorePats, SourcePat;
    if ParsePat(ts).Yes? {
      ParsedPat(ts);
      ParsedMore(ParsePat(ts).rest);
    }
  }

  lemma {:induction false} ParsedMore(ts: Tokens)
    ensures SourcePats(MorePats(ts).value)
    decreases ts, 2
  {
    hide ParsePat, Comma, SourcePat;
    if Comma(ts).Yes? && ParsePat(Comma(ts).rest).Yes? {
      ParsedPat(Comma(ts).rest);
      ParsedMore(ParsePat(Comma(ts).rest).rest);
    }
  }

  // ── Parentheses ────────────────────────────────────────────────────────────

  lemma {:induction false} PatCloses(p: Pat, k: Tokens, d: nat)
    requires d > 0
    ensures Close(PrintPat(p, k), d) == Close(k, d)
    decreases p, 1
  {
    if p.PTuple? {
      PatsClose(p.pats, Tok(RParen, k), d + 1);
      assert Close(Tok(RParen, k), d + 1) == Close(k, d);
    }
  }

  lemma {:induction false} PatsClose(ps: seq<Pat>, k: Tokens, d: nat)
    requires d > 0
    ensures Close(PrintPats(ps, k), d) == Close(k, d)
    ensures Close(PrintMorePats(ps, k), d) == Close(k, d)
    decreases ps, 0
  {
    if ps != [] {
      PatCloses(ps[0], PrintMorePats(ps[1..], k), d);
      PatsClose(ps[1..], k, d);
    }
  }

  lemma {:induction false} LinesClose(ts: Tokens, d: nat)
    requires d > 0
    ensures Close(SkipLines(ts), d) == Close(ts, d)
  {
    if Starts(ts, Newline) { LinesClose(ts.tail, d); }
  }

  /** What a pattern parse takes has balanced parentheses. */
  lemma {:induction false} ParseCloses(ts: Tokens, d: nat)
    requires d > 0 && ParsePat(ts).Yes?
    ensures Close(ParsePat(ts).rest, d) == Close(ts, d)
    decreases ts, 1
  {
    if ts.head.LParen? { GroupCloses(ts, d); }
  }

  lemma {:induction false} GroupCloses(ts: Tokens, d: nat)
    requires d > 0 && ParsePat(ts).Yes? && Starts(ts, LParen)
    ensures Close(ParsePat(ts).rest, d) == Close(ts, d)
    decreases ts, 0
  {
    hide PatList, SkipLines, SourcePat;
    var inner := SkipLines(ts.tail);
    var inside := PatList(inner);
    ListCloses(inner, d + 1);
    LinesClose(ts.tail, d + 1);
    LinesClose(inside.rest, d + 1);
    assert Close(SkipLines(inside.rest), d + 1) == Close(ParsePat(ts).rest, d);
  }

  lemma {:induction false} ListCloses(ts: Tokens, d: nat)
    requires d > 0
    ensures Close(PatList(ts).rest, d) == Close(ts, d)
    decreases ts, 2
  {
    if ParsePat(ts).Yes? {
      ParseCloses(ts, d);
      MoreCloses(ParsePat(ts).rest, d);
    }
  }

  lemma {:induction false} MoreCloses(ts: Tokens, d: nat)
    requires d > 0
    ensures Close(MorePats(ts).rest, d) == Close(ts, d)
    decreases ts, 2
  {
    if Comma(ts).Yes? {
      var next := Comma(ts).rest;
      LinesClose(ts, d);
      LinesClose(SkipLines(ts).tail, d);
      if ParsePat(next).Yes? {
        ParseCloses(next, d);
        MoreCloses(ParsePat(next).rest, d);
      }
    }
  }

  /** A pattern that starts with a parenthesis ends at the one that closes it. */
  lemma GroupEnds(ts: Tokens)
    requires Starts(ts, LParen) && ParsePat(ts).Yes?
    ensures ParsePat(ts).rest == Close(ts.tail, 1)
  {
    var inner := SkipLines(ts.tail);
    var inside := PatList(inner);
    ListCloses(inner, 1);
    LinesClose(ts.tail, 1);
    LinesClose(inside.rest, 1);
  }
}
