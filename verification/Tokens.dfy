/** The tokens of a Quon source text, as the lexer hands them to the parser. */
module Tokens {
  import opened Ast

  /** A numeric literal carries no sign. */
  type Magnitude = x: real | x >= 0.0

  /** Keywords, operators, delimiters, literals, names and the significant newline. */
  datatype Token =
    | KFn | KLet | KIn | KReturn | KMatch | KCircuit | KRun | KBorrow | KFor | KIf | KThen | KElse
    | KTrue | KFalse | KAdjoint | KControlled | KPar
    | Pipe | LeftArrow | AtSign | RightArrow | LinearArrow | PlusSign | MinusSign | StarSign | SlashSign
    | CaretSign | EqSign | FatArrow | ColonSign | CommaSign | DotSign | UnderscoreSign | Backtick | BarSign
    | LBrace | RBrace | LParen | RParen | LBracket | RBracket | LAngle | RAngle
    | IntToken(n: nat) | FloatToken(x: Magnitude) | IdentToken(name: Name)
    | Newline

  datatype Tokens = End | Tok(head: Token, tail: Tokens)

  /** What a parser returns: a tree and the tokens left, or a refusal. */
  datatype Parsed<+T> = Yes(value: T, rest: Tokens) | No {
    predicate IsFailure() { No? }
    function PropagateFailure<U>(): Parsed<U> requires No? { No }
    function Extract(): (T, Tokens) requires Yes? { (value, rest) }
  }

  predicate Starts(ts: Tokens, t: Token) {
    ts.Tok? && ts.head == t
  }

  function Expect(ts: Tokens, t: Token): (r: Parsed<()>)
    ensures r.Yes? ==> r.rest < ts
  {
    if Starts(ts, t) then Yes((), ts.tail) else No
  }

  /** `a` is `b`, or what is left of `b` after some tokens. */
  ghost predicate Left(a: Tokens, b: Tokens) {
    a == b || a < b
  }

  function SkipLines(ts: Tokens): (r: Tokens)
    ensures Left(r, ts) && !Starts(r, Newline)
  {
    if Starts(ts, Newline) then SkipLines(ts.tail) else ts
  }

  /** A comma with newlines on either side. */
  function Comma(ts: Tokens): (r: Parsed<()>)
    ensures r.Yes? ==> r.rest < ts
  {
    var (_, after) :- Expect(SkipLines(ts), CommaSign);
    Yes((), SkipLines(after))
  }

  lemma CommaThen(ts: Tokens)
    requires SkipLines(ts) == ts
    ensures Comma(Tok(CommaSign, ts)) == Yes((), ts)
  {
  }

  lemma NoComma(t: Token, k: Tokens)
    requires !t.Newline? && !t.CommaSign?
    ensures Comma(Tok(t, k)).No?
  {
  }

  /** The tokens after the parenthesis that closes `d` open ones. */
  function Close(ts: Tokens, d: nat): Tokens
    requires d > 0
  {
    if ts.End? then End
    else if ts.head.LParen? then Close(ts.tail, d + 1)
    else if ts.head.RParen? then if d == 1 then ts.tail else Close(ts.tail, d - 1)
    else Close(ts.tail, d)
  }

  lemma CloseSkips(t: Token, ts: Tokens, d: nat)
    requires d > 0 && !t.LParen? && !t.RParen?
    ensures Close(Tok(t, ts), d) == Close(ts, d)
  {
  }
}
