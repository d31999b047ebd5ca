/** The two comment scanners that run over the source bytes before the lexer does. */
module Comments {
  import opened Ast

  newtype byte = x: int | 0 <= x < 256

  const DASH: byte := 45
  const OPEN: byte := 123
  const CLOSE: byte := 125
  const SLASH: byte := 47
  const NEWLINE: byte := 10

  // ── One specification of comments ──────────────────────────────────────────

  /** What a byte position stands in. A block remembers where its outermost `{-` is. */
  datatype Place = Code | Line | Block(depth: nat, open: nat)

  predicate At2(src: seq<byte>, i: nat, a: byte, b: byte) {
    i + 1 < |src| && src[i] == a && src[i + 1] == b
  }

  /** The place after the bytes taken at `i`, and how many bytes those are. */
  function Advance(src: seq<byte>, i: nat, p: Place): (r: (Place, nat))
    requires i < |src|
    ensures 0 <= r.1 <= 2 && i + r.1 <= |src|
    ensures r.1 == 0 ==> p == Line && r.0 == Code
  {
    match p
    case Code =>
      if At2(src, i, DASH, DASH) then (Line, 2)
      else if At2(src, i, OPEN, DASH) then (Block(1, i), 2)
      else (Code, 1)
    case Line => if src[i] == NEWLINE then (Code, 0) else (Line, 1)
    case Block(depth, open) =>
      if At2(src, i, OPEN, DASH) then (Block(depth + 1, open), 2)
      else if At2(src, i, DASH, CLOSE) then (if depth <= 1 then Code else Block(depth - 1, open), 2)
      else (p, 1)
  }

  /** For every byte from `i` on, whether it is source text outside comments. */
  function Text(src: seq<byte>, i: nat, p: Place): (r: seq<bool>)
    requires i <= |src|
    ensures |r| == |src| - i
    decreases |src| - i, if p == Line then 1 else 0
  {
    if i == |src| then []
    else
      var (q, n) := Advance(src, i, p);
      seq(n, _ => p == Code && q == Code) + Text(src, i + n, q)
  }

  /** The place the end of the source stands in. */
  function End(src: seq<byte>, i: nat, p: Place): Place
    requires i <= |src|
    decreases |src| - i, if p == Line then 1 else 0
  {
    if i == |src| then p
    else
      var (q, n) := Advance(src, i, p);
      End(src, i + n, q)
  }

  /** `//` outside comments. */
  predicate CStyleAt(src: seq<byte>, i: nat) {
    At2(src, i, SLASH, SLASH) && Text(src, 0, Code)[i] && Text(src, 0, Code)[i + 1]
  }

  /** The opening of the block comment the source ends in. */
  function UnterminatedOpen(src: seq<byte>): Option<nat> {
    match End(src, 0, Code)
    case Block(_, open) => Some(open)
    case _ => None
  }

  /** The scan stands at byte `i` in place `p`. */
  ghost predicate Stands(src: seq<byte>, i: nat, p: Place) {
    && i <= |src|
    && Text(src, 0, Code)[i..] == Text(src, i, p)
    && End(src, 0, Code) == End(src, i, p)
  }

  lemma Unfolds(src: seq<byte>, i: nat, p: Place)
    requires i < |src|
    ensures var (q, n) := Advance(src, i, p);
            && Text(src, i, p) == seq(n, _ => p == Code && q == Code) + Text(src, i + n, q)
            && End(src, i, p) == End(src, i + n, q)
  {
    hide Advance;
  }

  lemma Step(src: seq<byte>, i: nat, p: Place)
    requires i < |src| && Stands(src, i, p)
    ensures var (q, n) := Advance(src, i, p);
            && Stands(src, i + n, q)
            && forall j | i <= j < i + n :: Text(src, 0, Code)[j] == (p == Code && q == Code)
  {
    hide Advance, Text, End;
    var (q, n) := Advance(src, i, p);
    var all := Text(src, 0, Code);
    Unfolds(src, i, p);
    assert all[i..][n..] == all[i + n..];
    forall j | i <= j < i + n ensures all[j] == (p == Code && q == Code) {
      assert all[j] == all[i..][j - i];
    }
  }

  lemma Begin(src: seq<byte>)
    ensures Stands(src, 0, Code)
  {
    assert Text(src, 0, Code)[0..] == Text(src, 0, Code);
  }

  lemma AtEnd(src: seq<byte>, p: Place)
    requires Stands(src, |src|, p)
    ensures End(src, 0, Code) == p
  {
  }

  // ── The scanners ───────────────────────────────────────────────────────────

  /** Skips the text of a `--` comment, up to its newline or the end. */
  method SkipLine(src: seq<byte>, start: nat) returns (i: nat)
    requires start <= |src| && Stands(src, start, Line)
    ensures start <= i <= |src|
    ensures i < |src| ==> Stands(src, i, Code)
    ensures i == |src| ==> End(src, 0, Code) == Line
    ensures forall j | start <= j < i :: !Text(src, 0, Code)[j]
  {
    hide Text, End, Stands;
    i := start;
    while i < |src| && src[i] != NEWLINE
      invariant start <= i <= |src| && Stands(src, i, Line)
      invariant forall j | start <= j < i :: !Text(src, 0, Code)[j]
    {
      Step(src, i, Line);
      i := i + 1;
    }
    if i < |src| { Step(src, i, Line); } else { AtEnd(src, Line); }
  }

  /** `c_style_comment_outside_comments`: the first `//` in source text. */
  method CStyleCommentOutsideComments(src: seq<byte>) returns (r: Option<nat>)
    ensures r.Some? ==> CStyleAt(src, r.value) && forall j | 0 <= j < r.value :: !CStyleAt(src, j)
    ensures r.None? ==> forall j | 0 <= j < |src| :: !CStyleAt(src, j)
  {
    hide Text, End, Stands;
    Begin(src);
    var i := 0;
    while i < |src|
      invariant i <= |src| && (Stands(src, i, Code) || |src| <= i + 1)
      invariant forall j | 0 <= j < i :: !CStyleAt(src, j)
      decreases |src| - i
    {
      if i + 1 < |src| && src[i] == DASH && src[i + 1] == DASH {
        Step(src, i, Code);
        i := SkipLine(src, i + 2);
      } else if i + 1 < |src| && src[i] == OPEN && src[i + 1] == DASH {
        Step(src, i, Code);
        ghost var open := i;
        var depth := 1;
        i := i + 2;
        while i + 1 < |src| && depth > 0
          invariant open < i <= |src|
          invariant Stands(src, i, if depth > 0 then Block(depth, open) else Code)
          invariant forall j | open <= j < i :: !Text(src, 0, Code)[j]
        {
          Step(src, i, Block(depth, open));
          if src[i] == OPEN && src[i + 1] == DASH {
            depth := depth + 1;
            i := i + 2;
          } else if src[i] == DASH && src[i + 1] == CLOSE {
            depth := depth - 1;
            i := i + 2;
          } else {
            i := i + 1;
          }
        }
      } else if i + 1 < |src| && src[i] == SLASH && src[i + 1] == SLASH {
        Step(src, i, Code);
        Step(src, i + 1, Code);
        return Some(i);
      } else {
        if i + 1 < |src| { Step(src, i, Code); }
        i := i + 1;
      }
    }
    r := None;
  }

  /** `unterminated_block_comment_outside_line_comments`: the opening of the block left open. */
  method UnterminatedBlockComment(src: seq<byte>) returns (r: Option<nat>)
    ensures r == UnterminatedOpen(src)
  {
    hide Text, End, Stands;
    Begin(src);
    var i := 0;
    if src == [] { AtEnd(src, Code); }
    while i < |src|
      invariant i <= |src|
      invariant i < |src| ==> Stands(src, i, Code)
      invariant i == |src| ==> !End(src, 0, Code).Block?
      decreases |src| - i
    {
      if i + 1 < |src| && src[i] == DASH && src[i + 1] == DASH {
        Step(src, i, Code);
        i := SkipLine(src, i + 2);
      } else if i + 1 < |src| && src[i] == OPEN && src[i + 1] == DASH {
        Step(src, i, Code);
        var open := i;
        var depth := 1;
        i := i + 2;
        while i + 1 < |src|
          invariant open < i <= |src| && depth > 0
          invariant Stands(src, i, Block(depth, open))
        {
          Step(src, i, Block(depth, open));
          if src[i] == OPEN && src[i + 1] == DASH {
            depth := depth + 1;
            i := i + 2;
          } else if src[i] == DASH && src[i + 1] == CLOSE {
            depth := depth - 1;
            i := i + 2;
            if depth == 0 { break; }
          } else {
            i := i + 1;
          }
        }
        if depth > 0 {
          if i < |src| { Step(src, i, Block(depth, open)); }
          AtEnd(src, Block(depth, open));
          return Some(open);
        }
        if i == |src| { AtEnd(src, Code); }
      } else {
        Step(src, i, Code);
        i := i + 1;
        if i == |src| { AtEnd(src, Code); }
      }
    }
    r := None;
  }

  // ── How the two agree ──────────────────────────────────────────────────────

  /** A scan that ends in the block opened at `open` finds no text at or after `open`. */
  lemma {:induction false} NoTextAfterOpen(src: seq<byte>, i: nat, p: Place, open: nat, j: nat)
    requires i <= |src| && End(src, i, p).Block? && End(src, i, p).open == open
    requires p.Block? ==> p.open < i
    requires i <= j < |src| && (open <= j || (p.Block? && p.open == open))
    ensures !Text(src, i, p)[j - i]
    decreases |src| - i, if p == Line then 1 else 0
  {
    var (q, n) := Advance(src, i, p);
    if j >= i + n {
      NoTextAfterOpen(src, i + n, q, open, j);
    } else if p == Code && q == Code {
      EndsPast(src, i + n, q);
    }
  }

  /** A block still open at the end was opened at or after any position in plain text. */
  lemma {:induction false} EndsPast(src: seq<byte>, i: nat, p: Place)
    requires i <= |src| && !p.Block? && End(src, i, p).Block?
    ensures End(src, i, p).open >= i
    decreases |src| - i, if p == Line then 1 else 0
  {
    var (q, n) := Advance(src, i, p);
    if q.Block? { BlockEnds(src, i + n, q); } else { EndsPast(src, i + n, q); }
  }

  lemma {:induction false} BlockEnds(src: seq<byte>, i: nat, p: Place)
    requires i <= |src| && p.Block? && End(src, i, p).Block?
    ensures End(src, i, p).open == p.open || End(src, i, p).open >= i
    decreases |src| - i
  {
    if i < |src| {
      var (q, n) := Advance(src, i, p);
      if q.Block? { BlockEnds(src, i + n, q); } else { EndsPast(src, i + n, q); }
    }
  }

  /** When a block is left open, no `//` at or after its opening is reported. */
  lemma NothingAfterUnterminated(src: seq<byte>, j: nat)
    requires UnterminatedOpen(src).Some? && UnterminatedOpen(src).value <= j
    ensures !CStyleAt(src, j)
  {
    if j < |src| { NoTextAfterOpen(src, 0, Code, UnterminatedOpen(src).value, j); }
  }
}
