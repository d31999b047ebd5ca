/** Laws of desugaring: no blocks remain, a second pass changes nothing, and errors are exactly the
    malformed blocks. */
module DesugarLaws {
  import opened Ast
  import opened Desugar

  // ── Shape of the output ────────────────────────────────────────────────────

  /** No `run` block at any depth. */
  predicate NoRun(e: Expr) {
    !e.RunBlock? && forall i | 0 <= i < |Children(e)| :: NoRun(Children(e)[i])
  }

  function DesugaredAll(e: Expr): (cs: seq<Expr>)
    requires !e.RunBlock?
    ensures |cs| == |Children(e)| && Desugared(e) == WithChildren(e, cs)
    ensures forall i | 0 <= i < |cs| :: cs[i] == Desugared(Children(e)[i])
  {
    var es := Children(e);
    seq(|es|, i requires 0 <= i < |es| => Desugared(es[i]))
  }

  lemma ChainHasNoRun(s: Stmt, rhs: Expr, rest: Expr)
    requires NoRun(rhs) && NoRun(rest)
    ensures NoRun(Chain(s, rhs, rest))
  {
    if s.SBind? && s.pat.PTuple? {
      var inner := Let(s.pat, Var(Temp(s.at)), rest);
      assert NoRun(Var(Temp(s.at)));
      assert Children(inner) == [Var(Temp(s.at)), rest];
      assert NoRun(inner);
      assert Children(Chain(s, rhs, rest)) == [rhs, inner];
    } else {
      assert Children(Chain(s, rhs, rest)) == [rhs, rest];
    }
  }

  /** Desugaring leaves no `run` block, however deep it was. */
  lemma {:induction false} DesugaredHasNoRun(e: Expr)
    ensures NoRun(Desugared(e))
    decreases e, 1
  {
    if e.RunBlock? {
      if e.stmts == [] { assert Children(Unit) == []; } else { FoldHasNoRun(e, e.stmts); }
    } else {
      var cs := DesugaredAll(e);
      ChildrenOfRebuilt(e, cs);
      forall i | 0 <= i < |cs| ensures NoRun(cs[i]) { DesugaredHasNoRun(Children(e)[i]); }
    }
  }

  lemma {:induction false} FoldHasNoRun(parent: Expr, stmts: seq<Stmt>)
    requires stmts != [] && forall i | 0 <= i < |stmts| :: RhsOf(stmts[i]) < parent
    ensures NoRun(Fold(parent, stmts))
    decreases parent, 0, |stmts|
  {
    var head := Desugared(RhsOf(stmts[0]));
    DesugaredHasNoRun(RhsOf(stmts[0]));
    if |stmts| > 1 {
      FoldHasNoRun(parent, stmts[1..]);
      ChainHasNoRun(stmts[0], head, Fold(parent, stmts[1..]));
    }
  }

  /** Without `run` blocks there is nothing to change and nothing to report. */
  lemma {:induction false} NoRunIsFixed(e: Expr)
    requires NoRun(e)
    ensures Desugared(e) == e && Errors(e) == []
  {
    hide Children, WithChildren;
    var (es, cs) := (Children(e), DesugaredAll(e));
    ChildrenOfRebuilt(e, cs);
    forall i | 0 <= i < |es| ensures cs[i] == es[i] && Errors(es[i]) == [] { NoRunIsFixed(es[i]); }
    assert cs == es;
    QuietAll(e, es);
  }

  lemma {:induction false} QuietAll(parent: Expr, es: seq<Expr>)
    requires forall i | 0 <= i < |es| :: es[i] < parent
    ensures ErrorsOfAll(parent, es) == [] <==> forall i | 0 <= i < |es| :: Errors(es[i]) == []
    decreases |es|
  {
    hide Errors, ErrorsOfAll;
    if es == [] {
      NoErrors(parent, es);
    } else {
      var n := |es| - 1;
      QuietAll(parent, es[..n]);
      OneMoreChild(parent, es, n);
      assert es[..n + 1] == es;
      assert forall i | 0 <= i < n :: es[..n][i] == es[i];
    }
  }

  /** A second pass changes nothing and reports nothing. */
  lemma DesugaringTwice(e: Expr)
    ensures Desugared(Desugared(e)) == Desugared(e) && Errors(Desugared(e)) == []
  {
    DesugaredHasNoRun(e);
    NoRunIsFixed(Desugared(e));
  }

  // ── Errors ─────────────────────────────────────────────────────────────────

  /** A block that ends in an expression and binds no literal. */
  predicate GoodBlock(stmts: seq<Stmt>) {
    stmts != [] ==>
      && stmts[|stmts| - 1].SExpr?
      && forall i | 0 <= i < |stmts| - 1 :: !(stmts[i].SBind? && stmts[i].pat.PLit?)
  }

  /** Every `run` block, at any depth, is a good one. */
  predicate WellFormed(e: Expr) {
    && (e.RunBlock? ==> GoodBlock(e.stmts))
    && forall i | 0 <= i < |Children(e)| :: WellFormed(Children(e)[i])
  }

  /** Nothing is reported exactly when every block is a good one. */
  lemma {:induction false} ErrorsIff(e: Expr)
    ensures Errors(e) == [] <==> WellFormed(e)
    decreases e, 1
  {
    var cs := Children(e);
    forall i | 0 <= i < |cs| ensures Errors(cs[i]) == [] <==> WellFormed(cs[i]) { ErrorsIff(cs[i]); }
    if e.RunBlock? {
      BlockErrorsIff(e);
    } else {
      hide Children;
      QuietAll(e, cs);
    }
  }

  lemma BlockErrorsIff(e: Expr)
    requires e.RunBlock?
    ensures Errors(e) == [] <==> GoodBlock(e.stmts) && forall i | 0 <= i < |Children(e)| :: Errors(Children(e)[i]) == []
  {
    assert forall i | 0 <= i < |e.stmts| :: Children(e)[i] == RhsOf(e.stmts[i]);
    if e.stmts != [] { FoldErrorsIff(e, e.stmts); }
  }

  lemma StmtErrors(s: Stmt)
    ensures LastError(s) == [] <==> s.SExpr?
    ensures BindError(s) == [] <==> !(s.SBind? && s.pat.PLit?)
  {
  }

  lemma {:induction false} FoldErrorsIff(parent: Expr, stmts: seq<Stmt>)
    requires stmts != [] && forall i | 0 <= i < |stmts| :: RhsOf(stmts[i]) < parent
    ensures FoldErrors(parent, stmts) == [] <==>
              GoodBlock(stmts) && forall i | 0 <= i < |stmts| :: Errors(RhsOf(stmts[i])) == []
    decreases |stmts|
  {
    hide Errors, RhsOf, LastError, BindError;
    if |stmts| > 1 {
      var rest := stmts[1..];
      FoldErrorsIff(parent, rest);
      assert rest[|rest| - 1] == stmts[|stmts| - 1];
      assert forall i | 1 <= i < |stmts| :: stmts[i] == rest[i - 1];
      assert GoodBlock(stmts) <==> GoodBlock(rest) && !(stmts[0].SBind? && stmts[0].pat.PLit?);
    }
    StmtErrors(stmts[0]);
  }

  /** The fault of a block that an error names. */
  predicate Faulty(stmts: seq<Stmt>, err: DesugarError) {
    && stmts != []
    && (match err
        case EndsInBind => stmts[|stmts| - 1].SBind?
        case EndsInLet => stmts[|stmts| - 1].SLet?
        case LiteralBind(at) =>
          exists i | 0 <= i < |stmts| - 1 :: stmts[i].SBind? && stmts[i].pat.PLit? && stmts[i].at == at)
  }

  /** Some `run` block, at any depth, has the fault. */
  predicate HasFault(e: Expr, err: DesugarError) {
    || (e.RunBlock? && Faulty(e.stmts, err))
    || exists i | 0 <= i < |Children(e)| :: HasFault(Children(e)[i], err)
  }

  /** What is reported are the faults, each by its own name and place. */
  lemma {:induction false} ErrorsAreFaults(e: Expr, err: DesugarError)
    ensures err in Errors(e) <==> HasFault(e, err)
    decreases e, 1
  {
    var cs := Children(e);
    forall i | 0 <= i < |cs| ensures err in Errors(cs[i]) <==> HasFault(cs[i], err) { ErrorsAreFaults(cs[i], err); }
    if e.RunBlock? {
      BlockFaults(e, err);
    } else {
      hide Children;
      AnyOfAll(e, cs, err);
    }
  }

  lemma BlockFaults(e: Expr, err: DesugarError)
    requires e.RunBlock?
    ensures err in Errors(e) <==> Faulty(e.stmts, err) || exists i | 0 <= i < |Children(e)| :: err in Errors(Children(e)[i])
  {
    assert forall i | 0 <= i < |e.stmts| :: Children(e)[i] == RhsOf(e.stmts[i]);
    if e.stmts != [] { FoldFaults(e, e.stmts, err); }
  }

  lemma {:induction false} AnyOfAll(parent: Expr, es: seq<Expr>, err: DesugarError)
    requires forall i | 0 <= i < |es| :: es[i] < parent
    ensures err in ErrorsOfAll(parent, es) <==> exists i | 0 <= i < |es| :: err in Errors(es[i])
    decreases |es|
  {
    if es != [] {
      hide Errors;
      var n := |es| - 1;
      AnyOfAll(parent, es[..n], err);
      assert forall i | 0 <= i < n :: es[..n][i] == es[i];
    }
  }

  lemma StmtFault(s: Stmt, err: DesugarError)
    ensures err in LastError(s) <==> (err.EndsInBind? && s.SBind?) || (err.EndsInLet? && s.SLet?)
    ensures err in BindError(s) <==> err.LiteralBind? && s.SBind? && s.pat.PLit? && s.at == err.at
  {
  }

  lemma {:induction false} FoldFaults(parent: Expr, stmts: seq<Stmt>, err: DesugarError)
    requires stmts != [] && forall i | 0 <= i < |stmts| :: RhsOf(stmts[i]) < parent
    ensures err in FoldErrors(parent, stmts) <==>
              Faulty(stmts, err) || exists i | 0 <= i < |stmts| :: err in Errors(RhsOf(stmts[i]))
    decreases |stmts|
  {
    hide Errors, RhsOf, LastError, BindError, Faulty;
    StmtFault(stmts[0], err);
    if |stmts| > 1 {
      var rest := stmts[1..];
      FoldFaults(parent, rest, err);
      assert forall i | 1 <= i < |stmts| :: stmts[i] == rest[i - 1];
      FaultyStep(stmts, err);
    } else {
      FaultyEnd(stmts, err);
    }
  }

  lemma FaultyEnd(stmts: seq<Stmt>, err: DesugarError)
    requires |stmts| == 1
    ensures Faulty(stmts, err) <==> (err.EndsInBind? && stmts[0].SBind?) || (err.EndsInLet? && stmts[0].SLet?)
  {
  }

  lemma FaultyStep(stmts: seq<Stmt>, err: DesugarError)
    requires |stmts| > 1
    ensures Faulty(stmts, err) <==>
              Faulty(stmts[1..], err) || (err.LiteralBind? && stmts[0].SBind? && stmts[0].pat.PLit? && stmts[0].at == err.at)
  {
    var rest := stmts[1..];
    assert rest[|rest| - 1] == stmts[|stmts| - 1];
    assert forall i | 1 <= i < |stmts| :: stmts[i] == rest[i - 1];
  }
}
