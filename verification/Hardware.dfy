/** The hardware check of an OpenQASM program against a fixed-connectivity target. */
module Hardware {
  import opened Ast
  import opened Connectivity

  // ── Programs ───────────────────────────────────────────────────────────────

  datatype OneQubitGate = H | X | Y | Z | S | Sdg | Sx | T | Tdg {
    function Keyword(): string {
      match this
      case H => "h" case X => "x" case Y => "y" case Z => "z" case S => "s"
      case Sdg => "sdg" case Sx => "sx" case T => "t" case Tdg => "tdg"
    }
  }

  datatype RotationGate = Rx | Ry | Rz | U1 {
    function Keyword(): string {
      match this case Rx => "rx" case Ry => "ry" case Rz => "rz" case U1 => "u1"
    }
  }

  datatype TwoQubitGate = Cx | Cy | Cz | Swap {
    function Keyword(): string {
      match this case Cx => "cx" case Cy => "cy" case Cz => "cz" case Swap => "swap"
    }
  }

  datatype QasmGate =
    | One(one: OneQubitGate, q: nat)
    | Rotation(rotation: RotationGate, angle: real, q: nat)
    | U2(phi: real, lam: real, q: nat)
    | U3(theta: real, phi: real, lam: real, q: nat)
    | Two(two: TwoQubitGate, a: nat, b: nat)
    | Ccx(a: nat, b: nat, c: nat)
    | Std1(keyword: string, stdAngle: Option<real>, q: nat)
    | Std2(keyword: string, a: nat, b: nat)
    | Std3(keyword: string, a: nat, b: nat, c: nat)
  {
    function Keyword(): string {
      match this
      case One(g, _) => g.Keyword()
      case Rotation(g, _, _) => g.Keyword()
      case U2(_, _, _) => "u2"
      case U3(_, _, _, _) => "u3"
      case Two(g, _, _) => g.Keyword()
      case Ccx(_, _, _) => "ccx"
      case Std1(k, _, _) => k
      case Std2(k, _, _) => k
      case Std3(k, _, _, _) => k
    }

    function Qubits(): seq<nat> {
      match this
      case One(_, q) => [q]
      case Rotation(_, _, q) => [q]
      case U2(_, _, q) => [q]
      case U3(_, _, _, q) => [q]
      case Std1(_, _, q) => [q]
      case Two(_, a, b) => [a, b]
      case Std2(_, a, b) => [a, b]
      case Ccx(a, b, c) => [a, b, c]
      case Std3(_, a, b, c) => [a, b, c]
    }
  }

  /** Statements; the condition of an `if` is not read by the check. */
  datatype Stmt =
    | GateStmt(gate: QasmGate)
    | Measure(qubit: nat, bit: nat)
    | Reset(qubit: nat)
    | If(thenBody: seq<Stmt>, elseBody: seq<Stmt>)
    | Barrier(qubits: seq<nat>)

  datatype Program = Program(gateDefs: seq<string>, body: seq<Stmt>)

  datatype FixedTarget = FixedTarget(
    numQubits: nat,
    topology: Graph,
    nativeGates: seq<string>,
    midCircuitMeas: bool,
    feedForward: bool)

  /** What `FixedTarget::try_new` and `try_from_edges` establish. */
  ghost predicate Built(t: FixedTarget) {
    && t.numQubits == t.topology.numQubits
    && t.topology.Exact()
    && forall e | e in t.topology.edges :: e.0 < t.numQubits && e.1 < t.numQubits
  }

  datatype HardwareError =
    | NonNativeGate(keyword: string)
    | OffCoupling(keyword: string, a: nat, b: nat)
    | QubitOutOfRange(index: nat, numQubits: nat)
    | CustomGate(name: string)
    | FeedForwardDisabled
    | MidCircuitMeasure

  // ── Legality ───────────────────────────────────────────────────────────────

  predicate InRange(t: FixedTarget, qs: seq<nat>) { forall i | 0 <= i < |qs| :: qs[i] < t.numQubits }

  predicate Exists(t: FixedTarget, q: nat) { q < t.numQubits }

  predicate Coupled(t: FixedTarget, a: nat, b: nat) { Exists(t, a) && Exists(t, b) && Adjacent(t.topology.edges, a, b) }

  /** A native gate on qubits of the target, and on a coupling if it has two. */
  predicate LegalGate(t: FixedTarget, g: QasmGate) {
    && g.Keyword() in t.nativeGates
    && (match g
        case One(_, q) => Exists(t, q)
        case Rotation(_, _, q) => Exists(t, q)
        case U2(_, _, q) => Exists(t, q)
        case U3(_, _, _, q) => Exists(t, q)
        case Std1(_, _, q) => Exists(t, q)
        case Two(_, a, b) => Coupled(t, a, b)
        case Std2(_, a, b) => Coupled(t, a, b)
        case Ccx(a, b, c) => Exists(t, a) && Exists(t, b) && Exists(t, c)
        case Std3(_, a, b, c) => Exists(t, a) && Exists(t, b) && Exists(t, c))
  }

  /** Statement `i` and everything after it is a measurement. */
  predicate Trailing(stmts: seq<Stmt>, i: nat) {
    forall j | i <= j < |stmts| :: stmts[j].Measure?
  }

  ghost predicate Legal(t: FixedTarget, stmts: seq<Stmt>, inBranch: bool)
    decreases stmts, 1
  {
    forall i | 0 <= i < |stmts| :: LegalAt(t, stmts, i, inBranch)
  }

  ghost predicate LegalAt(t: FixedTarget, stmts: seq<Stmt>, i: nat, inBranch: bool)
    requires i < |stmts|
    decreases stmts, 0, 0
  {
    match stmts[i]
    case GateStmt(g) => LegalGate(t, g)
    case Measure(q, _) => q < t.numQubits && (t.midCircuitMeas || (!inBranch && Trailing(stmts, i)))
    case Reset(q) => q < t.numQubits
    case Barrier(qs) => InRange(t, qs)
    case If(thn, els) => t.feedForward && Legal(t, thn, true) && Legal(t, els, true)
  }

  // ── Blame ──────────────────────────────────────────────────────────────────

  /** `e` names the first qubit of `qs` that is out of range. */
  ghost predicate BlamesQubits(t: FixedTarget, qs: seq<nat>, e: HardwareError) {
    exists i | 0 <= i < |qs| ::
      qs[i] >= t.numQubits && e == QubitOutOfRange(qs[i], t.numQubits) && forall j | 0 <= j < i :: qs[j] < t.numQubits
  }

  /** A gate on a pair is blamed for its first missing qubit, and for the coupling when it has both. */
  ghost predicate BlamesPair(t: FixedTarget, keyword: string, a: nat, b: nat, e: HardwareError) {
    if !Exists(t, a) || !Exists(t, b) then BlamesQubits(t, [a, b], e)
    else !Coupled(t, a, b) && e == OffCoupling(keyword, a, b)
  }

  ghost predicate BlamesGate(t: FixedTarget, g: QasmGate, e: HardwareError) {
    if g.Keyword() !in t.nativeGates then e == NonNativeGate(g.Keyword())
    else
      match g
      case One(_, q) => BlamesQubits(t, [q], e)
      case Rotation(_, _, q) => BlamesQubits(t, [q], e)
      case U2(_, _, q) => BlamesQubits(t, [q], e)
      case U3(_, _, _, q) => BlamesQubits(t, [q], e)
      case Std1(_, _, q) => BlamesQubits(t, [q], e)
      case Two(_, a, b) => BlamesPair(t, g.Keyword(), a, b, e)
      case Std2(k, a, b) => BlamesPair(t, k, a, b, e)
      case Ccx(a, b, c) => BlamesQubits(t, [a, b, c], e)
      case Std3(_, a, b, c) => BlamesQubits(t, [a, b, c], e)
  }

  /** `e` is what is wrong with the first illegal statement. */
  ghost predicate Blames(t: FixedTarget, stmts: seq<Stmt>, inBranch: bool, e: HardwareError)
    decreases stmts, 1
  {
    exists i | 0 <= i < |stmts| :: BlamesAt(t, stmts, i, inBranch, e) && LegalBefore(t, stmts, i, inBranch)
  }

  ghost predicate LegalBefore(t: FixedTarget, stmts: seq<Stmt>, i: nat, inBranch: bool)
    requires i <= |stmts|
    decreases stmts, 0, 1
  {
    forall j | 0 <= j < i :: LegalAt(t, stmts, j, inBranch)
  }

  ghost predicate BlamesAt(t: FixedTarget, stmts: seq<Stmt>, i: nat, inBranch: bool, e: HardwareError)
    requires i < |stmts|
    decreases stmts, 0, 0
  {
    match stmts[i]
    case GateStmt(g) => BlamesGate(t, g, e)
    case Measure(q, _) =>
      if q >= t.numQubits then e == QubitOutOfRange(q, t.numQubits)
      else !t.midCircuitMeas && (inBranch || !Trailing(stmts, i)) && e == MidCircuitMeasure
    case Reset(q) => q >= t.numQubits && e == QubitOutOfRange(q, t.numQubits)
    case Barrier(qs) => BlamesQubits(t, qs, e)
    case If(thn, els) =>
      if !t.feedForward then e == FeedForwardDisabled
      else Blames(t, thn, true, e) || (Legal(t, thn, true) && Blames(t, els, true, e))
  }

  /** A blamed block is illegal, and the blame falls on one error only. */
  lemma {:induction false} BlameIsUnique(t: FixedTarget, stmts: seq<Stmt>, inBranch: bool, e: HardwareError, e': HardwareError)
    requires Blames(t, stmts, inBranch, e)
    ensures !Legal(t, stmts, inBranch)
    ensures Blames(t, stmts, inBranch, e') ==> e == e'
    decreases stmts, 1
  {
    var i :| 0 <= i < |stmts| && BlamesAt(t, stmts, i, inBranch, e) && LegalBefore(t, stmts, i, inBranch);
    BlamedIsIllegal(t, stmts, i, inBranch, e, e');
    if Blames(t, stmts, inBranch, e') {
      var i' :| 0 <= i' < |stmts| && BlamesAt(t, stmts, i', inBranch, e') && LegalBefore(t, stmts, i', inBranch);
      BlamedIsIllegal(t, stmts, i', inBranch, e', e);
    }
  }

  lemma BlamedQubits(t: FixedTarget, qs: seq<nat>, e: HardwareError, e': HardwareError)
    requires BlamesQubits(t, qs, e)
    ensures !InRange(t, qs)
    ensures BlamesQubits(t, qs, e') ==> e == e'
  {
  }

  lemma BlamedGate(t: FixedTarget, g: QasmGate, e: HardwareError, e': HardwareError)
    requires BlamesGate(t, g, e)
    ensures !LegalGate(t, g)
    ensures BlamesGate(t, g, e') ==> e == e'
  {
    hide BlamesQubits;
    if BlamesQubits(t, g.Qubits(), e) { BlamedQubits(t, g.Qubits(), e, e'); }
  }

  lemma {:induction false} BlamedIsIllegal(t: FixedTarget, stmts: seq<Stmt>, i: nat, inBranch: bool, e: HardwareError, e': HardwareError)
    requires i < |stmts| && BlamesAt(t, stmts, i, inBranch, e)
    ensures !LegalAt(t, stmts, i, inBranch)
    ensures BlamesAt(t, stmts, i, inBranch, e') ==> e == e'
    decreases stmts, 0
  {
    match stmts[i]
    case GateStmt(g) => BlamedGate(t, g, e, e');
    case Barrier(qs) => 
    case If(thn, els) =>
      if t.feedForward {
        if Blames(t, thn, true, e) { BlameIsUnique(t, thn, true, e, e'); } else { BlameIsUnique(t, els, true, e, e'); }
        if Blames(t, thn, true, e') { BlameIsUnique(t, thn, true, e', e); }
      }
    case _ =>
  }

  // ── The check ──────────────────────────────────────────────────────────────

  /** Where the trailing run of measurements starts. */
  method TrailingMeasureStart(stmts: seq<Stmt>) returns (index: nat)
    ensures index <= |stmts| && Trailing(stmts, index)
    ensures forall i | 0 <= i < index :: !Trailing(stmts, i)
  {
    index := |stmts|;
    while index > 0 && stmts[index - 1].Measure?
      invariant index <= |stmts| && Trailing(stmts, index)
    {
      index := index - 1;
    }
  }

  method CheckQubit(index: nat, t: FixedTarget) returns (r: Option<HardwareError>)
    ensures r == if index < t.numQubits then None else Some(QubitOutOfRange(index, t.numQubits))
  {
    if index >= t.numQubits { return Some(QubitOutOfRange(index, t.numQubits)); }
    r := None;
  }

  /** Stops at the first qubit out of range. */
  method CheckQubits(t: FixedTarget, qs: seq<nat>) returns (r: Option<HardwareError>)
    ensures r.None? <==> InRange(t, qs)
    ensures r.Some? ==> BlamesQubits(t, qs, r.value)
  {
    for i := 0 to |qs|
      invariant forall j | 0 <= j < i :: qs[j] < t.numQubits
    {
      r := CheckQubit(qs[i], t);
      if r.Some? { return; }
    }
    r := None;
  }

  /** The check looks at the qubits of a gate one by one, and at the coupling of a gate that has two. */
  lemma LegalByQubits(t: FixedTarget, g: QasmGate)
    ensures var qs := g.Qubits();
            LegalGate(t, g) <==>
              && g.Keyword() in t.nativeGates && InRange(t, qs)
              && (|qs| == 2 ==> Adjacent(t.topology.edges, qs[0], qs[1]))
  {
    hide Adjacent;
    var qs := g.Qubits();
    assert InRange(t, qs) <==> Exists(t, qs[0]) && (|qs| > 1 ==> Exists(t, qs[1])) && (|qs| > 2 ==> Exists(t, qs[2]));
  }

  method CheckGate(t: FixedTarget, g: QasmGate) returns (r: Option<HardwareError>)
    requires Built(t)
    ensures r.None? <==> LegalGate(t, g)
    ensures r.Some? ==> BlamesGate(t, g, r.value)
  {
    LegalByQubits(t, g);
    if g.Keyword() !in t.nativeGates { return Some(NonNativeGate(g.Keyword())); }
    r := CheckQubits(t, g.Qubits());
    if r.Some? { return; }
    var qs := g.Qubits();
    if |qs| == 2 {
      IsEdgeIffDeclared(t.topology, qs[0], qs[1]);
      if !t.topology.IsEdge(qs[0], qs[1]) { return Some(OffCoupling(g.Keyword(), qs[0], qs[1])); }
    }
  }

  /** The check of a block is sound and complete at every nesting level, and reports the first fault. */
  method CheckStmts(t: FixedTarget, stmts: seq<Stmt>, inBranch: bool) returns (r: Option<HardwareError>)
    requires Built(t)
    ensures r.None? <==> Legal(t, stmts, inBranch)
    ensures r.Some? ==> Blames(t, stmts, inBranch, r.value)
    decreases stmts
  {
    var terminalFrom := |stmts|;
    if !inBranch { terminalFrom := TrailingMeasureStart(stmts); }
    for index := 0 to |stmts|
      invariant LegalBefore(t, stmts, index, inBranch)
    {
      r := None;
      match stmts[index] {
        case GateStmt(g) => r := CheckGate(t, g);
        case Measure(q, _) =>
          r := CheckQubit(q, t);
          if r.None? && index < terminalFrom && !t.midCircuitMeas { r := Some(MidCircuitMeasure); }
        case Reset(q) => r := CheckQubit(q, t);
        case Barrier(qs) => r := CheckQubits(t, qs);
        case If(thn, els) =>
          if !t.feedForward {
            r := Some(FeedForwardDisabled);
          } else {
            r := CheckStmts(t, thn, true);
            if r.None? { r := CheckStmts(t, els, true); }
          }
      }
      assert r.Some? ==> BlamesAt(t, stmts, index, inBranch, r.value);
      if r.Some? {
        BlamedIsIllegal(t, stmts, index, inBranch, r.value, r.value);
        return;
      }
    }
    r := None;
  }

  /** `validate_hardware_qasm`. */
  method ValidateHardwareQasm(p: Program, t: FixedTarget) returns (r: Option<HardwareError>)
    requires Built(t)
    ensures r.None? <==> p.gateDefs == [] && Legal(t, p.body, false)
    ensures p.gateDefs != [] ==> r == Some(CustomGate(p.gateDefs[0]))
    ensures p.gateDefs == [] && r.Some? ==> Blames(t, p.body, false, r.value)
  {
    if p.gateDefs != [] { return Some(CustomGate(p.gateDefs[0])); }
    r := CheckStmts(t, p.body, false);
  }
}
