/** An exact amplitude semantics of the gates that mix basis states, and the control gadgets built from
    them. A state gives every basis state a complex amplitude. */
module Amplitudes {
  import opened Ast
  import opened Classical
  import opened GateTree
  import opened CircuitForms
  import opened Meaning
  import opened Gadgets

  // ── Numbers ────────────────────────────────────────────────────────────────

  datatype Complex = Complex(re: real, im: real)

  function Plus(x: Complex, y: Complex): Complex { Complex(x.re + y.re, x.im + y.im) }

  function Times(x: Complex, y: Complex): Complex { Complex(x.re * y.re - x.im * y.im, x.re * y.im + x.im * y.re) }

  const ONE := Complex(1.0, 0.0)
  const ZERO := Complex(0.0, 0.0)
  const IMAGINARY := Complex(0.0, 1.0)

  /** The circle functions, and `half`, the root of one half. */
  datatype Circle = Circle(half: real, pi: real, cos: real -> real, sin: real -> real)

  predicate AddsAngles(k: Circle, a: real, b: real) {
    && k.cos(a + b) == k.cos(a) * k.cos(b) - k.sin(a) * k.sin(b)
    && k.sin(a + b) == k.sin(a) * k.cos(b) + k.cos(a) * k.sin(b)
  }

  predicate Mirrors(k: Circle, a: real) {
    k.cos(-a) == k.cos(a) && k.sin(-a) == -k.sin(a) && k.cos(a) * k.cos(a) + k.sin(a) * k.sin(a) == 1.0
  }

  ghost predicate Round(k: Circle) {
    && k.half * k.half == 0.5
    && k.cos(k.pi / 4.0) == k.half && k.sin(k.pi / 4.0) == k.half
    && (forall a, b :: AddsAngles(k, a, b))
    && (forall a :: Mirrors(k, a))
  }

  /** `e` to the power of `i` times `a`. */
  function Phasor(k: Circle, a: real): Complex { Complex(k.cos(a), k.sin(a)) }

  // ── Gates ──────────────────────────────────────────────────────────────────

  /** The amplitudes of the two basis states that differ in one bit. */
  datatype Two = Two(zero: Complex, one: Complex)

  datatype Matrix = Matrix(a00: Complex, a01: Complex, a10: Complex, a11: Complex)

  function Acts(m: Matrix, p: Two): Two {
    Two(Plus(Times(m.a00, p.zero), Times(m.a01, p.one)), Plus(Times(m.a10, p.zero), Times(m.a11, p.one)))
  }

  function Diagonal(x: Complex, y: Complex): Matrix { Matrix(x, ZERO, ZERO, y) }

  /** The matrices of the one-qubit gates: the square root of X has the phase that OpenQASM gives it. */
  function MatrixOf(k: Circle, gate: Expr): Option<Matrix> {
    match gate
    case Var(name) =>
      var h := Complex(k.half, 0.0);
      if name == "H" then Some(Matrix(h, h, h, Complex(-k.half, 0.0)))
      else if name == "X" then Some(Matrix(ZERO, ONE, ONE, ZERO))
      else if name == "S" then Some(Diagonal(ONE, IMAGINARY))
      else if name == "S_dag" then Some(Diagonal(ONE, Complex(0.0, -1.0)))
      else if name == "T" then Some(Diagonal(ONE, Phasor(k, k.pi / 4.0)))
      else if name == "T_dag" then Some(Diagonal(ONE, Phasor(k, -(k.pi / 4.0))))
      else if name == "SX" then Some(Matrix(Complex(0.5, 0.5), Complex(0.5, -0.5), Complex(0.5, -0.5), Complex(0.5, 0.5)))
      else if name == "SX_dag" then Some(Matrix(Complex(0.5, -0.5), Complex(0.5, 0.5), Complex(0.5, 0.5), Complex(0.5, -0.5)))
      else None
    case App(Var(name), angle) =>
      var (c, s) := (k.cos(AngleOf(angle) / 2.0), k.sin(AngleOf(angle) / 2.0));
      if !IsLiteralAngle(angle) then None
      else if name == "Rz" then Some(Diagonal(Complex(c, -s), Complex(c, s)))
      else if name == "Ry" then Some(Matrix(Complex(c, 0.0), Complex(-s, 0.0), Complex(s, 0.0), Complex(c, 0.0)))
      else if name == "Rx" then Some(Matrix(Complex(c, 0.0), Complex(0.0, -s), Complex(0.0, -s), Complex(c, 0.0)))
      else None
    case _ => None
  }

  type State = seq<bool> -> Complex

  /** The amplitude of `bits` after the gates. */
  function After(k: Circle, ls: seq<Leaf>, psi: State, bits: seq<bool>): Complex
    decreases |ls|
  {
    if ls == [] then psi(bits)
    else
      var (before, l) := (ls[..|ls| - 1], ls[|ls| - 1]);
      var ts := LeafTargets(l);
      if l.Placed? && |ts| == 1 && ts[0] < |bits| && MatrixOf(k, l.gate).Some? then
        var m := MatrixOf(k, l.gate).value;
        var (x, y) := (After(k, before, psi, bits[ts[0] := false]), After(k, before, psi, bits[ts[0] := true]));
        if bits[ts[0]] then Acts(m, Two(x, y)).one else Acts(m, Two(x, y)).zero
      else if l.Placed? && l.gate == Var("CNOT") && |ts| == 2 && ts[0] < |bits| && ts[1] < |bits| && bits[ts[0]] then
        After(k, before, psi, bits[ts[1] := !bits[ts[1]]])
      else After(k, before, psi, bits)
  }

  /** The amplitudes of the two basis states that differ from `bits` at most on wire `t`. */
  function PairAt(k: Circle, ls: seq<Leaf>, psi: State, bits: seq<bool>, t: nat): Two
    requires t < |bits|
  {
    Two(After(k, ls, psi, bits[t := false]), After(k, ls, psi, bits[t := true]))
  }

  lemma GateOnPair(k: Circle, before: seq<Leaf>, gate: Expr, psi: State, bits: seq<bool>, t: nat)
    requires t < |bits| && MatrixOf(k, gate).Some?
    ensures PairAt(k, before + [Placed(gate, Int(t))], psi, bits, t) ==
              Acts(MatrixOf(k, gate).value, PairAt(k, before, psi, bits, t))
  {
    hide MatrixOf, Acts;
    var ls := before + [Placed(gate, Int(t))];
    assert ls[..|ls| - 1] == before;
    var (low, high) := (bits[t := false], bits[t := true]);
    assert low[t := false] == low && low[t := true] == high && high[t := false] == low && high[t := true] == high;
  }

  function Swapped(p: Two): Two { Two(p.one, p.zero) }

  lemma CnotOnPair(k: Circle, before: seq<Leaf>, psi: State, bits: seq<bool>, c: nat, t: nat)
    requires c < |bits| && t < |bits| && c != t
    ensures PairAt(k, before + [CnotLeaf(c, t)], psi, bits, t) ==
              if bits[c] then Swapped(PairAt(k, before, psi, bits, t)) else PairAt(k, before, psi, bits, t)
  {
    var ls := before + [CnotLeaf(c, t)];
    assert ls[..|ls| - 1] == before;
    TwoTargets(c, t);
    assert LeafTargets(CnotLeaf(c, t)) == [c, t];
    assert MatrixOf(k, Var("CNOT")).None?;
    var (low, high) := (bits[t := false], bits[t := true]);
    assert low[t := true] == high && high[t := false] == low;
  }

  // ── Control ────────────────────────────────────────────────────────────────

  /** On registers that have both wires the gates leave the amplitudes alone where the control is clear, and
      where it is set do what `gate` does on the target and multiply by `high`. */
  ghost predicate ControlsGate(k: Circle, ls: seq<Leaf>, gate: Expr, c: nat, t: nat, high: Complex) {
    forall psi: State, bits: seq<bool> | c < |bits| && t < |bits| :: ControlsGateAt(k, ls, gate, c, t, high, psi, bits)
  }

  predicate ControlsGateAt(k: Circle, ls: seq<Leaf>, gate: Expr, c: nat, t: nat, high: Complex, psi: State, bits: seq<bool>)
    requires c < |bits|
  {
    After(k, ls, psi, bits) == if bits[c] then Times(high, After(k, [Placed(gate, Int(t))], psi, bits)) else psi(bits)
  }

  function Scaled(z: Complex, p: Two): Two { Two(Times(z, p.zero), Times(z, p.one)) }

  /** It is enough to look at pairs. */
  lemma ByPairs(k: Circle, ls: seq<Leaf>, gate: Expr, c: nat, t: nat, high: Complex, psi: State, bits: seq<bool>)
    requires c < |bits| && t < |bits| && c != t && MatrixOf(k, gate).Some?
    requires PairAt(k, ls, psi, bits, t) ==
               if bits[c] then Scaled(high, Acts(MatrixOf(k, gate).value, PairAt(k, [], psi, bits, t)))
               else PairAt(k, [], psi, bits, t)
    ensures ControlsGateAt(k, ls, gate, c, t, high, psi, bits)
  {
    hide MatrixOf, Acts;
    GateOnPair(k, [], gate, psi, bits, t);
    assert [] + [Placed(gate, Int(t))] == [Placed(gate, Int(t))];
    if bits[t] { assert bits[t := true] == bits; } else { assert bits[t := false] == bits; }
  }

  // ── The Hadamard gadget ────────────────────────────────────────────────────

  function Named(name: Name, t: nat): Leaf { Placed(Var(name), Int(t)) }

  function Turn(axis: Name, angle: real, t: nat): Leaf { Placed(App(Var(axis), Float(angle)), Int(t)) }

  function M(k: Circle, gate: Expr): Matrix { match MatrixOf(k, gate) case Some(x) => x case None => Diagonal(ONE, ONE) }

  /** The pair with these real and imaginary parts. */
  function Parts(a: real, b: real, c: real, d: real): Two { Two(Complex(a, b), Complex(c, d)) }

  /** A root of one half of `x`. */
  function Halved(k: Circle, x: real): real { k.half * x }

  /** A Hadamard gate, with the sums and differences worked out. */
  lemma HadamardGives(k: Circle, a: real, b: real, c: real, d: real, w: real, x: real, y: real, z: real)
    requires a + c == w && b + d == x && a - c == y && b - d == z
    ensures Acts(M(k, Var("H")), Parts(a, b, c, d)) == Parts(Halved(k, w), Halved(k, x), Halved(k, y), Halved(k, z))
  {
  }

  lemma QuarterGives(k: Circle, a: real, b: real, c: real, d: real)
    ensures Acts(M(k, Var("S")), Parts(a, b, c, d)) == Parts(a, b, -d, c)
    ensures Acts(M(k, Var("S_dag")), Parts(a, b, c, d)) == Parts(a, b, d, -c)
  {
  }

  lemma EighthGives(k: Circle, a: real, b: real, c: real, d: real)
    requires Round(k)
    ensures Acts(M(k, Var("T")), Parts(a, b, c, d)) == Parts(a, b, Halved(k, c - d), Halved(k, c + d))
    ensures Acts(M(k, Var("T_dag")), Parts(a, b, c, d)) == Parts(a, b, Halved(k, c + d), Halved(k, d - c))
  {
    assert Mirrors(k, k.pi / 4.0);
  }

  /** Two roots of one half are one half. */
  lemma HalvedTwice(k: Circle, u: real, v: real)
    requires Round(k)
    ensures Halved(k, Halved(k, u) + Halved(k, v)) == 0.5 * (u + v)
    ensures Halved(k, Halved(k, u) - Halved(k, v)) == 0.5 * (u - v)
  {
    assert k.half * (k.half * u + k.half * v) == (k.half * k.half) * (u + v);
    assert k.half * (k.half * u - k.half * v) == (k.half * k.half) * (u - v);
  }

  lemma HadamardTwice(k: Circle, p: Two)
    requires Round(k)
    ensures Acts(M(k, Var("H")), Acts(M(k, Var("H")), p)) == p
  {
    hide Acts, M, Round, Halved;
    var (a, b, c, d) := (p.zero.re, p.zero.im, p.one.re, p.one.im);
    assert p == Parts(a, b, c, d);
    HadamardGives(k, a, b, c, d, a + c, b + d, a - c, b - d);
    var (e, f, g, i) := (Halved(k, a + c), Halved(k, b + d), Halved(k, a - c), Halved(k, b - d));
    HadamardGives(k, e, f, g, i, e + g, f + i, e - g, f - i);
    HalvedTwice(k, a + c, a - c);
    HalvedTwice(k, b + d, b - d);
  }

  lemma PhasesCancel(k: Circle, p: Two)
    requires Round(k)
    ensures Acts(M(k, Var("T_dag")), Acts(M(k, Var("T")), p)) == p && Acts(M(k, Var("S_dag")), Acts(M(k, Var("S")), p)) == p
  {
    hide Acts, M, Round, Halved;
    var (a, b, c, d) := (p.zero.re, p.zero.im, p.one.re, p.one.im);
    assert p == Parts(a, b, c, d);
    QuarterGives(k, a, b, c, d);
    QuarterGives(k, a, b, -d, c);
    EighthGives(k, a, b, c, d);
    EighthGives(k, a, b, Halved(k, c - d), Halved(k, c + d));
    HalvedTwice(k, c - d, c + d);
    HalvedTwice(k, c + d, c - d);
  }

  /** With the flip in the middle, the seven gates are one Hadamard gate. */
  lemma HadamardFlipped(k: Circle, p: Two)
    requires Round(k)
    ensures var q := Acts(M(k, Var("T")), Acts(M(k, Var("H")), Acts(M(k, Var("S")), p)));
            Acts(M(k, Var("S_dag")), Acts(M(k, Var("H")), Acts(M(k, Var("T_dag")), Swapped(q)))) == Acts(M(k, Var("H")), p)
  {
    hide Acts, M, Round, Halved;
    var (a, b, c, d) := (p.zero.re, p.zero.im, p.one.re, p.one.im);
    assert p == Parts(a, b, c, d);
    QuarterGives(k, a, b, c, d);
    HadamardGives(k, a, b, -d, c, a - d, b + c, a + d, b - c);
    var (e, f, g, i) := (Halved(k, a - d), Halved(k, b + c), Halved(k, a + d), Halved(k, b - c));
    EighthGives(k, e, f, g, i);
    HalvedTwice(k, a + d, b - c);
    var (x, y) := (0.5 * (a + d - (b - c)), 0.5 * (a + d + (b - c)));
    EighthGives(k, x, y, e, f);
    HalvedTwice(k, a - d, b + c);
    HalvedTwice(k, b + c, a - d);
    HadamardGives(k, x, y, 0.5 * (a - d + (b + c)), 0.5 * (b + c - (a - d)), a + c, b + d, d - b, a - c);
    QuarterGives(k, Halved(k, a + c), Halved(k, b + d), Halved(k, d - b), Halved(k, a - c));
    HadamardGives(k, a, b, c, d, a + c, b + d, a - c, b - d);
    assert -Halved(k, d - b) == Halved(k, b - d) by { HalvedOpposite(k, d, b); }
  }

  lemma HalvedOpposite(k: Circle, x: real, y: real)
    ensures -Halved(k, x - y) == Halved(k, y - x)
  {
  }

  // ── Rotations ──────────────────────────────────────────────────────────────

  function Spin(axis: Name, angle: real): Expr { App(Var(axis), Float(angle)) }

  /** The point on the plane turned by an angle with this cosine and sine. */
  function TurnedX(c: real, s: real, x: real, y: real): real { c * x - s * y }

  function TurnedY(c: real, s: real, x: real, y: real): real { s * x + c * y }

  /** Turning on adds angles, and turning back undoes. */
  lemma TurnsAdd(k: Circle, a: real, x: real, y: real)
    requires Round(k)
    ensures var (c, s) := (k.cos(a), k.sin(a));
            var (u, v) := (TurnedX(c, s, x, y), TurnedY(c, s, x, y));
            && TurnedX(c, s, u, v) == TurnedX(k.cos(a + a), k.sin(a + a), x, y)
            && TurnedY(c, s, u, v) == TurnedY(k.cos(a + a), k.sin(a + a), x, y)
            && TurnedX(c, -s, u, v) == x && TurnedY(c, -s, u, v) == y
  {
    assert AddsAngles(k, a, a) && Mirrors(k, a);
    PlaneAlgebra(k.cos(a), k.sin(a), x, y);
  }

  lemma PlaneAlgebra(c: real, s: real, x: real, y: real)
    ensures c * (c * x - s * y) - s * (s * x + c * y) == (c * c - s * s) * x - (s * c + c * s) * y
    ensures s * (c * x - s * y) + c * (s * x + c * y) == (s * c + c * s) * x + (c * c - s * s) * y
    ensures c * (c * x - s * y) + s * (s * x + c * y) == (c * c + s * s) * x
    ensures -s * (c * x - s * y) + c * (s * x + c * y) == (c * c + s * s) * y
  {
  }

  lemma RzGives(k: Circle, angle: real, a: real, b: real, c: real, d: real)
    ensures var (x, y) := (k.cos(angle / 2.0), k.sin(angle / 2.0));
            Acts(M(k, Spin("Rz", angle)), Parts(a, b, c, d)) ==
              Parts(TurnedX(x, -y, a, b), TurnedY(x, -y, a, b), TurnedX(x, y, c, d), TurnedY(x, y, c, d))
  {
  }

  lemma RyGives(k: Circle, angle: real, a: real, b: real, c: real, d: real)
    ensures var (x, y) := (k.cos(angle / 2.0), k.sin(angle / 2.0));
            Acts(M(k, Spin("Ry", angle)), Parts(a, b, c, d)) ==
              Parts(TurnedX(x, y, a, c), TurnedX(x, y, b, d), TurnedY(x, y, a, c), TurnedY(x, y, b, d))
  {
  }

  /** The halves of a rotation and of the rotation back. */
  lemma HalfAngles(k: Circle, theta: real)
    requires Round(k)
    ensures var a := theta / 4.0;
            && (theta / 2.0) / 2.0 == a && (-(theta / 2.0)) / 2.0 == -a && theta / 2.0 == a + a
            && k.cos(-a) == k.cos(a) && k.sin(-a) == -k.sin(a)
  {
    assert Mirrors(k, theta / 4.0);
  }

  /** Half a rotation, a flip, half a rotation back and a flip are the whole rotation; without the flips they
      are nothing. */
  lemma SpinTwisted(k: Circle, axis: Name, theta: real, p: Two)
    requires Round(k) && (axis == "Rz" || axis == "Ry")
    ensures var q := Acts(M(k, Spin(axis, theta / 2.0)), p);
            && Swapped(Acts(M(k, Spin(axis, -(theta / 2.0))), Swapped(q))) == Acts(M(k, Spin(axis, theta)), p)
            && Acts(M(k, Spin(axis, -(theta / 2.0))), q) == p
  {
    hide Acts, M, Round, TurnedX, TurnedY;
    var (a, b, c, d) := (p.zero.re, p.zero.im, p.one.re, p.one.im);
    assert p == Parts(a, b, c, d);
    HalfAngles(k, theta);
    var e := theta / 4.0;
    if axis == "Rz" {
      RzGives(k, theta / 2.0, a, b, c, d);
      RzGives(k, theta, a, b, c, d);
      var q := Acts(M(k, Spin(axis, theta / 2.0)), p);
      RzGives(k, -(theta / 2.0), q.zero.re, q.zero.im, q.one.re, q.one.im);
      RzGives(k, -(theta / 2.0), q.one.re, q.one.im, q.zero.re, q.zero.im);
      TurnsAdd(k, e, c, d);
      BackAdds(k, e, a, b);
    } else {
      RyGives(k, theta / 2.0, a, b, c, d);
      RyGives(k, theta, a, b, c, d);
      var q := Acts(M(k, Spin(axis, theta / 2.0)), p);
      RyGives(k, -(theta / 2.0), q.zero.re, q.zero.im, q.one.re, q.one.im);
      RyGives(k, -(theta / 2.0), q.one.re, q.one.im, q.zero.re, q.zero.im);
      TurnsAdd(k, e, a, c);
      TurnsAdd(k, e, b, d);
      Mirrored(k.cos(e), k.sin(e), q.zero.re, q.one.re);
      Mirrored(k.cos(e), k.sin(e), q.zero.im, q.one.im);
    }
  }

  lemma BackAdds(k: Circle, a: real, x: real, y: real)
    requires Round(k)
    ensures var (c, s) := (k.cos(a), k.sin(a));
            var (u, v) := (TurnedX(c, -s, x, y), TurnedY(c, -s, x, y));
            && TurnedX(c, -s, u, v) == TurnedX(k.cos(a + a), -k.sin(a + a), x, y)
            && TurnedY(c, -s, u, v) == TurnedY(k.cos(a + a), -k.sin(a + a), x, y)
            && TurnedX(c, s, u, v) == x && TurnedY(c, s, u, v) == y
  {
    hide Round;
    TurnsAdd(k, -a, x, y);
    Opposite(k, a);
  }

  lemma Opposite(k: Circle, a: real)
    requires Round(k)
    ensures k.cos(-a) == k.cos(a) && k.sin(-a) == -k.sin(a) && -a + -a == -(a + a)
    ensures k.cos(-a + -a) == k.cos(a + a) && k.sin(-a + -a) == -k.sin(a + a)
  {
    assert Mirrors(k, a) && Mirrors(k, a + a);
  }

  lemma Mirrored(c: real, s: real, x: real, y: real)
    ensures TurnedX(c, -s, y, x) == TurnedY(c, s, x, y) && TurnedY(c, -s, y, x) == TurnedX(c, s, x, y)
  {
  }

  // ── Rotations between Hadamard gates ───────────────────────────────────────

  lemma RxGives(k: Circle, angle: real, a: real, b: real, c: real, d: real)
    ensures var (x, y) := (k.cos(angle / 2.0), k.sin(angle / 2.0));
            Acts(M(k, Spin("Rx", angle)), Parts(a, b, c, d)) ==
              Parts(TurnedX(x, -y, a, d), TurnedX(x, y, b, c), TurnedY(x, y, b, c), TurnedY(x, -y, a, d))
  {
  }

  lemma TurnsHalved(k: Circle, c: real, s: real, u: real, v: real)
    ensures TurnedX(c, s, Halved(k, u), Halved(k, v)) == Halved(k, TurnedX(c, s, u, v))
    ensures TurnedY(c, s, Halved(k, u), Halved(k, v)) == Halved(k, TurnedY(c, s, u, v))
  {
    assert c * (k.half * u) - s * (k.half * v) == k.half * (c * u - s * v);
    assert s * (k.half * u) + c * (k.half * v) == k.half * (s * u + c * v);
  }

  lemma OppositeTurns(c: real, s: real, a: real, b: real, x: real, y: real)
    ensures 0.5 * (TurnedX(c, -s, a + x, b + y) + TurnedX(c, s, a - x, b - y)) == TurnedX(c, -s, a, y)
    ensures 0.5 * (TurnedX(c, -s, a + x, b + y) - TurnedX(c, s, a - x, b - y)) == TurnedY(c, s, b, x)
    ensures 0.5 * (TurnedY(c, -s, a + x, b + y) + TurnedY(c, s, a - x, b - y)) == TurnedX(c, s, b, x)
    ensures 0.5 * (TurnedY(c, -s, a + x, b + y) - TurnedY(c, s, a - x, b - y)) == TurnedY(c, -s, a, y)
  {
  }

  /** A turn about Z between Hadamard gates is a turn about X. */
  lemma SpinBetween(k: Circle, theta: real, p: Two)
    requires Round(k)
    ensures Acts(M(k, Var("H")), Acts(M(k, Spin("Rz", theta)), Acts(M(k, Var("H")), p))) == Acts(M(k, Spin("Rx", theta)), p)
  {
    hide Acts, M, Round, Halved, TurnedX, TurnedY;
    var (a, b, c, d) := (p.zero.re, p.zero.im, p.one.re, p.one.im);
    assert p == Parts(a, b, c, d);
    var (x, y) := (k.cos(theta / 2.0), k.sin(theta / 2.0));
    HadamardGives(k, a, b, c, d, a + c, b + d, a - c, b - d);
    RzGives(k, theta, Halved(k, a + c), Halved(k, b + d), Halved(k, a - c), Halved(k, b - d));
    TurnsHalved(k, x, -y, a + c, b + d);
    TurnsHalved(k, x, y, a - c, b - d);
    var (e, f) := (TurnedX(x, -y, a + c, b + d), TurnedY(x, -y, a + c, b + d));
    var (g, i) := (TurnedX(x, y, a - c, b - d), TurnedY(x, y, a - c, b - d));
    HadamardGives(k, Halved(k, e), Halved(k, f), Halved(k, g), Halved(k, i),
                  Halved(k, e) + Halved(k, g), Halved(k, f) + Halved(k, i),
                  Halved(k, e) - Halved(k, g), Halved(k, f) - Halved(k, i));
    HalvedTwice(k, e, g);
    HalvedTwice(k, f, i);
    OppositeTurns(x, y, a, b, c, d);
    RxGives(k, theta, a, b, c, d);
  }

  /** The root of X is a quarter turn about X and an eighth of a turn of phase. */
  lemma RootIsTurn(k: Circle, p: Two)
    requires Round(k)
    ensures Acts(M(k, Spin("Rx", k.pi / 2.0)), p) == Scaled(Phasor(k, -(k.pi / 4.0)), Acts(M(k, Var("SX")), p))
    ensures Acts(M(k, Spin("Rx", -k.pi / 2.0)), p) == Scaled(Phasor(k, k.pi / 4.0), Acts(M(k, Var("SX_dag")), p))
  {
    assert Mirrors(k, k.pi / 4.0);
    assert (k.pi / 2.0) / 2.0 == k.pi / 4.0 && (-k.pi / 2.0) / 2.0 == -(k.pi / 4.0);
    var (a, b, c, d) := (p.zero.re, p.zero.im, p.one.re, p.one.im);
    assert p == Parts(a, b, c, d);
    RxGives(k, k.pi / 2.0, a, b, c, d);
    RxGives(k, -k.pi / 2.0, a, b, c, d);
    RootGives(k, a, b, c, d);
  }

  lemma RootGives(k: Circle, a: real, b: real, c: real, d: real)
    ensures var h := k.half;
            && Scaled(Complex(h, -h), Acts(M(k, Var("SX")), Parts(a, b, c, d))) ==
                 Parts(TurnedX(h, -h, a, d), TurnedX(h, h, b, c), TurnedY(h, h, b, c), TurnedY(h, -h, a, d))
            && Scaled(Complex(h, h), Acts(M(k, Var("SX_dag")), Parts(a, b, c, d))) ==
                 Parts(TurnedX(h, h, a, d), TurnedX(h, -h, b, c), TurnedY(h, -h, b, c), TurnedY(h, h, a, d))
  {
    hide Acts, M, Times;
    SquareRoots(k, a, b, c, d);
    var h := k.half;
    EighthTimes(h, 0.5 * (a - b + c + d), 0.5 * (a + b - c + d));
    EighthTimes(h, 0.5 * (a + b + c - d), 0.5 * (b - a + c + d));
  }

  lemma SquareRoots(k: Circle, a: real, b: real, c: real, d: real)
    ensures Acts(M(k, Var("SX")), Parts(a, b, c, d)) ==
              Parts(0.5 * (a - b + c + d), 0.5 * (a + b - c + d), 0.5 * (a + b + c - d), 0.5 * (b - a + c + d))
    ensures Acts(M(k, Var("SX_dag")), Parts(a, b, c, d)) ==
              Parts(0.5 * (a + b + c - d), 0.5 * (b - a + c + d), 0.5 * (a - b + c + d), 0.5 * (a + b - c + d))
  {
  }

  lemma EighthTimes(h: real, u: real, v: real)
    ensures Times(Complex(h, -h), Complex(u, v)) == Complex(h * (u + v), h * (v - u))
    ensures Times(Complex(h, h), Complex(u, v)) == Complex(h * (u - v), h * (u + v))
  {
  }
}
