/** What a circuit expression means: a direct denotation as a state transformer.

    A state is anything; a model says how one placed gate acts on it and how to undo that. The
    denotation reads the source expression only. It has no fuel for classical evaluation, no
    empty sentinel and no cycle guard; `d` bounds nested calls. `fwd` is false under an odd number of
    `adjoint`s, and `off` is the wire the expression's wire 0 stands on. Gate trees appear in one place,
    a call under `controlled`, which is controlled gate by gate. */
module Meaning {
  import opened Ast
  import opened Classical
  import opened GateTree
  import opened CircuitForms
  import opened Elaborate

  // ── Gate sequences and models ──────────────────────────────────────────────

  /** A leaf of a gate tree: a placed gate, or something the elaborator left unplaced. */
  datatype Leaf = Placed(gate: Expr, qubits: Expr) | Bare(e: Expr)

  datatype Model<!S> = Model(act: (Leaf, S) -> S, unact: (Leaf, S) -> S)

  /** The leaves of a gate tree in execution order. */
  function Leaves(t: Expr): seq<Leaf> {
    match t
    case Compose(l, r) => Leaves(l) + Leaves(r)
    case GateApp(g, q) => [Placed(g, q)]
    case CircuitBlock(stmts) =>
      if |stmts| > 0 && stmts[|stmts| - 1].SExpr? then Leaves(stmts[|stmts| - 1].e) else []
    case _ => [Bare(t)]
  }

  function ShiftLeaf(l: Leaf, off: int): Leaf {
    if l.Placed? then Placed(l.gate, ShiftTargets(l.qubits, off)) else l
  }

  function LeafTargets(l: Leaf): seq<nat> {
    if l.Placed? then QubitTargets(l.qubits) else []
  }

  function Step<S>(m: Model<S>, l: Leaf, fwd: bool, s: S): S {
    if fwd then m.act(l, s) else m.unact(l, s)
  }

  /** Runs a gate sequence on wires shifted by `off`: left to right, or undoing it right to left. */
  function Run<S>(m: Model<S>, ls: seq<Leaf>, fwd: bool, off: int, s: S): S {
    if ls == [] then s
    else if fwd then Run(m, ls[1..], fwd, off, Step(m, ShiftLeaf(ls[0], off), fwd, s))
    else Step(m, ShiftLeaf(ls[0], off), fwd, Run(m, ls[1..], fwd, off, s))
  }

  /** The model undoes the gate `g` on `q` exactly when it does the registry's inverse of `g`. */
  ghost predicate InverseAt<S>(reg: Registry, m: Model<S>, g: Expr, q: Expr, s: S) {
    InvertGate(reg, g).Ok? ==>
      && m.act(Placed(InvertGate(reg, g).value, q), s) == m.unact(Placed(g, q), s)
      && m.unact(Placed(InvertGate(reg, g).value, q), s) == m.act(Placed(g, q), s)
  }

  ghost predicate InverseLaw<S(!new)>(reg: Registry, m: Model<S>) {
    forall g, q, s :: InverseAt(reg, m, g, q, s)
  }

  /** The gates `r` places, if it succeeds, act as denoted by `den`. */
  ghost predicate Means<S>(m: Model<S>, den: Option<S>, r: Out<Expr>, fwd: bool, off: int, s: S) {
    r.Done? ==> den == Some(Run(m, Leaves(r.value), fwd, off, s))
  }

  /** `r`, if it succeeds, places `gates` after those of `acc`. */
  ghost predicate Adds(r: Out<Expr>, acc: Expr, gates: seq<Leaf>) {
    r.Done? ==> Leaves(r.value) == Leaves(acc) + gates
  }

  // ── Widths ─────────────────────────────────────────────────────────────────

  function Record(l: Leaf, touched: set<nat>): set<nat> {
    touched + set q | q in LeafTargets(l)
  }

  /** The model whose state is the set of wires touched so far. */
  function Recorder(): Model<set<nat>> { Model(Record, Record) }

  /** The number of wires up to the highest one touched. */
  ghost function Extent(touched: set<nat>): (w: nat)
    ensures touched == {} ==> w == 0
    ensures touched != {} ==> w >= 1 && w - 1 in touched
    ensures forall q | q in touched :: q < w
  {
    if touched == {} then 0
    else
      var q :| q in touched;
      var w := Extent(touched - {q});
      assert touched == touched - {q} + {q};
      if q < w then w else q + 1
  }

  // ── The denotation ─────────────────────────────────────────────────────────

  ghost function Den<S>(c: Ctx, m: Model<S>, e: Expr, env: Env, d: nat, fwd: bool, off: int, s: S): Option<S>
    decreases d, 1, e, 5, 0
  {
    match e
    case CircuitBlock(stmts) =>
      if stmts == [] || !stmts[|stmts| - 1].SExpr? then None
      else
        (match LetEnv(c.ops, stmts[..|stmts| - 1], env)
         case Err(_) => None
         case Ok(inner) => Den(c, m, stmts[|stmts| - 1].e, inner, d, fwd, off, s))
    case Compose(lhs, rhs) =>
      var s1 :- Den(c, m, if fwd then lhs else rhs, env, d, fwd, off, s);
      Den(c, m, if fwd then rhs else lhs, env, d, fwd, off, s1)
    case Match(scrutinee, arms) =>
      (match Val(c.ops, scrutinee, env)
       case Err(_) => None
       case Ok(v) =>
         match ClassicalArm(arms, v, env)
         case NoArm(_) => None
         case Chosen(body, inner) => Den(c, m, body, inner, d, fwd, off, s))
    case Let(pat, rhs, body) =>
      (match LetOne(c.ops, pat, rhs, env)
       case Err(_) => None
       case Ok(inner) => Den(c, m, body, inner, d, fwd, off, s))
    case GateApp(gate, qubits) => DenGate(c, m, gate, Subst(c.ops, qubits, env), env, d, fwd, off, s)
    case Adjoint(inner) => Den(c, m, inner, env, d, !fwd, off, s)
    case For(pat, iter, body) =>
      (match Val(c.ops, iter, env)
       case Ok(VList(items)) => DenFor(c, m, pat, items, body, env, d, fwd, off, s)
       case _ => None)
    case App(f, x) => DenApp(c, m, e, env, d, fwd, off, s)
    case Var(name) =>
      if name in c.bodies then DenCallee(c, m, name, d, fwd, off, s)
      else Some(Step(m, Bare(e), fwd, s))
    case Par(body, count) =>
      (match Val(c.ops, count, env)
       case Ok(VInt(k)) =>
         if k < 0 then None else if k == 0 then Some(s)
         else
           var touched :- DenArm(c, Recorder(), body, env, d, true, 0, {});
           DenCopies(c, m, body, Extent(touched), 0, k, env, d, fwd, off, s)
       case _ => None)
    case ParN(items) => DenArms(c, m, e, items, env, d, fwd, off, s)
    case _ => None
  }

  function LetOne(ops: Ops, pat: Pat, rhs: Expr, env: Env): Res<Env> {
    var v :- Val(ops, rhs, env);
    BindPat(pat, v, env)
  }

  function LetEnv(ops: Ops, stmts: seq<Stmt>, env: Env): Res<Env> {
    if stmts == [] then Ok(env)
    else if !stmts[0].SLet? then Err(Unsupported(NonLetStatement))
    else
      var inner :- LetOne(ops, stmts[0].pat, stmts[0].rhs, env);
      LetEnv(ops, stmts[1..], inner)
  }

  /** A zero-argument function means its body on its own, one call deeper. */
  ghost function DenCallee<S>(c: Ctx, m: Model<S>, name: Name, d: nat, fwd: bool, off: int, s: S): Option<S>
    requires name in c.bodies
    decreases d, 0, 0, 0
  {
    if d == 0 then None else Den(c, m, c.bodies[name], map[], d - 1, fwd, off, s)
  }

  /** `for`: the bodies for each item, composed in order. */
  ghost function DenFor<S>(c: Ctx, m: Model<S>, pat: Pat, items: seq<Value>, body: Expr, env: Env, d: nat, fwd: bool,
                           off: int, s: S): Option<S>
    decreases d, 1, body, 6, |items|
  {
    if items == [] then Some(s)
    else
      match BindPat(pat, items[0], env)
      case Err(_) => None
      case Ok(inner) =>
        if fwd then
          var s1 :- Den(c, m, body, inner, d, fwd, off, s);
          DenFor(c, m, pat, items[1..], body, env, d, fwd, off, s1)
        else
          var s1 :- DenFor(c, m, pat, items[1..], body, env, d, fwd, off, s);
          Den(c, m, body, inner, d, fwd, off, s1)
  }

  /** `repeat(k, body)`: the k-th iterate. */
  ghost function DenRepeat<S>(c: Ctx, m: Model<S>, body: Expr, k: int, env: Env, d: nat, fwd: bool, off: int, s: S)
    : Option<S>
    decreases d, 1, body, 6, if k < 0 then 0 else k
  {
    if k <= 0 then Some(s)
    else
      var s1 :- Den(c, m, body, env, d, fwd, off, s);
      DenRepeat(c, m, body, k - 1, env, d, fwd, off, s1)
  }

  /** An arm of `par`: a zero-argument callee stands for its body on its own, as in any other call. */
  ghost function DenArm<S>(c: Ctx, m: Model<S>, arm: Expr, env: Env, d: nat, fwd: bool, off: int, s: S): Option<S>
    decreases d, 1, arm, 6, 0
  {
    match ZeroArgCallee(c, arm)
    case Some(name) => DenCallee(c, m, name, d, fwd, off, s)
    case None => Den(c, m, arm, env, d, fwd, off, s)
  }

  /** `par { c } * k`: copy `i` stands on the slice of `w` wires from `i * w`. */
  ghost function DenCopies<S>(c: Ctx, m: Model<S>, body: Expr, w: nat, i: int, k: int, env: Env, d: nat, fwd: bool,
                              off: int, s: S): Option<S>
    decreases d, 1, body, 7, if k < i then 0 else k - i
  {
    if i >= k then Some(s)
    else if fwd then
      var s1 :- DenArm(c, m, body, env, d, fwd, off + i * w, s);
      DenCopies(c, m, body, w, i + 1, k, env, d, fwd, off, s1)
    else
      var s1 :- DenCopies(c, m, body, w, i + 1, k, env, d, fwd, off, s);
      DenArm(c, m, body, env, d, fwd, off + i * w, s1)
  }

  /** `par { c1, c2, … }`: each arm stands on the wires after the arms before it. */
  ghost function DenArms<S>(c: Ctx, m: Model<S>, parent: Expr, items: seq<Expr>, env: Env, d: nat, fwd: bool,
                            off: int, s: S): Option<S>
    requires forall i | 0 <= i < |items| :: items[i] < parent
    decreases d, 1, parent, 4, |items|
  {
    if items == [] then Some(s)
    else
      var touched :- DenArm(c, Recorder(), items[0], env, d, true, 0, {});
      var rest := off + Extent(touched);
      if fwd then
        var s1 :- DenArm(c, m, items[0], env, d, fwd, off, s);
        DenArms(c, m, parent, items[1..], env, d, fwd, rest, s1)
      else
        var s1 :- DenArms(c, m, parent, items[1..], env, d, fwd, rest, s);
        DenArm(c, m, items[0], env, d, fwd, off, s1)
  }

  /** Calls: juxtaposed gates, the circuit builtins, parametric functions and zero-argument ones. */
  ghost function DenApp<S>(c: Ctx, m: Model<S>, e: Expr, env: Env, d: nat, fwd: bool, off: int, s: S): Option<S>
    requires e.App?
    decreases d, 1, e, 4, 0
  {
    var (head, args) := FlattenApp(e.fn, e.arg);
    if !head.Var? then DenOther(c, m, e, env, d, fwd, off, s)
    else
      var name := head.name;
      match Juxtaposed(c, name, args)
      case Some(angles) =>
        var gate := if angles == 1 then App(head, Subst(c.ops, args[0], env)) else head;
        Some(Step(m, ShiftLeaf(Placed(gate, Subst(c.ops, args[|args| - 1], env)), off), fwd, s))
      case None =>
        if name == "repeat" && |args| == 2 then
          match Val(c.ops, args[0], env)
          case Ok(VInt(k)) => DenRepeat(c, m, args[1], k, env, d, fwd, off, s)
          case _ => None
        else if name == "identity" && |args| == 1 then Some(s)
        else if (name == "on_high" || name == "on_low") && |args| == 2 then
          match EmbedOffset(c, name == "on_high", args[0], args[1], env)
          case Ok(k) => Den(c, m, args[0], env, d, fwd, off + k, s)
          case Err(_) => None
        else if name == "swap_reverse" && |args| == 1 then
          match Val(c.ops, args[0], env)
          case Ok(VInt(n)) => Some(Run(m, Swaps(n), fwd, off, s))
          case _ => None
        else if name in c.parametric then DenCall(c, m, c.parametric[name], e, args, env, d, fwd, off, s)
        else DenOther(c, m, e, env, d, fwd, off, s)
  }

  ghost function DenOther<S>(c: Ctx, m: Model<S>, e: Expr, env: Env, d: nat, fwd: bool, off: int, s: S): Option<S>
    decreases d, 0, 1, 0
  {
    match ZeroArgCallee(c, e)
    case Some(name) => DenCallee(c, m, name, d, fwd, off, s)
    case None => Some(Step(m, Bare(Subst(c.ops, e, env)), fwd, s))
  }

  /** A parametric call means the callee's body under the evaluated arguments. */
  ghost function DenCall<S>(c: Ctx, m: Model<S>, def: ParametricDef, parent: Expr, args: seq<Expr>, env: Env,
                            d: nat, fwd: bool, off: int, s: S): Option<S>
    requires forall i | 0 <= i < |args| :: args[i] < parent
    decreases d, 0, 0, 0
  {
    if d == 0 || |def.params| != |args| then None
    else
      match ValSeq(c.ops, parent, args, env)
      case Err(_) => None
      case Ok(vs) => Den(c, m, def.body, ArgsOf(def.params, vs), d - 1, fwd, off, s)
  }

  /** Where the last parameter called `n` stands. */
  function LastNamed(params: seq<Name>, n: Name): (i: nat)
    requires n in params
    ensures i < |params| && params[i] == n && n !in params[i + 1..]
  {
    if params[|params| - 1] == n then |params| - 1 else LastNamed(params[..|params| - 1], n)
  }

  /** What a call binds: each parameter the argument in its place, the last one if its name is repeated. */
  function ArgsOf(params: seq<Name>, vs: seq<Value>): Env
    requires |params| == |vs|
  {
    map n | n in params :: vs[LastNamed(params, n)]
  }

  predicate IsNat(v: Value) { v.VInt? && v.i >= 0 }

  /** Where the last natural argument of a parameter called `n` stands; `None` if it has none. */
  function LastNat(params: seq<Name>, vs: seq<Value>, n: Name): (r: Option<nat>)
    requires |params| == |vs|
    ensures r.Some? ==> r.value < |params| && params[r.value] == n && IsNat(vs[r.value])
    ensures forall j | (r.None? || r.value < j) && 0 <= j < |params| :: !(params[j] == n && IsNat(vs[j]))
  {
    var k := |params| - 1;
    if k < 0 then None
    else if params[k] == n && IsNat(vs[k]) then Some(k)
    else LastNat(params[..k], vs[..k], n)
  }

  /** The widths a declared type can speak of: each name's last natural argument. */
  function NatsOf(params: seq<Name>, vs: seq<Value>): map<Name, nat>
    requires |params| == |vs|
  {
    map n | n in params && LastNat(params, vs, n).Some? :: vs[LastNat(params, vs, n).value].i
  }

  /** How far `on_high` moves its circuit: the register width less the circuit's declared width. */
  function EmbedOffset(c: Ctx, high: bool, inner: Expr, target: Expr, env: Env): Res<int> {
    var v :- Val(c.ops, target, env);
    if !v.VInt? then Err(NotClassical(RegisterWidth))
    else
      var w :- WidthOf(c, inner, env);
      Ok(if high then v.i - w else 0)
  }

  function WidthOf(c: Ctx, e: Expr, env: Env): Res<int> {
    if !e.App? then Err(Unsupported(UnknownWidth))
    else
      var (head, args) := FlattenApp(e.fn, e.arg);
      if head == Var("identity") && |args| == 1 then
        var v :- Val(c.ops, args[0], env);
        if v.VInt? then Ok(v.i) else Err(NotClassical(IdentityWidth))
      else if head.Var? && head.name in c.parametric then
        var def := c.parametric[head.name];
        if def.width.None? then Err(Unsupported(NonCircuitCall))
        else
          var n := if |def.params| < |args| then |def.params| else |args|;
          var vs :- ValSeq(c.ops, e, args[..n], env);
          match def.width.value(NatsOf(def.params[..n], vs))
          case Some(w) => Ok(w)
          case None => Err(Unsupported(UnresolvedWidth))
      else Err(Unsupported(UnknownWidth))
  }

  /** The swaps `SWAP(i, n-1-i)` for `i < n/2`. */
  function Swaps(n: int): seq<Leaf> {
    var half := TruncDiv(n, 2);
    seq(if half < 0 then 0 else half, i => Placed(Var("SWAP"), Pair(Int(i), Int(n - 1 - i))))
  }

  /** A placed gate acts; `Rzz` acts through the gates it stands for. */
  ghost function DenGate<S>(c: Ctx, m: Model<S>, gate: Expr, q: Expr, env: Env, d: nat, fwd: bool, off: int, s: S)
    : Option<S>
  {
    if IsRzz(gate) then
      if q.Tuple? && |q.items| == 2
      then Some(Run(m, Leaves(RzzGadget(Subst(c.ops, gate.arg, env), q.items[0], q.items[1])), fwd, off, s))
      else None
    else if gate.Controlled? then
      match SplitControl(q)
      case Err(_) => None
      case Ok(ct) => DenControl(c, m, gate.inner, ct.0, SingletonTarget(ct.1), env, d, fwd, off, s)
    else Some(Step(m, ShiftLeaf(Placed(Subst(c.ops, gate, env), q), off), fwd, s))
  }

  // ── Control ────────────────────────────────────────────────────────────────

  /** The bindings a call has a meaning under: its arguments are the caller's, a zero-argument function
      has none. */
  function CalleeScope(c: Ctx, e: Expr, env: Env): Env {
    if IsParametricCall(c, e) then env else map[]
  }

  /** `controlled(e)`: the parts of `e` one after the other, each controlled. A call is controlled gate
      by gate, and the gates are those it elaborates to on its own. */
  ghost function DenControl<S>(c: Ctx, m: Model<S>, e: Expr, control: Expr, target: Expr, env: Env, d: nat, fwd: bool,
                               off: int, s: S): Option<S>
    decreases ControlSize(e), 2, 0
  {
    match NamedCallee(c, e, CalleeScope(c, e, env), d, {})
    case Fail(_) => None
    case Done(callee, _) =>
      match callee
      case None => DenControlNode(c, m, e, control, target, env, d, fwd, off, s)
      case Some(t) =>
        match Ctl(c, t, control, target, map[], d, {})
        case Fail(_) => None
        case Done(gates, _) => Some(Run(m, Leaves(gates), fwd, off, s))
  }

  ghost function DenControlNode<S>(c: Ctx, m: Model<S>, e: Expr, control: Expr, target: Expr, env: Env, d: nat, fwd: bool,
                                   off: int, s: S): Option<S>
    decreases ControlSize(e), 1, 0
  {
    match e
    case Compose(lhs, rhs) =>
      var s1 :- DenControl(c, m, if fwd then lhs else rhs, control, target, env, d, fwd, off, s);
      DenControl(c, m, if fwd then rhs else lhs, control, target, env, d, fwd, off, s1)
    case CircuitBlock(stmts) =>
      (match BlockBody(c.ops, stmts, env)
       case Err(_) => None
       case Ok(body) => DenControl(c, m, body, control, target, env, d, fwd, off, s))
    case Adjoint(inner) => DenControl(c, m, inner, control, target, env, d, !fwd, off, s)
    case Par(body, count) =>
      (match Val(c.ops, count, env)
       case Ok(VInt(k)) =>
         if k < 0 then None else if k == 0 then Some(s)
         else
           (match ArmWidth(c, body, env, d, {})
            case Fail(_) => None
            case Done(w, _) =>
              var wires := BodyWiresOf(target);
              if wires.Explicit? && |wires.wires| != Saturate(k * w) then None
              else DenControlCopies(c, m, body, control, wires, w, 0, k, env, d, fwd, off, s))
       case _ => None)
    case ParN(items) => DenControlArms(c, m, items, control, BodyWiresOf(target), 0, env, d, fwd, off, s)
    case _ =>
      (match CtlLeaf(c, e, control, target, env)
       case Err(_) => None
       case Ok(gates) => Some(Run(m, Leaves(gates), fwd, off, s)))
  }

  /** Copy `i` of `k` is controlled on the slice of `w` target wires from `i * w`. */
  ghost function DenControlCopies<S>(c: Ctx, m: Model<S>, body: Expr, control: Expr, wires: BodyWires, w: nat, i: nat, k: int,
                                     env: Env, d: nat, fwd: bool, off: int, s: S): Option<S>
    decreases ControlSize(body), 3, if k < i then 0 else k - i
  {
    if i >= k then Some(s)
    else
      match WireSlice(wires, Saturate(i * w), w)
      case Err(_) => None
      case Ok(slice) =>
        if fwd then
          var s1 :- DenControl(c, m, body, control, slice, env, d, fwd, off, s);
          DenControlCopies(c, m, body, control, wires, w, i + 1, k, env, d, fwd, off, s1)
        else
          var s1 :- DenControlCopies(c, m, body, control, wires, w, i + 1, k, env, d, fwd, off, s);
          DenControl(c, m, body, control, slice, env, d, fwd, off, s1)
  }

  /** Each arm is controlled on the target wires after those of the arms before it. */
  ghost function DenControlArms<S>(c: Ctx, m: Model<S>, items: seq<Expr>, control: Expr, wires: BodyWires, offset: int,
                                   env: Env, d: nat, fwd: bool, off: int, s: S): Option<S>
    decreases ControlSizes(items), 4, |items|
  {
    if items == [] then if wires.Explicit? && offset != |wires.wires| then None else Some(s)
    else
      match ArmWidth(c, items[0], env, d, {})
      case Fail(_) => None
      case Done(w, _) =>
        match WireSlice(wires, offset, w)
        case Err(_) => None
        case Ok(slice) =>
          var rest := Saturate(offset + w);
          if fwd then
            var s1 :- DenControl(c, m, items[0], control, slice, env, d, fwd, off, s);
            DenControlArms(c, m, items[1..], control, wires, rest, env, d, fwd, off, s1)
          else
            var s1 :- DenControlArms(c, m, items[1..], control, wires, rest, env, d, fwd, off, s);
            DenControl(c, m, items[0], control, slice, env, d, fwd, off, s1)
  }
}
