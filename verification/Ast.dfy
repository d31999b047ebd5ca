/** The Quon syntax tree, without source spans. Every pass of the front end reads this tree. */
module Ast {

  datatype Option<+T> = None | Some(value: T) {
    predicate IsFailure() { None? }
    function PropagateFailure<U>(): Option<U> requires None? { None }
    function Extract(): T requires Some? { value }
  }

  type Name = string

  // ── Types ──────────────────────────────────────────────────────────────────

  /** Type-level natural-number arithmetic; `NHole` is the `_` of a depth position. */
  datatype NatExpr =
    | NLit(n: nat)
    | NVar(name: Name)
    | NAdd(left: NatExpr, right: NatExpr)
    | NSub(left: NatExpr, right: NatExpr)
    | NMul(left: NatExpr, right: NatExpr)
    | NDiv(left: NatExpr, right: NatExpr)
    | NExp(left: NatExpr, right: NatExpr)
    | NHole

  datatype CliffordClass = Clifford | Universal | Infer

  datatype Type =
    | TQubit | TBit | TBool | TInt | TFloat | TUnit | TNat
    | TQReg(size: NatExpr)
    | TList(elem: Type)
    | TTuple(elems: seq<Type>)
    | TFn(dom: Type, cod: Type)
    | TLinear(dom: Type, cod: Type)
    | TCircuit(n: NatExpr, m: NatExpr, d: NatExpr, c: CliffordClass)
    | TQ(elem: Type)
    | TMatrix(rows: NatExpr, cols: NatExpr, elem: Type)
    | TQecBlock(family: Type, distance: NatExpr)
    | TVar(name: Name)
    | TNamed(name: Name, args: seq<NatExpr>)

  // ── Patterns ───────────────────────────────────────────────────────────────

  datatype LitPat = IntLit(i: int) | BoolLit(b: bool)

  datatype Pat =
    | PWild
    | PVar(name: Name)
    | PTuple(pats: seq<Pat>)
    | PLit(lit: LitPat)

  // ── Expressions ────────────────────────────────────────────────────────────

  datatype BinOp = Add | Sub | Mul | Div | Pow

  datatype Param = Param(pat: Pat, ty: Option<Type>)

  datatype Binding = Binding(name: Name, ty: Type)

  datatype Arm = Arm(pat: Pat, body: Expr)

  /** `at` is the source offset of a bind's pattern; desugaring names its temporary after it. */
  datatype Stmt =
    | SBind(pat: Pat, at: nat, rhs: Expr)
    | SLet(pat: Pat, rhs: Expr)
    | SExpr(e: Expr)

  datatype Expr =
    | Int(i: int)
    | Float(f: real)
    | Bool(b: bool)
    | Unit
    | Var(name: Name)
    | Lam(params: seq<Param>, body: Expr)
    | App(fn: Expr, arg: Expr)
    | TypeApp(callee: Expr, targs: seq<NatExpr>)
    | Bin(op: BinOp, lhs: Expr, rhs: Expr)
    | Neg(inner: Expr)
    | Let(pat: Pat, rhs: Expr, body: Expr)
    | If(cond: Expr, thn: Expr, els: Expr)
    | Match(scrutinee: Expr, arms: seq<Arm>)
    | For(pat: Pat, iter: Expr, body: Expr)
    | Tuple(items: seq<Expr>)
    | List(items: seq<Expr>)
    | CircuitBlock(stmts: seq<Stmt>)
    | Compose(lhs: Expr, rhs: Expr)
    | Par(body: Expr, count: Expr)
    | ParN(items: seq<Expr>)
    | Adjoint(inner: Expr)
    | Controlled(inner: Expr)
    | GateApp(gate: Expr, qubits: Expr)
    | RunBlock(stmts: seq<Stmt>)
    | Bind(rhs: Expr, param: Name, body: Expr)
    | Return(inner: Expr)
    | Borrow(bindings: seq<Binding>, stmts: seq<Stmt>)
    | Ascribe(inner: Expr, ty: Type)
}
