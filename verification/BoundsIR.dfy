/** Integer and boolean expressions for interval analysis (Bounds.cpp, Interval.cpp). */
module BoundsIR {

  /** A handle is opaque: arithmetic on one is an error. */
  datatype Type = Int | Bool | Handle

  datatype BinOp = Add | Sub | Mul | Div | Mod | Min | Max | LT | LE | GT | GE | EQ | NE | And | Or

  datatype Expr =
    | Imm(n: int, ty: Type)
    | Var(name: string, ty: Type)
    | Bin(op: BinOp, a: Expr, b: Expr)
    | Not(a: Expr)
    | Abs(a: Expr)
    | Select(cond: Expr, t: Expr, f: Expr)
    | Let(name: string, value: Expr, body: Expr)

  type Env = map<string, int>
  type Types = map<string, Type>

  function Bit(b: bool): int {
    if b then 1 else 0
  }

  function Get(env: Env, v: string): int {
    if v in env then env[v] else 0
  }

  function Lesser(x: int, y: int): int {
    if x < y then x else y
  }

  function Greater(x: int, y: int): int {
    if x < y then y else x
  }

  /** Euclidean division; a zero divisor gives zero. */
  function Quotient(x: int, y: int): int {
    if y == 0 then 0 else x / y
  }

  function Remainder(x: int, y: int): int {
    if y == 0 then 0 else x % y
  }

  function Apply(op: BinOp, x: int, y: int): int {
    match op
    case Add => x + y
    case Sub => x - y
    case Mul => x * y
    case Div => Quotient(x, y)
    case Mod => Remainder(x, y)
    case Min => Lesser(x, y)
    case Max => Greater(x, y)
    case LT => Bit(x < y)
    case LE => Bit(x <= y)
    case GT => Bit(x > y)
    case GE => Bit(x >= y)
    case EQ => Bit(x == y)
    case NE => Bit(x != y)
    case And => Bit(x != 0 && y != 0)
    case Or => Bit(x != 0 || y != 0)
  }

  function Magnitude(x: int): int {
    if x < 0 then -x else x
  }

  function Eval(e: Expr, env: Env): int {
    match e
    case Imm(n, _) => n
    case Var(v, ty) => if ty.Bool? then Bit(Get(env, v) != 0) else Get(env, v)
    case Bin(op, a, b) => Apply(op, Eval(a, env), Eval(b, env))
    case Not(a) => Bit(Eval(a, env) == 0)
    case Abs(a) => Magnitude(Eval(a, env))
    case Select(c, t, f) => if Eval(c, env) != 0 then Eval(t, env) else Eval(f, env)
    case Let(v, x, b) => Eval(b, env[v := Eval(x, env)])
  }

  lemma EvalImm(e: Expr, env: Env)
    requires e.Imm?
    ensures Eval(e, env) == e.n
  {
  }

  lemma EvalBin(op: BinOp, a: Expr, b: Expr, env: Env)
    ensures Eval(Bin(op, a, b), env) == Apply(op, Eval(a, env), Eval(b, env))
  {
  }

  predicate Arithmetic(op: BinOp) {
    op in {Add, Sub, Mul, Div, Mod, Min, Max}
  }

  predicate Comparison(op: BinOp) {
    op in {LT, LE, GT, GE, EQ, NE}
  }

  function TypeOf(e: Expr): Type {
    match e
    case Imm(_, ty) => ty
    case Var(_, ty) => ty
    case Bin(op, _, _) => if Arithmetic(op) then Int else Bool
    case Not(_) => Bool
    case Abs(_) => Int
    case Select(_, t, _) => TypeOf(t)
    case Let(_, _, b) => TypeOf(b)
  }

  /** Operands have the types their operator needs, and a variable with a known type is used at it. Abs only
      occurs in bounds: calls are left out. */
  predicate WellTyped(e: Expr, types: Types) {
    match e
    case Imm(n, ty) => ty.Bool? ==> n == 0 || n == 1
    case Var(v, ty) => v in types ==> types[v] == ty
    case Bin(op, a, b) =>
      && WellTyped(a, types) && WellTyped(b, types)
      && if Arithmetic(op) then TypeOf(a) == Int && TypeOf(b) == Int
         else if Comparison(op) then TypeOf(a) == TypeOf(b)
         else TypeOf(a) == Bool && TypeOf(b) == Bool
    case Not(a) => WellTyped(a, types) && TypeOf(a) == Bool
    case Abs(_) => false
    case Select(c, t, f) =>
      WellTyped(c, types) && WellTyped(t, types) && WellTyped(f, types) && TypeOf(c) == Bool && TypeOf(t) == TypeOf(f)
    case Let(v, x, b) => WellTyped(x, types) && WellTyped(b, types[v := TypeOf(x)])
  }

  predicate IsBit(x: int) {
    x == 0 || x == 1
  }

  lemma {:induction false} BoolIsBit(e: Expr, types: Types, env: Env)
    requires WellTyped(e, types) && TypeOf(e) == Bool
    ensures IsBit(Eval(e, env))
  {
    match e
    case Imm(_, _) =>
    case Var(_, _) =>
    case Bin(_, _, _) =>
    case Not(_) =>
    case Select(_, t, f) => BoolIsBit(t, types, env); BoolIsBit(f, types, env);
    case Let(v, x, b) => BoolIsBit(b, types[v := TypeOf(x)], env[v := Eval(x, env)]);
  }

  /** All names that occur in an expression, bound or free (ExprUsesVar.h counts both). */
  function Names(e: Expr): set<string> {
    match e
    case Imm(_, _) => {}
    case Var(v, _) => {v}
    case Bin(_, a, b) => Names(a) + Names(b)
    case Not(a) => Names(a)
    case Abs(a) => Names(a)
    case Select(c, t, f) => Names(c) + Names(t) + Names(f)
    case Let(v, x, b) => {v} + Names(x) + Names(b)
  }

  /** The names that are free in an expression. */
  function Free(e: Expr): set<string> {
    match e
    case Imm(_, _) => {}
    case Var(v, _) => {v}
    case Bin(_, a, b) => Free(a) + Free(b)
    case Not(a) => Free(a)
    case Abs(a) => Free(a)
    case Select(c, t, f) => Free(c) + Free(t) + Free(f)
    case Let(v, x, b) => Free(x) + (Free(b) - {v})
  }

  lemma {:induction false} FreeAreNames(e: Expr)
    ensures Free(e) <= Names(e)
  {
    match e
    case Imm(_, _) =>
    case Var(_, _) =>
    case Bin(_, a, b) => FreeAreNames(a); FreeAreNames(b);
    case Not(a) => FreeAreNames(a);
    case Abs(a) => FreeAreNames(a);
    case Select(c, t, f) => FreeAreNames(c); FreeAreNames(t); FreeAreNames(f);
    case Let(_, x, b) => FreeAreNames(x); FreeAreNames(b);
  }

  ghost predicate AgreeOn(names: set<string>, env: Env, env': Env) {
    forall v | v in names :: Get(env, v) == Get(env', v)
  }

  lemma {:induction false} EvalAgrees(e: Expr, env: Env, env': Env)
    requires AgreeOn(Free(e), env, env')
    ensures Eval(e, env) == Eval(e, env')
    decreases e
  {
    match e
    case Imm(_, _) =>
    case Var(_, _) =>
    case Bin(_, a, b) => EvalAgrees(a, env, env'); EvalAgrees(b, env, env');
    case Not(a) => EvalAgrees(a, env, env');
    case Abs(a) => EvalAgrees(a, env, env');
    case Select(c, t, f) => EvalAgrees(c, env, env'); EvalAgrees(t, env, env'); EvalAgrees(f, env, env');
    case Let(v, x, b) =>
      EvalAgrees(x, env, env');
      var y := Eval(x, env);
      forall u | u in Free(b) ensures Get(env[v := y], u) == Get(env'[v := y], u) {
        assert u != v ==> u in Free(e);
      }
      EvalAgrees(b, env[v := Eval(x, env)], env'[v := Eval(x, env)]);
  }

  /** A name that is not free can have any value. */
  lemma EvalUpdate(e: Expr, env: Env, v: string, x: int)
    requires v !in Free(e)
    ensures Eval(e, env[v := x]) == Eval(e, env)
  {
    EvalAgrees(e, env, env[v := x]);
  }

  predicate IsZero(e: Expr) { e.Imm? && e.n == 0 }
  predicate IsOne(e: Expr) { e.Imm? && e.n == 1 }
  predicate IsConst(e: Expr) { e.Imm? }
  predicate IsPositiveConst(e: Expr) { e.Imm? && e.n > 0 }
  predicate IsNegativeConst(e: Expr) { e.Imm? && e.n < 0 }
}
