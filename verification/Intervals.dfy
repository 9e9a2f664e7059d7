/** Intervals of expressions, unbounded on either side or both (Interval.h, Interval.cpp). */
module Intervals {
  import opened BoundsIR

  datatype Bound = NegInf | PosInf | Fin(e: Expr)

  /** What the analysis asks of the rest of the compiler: object identity, the prover, the sign test and
      new names. */
  datatype Oracle = Oracle(same: (Expr, Expr) -> bool, proves: Expr -> bool, sign: Expr -> int, newName: nat -> string)

  /** Identical expressions are equal; what is proved holds everywhere; a sign is the sign everywhere. */
  ghost predicate Honest(o: Oracle) {
    && (forall a, b | o.same(a, b) :: a == b)
    && (forall e, env: Env | o.proves(e) :: Eval(e, env) != 0)
    && (forall e, env: Env | o.sign(e) > 0 :: Eval(e, env) > 0)
    && (forall e, env: Env | o.sign(e) < 0 :: Eval(e, env) < 0)
  }

  predicate SameBound(o: Oracle, a: Bound, b: Bound) {
    match (a, b)
    case (NegInf, NegInf) => true
    case (PosInf, PosInf) => true
    case (Fin(x), Fin(y)) => o.same(x, y)
    case _ => false
  }

  datatype Interval = Interval(min: Bound, max: Bound) {
    predicate IsEmpty() { min.PosInf? || max.NegInf? }
    predicate HasUpper() { !max.PosInf? && !IsEmpty() }
    predicate HasLower() { !min.NegInf? && !IsEmpty() }
    predicate IsBounded() { HasUpper() && HasLower() }
    predicate IsPoint(o: Oracle) { SameBound(o, min, max) }
    predicate IsPointOf(o: Oracle, e: Expr) { SameBound(o, min, Fin(e)) && SameBound(o, max, Fin(e)) }
  }

  const EVERYTHING := Interval(NegInf, PosInf)
  const NOTHING := Interval(PosInf, NegInf)

  function Point(e: Expr): Interval {
    Interval(Fin(e), Fin(e))
  }

  function Zero(ty: Type): Expr { Imm(0, ty) }
  function One(ty: Type): Expr { Imm(1, ty) }

  /** bounds_of_type: only boolean is narrow enough to have bounds. */
  function OfType(ty: Type): Interval {
    if ty.Bool? then Interval(Fin(Zero(Bool)), Fin(One(Bool))) else EVERYTHING
  }

  // ----- meaning -----

  ghost predicate AtLeast(b: Bound, env: Env, x: int) {
    match b
    case NegInf => true
    case PosInf => false
    case Fin(e) => Eval(e, env) <= x
  }

  ghost predicate AtMost(b: Bound, env: Env, x: int) {
    match b
    case NegInf => false
    case PosInf => true
    case Fin(e) => x <= Eval(e, env)
  }

  ghost predicate Contains(i: Interval, env: Env, x: int) {
    AtLeast(i.min, env, x) && AtMost(i.max, env, x)
  }

  // ----- eager minimum and maximum -----

  /** The size that goes down when a tree of maxima or minima is rebalanced. */
  function Weight(op: BinOp, e: Expr): nat {
    if e.Bin? && e.op == op then 1 + Weight(op, e.a) + Weight(op, e.b) else 0
  }

  /** make_max and make_min on finite bounds: fold constants, keep trees to the left with constants on the
      right, and drop what is already there. */
  function Combine(o: Oracle, op: BinOp, a: Expr, b: Expr): (r: Expr)
    requires op == Min || op == Max
    ensures a.Imm? && b.Imm? ==> r.Imm?
    decreases Weight(op, a) + Weight(op, b), 1
  {
    if o.same(a, b) || a == b then a
    else if a.Imm? && b.Imm? then
      (if op == Max then if a.n > b.n then a else b else if a.n > b.n then b else a)
    else if IsTree(op, b) && !IsTree(op, a) && !(IsConst(b.a) && IsConst(b.b)) then Balance(o, op, b, a)
    else Balance(o, op, a, b)
  }

  predicate IsTree(op: BinOp, e: Expr) {
    e.Bin? && e.op == op
  }

  function Balance(o: Oracle, op: BinOp, a: Expr, b: Expr): Expr
    requires op == Min || op == Max
    decreases Weight(op, a) + Weight(op, b), 0
  {
    if IsTree(op, a) && IsConst(a.b) && IsConst(b) then Combine(o, op, a.a, Combine(o, op, a.b, b))
    else if IsTree(op, a) && (o.same(a.a, b) || o.same(a.b, b)) then a
    else Bin(op, a, b)
  }

  function MakeMax(o: Oracle, a: Bound, b: Bound): Bound {
    match (a, b)
    case (PosInf, _) => a
    case (_, PosInf) => b
    case (NegInf, _) => b
    case (_, NegInf) => a
    case (Fin(x), Fin(y)) => Fin(Combine(o, Max, x, y))
  }

  function MakeMin(o: Oracle, a: Bound, b: Bound): Bound {
    match (a, b)
    case (PosInf, _) => b
    case (_, PosInf) => a
    case (NegInf, _) => a
    case (_, NegInf) => b
    case (Fin(x), Fin(y)) => Fin(Combine(o, Min, x, y))
  }

  /** Interval::include of one expression. */
  function Include(o: Oracle, i: Interval, e: Expr): Interval {
    Interval(MakeMin(o, i.min, Fin(e)), MakeMax(o, i.max, Fin(e)))
  }

  /** Whatever the rebalancing does, the value is the minimum or maximum of the two. */
  lemma {:induction false} CombineMeans(o: Oracle, op: BinOp, a: Expr, b: Expr, env: Env)
    requires (op == Min || op == Max) && Honest(o)
    ensures Eval(Combine(o, op, a, b), env) == Apply(op, Eval(a, env), Eval(b, env))
    decreases Weight(op, a) + Weight(op, b), 1
  {
    if o.same(a, b) || a == b || (a.Imm? && b.Imm?) {
    } else {
      BalanceMeans(o, op, a, b, env);
      BalanceMeans(o, op, b, a, env);
    }
  }

  lemma {:induction false} BalanceMeans(o: Oracle, op: BinOp, a: Expr, b: Expr, env: Env)
    requires (op == Min || op == Max) && Honest(o)
    ensures Eval(Balance(o, op, a, b), env) == Apply(op, Eval(a, env), Eval(b, env))
    decreases Weight(op, a) + Weight(op, b), 0
  {
    if IsTree(op, a) && IsConst(a.b) && IsConst(b) {
      CombineMeans(o, op, a.b, b, env);
      CombineMeans(o, op, a.a, Combine(o, op, a.b, b), env);
    }
  }

  lemma {:induction false} CombineFree(o: Oracle, op: BinOp, a: Expr, b: Expr)
    requires op == Min || op == Max
    ensures Free(Combine(o, op, a, b)) <= Free(a) + Free(b)
    decreases Weight(op, a) + Weight(op, b), 1
  {
    if o.same(a, b) || a == b || (a.Imm? && b.Imm?) {
    } else {
      BalanceFree(o, op, a, b);
      BalanceFree(o, op, b, a);
    }
  }

  lemma {:induction false} BalanceFree(o: Oracle, op: BinOp, a: Expr, b: Expr)
    requires op == Min || op == Max
    ensures Free(Balance(o, op, a, b)) <= Free(a) + Free(b)
    decreases Weight(op, a) + Weight(op, b), 0
  {
    if IsTree(op, a) && IsConst(a.b) && IsConst(b) {
      CombineFree(o, op, a.b, b);
      CombineFree(o, op, a.a, Combine(o, op, a.b, b));
    }
  }

  lemma MakeMaxMeans(o: Oracle, a: Bound, b: Bound, env: Env, x: int)
    requires Honest(o)
    ensures AtMost(MakeMax(o, a, b), env, x) <==> AtMost(a, env, x) || AtMost(b, env, x)
    ensures AtLeast(MakeMax(o, a, b), env, x) <==> AtLeast(a, env, x) && AtLeast(b, env, x)
  {
    if a.Fin? && b.Fin? {
      CombineMeans(o, Max, a.e, b.e, env);
    }
  }

  lemma MakeMinMeans(o: Oracle, a: Bound, b: Bound, env: Env, x: int)
    requires Honest(o)
    ensures AtLeast(MakeMin(o, a, b), env, x) <==> AtLeast(a, env, x) || AtLeast(b, env, x)
    ensures AtMost(MakeMin(o, a, b), env, x) <==> AtMost(a, env, x) && AtMost(b, env, x)
  {
    if a.Fin? && b.Fin? {
      CombineMeans(o, Min, a.e, b.e, env);
    }
  }

  /** Including an expression widens the interval to its value. */
  lemma IncludeMeans(o: Oracle, i: Interval, e: Expr, env: Env, x: int)
    requires Honest(o)
    ensures AtLeast(Include(o, i, e).min, env, x) <==> AtLeast(i.min, env, x) || Eval(e, env) <= x
    ensures AtMost(Include(o, i, e).max, env, x) <==> AtMost(i.max, env, x) || x <= Eval(e, env)
  {
    MakeMinMeans(o, i.min, Fin(e), env, x);
    MakeMaxMeans(o, i.max, Fin(e), env, x);
  }
}
