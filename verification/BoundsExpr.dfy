/** The expression visitors of class Bounds (Bounds.cpp): each makes the interval of a node from the
    intervals of its operands. */
module BoundsExpr {
  import opened BoundsIR
  import opened Intervals

  type Scope = map<string, Interval>

  function PlusBounds(o: Oracle, e: Expr, a: Interval, b: Interval): Interval
    requires e.Bin?
  {
    if a.IsPointOf(o, e.a) && b.IsPointOf(o, e.b) then Point(e)
    else if a.IsPoint(o) && b.IsPoint(o) && a.min.Fin? && b.min.Fin? then Point(Bin(Add, a.min.e, b.min.e))
    else
      Interval(if a.HasLower() && b.HasLower() && a.min.Fin? && b.min.Fin? then Fin(Bin(Add, a.min.e, b.min.e))
          else NegInf,
               if a.HasUpper() && b.HasUpper() && a.max.Fin? && b.max.Fin? then Fin(Bin(Add, a.max.e, b.max.e))
                   else PosInf)
  }

  function MinusBounds(o: Oracle, e: Expr, a: Interval, b: Interval): Interval
    requires e.Bin?
  {
    if a.IsPointOf(o, e.a) && b.IsPointOf(o, e.b) then Point(e)
    else if a.IsPoint(o) && b.IsPoint(o) && a.min.Fin? && b.min.Fin? then Point(Bin(Sub, a.min.e, b.min.e))
    else
      Interval(if a.HasLower() && b.HasUpper() && a.min.Fin? && b.max.Fin? then Fin(Bin(Sub, a.min.e, b.max.e))
          else NegInf,
               if a.HasUpper() && b.HasLower() && a.max.Fin? && b.min.Fin? then Fin(Bin(Sub, a.max.e, b.min.e))
                   else PosInf)
  }

  /** `op` of a bound and a factor or divisor; infinities stay. */
  function Scale(op: BinOp, bound: Bound, factor: Expr): Bound {
    if bound.Fin? then Fin(Bin(op, bound.e, factor)) else bound
  }

  /** Infinity on the other side. */
  function Flip(b: Bound): Bound {
    match b
    case NegInf => PosInf
    case PosInf => NegInf
    case Fin(_) => b
  }

  /** Multiplication or division by an expression, where its sign decides which end is which. */
  function ScaleBounds(op: BinOp, a: Interval, low: Expr, high: Expr, cmp: BinOp): Interval {
    var e1, e2 := Scale(op, a.min, low), Scale(op, a.max, high);
    if IsPositiveConst(low) then Interval(e1, e2)
    else if IsNegativeConst(low) then Interval(Flip(e2), Flip(e1))
    else if e1.Fin? && e2.Fin? then
      var c := Bin(cmp, low, Zero(Int));
      Interval(Fin(Select(c, e1.e, e2.e)), Fin(Select(c, e2.e, e1.e)))
    else EVERYTHING
  }

  /** The smallest and largest of the four corners. */
  function Corners(o: Oracle, op: BinOp, a1: Expr, a2: Expr, b1: Expr, b2: Expr): Interval {
    if op == Div then
      Include(o, Include(o, Include(o, Include(o, NOTHING, Bin(op, a1, b1)), Bin(op, a2, b1)), Bin(op, a1, b2)),
          Bin(op, a2, b2))
    else
      Include(o, Include(o, Include(o, Include(o, NOTHING, Bin(op, a1, b1)), Bin(op, a1, b2)), Bin(op, a2, b1)),
          Bin(op, a2, b2))
  }

  function TimesBounds(o: Oracle, e: Expr, x: Interval, y: Interval): Interval
    requires e.Bin?
  {
    var (a, b) := if x.IsPoint(o) && !y.IsPoint(o) then (y, x) else (x, y);
    if a.IsPointOf(o, e.a) && b.IsPointOf(o, e.b) then Point(e)
    else if a.IsPoint(o) && b.IsPoint(o) && a.min.Fin? && b.min.Fin? then Point(Bin(Mul, a.min.e, b.min.e))
    else if b.IsPoint(o) && b.min.Fin? then
      if IsZero(b.min.e) then b else ScaleBounds(Mul, a, b.min.e, b.min.e, GE)
    else if a.IsBounded() && b.IsBounded() && a.min.Fin? && a.max.Fin? && b.min.Fin? && b.max.Fin? then
      Corners(o, Mul, a.min.e, a.max.e, b.min.e, b.max.e)
    else EVERYTHING
  }

  function DivideBounds(o: Oracle, e: Expr, a: Interval, b: Interval): Interval
    requires e.Bin?
  {
    if !(b.IsBounded() && b.min.Fin? && b.max.Fin?) then EVERYTHING
    else if a.IsPointOf(o, e.a) && b.IsPointOf(o, e.b) then Point(e)
    else if o.proves(Bin(EQ, b.min.e, b.max.e)) then ScaleBounds(Div, a, b.min.e, b.max.e, GT)
    else if a.IsBounded() && a.min.Fin? && a.max.Fin? then
      var lowSign, highSign := o.sign(b.min.e), o.sign(b.max.e);
      if (lowSign > 0) != (highSign > 0) || (lowSign < 0) != (highSign < 0) || lowSign == 0
          || highSign == 0 then EVERYTHING
      else Corners(o, Div, a.min.e, a.max.e, b.min.e, b.max.e)
    else EVERYTHING
  }

  /** The divisor's interval is returned as it is when it is not bounded. */
  function RemainderBounds(o: Oracle, e: Expr, a: Interval, b: Interval): Interval
    requires e.Bin?
  {
    if !(b.IsBounded() && b.min.Fin? && b.max.Fin?) then b
    else if a.IsPointOf(o, e.a) && b.IsPointOf(o, e.b) then Point(e)
    else if a.IsPoint(o) && b.IsPoint(o) && a.min.Fin? then Point(Bin(Mod, a.min.e, b.min.e))
    else if IsPositiveConst(b.min.e) then Interval(Fin(Zero(Int)), Fin(Bin(Sub, b.max.e, One(Int))))
    else Interval(Fin(Zero(Int)), Fin(Bin(Sub, Bin(Max, Abs(b.min.e), Abs(b.max.e)), One(Int))))
  }

  function ExtremeBounds(o: Oracle, e: Expr, a: Interval, b: Interval): Interval
    requires e.Bin? && (e.op == Min || e.op == Max)
  {
    if a.IsPointOf(o, e.a) && b.IsPointOf(o, e.b) then Point(e)
    else if e.op == Min then Interval(MakeMin(o, a.min, b.min), MakeMin(o, a.max, b.max))
    else Interval(MakeMax(o, a.min, b.min), MakeMax(o, a.max, b.max))
  }

  /** A sufficient condition as minimum and a necessary one as maximum. */
  function CompareBounds(cmp: BinOp, a: Interval, b: Interval): Interval {
    if a.IsBounded() && b.IsBounded() && a.min.Fin? && a.max.Fin? && b.min.Fin? && b.max.Fin? then
      Interval(Fin(Bin(cmp, a.max.e, b.min.e)), Fin(Bin(cmp, a.min.e, b.max.e)))
    else OfType(Bool)
  }

  function EqualBounds(o: Oracle, e: Expr, a: Interval, b: Interval): Interval
    requires e.Bin? && (e.op == EQ || e.op == NE)
  {
    if a.IsPointOf(o, e.a) && b.IsPointOf(o, e.b) then Point(e)
    else if a.IsPoint(o) && b.IsPoint(o) && a.min.Fin? && b.min.Fin? then Point(Bin(e.op, a.min.e, b.min.e))
    else
      var base := OfType(Bool);
      if a.IsBounded() && b.IsBounded() && a.min.Fin? && a.max.Fin? && b.min.Fin? && b.max.Fin? then
        if e.op == EQ then base.(max := Fin(Bin(And, Bin(LE, a.min.e, b.max.e), Bin(LE, b.min.e, a.max.e))))
        else base.(min := Fin(Bin(Or, Bin(GT, a.min.e, b.max.e), Bin(GT, b.min.e, a.max.e))))
      else base
  }

  function MakeAnd(a: Expr, b: Expr): Expr {
    if IsOne(a) then b else if IsOne(b) then a else if IsZero(a) then a else if IsZero(b) then b else Bin(And, a, b)
  }

  function MakeOr(a: Expr, b: Expr): Expr {
    if IsOne(a) then a else if IsOne(b) then b else if IsZero(a) then b else if IsZero(b) then a else Bin(Or, a, b)
  }

  function MakeNot(a: Expr): Expr {
    if IsOne(a) then Zero(Bool) else if IsZero(a) then One(Bool) else Not(a)
  }

  /** Boolean intervals are bounded; anything else would be a handle where a condition is expected. */
  predicate Finite(i: Interval) {
    i.min.Fin? && i.max.Fin?
  }

  function LogicBounds(o: Oracle, e: Expr, a: Interval, b: Interval): Interval
    requires e.Bin? && (e.op == And || e.op == Or) && Finite(a) && Finite(b)
  {
    if a.IsPointOf(o, e.a) && b.IsPointOf(o, e.b) then Point(e)
    else if a.IsPoint(o) && b.IsPoint(o) then Point(Bin(e.op, a.min.e, b.min.e))
    else if e.op == And then Interval(Fin(MakeAnd(a.min.e, b.min.e)), Fin(MakeAnd(a.max.e, b.max.e)))
    else Interval(Fin(MakeOr(a.min.e, b.min.e)), Fin(MakeOr(a.max.e, b.max.e)))
  }

  function NotBounds(o: Oracle, e: Expr, a: Interval): Interval
    requires e.Not? && Finite(a)
  {
    if a.IsPointOf(o, e.a) then Point(e)
    else if a.IsPoint(o) then Point(Not(a.min.e))
    else Interval(Fin(MakeNot(a.max.e)), Fin(MakeNot(a.min.e)))
  }

  /** One side of the interval of a select whose branches are bounded: `pick` is Min for the lower side
      and Max for the upper one. New names keep a bound from being written twice. */
  function SelectSide(o: Oracle, pick: BinOp, ty: Type, cond: Interval, x: Expr, y: Expr, n: nat): (Expr, nat)
    requires (pick == Min || pick == Max) && Finite(cond)
  {
    if o.same(x, y) then (x, n)
    else if cond.IsPoint(o) then (Select(cond.min.e, x, y), n)
    else if IsZero(cond.min.e) && IsOne(cond.max.e) then (Combine(o, pick, x, y), n)
    else if IsOne(cond.max.e) then
      var v := o.newName(n);
      (Let(v, x, Combine(o, pick, Select(cond.min.e, Var(v, ty), y), Var(v, ty))), n + 1)
    else if IsZero(cond.min.e) then
      var v := o.newName(n);
      (Let(v, y, Combine(o, pick, Select(cond.max.e, x, Var(v, ty)), Var(v, ty))), n + 1)
    else
      var (v, w) := (o.newName(n), o.newName(n + 1));
      var both := Combine(o, pick, Select(cond.min.e, Var(v, ty), Var(w, ty)),
          Select(cond.max.e, Var(v, ty), Var(w, ty)));
      (Let(w, y, Let(v, x, both)), n + 2)
  }

  function SelectBounds(o: Oracle, ty: Type, a: Interval, b: Interval, cond: Interval, n: nat): (Interval, nat)
    requires Finite(a) && Finite(b) && Finite(cond)
  {
    if cond.IsPoint(o) && IsOne(cond.min.e) then (a, n)
    else if cond.IsPoint(o) && IsZero(cond.min.e) then (b, n)
    else
      var (low, n1) := SelectSide(o, Min, ty, cond, a.min.e, b.min.e, n);
      var (high, n2) := SelectSide(o, Max, ty, cond, a.max.e, b.max.e, n1);
      (Interval(Fin(low), Fin(high)), n2)
  }

  function MinName(v: string): string { v + ".min" }
  function MaxName(v: string): string { v + ".max" }

  /** How a let variable is seen in its body: constants as themselves, other bounds by name. */
  function ByName(b: Bound, name: string, ty: Type): Bound {
    if b.Fin? && !IsConst(b.e) then Fin(Var(name, ty)) else b
  }

  /** The bounds that were named are bound where they are used. */
  function Wrap(side: Bound, name: string, value: Bound): Bound {
    if side.Fin? && value.Fin? && !IsConst(value.e) && name in Names(side.e) then Fin(Let(name, value.e, side.e))
        else side
  }

  function WrapBoth(side: Bound, v: string, value: Interval): Bound {
    Wrap(Wrap(side, MinName(v), value.min), MaxName(v), value.max)
  }

  /** The interval of an expression, and the number of names used up. */
  function BoundsOf(o: Oracle, e: Expr, scope: Scope, n: nat): (Interval, nat) {
    match e
    case Imm(_, _) => (Point(e), n)
    case Var(v, _) => (if v in scope then scope[v] else Point(e), n)
    case Abs(_) => (EVERYTHING, n)
    case Not(x) =>
      var (a, n1) := BoundsOf(o, x, scope, n);
      (if Finite(a) then NotBounds(o, e, a) else EVERYTHING, n1)
    case Bin(op, x, y) =>
      if op == GT || op == GE then
        // Greater-than visits its operands the other way around.
        var (b, n1) := BoundsOf(o, y, scope, n);
        if !b.IsBounded() then (OfType(Bool), n1)
        else
          var (a, n2) := BoundsOf(o, x, scope, n1);
          (Operate(o, e, a, b), n2)
      else
        var (a, n1) := BoundsOf(o, x, scope, n);
        if (op == LT || op == LE) && !a.IsBounded() then (OfType(Bool), n1)
        else
          var (b, n2) := BoundsOf(o, y, scope, n1);
          (Operate(o, e, a, b), n2)
    case Select(c, x, y) =>
      var (a, n1) := BoundsOf(o, x, scope, n);
      if !(a.IsBounded() && Finite(a)) then (a, n1)
      else
        var (b, n2) := BoundsOf(o, y, scope, n1);
        if !(b.IsBounded() && Finite(b)) then (b, n2)
        else
          var (cond, n3) := BoundsOf(o, c, scope, n2);
          if !Finite(cond) then (EVERYTHING, n3) else SelectBounds(o, TypeOf(e), a, b, cond, n3)
    case Let(v, x, body) =>
      var (value, n1) := BoundsOf(o, x, scope, n);
      var shown := Interval(ByName(value.min, MinName(v), TypeOf(x)), ByName(value.max, MaxName(v), TypeOf(x)));
      var (r, n2) := BoundsOf(o, body, scope[v := shown], n1);
      (Interval(WrapBoth(r.min, v, value), WrapBoth(r.max, v, value)), n2)
  }

  function Operate(o: Oracle, e: Expr, a: Interval, b: Interval): Interval
    requires e.Bin?
  {
    match e.op
    case Add => PlusBounds(o, e, a, b)
    case Sub => MinusBounds(o, e, a, b)
    case Mul => TimesBounds(o, e, a, b)
    case Div => DivideBounds(o, e, a, b)
    case Mod => RemainderBounds(o, e, a, b)
    case Min => ExtremeBounds(o, e, a, b)
    case Max => ExtremeBounds(o, e, a, b)
    case EQ => EqualBounds(o, e, a, b)
    case NE => EqualBounds(o, e, a, b)
    case And => if Finite(a) && Finite(b) then LogicBounds(o, e, a, b) else EVERYTHING
    case Or => if Finite(a) && Finite(b) then LogicBounds(o, e, a, b) else EVERYTHING
    case LT => CompareBounds(LT, a, b)
    case LE => CompareBounds(LE, a, b)
    case GT => CompareBounds(LT, b, a)
    case GE => CompareBounds(LE, b, a)
  }
}
