/** Soundness of the interval analysis: the value lies between the evaluated minimum and maximum. */
module BoundsSound {
  import opened BoundsIR
  import opened Intervals
  import opened BoundsExpr

  predicate NonEmpty(i: Interval) {
    !i.IsEmpty()
  }

  ghost predicate BitValued(e: Expr) {
    forall env: Env :: IsBit(Eval(e, env))
  }

  /** A bounded interval of conditions. */
  ghost predicate Bits(i: Interval) {
    Finite(i) && BitValued(i.min.e) && BitValued(i.max.e)
  }

  /** The interval is a sound answer for the value `x` of an expression of type `ty`. */
  ghost predicate Covers(i: Interval, ty: Type, env: Env, x: int) {
    NonEmpty(i) && Contains(i, env, x) && (ty.Bool? ==> Bits(i))
  }

  // ----- arithmetic -----

  lemma PlusSound(o: Oracle, e: Expr, a: Interval, b: Interval, env: Env, x: int, y: int)
    requires Honest(o) && e.Bin? && e.op == Add && NonEmpty(a) && NonEmpty(b) && Contains(a, env, x)
             && Contains(b, env, y)
    ensures Covers(PlusBounds(o, e, a, b), Int, env, x + y)
  {
  }

  lemma MinusSound(o: Oracle, e: Expr, a: Interval, b: Interval, env: Env, x: int, y: int)
    requires Honest(o) && e.Bin? && e.op == Sub && NonEmpty(a) && NonEmpty(b) && Contains(a, env, x)
             && Contains(b, env, y)
    ensures Covers(MinusBounds(o, e, a, b), Int, env, x - y)
  {
  }

  lemma MulMonotone(x: int, y: int, z: int)
    requires x <= y
    ensures z >= 0 ==> x * z <= y * z
    ensures z <= 0 ==> y * z <= x * z
  {
    if z >= 0 {
      assert (y - x) * z >= 0;
    } else {
      assert (y - x) * (-z) >= 0;
    }
  }

  /** A product lies between the products of the ends. */
  lemma ProductCorners(x1: int, x: int, x2: int, y1: int, y: int, y2: int)
    requires x1 <= x <= x2 && y1 <= y <= y2
    ensures x1 * y1 <= x * y || x1 * y2 <= x * y || x2 * y1 <= x * y || x2 * y2 <= x * y
    ensures x * y <= x1 * y1 || x * y <= x1 * y2 || x * y <= x2 * y1 || x * y <= x2 * y2
  {
    MulMonotone(x1, x, y);
    MulMonotone(x, x2, y);
    MulMonotone(y1, y, x1);
    MulMonotone(y, y2, x1);
    MulMonotone(y1, y, x2);
    MulMonotone(y, y2, x2);
  }

  lemma DivisionIs(x: int, y: int, q: int, r: int)
    requires y != 0 && x == y * q + r && 0 <= r < Magnitude(y)
    ensures x / y == q
  {
    var q', r' := x / y, x % y;
    assert y * (q' - q) == r - r';
    if q' > q { MulMonotone(1, q' - q, Magnitude(y)); }
    if q' < q { MulMonotone(1, q - q', Magnitude(y)); }
  }

  lemma NegatedDivisor(x: int, y: int)
    requires y != 0
    ensures x / (-y) == -(x / y)
  {
    DivisionIs(x, -y, -(x / y), x % y);
  }

  lemma DivMonotone(x: int, y: int, z: int)
    requires x <= y && z > 0
    ensures x / z <= y / z
  {
    if x / z > y / z {
      MulMonotone(1, x / z - y / z, z);
    }
  }

  lemma SignOfQuotient(x: int, y: int)
    requires y > 0
    ensures x >= 0 ==> x / y >= 0
    ensures x < 0 ==> x / y < 0
  {
    if x / y < 0 {
      MulMonotone(x / y, -1, y);
    } else {
      MulMonotone(0, x / y, y);
    }
  }

  /** A larger positive divisor brings the quotient closer to zero. */
  lemma DivByLarger(x: int, y: int, z: int)
    requires 0 < y <= z
    ensures x >= 0 ==> x / z <= x / y
    ensures x < 0 ==> x / y <= x / z
  {
    var p, q := x / y, x / z;
    if x >= 0 {
      SignOfQuotient(x, y);
      if q > p {
        MulMonotone(p + 1, q, z);
        MulMonotone(y, z, p + 1);
      }
    } else {
      SignOfQuotient(x, y);
      if p > q {
        MulMonotone(q + 1, p, z);
        MulMonotone(y, z, p);
      }
    }
  }

  lemma QuotientMonotone(x: int, y: int, z: int)
    requires x <= y
    ensures z > 0 ==> Quotient(x, z) <= Quotient(y, z)
    ensures z < 0 ==> Quotient(y, z) <= Quotient(x, z)
  {
    if z > 0 {
      DivMonotone(x, y, z);
    } else if z < 0 {
      DivMonotone(x, y, -z);
      NegatedDivisor(x, -z);
      NegatedDivisor(y, -z);
    }
  }

  /** For divisors of one sign the quotient by any divisor in between lies between those by the ends. */
  lemma QuotientBetween(x: int, y1: int, y: int, y2: int)
    requires y1 <= y <= y2 && (y1 > 0 || y2 < 0)
    ensures Quotient(x, y1) <= Quotient(x, y) || Quotient(x, y2) <= Quotient(x, y)
    ensures Quotient(x, y) <= Quotient(x, y1) || Quotient(x, y) <= Quotient(x, y2)
  {
    if y1 > 0 {
      DivByLarger(x, y1, y);
      DivByLarger(x, y, y2);
    } else {
      NegatedDivisor(x, -y);
      NegatedDivisor(x, -y1);
      NegatedDivisor(x, -y2);
      DivByLarger(x, -y2, -y);
      DivByLarger(x, -y, -y1);
    }
  }

  lemma QuotientCorners(x1: int, x: int, x2: int, y1: int, y: int, y2: int)
    requires x1 <= x <= x2 && y1 <= y <= y2 && (y1 > 0 || y2 < 0)
    ensures Quotient(x1, y1) <= Quotient(x, y) || Quotient(x1, y2) <= Quotient(x, y)
            || Quotient(x2, y1) <= Quotient(x, y) || Quotient(x2, y2) <= Quotient(x, y)
    ensures Quotient(x, y) <= Quotient(x1, y1) || Quotient(x, y) <= Quotient(x1, y2)
            || Quotient(x, y) <= Quotient(x2, y1) || Quotient(x, y) <= Quotient(x2, y2)
  {
    QuotientMonotone(x1, x, y);
    QuotientMonotone(x, x2, y);
    QuotientBetween(x1, y1, y, y2);
    QuotientBetween(x2, y1, y, y2);
  }

  lemma IncludeNonEmpty(o: Oracle, i: Interval, e: Expr)
    requires i == NOTHING || NonEmpty(i)
    ensures NonEmpty(Include(o, i, e))
  {
  }

  lemma CornersSound(o: Oracle, op: BinOp, a1: Expr, a2: Expr, b1: Expr, b2: Expr, env: Env, x: int, y: int)
    requires Honest(o) && (op == Mul || op == Div)
    requires Eval(a1, env) <= x <= Eval(a2, env) && Eval(b1, env) <= y <= Eval(b2, env)
    requires op == Div ==> Eval(b1, env) > 0 || Eval(b2, env) < 0
    ensures Covers(Corners(o, op, a1, a2, b1, b2), Int, env, Apply(op, x, y))
  {
    var z := Apply(op, x, y);
    var e1, e2 := Bin(op, a1, b1), if op == Div then Bin(op, a2, b1) else Bin(op, a1, b2);
    var e3, e4 := if op == Div then Bin(op, a1, b2) else Bin(op, a2, b1), Bin(op, a2, b2);
    var i1 := Include(o, NOTHING, e1);
    var i2 := Include(o, i1, e2);
    var i3 := Include(o, i2, e3);
    IncludeNonEmpty(o, NOTHING, e1);
    IncludeNonEmpty(o, i1, e2);
    IncludeNonEmpty(o, i2, e3);
    IncludeNonEmpty(o, i3, e4);
    IncludeMeans(o, NOTHING, e1, env, z);
    IncludeMeans(o, i1, e2, env, z);
    IncludeMeans(o, i2, e3, env, z);
    IncludeMeans(o, i3, e4, env, z);
    if op == Mul {
      ProductCorners(Eval(a1, env), x, Eval(a2, env), Eval(b1, env), y, Eval(b2, env));
    } else {
      QuotientCorners(Eval(a1, env), x, Eval(a2, env), Eval(b1, env), y, Eval(b2, env));
    }
  }

  lemma ApplyMonotone(op: BinOp, x: int, z: int, y: int)
    requires (op == Mul || op == Div) && x <= z
    ensures y > 0 ==> Apply(op, x, y) <= Apply(op, z, y)
    ensures y < 0 ==> Apply(op, z, y) <= Apply(op, x, y)
    ensures y == 0 ==> Apply(op, x, y) == Apply(op, z, y) == 0
  {
    if op == Mul {
      MulMonotone(x, z, y);
    } else {
      QuotientMonotone(x, z, y);
    }
  }

  lemma ScalePositive(op: BinOp, a: Interval, low: Expr, high: Expr, env: Env, x: int, y: int)
    requires (op == Mul || op == Div) && NonEmpty(a) && Contains(a, env, x)
    requires Eval(low, env) == y && Eval(high, env) == y && y > 0
    ensures Covers(Interval(Scale(op, a.min, low), Scale(op, a.max, high)), Int, env, Apply(op, x, y))
  {
    hide Apply, Eval;
    if a.min.Fin? {
      ApplyMonotone(op, Eval(a.min.e, env), x, y);
      EvalBin(op, a.min.e, low, env);
    }
    if a.max.Fin? {
      ApplyMonotone(op, x, Eval(a.max.e, env), y);
      EvalBin(op, a.max.e, high, env);
    }
  }

  lemma ScaleNegative(op: BinOp, a: Interval, low: Expr, high: Expr, env: Env, x: int, y: int)
    requires (op == Mul || op == Div) && NonEmpty(a) && Contains(a, env, x)
    requires Eval(low, env) == y && Eval(high, env) == y && y < 0
    ensures Covers(Interval(Flip(Scale(op, a.max, high)), Flip(Scale(op, a.min, low))), Int, env, Apply(op, x, y))
  {
    hide Apply, Eval;
    if a.min.Fin? {
      ApplyMonotone(op, Eval(a.min.e, env), x, y);
      EvalBin(op, a.min.e, low, env);
    }
    if a.max.Fin? {
      ApplyMonotone(op, x, Eval(a.max.e, env), y);
      EvalBin(op, a.max.e, high, env);
    }
  }

  /** Both ends, ordered by a test of the sign. */
  lemma ScaleTested(op: BinOp, a1: Expr, a2: Expr, low: Expr, high: Expr, cmp: BinOp, env: Env, x: int, y: int)
    requires (op == Mul && cmp == GE) || (op == Div && cmp == GT)
    requires Eval(a1, env) <= x <= Eval(a2, env) && Eval(low, env) == y && Eval(high, env) == y
    ensures var c, e1, e2 := Bin(cmp, low, Zero(Int)), Bin(op, a1, low), Bin(op, a2, high);
            Eval(Select(c, e1, e2), env) <= Apply(op, x, y) <= Eval(Select(c, e2, e1), env)
  {
    ApplyMonotone(op, Eval(a1, env), x, y);
    ApplyMonotone(op, x, Eval(a2, env), y);
    var c := Bin(cmp, low, Zero(Int));
    assert Eval(c, env) == Bit(if cmp == GE then y >= 0 else y > 0);
    hide Apply;
  }

  /** Scaling by a value of known or tested sign. */
  lemma ScaleSound(op: BinOp, a: Interval, low: Expr, high: Expr, cmp: BinOp, env: Env, x: int, y: int)
    requires (op == Mul && cmp == GE) || (op == Div && cmp == GT)
    requires NonEmpty(a) && Contains(a, env, x) && Eval(low, env) == y && Eval(high, env) == y
    ensures Covers(ScaleBounds(op, a, low, high, cmp), Int, env, Apply(op, x, y))
  {
    if low.Imm? {
      EvalImm(low, env);
    }
    hide Apply, Eval;
    if IsPositiveConst(low) {
      ScalePositive(op, a, low, high, env, x, y);
    } else if IsNegativeConst(low) {
      ScaleNegative(op, a, low, high, env, x, y);
    } else if Finite(a) {
      ScaleTested(op, a.min.e, a.max.e, low, high, cmp, env, x, y);
    }
  }

  lemma TimesSound(o: Oracle, e: Expr, a: Interval, b: Interval, env: Env, x: int, y: int)
    requires Honest(o) && e.Bin? && e.op == Mul && NonEmpty(a) && NonEmpty(b) && Contains(a, env, x)
             && Contains(b, env, y)
    ensures Covers(TimesBounds(o, e, a, b), Int, env, x * y)
  {
    if a.IsPoint(o) && !b.IsPoint(o) {
      TimesOrdered(o, e, b, a, env, y, x);
    } else {
      TimesOrdered(o, e, a, b, env, x, y);
    }
  }

  lemma TimesOrdered(o: Oracle, e: Expr, a: Interval, b: Interval, env: Env, x: int, y: int)
    requires Honest(o) && e.Bin? && e.op == Mul && NonEmpty(a) && NonEmpty(b) && Contains(a, env, x)
             && Contains(b, env, y)
    requires a.IsPoint(o) ==> b.IsPoint(o)
    ensures Covers(TimesBounds(o, e, a, b), Int, env, x * y)
    ensures b.IsPoint(o) && !a.IsPoint(o) ==> Covers(TimesBounds(o, e, b, a), Int, env, x * y)
  {
    if b.IsPoint(o) && b.min.Fin? {
      ScaleSound(Mul, a, b.min.e, b.min.e, GE, env, x, y);
    } else if Finite(a) && Finite(b) {
      CornersSound(o, Mul, a.min.e, a.max.e, b.min.e, b.max.e, env, x, y);
    }
  }

  lemma DivideSound(o: Oracle, e: Expr, a: Interval, b: Interval, env: Env, x: int, y: int)
    requires Honest(o) && e.Bin? && e.op == Div && NonEmpty(a) && NonEmpty(b) && Contains(a, env, x)
             && Contains(b, env, y)
    ensures Covers(DivideBounds(o, e, a, b), Int, env, Quotient(x, y))
  {
    if Finite(b) && !(a.IsPointOf(o, e.a) && b.IsPointOf(o, e.b)) {
      if o.proves(Bin(EQ, b.min.e, b.max.e)) {
        assert Eval(Bin(EQ, b.min.e, b.max.e), env) != 0;
        ScaleSound(Div, a, b.min.e, b.max.e, GT, env, x, y);
      } else if Finite(a) {
        var lowSign, highSign := o.sign(b.min.e), o.sign(b.max.e);
        if !((lowSign > 0) != (highSign > 0) || (lowSign < 0) != (highSign < 0) || lowSign == 0 || highSign == 0) {
          CornersSound(o, Div, a.min.e, a.max.e, b.min.e, b.max.e, env, x, y);
        }
      }
    }
  }

  /** Either bounded or unbounded on both sides; or bounded below by a value that is not positive. */
  ghost predicate DivisorFits(b: Interval, env: Env) {
    Finite(b) || b == EVERYTHING || (b.max.PosInf? && b.min.Fin? && Eval(b.min.e, env) <= 0)
  }

  lemma RemainderRange(x: int, y: int)
    requires y != 0
    ensures 0 <= Remainder(x, y) < Magnitude(y)
  {
  }

  lemma MaxOfMagnitudes(a: Expr, b: Expr, env: Env, y: int)
    requires Eval(a, env) <= y <= Eval(b, env)
    ensures Magnitude(y) <= Eval(Bin(Max, Abs(a), Abs(b)), env)
    ensures Eval(a, env) > 0 ==> Magnitude(y) <= Eval(b, env)
  {
  }

  lemma RemainderSound(o: Oracle, e: Expr, a: Interval, b: Interval, env: Env, x: int, y: int)
    requires Honest(o) && e.Bin? && e.op == Mod && NonEmpty(a) && NonEmpty(b) && Contains(a, env, x)
             && Contains(b, env, y)
    requires y != 0 && DivisorFits(b, env)
    ensures Covers(RemainderBounds(o, e, a, b), Int, env, Remainder(x, y))
  {
    RemainderRange(x, y);
    if Finite(b) {
      RemainderInside(b.min.e, b.max.e, env, Remainder(x, y), y);
    }
    hide Eval, Remainder, Magnitude;
    if a.IsPointOf(o, e.a) && b.IsPointOf(o, e.b) {
      EvalBin(Mod, e.a, e.b, env);
    } else if a.IsPoint(o) && b.IsPoint(o) && a.min.Fin? && b.min.Fin? {
      EvalBin(Mod, a.min.e, b.min.e, env);
    }
  }

  /** A number below the magnitude of a divisor is inside the interval made from the divisor's ends. */
  lemma RemainderInside(a: Expr, b: Expr, env: Env, r: int, y: int)
    requires Eval(a, env) <= y <= Eval(b, env) && 0 <= r < Magnitude(y)
    ensures Eval(Zero(Int), env) <= r <= Eval(Bin(Sub, Bin(Max, Abs(a), Abs(b)), One(Int)), env)
    ensures IsPositiveConst(a) ==> r <= Eval(Bin(Sub, b, One(Int)), env)
  {
    MaxOfMagnitudes(a, b, env, y);
    if IsPositiveConst(a) {
      EvalImm(a, env);
    }
    hide Eval, Magnitude;
    EvalImm(Zero(Int), env);
    EvalImm(One(Int), env);
    EvalBin(Sub, Bin(Max, Abs(a), Abs(b)), One(Int), env);
    EvalBin(Sub, b, One(Int), env);
  }

  /** Returning the half-bounded interval of a divisor as the interval of the remainder is right for every
      dividend and divisor in it exactly when it is bounded below by a value that is not positive. */
  lemma HalfDivisorExactly(o: Oracle, e: Expr, a: Interval, b: Interval, env: Env)
    requires e.Bin? && e.op == Mod && NonEmpty(b) && !Finite(b) && b != EVERYTHING
    ensures RemainderBounds(o, e, a, b) == b
    ensures (forall x, y | y != 0 && Contains(b, env, y) :: Contains(b, env, Remainder(x, y))) <==> DivisorFits(b, env)
  {
    if DivisorFits(b, env) {
      forall x, y | y != 0 && Contains(b, env, y) ensures Contains(b, env, Remainder(x, y)) {
        RemainderRange(x, y);
      }
    } else if b.min.Fin? {
      // Every divisor in range is positive and divides itself.
      var y := Eval(b.min.e, env);
      assert Contains(b, env, y) && Remainder(y, y) == 0;
      assert !Contains(b, env, Remainder(y, y));
    } else {
      // Far below the bound the remainder can be as large as one likes.
      var m := Magnitude(Eval(b.max.e, env)) + 2;
      assert Contains(b, env, -m) && Remainder(m - 1, -m) == m - 1 by {
        DivisionIs(m - 1, -m, 0, m - 1);
      }
      assert !Contains(b, env, Remainder(m - 1, -m));
    }
  }

  lemma ExtremeSound(o: Oracle, e: Expr, a: Interval, b: Interval, env: Env, x: int, y: int)
    requires Honest(o) && e.Bin? && (e.op == Min || e.op == Max)
    requires NonEmpty(a) && NonEmpty(b) && Contains(a, env, x) && Contains(b, env, y)
    ensures Covers(ExtremeBounds(o, e, a, b), Int, env, Apply(e.op, x, y))
  {
    var z := Apply(e.op, x, y);
    MakeMinMeans(o, a.min, b.min, env, z);
    MakeMinMeans(o, a.max, b.max, env, z);
    MakeMaxMeans(o, a.min, b.min, env, z);
    MakeMaxMeans(o, a.max, b.max, env, z);
  }

  // ----- conditions -----

  lemma ConditionBits(op: BinOp, x: int, y: int)
    requires !Arithmetic(op)
    ensures IsBit(Apply(op, x, y))
  {
  }

  lemma ConditionBitValued(op: BinOp, a: Expr, b: Expr)
    requires !Arithmetic(op)
    ensures BitValued(Bin(op, a, b))
  {
    hide Eval, Apply;
    forall env: Env ensures IsBit(Eval(Bin(op, a, b), env)) {
      EvalBin(op, a, b, env);
      ConditionBits(op, Eval(a, env), Eval(b, env));
    }
  }

  lemma CompareSound(cmp: BinOp, a: Interval, b: Interval, env: Env, x: int, y: int)
    requires (cmp == LT || cmp == LE) && NonEmpty(a) && NonEmpty(b) && Contains(a, env, x) && Contains(b, env, y)
    ensures Covers(CompareBounds(cmp, a, b), Bool, env, Apply(cmp, x, y))
  {
  }

  lemma EqualSound(o: Oracle, e: Expr, a: Interval, b: Interval, env: Env, x: int, y: int)
    requires Honest(o) && e.Bin? && (e.op == EQ || e.op == NE)
    requires NonEmpty(a) && NonEmpty(b) && Contains(a, env, x) && Contains(b, env, y)
    ensures Covers(EqualBounds(o, e, a, b), Bool, env, Apply(e.op, x, y))
  {
    if a.IsPointOf(o, e.a) && b.IsPointOf(o, e.b) {
      PointSound(e.op, e.a, e.b, env);
    } else if a.IsPoint(o) && b.IsPoint(o) && a.min.Fin? && b.min.Fin? {
      PointSound(e.op, a.min.e, b.min.e, env);
    } else {
      EqualRange(e, a, b, env, x, y);
    }
    hide BitValued, Apply;
  }

  lemma PointSound(op: BinOp, a: Expr, b: Expr, env: Env)
    requires !Arithmetic(op)
    ensures Covers(Point(Bin(op, a, b)), Bool, env, Apply(op, Eval(a, env), Eval(b, env)))
  {
    hide Eval, Apply;
    ConditionBitValued(op, a, b);
    EvalBin(op, a, b, env);
    hide BitValued;
  }

  lemma EqualRange(e: Expr, a: Interval, b: Interval, env: Env, x: int, y: int)
    requires e.Bin? && (e.op == EQ || e.op == NE)
    requires NonEmpty(a) && NonEmpty(b) && Contains(a, env, x) && Contains(b, env, y)
    ensures var base, z := OfType(Bool), Apply(e.op, x, y);
            && Covers(base, Bool, env, z)
            && (Finite(a) && Finite(b) && e.op == EQ ==>
                  Covers(base.(max := Fin(Bin(And, Bin(LE, a.min.e, b.max.e), Bin(LE, b.min.e, a.max.e)))), Bool, env,
                      z))
            && (Finite(a) && Finite(b) && e.op == NE ==>
                  Covers(base.(min := Fin(Bin(Or, Bin(GT, a.min.e, b.max.e), Bin(GT, b.min.e, a.max.e)))), Bool, env,
                      z))
  {
    ConditionBits(e.op, x, y);
    EvalImm(Zero(Bool), env);
    EvalImm(One(Bool), env);
    ConstantBits();
    hide Eval, Apply;
    if Finite(a) && Finite(b) {
      OverlapMeans(a.min.e, a.max.e, b.min.e, b.max.e, env, x, y);
    }
    hide BitValued;
  }

  lemma ConstantBits()
    ensures BitValued(Zero(Bool)) && BitValued(One(Bool))
  {
  }

  /** Overlapping ranges are necessary for equality, separate ones sufficient for inequality. */
  lemma OverlapMeans(a1: Expr, a2: Expr, b1: Expr, b2: Expr, env: Env, x: int, y: int)
    requires Eval(a1, env) <= x <= Eval(a2, env) && Eval(b1, env) <= y <= Eval(b2, env)
    ensures var overlap, apart := Bin(And, Bin(LE, a1, b2), Bin(LE, b1, a2)), Bin(Or, Bin(GT, a1, b2), Bin(GT, b1, a2));
            && BitValued(overlap) && BitValued(apart)
            && Apply(EQ, x, y) <= Eval(overlap, env) && Eval(apart, env) <= Apply(NE, x, y)
  {
    var p, q, r, s := Bin(LE, a1, b2), Bin(LE, b1, a2), Bin(GT, a1, b2), Bin(GT, b1, a2);
    ConditionBitValued(And, p, q);
    ConditionBitValued(Or, r, s);
    hide Eval, BitValued;
    EvalBin(LE, a1, b2, env);
    EvalBin(LE, b1, a2, env);
    EvalBin(GT, a1, b2, env);
    EvalBin(GT, b1, a2, env);
    EvalBin(And, p, q, env);
    EvalBin(Or, r, s, env);
  }

  lemma LogicTable(x: int, y: int)
    requires IsBit(x) && IsBit(y)
    ensures Apply(And, x, y) == if x == 1 then y else if y == 1 then x else 0
    ensures Apply(Or, x, y) == if x == 0 then y else if y == 0 then x else 1
  {
  }

  lemma MakeMeans(a: Expr, b: Expr, env: Env)
    requires IsBit(Eval(a, env)) && IsBit(Eval(b, env))
    ensures Eval(MakeAnd(a, b), env) == Apply(And, Eval(a, env), Eval(b, env))
    ensures Eval(MakeOr(a, b), env) == Apply(Or, Eval(a, env), Eval(b, env))
  {
    hide Eval, Apply;
    if a.Imm? {
      EvalImm(a, env);
    }
    if b.Imm? {
      EvalImm(b, env);
    }
    LogicTable(Eval(a, env), Eval(b, env));
    EvalBin(And, a, b, env);
    EvalBin(Or, a, b, env);
  }

  lemma MakeBits(a: Expr, b: Expr)
    requires BitValued(a) && BitValued(b)
    ensures BitValued(MakeAnd(a, b)) && BitValued(MakeOr(a, b))
  {
    hide Eval, MakeAnd, MakeOr;
    forall env: Env ensures IsBit(Eval(MakeAnd(a, b), env)) && IsBit(Eval(MakeOr(a, b), env)) {
      MakeMeans(a, b, env);
    }
  }

  /** And and or are monotone. */
  lemma LogicMonotone(op: BinOp, x1: int, x: int, x2: int, y1: int, y: int, y2: int)
    requires (op == And || op == Or) && IsBit(x1) && IsBit(x) && IsBit(x2) && IsBit(y1) && IsBit(y) && IsBit(y2)
    requires x1 <= x <= x2 && y1 <= y <= y2
    ensures Apply(op, x1, y1) <= Apply(op, x, y) <= Apply(op, x2, y2)
  {
  }

  lemma LogicSound(o: Oracle, e: Expr, a: Interval, b: Interval, env: Env, x: int, y: int)
    requires Honest(o) && e.Bin? && (e.op == And || e.op == Or)
    requires Covers(a, Bool, env, x) && Covers(b, Bool, env, y) && IsBit(x) && IsBit(y)
    ensures Covers(LogicBounds(o, e, a, b), Bool, env, Apply(e.op, x, y))
  {
    hide Eval, Apply, MakeAnd, MakeOr;
    LogicMonotone(e.op, Eval(a.min.e, env), x, Eval(a.max.e, env), Eval(b.min.e, env), y, Eval(b.max.e, env));
    ConditionBitValued(e.op, e.a, e.b);
    ConditionBitValued(e.op, a.min.e, b.min.e);
    MakeBits(a.min.e, b.min.e);
    MakeBits(a.max.e, b.max.e);
    MakeMeans(a.min.e, b.min.e, env);
    MakeMeans(a.max.e, b.max.e, env);
    EvalBin(e.op, e.a, e.b, env);
    EvalBin(e.op, a.min.e, b.min.e, env);
    hide BitValued;
  }

  lemma NotSound(o: Oracle, e: Expr, a: Interval, env: Env, x: int)
    requires Honest(o) && e.Not? && Covers(a, Bool, env, x) && IsBit(x)
    ensures Covers(NotBounds(o, e, a), Bool, env, Bit(x == 0))
  {
    assert IsBit(Eval(a.min.e, env)) && IsBit(Eval(a.max.e, env));
  }

  // ----- select -----

  /** A side of a select is on its side of whichever branch is taken. */
  ghost predicate SideFits(pick: BinOp, side: int, c: int, x: int, y: int) {
    if pick == Min then side <= if c != 0 then x else y else side >= if c != 0 then x else y
  }

  lemma EvalSelect(c: Expr, t: Expr, f: Expr, env: Env)
    ensures Eval(Select(c, t, f), env) == if Eval(c, env) != 0 then Eval(t, env) else Eval(f, env)
  {
  }

  lemma EvalLet(v: string, x: Expr, b: Expr, env: Env)
    ensures Eval(Let(v, x, b), env) == Eval(b, env[v := Eval(x, env)])
  {
  }

  lemma EvalVar(v: string, ty: Type, env: Env, x: int)
    requires ty.Bool? ==> IsBit(x)
    ensures Eval(Var(v, ty), env[v := x]) == x
  {
  }

  /** The branch with one new name for `shared`, which stands on both sides. */
  lemma OneNameMeans(o: Oracle, pick: BinOp, ty: Type, test: Expr, v: string, shared: Expr, other: Expr,
                     whenTrue: bool, env: Env)
    requires Honest(o) && (pick == Min || pick == Max) && v !in Free(test) && v !in Free(other)
    requires ty.Bool? ==> IsBit(Eval(shared, env))
    ensures var named := Var(v, ty);
            var branch := if whenTrue then Select(test, named, other) else Select(test, other, named);
            Eval(Let(v, shared, Combine(o, pick, branch, named)), env)
            == Apply(pick, if (Eval(test, env) != 0) == whenTrue then Eval(shared, env)
                else Eval(other, env), Eval(shared, env))
  {
    var named, x := Var(v, ty), Eval(shared, env);
    var branch := if whenTrue then Select(test, named, other) else Select(test, other, named);
    var env' := env[v := x];
    EvalLet(v, shared, Combine(o, pick, branch, named), env);
    CombineMeans(o, pick, branch, named, env');
    EvalVar(v, ty, env, x);
    EvalUpdate(test, env, v, x);
    EvalUpdate(other, env, v, x);
    hide Eval, Combine;
    if whenTrue {
      EvalSelect(test, named, other, env');
    } else {
      EvalSelect(test, other, named, env');
    }
  }

  /** The branch with two new names. */
  lemma TwoNamesMean(o: Oracle, pick: BinOp, ty: Type, low: Expr, high: Expr, v: string, w: string, x: Expr, y: Expr,
                     env: Env)
    requires Honest(o) && (pick == Min || pick == Max) && v != w
    requires v !in Free(low) + Free(high) && w !in Free(low) + Free(high) && w !in Free(x)
    requires ty.Bool? ==> IsBit(Eval(x, env)) && IsBit(Eval(y, env))
    ensures var s1, s2 := Select(low, Var(v, ty), Var(w, ty)), Select(high, Var(v, ty), Var(w, ty));
            Eval(Let(w, y, Let(v, x, Combine(o, pick, s1, s2))), env)
            == Apply(pick, if Eval(low, env) != 0 then Eval(x, env) else Eval(y, env),
                           if Eval(high, env) != 0 then Eval(x, env) else Eval(y, env))
  {
    var s1, s2 := Select(low, Var(v, ty), Var(w, ty)), Select(high, Var(v, ty), Var(w, ty));
    var a, b := Eval(x, env), Eval(y, env);
    var env1 := env[w := b];
    var env2 := env1[v := a];
    EvalLet(w, y, Let(v, x, Combine(o, pick, s1, s2)), env);
    EvalUpdate(x, env, w, b);
    EvalLet(v, x, Combine(o, pick, s1, s2), env1);
    CombineMeans(o, pick, s1, s2, env2);
    EvalVar(v, ty, env1, a);
    EvalVar(w, ty, env, b);
    EvalUpdate(Var(w, ty), env1, v, a);
    EvalUpdate(low, env, w, b);
    EvalUpdate(low, env1, v, a);
    EvalUpdate(high, env, w, b);
    EvalUpdate(high, env1, v, a);
    hide Eval, Combine;
    EvalSelect(low, Var(v, ty), Var(w, ty), env2);
    EvalSelect(high, Var(v, ty), Var(w, ty), env2);
  }

  lemma SameIsEqual(o: Oracle, x: Expr, y: Expr)
    requires Honest(o)
    ensures o.same(x, y) ==> x == y
  {
  }

  /** One side of a select, whatever the names, as a choice between its two branches. */
  lemma SelectSideMeans(o: Oracle, pick: BinOp, ty: Type, cond: Interval, x: Expr, y: Expr, n: nat, env: Env, c: int)
    requires Honest(o) && (pick == Min || pick == Max) && Finite(cond)
    requires IsBit(c)
    requires o.newName(n) != o.newName(n + 1)
    requires forall i | n <= i <= n + 1 ::
               o.newName(i) !in Free(x) + Free(y) + Free(cond.min.e) + Free(cond.max.e)
    requires ty.Bool? ==> IsBit(Eval(x, env)) && IsBit(Eval(y, env))
    ensures var (side, n') := SelectSide(o, pick, ty, cond, x, y, n);
            && n <= n'
            && (Contains(cond, env, c) && IsBit(Eval(cond.min.e, env)) && IsBit(Eval(cond.max.e, env)) ==>
                  SideFits(pick, Eval(side, env), c, Eval(x, env), Eval(y, env)))
            && (Eval(side, env) == Eval(x, env) || Eval(side, env) == Eval(y, env))
  {
    hide Eval, Combine, Free, Honest;
    SameIsEqual(o, x, y);
    SameIsEqual(o, cond.min.e, cond.max.e);
    if IsOne(cond.max.e) {
      EvalImm(cond.max.e, env);
    }
    if IsZero(cond.min.e) {
      EvalImm(cond.min.e, env);
    }
    if o.same(x, y) {
    } else if cond.IsPoint(o) {
      EvalSelect(cond.min.e, x, y, env);
    } else if IsZero(cond.min.e) && IsOne(cond.max.e) {
      CombineMeans(o, pick, x, y, env);
    } else if IsOne(cond.max.e) {
      OneNameMeans(o, pick, ty, cond.min.e, o.newName(n), x, y, true, env);
    } else if IsZero(cond.min.e) {
      OneNameMeans(o, pick, ty, cond.max.e, o.newName(n), y, x, false, env);
    } else {
      TwoNamesMean(o, pick, ty, cond.min.e, cond.max.e, o.newName(n), o.newName(n + 1), x, y, env);
    }
  }
}
