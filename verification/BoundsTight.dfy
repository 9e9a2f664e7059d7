/** The interval visitors are tight: every finite end is the value of the operator at values the operands can have, and
    an end is infinite only where values go on for ever, or where the visitor gives up. Stated over what the operands
    can be, not over how the ends are put together. */
module BoundsTight {
  import opened BoundsIR
  import opened Intervals
  import opened BoundsExpr
  import opened BoundsSound

  // ----- ends -----

  ghost predicate SomeBelow(vs: iset<int>, k: int) {
    exists x :: x in vs && x <= k
  }

  ghost predicate SomeAbove(vs: iset<int>, k: int) {
    exists x :: x in vs && x >= k
  }

  /** A lower end is one of the values, or the values go down for ever. */
  ghost predicate LowEnd(b: Bound, env: Env, vs: iset<int>) {
    match b
    case Fin(e) => Eval(e, env) in vs
    case NegInf => forall k :: SomeBelow(vs, k)
    case PosInf => false
  }

  ghost predicate HighEnd(b: Bound, env: Env, vs: iset<int>) {
    match b
    case Fin(e) => Eval(e, env) in vs
    case PosInf => forall k :: SomeAbove(vs, k)
    case NegInf => false
  }

  /** Both ends of an interval belong to a set of values. */
  ghost predicate Ends(i: Interval, env: Env, vs: iset<int>) {
    LowEnd(i.min, env, vs) && HighEnd(i.max, env, vs)
  }

  /** The values an interval allows. */
  ghost function Inside(i: Interval, env: Env): iset<int> {
    iset x | Contains(i, env, x)
  }

  ghost predicate IsResult(op: BinOp, xs: iset<int>, ys: iset<int>, z: int) {
    exists x, y :: x in xs && y in ys && z == Apply(op, x, y)
  }

  /** What the operator makes of two sets of values. */
  ghost function Results(op: BinOp, xs: iset<int>, ys: iset<int>): iset<int> {
    iset z | IsResult(op, xs, ys, z)
  }

  lemma ResultOf(op: BinOp, xs: iset<int>, ys: iset<int>, x: int, y: int)
    requires x in xs && y in ys
    ensures Apply(op, x, y) in Results(op, xs, ys)
  {
  }

  /** An interval that contains something has the ends of what it contains. */
  lemma InsideEnds(i: Interval, env: Env, x: int)
    requires Contains(i, env, x)
    ensures Ends(i, env, Inside(i, env))
  {
    var vs := Inside(i, env);
    if i.min.NegInf? {
      forall k ensures SomeBelow(vs, k) {
        assert Lesser(x, k) in vs;
      }
    }
    if i.max.PosInf? {
      forall k ensures SomeAbove(vs, k) {
        assert Greater(x, k) in vs;
      }
    }
    assert i.min.Fin? ==> Contains(i, env, Eval(i.min.e, env));
    assert i.max.Fin? ==> Contains(i, env, Eval(i.max.e, env));
  }

  lemma EndsMore(i: Interval, env: Env, vs: iset<int>, more: iset<int>)
    requires Ends(i, env, vs) && vs <= more
    ensures Ends(i, env, more)
  {
    forall k | SomeBelow(vs, k) ensures SomeBelow(more, k) {
      var x :| x in vs && x <= k;
      assert x in more;
    }
    forall k | SomeAbove(vs, k) ensures SomeAbove(more, k) {
      var x :| x in vs && x >= k;
      assert x in more;
    }
  }

  /** An interval with ends has a value. */
  lemma SomeValue(i: Interval, env: Env, vs: iset<int>) returns (x: int)
    requires Ends(i, env, vs)
    ensures x in vs
  {
    if i.min.Fin? {
      x := Eval(i.min.e, env);
    } else {
      assert SomeBelow(vs, 0);
      x :| x in vs && x <= 0;
    }
  }

  // ----- where the visitors give up -----

  predicate ConstantPoint(o: Oracle, i: Interval) {
    i.IsPoint(o) && i.min.Fin? && i.max.Fin? && i.min.e.Imm?
  }

  /** A product of something unbounded and something that is not a constant, a quotient by something that is not of one
      known sign, and conditions on something unbounded have no bounds. */
  predicate GivesUp(o: Oracle, e: Expr, a: Interval, b: Interval)
    requires e.Bin?
  {
    if e.op == Mul then !(Finite(a) && Finite(b)) && !ConstantPoint(o, a) && !ConstantPoint(o, b)
    else if e.op == Div then
      || !Finite(b)
      || (&& !(a.IsPointOf(o, e.a) && b.IsPointOf(o, e.b))
          && if o.proves(Bin(EQ, b.min.e, b.max.e)) then !Finite(a) && !(b.min.e.Imm? && b.min.e.n != 0)
             else !Finite(a) || !OneSign(o, b))
    else if e.op in {LT, LE, GT, GE, And, Or} then !(Finite(a) && Finite(b))
    else false
  }

  predicate OneSign(o: Oracle, b: Interval) {
    b.min.Fin? && b.max.Fin?
    && ((o.sign(b.min.e) > 0 && o.sign(b.max.e) > 0) || (o.sign(b.min.e) < 0 && o.sign(b.max.e) < 0))
  }

  // ----- points -----

  lemma PointEnds(op: BinOp, a: Expr, b: Expr, env: Env, xs: iset<int>, ys: iset<int>)
    requires Eval(a, env) in xs && Eval(b, env) in ys
    ensures Ends(Point(Bin(op, a, b)), env, Results(op, xs, ys))
  {
    EvalBin(op, a, b, env);
    ResultOf(op, xs, ys, Eval(a, env), Eval(b, env));
  }

  lemma SelfEnds(o: Oracle, e: Expr, a: Interval, b: Interval, env: Env, xs: iset<int>, ys: iset<int>)
    requires Honest(o) && e.Bin? && a.IsPointOf(o, e.a) && b.IsPointOf(o, e.b) && Ends(a, env, xs) && Ends(b, env, ys)
    ensures Ends(Point(e), env, Results(e.op, xs, ys))
  {
    PointEnds(e.op, e.a, e.b, env, xs, ys);
  }

  // ----- sums and differences -----

  lemma PlusTight(o: Oracle, e: Expr, a: Interval, b: Interval, env: Env, xs: iset<int>, ys: iset<int>)
    requires Honest(o) && e.Bin? && e.op == Add && Ends(a, env, xs) && Ends(b, env, ys)
    ensures Ends(PlusBounds(o, e, a, b), env, Results(Add, xs, ys))
  {
    if a.IsPointOf(o, e.a) && b.IsPointOf(o, e.b) {
      SelfEnds(o, e, a, b, env, xs, ys);
    } else {
      var x := SomeValue(a, env, xs);
      var y := SomeValue(b, env, ys);
      hide Honest;
      if a.min.Fin? && b.min.Fin? {
        PointEnds(Add, a.min.e, b.min.e, env, xs, ys);
      } else {
        forall k ensures SomeBelow(Results(Add, xs, ys), k) {
          if a.min.NegInf? {
            assert SomeBelow(xs, k - y);
            var x' :| x' in xs && x' <= k - y;
            ResultOf(Add, xs, ys, x', y);
          } else {
            assert SomeBelow(ys, k - x);
            var y' :| y' in ys && y' <= k - x;
            ResultOf(Add, xs, ys, x, y');
          }
        }
      }
      if a.max.Fin? && b.max.Fin? {
        PointEnds(Add, a.max.e, b.max.e, env, xs, ys);
      } else {
        forall k ensures SomeAbove(Results(Add, xs, ys), k) {
          if a.max.PosInf? {
            assert SomeAbove(xs, k - y);
            var x' :| x' in xs && x' >= k - y;
            ResultOf(Add, xs, ys, x', y);
          } else {
            assert SomeAbove(ys, k - x);
            var y' :| y' in ys && y' >= k - x;
            ResultOf(Add, xs, ys, x, y');
          }
        }
      }
    }
  }

  lemma MinusTight(o: Oracle, e: Expr, a: Interval, b: Interval, env: Env, xs: iset<int>, ys: iset<int>)
    requires Honest(o) && e.Bin? && e.op == Sub && Ends(a, env, xs) && Ends(b, env, ys)
    ensures Ends(MinusBounds(o, e, a, b), env, Results(Sub, xs, ys))
  {
    if a.IsPointOf(o, e.a) && b.IsPointOf(o, e.b) {
      SelfEnds(o, e, a, b, env, xs, ys);
    } else if a.IsPoint(o) && b.IsPoint(o) && a.min.Fin? && b.min.Fin? {
      PointEnds(Sub, a.min.e, b.min.e, env, xs, ys);
    } else {
      var x := SomeValue(a, env, xs);
      var y := SomeValue(b, env, ys);
      hide Honest;
      if a.min.Fin? && b.max.Fin? {
        PointEnds(Sub, a.min.e, b.max.e, env, xs, ys);
      } else {
        forall k ensures SomeBelow(Results(Sub, xs, ys), k) {
          if a.min.NegInf? {
            assert SomeBelow(xs, k + y);
            var x' :| x' in xs && x' <= k + y;
            ResultOf(Sub, xs, ys, x', y);
          } else {
            assert SomeAbove(ys, x - k);
            var y' :| y' in ys && y' >= x - k;
            ResultOf(Sub, xs, ys, x, y');
          }
        }
      }
      if a.max.Fin? && b.min.Fin? {
        PointEnds(Sub, a.max.e, b.min.e, env, xs, ys);
      } else {
        forall k ensures SomeAbove(Results(Sub, xs, ys), k) {
          if a.max.PosInf? {
            assert SomeAbove(xs, k + y);
            var x' :| x' in xs && x' >= k + y;
            ResultOf(Sub, xs, ys, x', y);
          } else {
            assert SomeBelow(ys, x - k);
            var y' :| y' in ys && y' <= x - k;
            ResultOf(Sub, xs, ys, x, y');
          }
        }
      }
    }
  }

  // ----- minimum and maximum -----

  lemma CombineEnds(o: Oracle, op: BinOp, a: Expr, b: Expr, env: Env, xs: iset<int>, ys: iset<int>)
    requires Honest(o) && (op == Min || op == Max) && Eval(a, env) in xs && Eval(b, env) in ys
    ensures Eval(Combine(o, op, a, b), env) in Results(op, xs, ys)
  {
    CombineMeans(o, op, a, b, env);
    ResultOf(op, xs, ys, Eval(a, env), Eval(b, env));
  }

  lemma MinTight(o: Oracle, a: Interval, b: Interval, env: Env, xs: iset<int>, ys: iset<int>)
    requires Honest(o) && Ends(a, env, xs) && Ends(b, env, ys)
    ensures Ends(Interval(MakeMin(o, a.min, b.min), MakeMin(o, a.max, b.max)), env, Results(Min, xs, ys))
  {
    var zs := Results(Min, xs, ys);
    var x := SomeValue(a, env, xs);
    var y := SomeValue(b, env, ys);
    if a.min.Fin? && b.min.Fin? {
      CombineEnds(o, Min, a.min.e, b.min.e, env, xs, ys);
    } else {
      forall k ensures SomeBelow(zs, k) {
        if a.min.NegInf? {
          assert SomeBelow(xs, k);
          var x' :| x' in xs && x' <= k;
          ResultOf(Min, xs, ys, x', y);
        } else {
          assert SomeBelow(ys, k);
          var y' :| y' in ys && y' <= k;
          ResultOf(Min, xs, ys, x, y');
        }
      }
    }
    if a.max.Fin? && b.max.Fin? {
      CombineEnds(o, Min, a.max.e, b.max.e, env, xs, ys);
    } else if a.max.Fin? {
      var m := Eval(a.max.e, env);
      assert SomeAbove(ys, m);
      var y' :| y' in ys && y' >= m;
      ResultOf(Min, xs, ys, m, y');
    } else if b.max.Fin? {
      var m := Eval(b.max.e, env);
      assert SomeAbove(xs, m);
      var x' :| x' in xs && x' >= m;
      ResultOf(Min, xs, ys, x', m);
    } else {
      forall k ensures SomeAbove(zs, k) {
        assert SomeAbove(xs, k) && SomeAbove(ys, k);
        var x' :| x' in xs && x' >= k;
        var y' :| y' in ys && y' >= k;
        ResultOf(Min, xs, ys, x', y');
      }
    }
  }

  lemma MaxTight(o: Oracle, a: Interval, b: Interval, env: Env, xs: iset<int>, ys: iset<int>)
    requires Honest(o) && Ends(a, env, xs) && Ends(b, env, ys)
    ensures Ends(Interval(MakeMax(o, a.min, b.min), MakeMax(o, a.max, b.max)), env, Results(Max, xs, ys))
  {
    var zs := Results(Max, xs, ys);
    var x := SomeValue(a, env, xs);
    var y := SomeValue(b, env, ys);
    if a.max.Fin? && b.max.Fin? {
      CombineEnds(o, Max, a.max.e, b.max.e, env, xs, ys);
    } else {
      forall k ensures SomeAbove(zs, k) {
        if a.max.PosInf? {
          assert SomeAbove(xs, k);
          var x' :| x' in xs && x' >= k;
          ResultOf(Max, xs, ys, x', y);
        } else {
          assert SomeAbove(ys, k);
          var y' :| y' in ys && y' >= k;
          ResultOf(Max, xs, ys, x, y');
        }
      }
    }
    if a.min.Fin? && b.min.Fin? {
      CombineEnds(o, Max, a.min.e, b.min.e, env, xs, ys);
    } else if a.min.Fin? {
      var m := Eval(a.min.e, env);
      assert SomeBelow(ys, m);
      var y' :| y' in ys && y' <= m;
      ResultOf(Max, xs, ys, m, y');
    } else if b.min.Fin? {
      var m := Eval(b.min.e, env);
      assert SomeBelow(xs, m);
      var x' :| x' in xs && x' <= m;
      ResultOf(Max, xs, ys, x', m);
    } else {
      forall k ensures SomeBelow(zs, k) {
        assert SomeBelow(xs, k) && SomeBelow(ys, k);
        var x' :| x' in xs && x' <= k;
        var y' :| y' in ys && y' <= k;
        ResultOf(Max, xs, ys, x', y');
      }
    }
  }

  lemma ExtremeTight(o: Oracle, e: Expr, a: Interval, b: Interval, env: Env, xs: iset<int>, ys: iset<int>)
    requires Honest(o) && e.Bin? && (e.op == Min || e.op == Max) && Ends(a, env, xs) && Ends(b, env, ys)
    ensures Ends(ExtremeBounds(o, e, a, b), env, Results(e.op, xs, ys))
  {
    if a.IsPointOf(o, e.a) && b.IsPointOf(o, e.b) {
      SelfEnds(o, e, a, b, env, xs, ys);
    }
    hide Ends;
    MinTight(o, a, b, env, xs, ys);
    MaxTight(o, a, b, env, xs, ys);
  }

  // ----- products and quotients -----

  /** Both ends of an interval of corners are corners. */
  lemma CornersTight(o: Oracle, op: BinOp, a1: Expr, a2: Expr, b1: Expr, b2: Expr, env: Env, xs: iset<int>,
                     ys: iset<int>)
    requires Honest(o) && Eval(a1, env) in xs && Eval(a2, env) in xs && Eval(b1, env) in ys && Eval(b2, env) in ys
    ensures Ends(Corners(o, op, a1, a2, b1, b2), env, Results(op, xs, ys))
  {
    var zs := Results(op, xs, ys);
    PointEnds(op, a1, b1, env, xs, ys);
    PointEnds(op, a1, b2, env, xs, ys);
    PointEnds(op, a2, b1, env, xs, ys);
    PointEnds(op, a2, b2, env, xs, ys);
    var e2 := if op == Div then Bin(op, a2, b1) else Bin(op, a1, b2);
    var e3 := if op == Div then Bin(op, a1, b2) else Bin(op, a2, b1);
    var i1 := Include(o, NOTHING, Bin(op, a1, b1));
    var i2 := Include(o, i1, e2);
    hide Results;
    IncludeEnds(o, NOTHING, Bin(op, a1, b1), env, zs);
    IncludeEnds(o, i1, e2, env, zs);
    IncludeEnds(o, i2, e3, env, zs);
    IncludeEnds(o, Include(o, i2, e3), Bin(op, a2, b2), env, zs);
  }

  lemma IncludeEnds(o: Oracle, i: Interval, e: Expr, env: Env, vs: iset<int>)
    requires Honest(o) && Eval(e, env) in vs
    requires i == NOTHING || (Finite(i) && Ends(i, env, vs))
    ensures Finite(Include(o, i, e)) && Ends(Include(o, i, e), env, vs)
  {
    if i != NOTHING {
      CombineMeans(o, Min, i.min.e, e, env);
      CombineMeans(o, Max, i.max.e, e, env);
    }
  }

  /** Values scaled by one factor or divisor go on for ever where they did, on the side its sign decides. */
  lemma ScaledFar(op: BinOp, xs: iset<int>, ys: iset<int>, y: int)
    requires (op == Mul || op == Div) && y in ys && y != 0
    ensures (forall k :: SomeBelow(xs, k)) && y > 0 ==> forall k :: SomeBelow(Results(op, xs, ys), k)
    ensures (forall k :: SomeAbove(xs, k)) && y > 0 ==> forall k :: SomeAbove(Results(op, xs, ys), k)
    ensures (forall k :: SomeBelow(xs, k)) && y < 0 ==> forall k :: SomeAbove(Results(op, xs, ys), k)
    ensures (forall k :: SomeAbove(xs, k)) && y < 0 ==> forall k :: SomeBelow(Results(op, xs, ys), k)
  {
    forall k | forall k' :: SomeBelow(xs, k')
      ensures y > 0 ==> SomeBelow(Results(op, xs, ys), k)
      ensures y < 0 ==> SomeAbove(Results(op, xs, ys), k)
    {
      var far := if op == Mul then -Magnitude(k) else y * k;
      assert SomeBelow(xs, far);
      var x :| x in xs && x <= far;
      ScaledPast(op, x, y, k);
      ResultOf(op, xs, ys, x, y);
    }
    forall k | forall k' :: SomeAbove(xs, k')
      ensures y > 0 ==> SomeAbove(Results(op, xs, ys), k)
      ensures y < 0 ==> SomeBelow(Results(op, xs, ys), k)
    {
      var far := if op == Mul then Magnitude(k) else y * k;
      assert SomeAbove(xs, far);
      var x :| x in xs && x >= far;
      ScaledPast(op, x, y, k);
      ResultOf(op, xs, ys, x, y);
    }
  }

  lemma ScaledPast(op: BinOp, x: int, y: int, k: int)
    requires (op == Mul || op == Div) && y != 0
    ensures op == Mul && x <= -Magnitude(k) ==> if y > 0 then Apply(op, x, y) <= k else Apply(op, x, y) >= k
    ensures op == Mul && x >= Magnitude(k) ==> if y > 0 then Apply(op, x, y) >= k else Apply(op, x, y) <= k
    ensures op == Div && x <= y * k ==> if y > 0 then Apply(op, x, y) <= k else Apply(op, x, y) >= k
    ensures op == Div && x >= y * k ==> if y > 0 then Apply(op, x, y) >= k else Apply(op, x, y) <= k
  {
    if op == Mul {
      TimesPast(x, y);
    } else {
      QuotientPast(x, y, k);
    }
  }

  lemma TimesPast(x: int, y: int)
    requires y != 0
    ensures y > 0 && x >= 0 ==> x * y >= x
    ensures y > 0 && x <= 0 ==> x * y <= x
    ensures y < 0 && x >= 0 ==> x * y <= -x
    ensures y < 0 && x <= 0 ==> x * y >= -x
  {
    if y > 0 {
      MulMonotone(1, y, x);
    } else {
      MulMonotone(1, -y, x);
    }
  }

  lemma QuotientPast(x: int, y: int, k: int)
    requires y != 0
    ensures x <= y * k ==> if y > 0 then Quotient(x, y) <= k else Quotient(x, y) >= k
    ensures x >= y * k ==> if y > 0 then Quotient(x, y) >= k else Quotient(x, y) <= k
  {
    var exact := y * k;
    DivisionIs(exact, y, k, 0);
    assert Quotient(exact, y) == k;
    hide Quotient;
    if x <= exact { QuotientMonotone(x, exact, y); }
    if x >= exact { QuotientMonotone(exact, x, y); }
  }

  lemma ScaleTight(op: BinOp, a: Interval, low: Expr, high: Expr, cmp: BinOp, env: Env, xs: iset<int>, ys: iset<int>)
    requires (op == Mul && cmp == GE) || (op == Div && cmp == GT)
    requires Ends(a, env, xs) && Eval(low, env) in ys && Eval(high, env) in ys
    requires Finite(a) || (low.Imm? && low.n != 0)
    ensures Ends(ScaleBounds(op, a, low, high, cmp), env, Results(op, xs, ys))
  {
    var zs := Results(op, xs, ys);
    if a.min.Fin? {
      PointEnds(op, a.min.e, low, env, xs, ys);
    }
    if a.max.Fin? {
      PointEnds(op, a.max.e, high, env, xs, ys);
    }
    if low.Imm? && low.n != 0 {
      EvalImm(low, env);
      ScaledFar(op, xs, ys, low.n);
      hide Results, SomeBelow, SomeAbove;
    } else {
      var c, e1, e2 := Bin(cmp, low, Zero(Int)), Bin(op, a.min.e, low), Bin(op, a.max.e, high);
      hide Results;
      EvalSelect(c, e1, e2, env);
      EvalSelect(c, e2, e1, env);
    }
  }

  lemma ResultsSwap(xs: iset<int>, ys: iset<int>)
    ensures Results(Mul, xs, ys) == Results(Mul, ys, xs)
  {
    forall z | z in Results(Mul, xs, ys) ensures z in Results(Mul, ys, xs) {
      var x, y :| x in xs && y in ys && z == Apply(Mul, x, y);
      ResultOf(Mul, ys, xs, y, x);
    }
    forall z | z in Results(Mul, ys, xs) ensures z in Results(Mul, xs, ys) {
      var y, x :| y in ys && x in xs && z == Apply(Mul, y, x);
      ResultOf(Mul, xs, ys, x, y);
    }
  }

  lemma TimesTight(o: Oracle, e: Expr, a: Interval, b: Interval, env: Env, xs: iset<int>, ys: iset<int>)
    requires Honest(o) && e.Bin? && e.op == Mul && Ends(a, env, xs) && Ends(b, env, ys)
    ensures if GivesUp(o, e, a, b) then TimesBounds(o, e, a, b) == EVERYTHING
            else Ends(TimesBounds(o, e, a, b), env, Results(Mul, xs, ys))
  {
    ResultsSwap(xs, ys);
    if a.IsPoint(o) && !b.IsPoint(o) {
      TimesOrderedTight(o, e, b, a, env, ys, xs);
    } else {
      TimesOrderedTight(o, e, a, b, env, xs, ys);
    }
    hide Ends, Results, Honest;
  }

  lemma TimesOrderedTight(o: Oracle, e: Expr, a: Interval, b: Interval, env: Env, xs: iset<int>, ys: iset<int>)
    requires Honest(o) && e.Bin? && e.op == Mul && Ends(a, env, xs) && Ends(b, env, ys)
    requires a.IsPoint(o) ==> b.IsPoint(o)
    ensures var r := TimesBounds(o, e, a, b);
            if GivesUp(o, e, a, b) then r == EVERYTHING else Ends(r, env, Results(Mul, xs, ys))
    ensures b.IsPoint(o) && !a.IsPoint(o) ==> TimesBounds(o, e, b, a) == TimesBounds(o, e, a, b)
  {
    if a.IsPointOf(o, e.a) && b.IsPointOf(o, e.b) {
      SelfEnds(o, e, a, b, env, xs, ys);
    } else if a.IsPoint(o) && b.IsPoint(o) && a.min.Fin? && b.min.Fin? {
      PointEnds(Mul, a.min.e, b.min.e, env, xs, ys);
    } else if b.IsPoint(o) && b.min.Fin? {
      if IsZero(b.min.e) {
        var x := SomeValue(a, env, xs);
        ResultOf(Mul, xs, ys, x, 0);
      } else if Finite(a) || b.min.e.Imm? {
        ScaleTight(Mul, a, b.min.e, b.min.e, GE, env, xs, ys);
      }
    } else if Finite(a) && Finite(b) {
      CornersTight(o, Mul, a.min.e, a.max.e, b.min.e, b.max.e, env, xs, ys);
    }
    hide Results, Corners;
  }

  lemma DivideTight(o: Oracle, e: Expr, a: Interval, b: Interval, env: Env, xs: iset<int>, ys: iset<int>)
    requires Honest(o) && e.Bin? && e.op == Div && Ends(a, env, xs) && Ends(b, env, ys)
    ensures if GivesUp(o, e, a, b) then DivideBounds(o, e, a, b) == EVERYTHING
            else Ends(DivideBounds(o, e, a, b), env, Results(Div, xs, ys))
  {
    if Finite(b) {
      if a.IsPointOf(o, e.a) && b.IsPointOf(o, e.b) {
        SelfEnds(o, e, a, b, env, xs, ys);
      } else if o.proves(Bin(EQ, b.min.e, b.max.e)) {
        if Finite(a) || (b.min.e.Imm? && b.min.e.n != 0) {
          ScaleTight(Div, a, b.min.e, b.max.e, GT, env, xs, ys);
        }
      } else if Finite(a) && OneSign(o, b) {
        CornersTight(o, Div, a.min.e, a.max.e, b.min.e, b.max.e, env, xs, ys);
      }
    }
    hide Results, Corners, Ends, Honest;
  }

  // ----- conditions -----

  lemma CompareTight(cmp: BinOp, a: Interval, b: Interval, env: Env, xs: iset<int>, ys: iset<int>)
    requires (cmp == LT || cmp == LE) && Finite(a) && Finite(b) && Ends(a, env, xs) && Ends(b, env, ys)
    ensures Ends(CompareBounds(cmp, a, b), env, Results(cmp, xs, ys))
  {
    PointEnds(cmp, a.max.e, b.min.e, env, xs, ys);
    PointEnds(cmp, a.min.e, b.max.e, env, xs, ys);
    hide Results;
  }

  /** Greater-than is less-than the other way around. */
  lemma ResultsReverse(op: BinOp, xs: iset<int>, ys: iset<int>)
    requires op == GT || op == GE
    ensures Results(op, xs, ys) == Results(if op == GT then LT else LE, ys, xs)
  {
    var back := if op == GT then LT else LE;
    forall z | z in Results(op, xs, ys) ensures z in Results(back, ys, xs) {
      var x, y :| x in xs && y in ys && z == Apply(op, x, y);
      ResultOf(back, ys, xs, y, x);
    }
    forall z | z in Results(back, ys, xs) ensures z in Results(op, xs, ys) {
      var y, x :| y in ys && x in xs && z == Apply(back, y, x);
      ResultOf(op, xs, ys, x, y);
    }
  }

  lemma LogicTight(o: Oracle, e: Expr, a: Interval, b: Interval, env: Env, xs: iset<int>, ys: iset<int>)
    requires Honest(o) && e.Bin? && (e.op == And || e.op == Or) && Finite(a) && Finite(b)
    requires Ends(a, env, xs) && Ends(b, env, ys)
    requires (forall x | x in xs :: IsBit(x)) && (forall y | y in ys :: IsBit(y))
    ensures Ends(LogicBounds(o, e, a, b), env, Results(e.op, xs, ys))
  {
    if a.IsPointOf(o, e.a) && b.IsPointOf(o, e.b) {
      SelfEnds(o, e, a, b, env, xs, ys);
    } else {
      LogicEnd(e.op, a.min.e, b.min.e, env, xs, ys);
      LogicEnd(e.op, a.max.e, b.max.e, env, xs, ys);
      hide *;
      LogicFromEnds(o, e, a, b, env, Results(e.op, xs, ys));
    }
  }

  lemma LogicFromEnds(o: Oracle, e: Expr, a: Interval, b: Interval, env: Env, zs: iset<int>)
    requires e.Bin? && (e.op == And || e.op == Or) && Finite(a) && Finite(b)
    requires !(a.IsPointOf(o, e.a) && b.IsPointOf(o, e.b))
    requires LogicMade(e.op, a.min.e, b.min.e, env, zs) && LogicMade(e.op, a.max.e, b.max.e, env, zs)
    ensures Ends(LogicBounds(o, e, a, b), env, zs)
  {
    hide MakeAnd, MakeOr, Eval;
  }

  ghost predicate LogicMade(op: BinOp, a: Expr, b: Expr, env: Env, zs: iset<int>) {
    Eval(Bin(op, a, b), env) in zs && Eval(if op == And then MakeAnd(a, b) else MakeOr(a, b), env) in zs
  }

  lemma LogicEnd(op: BinOp, a: Expr, b: Expr, env: Env, xs: iset<int>, ys: iset<int>)
    requires (op == And || op == Or) && Eval(a, env) in xs && Eval(b, env) in ys
    requires IsBit(Eval(a, env)) && IsBit(Eval(b, env))
    ensures LogicMade(op, a, b, env, Results(op, xs, ys))
  {
    ResultOf(op, xs, ys, Eval(a, env), Eval(b, env));
    MakeMeans(a, b, env);
    EvalBin(op, a, b, env);
    hide Results, MakeAnd, MakeOr, Eval;
  }

  ghost function Negated(xs: iset<int>): iset<int> {
    iset x | x in xs :: Bit(x == 0)
  }

  lemma NotTight(o: Oracle, e: Expr, a: Interval, env: Env, xs: iset<int>)
    requires Honest(o) && e.Not? && Finite(a) && Ends(a, env, xs) && (forall x | x in xs :: IsBit(x))
    ensures Ends(NotBounds(o, e, a), env, Negated(xs))
  {
    var low, high := Eval(a.min.e, env), Eval(a.max.e, env);
    assert Bit(low == 0) in Negated(xs) && Bit(high == 0) in Negated(xs);
    MakeNotMeans(a.min.e, env);
    MakeNotMeans(a.max.e, env);
  }

  lemma MakeNotMeans(a: Expr, env: Env)
    requires IsBit(Eval(a, env))
    ensures Eval(MakeNot(a), env) == Bit(Eval(a, env) == 0)
  {
  }

  /** The upper end of an equality, and the lower end of an inequality, is its value at some two contained values; the
      other end is too, unless each operand can have one value only. */
  lemma EqualTight(o: Oracle, e: Expr, a: Interval, b: Interval, env: Env, x: int, y: int)
    requires Honest(o) && e.Bin? && (e.op == EQ || e.op == NE) && Contains(a, env, x) && Contains(b, env, y)
    ensures var r, zs := EqualBounds(o, e, a, b), Results(e.op, Inside(a, env), Inside(b, env));
            && (e.op == EQ && Finite(a) && Finite(b) ==> HighEnd(r.max, env, zs))
            && (e.op == NE && Finite(a) && Finite(b) ==> LowEnd(r.min, env, zs))
            && ((exists x', y' :: x' != x && Contains(a, env, x') && Contains(b, env, y')) ==>
                  (e.op == EQ ==> LowEnd(r.min, env, zs)) && (e.op == NE ==> HighEnd(r.max, env, zs)))
  {
    var xs, ys := Inside(a, env), Inside(b, env);
    InsideEnds(a, env, x);
    InsideEnds(b, env, y);
    if a.IsPointOf(o, e.a) && b.IsPointOf(o, e.b) {
      SelfEnds(o, e, a, b, env, xs, ys);
    } else if a.IsPoint(o) && b.IsPoint(o) && a.min.Fin? && b.min.Fin? {
      PointEnds(e.op, a.min.e, b.min.e, env, xs, ys);
    } else {
      EqualRangeTight(e, a, b, env, x, y);
    }
    hide Results;
  }

  lemma EqualRangeTight(e: Expr, a: Interval, b: Interval, env: Env, x: int, y: int)
    requires e.Bin? && (e.op == EQ || e.op == NE) && Contains(a, env, x) && Contains(b, env, y)
    ensures var zs := Results(e.op, Inside(a, env), Inside(b, env));
            && (Finite(a) && Finite(b) ==>
                  && Eval(Bin(And, Bin(LE, a.min.e, b.max.e), Bin(LE, b.min.e, a.max.e)), env)
                       in Results(EQ, Inside(a, env), Inside(b, env))
                  && Eval(Bin(Or, Bin(GT, a.min.e, b.max.e), Bin(GT, b.min.e, a.max.e)), env)
                       in Results(NE, Inside(a, env), Inside(b, env)))
            && ((exists x' :: x' != x && Contains(a, env, x')) ==> (if e.op == EQ then 0 else 1) in zs)
  {
    var xs, ys := Inside(a, env), Inside(b, env);
    if exists x' :: x' != x && Contains(a, env, x') {
      var x' :| x' != x && Contains(a, env, x');
      ResultOf(e.op, xs, ys, x, y);
      ResultOf(e.op, xs, ys, x', y);
    }
    if Finite(a) && Finite(b) {
      OverlapTight(a, b, env, x, y);
    }
    hide Results, Eval, Contains;
  }

  lemma OverlapTight(a: Interval, b: Interval, env: Env, x: int, y: int)
    requires Finite(a) && Finite(b) && Contains(a, env, x) && Contains(b, env, y)
    ensures Eval(Bin(And, Bin(LE, a.min.e, b.max.e), Bin(LE, b.min.e, a.max.e)), env)
              in Results(EQ, Inside(a, env), Inside(b, env))
    ensures Eval(Bin(Or, Bin(GT, a.min.e, b.max.e), Bin(GT, b.min.e, a.max.e)), env)
              in Results(NE, Inside(a, env), Inside(b, env))
  {
    var common := Greater(Eval(a.min.e, env), Eval(b.min.e, env));
    var (x', y') := if Contains(a, env, common) && Contains(b, env, common) then (common, common) else (x, y);
    OverlapIs(a.min.e, a.max.e, b.min.e, b.max.e, env, x', y');
    ResultOf(EQ, Inside(a, env), Inside(b, env), x', y');
    ResultOf(NE, Inside(a, env), Inside(b, env), x', y');
    hide Results, Eval;
  }

  lemma OverlapIs(a1: Expr, a2: Expr, b1: Expr, b2: Expr, env: Env, x: int, y: int)
    requires Eval(a1, env) <= x <= Eval(a2, env) && Eval(b1, env) <= y <= Eval(b2, env)
    requires Greater(Eval(a1, env), Eval(b1, env)) <= Lesser(Eval(a2, env), Eval(b2, env)) ==> x == y
    ensures Eval(Bin(And, Bin(LE, a1, b2), Bin(LE, b1, a2)), env) == Apply(EQ, x, y)
    ensures Eval(Bin(Or, Bin(GT, a1, b2), Bin(GT, b1, a2)), env) == Apply(NE, x, y)
  {
    hide Eval;
    EvalBin(LE, a1, b2, env);
    EvalBin(LE, b1, a2, env);
    EvalBin(GT, a1, b2, env);
    EvalBin(GT, b1, a2, env);
    EvalBin(And, Bin(LE, a1, b2), Bin(LE, b1, a2), env);
    EvalBin(Or, Bin(GT, a1, b2), Bin(GT, b1, a2), env);
  }

  // ----- remainders -----

  ghost predicate IsRemainder(ys: iset<int>, z: int) {
    exists x, y :: y in ys && z == Remainder(x, y)
  }

  ghost function Remainders(ys: iset<int>): iset<int> {
    iset z | IsRemainder(ys, z)
  }

  lemma RemainderOf(ys: iset<int>, x: int, y: int)
    requires y in ys
    ensures Remainder(x, y) in Remainders(ys)
  {
  }

  /** Both ends of the interval of a remainder are remainders of some number by a contained divisor. */
  lemma RemainderTight(o: Oracle, e: Expr, a: Interval, b: Interval, env: Env, y: int)
    requires Honest(o) && e.Bin? && e.op == Mod && Finite(b) && Contains(b, env, y) && y != 0
    requires !a.IsEmpty()
    ensures Ends(RemainderBounds(o, e, a, b), env, Remainders(Inside(b, env)))
  {
    var ys := Inside(b, env);
    var low, high := Eval(b.min.e, env), Eval(b.max.e, env);
    RemainderOf(ys, 0, y);
    if a.IsPointOf(o, e.a) && b.IsPointOf(o, e.b) {
      EvalBin(Mod, e.a, e.b, env);
      RemainderOf(ys, Eval(e.a, env), high);
    } else if a.IsPoint(o) && b.IsPoint(o) && a.min.Fin? {
      EvalBin(Mod, a.min.e, b.min.e, env);
      RemainderOf(ys, Eval(a.min.e, env), low);
    } else {
      var d := if Magnitude(low) <= Magnitude(high) then high else low;
      LastRemainder(d);
      RemainderOf(ys, Magnitude(d) - 1, d);
      if IsPositiveConst(b.min.e) {
        LastRemainder(high);
        RemainderOf(ys, Magnitude(high) - 1, high);
      }
      LargestMeans(b.min.e, b.max.e, env);
    }
    hide Remainders, Remainder, Honest;
  }

  lemma LastRemainder(d: int)
    requires d != 0
    ensures Remainder(Magnitude(d) - 1, d) == Magnitude(d) - 1
  {
    DivisionIs(Magnitude(d) - 1, d, 0, Magnitude(d) - 1);
  }

  lemma LargestMeans(a: Expr, b: Expr, env: Env)
    ensures Eval(Bin(Sub, Bin(Max, Abs(a), Abs(b)), One(Int)), env)
            == Greater(Magnitude(Eval(a, env)), Magnitude(Eval(b, env))) - 1
    ensures Eval(Bin(Sub, b, One(Int)), env) == Eval(b, env) - 1
    ensures Eval(Zero(Int), env) == 0
  {
    EvalImm(One(Int), env);
    EvalImm(Zero(Int), env);
    EvalAbs(a, env);
    EvalAbs(b, env);
    hide Eval;
    EvalBin(Max, Abs(a), Abs(b), env);
    EvalBin(Sub, Bin(Max, Abs(a), Abs(b)), One(Int), env);
    EvalBin(Sub, b, One(Int), env);
  }

  lemma EvalAbs(a: Expr, env: Env)
    ensures Eval(Abs(a), env) == Magnitude(Eval(a, env))
  {
  }

  // ----- every operator -----

  /** The operators whose intervals are exact wherever the visitor does not give up. */
  predicate Exact(op: BinOp) {
    op !in {Mod, EQ, NE}
  }

  /** Both ends of the interval of a node are reached by values that its operands reach, unless the visitor gives up. */
  lemma OperateEnds(o: Oracle, e: Expr, a: Interval, b: Interval, env: Env, xs: iset<int>, ys: iset<int>)
    requires Honest(o) && e.Bin? && Exact(e.op) && Ends(a, env, xs) && Ends(b, env, ys)
    requires e.op == And || e.op == Or ==> (forall x | x in xs :: IsBit(x)) && (forall y | y in ys :: IsBit(y))
    ensures if GivesUp(o, e, a, b) then
              Operate(o, e, a, b) == (if e.op in {LT, LE, GT, GE} then OfType(Bool) else EVERYTHING)
            else Ends(Operate(o, e, a, b), env, Results(e.op, xs, ys))
  {
    hide Eval, Honest, PlusBounds, MinusBounds, TimesBounds, DivideBounds, RemainderBounds, ExtremeBounds, EqualBounds,
      LogicBounds, Results, Ends;
    match e.op
    case Add => PlusTight(o, e, a, b, env, xs, ys);
    case Sub => MinusTight(o, e, a, b, env, xs, ys);
    case Mul => TimesTight(o, e, a, b, env, xs, ys);
    case Div => DivideTight(o, e, a, b, env, xs, ys);
    case Min => ExtremeTight(o, e, a, b, env, xs, ys);
    case Max => ExtremeTight(o, e, a, b, env, xs, ys);
    case And => if Finite(a) && Finite(b) { LogicTight(o, e, a, b, env, xs, ys); }
    case Or => if Finite(a) && Finite(b) { LogicTight(o, e, a, b, env, xs, ys); }
    case LT => if Finite(a) && Finite(b) { CompareTight(LT, a, b, env, xs, ys); }
    case LE => if Finite(a) && Finite(b) { CompareTight(LE, a, b, env, xs, ys); }
    case GT =>
      if Finite(a) && Finite(b) {
        CompareTight(LT, b, a, env, ys, xs);
        ResultsReverse(GT, xs, ys);
      }
    case GE =>
      if Finite(a) && Finite(b) {
        CompareTight(LE, b, a, env, ys, xs);
        ResultsReverse(GE, xs, ys);
      }
  }

  /** In every environment in which the operands' intervals contain anything, both ends of the interval of the node are
      values of the operator at contained operands; an end is infinite only where the values go on for ever, or where
      the visitor gives up. */
  lemma OperateIsTight(o: Oracle, e: Expr, a: Interval, b: Interval, env: Env, x: int, y: int)
    requires Honest(o) && e.Bin? && Exact(e.op) && e.op != And && e.op != Or
    requires Contains(a, env, x) && Contains(b, env, y) && !GivesUp(o, e, a, b)
    ensures Ends(Operate(o, e, a, b), env, Results(e.op, Inside(a, env), Inside(b, env)))
  {
    InsideEnds(a, env, x);
    InsideEnds(b, env, y);
    OperateEnds(o, e, a, b, env, Inside(a, env), Inside(b, env));
    hide *;
  }
}
