/** What narrows a box is exact (Bounds.cpp): the union of two boxes is the smallest one under their conditions, a loop
    variable takes only values that some iteration takes, and a condition leaves of an interval exactly what can meet
    it. */
module BoxesTight {
  import opened Wrappers
  import opened BoundsIR
  import opened Intervals
  import opened BoundsExpr
  import opened BoundsSound
  import opened BoundsTheorem
  import opened BoundsTight
  import opened BoundsExact
  import opened Boxes
  import opened BoxesTouched

  // ----- unions -----

  /** One end is the greater or the smaller of the ends of those boxes that apply. */
  ghost predicate LowestOf(r: Bound, a: Bound, b: Bound, ifA: bool, ifB: bool, env: Env) {
    forall x :: AtLeast(r, env, x) <==> (ifA && AtLeast(a, env, x)) || (ifB && AtLeast(b, env, x))
  }

  ghost predicate HighestOf(r: Bound, a: Bound, b: Bound, ifA: bool, ifB: bool, env: Env) {
    forall x :: AtMost(r, env, x) <==> (ifA && AtMost(a, env, x)) || (ifB && AtMost(b, env, x))
  }

  /** The value of an end of the union: that of the boxes that apply. */
  ghost function Farthest(pick: BinOp, a: int, b: int, ifA: bool, ifB: bool): int {
    if !ifB then a else if !ifA then b else Apply(pick, a, b)
  }

  lemma MergeEndExactly(t: Tools, pick: BinOp, a: Expr, b: Expr, usedA: Option<Expr>, usedB: Option<Expr>,
                        maybeA: bool, maybeB: bool, complementary: bool, env: Env)
    requires (pick == Min || pick == Max) && Reliable(t) && (Holds(usedA, env) || Holds(usedB, env))
    requires complementary ==> !(Holds(usedA, env) && Holds(usedB, env))
    requires (!maybeA ==> Holds(usedA, env)) && (!maybeB ==> Holds(usedB, env))
    ensures Eval(MergeEnd(t, pick, a, b, usedA, usedB, maybeA, maybeB, complementary), env)
            == Farthest(pick, Eval(a, env), Eval(b, env), Holds(usedA, env), Holds(usedB, env))
  {
    var ca, cb, both := Truth(usedA), Truth(usedB), Combine(t.o, pick, a, b);
    CombineMeans(t.o, pick, a, b, env);
    EvalBin(And, ca, cb, env);
    hide Eval, Combine;
    EvalSelect(ca, a, b, env);
    EvalSelect(Bin(And, ca, cb), both, Select(ca, a, b), env);
    EvalSelect(ca, both, b, env);
    EvalSelect(cb, both, a, env);
  }

  /** An end is finite in a union only if it is in both intervals. */
  ghost predicate BothLow(t: Tools, x: Interval, y: Interval) {
    (x.min.Fin? && y.min.Fin?) || SameBound(t.o, x.min, y.min)
  }

  ghost predicate BothHigh(t: Tools, x: Interval, y: Interval) {
    (x.max.Fin? && y.max.Fin?) || SameBound(t.o, x.max, y.max)
  }

  lemma LowExactly(t: Tools, a: Box, b: Box, x: Interval, y: Interval, env: Env)
    requires Reliable(t) && NonEmpty(x) && NonEmpty(y) && (Holds(a.used, env) || Holds(b.used, env))
    ensures var r := MergeSide(t, a, b, x, y).min;
            if BothLow(t, x, y) then LowestOf(r, x.min, y.min, Holds(a.used, env), Holds(b.used, env), env)
            else r == NegInf
  {
    ConditionsKnown(a, b, env);
    SameBoundIsEqual(t.o, x.min, y.min);
    hide Holds, Complementary, MergeEnd, Eval;
    if x.min.Fin? && y.min.Fin? {
      MergeEndExactly(t, Min, x.min.e, y.min.e, a.used, b.used, a.MaybeUnused(), b.MaybeUnused(), Complementary(a, b),
                      env);
    }
    hide Reliable;
  }

  lemma HighExactly(t: Tools, a: Box, b: Box, x: Interval, y: Interval, env: Env)
    requires Reliable(t) && NonEmpty(x) && NonEmpty(y) && (Holds(a.used, env) || Holds(b.used, env))
    ensures var r := MergeSide(t, a, b, x, y).max;
            if BothHigh(t, x, y) then HighestOf(r, x.max, y.max, Holds(a.used, env), Holds(b.used, env), env)
            else r == PosInf
  {
    ConditionsKnown(a, b, env);
    SameBoundIsEqual(t.o, x.max, y.max);
    hide Holds, Complementary, MergeEnd, Eval;
    if x.max.Fin? && y.max.Fin? {
      MergeEndExactly(t, Max, x.max.e, y.max.e, a.used, b.used, a.MaybeUnused(), b.MaybeUnused(), Complementary(a, b),
                      env);
    }
    hide Reliable;
  }

  /** Every end of one dimension of a union is the farthest end of those boxes that apply. */
  ghost predicate SideIs(t: Tools, r: Interval, x: Interval, y: Interval, ifA: bool, ifB: bool, env: Env) {
    && (if BothLow(t, x, y) then LowestOf(r.min, x.min, y.min, ifA, ifB, env) else r.min == NegInf)
    && (if BothHigh(t, x, y) then HighestOf(r.max, x.max, y.max, ifA, ifB, env) else r.max == PosInf)
  }

  /** The union of two boxes applies exactly where one of them does, and every end of it is the farthest end of those
      boxes that apply. */
  lemma UnionExactly(t: Tools, a: Box, b: Box, env: Env)
    requires Reliable(t) && Sane(a) && Sane(b) && !a.IsEmpty() && |a.bounds| == |b.bounds|
    ensures var r, ifA, ifB := MergeBoxes(t, a, b), Holds(a.used, env), Holds(b.used, env);
            && (Holds(r.used, env) <==> ifA || ifB)
            && (ifA || ifB ==>
                  forall i | 0 <= i < |a.bounds| :: SideIs(t, r.bounds[i], a.bounds[i], b.bounds[i], ifA, ifB, env))
  {
    UsedExactly(t, a, b, env);
    if Holds(a.used, env) || Holds(b.used, env) {
      forall i | 0 <= i < |a.bounds|
        ensures SideIs(t, MergeBoxes(t, a, b).bounds[i], a.bounds[i], b.bounds[i], Holds(a.used, env),
                       Holds(b.used, env), env)
      {
        LowExactly(t, a, b, a.bounds[i], b.bounds[i], env);
        HighExactly(t, a, b, a.bounds[i], b.bounds[i], env);
        hide LowestOf, HighestOf;
      }
    }
    hide Holds, MergeUsed, MergeSide, SideIs, BothLow, BothHigh, Reliable;
  }

  lemma UsedExactly(t: Tools, a: Box, b: Box, env: Env)
    requires Reliable(t)
    ensures Holds(MergeUsed(t, a, b), env) <==> Holds(a.used, env) || Holds(b.used, env)
  {
    var both := Bin(Or, Truth(a.used), Truth(b.used));
    var either := t.simplify(both);
    EvalBin(Or, Truth(a.used), Truth(b.used), env);
    assert Eval(either, env) == Eval(both, env);
    if IsOne(either) {
      EvalImm(either, env);
    }
    SureHolds(a, env);
    SureHolds(b, env);
    EvalImm(One(Bool), env);
    hide Eval, Reliable;
  }

  // ----- provides -----

  /** Every index can be analysed where it stands, uses each variable in scope once, and makes no visitor give up. */
  ghost predicate IndicesOnce(o: Oracle, args: seq<Expr>, scope: Scope, types: Types, n: nat, used: set<string>) {
    args != [] ==>
      && Placed(o, args[0], scope, types, n, used) && Committed(o, args[0], scope, n) && ReadOnce(args[0], scope.Keys)
      && IndicesOnce(o, args[1..], scope, types, BoundsOf(o, args[0], scope, n).1, used)
  }

  /** Both ends of every dimension of the box of a provide are values that its index takes. */
  lemma {:induction false} IndicesAreExact(o: Oracle, args: seq<Expr>, scope: Scope, types: Types, n: nat,
                                           used: set<string>, env: Env, i: nat)
    requires IndicesOnce(o, args, scope, types, n, used) && Populated(scope, types, env) && i < |args|
    ensures var b := ArgBounds(o, args, scope, n).0;
            |b| == |args| && Ends(b[i], env, Values(args[i], Everyone(scope, types, env), env))
    decreases |args|
  {
    hide Placed, Committed, ReadOnce, Populated, Ends, Values, Everyone, BoundsOf;
    BoundsAreExact(o, args[0], scope, types, n, used, env);
    var n1 := BoundsOf(o, args[0], scope, n).1;
    assert ArgBounds(o, args, scope, n).0 == [BoundsOf(o, args[0], scope, n).0] + ArgBounds(o, args[1..], scope, n1).0;
    if i > 0 {
      IndicesAreExact(o, args[1..], scope, types, n1, used, env, i - 1);
    } else if |args| > 1 {
      IndicesAreExact(o, args[1..], scope, types, n1, used, env, 0);
    }
  }

  // ----- loops -----

  ghost predicate AfterStart(start: Interval, env: Env, k: int) {
    exists s :: Contains(start, env, s) && s <= k
  }

  ghost predicate BeforeEnd(start: Interval, extent: Interval, env: Env, k: int) {
    exists s, n :: Contains(start, env, s) && Contains(extent, env, n) && k < s + n
  }

  /** Without a range that is known from elsewhere, a loop variable is covered from the first start that is possible to
      the last iteration of a start and an extent that are possible, and no further. The bounds of the start are found
      twice. */
  lemma LoopExactly(t: Tools, s: Stmt, scope: Scope, n: nat, env: Env, start: int, again: int, extent: int, k: int)
    requires s.For? && s.v + ".loop_min" !in scope && s.v + ".loop_max" !in scope
    requires LoopInterval(t.o, s, scope, n).Some?
    requires var (first, n1) := BoundsOf(t.o, s.min, scope, n);
             var (length, n2) := BoundsOf(t.o, s.extent, scope, n1);
             var (second, _) := BoundsOf(t.o, s.min, scope, n2);
             Contains(first, env, start) && Contains(length, env, extent) && Contains(second, env, again)
    ensures var (first, n1) := BoundsOf(t.o, s.min, scope, n);
            var (length, n2) := BoundsOf(t.o, s.extent, scope, n1);
            var (second, _) := BoundsOf(t.o, s.min, scope, n2);
            Contains(LoopInterval(t.o, s, scope, n).value.0, env, k)
            <==> AfterStart(first, env, k) && BeforeEnd(second, length, env, k)
  {
    var (first, n1) := BoundsOf(t.o, s.min, scope, n);
    var (length, n2) := BoundsOf(t.o, s.extent, scope, n1);
    var (second, _) := BoundsOf(t.o, s.min, scope, n2);
    StartExactly(first, env, start, k);
    EndExactly(second, length, env, again, extent, k);
    hide BoundsOf, Eval, AfterStart, BeforeEnd;
  }

  lemma StartExactly(i: Interval, env: Env, x: int, k: int)
    requires Contains(i, env, x)
    ensures AtLeast(i.min, env, k) <==> AfterStart(i, env, k)
  {
    if AtLeast(i.min, env, k) {
      assert Contains(i, env, Lesser(x, k));
    }
    hide Eval;
  }

  lemma EndExactly(start: Interval, extent: Interval, env: Env, s: int, n: int, k: int)
    requires Contains(start, env, s) && Contains(extent, env, n) && LoopEnd(extent.max, start.max).Some?
    ensures AtMost(LoopEnd(extent.max, start.max).value, env, k) <==> BeforeEnd(start, extent, env, k)
  {
    var high, long := Eval(start.max.e, env), Eval(extent.max.e, env);
    var total := Bin(Add, extent.max.e, start.max.e);
    EvalBin(Add, extent.max.e, start.max.e, env);
    EvalImm(One(Int), env);
    EvalBin(Sub, total, One(Int), env);
    assert Contains(start, env, high) && Contains(extent, env, long);
    hide Eval;
    if k < high + long {
      assert BeforeEnd(start, extent, env, k);
    }
  }

  // ----- conditions -----

  /** The comparison holds of `x` and some value of the other side. */
  ghost predicate Meets(op: BinOp, x: int, rhs: Interval, env: Env) {
    exists y :: Contains(rhs, env, y) && Apply(op, x, y) != 0
  }

  predicate BoundsAbove(op: BinOp) { op in {LT, LE, EQ} }
  predicate BoundsBelow(op: BinOp) { op in {GT, GE, EQ} }

  /** An end is trimmed only where it is finite, and that of the other side of the comparison is too. */
  predicate TrimsHigh(op: BinOp, i: Interval, rhs: Interval) {
    BoundsAbove(op) && i.max.Fin? && rhs.max.Fin?
  }

  predicate TrimsLow(op: BinOp, i: Interval, rhs: Interval) {
    BoundsBelow(op) && i.min.Fin? && rhs.min.Fin?
  }

  /** The comparison as it limits one end. */
  function AsUpper(op: BinOp): BinOp { if op == EQ then LE else op }
  function AsLower(op: BinOp): BinOp { if op == EQ then GE else op }

  /** What is left of an interval: each end that can be trimmed to the values that meet the comparison is, and others
      stay. */
  ghost predicate TrimmedTo(op: BinOp, i: Interval, rhs: Interval, r: Interval, env: Env) {
    && (if TrimsHigh(op, i, rhs) then
          forall x :: AtMost(r.max, env, x) <==> AtMost(i.max, env, x) && Meets(AsUpper(op), x, rhs, env)
        else r.max == i.max)
    && (if TrimsLow(op, i, rhs) then
          forall x :: AtLeast(r.min, env, x) <==> AtLeast(i.min, env, x) && Meets(AsLower(op), x, rhs, env)
        else r.min == i.min)
  }

  lemma UpperMeets(op: BinOp, x: int, rhs: Interval, env: Env, y: int)
    requires (op == LT || op == LE) && Contains(rhs, env, y) && rhs.max.Fin?
    ensures Meets(op, x, rhs, env) <==> x <= Eval(rhs.max.e, env) - Bit(op == LT)
  {
    assert Contains(rhs, env, Eval(rhs.max.e, env));
    hide Eval;
  }

  lemma LowerMeets(op: BinOp, x: int, rhs: Interval, env: Env, y: int)
    requires (op == GT || op == GE) && Contains(rhs, env, y) && rhs.min.Fin?
    ensures Meets(op, x, rhs, env) <==> x >= Eval(rhs.min.e, env) + Bit(op == GT)
  {
    assert Contains(rhs, env, Eval(rhs.min.e, env));
    hide Eval;
  }

  lemma RestrictExactly(op: BinOp, i: Interval, rhs: Interval, env: Env, y: int)
    requires op in {LT, LE, GT, GE, EQ} && NonEmpty(i) && Contains(rhs, env, y)
    ensures TrimmedTo(op, i, rhs, Restrict(op, i, rhs), env)
  {
    EvalImm(One(Int), env);
    if TrimsHigh(op, i, rhs) {
      var high := if op == LT then Bin(Sub, rhs.max.e, One(Int)) else rhs.max.e;
      EvalBin(Sub, rhs.max.e, One(Int), env);
      EvalBin(Min, i.max.e, high, env);
      forall x ensures Meets(AsUpper(op), x, rhs, env) <==> x <= Eval(high, env) {
        UpperMeets(AsUpper(op), x, rhs, env, y);
      }
    }
    if TrimsLow(op, i, rhs) {
      var low := if op == GT then Bin(Add, rhs.min.e, One(Int)) else rhs.min.e;
      EvalBin(Add, rhs.min.e, One(Int), env);
      EvalBin(Max, i.min.e, low, env);
      forall x ensures Meets(AsLower(op), x, rhs, env) <==> x >= Eval(low, env) {
        LowerMeets(AsLower(op), x, rhs, env, y);
      }
    }
    hide Eval, Meets;
  }

  /** Where all ends are finite, what is left is exactly what can meet the comparison. */
  lemma RestrictedMeet(op: BinOp, i: Interval, rhs: Interval, env: Env, x: int, y: int)
    requires op in {LT, LE, GT, GE, EQ} && NonEmpty(i) && Contains(rhs, env, y)
    requires (BoundsAbove(op) ==> i.max.Fin? && rhs.max.Fin?) && (BoundsBelow(op) ==> i.min.Fin? && rhs.min.Fin?)
    ensures Contains(Restrict(op, i, rhs), env, x) <==> Contains(i, env, x) && Meets(op, x, rhs, env)
  {
    RestrictExactly(op, i, rhs, env, y);
    if op == EQ {
      UpperMeets(LE, x, rhs, env, y);
      LowerMeets(GE, x, rhs, env, y);
      assert Meets(EQ, x, rhs, env) <==> Contains(rhs, env, x);
    }
    hide Eval, Restrict;
  }

  // ----- what a branch is analysed under -----

  predicate Solvable(t: Tools, cond: Expr, v: string) {
    t.solve(cond, v).Some? && Understood(t.solve(cond, v).value)
  }

  /** The interval that a condition leaves of that of a variable: trimmed by the other side of what the condition says
      of the variable, whichever new names its bounds have. */
  ghost predicate Narrowed(t: Tools, cond: Expr, v: string, scope: Scope, r: Interval) {
    v in scope && Solvable(t, cond, v)
    && exists n: nat ::
      NarrowedBy(t.solve(cond, v).value.op, scope[v], BoundsOf(t.o, t.solve(cond, v).value.b, scope, n).0, r)
  }

  ghost predicate NarrowedBy(op: BinOp, i: Interval, rhs: Interval, r: Interval) {
    forall env: Env, y | Contains(rhs, env, y) :: TrimmedTo(op, i, rhs, r, env)
  }

  /** The variables in scope that the condition can be solved for are narrowed by it, and no others. */
  ghost predicate ScopeNarrowed(t: Tools, cond: Expr, vars: seq<string>, scope: Scope, scope': Scope) {
    && scope'.Keys == scope.Keys
    && forall v | v in scope ::
      if v in vars && Solvable(t, cond, v) then Narrowed(t, cond, v, scope, scope'[v]) else scope'[v] == scope[v]
  }

  ghost predicate IsNarrowing(t: Tools, cond: Expr, scope: Scope, p: Push) {
    p.Given? && Narrowed(t, cond, p.v, scope, p.i)
  }

  /** No let reads the variable. */
  predicate Independent(lets: Lets, v: string) {
    forall k | 0 <= k < |lets| :: v !in VarNames(lets[k].1)
  }

  /** A narrowed variable has its own push, and without lets there is nothing else. */
  lemma {:induction false} GivensExactly(t: Tools, cond: Expr, vars: seq<string>, scope: Scope, lets: Lets, n: nat)
    requires forall v | v in scope :: NonEmpty(scope[v])
    requires forall v | v in vars :: Independent(lets, v)
    ensures var pushes := Restrictions(t, cond, vars, scope, lets, n).0;
            && (forall p | p in pushes :: p.Given? && IsNarrowing(t, cond, scope, p) && p.v in vars)
            && (forall v | v in vars && v in scope && Solvable(t, cond, v) ::
                  exists p :: p in pushes && p.Given? && p.v == v)
    decreases |vars|
  {
    if vars != [] {
      var v := vars[0];
      if v in scope && Solvable(t, cond, v) {
        var solved := t.solve(cond, v).value;
        var (rhs, n1) := BoundsOf(t.o, solved.b, scope, n);
        OneNarrowed(t, cond, v, scope, n);
        NoDependents(lets, v, 0);
        GivensExactly(t, cond, vars[1..], scope, lets, n1);
        var rest := Restrictions(t, cond, vars[1..], scope, lets, n1).0;
        var first := Given(v, Restrict(solved.op, scope[v], rhs));
        assert Restrictions(t, cond, vars, scope, lets, n).0 == [first] + rest;
        assert first in [first] + rest;
      } else {
        GivensExactly(t, cond, vars[1..], scope, lets, n);
      }
      hide Narrowed, BoundsOf, Solvable, Restrict, Independent, Dependents;
    }
  }

  lemma OneNarrowed(t: Tools, cond: Expr, v: string, scope: Scope, n: nat)
    requires v in scope && Solvable(t, cond, v) && NonEmpty(scope[v])
    ensures var solved := t.solve(cond, v).value;
            Narrowed(t, cond, v, scope, Restrict(solved.op, scope[v], BoundsOf(t.o, solved.b, scope, n).0))
  {
    var solved := t.solve(cond, v).value;
    var rhs := BoundsOf(t.o, solved.b, scope, n).0;
    forall env: Env, y | Contains(rhs, env, y)
      ensures TrimmedTo(solved.op, scope[v], rhs, Restrict(solved.op, scope[v], rhs), env)
    {
      RestrictExactly(solved.op, scope[v], rhs, env, y);
    }
    assert NarrowedBy(solved.op, scope[v], BoundsOf(t.o, solved.b, scope, n).0, Restrict(solved.op, scope[v], rhs));
    hide BoundsOf, Restrict, TrimmedTo, NarrowedBy;
  }

  lemma {:induction false} NoDependents(lets: Lets, v: string, k: nat)
    requires k <= |lets| && Independent(lets, v)
    ensures Dependents(lets, v, k) == []
    decreases |lets| - k
  {
    if k < |lets| {
      NoDependents(lets, v, k + 1);
    }
  }

  /** The branch is visited in the scope that all pushes make. */
  lemma {:induction false} GivensPushed(t: Tools, cond: Expr, vars: seq<string>, s: Stmt, pushes: seq<Push>, all: Scope,
                                        scope: Scope, lets: Lets, boxes: Map, n: nat) returns (inner: Scope)
    requires forall p | p in pushes :: p.Given? && IsNarrowing(t, cond, all, p) && p.v in vars
    requires scope.Keys == all.Keys
    requires forall v | v in scope && !(exists p :: p in pushes && p.Given? && p.v == v) ::
      if v in vars && Solvable(t, cond, v) then Narrowed(t, cond, v, all, scope[v]) else scope[v] == all[v]
    ensures Trimmed(t, s, pushes, scope, lets, boxes, n) == BoxesOf(t, s, inner, lets, boxes, n)
    ensures ScopeNarrowed(t, cond, vars, all, inner)
    decreases |pushes|
  {
    hide Solvable, BoxesOf;
    if pushes == [] {
      inner := scope;
      hide Narrowed;
    } else {
      var p := pushes[0];
      assert p in pushes && p.v in scope && Solvable(t, cond, p.v);
      hide Narrowed;
      var scope' := scope[p.v := p.i];
      forall v | v in scope' && !(exists p' :: p' in pushes[1..] && p'.Given? && p'.v == v)
        ensures if v in vars && Solvable(t, cond, v) then Narrowed(t, cond, v, all, scope'[v]) else scope'[v] == all[v]
      {
        if v != p.v {
          assert forall p' | p' in pushes :: p' == p || p' in pushes[1..];
        }
      }
      inner := GivensPushed(t, cond, vars, s, pushes[1..], all, scope', lets, boxes, n);
    }
  }

  /** The branch of a condition on variables in scope, without another branch, is analysed in a scope in which exactly
      the variables that the condition can be solved for are narrowed, each to what can meet the condition; for a
      condition that no enclosing let depends on. */
  lemma GuardNarrows(t: Tools, c: Expr, a: Stmt, scope: Scope, lets: Lets, boxes: Map, n: nat)
    returns (inner: Scope, n': nat)
    requires UsesScope(c, scope) && forall v | v in scope :: NonEmpty(scope[v])
    requires forall v | v in Occurrences(c) :: Independent(lets, v)
    ensures BoxesOf(t, IfThenElse(c, a, NoOp), scope, lets, boxes, n) == BoxesOf(t, a, inner, lets, boxes, n')
    ensures ScopeNarrowed(t, c, Occurrences(c), scope, inner)
  {
    var (pushes, m) := Restrictions(t, c, Occurrences(c), scope, lets, n);
    n' := m;
    assert BoxesOf(t, IfThenElse(c, a, NoOp), scope, lets, boxes, n) == Trimmed(t, a, pushes, scope, lets, boxes, m);
    GivensExactly(t, c, Occurrences(c), scope, lets, n);
    inner := GivensPushed(t, c, Occurrences(c), a, pushes, scope, scope, lets, boxes, n');
    hide Restrictions, ScopeNarrowed, IsNarrowing, Narrowed, Trimmed, BoxesOf, Independent, Solvable;
  }

  // ----- lets that depend on a trimmed variable -----

  /** The value of the let reads the variable. */
  predicate Reads(lets: Lets, v: string, k: nat)
    requires k < |lets|
  {
    v in VarNames(lets[k].1) && v != lets[k].0
  }

  /** Lets, each reading the one before, the first reading the variable. */
  predicate Chain(lets: Lets, v: string, start: nat, c: seq<nat>)
    decreases |c|
  {
    c != [] ==> start <= c[0] < |lets| && Reads(lets, v, c[0]) && Chain(lets, lets[c[0]].0, c[0] + 1, c[1..])
  }

  ghost predicate Depends(lets: Lets, v: string, start: nat, k: nat) {
    exists c: seq<nat> :: c != [] && c[|c| - 1] == k && Chain(lets, v, start, c)
  }

  /** A chain starts later, or with this let. */
  lemma DependsStep(lets: Lets, v: string, start: nat, k: nat)
    requires start < |lets|
    ensures Depends(lets, v, start, k)
            <==> Depends(lets, v, start + 1, k)
                 || (Reads(lets, v, start) && (k == start || Depends(lets, lets[start].0, start + 1, k)))
  {
    var u := lets[start].0;
    if Depends(lets, v, start, k) {
      var c: seq<nat> :| c != [] && c[|c| - 1] == k && Chain(lets, v, start, c);
      if c[0] > start {
        assert Chain(lets, v, start + 1, c);
      } else if |c| > 1 {
        assert c[1..][|c[1..]| - 1] == k && Chain(lets, u, start + 1, c[1..]);
      }
    }
    if Depends(lets, v, start + 1, k) {
      var c: seq<nat> :| c != [] && c[|c| - 1] == k && Chain(lets, v, start + 1, c);
      assert Chain(lets, v, start, c);
    }
    if Reads(lets, v, start) {
      ChainGrows(lets, v, start, []);
      if Depends(lets, u, start + 1, k) {
        var c: seq<nat> :| c != [] && c[|c| - 1] == k && Chain(lets, u, start + 1, c);
        ChainGrows(lets, v, start, c);
      }
    }
    hide Reads;
  }

  lemma ChainGrows(lets: Lets, v: string, start: nat, c: seq<nat>)
    requires start < |lets| && Reads(lets, v, start) && Chain(lets, lets[start].0, start + 1, c)
    ensures Depends(lets, v, start, if c == [] then start else c[|c| - 1])
  {
    var more := [start] + c;
    assert more[1..] == c;
    assert Chain(lets, v, start, more);
  }

  lemma DependentsStep(lets: Lets, v: string, start: nat, k: nat)
    requires start < |lets|
    ensures Dependent(k) in Dependents(lets, v, start)
            <==> Dependent(k) in Dependents(lets, v, start + 1)
                 || (&& Reads(lets, v, start)
                     && (k == start || Dependent(k) in Dependents(lets, lets[start].0, start + 1)))
  {
    var later, own := Dependents(lets, v, start + 1), Dependents(lets, lets[start].0, start + 1);
    assert Dependents(lets, v, start) == (if Reads(lets, v, start) then [Dependent(start)] + own else []) + later;
    hide Dependents;
  }

  lemma NothingDepends(lets: Lets, v: string, k: nat)
    ensures Dependents(lets, v, |lets|) == [] && !Depends(lets, v, |lets|, k)
  {
  }

  /** Exactly the lets that depend on the variable through some chain of lets are trimmed with it. */
  lemma {:induction false} DependentsExactly(lets: Lets, v: string, start: nat, k: nat)
    requires start <= |lets|
    ensures Dependent(k) in Dependents(lets, v, start) <==> Depends(lets, v, start, k)
    decreases |lets| - start
  {
    hide Depends, Dependents, Reads;
    if start < |lets| {
      DependentsStep(lets, v, start, k);
      DependsStep(lets, v, start, k);
      DependentsExactly(lets, v, start + 1, k);
      DependentsExactly(lets, lets[start].0, start + 1, k);
    } else {
      NothingDepends(lets, v, k);
    }
  }

  /** The names of a trimmed let are bound to exactly what both its trimmed value and the old interval allow. */
  lemma LetTrimmedExactly(t: Tools, i: Interval, known: Interval, env: Env, x: int)
    requires Reliable(t) && Finite(i) && Finite(known)
    ensures Eval(TrimmedLow(t, i, known), env) <= x <= Eval(TrimmedHigh(t, i, known), env)
            <==> Contains(i, env, x) && Contains(known, env, x)
  {
    var low, high := Bin(Max, i.min.e, known.min.e), Bin(Min, i.max.e, known.max.e);
    EvalBin(Max, i.min.e, known.min.e, env);
    EvalBin(Min, i.max.e, known.max.e, env);
    assert Eval(t.simplify(low), env) == Eval(low, env) && Eval(t.simplify(high), env) == Eval(high, env);
    hide Eval;
  }
}
