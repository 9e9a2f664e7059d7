/** Boxes of intervals and their union under conditions (Bounds.h, merge_boxes in Bounds.cpp). */
module Boxes {
  import opened Wrappers
  import opened BoundsIR
  import opened Intervals
  import opened BoundsSound
  import opened BoundsTheorem

  /** `used` is the condition under which the region may be touched; no condition means always. */
  datatype Box = Box(used: Option<Expr>, bounds: seq<Interval>) {
    predicate IsEmpty() { bounds == [] }
    predicate MaybeUnused() { used.Some? && !IsOne(used.value) }
  }

  const NO_BOX := Box(None, [])

  /** The simplifier, and the solver for one variable of a condition. */
  datatype Tools = Tools(o: Oracle, simplify: Expr -> Expr, solve: (Expr, string) -> Option<Expr>)

  /** What a fully solved condition looks like when it is one of the comparisons the analysis understands. */
  predicate SolvedFor(s: Expr, v: string) {
    s.Bin? && s.op in {LT, LE, GT, GE, EQ} ==> s.a == Var(v, Int) && v !in Free(s.b) && TypeOf(s.b) == Int
  }

  /** Simplifying keeps the value and adds no names; a solved condition is equivalent. */
  ghost predicate Reliable(t: Tools) {
    && Honest(t.o)
    && (forall e, env: Env :: Eval(t.simplify(e), env) == Eval(e, env))
    && (forall e :: Free(t.simplify(e)) <= Free(e))
    && (forall c, v, env: Env | t.solve(c, v).Some? :: Eval(t.solve(c, v).value, env) != 0 <==> Eval(c, env) != 0)
    && (forall c, v | t.solve(c, v).Some? :: SolvedFor(t.solve(c, v).value, v) && Free(t.solve(c, v).value) <= Free(c))
  }

  // ----- merging -----

  function Truth(used: Option<Expr>): Expr {
    if used.Some? then used.value else One(Bool)
  }

  /** One end of one dimension of the union. */
  function MergeEnd(t: Tools, pick: BinOp, a: Expr, b: Expr, usedA: Option<Expr>, usedB: Option<Expr>,
                    maybeA: bool, maybeB: bool, complementary: bool): Expr
    requires pick == Min || pick == Max
  {
    t.simplify(
      if maybeA && maybeB then
        if complementary then Select(Truth(usedA), a, b)
        else Select(Bin(And, Truth(usedA), Truth(usedB)), Combine(t.o, pick, a, b), Select(Truth(usedA), a, b))
      else if maybeA then Select(Truth(usedA), Combine(t.o, pick, a, b), b)
      else if maybeB then Select(Truth(usedB), Combine(t.o, pick, a, b), a)
      else Combine(t.o, pick, a, b))
  }

  predicate Complementary(a: Box, b: Box) {
    && a.MaybeUnused() && b.MaybeUnused()
    && (Truth(a.used) == Not(Truth(b.used)) || Not(Truth(a.used)) == Truth(b.used))
  }

  function MergeSide(t: Tools, a: Box, b: Box, x: Interval, y: Interval): Interval {
    var (ma, mb, c) := (a.MaybeUnused(), b.MaybeUnused(), Complementary(a, b));
    Interval(
      if SameBound(t.o, x.min, y.min) then x.min
      else if x.HasLower() && y.HasLower() && x.min.Fin? && y.min.Fin? then
        Fin(MergeEnd(t, Min, x.min.e, y.min.e, a.used, b.used, ma, mb, c))
      else NegInf,
      if SameBound(t.o, x.max, y.max) then x.max
      else if x.HasUpper() && y.HasUpper() && x.max.Fin? && y.max.Fin? then
        Fin(MergeEnd(t, Max, x.max.e, y.max.e, a.used, b.used, ma, mb, c))
      else PosInf)
  }

  function MergeUsed(t: Tools, a: Box, b: Box): Option<Expr> {
    if a.MaybeUnused() && b.MaybeUnused() then
      if a.used == b.used then a.used
      else
        var either := t.simplify(Bin(Or, Truth(a.used), Truth(b.used)));
        if IsOne(either) then None else Some(either)
    else None
  }

  /** merge_boxes: `a` grown to encompass `b`. */
  function MergeBoxes(t: Tools, a: Box, b: Box): (r: Box)
    requires a.IsEmpty() || b.IsEmpty() || |a.bounds| == |b.bounds|
    ensures |r.bounds| == if a.IsEmpty() then |b.bounds| else |a.bounds|
  {
    if b.IsEmpty() then a
    else if a.IsEmpty() then b
    else Box(MergeUsed(t, a, b),
        seq(|a.bounds|, i requires 0 <= i < |a.bounds| => MergeSide(t, a, b, a.bounds[i], b.bounds[i])))
  }

  // ----- meaning -----

  ghost predicate Holds(used: Option<Expr>, env: Env) {
    Eval(Truth(used), env) != 0
  }

  /** The coordinates are in the box, and its condition is true. */
  ghost predicate InBox(b: Box, env: Env, at: seq<int>) {
    && Holds(b.used, env) && |at| == |b.bounds|
    && forall i | 0 <= i < |at| :: NonEmpty(b.bounds[i]) && Contains(b.bounds[i], env, at[i])
  }

  lemma MergeEndMeans(t: Tools, pick: BinOp, a: Expr, b: Expr, usedA: Option<Expr>, usedB: Option<Expr>,
                      maybeA: bool, maybeB: bool, complementary: bool, env: Env)
    requires (pick == Min || pick == Max) && Reliable(t)
    requires complementary ==> !(Holds(usedA, env) && Holds(usedB, env))
    requires (!maybeA ==> Holds(usedA, env)) && (!maybeB ==> Holds(usedB, env))
    ensures var r := Eval(MergeEnd(t, pick, a, b, usedA, usedB, maybeA, maybeB, complementary), env);
            && (pick == Min && Holds(usedA, env) ==> r <= Eval(a, env))
            && (pick == Min && Holds(usedB, env) ==> r <= Eval(b, env))
            && (pick == Max && Holds(usedA, env) ==> Eval(a, env) <= r)
            && (pick == Max && Holds(usedB, env) ==> Eval(b, env) <= r)
  {
    var ca, cb, both := Truth(usedA), Truth(usedB), Combine(t.o, pick, a, b);
    CombineMeans(t.o, pick, a, b, env);
    EvalBin(And, ca, cb, env);
    hide Eval, Combine;
    EvalSelect(ca, a, b, env);
    EvalSelect(Bin(And, ca, cb), both, Select(ca, a, b), env);
    EvalSelect(ca, both, b, env);
    EvalSelect(cb, both, a, env);
  }

  lemma ComplementaryMeans(a: Box, b: Box, env: Env)
    requires Complementary(a, b)
    ensures !(Holds(a.used, env) && Holds(b.used, env))
  {
  }

  lemma SureHolds(b: Box, env: Env)
    ensures !b.MaybeUnused() ==> Holds(b.used, env)
  {
  }

  /** What is known of the conditions of the two boxes. */
  lemma ConditionsKnown(a: Box, b: Box, env: Env)
    ensures Complementary(a, b) ==> !(Holds(a.used, env) && Holds(b.used, env))
    ensures !a.MaybeUnused() ==> Holds(a.used, env)
    ensures !b.MaybeUnused() ==> Holds(b.used, env)
  {
    if Complementary(a, b) {
      ComplementaryMeans(a, b, env);
    }
    SureHolds(a, env);
    SureHolds(b, env);
    hide Holds;
  }

  lemma MergeSideMeans(t: Tools, a: Box, b: Box, x: Interval, y: Interval, env: Env, at: int)
    requires Reliable(t) && NonEmpty(x) && NonEmpty(y)
    requires (Holds(a.used, env) && Contains(x, env, at)) || (Holds(b.used, env) && Contains(y, env, at))
    ensures var r := MergeSide(t, a, b, x, y); NonEmpty(r) && Contains(r, env, at)
  {
    MergeLow(t, a, b, x, y, env, at);
    MergeHigh(t, a, b, x, y, env, at);
    hide MergeEnd, Complementary, Holds, Reliable, AtLeast, AtMost;
  }

  lemma MergeLow(t: Tools, a: Box, b: Box, x: Interval, y: Interval, env: Env, at: int)
    requires Reliable(t) && NonEmpty(x) && NonEmpty(y)
    requires (Holds(a.used, env) && AtLeast(x.min, env, at)) || (Holds(b.used, env) && AtLeast(y.min, env, at))
    ensures AtLeast(MergeSide(t, a, b, x, y).min, env, at)
  {
    ConditionsKnown(a, b, env);
    SameBoundIsEqual(t.o, x.min, y.min);
    hide Holds, Complementary, MergeEnd, Eval;
    if x.min.Fin? && y.min.Fin? {
      MergeEndMeans(t, Min, x.min.e, y.min.e, a.used, b.used, a.MaybeUnused(), b.MaybeUnused(), Complementary(a, b),
          env);
    }
    hide Reliable;
  }

  lemma MergeHigh(t: Tools, a: Box, b: Box, x: Interval, y: Interval, env: Env, at: int)
    requires Reliable(t) && NonEmpty(x) && NonEmpty(y)
    requires (Holds(a.used, env) && AtMost(x.max, env, at)) || (Holds(b.used, env) && AtMost(y.max, env, at))
    ensures AtMost(MergeSide(t, a, b, x, y).max, env, at)
  {
    ConditionsKnown(a, b, env);
    SameBoundIsEqual(t.o, x.max, y.max);
    hide Holds, Complementary, MergeEnd, Eval;
    if x.max.Fin? && y.max.Fin? {
      MergeEndMeans(t, Max, x.max.e, y.max.e, a.used, b.used, a.MaybeUnused(), b.MaybeUnused(), Complementary(a, b),
          env);
    }
    hide Reliable;
  }

  lemma SameBoundIsEqual(o: Oracle, a: Bound, b: Bound)
    requires Honest(o)
    ensures SameBound(o, a, b) ==> a == b
  {
  }

  lemma MergeUsedMeans(t: Tools, a: Box, b: Box, env: Env)
    requires Reliable(t) && (Holds(a.used, env) || Holds(b.used, env))
    ensures Holds(MergeUsed(t, a, b), env)
  {
    EvalBin(Or, Truth(a.used), Truth(b.used), env);
    SureHolds(a, env);
    SureHolds(b, env);
    EvalImm(One(Bool), env);
  }

  ghost predicate Sane(b: Box) {
    forall i | 0 <= i < |b.bounds| :: NonEmpty(b.bounds[i])
  }

  /** What is in either box is in the union, whichever of the two conditions is the true one. */
  lemma MergeSound(t: Tools, a: Box, b: Box, env: Env, at: seq<int>)
    requires Reliable(t) && Sane(a) && Sane(b) && at != []
    requires a.IsEmpty() || b.IsEmpty() || |a.bounds| == |b.bounds|
    requires InBox(a, env, at) || InBox(b, env, at)
    ensures InBox(MergeBoxes(t, a, b), env, at)
  {
    if !a.IsEmpty() && !b.IsEmpty() {
      hide Reliable, Eval;
      MergeUsedMeans(t, a, b, env);
      hide MergeUsed;
      forall i | 0 <= i < |at|
        ensures NonEmpty(MergeBoxes(t, a, b).bounds[i]) && Contains(MergeBoxes(t, a, b).bounds[i], env, at[i])
      {
        MergeSideMeans(t, a, b, a.bounds[i], b.bounds[i], env, at[i]);
      }
    }
  }

  lemma MergeSane(t: Tools, a: Box, b: Box)
    requires Sane(a) && Sane(b) && (a.IsEmpty() || b.IsEmpty() || |a.bounds| == |b.bounds|)
    ensures Sane(MergeBoxes(t, a, b))
  {
  }

  // ----- names -----

  /** Only names of `k` are free in the bounds, and only names of `conds` in the condition. */
  predicate BoxUses(b: Box, conds: set<string>, k: set<string>) {
    (b.used.Some? ==> Uses(b.used.value, conds)) && forall i | 0 <= i < |b.bounds| :: IntervalUses(b.bounds[i], k)
  }

  lemma UsesSimplified(t: Tools, e: Expr, k: set<string>)
    requires Reliable(t) && Uses(e, k)
    ensures Uses(t.simplify(e), k)
  {
  }

  lemma MergeEndUses(t: Tools, pick: BinOp, a: Expr, b: Expr, usedA: Option<Expr>, usedB: Option<Expr>,
                     maybeA: bool, maybeB: bool, complementary: bool, k: set<string>)
    requires (pick == Min || pick == Max) && Reliable(t) && Uses(a, k) && Uses(b, k) && Uses(Truth(usedA), k)
             && Uses(Truth(usedB), k)
    ensures Uses(MergeEnd(t, pick, a, b, usedA, usedB, maybeA, maybeB, complementary), k)
  {
    var ca, cb, both := Truth(usedA), Truth(usedB), Combine(t.o, pick, a, b);
    var e := if maybeA && maybeB then
               if complementary then Select(ca, a, b) else Select(Bin(And, ca, cb), both, Select(ca, a, b))
             else if maybeA then Select(ca, both, b)
             else if maybeB then Select(cb, both, a)
             else both;
    hide Uses, Truth;
    UsesCombine(t.o, pick, a, b, k);
    UsesBin(And, ca, cb, k);
    UsesSelect(ca, a, b, k);
    UsesSelect(Bin(And, ca, cb), both, Select(ca, a, b), k);
    UsesSelect(ca, both, b, k);
    UsesSelect(cb, both, a, k);
    UsesSimplified(t, e, k);
  }

  lemma MergeUses(t: Tools, a: Box, b: Box, conds: set<string>, k: set<string>)
    requires Reliable(t) && BoxUses(a, conds, k) && BoxUses(b, conds, k) && conds <= k
    requires a.IsEmpty() || b.IsEmpty() || |a.bounds| == |b.bounds|
    ensures BoxUses(MergeBoxes(t, a, b), conds, k)
  {
    var r := MergeBoxes(t, a, b);
    if !a.IsEmpty() && !b.IsEmpty() {
      UsesConstants(conds);
      assert Uses(Truth(a.used), k) && Uses(Truth(b.used), k);
      hide Uses;
      UsesBin(Or, Truth(a.used), Truth(b.used), conds);
      UsesSimplified(t, Bin(Or, Truth(a.used), Truth(b.used)), conds);
      forall i | 0 <= i < |r.bounds| ensures IntervalUses(r.bounds[i], k) {
        MergeSideUses(t, a, b, a.bounds[i], b.bounds[i], k);
      }
      hide MergeSide;
    }
  }

  lemma MergeSideUses(t: Tools, a: Box, b: Box, x: Interval, y: Interval, k: set<string>)
    requires Reliable(t) && Uses(Truth(a.used), k) && Uses(Truth(b.used), k) && IntervalUses(x, k) && IntervalUses(y, k)
    ensures IntervalUses(MergeSide(t, a, b, x, y), k)
  {
    hide Uses, Reliable, Truth, MergeEnd;
    if x.min.Fin? && y.min.Fin? {
      MergeEndUses(t, Min, x.min.e, y.min.e, a.used, b.used, a.MaybeUnused(), b.MaybeUnused(), Complementary(a, b), k);
    }
    if x.max.Fin? && y.max.Fin? {
      MergeEndUses(t, Max, x.max.e, y.max.e, a.used, b.used, a.MaybeUnused(), b.MaybeUnused(), Complementary(a, b), k);
    }
    hide Complementary;
  }
}
