/** Where BoxesTouched stops with an error, and where the boxes it finds are too small. */
module BoxesLimits {
  import opened Wrappers
  import opened BoundsIR
  import opened Intervals
  import opened BoundsExpr
  import opened BoundsSound
  import opened BoundsTheorem
  import opened Boxes
  import opened BoxesTouched
  import opened BoxesKeep

  // ----- arithmetic on infinities -----

  /** Arithmetic that the pass does on bounds: the end of a loop, and the bounds of a let whose scope was trimmed, if a
      box uses their names. */
  datatype Sum = LoopSum(extent: Bound, start: Bound) | TrimSum(used: bool, value: Interval, known: Interval)

  predicate Refused(s: Sum) {
    match s
    case LoopSum(extent, start) => !extent.Fin? || !start.Fin?
    case TrimSum(used, value, known) => used && !Matching(value, known)
  }

  ghost predicate SomeRefused(sums: set<Sum>) {
    exists p :: p in sums && Refused(p)
  }

  /** What the pass computes on its way through a statement, up to where it stops. */
  function Sums(t: Tools, s: Stmt, scope: Scope, lets: Lets, boxes: Map, n: nat): set<Sum>
    decreases s, 1, 0
  {
    match s
    case NoOp => {}
    case Provide(_, _) => {}
    case Block(a, b) =>
      var r := BoxesOf(t, a, scope, lets, boxes, n);
      Sums(t, a, scope, lets, boxes, n)
      + if r.Some? then Sums(t, b, scope, lets, r.value.0, r.value.1) else {}
    case For(v, _, _, body) =>
      var r := LoopInterval(t.o, s, scope, n);
      LoopSums(t.o, s, scope, n)
      + if r.Some? then Sums(t, body, scope[v := r.value.0], lets, boxes, r.value.1) else {}
    case LetStmt(v, x, body) =>
      var (value, n1) := BoundsOf(t.o, x, scope, n);
      if KeptSmall(t, value) then Sums(t, body, scope[v := Simplified(t, value)], lets + [(v, x)], boxes, n1)
      else Sums(t, body, scope[v := NamedFor(t, x, n1)], lets + [(v, x)], boxes, n1 + 2)
    case IfThenElse(c, a, b) =>
      if UsesScope(c, scope) && b.NoOp? then
        var (pushes, n1) := Restrictions(t, c, Occurrences(c), scope, lets, n);
        TrimSums(t, a, pushes, scope, lets, boxes, n1)
      else
        var before := if UsesScope(c, scope) then boxes else map[];
        var r := BoxesOf(t, a, scope, lets, before, n);
        Sums(t, a, scope, lets, before, n)
        + if r.None? then {}
          else Sums(t, b, scope, lets, if UsesScope(c, scope) then r.value.0 else map[], r.value.1)
  }

  function LoopSums(o: Oracle, s: Stmt, scope: Scope, n: nat): set<Sum>
    requires s.For?
  {
    if s.v + ".loop_max" in scope then {}
    else
      var (extent, n2) := BoundsOf(o, s.extent, scope, LoopStart(o, s, scope, n).1);
      {LoopSum(extent.max, BoundsOf(o, s.min, scope, n2).0.max)}
  }

  function TrimSums(t: Tools, s: Stmt, pushes: seq<Push>, scope: Scope, lets: Lets, boxes: Map, n: nat): set<Sum>
    requires forall p | p in pushes :: p.Dependent? ==> p.k < |lets|
    decreases s, 2, |pushes|
  {
    if pushes == [] then Sums(t, s, scope, lets, boxes, n)
    else
      match pushes[0]
      case Given(v, i) => TrimSums(t, s, pushes[1..], scope[v := i], lets, boxes, n)
      case Dependent(k) =>
        var (u, x) := lets[k];
        var r := Trimmed(t, s, pushes[1..], scope[u := NamedFor(t, x, n)], lets, boxes, n + 2);
        TrimSums(t, s, pushes[1..], scope[u := NamedFor(t, x, n)], lets, boxes, n + 2)
        + if r.None? then {} else {TrimSumOf(t, u, x, scope, r.value.0, n, r.value.1)}
  }

  function TrimSumOf(t: Tools, u: string, x: Expr, scope: Scope, boxes: Map, n: nat, n1: nat): Sum {
    TrimSum(Mentions(boxes, t.o.newName(n)) || Mentions(boxes, t.o.newName(n + 1)),
        Simplified(t, BoundsOf(t.o, x, scope, n1).0), Known(scope, u))
  }

  /** The pass stops if and only if some arithmetic on its way is refused. */
  lemma {:induction false} StopsExactly(t: Tools, s: Stmt, scope: Scope, lets: Lets, boxes: Map, n: nat)
    ensures BoxesOf(t, s, scope, lets, boxes, n).None? <==> SomeRefused(Sums(t, s, scope, lets, boxes, n))
    decreases s, 1, 0
  {
    match s
    case NoOp =>
    case Provide(_, _) =>
    case Block(a, b) =>
      StopsExactly(t, a, scope, lets, boxes, n);
      var r := BoxesOf(t, a, scope, lets, boxes, n);
      if r.Some? {
        StopsExactly(t, b, scope, lets, r.value.0, r.value.1);
      }
    case For(v, _, _, body) =>
      LoopStopsExactly(t.o, s, scope, n);
      var r := LoopInterval(t.o, s, scope, n);
      if r.Some? {
        StopsExactly(t, body, scope[v := r.value.0], lets, boxes, r.value.1);
      }
      hide LoopInterval, LoopSums;
    case LetStmt(_, _, _) => LetStopsExactly(t, s, scope, lets, boxes, n);
    case IfThenElse(_, _, _) => IfStopsExactly(t, s, scope, lets, boxes, n);
  }

  lemma {:induction false} LetStopsExactly(t: Tools, s: Stmt, scope: Scope, lets: Lets, boxes: Map, n: nat)
    requires s.LetStmt?
    ensures BoxesOf(t, s, scope, lets, boxes, n).None? <==> SomeRefused(Sums(t, s, scope, lets, boxes, n))
    decreases s, 0, 0
  {
    var (value, n1) := BoundsOf(t.o, s.value, scope, n);
    var lets' := lets + [(s.v, s.value)];
    hide BoundsOf, KeptSmall, Simplified, NameNew, NamedFor;
    LetUnfolds(t, s, scope, lets, boxes, n);
    if KeptSmall(t, value) {
      StopsExactly(t, s.body, scope[s.v := Simplified(t, value)], lets', boxes, n1);
    } else {
      StopsExactly(t, s.body, scope[s.v := NamedFor(t, s.value, n1)], lets', boxes, n1 + 2);
    }
    hide BoxesOf, SomeRefused;
  }

  lemma LoopStopsExactly(o: Oracle, s: Stmt, scope: Scope, n: nat)
    requires s.For?
    ensures LoopInterval(o, s, scope, n).None? <==> SomeRefused(LoopSums(o, s, scope, n))
  {
    if s.v + ".loop_max" !in scope {
      var (extent, n2) := BoundsOf(o, s.extent, scope, LoopStart(o, s, scope, n).1);
      assert LoopSum(extent.max, BoundsOf(o, s.min, scope, n2).0.max) in LoopSums(o, s, scope, n);
    }
    hide BoundsOf;
  }

  lemma {:induction false} IfStopsExactly(t: Tools, s: Stmt, scope: Scope, lets: Lets, boxes: Map, n: nat)
    requires s.IfThenElse?
    ensures BoxesOf(t, s, scope, lets, boxes, n).None? <==> SomeRefused(Sums(t, s, scope, lets, boxes, n))
    decreases s, 0, 0
  {
    var c, a, b := s.cond, s.thenCase, s.elseCase;
    if UsesScope(c, scope) && b.NoOp? {
      var (pushes, n1) := Restrictions(t, c, Occurrences(c), scope, lets, n);
      TrimStopsExactly(t, a, pushes, scope, lets, boxes, n1);
    } else {
      var before := if UsesScope(c, scope) then boxes else map[];
      var r := BoxesOf(t, a, scope, lets, before, n);
      StopsExactly(t, a, scope, lets, before, n);
      if r.Some? {
        StopsExactly(t, b, scope, lets, if UsesScope(c, scope) then r.value.0 else map[], r.value.1);
      }
    }
    hide Restrictions, UsesScope, MergeBranches, Refused;
  }

  lemma {:induction false} TrimStopsExactly(t: Tools, s: Stmt, pushes: seq<Push>, scope: Scope, lets: Lets, boxes: Map,
                                            n: nat)
    requires forall p | p in pushes :: p.Dependent? ==> p.k < |lets|
    ensures Trimmed(t, s, pushes, scope, lets, boxes, n).None?
            <==> SomeRefused(TrimSums(t, s, pushes, scope, lets, boxes, n))
    decreases s, 2, |pushes|
  {
    if pushes == [] {
      StopsExactly(t, s, scope, lets, boxes, n);
    } else {
      match pushes[0]
      case Given(v, i) => TrimStopsExactly(t, s, pushes[1..], scope[v := i], lets, boxes, n);
      case Dependent(k) =>
        var (u, x) := lets[k];
        TrimStopsExactly(t, s, pushes[1..], scope[u := NamedFor(t, x, n)], lets, boxes, n + 2);
        var r := Trimmed(t, s, pushes[1..], scope[u := NamedFor(t, x, n)], lets, boxes, n + 2);
        if r.Some? {
          var p := TrimSumOf(t, u, x, scope, r.value.0, n, r.value.1);
          assert p in TrimSums(t, s, pushes, scope, lets, boxes, n);
          assert Refused(p) <==> LeaveTrimmed(t, u, x, scope, r.value.0, n, r.value.1).None?;
        }
    }
    hide BoundsOf, Sums, BoxesOf, NamedFor, NameNew, Mentions;
  }

  // ----- a chain of lets on a trimmed variable -----

  const CHAIN_CONDITION := Bin(LT, Var("v", Int), Imm(10, Int))
  const PLUS_ONE := Bin(Add, Var("v", Int), One(Int))
  const PLUS_TWO := Bin(Add, Var("w", Int), One(Int))

  /** Two lets on a variable that has no bounds, and a condition on it around what is provided at the second. */
  const CHAIN := LetStmt("w", PLUS_ONE, LetStmt("u", PLUS_TWO,
          IfThenElse(CHAIN_CONDITION, Provide("f", [Var("u", Int)]), NoOp)))

  const UNBOUNDED: Scope := map["v" := EVERYTHING]

  /** Trimming gives the first let names, so the bounds of the second become finite; but nothing was known of it
      before, and the pass stops at the minimum of the two. */
  lemma TrimmedChainStops(t: Tools, n: nat)
    requires Reliable(t) && NewNames(t.o, n, {"u", "v", "w", "f"})
    requires t.solve(CHAIN_CONDITION, "v") == Some(CHAIN_CONDITION)
    ensures BoxesOf(t, CHAIN, UNBOUNDED, [], map[], n).None?
  {
    var lets := [("w", PLUS_ONE), ("u", PLUS_TWO)];
    var scope := UNBOUNDED["w" := EVERYTHING]["u" := EVERYTHING];
    var branch := IfThenElse(CHAIN_CONDITION, Provide("f", [Var("u", Int)]), NoOp);
    assert CHAIN.body.body == branch;
    hide *;
    ChainLets(t, n);
    ChainPushes(t, lets, scope, n);
    IfUnfolds(t, branch, scope, lets, map[], n);
    ChainTrimmed(t, lets, scope, n);
  }

  lemma IfUnfolds(t: Tools, s: Stmt, scope: Scope, lets: Lets, boxes: Map, n: nat)
    requires s.IfThenElse? && UsesScope(s.cond, scope) && s.elseCase == NoOp
    ensures var (pushes, n1) := Restrictions(t, s.cond, Occurrences(s.cond), scope, lets, n);
            BoxesOf(t, s, scope, lets, boxes, n) == Trimmed(t, s.thenCase, pushes, scope, lets, boxes, n1)
  {
  }

  lemma ChainLets(t: Tools, n: nat)
    ensures BoxesOf(t, CHAIN, UNBOUNDED, [], map[], n)
            == BoxesOf(t, CHAIN.body.body, UNBOUNDED["w" := EVERYTHING]["u" := EVERYTHING],
                [("w", PLUS_ONE), ("u", PLUS_TWO)], map[], n)
  {
    var inner := UNBOUNDED["w" := EVERYTHING];
    PlusOneUnbounded(t, Var("v", Int), UNBOUNDED, n);
    PlusOneUnbounded(t, Var("w", Int), inner, n);
    LetUnfolds(t, CHAIN, UNBOUNDED, [], map[], n);
    LetUnfolds(t, CHAIN.body, inner, [("w", PLUS_ONE)], map[], n);
    assert [] + [("w", PLUS_ONE)] == [("w", PLUS_ONE)];
    assert [("w", PLUS_ONE)] + [("u", PLUS_TWO)] == [("w", PLUS_ONE), ("u", PLUS_TWO)];
    hide BoundsOf, BoxesOf;
  }

  /** One more than something without bounds has none. */
  lemma PlusOneUnbounded(t: Tools, x: Expr, scope: Scope, n: nat)
    requires x.Var? && x.name in scope && scope[x.name] == EVERYTHING
    ensures BoundsOf(t.o, Bin(Add, x, One(Int)), scope, n) == (EVERYTHING, n)
    ensures Simplified(t, EVERYTHING) == EVERYTHING && KeptSmall(t, EVERYTHING)
  {
  }

  lemma ChainPushes(t: Tools, lets: Lets, scope: Scope, n: nat)
    requires lets == [("w", PLUS_ONE), ("u", PLUS_TWO)] && "v" in scope && scope["v"] == EVERYTHING
    requires t.solve(CHAIN_CONDITION, "v") == Some(CHAIN_CONDITION)
    ensures UsesScope(CHAIN_CONDITION, scope) && Occurrences(CHAIN_CONDITION) == ["v"]
    ensures Restrictions(t, CHAIN_CONDITION, ["v"], scope, lets, n)
            == ([Given("v", EVERYTHING), Dependent(0), Dependent(1)], n)
  {
    assert "v" in Names(CHAIN_CONDITION);
    assert Occurrences(CHAIN_CONDITION.a) == ["v"] && Occurrences(CHAIN_CONDITION.b) == [];
    assert Dependents(lets, "v", 2) == [] && Dependents(lets, "w", 2) == [] && Dependents(lets, "u", 2) == [];
    assert VarNames(PLUS_ONE) == {"v"} && VarNames(PLUS_TWO) == {"w"};
    assert Dependents(lets, "w", 1) == [Dependent(1)];
    assert Dependents(lets, "v", 1) == [];
    assert Dependents(lets, "v", 0) == [Dependent(0), Dependent(1)];
    assert BoundsOf(t.o, CHAIN_CONDITION.b, scope, n) == (Point(CHAIN_CONDITION.b), n);
    assert Restrict(LT, EVERYTHING, Point(CHAIN_CONDITION.b)) == EVERYTHING;
    assert Restrictions(t, CHAIN_CONDITION, [], scope, lets, n) == ([], n);
    assert ["v"][1..] == [];
    assert [Given("v", EVERYTHING)] + Dependents(lets, "v", 0) + []
        == [Given("v", EVERYTHING), Dependent(0), Dependent(1)];
    hide BoundsOf, Dependents, Restrict;
  }

  lemma ChainTrimmed(t: Tools, lets: Lets, scope: Scope, n: nat)
    requires lets == [("w", PLUS_ONE), ("u", PLUS_TWO)] && scope == UNBOUNDED["w" := EVERYTHING]["u" := EVERYTHING]
    requires Reliable(t) && NewNames(t.o, n, {"u", "v", "w", "f"})
    ensures Trimmed(t, Provide("f", [Var("u", Int)]), [Given("v", EVERYTHING), Dependent(0), Dependent(1)], scope, lets,
        map[], n).None?
  {
    var s, pushes := Provide("f", [Var("u", Int)]), [Given("v", EVERYTHING), Dependent(0), Dependent(1)];
    var scope1 := scope["w" := NamedFor(t, PLUS_ONE, n)];
    var scope2 := scope1["u" := NamedFor(t, PLUS_TWO, n + 2)];
    assert scope["v" := EVERYTHING] == scope;
    assert pushes[1..] == [Dependent(0), Dependent(1)] && pushes[1..][1..] == [Dependent(1)];
    assert [Dependent(1)][1..] == [];
    var inside, last: nat := MergeAt(t, map[], "f", Box(None, [NamedFor(t, PLUS_TWO, n + 2)])), n + 4;
    ProvidedAt(t, scope2, lets, n + 4);
    assert Trimmed(t, s, [], scope2, lets, map[], last) == Some((inside, last));
    ChainMentions(t, n + 2, inside);
    assert TypeOf(PLUS_ONE) == Int;
    NamedSum(t, scope1, n, n + 4);
    assert Known(scope1, "u") == EVERYTHING;
    assert LeaveTrimmed(t, "u", PLUS_TWO, scope1, inside, n + 2, n + 4).None?;
    hide BoundsOf, Mentions, MergeAt, BoxesOf;
    assert Trimmed(t, s, [Dependent(1)], scope1, lets, map[], n + 2).None?;
  }

  lemma OneArg(o: Oracle, v: string, scope: Scope, n: nat)
    requires v in scope
    ensures ArgBounds(o, [Var(v, Int)], scope, n) == ([scope[v]], n)
  {
    var args := [Var(v, Int)];
    assert args[1..] == [] && ArgBounds(o, args[1..], scope, n) == ([], n);
    assert BoundsOf(o, args[0], scope, n) == (scope[v], n);
    assert [scope[v]] + [] == [scope[v]];
  }

  lemma ProvidedAt(t: Tools, scope: Scope, lets: Lets, n: nat)
    requires "u" in scope
    ensures BoxesOf(t, Provide("f", [Var("u", Int)]), scope, lets, map[], n)
            == Some((MergeAt(t, map[], "f", Box(None, [scope["u"]])), n))
  {
    OneArg(t.o, "u", scope, n);
  }

  lemma ChainMentions(t: Tools, n: nat, boxes: Map)
    requires boxes == MergeAt(t, map[], "f", Box(None, [NamedFor(t, PLUS_TWO, n)]))
    ensures Mentions(boxes, t.o.newName(n))
  {
    var b := Box(None, [NamedFor(t, PLUS_TWO, n)]);
    assert boxes["f"] == b;
    assert EndMentions(b.bounds[0].max, t.o.newName(n));
    assert BoxMentions(b, t.o.newName(n));
  }

  /** One more than something between two names lies between finite bounds. */
  lemma NamedSum(t: Tools, scope: Scope, n: nat, n1: nat)
    requires "w" in scope && scope["w"] == NamedFor(t, PLUS_ONE, n)
    ensures Finite(Simplified(t, BoundsOf(t.o, PLUS_TWO, scope, n1).0))
  {
  }

  // ----- an infinity that gets a name -----

  /** A let around what is provided at its variable. */
  function LetAt(v: string, x: Expr, f: string): Stmt {
    LetStmt(v, x, Provide(f, [Var(v, Int)]))
  }

  /** The box covers whatever lies between the bounds of the value. */
  ghost predicate BoxCovers(boxes: Map, f: string, i: Interval) {
    forall env: Env, y: int | Contains(i, env, y) :: InMap(boxes, env, f, [y])
  }

  /** When one bound of a value is large, both get names, and an infinity then stands for whatever the variable of that
      name is worth: the box covers the bounds of the value if and only if they are small, or both are finite. */
  lemma NamedLetExactly(t: Tools, v: string, x: Expr, f: string, scope: Scope, lets: Lets, n: nat)
    requires Reliable(t) && ScopeSane(scope)
    requires NewNames(t.o, BoundsOf(t.o, x, scope, n).1, Free(AsExpr(Simplified(t, BoundsOf(t.o, x, scope, n).0).max)))
    requires TypeOf(x) == Int
    ensures var value := BoundsOf(t.o, x, scope, n).0;
            var i, r := Simplified(t, value), BoxesOf(t, LetAt(v, x, f), scope, lets, map[], n);
            r.Some? && (BoxCovers(r.value.0, f, i) <==> KeptSmall(t, value) || Finite(i))
  {
    var (value, n1) := BoundsOf(t.o, x, scope, n);
    var i := Simplified(t, value);
    BoundsNonEmpty(t.o, x, scope, n);
    LetAtBoxes(t, v, x, f, scope, lets, n);
    assert NonEmpty(i);
    hide BoundsOf, Simplified, BoxesOf, KeptSmall, ScopeSane;
    if KeptSmall(t, value) {
      forall env: Env, y: int | Contains(i, env, y) ensures InMap(map[f := Box(None, [i])], env, f, [y]) {
        EvalImm(One(Bool), env);
      }
    } else {
      NamedCoversExactly(t, x, f, n1, i);
    }
  }

  lemma LetAtBoxes(t: Tools, v: string, x: Expr, f: string, scope: Scope, lets: Lets, n: nat)
    ensures var (value, n1) := BoundsOf(t.o, x, scope, n);
            var i, r := Simplified(t, value), BoxesOf(t, LetAt(v, x, f), scope, lets, map[], n);
            && r.Some?
            && r.value.0 == if KeptSmall(t, value) then map[f := Box(None, [i])]
                else NameNew(t, map[f := Box(None, [NamedFor(t, x, n1)])], n1, AsExpr(i.min), AsExpr(i.max))
  {
    hide BoundsOf, Simplified, BoxesOf, KeptSmall, NameNew, AsExpr, NamedFor;
    var (value, n1) := BoundsOf(t.o, x, scope, n);
    var lets' := lets + [(v, x)];
    LetUnfolds(t, LetAt(v, x, f), scope, lets, map[], n);
    if KeptSmall(t, value) {
      ProvidesAt(t, v, f, scope[v := Simplified(t, value)], lets', n1);
    } else {
      ProvidesAt(t, v, f, scope[v := NamedFor(t, x, n1)], lets', n1 + 2);
    }
  }

  lemma ProvidesAt(t: Tools, v: string, f: string, scope: Scope, lets: Lets, n: nat)
    requires v in scope
    ensures BoxesOf(t, Provide(f, [Var(v, Int)]), scope, lets, map[], n) == Some((map[f := Box(None, [scope[v]])], n))
  {
    OneArg(t.o, v, scope, n);
  }

  lemma NamedCoversExactly(t: Tools, x: Expr, f: string, n: nat, i: Interval)
    requires NewNames(t.o, n, Free(AsExpr(i.max))) && NonEmpty(i) && TypeOf(x) == Int
    ensures var boxes := NameNew(t, map[f := Box(None, [NamedFor(t, x, n)])], n, AsExpr(i.min), AsExpr(i.max));
            BoxCovers(boxes, f, i) <==> Finite(i)
  {
    var boxes := NameNew(t, map[f := Box(None, [NamedFor(t, x, n)])], n, AsExpr(i.min), AsExpr(i.max));
    forall env: Env, y: int
      ensures InMap(boxes, env, f, [y]) <==> Eval(AsExpr(i.min), env) <= y <= Eval(AsExpr(i.max), env)
    {
      NamedBox(t, x, f, n, i, env, y);
    }
    hide NameNew, InMap, NewNames;
    if !Finite(i) {
      var low, high := Eval(AsExpr(i.min), map[]), Eval(AsExpr(i.max), map[]);
      var y := if i.max.Fin? then Lesser(low, high) - 1 else Greater(low, high) + 1;
      hide Eval;
      assert Contains(i, map[], y) by { Beyond(i, low, high, y); }
      assert !InMap(boxes, map[], f, [y]);
    }
  }

  /** Beyond the end that is not known. */
  lemma Beyond(i: Interval, low: int, high: int, y: int)
    requires NonEmpty(i) && !Finite(i)
    requires low == Eval(AsExpr(i.min), map[]) && high == Eval(AsExpr(i.max), map[])
    requires y == if i.max.Fin? then Lesser(low, high) - 1 else Greater(low, high) + 1
    ensures Contains(i, map[], y)
  {
  }

  lemma NamedBox(t: Tools, x: Expr, f: string, n: nat, i: Interval, env: Env, y: int)
    requires NewNames(t.o, n, Free(AsExpr(i.max))) && TypeOf(x) == Int
    ensures var boxes := NameNew(t, map[f := Box(None, [NamedFor(t, x, n)])], n, AsExpr(i.min), AsExpr(i.max));
            InMap(boxes, env, f, [y]) <==> Eval(AsExpr(i.min), env) <= y <= Eval(AsExpr(i.max), env)
  {
    var (maxName, minName) := (t.o.newName(n), t.o.newName(n + 1));
    var low, high, named := AsExpr(i.min), AsExpr(i.max), NamedFor(t, x, n);
    NameIntervalMeans(named, minName, low, maxName, high, env, y);
    assert Contains(named, NamedEnv(env, minName, low, maxName, high), y) <==> Eval(low, env) <= y <= Eval(high, env);
    var b := NameBox(Box(None, [named]), minName, low, maxName, high);
    assert NameNew(t, map[f := Box(None, [named])], n, low, high)[f] == b;
    assert b.bounds == [Interval(NameEnd(named.min, minName, low, maxName, high),
        NameEnd(named.max, minName, low, maxName, high))];
    assert Holds(b.used, env) && NonEmpty(named);
    hide Eval, NameEnd, NewNames, Free;
    assert InBox(b, env, [y]) <==> Contains(b.bounds[0], env, y);
    EvalImm(One(Bool), env);
  }

  /** A run that writes beyond the box: a variable without bounds, and a let that is at least something large. */
  lemma UnboundedLetIsCut(t: Tools, large: Expr, f: string, n: nat, env: Env)
    returns (val: Env, y: int)
    requires Reliable(t) && "u" !in Free(large)
    requires var (i, n1) := BoundsOf(t.o, large, map["u" := EVERYTHING], n);
             i.min.Fin? && CountVars(t.simplify(i.min.e)) >= 10 && NewNames(t.o, n1, {"pos_inf"})
    ensures var s := LetAt("v", Bin(Max, Var("u", Int), large), f);
            var r := BoxesOf(t, s, map["u" := EVERYTHING], [], map[], n);
            && (forall w | w != "u" :: Get(val, w) == Get(env, w))
            && Touches(s, val, f, [y]) && r.Some? && !InMap(r.value.0, env, f, [y])
  {
    var x, scope: Scope := Bin(Max, Var("u", Int), large), map["u" := EVERYTHING];
    y := Greater(Eval(large, env), Get(env, "pos_inf")) + 1;
    val := env["u" := y];
    WritesLarge(large, f, env, y);
    LargeIsNamed(t, large, scope, n);
    LetAtBoxes(t, "v", x, f, scope, [], n);
    var (value, n1) := BoundsOf(t.o, x, scope, n);
    var i := Simplified(t, value);
    assert y > Eval(AsExpr(PosInf), env);
    hide BoundsOf, Eval, Reliable, KeptSmall, Simplified, BoxesOf, Touches, Free, InMap;
    NamedBox(t, x, f, n1, i, env, y);
    hide NameNew, NamedFor;
  }

  lemma LargeIsNamed(t: Tools, large: Expr, scope: Scope, n: nat)
    requires "u" in scope && scope["u"] == EVERYTHING
    requires var i := BoundsOf(t.o, large, scope, n).0; i.min.Fin? && CountVars(t.simplify(i.min.e)) >= 10
    ensures var (value, n1) := BoundsOf(t.o, Bin(Max, Var("u", Int), large), scope, n);
            && n1 == BoundsOf(t.o, large, scope, n).1 && Simplified(t, value).max == PosInf
            && !KeptSmall(t, value) && Free(AsExpr(Simplified(t, value).max)) == {"pos_inf"}
  {
    AtLeastLarge(t, large, scope, n);
    hide BoundsOf;
  }

  lemma WritesLarge(large: Expr, f: string, env: Env, y: int)
    requires "u" !in Free(large) && y > Eval(large, env)
    ensures Touches(LetAt("v", Bin(Max, Var("u", Int), large), f), env["u" := y], f, [y])
  {
    var x, val := Bin(Max, Var("u", Int), large), env["u" := y];
    EvalUpdate(large, env, "u", y);
    EvalBin(Max, Var("u", Int), large, val);
    EvalVar("u", Int, env, y);
    WritesAt("v", x, f, val, y);
  }

  lemma AtLeastLarge(t: Tools, large: Expr, scope: Scope, n: nat)
    requires "u" in scope && scope["u"] == EVERYTHING && BoundsOf(t.o, large, scope, n).0.min.Fin?
    ensures var (i, n1) := BoundsOf(t.o, large, scope, n);
            BoundsOf(t.o, Bin(Max, Var("u", Int), large), scope, n) == (Interval(i.min, PosInf), n1)
  {
  }

  lemma WritesAt(v: string, x: Expr, f: string, val: Env, y: int)
    requires Eval(x, val) == y
    ensures Touches(LetAt(v, x, f), val, f, [y])
  {
  }
}
