/** The interval of an expression is exact where every variable in scope is used once (Bounds.cpp): both ends are values
    the expression takes for some values of the variables in their intervals, through any nest of operators, selects and
    lets. */
module BoundsExact {
  import opened BoundsIR
  import opened Intervals
  import opened BoundsExpr
  import opened BoundsSound
  import opened BoundsTheorem
  import opened BoundsTight

  // ----- values an expression can take -----

  /** The values that every variable in scope may have. */
  type Supply = map<string, iset<int>>

  /** A choice of values: from the supply for variables in scope, as outside for the others. */
  ghost predicate Allowed(names: set<string>, supply: Supply, val: Env, env: Env) {
    forall v | v in names :: if v in supply then Get(val, v) in supply[v] else Get(val, v) == Get(env, v)
  }

  ghost predicate Takes(e: Expr, supply: Supply, env: Env, x: int) {
    exists val: Env :: Allowed(Free(e), supply, val, env) && Eval(e, val) == x
  }

  ghost function Values(e: Expr, supply: Supply, env: Env): iset<int> {
    iset x | Takes(e, supply, env, x)
  }

  lemma TakesValue(e: Expr, supply: Supply, env: Env, val: Env)
    requires Allowed(Free(e), supply, val, env)
    ensures Eval(e, val) in Values(e, supply, env)
  {
  }

  /** The supply has the ends of every interval in scope, and bits for conditions. */
  ghost predicate Supplied(scope: Scope, types: Types, supply: Supply, env: Env) {
    && scope.Keys == types.Keys && scope.Keys == supply.Keys
    && forall v | v in scope :: Ends(scope[v], env, supply[v])
                                && (types[v].Bool? ==> forall x | x in supply[v] :: IsBit(x))
  }

  // ----- using every variable once -----

  /** No variable of `k` is used in two places. */
  predicate ReadOnce(e: Expr, k: set<string>) {
    match e
    case Imm(_, _) => true
    case Var(_, _) => true
    case Abs(a) => ReadOnce(a, k)
    case Not(a) => ReadOnce(a, k)
    case Bin(_, a, b) => ReadOnce(a, k) && ReadOnce(b, k) && Free(a) * Free(b) * k == {}
    case Select(c, t, f) =>
      && ReadOnce(c, k) && ReadOnce(t, k) && ReadOnce(f, k)
      && Free(c) * Free(t) * k == {} && Free(c) * Free(f) * k == {} && Free(t) * Free(f) * k == {}
    case Let(v, x, b) => ReadOnce(x, k) && ReadOnce(b, k + {v}) && Free(x) * (Free(b) - {v}) * k == {}
  }

  /** Some values from one choice, the rest from another. */
  function Blend(names: set<string>, first: Env, rest: Env): Env {
    rest + map v | v in names :: Get(first, v)
  }

  lemma BlendGets(names: set<string>, first: Env, rest: Env, v: string)
    ensures Get(Blend(names, first, rest), v) == if v in names then Get(first, v) else Get(rest, v)
  {
  }

  /** Two choices for expressions that share nothing in scope make one for both. */
  lemma BlendBoth(a: Expr, b: Expr, supply: Supply, va: Env, vb: Env, env: Env) returns (val: Env)
    requires Allowed(Free(a), supply, va, env) && Allowed(Free(b), supply, vb, env)
    requires Free(a) * Free(b) * supply.Keys == {}
    ensures Allowed(Free(a) + Free(b), supply, val, env)
    ensures Eval(a, val) == Eval(a, va) && Eval(b, val) == Eval(b, vb)
    ensures AgreeOn(Free(a), val, va) && AgreeOn(Free(b), val, vb)
  {
    val := Blend(Free(a), va, vb);
    forall v ensures Get(val, v) == if v in Free(a) then Get(va, v) else Get(vb, v) {
      BlendGets(Free(a), va, vb, v);
    }
    forall v | v in Free(b) ensures Get(val, v) == Get(vb, v) {
      if v in Free(a) {
        assert v !in Free(a) * Free(b) * supply.Keys;
      }
    }
    hide Blend, Eval;
    EvalAgrees(a, val, va);
    EvalAgrees(b, val, vb);
  }

  /** What the operator makes of values of the operands are values of the node. */
  lemma ResultsAreValues(e: Expr, supply: Supply, env: Env)
    requires e.Bin? && Free(e.a) * Free(e.b) * supply.Keys == {}
    ensures Results(e.op, Values(e.a, supply, env), Values(e.b, supply, env)) <= Values(e, supply, env)
  {
    var xs, ys := Values(e.a, supply, env), Values(e.b, supply, env);
    forall z | z in Results(e.op, xs, ys) ensures z in Values(e, supply, env) {
      var x, y :| x in xs && y in ys && z == Apply(e.op, x, y);
      var va: Env :| Allowed(Free(e.a), supply, va, env) && Eval(e.a, va) == x;
      var vb: Env :| Allowed(Free(e.b), supply, vb, env) && Eval(e.b, vb) == y;
      var val := BlendBoth(e.a, e.b, supply, va, vb, env);
      EvalBin(e.op, e.a, e.b, val);
      TakesValue(e, supply, env, val);
    }
  }

  lemma NegatedAreValues(e: Expr, supply: Supply, env: Env)
    requires e.Not?
    ensures Negated(Values(e.a, supply, env)) <= Values(e, supply, env)
  {
    forall z | z in Negated(Values(e.a, supply, env)) ensures z in Values(e, supply, env) {
      var x :| x in Values(e.a, supply, env) && z == Bit(x == 0);
      var val: Env :| Allowed(Free(e.a), supply, val, env) && Eval(e.a, val) == x;
      TakesValue(e, supply, env, val);
    }
  }

  lemma ValuesAreBits(e: Expr, types: Types, supply: Supply, env: Env)
    requires WellTyped(e, types) && TypeOf(e) == Bool
    ensures forall x | x in Values(e, supply, env) :: IsBit(x)
  {
    forall x | x in Values(e, supply, env) ensures IsBit(x) {
      var val: Env :| Allowed(Free(e), supply, val, env) && Eval(e, val) == x;
      BoolIsBit(e, types, val);
    }
  }

  // ----- where the analysis is exact -----

  /** No visitor gives up on the way, remainders and equalities aside. */
  ghost predicate Committed(o: Oracle, e: Expr, scope: Scope, n: nat) {
    match e
    case Imm(_, _) => true
    case Var(_, _) => true
    case Abs(_) => false
    case Not(x) => Committed(o, x, scope, n) && Finite(BoundsOf(o, x, scope, n).0)
    case Bin(op, x, y) =>
      if op == GT || op == GE then
        var (b, n1) := BoundsOf(o, y, scope, n);
        Committed(o, y, scope, n) && Committed(o, x, scope, n1) && !GivesUp(o, e, BoundsOf(o, x, scope, n1).0, b)
      else
        var (a, n1) := BoundsOf(o, x, scope, n);
        && Exact(op) && Committed(o, x, scope, n) && Committed(o, y, scope, n1)
        && !GivesUp(o, e, a, BoundsOf(o, y, scope, n1).0)
    case Select(c, x, y) =>
      var (a, n1) := BoundsOf(o, x, scope, n);
      var (b, n2) := BoundsOf(o, y, scope, n1);
      && Finite(a) && Finite(b) && Finite(BoundsOf(o, c, scope, n2).0)
      && Committed(o, x, scope, n) && Committed(o, y, scope, n1) && Committed(o, c, scope, n2)
    case Let(v, x, body) =>
      var (value, n1) := BoundsOf(o, x, scope, n);
      Committed(o, x, scope, n) && Committed(o, body, scope[v := Shown(e, value)], n1)
  }

  /** What the names and types of an expression have to be, as for soundness. */
  ghost predicate Placed(o: Oracle, e: Expr, scope: Scope, types: Types, n: nat, used: set<string>) {
    && Honest(o) && NewNames(o, n, used + Derived(e)) && Hygienic(e, used) && WellTyped(e, types)
    && Outside(e, scope) <= used && ScopeUses(scope, used)
  }

  lemma PlacedPart(o: Oracle, e: Expr, part: Expr, scope: Scope, types: Types, n: nat, m: nat, used: set<string>)
    requires Placed(o, e, scope, types, n, used) && n <= m
    requires Free(part) <= Free(e) && Derived(part) <= Derived(e) && Hygienic(part, used) && WellTyped(part, types)
    ensures Placed(o, part, scope, types, m, used)
  {
    hide Hygienic, WellTyped, ScopeUses, Derived, Free;
  }

  // ----- selects -----

  ghost predicate IsChoice(cs: iset<int>, xs: iset<int>, ys: iset<int>, z: int) {
    exists c, x, y :: c in cs && x in xs && y in ys && z == Taken(c != 0, x, y)
  }

  ghost function Choices(cs: iset<int>, xs: iset<int>, ys: iset<int>): iset<int> {
    iset z | IsChoice(cs, xs, ys, z)
  }

  lemma ChoiceOf(cs: iset<int>, xs: iset<int>, ys: iset<int>, c: int, x: int, y: int)
    requires c in cs && x in xs && y in ys
    ensures Taken(c != 0, x, y) in Choices(cs, xs, ys)
  {
  }

  lemma ChoicesAreValues(e: Expr, supply: Supply, env: Env)
    requires e.Select? && ReadOnce(e, supply.Keys)
    ensures Choices(Values(e.cond, supply, env), Values(e.t, supply, env), Values(e.f, supply, env))
            <= Values(e, supply, env)
  {
    var cs, xs, ys := Values(e.cond, supply, env), Values(e.t, supply, env), Values(e.f, supply, env);
    forall z | z in Choices(cs, xs, ys) ensures z in Values(e, supply, env) {
      var c, x, y :| c in cs && x in xs && y in ys && z == Taken(c != 0, x, y);
      var vc: Env :| Allowed(Free(e.cond), supply, vc, env) && Eval(e.cond, vc) == c;
      var vt: Env :| Allowed(Free(e.t), supply, vt, env) && Eval(e.t, vt) == x;
      var vf: Env :| Allowed(Free(e.f), supply, vf, env) && Eval(e.f, vf) == y;
      var both := BlendBoth(e.t, e.f, supply, vt, vf, env);
      var val := BlendThree(e, supply, vc, both, env);
      EvalSelect(e.cond, e.t, e.f, val);
      TakesValue(e, supply, env, val);
    }
  }

  lemma BlendThree(e: Expr, supply: Supply, vc: Env, both: Env, env: Env) returns (val: Env)
    requires e.Select? && ReadOnce(e, supply.Keys)
    requires Allowed(Free(e.cond), supply, vc, env) && Allowed(Free(e.t) + Free(e.f), supply, both, env)
    ensures Allowed(Free(e), supply, val, env)
    ensures Eval(e.cond, val) == Eval(e.cond, vc)
    ensures Eval(e.t, val) == Eval(e.t, both) && Eval(e.f, val) == Eval(e.f, both)
  {
    var pair := Bin(And, e.t, e.f);
    assert Free(pair) == Free(e.t) + Free(e.f);
    assert Free(e.cond) * Free(pair) * supply.Keys
           == Free(e.cond) * Free(e.t) * supply.Keys + Free(e.cond) * Free(e.f) * supply.Keys;
    val := BlendBoth(e.cond, pair, supply, vc, both, env);
    hide Eval;
    EvalAgrees(e.t, val, both);
    EvalAgrees(e.f, val, both);
  }

  /** One side of a select is what the select is for one of the ends of its condition. */
  lemma SelectSideAttains(o: Oracle, pick: BinOp, ty: Type, cond: Interval, x: Expr, y: Expr, n: nat, env: Env)
    requires Honest(o) && (pick == Min || pick == Max) && Finite(cond)
    requires IsBit(Eval(cond.min.e, env)) && IsBit(Eval(cond.max.e, env))
    requires o.newName(n) != o.newName(n + 1)
    requires forall i | n <= i <= n + 1 ::
               o.newName(i) !in Free(x) + Free(y) + Free(cond.min.e) + Free(cond.max.e)
    requires ty.Bool? ==> IsBit(Eval(x, env)) && IsBit(Eval(y, env))
    ensures var side := SelectSide(o, pick, ty, cond, x, y, n).0;
            || Eval(side, env) == Taken(Eval(cond.min.e, env) != 0, Eval(x, env), Eval(y, env))
            || Eval(side, env) == Taken(Eval(cond.max.e, env) != 0, Eval(x, env), Eval(y, env))
  {
    hide Eval, Combine, Free, Honest;
    SameIsEqual(o, x, y);
    SameIsEqual(o, cond.min.e, cond.max.e);
    if IsOne(cond.max.e) {
      EvalImm(cond.max.e, env);
    }
    if IsZero(cond.min.e) {
      EvalImm(cond.min.e, env);
    }
    if o.same(x, y) {
    } else if cond.IsPoint(o) {
      EvalSelect(cond.min.e, x, y, env);
    } else if IsZero(cond.min.e) && IsOne(cond.max.e) {
      CombineMeans(o, pick, x, y, env);
    } else if IsOne(cond.max.e) {
      OneNameMeans(o, pick, ty, cond.min.e, o.newName(n), x, y, true, env);
    } else if IsZero(cond.min.e) {
      OneNameMeans(o, pick, ty, cond.max.e, o.newName(n), y, x, false, env);
    } else {
      TwoNamesMean(o, pick, ty, cond.min.e, cond.max.e, o.newName(n), o.newName(n + 1), x, y, env);
    }
  }

  lemma SelectEnds(o: Oracle, ty: Type, a: Interval, b: Interval, cond: Interval, n: nat, used: set<string>, env: Env,
                   cs: iset<int>, xs: iset<int>, ys: iset<int>)
    requires Honest(o) && NewNames(o, n, used) && Finite(a) && Finite(b) && Finite(cond)
    requires IntervalUses(a, used) && IntervalUses(b, used) && IntervalUses(cond, used)
    requires Ends(cond, env, cs) && Ends(a, env, xs) && Ends(b, env, ys) && (forall c | c in cs :: IsBit(c))
    requires ty.Bool? ==> (forall x | x in xs :: IsBit(x)) && (forall y | y in ys :: IsBit(y))
    ensures Ends(SelectBounds(o, ty, a, b, cond, n).0, env, Choices(cs, xs, ys))
  {
    hide Eval, SelectSide;
    NamesClear(o, a, used, n);
    NamesClear(o, b, used, n);
    NamesClear(o, cond, used, n);
    NewNamesDiffer(o, n, used);
    SelectSideUses(o, Min, ty, cond, a.min.e, b.min.e, n, used);
    SidesTaken(a.min.e, b.min.e, cond, env, cs, xs, ys);
    SidesTaken(a.max.e, b.max.e, cond, env, cs, xs, ys);
    hide IntervalUses, NewNames, Choices;
    var (low, n1) := SelectSide(o, Min, ty, cond, a.min.e, b.min.e, n);
    SelectSideAttains(o, Min, ty, cond, a.min.e, b.min.e, n, env);
    SelectSideAttains(o, Max, ty, cond, a.max.e, b.max.e, n1, env);
    if IsOne(cond.min.e) || IsZero(cond.min.e) {
      EvalImm(cond.min.e, env);
    }
    hide Free;
  }

  lemma SidesTaken(x: Expr, y: Expr, cond: Interval, env: Env, cs: iset<int>, xs: iset<int>, ys: iset<int>)
    requires Finite(cond) && Ends(cond, env, cs) && Eval(x, env) in xs && Eval(y, env) in ys
    ensures Taken(Eval(cond.min.e, env) != 0, Eval(x, env), Eval(y, env)) in Choices(cs, xs, ys)
    ensures Taken(Eval(cond.max.e, env) != 0, Eval(x, env), Eval(y, env)) in Choices(cs, xs, ys)
  {
    hide Eval, Choices;
    ChoiceOf(cs, xs, ys, Eval(cond.min.e, env), Eval(x, env), Eval(y, env));
    ChoiceOf(cs, xs, ys, Eval(cond.max.e, env), Eval(x, env), Eval(y, env));
  }

  // ----- the theorem -----

  /** Both ends of the interval of an expression in which every variable in scope is used once are values it takes. */
  lemma {:induction false} EndsAreValues(o: Oracle, e: Expr, scope: Scope, types: Types, supply: Supply, n: nat,
                                         used: set<string>, env: Env)
    requires Placed(o, e, scope, types, n, used) && Committed(o, e, scope, n) && ReadOnce(e, supply.Keys)
    requires Supplied(scope, types, supply, env)
    ensures Ends(BoundsOf(o, e, scope, n).0, env, Values(e, supply, env))
    decreases e, 1
  {
    match e
    case Imm(_, _) => TakesValue(e, supply, env, env);
    case Var(_, _) => VarEnds(o, e, scope, types, supply, n, used, env);
    case Not(x) =>
      var xs := Values(x, supply, env);
      PlacedPart(o, e, x, scope, types, n, n, used);
      EndsAreValues(o, x, scope, types, supply, n, used, env);
      ValuesAreBits(x, types, supply, env);
      hide Values, Negated, Honest;
      NotTight(o, e, BoundsOf(o, x, scope, n).0, env, xs);
      NegatedAreValues(e, supply, env);
      EndsMore(BoundsOf(o, e, scope, n).0, env, Negated(xs), Values(e, supply, env));
    case Bin(op, _, _) =>
      if op == GT || op == GE {
        ReverseEnds(o, e, scope, types, supply, n, used, env);
      } else {
        BinEnds(o, e, scope, types, supply, n, used, env);
      }
    case Select(_, _, _) => ChoiceEnds(o, e, scope, types, supply, n, used, env);
    case Let(_, _, _) => LetEnds(o, e, scope, types, supply, n, used, env);
  }

  lemma VarEnds(o: Oracle, e: Expr, scope: Scope, types: Types, supply: Supply, n: nat, used: set<string>, env: Env)
    requires e.Var? && Placed(o, e, scope, types, n, used) && Supplied(scope, types, supply, env)
    ensures Ends(BoundsOf(o, e, scope, n).0, env, Values(e, supply, env))
  {
    if e.name in scope {
      forall x | x in supply[e.name] ensures x in Values(e, supply, env) {
        var val := env[e.name := x];
        TakesValue(e, supply, env, val);
        EvalVar(e.name, e.ty, env, x);
      }
      EndsMore(scope[e.name], env, supply[e.name], Values(e, supply, env));
    } else {
      TakesValue(e, supply, env, env);
    }
  }

  lemma {:induction false} BinEnds(o: Oracle, e: Expr, scope: Scope, types: Types, supply: Supply, n: nat,
                                   used: set<string>, env: Env)
    requires e.Bin? && e.op != GT && e.op != GE
    requires Placed(o, e, scope, types, n, used) && Committed(o, e, scope, n) && ReadOnce(e, supply.Keys)
    requires Supplied(scope, types, supply, env)
    ensures Ends(BoundsOf(o, e, scope, n).0, env, Values(e, supply, env))
    decreases e, 0
  {
    var (a, n1) := BoundsOf(o, e.a, scope, n);
    var (b, n2) := BoundsOf(o, e.b, scope, n1);
    PlacedPart(o, e, e.a, scope, types, n, n, used);
    BoundsUse(o, e.a, scope, n, used);
    PlacedPart(o, e, e.b, scope, types, n, n1, used);
    EndsAreValues(o, e.a, scope, types, supply, n, used, env);
    EndsAreValues(o, e.b, scope, types, supply, n1, used, env);
    hide Ends, Values, Eval, Supplied, ScopeUses, Hygienic, NewNames, Honest;
    BinFromParts(o, e, types, supply, env, a, b);
    assert BoundsOf(o, e, scope, n).0 == Operate(o, e, a, b);
  }

  lemma BinFromParts(o: Oracle, e: Expr, types: Types, supply: Supply, env: Env, a: Interval, b: Interval)
    requires Honest(o) && e.Bin? && Exact(e.op) && WellTyped(e, types) && !GivesUp(o, e, a, b)
    requires Free(e.a) * Free(e.b) * supply.Keys == {}
    requires Ends(a, env, Values(e.a, supply, env)) && Ends(b, env, Values(e.b, supply, env))
    ensures Ends(Operate(o, e, a, b), env, Values(e, supply, env))
  {
    var xs, ys := Values(e.a, supply, env), Values(e.b, supply, env);
    if e.op == And || e.op == Or {
      ValuesAreBits(e.a, types, supply, env);
      ValuesAreBits(e.b, types, supply, env);
    }
    hide Ends, Values, Results, Honest, GivesUp, Operate, WellTyped;
    OperateEnds(o, e, a, b, env, xs, ys);
    ResultsAreValues(e, supply, env);
    EndsMore(Operate(o, e, a, b), env, Results(e.op, xs, ys), Values(e, supply, env));
  }

  lemma {:induction false} ReverseEnds(o: Oracle, e: Expr, scope: Scope, types: Types, supply: Supply, n: nat,
                                       used: set<string>, env: Env)
    requires e.Bin? && (e.op == GT || e.op == GE)
    requires Placed(o, e, scope, types, n, used) && Committed(o, e, scope, n) && ReadOnce(e, supply.Keys)
    requires Supplied(scope, types, supply, env)
    ensures Ends(BoundsOf(o, e, scope, n).0, env, Values(e, supply, env))
    decreases e, 0
  {
    var (b, n1) := BoundsOf(o, e.b, scope, n);
    var (a, n2) := BoundsOf(o, e.a, scope, n1);
    PlacedPart(o, e, e.b, scope, types, n, n, used);
    BoundsUse(o, e.b, scope, n, used);
    PlacedPart(o, e, e.a, scope, types, n, n1, used);
    EndsAreValues(o, e.b, scope, types, supply, n, used, env);
    EndsAreValues(o, e.a, scope, types, supply, n1, used, env);
    BoundedEnds(b, env, Values(e.b, supply, env));
    hide Ends, Values, Eval, Supplied, ScopeUses, Hygienic, NewNames, Honest;
    BinFromParts(o, e, types, supply, env, a, b);
    assert BoundsOf(o, e, scope, n).0 == Operate(o, e, a, b);
  }

  lemma BoundedEnds(i: Interval, env: Env, vs: iset<int>)
    requires Ends(i, env, vs)
    ensures i.IsBounded() <==> Finite(i)
  {
  }

  lemma {:induction false} ChoiceEnds(o: Oracle, e: Expr, scope: Scope, types: Types, supply: Supply, n: nat,
                                      used: set<string>, env: Env)
    requires e.Select?
    requires Placed(o, e, scope, types, n, used) && Committed(o, e, scope, n) && ReadOnce(e, supply.Keys)
    requires Supplied(scope, types, supply, env)
    ensures Ends(BoundsOf(o, e, scope, n).0, env, Values(e, supply, env))
    decreases e, 0
  {
    var (a, n1) := BoundsOf(o, e.t, scope, n);
    var (b, n2) := BoundsOf(o, e.f, scope, n1);
    var (c, n3) := BoundsOf(o, e.cond, scope, n2);
    PlacedPart(o, e, e.t, scope, types, n, n, used);
    BoundsUse(o, e.t, scope, n, used);
    PlacedPart(o, e, e.f, scope, types, n, n1, used);
    BoundsUse(o, e.f, scope, n1, used);
    PlacedPart(o, e, e.cond, scope, types, n, n2, used);
    BoundsUse(o, e.cond, scope, n2, used);
    EndsAreValues(o, e.t, scope, types, supply, n, used, env);
    EndsAreValues(o, e.f, scope, types, supply, n1, used, env);
    EndsAreValues(o, e.cond, scope, types, supply, n2, used, env);
    assert BoundsOf(o, e, scope, n).0 == SelectBounds(o, TypeOf(e), a, b, c, n3).0;
    assert NewNames(o, n3, used);
    hide BoundsOf, Ends, Values, Eval, Supplied, ScopeUses, Hygienic, Honest, IntervalUses, SelectBounds;
    SelectFromParts(o, e, types, supply, n3, used, env, a, b, c);
  }

  lemma SelectFromParts(o: Oracle, e: Expr, types: Types, supply: Supply, n: nat, used: set<string>, env: Env,
                        a: Interval, b: Interval, c: Interval)
    requires Honest(o) && e.Select? && WellTyped(e, types) && ReadOnce(e, supply.Keys) && NewNames(o, n, used)
    requires Finite(a) && Finite(b) && Finite(c)
    requires IntervalUses(a, used) && IntervalUses(b, used) && IntervalUses(c, used)
    requires Ends(a, env, Values(e.t, supply, env)) && Ends(b, env, Values(e.f, supply, env))
    requires Ends(c, env, Values(e.cond, supply, env))
    ensures Ends(SelectBounds(o, TypeOf(e), a, b, c, n).0, env, Values(e, supply, env))
  {
    var cs, xs, ys := Values(e.cond, supply, env), Values(e.t, supply, env), Values(e.f, supply, env);
    ValuesAreBits(e.cond, types, supply, env);
    if TypeOf(e).Bool? {
      ValuesAreBits(e.t, types, supply, env);
      ValuesAreBits(e.f, types, supply, env);
    }
    ChoicesAreValues(e, supply, env);
    hide Ends, Values, Honest, SelectBounds, NewNames, IntervalUses, WellTyped, ReadOnce, Choices;
    SelectEnds(o, TypeOf(e), a, b, c, n, used, env, cs, xs, ys);
    EndsMore(SelectBounds(o, TypeOf(e), a, b, c, n).0, env, Choices(cs, xs, ys), Values(e, supply, env));
  }

  lemma {:induction false} LetEnds(o: Oracle, e: Expr, scope: Scope, types: Types, supply: Supply, n: nat,
                                   used: set<string>, env: Env)
    requires e.Let?
    requires Placed(o, e, scope, types, n, used) && Committed(o, e, scope, n) && ReadOnce(e, supply.Keys)
    requires Supplied(scope, types, supply, env)
    ensures Ends(BoundsOf(o, e, scope, n).0, env, Values(e, supply, env))
    decreases e, 0
  {
    var (value, n1) := BoundsOf(o, e.value, scope, n);
    PlacedPart(o, e, e.value, scope, types, n, n, used);
    BoundsUse(o, e.value, scope, n, used);
    EndsAreValues(o, e.value, scope, types, supply, n, used, env);
    var xs := Values(e.value, supply, env);
    var scope', types', supply' := scope[e.name := Shown(e, value)], types[e.name := TypeOf(e.value)],
      supply[e.name := xs];
    var env', used' := BindBounds(env, e.name, value), used + {MinName(e.name), MaxName(e.name)};
    PlacedBody(o, e, scope, types, n, n1, used, value);
    SuppliedBody(o, e, scope, types, supply, n, used, env, value);
    assert supply'.Keys == supply.Keys + {e.name};
    EndsAreValues(o, e.body, scope', types', supply', n1, used', env');
    var r := BoundsOf(o, e.body, scope', n1).0;
    ValueNames(e, used, value);
    assert BoundsOf(o, e, scope, n).0
           == Interval(WrapBoth(r.min, e.name, value), WrapBoth(r.max, e.name, value));
    BodyValues(o, e, scope, types, supply, n, used, env, value);
    hide BoundsOf, Eval, Values, Hygienic, BindBounds, Placed, Supplied, ReadOnce, Committed;
    WrapEnds(r, e.name, value, env, env', Values(e.body, supply', env'));
    EndsMore(Interval(WrapBoth(r.min, e.name, value), WrapBoth(r.max, e.name, value)), env,
             Values(e.body, supply', env'), Values(e, supply, env));
  }

  lemma WrapEnds(r: Interval, v: string, value: Interval, env: Env, env': Env, vs: iset<int>)
    requires Ends(r, env', vs) && env' == BindBounds(env, v, value)
    requires value.min.Fin? ==> MaxName(v) !in Free(value.min.e)
    ensures Ends(Interval(WrapBoth(r.min, v, value), WrapBoth(r.max, v, value)), env, vs)
  {
    if r.min.Fin? {
      WrapMeans(r.min.e, v, value, env);
    }
    if r.max.Fin? {
      WrapMeans(r.max.e, v, value, env);
    }
    hide Eval, BindBounds, Free;
  }

  /** The body of a let is placed where its variable is seen by name. */
  lemma PlacedBody(o: Oracle, e: Expr, scope: Scope, types: Types, n: nat, n1: nat, used: set<string>, value: Interval)
    requires e.Let? && Placed(o, e, scope, types, n, used) && n <= n1 && IntervalUses(value, used)
    ensures Placed(o, e.body, scope[e.name := Shown(e, value)], types[e.name := TypeOf(e.value)], n1,
                   used + {MinName(e.name), MaxName(e.name)})
  {
    var scope', used' := scope[e.name := Shown(e, value)], used + {MinName(e.name), MaxName(e.name)};
    BodyScopeUses(e, scope, used, value);
    MoreScope(scope', used + ShownNames(e, value), used');
    assert used' + Derived(e.body) <= used + Derived(e);
    hide IntervalUses, WellTyped, Free;
  }

  /** Binding the names of bounds changes nothing that mentions other names only. */
  lemma EndsBound(i: Interval, e: Expr, used: set<string>, env: Env, value: Interval, vs: iset<int>)
    requires e.Let? && Hygienic(e, used) && IntervalUses(i, used) && Ends(i, env, vs)
    ensures Ends(i, BindBounds(env, e.name, value), vs)
  {
    var env' := BindBounds(env, e.name, value);
    if i.min.Fin? {
      EvalAgrees(i.min.e, env, env');
    }
    if i.max.Fin? {
      EvalAgrees(i.max.e, env, env');
    }
    hide Eval, Free, Hygienic;
  }

  /** In its body a let variable is seen with the ends of its value. */
  lemma ShownEnds(e: Expr, value: Interval, used: set<string>, env: Env, types: Types, vs: iset<int>)
    requires e.Let? && Hygienic(e, used) && IntervalUses(value, used) && Ends(value, env, vs)
    requires TypeOf(e.value).Bool? ==> forall x | x in vs :: IsBit(x)
    ensures Ends(Shown(e, value), BindBounds(env, e.name, value), vs)
  {
    NamesDiffer(e.name);
    ValueNames(e, used, value);
    var env' := BindBounds(env, e.name, value);
    if value.min.Fin? {
      ByNameMeans(value.min, MinName(e.name), TypeOf(e.value), env, env');
    }
    if value.max.Fin? {
      ByNameMeans(value.max, MaxName(e.name), TypeOf(e.value), env, env');
    }
    hide Eval, Free, Hygienic;
  }

  lemma ByNameMeans(b: Bound, name: string, ty: Type, env: Env, env': Env)
    requires b.Fin? && (ty.Bool? ==> IsBit(Eval(b.e, env)))
    requires !IsConst(b.e) ==> Get(env', name) == Eval(b.e, env)
    ensures var shown := ByName(b, name, ty); shown.Fin? && Eval(shown.e, env') == Eval(b.e, env)
  {
  }

  lemma SuppliedBody(o: Oracle, e: Expr, scope: Scope, types: Types, supply: Supply, n: nat, used: set<string>,
                     env: Env, value: Interval)
    requires e.Let? && Placed(o, e, scope, types, n, used) && Supplied(scope, types, supply, env)
    requires IntervalUses(value, used) && Ends(value, env, Values(e.value, supply, env))
    ensures Supplied(scope[e.name := Shown(e, value)], types[e.name := TypeOf(e.value)],
                     supply[e.name := Values(e.value, supply, env)], BindBounds(env, e.name, value))
  {
    var xs := Values(e.value, supply, env);
    var scope', env' := scope[e.name := Shown(e, value)], BindBounds(env, e.name, value);
    if TypeOf(e.value).Bool? {
      ValuesAreBits(e.value, types, supply, env);
    }
    hide Values, Eval, Free, WellTyped, NewNames, Honest, BindBounds;
    ShownEnds(e, value, used, env, types, xs);
    forall v | v in scope && v != e.name ensures Ends(scope[v], env', supply[v]) {
      assert IntervalUses(scope[v], used);
      EndsBound(scope[v], e, used, env, value, supply[v]);
    }
    hide Hygienic, Ends;
  }

  /** Values of the body, with the variable at values of the value, are values of the let. */
  lemma BodyValues(o: Oracle, e: Expr, scope: Scope, types: Types, supply: Supply, n: nat, used: set<string>, env: Env,
                   value: Interval)
    requires e.Let? && Placed(o, e, scope, types, n, used) && Supplied(scope, types, supply, env)
    requires ReadOnce(e, supply.Keys) && Ends(value, env, Values(e.value, supply, env))
    ensures Values(e.body, supply[e.name := Values(e.value, supply, env)], BindBounds(env, e.name, value))
            <= Values(e, supply, env)
  {
    var xs := Values(e.value, supply, env);
    var supply', env' := supply[e.name := xs], BindBounds(env, e.name, value);
    var some := SomeValue(value, env, xs);
    forall z | z in Values(e.body, supply', env') ensures z in Values(e, supply, env) {
      var vb: Env :| Allowed(Free(e.body), supply', vb, env') && Eval(e.body, vb) == z;
      var x := if e.name in Free(e.body) then Get(vb, e.name) else some;
      var vx: Env :| Allowed(Free(e.value), supply, vx, env) && Eval(e.value, vx) == x;
      forall v | v in Free(e.body) && v != e.name && v !in supply ensures Get(vb, v) == Get(env, v) {
        assert v in Outside(e, scope);
      }
      var val := BlendLet(e, supply, vx, vb, env);
      TakesValue(e, supply, env, val);
    }
  }

  lemma BlendLet(e: Expr, supply: Supply, vx: Env, vb: Env, env: Env) returns (val: Env)
    requires e.Let? && ReadOnce(e, supply.Keys) && Allowed(Free(e.value), supply, vx, env)
    requires Allowed(Free(e.body) - {e.name}, supply, vb, env)
    requires e.name in Free(e.body) ==> Get(vb, e.name) == Eval(e.value, vx)
    ensures Allowed(Free(e), supply, val, env) && Eval(e, val) == Eval(e.body, vb)
  {
    val := Blend(Free(e.value), vx, vb);
    forall v ensures Get(val, v) == if v in Free(e.value) then Get(vx, v) else Get(vb, v) {
      BlendGets(Free(e.value), vx, vb, v);
    }
    forall v | v in Free(e.body) - {e.name} ensures Get(val, v) == Get(vb, v) {
      if v in Free(e.value) {
        assert v !in Free(e.value) * (Free(e.body) - {e.name}) * supply.Keys;
      }
    }
    var x := Eval(e.value, val);
    hide Blend, Eval, ReadOnce;
    EvalAgrees(e.value, val, vx);
    EvalLet(e.name, e.value, e.body, val);
    forall v | v in Free(e.body) ensures Get(val[e.name := x], v) == Get(vb, v) {
    }
    EvalAgrees(e.body, val[e.name := x], vb);
  }

  /** What the intervals in scope allow. */
  ghost function Everyone(scope: Scope, types: Types, env: Env): Supply
    requires scope.Keys == types.Keys
  {
    map v | v in scope :: iset x | Contains(scope[v], env, x) && (types[v].Bool? ==> IsBit(x))
  }

  /** A condition in scope has bounds that are conditions. */
  ghost predicate Populated(scope: Scope, types: Types, env: Env) {
    && scope.Keys == types.Keys
    && forall v | v in scope ::
         && (exists x :: Contains(scope[v], env, x))
         && (types[v].Bool? ==>
                Finite(scope[v]) && IsBit(Eval(scope[v].min.e, env)) && IsBit(Eval(scope[v].max.e, env)))
  }

  /** bounds_of_expr_in_scope is exact: in every environment in which the intervals of the scope allow something, both
      ends of the interval of an expression that uses each variable of the scope once are values of the expression at
      allowed values, unless a visitor gives up. */
  lemma BoundsAreExact(o: Oracle, e: Expr, scope: Scope, types: Types, n: nat, used: set<string>, env: Env)
    requires Placed(o, e, scope, types, n, used) && Populated(scope, types, env)
    requires Committed(o, e, scope, n) && ReadOnce(e, scope.Keys)
    ensures Ends(BoundsOf(o, e, scope, n).0, env, Values(e, Everyone(scope, types, env), env))
  {
    EveryoneSupplied(scope, types, env);
    hide *;
    EndsAreValues(o, e, scope, types, Everyone(scope, types, env), n, used, env);
  }

  lemma EveryoneSupplied(scope: Scope, types: Types, env: Env)
    requires Populated(scope, types, env)
    ensures Supplied(scope, types, Everyone(scope, types, env), env) && Everyone(scope, types, env).Keys == scope.Keys
  {
    var supply := Everyone(scope, types, env);
    forall v | v in scope ensures Ends(scope[v], env, supply[v]) {
      var x :| Contains(scope[v], env, x);
      InsideEnds(scope[v], env, x);
      if types[v].Bool? {
        var i := scope[v];
        assert Contains(i, env, Eval(i.min.e, env)) && Contains(i, env, Eval(i.max.e, env));
      } else {
        assert supply[v] == Inside(scope[v], env);
      }
    }
  }
}
