/** Every coordinate written on a run lies in the inferred box, and the condition of that box is true. */
module BoxesSound {
  import opened Wrappers
  import opened BoundsIR
  import opened Intervals
  import opened BoundsExpr
  import opened BoundsSound
  import opened BoundsTheorem
  import opened Boxes
  import opened BoxesTouched
  import opened BoxesKeep

  // ----- what the statement and the run have to satisfy -----

  /** Every variable in scope is covered by its interval, and the names of conditions mean in the bounds
      what they mean in the run. */
  ghost predicate ScopeFits(scope: Scope, types: Types, conds: set<string>, val: Env, env: Env) {
    && scope.Keys == types.Keys
    && (forall v | v in scope :: Covers(scope[v], types[v], env, Eval(Var(v, types[v]), val)))
    && (forall v | v in conds && v !in scope :: Get(val, v) == Get(env, v))
  }

  /** The variables of lets still have the values of their lets. */
  ghost predicate LetsHold(lets: Lets, types: Types, val: Env) {
    forall k | 0 <= k < |lets| ::
      var (u, x) := lets[k];
      u in types && types[u] == TypeOf(x) && WellTyped(x, types) && Eval(Var(u, types[u]), val) == Eval(x, val)
  }

  /** The hypotheses of expression analysis, for one expression of the statement. */
  ghost predicate ExprOk(t: Tools, e: Expr, scope: Scope, types: Types, n: nat, used: set<string>, val: Env, env: Env) {
    && WellTyped(e, types) && Hygienic(e, used) && NewNames(t.o, n, used + Derived(e))
        && Guarded(t.o, e, scope, n, val, env)
  }

  ghost predicate ArgsOk(t: Tools, args: seq<Expr>, scope: Scope, types: Types, n: nat, used: set<string>, val: Env,
                         env: Env) {
    args != [] ==>
      && ExprOk(t, args[0], scope, types, n, used, val, env)
      && ArgsOk(t, args[1..], scope, types, BoundsOf(t.o, args[0], scope, n).1, used, val, env)
  }

  /** A range for the loop that is known from elsewhere is right. */
  ghost predicate LoopOk(t: Tools, s: Stmt, scope: Scope, types: Types, n: nat, used: set<string>, val: Env, env: Env)
    requires s.For?
  {
    var known, n1 := s.v + ".loop_min" in scope, LoopStart(t.o, s, scope, n).1;
    && TypeOf(s.min) == Int && TypeOf(s.extent) == Int
    && (if known then AtLeast(scope[s.v + ".loop_min"].min, env, Eval(s.min, val))
        && !scope[s.v + ".loop_min"].min.PosInf?
        else ExprOk(t, s.min, scope, types, n, used, val, env))
    && (if s.v + ".loop_max" in scope then
          AtMost(scope[s.v + ".loop_max"].max, env, Eval(s.min, val) + Eval(s.extent, val) - 1)
              && !scope[s.v + ".loop_max"].max.NegInf?
        else
          && ExprOk(t, s.extent, scope, types, n1, used, val, env)
          && ExprOk(t, s.min, scope, types, BoundsOf(t.o, s.extent, scope, n1).1, used, val, env))
  }

  ghost predicate RestrictionsOk(t: Tools, cond: Expr, vars: seq<string>, scope: Scope, types: Types, n: nat,
                                 used: set<string>, val: Env, env: Env)
    decreases |vars|
  {
    vars != [] ==>
      var v := vars[0];
      if v in scope && t.solve(cond, v).Some? && Understood(t.solve(cond, v).value) then
        var solved := t.solve(cond, v).value;
        && WellTyped(solved, types) && ExprOk(t, solved.b, scope, types, n, used, val, env)
        && RestrictionsOk(t, cond, vars[1..], scope, types, BoundsOf(t.o, solved.b, scope, n).1, used, val, env)
      else RestrictionsOk(t, cond, vars[1..], scope, types, n, used, val, env)
  }

  function NamesFor(t: Tools, n: nat): set<string> {
    {t.o.newName(n + 1), t.o.newName(n)}
  }

  /** Where the names of bounds mean what they stand for: a bound that is not known can have any value, such as the
      value that is bounded. */
  ghost function FittedEnv(env: Env, minName: string, low: Expr, lowKnown: bool, maxName: string, high: Expr,
                           highKnown: bool, y: int): Env {
    env[minName := if lowKnown then Eval(low, env) else y][maxName := if highKnown then Eval(high, env) else y]
  }

  /** The boxes use the name of a bound only if the bound is finite. */
  predicate NoInfinity(boxes: Map, minName: string, lowKnown: bool, maxName: string, highKnown: bool) {
    (Mentions(boxes, minName) ==> lowKnown) && (Mentions(boxes, maxName) ==> highKnown)
  }

  /** Binders are new, expressions can be analysed where they stand, and no infinity gets a name that is used. Only
      what the run executes matters. */
  ghost predicate StmtOk(t: Tools, s: Stmt, scope: Scope, types: Types, lets: Lets, boxes: Map, n: nat,
                         conds: set<string>, used: set<string>, val: Env, env: Env)
    decreases s, 1, 0
  {
    match s
    case NoOp => true
    case Provide(_, args) => ArgsOk(t, args, scope, types, n, used, val, env)
    case Block(a, b) =>
      var r := BoxesOf(t, a, scope, lets, boxes, n);
      && StmtOk(t, a, scope, types, lets, boxes, n, conds, used, val, env)
      && (r.Some? ==> StmtOk(t, b, scope, types, lets, r.value.0, r.value.1, conds, used, val, env))
    case For(v, lo, m, body) =>
      var r := LoopInterval(t.o, s, scope, n);
      && v !in scope && v !in conds && LoopOk(t, s, scope, types, n, used, val, env)
      && (r.Some? ==>
            forall k {:trigger val[v := k]} | Eval(lo, val) <= k < Eval(lo, val) + Eval(m, val) ::
              StmtOk(t, body, scope[v := r.value.0], types[v := Int], lets, boxes, r.value.1, conds, used, val[v := k],
                  env))
    case LetStmt(v, x, body) =>
      var (value, n1) := BoundsOf(t.o, x, scope, n);
      var i := Simplified(t, value);
      var lets', types', val' := lets + [(v, x)], types[v := TypeOf(x)], val[v := Eval(x, val)];
      && v !in scope && v !in conds && ExprOk(t, x, scope, types, n, used, val, env)
      && if IsSmall(i.min) && (SameBound(t.o, value.min, value.max) || IsSmall(i.max)) then
           StmtOk(t, body, scope[v := i], types', lets', boxes, n1, conds, used, val', env)
         else
           var r := BoxesOf(t, body, scope[v := NamedFor(t, x, n1)], lets', boxes, n1 + 2);
           && (r.Some? ==> NoInfinity(r.value.0, t.o.newName(n1 + 1), i.min.Fin?, t.o.newName(n1), i.max.Fin?))
           && StmtOk(t, body, scope[v := NamedFor(t, x, n1)], types', lets', boxes, n1 + 2, conds,
               used + NamesFor(t, n1), val', LetEnv(t, env, n1, i, Eval(x, val)))
    case IfThenElse(c, a, b) =>
      var taken := Eval(c, val) != 0;
      if UsesScope(c, scope) then
        if b.NoOp? then
          taken ==>
            var (pushes, n1) := Restrictions(t, c, Occurrences(c), scope, lets, n);
            && RestrictionsOk(t, c, Occurrences(c), scope, types, n, used, val, env)
            && TrimmedOk(t, a, pushes, scope, types, lets, boxes, n1, conds, used, val, env)
        else
          var r := BoxesOf(t, a, scope, lets, boxes, n);
          if taken then StmtOk(t, a, scope, types, lets, boxes, n, conds, used, val, env)
          else r.Some? ==> StmtOk(t, b, scope, types, lets, r.value.0, r.value.1, conds, used, val, env)
      else
        var r := BoxesOf(t, a, scope, lets, map[], n);
        if taken then StmtOk(t, a, scope, types, lets, map[], n, conds, used, val, env)
        else r.Some? ==> StmtOk(t, b, scope, types, lets, map[], r.value.1, conds, used, val, env)
  }

  ghost predicate TrimmedOk(t: Tools, s: Stmt, pushes: seq<Push>, scope: Scope, types: Types, lets: Lets, boxes: Map,
                            n: nat,
                            conds: set<string>, used: set<string>, val: Env, env: Env)
    requires forall p | p in pushes :: p.Dependent? ==> p.k < |lets|
    decreases s, 2, |pushes|
  {
    if pushes == [] then StmtOk(t, s, scope, types, lets, boxes, n, conds, used, val, env)
    else
      match pushes[0]
      case Given(v, i) =>
        v in scope && TrimmedOk(t, s, pushes[1..], scope[v := i], types, lets, boxes, n, conds, used, val, env)
      case Dependent(k) =>
        var (u, x) := lets[k];
        var r := Trimmed(t, s, pushes[1..], scope[u := NamedFor(t, x, n)], lets, boxes, n + 2);
        u in scope &&
        (r.Some? ==>
           var i, known := Simplified(t, BoundsOf(t.o, x, scope, r.value.1).0), Known(scope, u);
           && ExprOk(t, x, scope, types, r.value.1, used, val, env)
           && NoInfinity(r.value.0, t.o.newName(n + 1), LowKnown(i, known), t.o.newName(n), HighKnown(i, known))
           && TrimmedOk(t, s, pushes[1..], scope[u := NamedFor(t, x, n)], types, lets, boxes, n + 2, conds,
               used + NamesFor(t, n), val, TrimEnv(t, env, n, i, known, Eval(Var(u, TypeOf(x)), val))))
  }

  predicate LowKnown(i: Interval, known: Interval) {
    i.min.Fin? && known.min.Fin?
  }

  predicate HighKnown(i: Interval, known: Interval) {
    i.max.Fin? && known.max.Fin?
  }

  ghost function LetEnv(t: Tools, env: Env, n: nat, i: Interval, y: int): Env {
    FittedEnv(env, t.o.newName(n + 1), AsExpr(i.min), i.min.Fin?, t.o.newName(n), AsExpr(i.max), i.max.Fin?, y)
  }

  ghost function TrimEnv(t: Tools, env: Env, n: nat, i: Interval, known: Interval, y: int): Env {
    FittedEnv(env, t.o.newName(n + 1), TrimmedLow(t, i, known), LowKnown(i, known), t.o.newName(n),
        TrimmedHigh(t, i, known), HighKnown(i, known), y)
  }

  // ----- expressions -----

  lemma ExprSound(t: Tools, e: Expr, scope: Scope, types: Types, lets: Lets, n0: nat, n: nat, conds: set<string>,
                  used: set<string>, val: Env, env: Env)
    requires Setup(t, scope, lets, n0, conds, used) && ScopeFits(scope, types, conds, val, env)
    requires Outside(e, scope) <= conds && ExprOk(t, e, scope, types, n, used, val, env)
    ensures Covers(BoundsOf(t.o, e, scope, n).0, TypeOf(e), env, Eval(e, val))
  {
    forall v | v in Free(e) && v !in scope ensures Get(val, v) == Get(env, v) {
      assert v in Outside(e, scope);
    }
    assert Fits(e, scope, types, val, env);
    hide Covers, Guarded, Hygienic, Fits, WellTyped, ScopeFits;
    BoundsAreSound(t.o, e, scope, types, n, used, val, env);
  }

  lemma {:induction false} ArgsSound(t: Tools, args: seq<Expr>, scope: Scope, types: Types, lets: Lets, n0: nat,
                                     n: nat, conds: set<string>, used: set<string>,
                                     val: Env, env: Env)
    requires Setup(t, scope, lets, n0, conds, used) && ScopeFits(scope, types, conds, val, env)
    requires ArgsFree(args) - scope.Keys <= conds && ArgsOk(t, args, scope, types, n, used, val, env)
    ensures var b := ArgBounds(t.o, args, scope, n).0;
            |b| == |args| && forall i | 0 <= i < |args| :: NonEmpty(b[i]) && Contains(b[i], env, Eval(args[i], val))
    decreases |args|
  {
    if args != [] {
      ExprSound(t, args[0], scope, types, lets, n0, n, conds, used, val, env);
      ArgsSound(t, args[1..], scope, types, lets, n0, BoundsOf(t.o, args[0], scope, n).1, conds, used, val, env);
    }
    hide Setup, ScopeFits, ExprOk, Contains, BoundsOf, Eval, Free;
  }

  /** The computed upper end of a loop. */
  lemma LoopEndCovers(extent: Bound, start: Bound, env: Env, lo: int, n: int, k: int)
    requires AtMost(extent, env, n) && AtMost(start, env, lo) && k < lo + n && LoopEnd(extent, start).Some?
    ensures AtMost(LoopEnd(extent, start).value, env, k)
  {
    var total := Bin(Add, extent.e, start.e);
    EvalBin(Add, extent.e, start.e, env);
    EvalImm(One(Int), env);
    EvalBin(Sub, total, One(Int), env);
    hide Eval;
  }

  /** The loop interval covers every iteration. */
  lemma LoopSound(t: Tools, s: Stmt, scope: Scope, types: Types, lets: Lets, n: nat, conds: set<string>,
                  used: set<string>,
                  val: Env, env: Env, k: int)
    requires s.For? && Setup(t, scope, lets, n, conds, used) && ScopeFits(scope, types, conds, val, env)
    requires Outside(s.min, scope) <= conds && Outside(s.extent, scope) <= conds
    requires LoopOk(t, s, scope, types, n, used, val, env)
    requires Eval(s.min, val) <= k < Eval(s.min, val) + Eval(s.extent, val) && LoopInterval(t.o, s, scope, n).Some?
    ensures Covers(LoopInterval(t.o, s, scope, n).value.0, Int, env, k)
  {
    hide Setup, ScopeFits, ExprOk, BoundsOf, Eval, Outside, LoopEnd;
    var known, n1 := s.v + ".loop_min" in scope, LoopStart(t.o, s, scope, n).1;
    if !known {
      ExprSound(t, s.min, scope, types, lets, n, n, conds, used, val, env);
    }
    if s.v + ".loop_max" !in scope {
      var (extent, n2) := BoundsOf(t.o, s.extent, scope, n1);
      ExprSound(t, s.extent, scope, types, lets, n, n1, conds, used, val, env);
      ExprSound(t, s.min, scope, types, lets, n, n2, conds, used, val, env);
      LoopEndCovers(extent.max, BoundsOf(t.o, s.min, scope, n2).0.max, env, Eval(s.min, val), Eval(s.extent, val), k);
    }
  }

  lemma SimplifiedCovers(t: Tools, i: Interval, ty: Type, env: Env, x: int)
    requires Reliable(t) && Covers(i, ty, env, x)
    ensures Covers(Simplified(t, i), ty, env, x)
  {
    SameBoundIsEqual(t.o, i.min, i.max);
    if ty.Bool? {
      SimplifiedBits(t, i.min.e);
      SimplifiedBits(t, i.max.e);
    }
    hide BitValued;
  }

  lemma SimplifiedBits(t: Tools, e: Expr)
    requires Reliable(t) && BitValued(e)
    ensures BitValued(t.simplify(e))
  {
    forall env: Env ensures IsBit(Eval(t.simplify(e), env)) {
      assert IsBit(Eval(e, env));
    }
  }

  /** Between two values, under the names of the two. */
  lemma FittedCovers(minName: string, low: Expr, lowKnown: bool, maxName: string, high: Expr, highKnown: bool, ty: Type,
                     env: Env, x: int)
    requires minName != maxName && (lowKnown ==> Eval(low, env) <= x) && (highKnown ==> x <= Eval(high, env))
    requires ty.Bool? ==> IsBit(x) && (lowKnown ==> IsBit(Eval(low, env))) && (highKnown ==> IsBit(Eval(high, env)))
    ensures Covers(Interval(Fin(Var(minName, ty)), Fin(Var(maxName, ty))), ty,
            FittedEnv(env, minName, low, lowKnown, maxName, high, highKnown, x), x)
  {
  }

  lemma FittedAgree(env: Env, minName: string, low: Expr, lowKnown: bool, maxName: string, high: Expr, highKnown: bool,
                    y: int, used: set<string>)
    requires minName !in used && maxName !in used
    ensures AgreeOn(used, env, FittedEnv(env, minName, low, lowKnown, maxName, high, highKnown, y))
  {
  }

  /** What is in the boxes where the names mean what they stand for is in the boxes with the names bound. */
  lemma FittedMeans(inside: Map, minName: string, low: Expr, lowKnown: bool, maxName: string, high: Expr,
                    highKnown: bool, env: Env, y: int, f: string, at: seq<int>, conds: set<string>, k: set<string>,
                    dims: Dims)
    requires Tidy(inside, conds, k, dims) && minName != maxName && minName !in Free(high)
    requires minName !in conds && maxName !in conds && NoInfinity(inside, minName, lowKnown, maxName, highKnown)
    requires InMap(inside, FittedEnv(env, minName, low, lowKnown, maxName, high, highKnown, y), f, at)
    ensures InMap(NameAll(inside, minName, low, maxName, high), env, f, at)
  {
    var fitted := FittedEnv(env, minName, low, lowKnown, maxName, high, highKnown, y);
    var named := NamedEnv(env, minName, low, maxName, high);
    var b := inside[f];
    assert TidyBox(b, conds, k, dims(f));
    assert forall v | v != minName && v != maxName :: Get(fitted, v) == Get(named, v);
    assert lowKnown ==> Get(fitted, minName) == Get(named, minName);
    assert highKnown ==> Get(fitted, maxName) == Get(named, maxName);
    if b.used.Some? {
      EvalAgrees(b.used.value, fitted, named);
    } else {
      EvalImm(One(Bool), fitted);
      EvalImm(One(Bool), named);
    }
    forall i | 0 <= i < |at| ensures Contains(b.bounds[i], named, at[i]) {
      assert EndMentions(b.bounds[i].min, minName) ==> BoxMentions(b, minName);
      assert EndMentions(b.bounds[i].max, minName) ==> BoxMentions(b, minName);
      assert EndMentions(b.bounds[i].min, maxName) ==> BoxMentions(b, maxName);
      assert EndMentions(b.bounds[i].max, maxName) ==> BoxMentions(b, maxName);
      EndAgrees(b.bounds[i].min, minName, maxName, fitted, named);
      EndAgrees(b.bounds[i].max, minName, maxName, fitted, named);
      hide Eval, Names, Free;
    }
    hide Eval, Free, Names, Contains;
    assert InMap(inside, named, f, at);
    NameAllMeans(inside, minName, low, maxName, high, env, f, at, conds, k, dims);
  }

  /** An end that does not use a name does not depend on it. */
  lemma EndAgrees(b: Bound, v: string, w: string, env: Env, env': Env)
    requires forall u | u != v && u != w :: Get(env, u) == Get(env', u)
    requires EndMentions(b, v) ==> Get(env, v) == Get(env', v)
    requires EndMentions(b, w) ==> Get(env, w) == Get(env', w)
    ensures b.Fin? ==> Eval(b.e, env) == Eval(b.e, env')
  {
    if b.Fin? {
      FreeAreNames(b.e);
      EvalAgrees(b.e, env, env');
    }
  }

  /** New names change nothing about what is already covered. */
  lemma CoversLater(i: Interval, ty: Type, env: Env, env': Env, x: int, used: set<string>)
    requires Covers(i, ty, env, x) && IntervalUses(i, used) && AgreeOn(used, env, env')
    ensures Covers(i, ty, env', x)
  {
    IntervalAgrees(i, env, env', used, x);
  }

  lemma FitsLater(t: Tools, scope: Scope, types: Types, lets: Lets, n: nat, conds: set<string>, used: set<string>,
                  val: Env, env: Env, env': Env)
    requires Setup(t, scope, lets, n, conds, used) && ScopeFits(scope, types, conds, val, env)
             && AgreeOn(used, env, env')
    ensures ScopeFits(scope, types, conds, val, env')
  {
    forall v | v in scope ensures Covers(scope[v], types[v], env', Eval(Var(v, types[v]), val)) {
      CoversLater(scope[v], types[v], env, env', Eval(Var(v, types[v]), val), used);
    }
    hide Covers, Reliable, IntervalUses;
  }

  /** A new binder enters the scope. */
  lemma FitsPush(scope: Scope, types: Types, conds: set<string>, val: Env, env: Env, v: string, ty: Type, i: Interval,
                 x: int)
    requires ScopeFits(scope, types, conds, val, env) && v !in scope && v !in conds && Covers(i, ty, env, x)
    requires ty.Bool? ==> IsBit(x)
    ensures ScopeFits(scope[v := i], types[v := ty], conds, val[v := x], env)
  {
    var scope', types', val' := scope[v := i], types[v := ty], val[v := x];
    forall u | u in scope' ensures Covers(scope'[u], types'[u], env, Eval(Var(u, types'[u]), val')) {
      if u == v {
        EvalVar(v, ty, val, x);
      } else {
        EvalUpdate(Var(u, types[u]), val, v, x);
      }
    }
    hide Covers, Eval;
  }

  /** A variable in scope gets another interval. */
  lemma FitsReplace(scope: Scope, types: Types, conds: set<string>, val: Env, env: Env, v: string, i: Interval)
    requires ScopeFits(scope, types, conds, val, env) && v in scope
             && Covers(i, types[v], env, Eval(Var(v, types[v]), val))
    ensures ScopeFits(scope[v := i], types, conds, val, env)
  {
  }

  lemma {:induction false} WellTypedMore(e: Expr, types: Types, v: string, ty: Type)
    requires WellTyped(e, types) && v !in Free(e)
    ensures WellTyped(e, types[v := ty])
    decreases e
  {
    match e
    case Imm(_, _) =>
    case Var(_, _) =>
    case Bin(_, a, b) => WellTypedMore(a, types, v, ty); WellTypedMore(b, types, v, ty);
    case Not(a) => WellTypedMore(a, types, v, ty);
    case Select(c, t, f) => WellTypedMore(c, types, v, ty); WellTypedMore(t, types, v, ty);
        WellTypedMore(f, types, v, ty);
    case Let(u, x, b) =>
      WellTypedMore(x, types, v, ty);
      if u == v {
        assert types[v := ty][u := TypeOf(x)] == types[u := TypeOf(x)];
      } else {
        WellTypedMore(b, types[u := TypeOf(x)], v, ty);
        assert types[v := ty][u := TypeOf(x)] == types[u := TypeOf(x)][v := ty];
      }
  }

  /** A new binder leaves the lets as they are. */
  lemma LetsLater(t: Tools, scope: Scope, types: Types, lets: Lets, n: nat, conds: set<string>, used: set<string>,
                  val: Env,
                  v: string, ty: Type, y: int)
    requires Setup(t, scope, lets, n, conds, used) && LetsHold(lets, types, val) && scope.Keys == types.Keys
    requires v !in scope && v !in conds
    ensures LetsHold(lets, types[v := ty], val[v := y])
    ensures forall k | 0 <= k < |lets| :: v !in Free(lets[k].1)
  {
    forall k | 0 <= k < |lets|
      ensures v !in Free(lets[k].1)
      ensures var (u, x) := lets[k];
              u in types && u != v && types[u] == TypeOf(x) && WellTyped(x, types[v := ty])
              && Eval(Var(u, types[u]), val[v := y]) == Eval(x, val[v := y])
    {
      var (u, x) := lets[k];
      assert v in Free(x) ==> v in Outside(x, scope);
      WellTypedMore(x, types, v, ty);
      EvalUpdate(x, val, v, y);
      EvalUpdate(Var(u, types[u]), val, v, y);
    }
    hide Eval, WellTyped, Free, Reliable;
  }

  /** A let joins the lets. */
  lemma LetsJoin(t: Tools, scope: Scope, types: Types, lets: Lets, n: nat, conds: set<string>, used: set<string>,
                 val: Env, v: string, x: Expr)
    requires Setup(t, scope, lets, n, conds, used) && LetsHold(lets, types, val) && scope.Keys == types.Keys
    requires v !in scope && v !in conds && Outside(x, scope) <= conds && WellTyped(x, types)
    ensures LetsHold(lets + [(v, x)], types[v := TypeOf(x)], val[v := Eval(x, val)])
  {
    var y := Eval(x, val);
    LetsLater(t, scope, types, lets, n, conds, used, val, v, TypeOf(x), y);
    assert v in Free(x) ==> v in Outside(x, scope);
    WellTypedMore(x, types, v, TypeOf(x));
    EvalUpdate(x, val, v, y);
    if TypeOf(x).Bool? {
      BoolIsBit(x, types, val);
    }
    EvalVar(v, TypeOf(x), val, y);
    hide Eval, WellTyped, Free, Setup;
  }

  // ----- restricted ranges -----

  /** Where the condition holds, the restricted interval still covers the variable. */
  lemma RestrictCovers(op: BinOp, i: Interval, rhs: Interval, env: Env, x: int, y: int)
    requires op in {LT, LE, GT, GE, EQ} && Covers(i, Int, env, x) && Covers(rhs, Int, env, y) && Apply(op, x, y) != 0
    ensures Covers(Restrict(op, i, rhs), Int, env, x)
  {
    EvalImm(One(Int), env);
    if rhs.min.Fin? && i.min.Fin? {
      var low := if op == GT then Bin(Add, rhs.min.e, One(Int)) else rhs.min.e;
      EvalBin(Add, rhs.min.e, One(Int), env);
      EvalBin(Max, i.min.e, low, env);
    }
    if rhs.max.Fin? && i.max.Fin? {
      var high := if op == LT then Bin(Sub, rhs.max.e, One(Int)) else rhs.max.e;
      EvalBin(Sub, rhs.max.e, One(Int), env);
      EvalBin(Min, i.max.e, high, env);
    }
    hide Eval;
  }

  /** Every interval that is pushed covers its variable. */
  ghost predicate PushesFit(pushes: seq<Push>, types: Types, val: Env, env: Env) {
    forall p | p in pushes && p.Given? :: p.v in types && Covers(p.i, types[p.v], env, Eval(Var(p.v, types[p.v]), val))
  }

  lemma {:induction false} RestrictionsFit(t: Tools, cond: Expr, vars: seq<string>, scope: Scope, types: Types,
                                           lets: Lets, n0: nat, n: nat,
                                           conds: set<string>, used: set<string>, val: Env, env: Env)
    requires Setup(t, scope, lets, n0, conds, used) && ScopeFits(scope, types, conds, val, env)
             && Outside(cond, scope) <= conds
    requires RestrictionsOk(t, cond, vars, scope, types, n, used, val, env) && Eval(cond, val) != 0
    ensures PushesFit(Restrictions(t, cond, vars, scope, lets, n).0, types, val, env)
    decreases |vars|
  {
    hide Setup, ScopeFits, ExprOk, Covers, Restrict, BoundsOf, Eval, Dependents, Outside;
    if vars != [] {
      var v := vars[0];
      if v in scope && t.solve(cond, v).Some? && Understood(t.solve(cond, v).value) {
        var solved := t.solve(cond, v).value;
        OneRestriction(t, cond, v, scope, types, lets, n0, n, conds, used, val, env);
        RestrictionsFit(t, cond, vars[1..], scope, types, lets, n0, BoundsOf(t.o, solved.b, scope, n).1, conds, used,
            val, env);
      } else {
        RestrictionsFit(t, cond, vars[1..], scope, types, lets, n0, n, conds, used, val, env);
      }
    }
  }

  lemma OneRestriction(t: Tools, cond: Expr, v: string, scope: Scope, types: Types, lets: Lets, n0: nat, n: nat,
                       conds: set<string>, used: set<string>, val: Env, env: Env)
    requires Setup(t, scope, lets, n0, conds, used) && ScopeFits(scope, types, conds, val, env)
             && Outside(cond, scope) <= conds
    requires v in scope && t.solve(cond, v).Some? && Understood(t.solve(cond, v).value) && Eval(cond, val) != 0
    requires var solved := t.solve(cond, v).value;
             WellTyped(solved, types) && ExprOk(t, solved.b, scope, types, n, used, val, env)
    ensures var solved := t.solve(cond, v).value;
            v in types && types[v] == Int
            && Covers(Restrict(solved.op, scope[v], BoundsOf(t.o, solved.b, scope, n).0), Int, env,
                Eval(Var(v, Int), val))
  {
    var solved := t.solve(cond, v).value;
    assert Eval(solved, val) != 0 && SolvedFor(solved, v) && Free(solved) <= Free(cond);
    assert solved.a == Var(v, Int) && types[v] == Int;
    EvalBin(solved.op, solved.a, solved.b, val);
    ExprSound(t, solved.b, scope, types, lets, n0, n, conds, used, val, env);
    hide Eval, Setup, ExprOk, Reliable, Covers, Apply;
    RestrictCovers(solved.op, scope[v], BoundsOf(t.o, solved.b, scope, n).0, env, Eval(Var(v, Int), val),
        Eval(solved.b, val));
  }

  // ----- the theorem -----

  ghost predicate Running(t: Tools, s: Stmt, scope: Scope, types: Types, lets: Lets, boxes: Map, n: nat,
                          conds: set<string>, used: set<string>, dims: Dims, val: Env, env: Env) {
    && Setup(t, scope, lets, n, conds, used) && StmtFree(s) - scope.Keys <= conds
    && Sized(s, dims) && Tidy(boxes, conds, used, dims)
    && ScopeFits(scope, types, conds, val, env) && LetsHold(lets, types, val)
  }

  /** A run writes as many coordinates as the function has dimensions. */
  lemma {:induction false} TouchesSize(s: Stmt, val: Env, f: string, at: seq<int>, dims: Dims)
    requires Sized(s, dims) && Touches(s, val, f, at)
    ensures |at| == dims(f)
  {
    match s
    case NoOp =>
    case Provide(_, _) =>
    case Block(a, b) =>
      if Touches(a, val, f, at) {
        TouchesSize(a, val, f, at, dims);
      } else {
        TouchesSize(b, val, f, at, dims);
      }
    case For(v, lo, m, body) =>
      var k :| Eval(lo, val) <= k < Eval(lo, val) + Eval(m, val) && Touches(body, val[v := k], f, at);
      TouchesSize(body, val[v := k], f, at, dims);
    case LetStmt(v, x, body) => TouchesSize(body, val[v := Eval(x, val)], f, at, dims);
    case IfThenElse(c, a, b) => TouchesSize(if Eval(c, val) != 0 then a else b, val, f, at, dims);
  }

  /** Where the pass does not stop. */
  ghost predicate Found(r: Outcome, env: Env, f: string, at: seq<int>) {
    r.Some? ==> InMap(r.value.0, env, f, at)
  }

  /** boxes_touched is sound for provides: if the pass does not stop, every coordinate written on the run is in the
      box of its function, and the condition of that box is true. */
  lemma {:induction false} BoxesAreSound(t: Tools, s: Stmt, scope: Scope, types: Types, lets: Lets, boxes: Map, n: nat,
                                         conds: set<string>, used: set<string>, dims: Dims, val: Env, env: Env,
                                         f: string, at: seq<int>)
    requires Running(t, s, scope, types, lets, boxes, n, conds, used, dims, val, env)
    requires StmtOk(t, s, scope, types, lets, boxes, n, conds, used, val, env) && Touches(s, val, f, at)
    ensures |at| == dims(f) && Found(BoxesOf(t, s, scope, lets, boxes, n), env, f, at)
    decreases s, 1, 0
  {
    TouchesSize(s, val, f, at, dims);
    match s
    case NoOp =>
    case Provide(_, _) => ProvideSound(t, s, scope, types, lets, boxes, n, conds, used, dims, val, env, f, at);
    case Block(_, _) =>
      hide *;
      BlockSound(t, s, scope, types, lets, boxes, n, conds, used, dims, val, env, f, at);
    case For(_, _, _, _) =>
      hide *;
      ForSound(t, s, scope, types, lets, boxes, n, conds, used, dims, val, env, f, at);
    case LetStmt(_, _, _) =>
      hide *;
      LetStmtSound(t, s, scope, types, lets, boxes, n, conds, used, dims, val, env, f, at);
    case IfThenElse(_, _, _) =>
      hide *;
      IfSound(t, s, scope, types, lets, boxes, n, conds, used, dims, val, env, f, at);
  }

  lemma {:induction false} BlockSound(t: Tools, s: Stmt, scope: Scope, types: Types, lets: Lets, boxes: Map, n: nat,
                                      conds: set<string>, used: set<string>, dims: Dims, val: Env, env: Env, f: string,
                                      at: seq<int>)
    requires s.Block? && Running(t, s, scope, types, lets, boxes, n, conds, used, dims, val, env)
    requires StmtOk(t, s, scope, types, lets, boxes, n, conds, used, val, env) && Touches(s, val, f, at)
    requires |at| == dims(f)
    ensures Found(BoxesOf(t, s, scope, lets, boxes, n), env, f, at)
    decreases s, 0, 1
  {
    var a, b := s.first, s.rest;
    hide *;
    RunParts(t, s, scope, types, lets, boxes, n, conds, used, dims, val, env);
    BlockParts(t, s, scope, types, lets, boxes, n, conds, used, dims, val, env, f, at);
    BoxesKept(t, a, scope, lets, boxes, n, conds, used, dims);
    MakeRunning(t, a, scope, types, lets, boxes, n, conds, used, dims, val, env);
    var r, whole := BoxesOf(t, a, scope, lets, boxes, n), BoxesOf(t, s, scope, lets, boxes, n);
    if r.Some? {
      var (boxes1, n1) := r.value;
      KeptTidy(boxes, r, n, conds, used, dims);
      SetupLater(t, scope, lets, n, n1, conds, used);
      BoxesKept(t, b, scope, lets, boxes1, n1, conds, used, dims);
      MakeRunning(t, b, scope, types, lets, boxes1, n1, conds, used, dims, val, env);
      if Touches(a, val, f, at) {
        BoxesAreSound(t, a, scope, types, lets, boxes, n, conds, used, dims, val, env, f, at);
        FoundIn(r, env, f, at);
        KeptFound(boxes1, whole, n1, conds, used, dims, env, f, at);
      } else {
        BoxesAreSound(t, b, scope, types, lets, boxes1, n1, conds, used, dims, val, env, f, at);
      }
    } else {
      FoundIfStopped(whole, env, f, at);
    }
  }

  /** The hypotheses of a block, taken apart. */
  lemma BlockParts(t: Tools, s: Stmt, scope: Scope, types: Types, lets: Lets, boxes: Map, n: nat, conds: set<string>,
                   used: set<string>, dims: Dims, val: Env, env: Env, f: string, at: seq<int>)
    requires s.Block? && StmtOk(t, s, scope, types, lets, boxes, n, conds, used, val, env) && Touches(s, val, f, at)
    requires StmtFree(s) - scope.Keys <= conds && Sized(s, dims)
    ensures StmtFree(s.first) - scope.Keys <= conds && StmtFree(s.rest) - scope.Keys <= conds
    ensures Sized(s.first, dims) && Sized(s.rest, dims) && (Touches(s.first, val, f, at) || Touches(s.rest, val, f, at))
    ensures StmtOk(t, s.first, scope, types, lets, boxes, n, conds, used, val, env)
    ensures var r := BoxesOf(t, s.first, scope, lets, boxes, n);
            if r.None? then BoxesOf(t, s, scope, lets, boxes, n).None?
            else
              && StmtOk(t, s.rest, scope, types, lets, r.value.0, r.value.1, conds, used, val, env)
              && BoxesOf(t, s, scope, lets, boxes, n) == BoxesOf(t, s.rest, scope, lets, r.value.0, r.value.1)
  {
  }

  lemma RunParts(t: Tools, s: Stmt, scope: Scope, types: Types, lets: Lets, boxes: Map, n: nat,
                 conds: set<string>, used: set<string>, dims: Dims, val: Env, env: Env)
    requires Running(t, s, scope, types, lets, boxes, n, conds, used, dims, val, env)
    ensures Setup(t, scope, lets, n, conds, used) && StmtFree(s) - scope.Keys <= conds
    ensures Sized(s, dims) && Tidy(boxes, conds, used, dims)
    ensures ScopeFits(scope, types, conds, val, env) && LetsHold(lets, types, val)
  {
  }

  /** What was found before is still there. */
  lemma KeptFound(boxes: Map, r: Outcome, n: nat, conds: set<string>, k: set<string>, dims: Dims, env: Env, f: string,
                  at: seq<int>)
    requires KeepsIfDone(boxes, r, n, conds, k, dims) && InMap(boxes, env, f, at) && |at| == dims(f)
    ensures Found(r, env, f, at)
  {
  }

  lemma {:induction false} ForSound(t: Tools, s: Stmt, scope: Scope, types: Types, lets: Lets, boxes: Map, n: nat,
                                    conds: set<string>, used: set<string>, dims: Dims, val: Env, env: Env, f: string,
                                    at: seq<int>)
    requires s.For? && Running(t, s, scope, types, lets, boxes, n, conds, used, dims, val, env)
    requires StmtOk(t, s, scope, types, lets, boxes, n, conds, used, val, env) && Touches(s, val, f, at)
    requires |at| == dims(f)
    ensures Found(BoxesOf(t, s, scope, lets, boxes, n), env, f, at)
    decreases s, 0, 1
  {
    var v, lo, m, body := s.v, s.min, s.extent, s.body;
    var k :| Eval(lo, val) <= k < Eval(lo, val) + Eval(m, val) && Touches(body, val[v := k], f, at);
    var r := LoopInterval(t.o, s, scope, n);
    if r.Some? {
      var (i, n1) := r.value;
      assert LoopOk(t, s, scope, types, n, used, val, env);
      LoopSound(t, s, scope, types, lets, n, conds, used, val, env, k);
      BoxesKeep.LoopOk(t.o, s, scope, n, conds, used);
      SetupPush(t, scope, lets, n, n1, conds, used, v, i);
      FitsPush(scope, types, conds, val, env, v, Int, i, k);
      LetsLater(t, scope, types, lets, n, conds, used, val, v, Int, k);
      assert StmtOk(t, body, scope[v := i], types[v := Int], lets, boxes, n1, conds, used, val[v := k], env);
      hide LoopInterval, Setup, ScopeFits, LetsHold, Tidy, InMap, StmtOk, LoopOk, Covers;
      BoxesAreSound(t, body, scope[v := i], types[v := Int], lets, boxes, n1, conds, used, dims, val[v := k], env, f,
          at);
    }
    hide LoopInterval, Setup, ScopeFits, LetsHold, Tidy, InMap, StmtOk, LoopOk, Covers;
  }

  lemma ProvideSound(t: Tools, s: Stmt, scope: Scope, types: Types, lets: Lets, boxes: Map, n: nat,
                     conds: set<string>, used: set<string>, dims: Dims, val: Env, env: Env, f: string, at: seq<int>)
    requires s.Provide? && Running(t, s, scope, types, lets, boxes, n, conds, used, dims, val, env)
    requires ArgsOk(t, s.args, scope, types, n, used, val, env) && Touches(s, val, f, at)
    requires |at| == dims(f)
    ensures Found(BoxesOf(t, s, scope, lets, boxes, n), env, f, at)
  {
    ArgsSound(t, s.args, scope, types, lets, n, n, conds, used, val, env);
    BoxesKeep.ArgsOk(t.o, s.args, scope, n, conds, used);
    var b := ArgBounds(t.o, s.args, scope, n).0;
    ProvideTidy(b, conds, used, dims(f));
    EvalImm(One(Bool), env);
    hide Eval, ArgBounds, Contains, TidyBox, Setup, ArgsOk;
    assert InBox(Box(None, b), env, at);
    MergeAtKeeps(t, boxes, f, Box(None, b), conds, used, dims);
    hide MergeAt, InBox;
  }

  /** What the two cases of a let start from, once the bounds of its value are known. */
  ghost predicate LetReady(t: Tools, s: Stmt, scope: Scope, types: Types, lets: Lets, boxes: Map, n: nat,
                           conds: set<string>, used: set<string>, dims: Dims, val: Env, env: Env, f: string,
                           at: seq<int>, i: Interval) {
    && s.LetStmt? && Setup(t, scope, lets, n, conds, used) && StmtFree(s) - scope.Keys <= conds && Sized(s, dims)
    && Tidy(boxes, conds, used, dims) && ScopeFits(scope, types, conds, val, env) && s.v !in scope && s.v !in conds
    && var y, ty := Eval(s.value, val), TypeOf(s.value);
       && IntervalUses(i, used) && NonEmpty(i) && Covers(i, ty, env, y) && (ty.Bool? ==> IsBit(y))
       && LetsHold(lets, types[s.v := ty], val[s.v := y]) && Touches(s.body, val[s.v := y], f, at)
  }

  lemma {:induction false} LetStmtSound(t: Tools, s: Stmt, scope: Scope, types: Types, lets: Lets, boxes: Map, n: nat,
                                        conds: set<string>, used: set<string>, dims: Dims, val: Env, env: Env,
                                        f: string, at: seq<int>)
    requires s.LetStmt? && Running(t, s, scope, types, lets, boxes, n, conds, used, dims, val, env)
    requires StmtOk(t, s, scope, types, lets, boxes, n, conds, used, val, env) && Touches(s, val, f, at)
    requires |at| == dims(f)
    ensures Found(BoxesOf(t, s, scope, lets, boxes, n), env, f, at)
    decreases s, 0, 1
  {
    hide *;
    var (value, n1) := BoundsOf(t.o, s.value, scope, n);
    var i, lets' := Simplified(t, value), lets + [(s.v, s.value)];
    LetIsReady(t, s, scope, types, lets, boxes, n, conds, used, dims, val, env, f, at);
    LetParts(t, s, scope, types, lets, boxes, n, conds, used, val, env);
    LetUnfolds(t, s, scope, lets, boxes, n);
    if KeptSmall(t, value) {
      LetSmallSound(t, s, scope, types, lets', boxes, n1, conds, used, dims, val, env, f, at, i);
    } else {
      LetNamedSound(t, s, scope, types, lets', boxes, n1, conds, used, dims, val, env, f, at, i);
    }
  }

  lemma LetIsReady(t: Tools, s: Stmt, scope: Scope, types: Types, lets: Lets, boxes: Map, n: nat,
                   conds: set<string>, used: set<string>, dims: Dims, val: Env, env: Env, f: string, at: seq<int>)
    requires s.LetStmt? && Running(t, s, scope, types, lets, boxes, n, conds, used, dims, val, env)
    requires StmtOk(t, s, scope, types, lets, boxes, n, conds, used, val, env) && Touches(s, val, f, at)
    ensures var (value, n1) := BoundsOf(t.o, s.value, scope, n);
            LetReady(t, s, scope, types, lets + [(s.v, s.value)], boxes, n1, conds, used, dims, val, env, f, at,
                Simplified(t, value))
  {
    LetParts(t, s, scope, types, lets, boxes, n, conds, used, val, env);
    assert Outside(s.value, scope) <= conds;
    assert Touches(s.body, val[s.v := Eval(s.value, val)], f, at);
    hide Touches, StmtOk, BoxesOf, BoundsOf, Simplified, KeptSmall, Tidy, InMap, StmtFree, Setup, ScopeFits, LetsHold,
        ExprOk, Eval, Covers;
    LetValue(t, scope, types, lets, n, conds, used, val, env, s.v, s.value);
  }

  /** The case of a let whose bounds stand for themselves. */
  lemma {:induction false} LetSmallSound(t: Tools, s: Stmt, scope: Scope, types: Types, lets: Lets, boxes: Map, n: nat,
                                         conds: set<string>, used: set<string>, dims: Dims, val: Env, env: Env,
                                         f: string, at: seq<int>, i: Interval)
    requires LetReady(t, s, scope, types, lets, boxes, n, conds, used, dims, val, env, f, at, i)
    requires StmtOk(t, s.body, scope[s.v := i], types[s.v := TypeOf(s.value)], lets, boxes, n, conds, used,
             val[s.v := Eval(s.value, val)], env)
    requires |at| == dims(f)
    ensures Found(BoxesOf(t, s.body, scope[s.v := i], lets, boxes, n), env, f, at)
    decreases s, 0, 0
  {
    var y, ty := Eval(s.value, val), TypeOf(s.value);
    hide StmtOk, BoxesOf, Tidy, InMap, StmtFree, LetsHold, Covers, Eval;
    FitsPush(scope, types, conds, val, env, s.v, ty, i, y);
    SetupPush(t, scope, lets, n, n, conds, used, s.v, i);
    hide Setup, ScopeFits;
    BoxesAreSound(t, s.body, scope[s.v := i], types[s.v := ty], lets, boxes, n, conds, used, dims, val[s.v := y], env,
        f, at);
  }

  /** What a let statement needs, part by part. */
  lemma LetParts(t: Tools, s: Stmt, scope: Scope, types: Types, lets: Lets, boxes: Map, n: nat, conds: set<string>,
                 used: set<string>, val: Env, env: Env)
    requires s.LetStmt? && StmtOk(t, s, scope, types, lets, boxes, n, conds, used, val, env)
    ensures var (value, n1) := BoundsOf(t.o, s.value, scope, n);
            var i, lets', types', val' := Simplified(t, value), lets + [(s.v, s.value)], types[s.v := TypeOf(s.value)],
                val[s.v := Eval(s.value, val)];
            && s.v !in scope && s.v !in conds && ExprOk(t, s.value, scope, types, n, used, val, env)
            && if KeptSmall(t, value) then
                StmtOk(t, s.body, scope[s.v := i], types', lets', boxes, n1, conds, used, val', env)
               else
                 var r := BoxesOf(t, s.body, scope[s.v := NamedFor(t, s.value, n1)], lets', boxes, n1 + 2);
                 && (r.Some? ==> NoInfinity(r.value.0, t.o.newName(n1 + 1), i.min.Fin?, t.o.newName(n1), i.max.Fin?))
                 && StmtOk(t, s.body, scope[s.v := NamedFor(t, s.value, n1)], types', lets', boxes, n1 + 2, conds,
                     used + NamesFor(t, n1), val', LetEnv(t, env, n1, i, Eval(s.value, val)))
  {
  }

  /** The value of a let: what its interval covers, and the let joins the others. */
  lemma LetValue(t: Tools, scope: Scope, types: Types, lets: Lets, n: nat, conds: set<string>, used: set<string>,
                 val: Env, env: Env, v: string, x: Expr)
    requires Setup(t, scope, lets, n, conds, used) && ScopeFits(scope, types, conds, val, env)
             && LetsHold(lets, types, val)
    requires v !in scope && v !in conds && Outside(x, scope) <= conds && ExprOk(t, x, scope, types, n, used, val, env)
    ensures var (value, n1) := BoundsOf(t.o, x, scope, n);
            var i, y := Simplified(t, value), Eval(x, val);
            && IntervalUses(i, used) && NonEmpty(i) && Covers(i, TypeOf(x), env, y) && (TypeOf(x).Bool? ==> IsBit(y))
            && LetsHold(lets + [(v, x)], types[v := TypeOf(x)], val[v := y])
            && Setup(t, scope, lets + [(v, x)], n1, conds, used)
  {
    BoundsOk(t.o, x, scope, n, conds, used);
    var (value, n1) := BoundsOf(t.o, x, scope, n);
    ExprSound(t, x, scope, types, lets, n, n, conds, used, val, env);
    SimplifiedCovers(t, value, TypeOf(x), env, Eval(x, val));
    SimplifiedOk(t, value, used);
    LetsPush(t, scope, lets, n, conds, used, v, x);
    SetupLater(t, scope, lets + [(v, x)], n, n1, conds, used);
    LetsJoin(t, scope, types, lets, n, conds, used, val, v, x);
    if TypeOf(x).Bool? {
      BoolIsBit(x, types, val);
    }
    hide BoundsOf, Simplified, Covers, IntervalUses, Eval, LetsHold, Setup, ScopeFits;
  }

  /** The case of a let whose bounds get names. */
  lemma {:induction false} LetNamedSound(t: Tools, s: Stmt, scope: Scope, types: Types, lets: Lets, boxes: Map, n: nat,
                                         conds: set<string>, used: set<string>, dims: Dims, val: Env, env: Env,
                                         f: string, at: seq<int>, i: Interval)
    requires LetReady(t, s, scope, types, lets, boxes, n, conds, used, dims, val, env, f, at, i)
    requires StmtOk(t, s.body, scope[s.v := NamedFor(t, s.value, n)], types[s.v := TypeOf(s.value)], lets, boxes,
             n + 2, conds, used + NamesFor(t, n),
                    val[s.v := Eval(s.value, val)], LetEnv(t, env, n, i, Eval(s.value, val)))
    requires var r := BoxesOf(t, s.body, scope[s.v := NamedFor(t, s.value, n)], lets, boxes, n + 2);
             r.Some? ==> NoInfinity(r.value.0, t.o.newName(n + 1), i.min.Fin?, t.o.newName(n), i.max.Fin?)
    ensures var inside := BoxesOf(t, s.body, scope[s.v := NamedFor(t, s.value, n)], lets, boxes, n + 2);
            Found(LetLeaves(t, inside, n, i), env, f, at)
    decreases s, 0, 0
  {
    var y, ty, named := Eval(s.value, val), TypeOf(s.value), NamedFor(t, s.value, n);
    hide *;
    var more, env' := used + NamesFor(t, n), LetEnv(t, env, n, i, y);
    var scope', types', val' := scope[s.v := named], types[s.v := ty], val[s.v := y];
    LetNames(t, s, scope, types, lets, boxes, n, conds, used, dims, val, env, f, at, i);
    LetFits(t, s, scope, types, lets, boxes, n, conds, used, dims, val, env, f, at, i);
    MakeRunning(t, s.body, scope', types', lets, boxes, n + 2, conds, more, dims, val', env');
    BoxesAreSound(t, s.body, scope', types', lets, boxes, n + 2, conds, more, dims, val', env', f, at);
    BoxesKept(t, s.body, scope', lets, boxes, n + 2, conds, more, dims);
    var r := BoxesOf(t, s.body, scope', lets, boxes, n + 2);
    if r.Some? {
      FoundIn(r, env', f, at);
      KeptTidy(boxes, r, n + 2, conds, more, dims);
      LetFitted(t, r.value.0, n, i, env, y, f, at, conds, more, dims);
    }
    LetLeavesFound(t, r, n, i, env, f, at);
  }

  lemma LetLeavesFound(t: Tools, r: Outcome, n: nat, i: Interval, env: Env, f: string, at: seq<int>)
    requires r.Some? ==> InMap(NameNew(t, r.value.0, n, AsExpr(i.min), AsExpr(i.max)), env, f, at)
    ensures Found(LetLeaves(t, r, n, i), env, f, at)
  {
  }

  lemma KeptTidy(boxes: Map, r: Outcome, n: nat, conds: set<string>, k: set<string>, dims: Dims)
    requires r.Some? && KeepsIfDone(boxes, r, n, conds, k, dims)
    ensures Tidy(r.value.0, conds, k, dims) && n <= r.value.1
  {
  }

  /** The names of a let's bounds are new. */
  lemma LetNames(t: Tools, s: Stmt, scope: Scope, types: Types, lets: Lets, boxes: Map, n: nat,
                 conds: set<string>, used: set<string>, dims: Dims, val: Env, env: Env, f: string, at: seq<int>,
                 i: Interval)
    requires LetReady(t, s, scope, types, lets, boxes, n, conds, used, dims, val, env, f, at, i)
    ensures var (maxName, minName, more) := (t.o.newName(n), t.o.newName(n + 1), used + NamesFor(t, n));
            var scope' := scope[s.v := NamedFor(t, s.value, n)];
            && maxName !in used && minName !in used && minName != maxName && minName !in conds && maxName !in conds
            && Setup(t, scope', lets, n + 2, conds, more) && StmtFree(s.body) - scope'.Keys <= conds
            && Sized(s.body, dims) && Tidy(boxes, conds, more, dims) && minName !in Free(AsExpr(i.max))
  {
    var (maxName, minName) := (t.o.newName(n), t.o.newName(n + 1));
    assert used + NamesFor(t, n) == used + {minName, maxName};
    SetupNamed(t, scope, lets, n, conds, used, s.v, TypeOf(s.value));
    TidyMore(boxes, conds, used, used + {minName, maxName}, dims);
    AsExprUses(i.max, used);
    hide Tidy, ScopeFits, LetsHold, Touches, Covers;
  }

  /** The scope in which the bounds of a let have names fits the run. */
  lemma LetFits(t: Tools, s: Stmt, scope: Scope, types: Types, lets: Lets, boxes: Map, n: nat,
                conds: set<string>, used: set<string>, dims: Dims, val: Env, env: Env, f: string, at: seq<int>,
                i: Interval)
    requires LetReady(t, s, scope, types, lets, boxes, n, conds, used, dims, val, env, f, at, i)
    requires t.o.newName(n) !in used && t.o.newName(n + 1) !in used && t.o.newName(n + 1) != t.o.newName(n)
    ensures var y, ty := Eval(s.value, val), TypeOf(s.value);
            && ScopeFits(scope[s.v := NamedFor(t, s.value, n)], types[s.v := ty], conds, val[s.v := y],
                LetEnv(t, env, n, i, y))
            && LetsHold(lets, types[s.v := ty], val[s.v := y]) && Touches(s.body, val[s.v := y], f, at)
  {
    var y, ty := Eval(s.value, val), TypeOf(s.value);
    var (maxName, minName) := (t.o.newName(n), t.o.newName(n + 1));
    var low, high, env' := AsExpr(i.min), AsExpr(i.max), LetEnv(t, env, n, i, y);
    FittedAgree(env, minName, low, i.min.Fin?, maxName, high, i.max.Fin?, y, used);
    FitsLater(t, scope, types, lets, n, conds, used, val, env, env');
    CoversEnds(i, ty, env, y);
    FittedCovers(minName, low, i.min.Fin?, maxName, high, i.max.Fin?, ty, env, y);
    FitsPush(scope, types, conds, val, env', s.v, ty, NamedFor(t, s.value, n), y);
    hide Tidy, ScopeFits, LetsHold, Touches, Covers, Setup, Eval;
  }

  lemma LetFitted(t: Tools, inside: Map, n: nat, i: Interval, env: Env, y: int, f: string, at: seq<int>,
                  conds: set<string>, k: set<string>, dims: Dims)
    requires Tidy(inside, conds, k, dims) && t.o.newName(n + 1) != t.o.newName(n)
    requires t.o.newName(n + 1) !in Free(AsExpr(i.max)) && t.o.newName(n + 1) !in conds && t.o.newName(n) !in conds
    requires NoInfinity(inside, t.o.newName(n + 1), i.min.Fin?, t.o.newName(n), i.max.Fin?)
    requires InMap(inside, LetEnv(t, env, n, i, y), f, at)
    ensures InMap(NameNew(t, inside, n, AsExpr(i.min), AsExpr(i.max)), env, f, at)
  {
    hide Tidy, InMap, NoInfinity, NameAll, FittedEnv, AsExpr, Free;
    FittedMeans(inside, t.o.newName(n + 1), AsExpr(i.min), i.min.Fin?, t.o.newName(n), AsExpr(i.max), i.max.Fin?, env,
        y, f, at, conds, k, dims);
  }

  /** What covering says about the ends. */
  lemma CoversEnds(i: Interval, ty: Type, env: Env, y: int)
    requires Covers(i, ty, env, y)
    ensures (i.min.Fin? ==> Eval(i.min.e, env) <= y) && (i.max.Fin? ==> y <= Eval(i.max.e, env))
    ensures ty.Bool? ==> (i.min.Fin? ==> IsBit(Eval(i.min.e, env))) && (i.max.Fin? ==> IsBit(Eval(i.max.e, env)))
  {
  }

  lemma {:induction false} IfSound(t: Tools, s: Stmt, scope: Scope, types: Types, lets: Lets, boxes: Map, n: nat,
                                   conds: set<string>, used: set<string>, dims: Dims, val: Env, env: Env, f: string,
                                   at: seq<int>)
    requires s.IfThenElse? && Running(t, s, scope, types, lets, boxes, n, conds, used, dims, val, env)
    requires StmtOk(t, s, scope, types, lets, boxes, n, conds, used, val, env) && Touches(s, val, f, at)
    requires |at| == dims(f)
    ensures Found(BoxesOf(t, s, scope, lets, boxes, n), env, f, at)
    decreases s, 0, 1
  {
    var c, a, b := s.cond, s.thenCase, s.elseCase;
    if !UsesScope(c, scope) {
      ForkSound(t, s, scope, types, lets, boxes, n, conds, used, dims, val, env, f, at);
    } else if b.NoOp? {
      var (pushes, n1) := Restrictions(t, c, Occurrences(c), scope, lets, n);
      BoxesKeep.RestrictionsOk(t, c, Occurrences(c), scope, lets, n, conds, used);
      RestrictionsFit(t, c, Occurrences(c), scope, types, lets, n, n, conds, used, val, env);
      SetupLater(t, scope, lets, n, n1, conds, used);
      hide Setup, ScopeFits, LetsHold, Tidy, InMap, Restrictions, PushesFit, PushesOk;
      TrimmedSound(t, a, pushes, scope, types, lets, boxes, n1, conds, used, dims, val, env, f, at);
    } else {
      UnionSound(t, s, scope, types, lets, boxes, n, conds, used, dims, val, env, f, at);
    }
  }

  /** Either branch, when both are taken one after the other. */
  lemma {:induction false} UnionSound(t: Tools, s: Stmt, scope: Scope, types: Types, lets: Lets, boxes: Map, n: nat,
                                      conds: set<string>, used: set<string>, dims: Dims, val: Env, env: Env, f: string,
                                      at: seq<int>)
    requires s.IfThenElse? && UsesScope(s.cond, scope) && !s.elseCase.NoOp?
    requires Running(t, s, scope, types, lets, boxes, n, conds, used, dims, val, env)
    requires StmtOk(t, s, scope, types, lets, boxes, n, conds, used, val, env) && Touches(s, val, f, at)
    requires |at| == dims(f)
    ensures Found(BoxesOf(t, s, scope, lets, boxes, n), env, f, at)
    decreases s, 0, 0
  {
    var c, a, b := s.cond, s.thenCase, s.elseCase;
    hide Restrictions, Trimmed, Eval;
    BoxesKept(t, a, scope, lets, boxes, n, conds, used, dims);
    var r := BoxesOf(t, a, scope, lets, boxes, n);
    if r.Some? {
      var (boxes1, n1) := r.value;
      SetupLater(t, scope, lets, n, n1, conds, used);
      BoxesKept(t, b, scope, lets, boxes1, n1, conds, used, dims);
      hide Setup, ScopeFits, LetsHold, Tidy, InMap;
      if Eval(c, val) != 0 {
        BoxesAreSound(t, a, scope, types, lets, boxes, n, conds, used, dims, val, env, f, at);
      } else {
        BoxesAreSound(t, b, scope, types, lets, boxes1, n1, conds, used, dims, val, env, f, at);
      }
    }
  }

  /** A condition on names outside the scope means in the bounds what it means in the run. */
  lemma ConditionOutside(c: Expr, scope: Scope, types: Types, conds: set<string>, val: Env, env: Env)
    requires ScopeFits(scope, types, conds, val, env) && !UsesScope(c, scope) && Free(c) - scope.Keys <= conds
    ensures Uses(c, conds) && Eval(c, val) == Eval(c, env)
  {
    FreeAreNames(c);
    EvalAgrees(c, val, env);
  }

  lemma {:induction false} ForkSound(t: Tools, s: Stmt, scope: Scope, types: Types, lets: Lets, boxes: Map, n: nat,
                                     conds: set<string>, used: set<string>, dims: Dims, val: Env, env: Env, f: string,
                                     at: seq<int>)
    requires s.IfThenElse? && !UsesScope(s.cond, scope)
             && Running(t, s, scope, types, lets, boxes, n, conds, used, dims, val, env)
    requires StmtOk(t, s, scope, types, lets, boxes, n, conds, used, val, env) && Touches(s, val, f, at)
    requires |at| == dims(f)
    ensures Found(BoxesOf(t, s, scope, lets, boxes, n), env, f, at)
    decreases s, 0, 0
  {
    var c, a, b := s.cond, s.thenCase, s.elseCase;
    var whole := BoxesOf(t, s, scope, lets, boxes, n);
    hide *;
    RunParts(t, s, scope, types, lets, boxes, n, conds, used, dims, val, env);
    ForkParts(t, s, scope, types, lets, boxes, n, conds, used, dims, val, env, f, at);
    ConditionOutside(c, scope, types, conds, val, env);
    BoxesKept(t, a, scope, lets, map[], n, conds, used, dims);
    var r := BoxesOf(t, a, scope, lets, map[], n);
    if r.None? || BoxesOf(t, b, scope, lets, map[], r.value.1).None? {
      FoundIfStopped(whole, env, f, at);
    } else {
      var (thenBoxes, n1) := r.value;
      var r' := BoxesOf(t, b, scope, lets, map[], n1);
      KeptTidy(map[], r, n, conds, used, dims);
      SetupLater(t, scope, lets, n, n1, conds, used);
      BoxesKept(t, b, scope, lets, map[], n1, conds, used, dims);
      KeptTidy(map[], r', n1, conds, used, dims);
      if Eval(c, val) != 0 {
        MakeRunning(t, a, scope, types, lets, map[], n, conds, used, dims, val, env);
        BoxesAreSound(t, a, scope, types, lets, map[], n, conds, used, dims, val, env, f, at);
        FoundIn(r, env, f, at);
      } else {
        MakeRunning(t, b, scope, types, lets, map[], n1, conds, used, dims, val, env);
        BoxesAreSound(t, b, scope, types, lets, map[], n1, conds, used, dims, val, env, f, at);
        FoundIn(r', env, f, at);
      }
      SetupReliable(t, scope, lets, n, conds, used);
      BranchesKeep(t, boxes, thenBoxes, r'.value.0, c, conds, used, dims);
      FoundAs(whole, MergeBranches(t, boxes, thenBoxes, r'.value.0, c), env, f, at);
    }
  }

  lemma SetupReliable(t: Tools, scope: Scope, lets: Lets, n: nat, conds: set<string>, used: set<string>)
    requires Setup(t, scope, lets, n, conds, used)
    ensures Reliable(t) && conds <= used
  {
  }

  /** The hypotheses of a forked condition, taken apart. */
  lemma ForkParts(t: Tools, s: Stmt, scope: Scope, types: Types, lets: Lets, boxes: Map, n: nat, conds: set<string>,
                  used: set<string>, dims: Dims, val: Env, env: Env, f: string, at: seq<int>)
    requires s.IfThenElse? && !UsesScope(s.cond, scope) && Touches(s, val, f, at)
    requires StmtOk(t, s, scope, types, lets, boxes, n, conds, used, val, env)
    requires StmtFree(s) - scope.Keys <= conds && Sized(s, dims)
    ensures Free(s.cond) - scope.Keys <= conds && Tidy(map[], conds, used, dims)
    ensures StmtFree(s.thenCase) - scope.Keys <= conds && StmtFree(s.elseCase) - scope.Keys <= conds
    ensures Sized(s.thenCase, dims) && Sized(s.elseCase, dims)
    ensures var r, whole := BoxesOf(t, s.thenCase, scope, lets, map[], n), BoxesOf(t, s, scope, lets, boxes, n);
            if r.None? then whole.None?
            else
              var r' := BoxesOf(t, s.elseCase, scope, lets, map[], r.value.1);
              && whole == (if r'.None? then None
                           else Some((MergeBranches(t, boxes, r.value.0, r'.value.0, s.cond), r'.value.1)))
              && if Eval(s.cond, val) != 0 then
                  && StmtOk(t, s.thenCase, scope, types, lets, map[], n, conds, used, val, env)
                  && Touches(s.thenCase, val, f, at)
                 else
                  && StmtOk(t, s.elseCase, scope, types, lets, map[], r.value.1, conds, used, val, env)
                  && Touches(s.elseCase, val, f, at)
  {
    hide MergeBranches;
  }

  lemma {:induction false} TrimmedSound(t: Tools, s: Stmt, pushes: seq<Push>, scope: Scope, types: Types, lets: Lets,
                                        boxes: Map, n: nat,
                                        conds: set<string>, used: set<string>, dims: Dims, val: Env, env: Env,
                                        f: string, at: seq<int>)
    requires PushesOk(pushes, used, lets) && (forall p | p in pushes :: p.Dependent? ==> p.k < |lets|)
             && PushesFit(pushes, types, val, env)
    requires Running(t, s, scope, types, lets, boxes, n, conds, used, dims, val, env)
    requires TrimmedOk(t, s, pushes, scope, types, lets, boxes, n, conds, used, val, env) && Touches(s, val, f, at)
    requires |at| == dims(f)
    ensures Found(Trimmed(t, s, pushes, scope, lets, boxes, n), env, f, at)
    decreases s, 2, |pushes|, 1
  {
    if pushes == [] {
      BoxesAreSound(t, s, scope, types, lets, boxes, n, conds, used, dims, val, env, f, at);
    } else {
      match pushes[0]
      case Given(v, i) =>
        assert pushes[0] in pushes;
        SetupPush(t, scope, lets, n, n, conds, used, v, i);
        FitsReplace(scope, types, conds, val, env, v, i);
        assert scope[v := i].Keys == scope.Keys;
        hide Setup, ScopeFits, LetsHold, Tidy, InMap, Covers, IntervalUses, NonEmpty, Eval;
        TrimmedSound(t, s, pushes[1..], scope[v := i], types, lets, boxes, n, conds, used, dims, val, env, f, at);
      case Dependent(_) =>
        DependentSound(t, s, pushes, scope, types, lets, boxes, n, conds, used, dims, val, env, f, at);
    }
    hide StmtOk, BoxesOf, Setup, ScopeFits, LetsHold, Tidy, InMap;
  }

  /** A dependent let lies between the trimmed bounds of its value, and between those known before. */
  lemma DependentCovers(t: Tools, scope: Scope, types: Types, lets: Lets, n0: nat, n: nat, conds: set<string>,
                        used: set<string>,
                        val: Env, env: Env, k: nat)
    requires k < |lets| && Setup(t, scope, lets, n0, conds, used) && ScopeFits(scope, types, conds, val, env)
             && LetsHold(lets, types, val)
    requires var (u, x) := lets[k];
             var i, known := Simplified(t, BoundsOf(t.o, x, scope, n).0), Known(scope, u);
             u in scope && ExprOk(t, x, scope, types, n, used, val, env)
    ensures var (u, x) := lets[k];
            var i, known, y := Simplified(t, BoundsOf(t.o, x, scope, n).0), Known(scope, u),
                Eval(Var(u, TypeOf(x)), val);
            var low, high := TrimmedLow(t, i, known), TrimmedHigh(t, i, known);
            && types[u] == TypeOf(x)
            && (LowKnown(i, known) ==> Eval(low, env) <= y) && (HighKnown(i, known) ==> y <= Eval(high, env))
            && (TypeOf(x).Bool? ==>
                  && IsBit(y) && (LowKnown(i, known) ==> IsBit(Eval(low, env)))
                  && (HighKnown(i, known) ==> IsBit(Eval(high, env))))
  {
    var (u, x) := lets[k];
    var value := BoundsOf(t.o, x, scope, n).0;
    var i, known, y := Simplified(t, value), Known(scope, u), Eval(Var(u, TypeOf(x)), val);
    assert types[u] == TypeOf(x) && y == Eval(x, val) && Covers(known, TypeOf(x), env, y);
    ExprSound(t, x, scope, types, lets, n0, n, conds, used, val, env);
    SimplifiedCovers(t, value, TypeOf(x), env, y);
    hide Setup, ScopeFits, ExprOk, LetsHold, Simplified, BoundsOf;
    BetweenTrimmed(t, i, known, TypeOf(x), env, y);
    if TypeOf(x).Bool? {
      BoolIsBit(x, types, val);
    }
  }

  lemma BetweenTrimmed(t: Tools, i: Interval, known: Interval, ty: Type, env: Env, y: int)
    requires Reliable(t) && Covers(i, ty, env, y) && Covers(known, ty, env, y)
    ensures var low, high := TrimmedLow(t, i, known), TrimmedHigh(t, i, known);
            && (LowKnown(i, known) ==> Eval(low, env) <= y && (ty.Bool? ==> IsBit(Eval(low, env))))
            && (HighKnown(i, known) ==> y <= Eval(high, env) && (ty.Bool? ==> IsBit(Eval(high, env))))
  {
    CoversEnds(i, ty, env, y);
    CoversEnds(known, ty, env, y);
    if LowKnown(i, known) {
      EvalBin(Max, i.min.e, known.min.e, env);
      assert Eval(TrimmedLow(t, i, known), env) == Eval(Bin(Max, i.min.e, known.min.e), env);
    }
    if HighKnown(i, known) {
      EvalBin(Min, i.max.e, known.max.e, env);
      assert Eval(TrimmedHigh(t, i, known), env) == Eval(Bin(Min, i.max.e, known.max.e), env);
    }
    hide Eval, BitValued, Covers;
  }

  /** What a dependent let starts from in the names: they are new, and the boxes inside use nothing else that is. */
  lemma DependentNames(t: Tools, s: Stmt, pushes: seq<Push>, scope: Scope, lets: Lets, boxes: Map, n: nat,
                       conds: set<string>, used: set<string>, dims: Dims, inside: Map, n1: nat)
    requires PushesOk(pushes, used, lets) && (forall p | p in pushes :: p.Dependent? ==> p.k < |lets|)
    requires pushes != [] && pushes[0].Dependent?
    requires Setup(t, scope, lets, n, conds, used) && StmtFree(s) - scope.Keys <= conds
    requires Sized(s, dims) && Tidy(boxes, conds, used, dims)
    requires lets[pushes[0].k].0 in scope
    requires var (u, x) := lets[pushes[0].k];
             Trimmed(t, s, pushes[1..], scope[u := NamedFor(t, x, n)], lets, boxes, n + 2) == Some((inside, n1))
    ensures var (u, x) := lets[pushes[0].k];
            var (maxName, minName, more) := (t.o.newName(n), t.o.newName(n + 1), used + NamesFor(t, n));
            var i, known := Simplified(t, BoundsOf(t.o, x, scope, n1).0), Known(scope, u);
            && maxName !in used && minName !in used && minName != maxName && minName !in conds && maxName !in conds
            && Setup(t, scope[u := NamedFor(t, x, n)], lets, n + 2, conds, more)
            && Setup(t, scope, lets, n1, conds, used)
            && StmtFree(s) - scope[u := NamedFor(t, x, n)].Keys <= conds
            && Tidy(boxes, conds, more, dims) && Tidy(inside, conds, more, dims) && PushesOk(pushes[1..], more, lets)
            && (forall p | p in pushes[1..] :: p.Dependent? ==> p.k < |lets|)
            && minName !in Free(TrimmedHigh(t, i, known))
  {
    var (u, x) := lets[pushes[0].k];
    var (maxName, minName) := (t.o.newName(n), t.o.newName(n + 1));
    var named, more := NamedFor(t, x, n), used + NamesFor(t, n);
    assert more == used + {minName, maxName};
    SetupNamed(t, scope, lets, n, conds, used, u, TypeOf(x));
    TidyMore(boxes, conds, used, more, dims);
    LaterPushesOk(pushes, used, more, lets);
    forall p | p in pushes[1..] && p.Dependent? ensures p.k < |lets| {
      assert p in pushes;
    }
    assert scope[u := named].Keys == scope.Keys;
    TrimmedKept(t, s, pushes[1..], scope[u := named], lets, boxes, n + 2, conds, more, dims);
    SetupLater(t, scope, lets, n, n1, conds, used);
    BoundsOk(t.o, x, scope, n1, conds, used);
    var value := BoundsOf(t.o, x, scope, n1).0;
    SimplifiedOk(t, value, used);
    TrimmedUses(t, Simplified(t, value), Known(scope, u), used);
    hide BoundsOf, Simplified, Trimmed, Tidy, TrimmedHigh, Setup;
  }

  /** What a dependent let starts from in the run. */
  lemma DependentFits(t: Tools, s: Stmt, pushes: seq<Push>, scope: Scope, types: Types, lets: Lets, n: nat,
                      conds: set<string>, used: set<string>, val: Env, env: Env, n1: nat)
    requires PushesOk(pushes, used, lets) && PushesFit(pushes, types, val, env)
    requires pushes != [] && pushes[0].Dependent?
    requires Setup(t, scope, lets, n, conds, used) && Setup(t, scope, lets, n1, conds, used)
    requires ScopeFits(scope, types, conds, val, env) && LetsHold(lets, types, val) && pushes[0].k < |lets|
    requires t.o.newName(n) !in used && t.o.newName(n + 1) !in used && t.o.newName(n + 1) != t.o.newName(n)
    requires var (u, x) := lets[pushes[0].k]; u in scope && ExprOk(t, x, scope, types, n1, used, val, env)
    ensures var (u, x) := lets[pushes[0].k];
            var i, known := Simplified(t, BoundsOf(t.o, x, scope, n1).0), Known(scope, u);
            var env' := TrimEnv(t, env, n, i, known, Eval(Var(u, TypeOf(x)), val));
            && ScopeFits(scope[u := NamedFor(t, x, n)], types, conds, val, env')
            && PushesFit(pushes[1..], types, val, env')
  {
    var k := pushes[0].k;
    var (u, x) := lets[k];
    var (maxName, minName) := (t.o.newName(n), t.o.newName(n + 1));
    var i, known := Simplified(t, BoundsOf(t.o, x, scope, n1).0), Known(scope, u);
    var low, high, y := TrimmedLow(t, i, known), TrimmedHigh(t, i, known), Eval(Var(u, TypeOf(x)), val);
    var lowKnown, highKnown := LowKnown(i, known), HighKnown(i, known);
    DependentCovers(t, scope, types, lets, n, n1, conds, used, val, env, k);
    var env' := TrimEnv(t, env, n, i, known, y);
    FittedAgree(env, minName, low, lowKnown, maxName, high, highKnown, y, used);
    FitsLater(t, scope, types, lets, n, conds, used, val, env, env');
    FittedCovers(minName, low, lowKnown, maxName, high, highKnown, TypeOf(x), env, y);
    FitsReplace(scope, types, conds, val, env', u, NamedFor(t, x, n));
    PushesLater(pushes, types, val, env, env', used, lets);
    hide BoundsOf, Simplified, Setup, ExprOk, LetsHold, ScopeFits, PushesFit, PushesOk, Covers, FittedEnv;
  }

  /** The hypotheses of a dependent let, taken apart. */
  lemma DependentParts(t: Tools, s: Stmt, pushes: seq<Push>, scope: Scope, types: Types, lets: Lets, boxes: Map, n: nat,
                       conds: set<string>, used: set<string>, dims: Dims, val: Env, env: Env)
    requires (forall p | p in pushes :: p.Dependent? ==> p.k < |lets|) && pushes != [] && pushes[0].Dependent?
    requires PushesOk(pushes, used, lets)
    requires Running(t, s, scope, types, lets, boxes, n, conds, used, dims, val, env)
    requires TrimmedOk(t, s, pushes, scope, types, lets, boxes, n, conds, used, val, env)
    ensures Setup(t, scope, lets, n, conds, used) && StmtFree(s) - scope.Keys <= conds
    ensures Sized(s, dims) && Tidy(boxes, conds, used, dims)
    ensures ScopeFits(scope, types, conds, val, env) && LetsHold(lets, types, val)
    ensures forall p | p in pushes[1..] :: p.Dependent? ==> p.k < |lets|
    ensures var (u, x) := lets[pushes[0].k];
            var r := Trimmed(t, s, pushes[1..], scope[u := NamedFor(t, x, n)], lets, boxes, n + 2);
            u in scope &&
            (r.Some? ==>
               var i, known := Simplified(t, BoundsOf(t.o, x, scope, r.value.1).0), Known(scope, u);
               && ExprOk(t, x, scope, types, r.value.1, used, val, env)
               && NoInfinity(r.value.0, t.o.newName(n + 1), LowKnown(i, known), t.o.newName(n), HighKnown(i, known))
               && TrimmedOk(t, s, pushes[1..], scope[u := NamedFor(t, x, n)], types, lets, boxes, n + 2, conds,
                   used + NamesFor(t, n), val, TrimEnv(t, env, n, i, known, Eval(Var(u, TypeOf(x)), val))))
  {
    forall p | p in pushes[1..] && p.Dependent? ensures p.k < |lets| {
      assert p in pushes;
    }
    hide Setup, Tidy, ScopeFits, LetsHold, StmtOk, ExprOk, NoInfinity, BoundsOf, Simplified, BoxesOf, Trimmed, Sized,
        StmtFree, TrimEnv, Eval;
  }

  lemma MakeRunning(t: Tools, s: Stmt, scope: Scope, types: Types, lets: Lets, boxes: Map, n: nat,
                    conds: set<string>, used: set<string>, dims: Dims, val: Env, env: Env)
    requires Setup(t, scope, lets, n, conds, used) && StmtFree(s) - scope.Keys <= conds
    requires Sized(s, dims) && Tidy(boxes, conds, used, dims)
    requires ScopeFits(scope, types, conds, val, env) && LetsHold(lets, types, val)
    ensures Running(t, s, scope, types, lets, boxes, n, conds, used, dims, val, env)
  {
  }

  lemma {:induction false} DependentSound(t: Tools, s: Stmt, pushes: seq<Push>, scope: Scope, types: Types, lets: Lets,
                                          boxes: Map, n: nat,
                                          conds: set<string>, used: set<string>, dims: Dims, val: Env, env: Env,
                                          f: string, at: seq<int>)
    requires PushesOk(pushes, used, lets) && (forall p | p in pushes :: p.Dependent? ==> p.k < |lets|)
             && PushesFit(pushes, types, val, env)
    requires pushes != [] && pushes[0].Dependent?
             && Running(t, s, scope, types, lets, boxes, n, conds, used, dims, val, env)
    requires TrimmedOk(t, s, pushes, scope, types, lets, boxes, n, conds, used, val, env) && Touches(s, val, f, at)
    requires |at| == dims(f)
    ensures Found(Trimmed(t, s, pushes, scope, lets, boxes, n), env, f, at)
    decreases s, 2, |pushes|, 0
  {
    hide *;
    var (u, x) := lets[pushes[0].k];
    var named := NamedFor(t, x, n);
    DependentParts(t, s, pushes, scope, types, lets, boxes, n, conds, used, dims, val, env);
    var r := Trimmed(t, s, pushes[1..], scope[u := named], lets, boxes, n + 2);
    TrimmedUnfolds(t, s, pushes, scope, lets, boxes, n);
    if r.Some? {
      var (inside, n1) := r.value;
      var i, known, y := Simplified(t, BoundsOf(t.o, x, scope, n1).0), Known(scope, u), Eval(Var(u, TypeOf(x)), val);
      DependentNames(t, s, pushes, scope, lets, boxes, n, conds, used, dims, inside, n1);
      DependentFits(t, s, pushes, scope, types, lets, n, conds, used, val, env, n1);
      var env' := TrimEnv(t, env, n, i, known, y);
      var more := used + NamesFor(t, n);
      MakeRunning(t, s, scope[u := named], types, lets, boxes, n + 2, conds, more, dims, val, env');
      TrimmedSound(t, s, pushes[1..], scope[u := named], types, lets, boxes, n + 2, conds, more, dims, val, env', f,
          at);
      FoundIn(r, env', f, at);
      TrimmedFitted(t, inside, n, i, known, env, y, f, at, conds, more, dims);
      FoundAs(Trimmed(t, s, pushes, scope, lets, boxes, n),
          NameNew(t, inside, n, TrimmedLow(t, i, known), TrimmedHigh(t, i, known)), env, f, at);
    } else {
      FoundIfStopped(Trimmed(t, s, pushes, scope, lets, boxes, n), env, f, at);
    }
  }

  lemma TrimmedFitted(t: Tools, inside: Map, n: nat, i: Interval, known: Interval, env: Env, y: int, f: string,
                      at: seq<int>, conds: set<string>, k: set<string>, dims: Dims)
    requires Tidy(inside, conds, k, dims) && t.o.newName(n + 1) != t.o.newName(n)
    requires t.o.newName(n + 1) !in Free(TrimmedHigh(t, i, known))
    requires t.o.newName(n + 1) !in conds && t.o.newName(n) !in conds
    requires NoInfinity(inside, t.o.newName(n + 1), LowKnown(i, known), t.o.newName(n), HighKnown(i, known))
    requires InMap(inside, TrimEnv(t, env, n, i, known, y), f, at)
    ensures InMap(NameNew(t, inside, n, TrimmedLow(t, i, known), TrimmedHigh(t, i, known)), env, f, at)
  {
    hide Tidy, InMap, NoInfinity, NameAll, FittedEnv, TrimmedLow, TrimmedHigh, LowKnown, HighKnown, Free;
    FittedMeans(inside, t.o.newName(n + 1), TrimmedLow(t, i, known), LowKnown(i, known), t.o.newName(n),
        TrimmedHigh(t, i, known), HighKnown(i, known), env, y, f, at, conds, k, dims);
  }

  lemma FoundIn(r: Outcome, env: Env, f: string, at: seq<int>)
    requires r.Some? && Found(r, env, f, at)
    ensures InMap(r.value.0, env, f, at)
  {
  }

  lemma FoundAs(r: Outcome, boxes: Map, env: Env, f: string, at: seq<int>)
    requires InMap(boxes, env, f, at) && (r.Some? ==> r.value.0 == boxes)
    ensures Found(r, env, f, at)
  {
  }

  lemma FoundIfStopped(r: Outcome, env: Env, f: string, at: seq<int>)
    requires r.None?
    ensures Found(r, env, f, at)
  {
  }

  lemma TrimmedUnfolds(t: Tools, s: Stmt, pushes: seq<Push>, scope: Scope, lets: Lets, boxes: Map, n: nat)
    requires (forall p | p in pushes :: p.Dependent? ==> p.k < |lets|) && pushes != [] && pushes[0].Dependent?
    ensures var (u, x) := lets[pushes[0].k];
            var r := Trimmed(t, s, pushes[1..], scope[u := NamedFor(t, x, n)], lets, boxes, n + 2);
            var whole := Trimmed(t, s, pushes, scope, lets, boxes, n);
            if r.None? then whole.None?
            else
              var i, known := Simplified(t, BoundsOf(t.o, x, scope, r.value.1).0), Known(scope, u);
              whole.Some? ==>
                whole.value.0 == NameNew(t, r.value.0, n, TrimmedLow(t, i, known), TrimmedHigh(t, i, known))
  {
  }

  lemma LaterPushesOk(pushes: seq<Push>, used: set<string>, more: set<string>, lets: Lets)
    requires pushes != [] && PushesOk(pushes, used, lets) && used <= more
    ensures PushesOk(pushes[1..], more, lets)
  {
    forall p | p in pushes[1..]
      ensures if p.Dependent? then p.k < |lets| else IntervalUses(p.i, more) && NonEmpty(p.i)
    {
      assert p in pushes;
      if p.Given? { MoreUses(p.i, used, more); }
    }
  }

  lemma PushesLater(pushes: seq<Push>, types: Types, val: Env, env: Env, env': Env, used: set<string>, lets: Lets)
    requires pushes != [] && PushesFit(pushes, types, val, env) && PushesOk(pushes, used, lets)
             && AgreeOn(used, env, env')
    ensures PushesFit(pushes[1..], types, val, env')
  {
    forall p | p in pushes[1..] && p.Given?
      ensures p.v in types && Covers(p.i, types[p.v], env', Eval(Var(p.v, types[p.v]), val))
    {
      assert p in pushes;
      CoversLater(p.i, types[p.v], env, env', Eval(Var(p.v, types[p.v]), val), used);
    }
  }
}
