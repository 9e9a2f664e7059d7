/** What BoxesTouched keeps whatever the run: the form of the boxes, and what is already in them. */
module BoxesKeep {
  import opened Wrappers
  import opened BoundsIR
  import opened Intervals
  import opened BoundsExpr
  import opened BoundsSound
  import opened BoundsTheorem
  import opened Boxes
  import opened BoxesTouched

  // ----- intervals are not empty -----

  predicate ScopeSane(scope: Scope) {
    forall v | v in scope :: NonEmpty(scope[v])
  }

  lemma TimesNonEmpty(o: Oracle, e: Expr, a: Interval, b: Interval)
    requires e.Bin? && NonEmpty(a) && NonEmpty(b)
    ensures NonEmpty(TimesBounds(o, e, a, b)) && NonEmpty(DivideBounds(o, e, a, b))
  {
    if Finite(a) && Finite(b) {
      CornersNonEmpty(o, Mul, a.min.e, a.max.e, b.min.e, b.max.e);
      CornersNonEmpty(o, Mul, b.min.e, b.max.e, a.min.e, a.max.e);
      CornersNonEmpty(o, Div, a.min.e, a.max.e, b.min.e, b.max.e);
    }
    hide Corners, Combine;
  }

  lemma OperateNonEmpty(o: Oracle, e: Expr, a: Interval, b: Interval)
    requires e.Bin? && NonEmpty(a) && NonEmpty(b)
    ensures NonEmpty(Operate(o, e, a, b))
  {
    TimesNonEmpty(o, e, a, b);
    hide TimesBounds, DivideBounds, SameBound, Combine, MakeAnd, MakeOr;
  }

  lemma CornersNonEmpty(o: Oracle, op: BinOp, a1: Expr, a2: Expr, b1: Expr, b2: Expr)
    ensures NonEmpty(Corners(o, op, a1, a2, b1, b2))
  {
  }

  lemma {:induction false} BoundsNonEmpty(o: Oracle, e: Expr, scope: Scope, n: nat)
    requires ScopeSane(scope)
    ensures NonEmpty(BoundsOf(o, e, scope, n).0)
  {
    match e
    case Imm(_, _) =>
    case Var(_, _) =>
    case Abs(_) =>
    case Not(x) => BoundsNonEmpty(o, x, scope, n);
    case Bin(op, _, _) =>
      var (x, y) := if op == GT || op == GE then (e.b, e.a) else (e.a, e.b);
      var (a, n1) := BoundsOf(o, x, scope, n);
      var b := BoundsOf(o, y, scope, n1).0;
      BoundsNonEmpty(o, x, scope, n);
      BoundsNonEmpty(o, y, scope, n1);
      OperateNonEmpty(o, e, a, b);
      OperateNonEmpty(o, e, b, a);
      hide Operate;
    case Select(_, x, y) =>
      BoundsNonEmpty(o, x, scope, n);
      BoundsNonEmpty(o, y, scope, BoundsOf(o, x, scope, n).1);
      hide SelectSide;
    case Let(_, x, b) =>
      var (value, n1) := BoundsOf(o, x, scope, n);
      BoundsNonEmpty(o, x, scope, n);
      BoundsNonEmpty(o, b, scope[e.name := Shown(e, value)], n1);
  }

  // ----- boxes -----

  type Dims = string -> nat

  /** A box of the right size whose intervals are not empty; one without dimensions has no condition. */
  ghost predicate TidyBox(b: Box, conds: set<string>, k: set<string>, size: nat) {
    && Sane(b) && BoxUses(b, conds, k)
    && if b.IsEmpty() then b.used.None? else |b.bounds| == size
  }

  ghost predicate Tidy(boxes: Map, conds: set<string>, k: set<string>, dims: Dims) {
    forall f | f in boxes :: TidyBox(boxes[f], conds, k, dims(f))
  }

  ghost predicate InMap(boxes: Map, env: Env, f: string, at: seq<int>) {
    f in boxes && InBox(boxes[f], env, at)
  }

  lemma NoBoxTidy(conds: set<string>, k: set<string>, size: nat)
    ensures TidyBox(NO_BOX, conds, k, size)
  {
  }

  lemma MergeTidy(t: Tools, a: Box, b: Box, conds: set<string>, k: set<string>, size: nat)
    requires Reliable(t) && conds <= k && TidyBox(a, conds, k, size) && TidyBox(b, conds, k, size)
    ensures TidyBox(MergeBoxes(t, a, b), conds, k, size)
  {
    MergeUses(t, a, b, conds, k);
    MergeSane(t, a, b);
    hide MergeSide, MergeUsed, BoxUses;
  }

  lemma MergeTidySound(t: Tools, a: Box, b: Box, conds: set<string>, k: set<string>, size: nat, env: Env, at: seq<int>)
    requires Reliable(t) && TidyBox(a, conds, k, size) && TidyBox(b, conds, k, size)
    requires InBox(a, env, at) || InBox(b, env, at)
    requires |at| == size
    ensures InBox(MergeBoxes(t, a, b), env, at)
  {
    if at != [] {
      MergeSound(t, a, b, env, at);
    }
    hide MergeSide, MergeUsed, BoxUses, Reliable;
  }

  // ----- naming the bounds of a variable -----

  ghost function NamedEnv(env: Env, minName: string, low: Expr, maxName: string, high: Expr): Env {
    env[minName := Eval(low, env)][maxName := Eval(high, env)]
  }

  lemma NameEndMeans(b: Expr, minName: string, low: Expr, maxName: string, high: Expr, env: Env)
    requires minName != maxName && minName !in Free(high)
    ensures var r := NameEnd(Fin(b), minName, low, maxName, high);
            r.Fin? && Eval(r.e, env) == Eval(b, NamedEnv(env, minName, low, maxName, high))
  {
    var l, h := Eval(low, env), Eval(high, env);
    var env1 := env[minName := l];
    var e := if maxName in Names(b) then Let(maxName, high, b) else b;
    EvalUpdate(high, env, minName, l);
    EvalLet(maxName, high, b, env1);
    FreeAreNames(b);
    if maxName !in Names(b) {
      EvalUpdate(b, env1, maxName, h);
    }
    assert Eval(e, env1) == Eval(b, env1[maxName := h]);
    EvalLet(minName, low, e, env);
    FreeAreNames(e);
    if minName !in Names(e) {
      EvalUpdate(e, env, minName, l);
    }
    hide Eval, Free, Names;
  }

  lemma NameEndUses(b: Bound, minName: string, low: Expr, maxName: string, high: Expr, k: set<string>)
    requires BoundUses(b, k + {minName, maxName}) && Uses(low, k) && Uses(high, k)
    ensures BoundUses(NameEnd(b, minName, low, maxName, high), k)
  {
    if b.Fin? {
      FreeAreNames(b.e);
      var e := if maxName in Names(b.e) then Let(maxName, high, b.e) else b.e;
      assert Free(e) <= k + {minName};
      FreeAreNames(e);
    }
  }

  lemma NameBoxMeans(b: Box, minName: string, low: Expr, maxName: string, high: Expr, env: Env, at: seq<int>,
                     conds: set<string>, k: set<string>)
    requires minName != maxName && minName !in Free(high) && BoxUses(b, conds, k) && minName !in conds
             && maxName !in conds
    ensures InBox(b, NamedEnv(env, minName, low, maxName, high), at) <==>
            InBox(NameBox(b, minName, low, maxName, high), env, at)
  {
    var env', r := NamedEnv(env, minName, low, maxName, high), NameBox(b, minName, low, maxName, high);
    if b.used.Some? {
      EvalUpdate(b.used.value, env, minName, Eval(low, env));
      EvalUpdate(b.used.value, env[minName := Eval(low, env)], maxName, Eval(high, env));
    } else {
      EvalImm(One(Bool), env);
      EvalImm(One(Bool), env');
    }
    assert Holds(b.used, env') <==> Holds(r.used, env);
    hide Eval, NameEnd, Free, Holds, IntervalUses;
    if |at| == |b.bounds| {
      forall i | 0 <= i < |at|
        ensures NonEmpty(r.bounds[i]) && Contains(r.bounds[i], env, at[i]) <==>
                NonEmpty(b.bounds[i]) && Contains(b.bounds[i], env', at[i])
      {
        NameIntervalMeans(b.bounds[i], minName, low, maxName, high, env, at[i]);
      }
    }
    hide Contains, NonEmpty;
  }

  lemma NameIntervalMeans(i: Interval, minName: string, low: Expr, maxName: string, high: Expr, env: Env, x: int)
    requires minName != maxName && minName !in Free(high)
    ensures var r := Interval(NameEnd(i.min, minName, low, maxName, high), NameEnd(i.max, minName, low, maxName, high));
            && (NonEmpty(r) <==> NonEmpty(i))
            && (Contains(r, env, x) <==> Contains(i, NamedEnv(env, minName, low, maxName, high), x))
  {
    if i.min.Fin? {
      NameEndMeans(i.min.e, minName, low, maxName, high, env);
    }
    if i.max.Fin? {
      NameEndMeans(i.max.e, minName, low, maxName, high, env);
    }
    hide Eval;
  }

  lemma NameBoxTidy(b: Box, minName: string, low: Expr, maxName: string, high: Expr, conds: set<string>,
                    k: set<string>, size: nat)
    requires TidyBox(b, conds, k + {minName, maxName}, size) && Uses(low, k) && Uses(high, k)
    ensures TidyBox(NameBox(b, minName, low, maxName, high), conds, k, size)
  {
    forall i | 0 <= i < |b.bounds| ensures IntervalUses(NameBox(b, minName, low, maxName, high).bounds[i], k) {
      NameEndUses(b.bounds[i].min, minName, low, maxName, high, k);
      NameEndUses(b.bounds[i].max, minName, low, maxName, high, k);
    }
    hide Uses;
  }

  lemma NameAllTidy(boxes: Map, minName: string, low: Expr, maxName: string, high: Expr, conds: set<string>,
                    k: set<string>, dims: Dims)
    requires Tidy(boxes, conds, k + {minName, maxName}, dims) && Uses(low, k) && Uses(high, k)
    ensures Tidy(NameAll(boxes, minName, low, maxName, high), conds, k, dims)
  {
    forall f | f in boxes ensures TidyBox(NameBox(boxes[f], minName, low, maxName, high), conds, k, dims(f)) {
      NameBoxTidy(boxes[f], minName, low, maxName, high, conds, k, dims(f));
    }
    hide TidyBox;
  }

  /** Naming is binding: what is in the named boxes outside is what is in the boxes inside. */
  lemma NameAllMeans(boxes: Map, minName: string, low: Expr, maxName: string, high: Expr, env: Env, f: string,
                     at: seq<int>,
                     conds: set<string>, k: set<string>, dims: Dims)
    requires Tidy(boxes, conds, k, dims) && minName != maxName && minName !in Free(high)
    requires minName !in conds && maxName !in conds
    ensures InMap(boxes, NamedEnv(env, minName, low, maxName, high), f, at)
            <==> InMap(NameAll(boxes, minName, low, maxName, high), env, f, at)
  {
    if f in boxes {
      assert TidyBox(boxes[f], conds, k, dims(f));
      NameBoxMeans(boxes[f], minName, low, maxName, high, env, at, conds, k);
    }
    hide InBox, Eval, Free;
  }

  /** New names do not change what is in boxes that do not use them. */
  lemma NamesUnseen(boxes: Map, minName: string, low: Expr, maxName: string, high: Expr, env: Env, f: string,
                    at: seq<int>,
                    conds: set<string>, k: set<string>, dims: Dims)
    requires Tidy(boxes, conds, k, dims) && conds <= k && minName !in k && maxName !in k && InMap(boxes, env, f, at)
    ensures InMap(boxes, NamedEnv(env, minName, low, maxName, high), f, at)
  {
    var b, env' := boxes[f], NamedEnv(env, minName, low, maxName, high);
    assert TidyBox(b, conds, k, dims(f));
    assert forall v | v in k :: Get(env, v) == Get(env', v);
    if b.used.Some? {
      EvalAgrees(b.used.value, env, env');
    } else {
      EvalImm(One(Bool), env);
      EvalImm(One(Bool), env');
    }
    hide Eval, Free;
    forall i | 0 <= i < |at| ensures Contains(b.bounds[i], env', at[i]) {
      IntervalAgrees(b.bounds[i], env, env', k, at[i]);
    }
    hide Contains;
  }

  lemma IntervalAgrees(i: Interval, env: Env, env': Env, k: set<string>, x: int)
    requires IntervalUses(i, k) && AgreeOn(k, env, env') && Contains(i, env, x)
    ensures Contains(i, env', x)
  {
    if i.min.Fin? {
      EvalAgrees(i.min.e, env, env');
    }
    if i.max.Fin? {
      EvalAgrees(i.max.e, env, env');
    }
  }

  // ----- the whole analysis -----

  /** The free names of a statement. */
  function StmtFree(s: Stmt): set<string> {
    match s
    case NoOp => {}
    case Provide(_, args) => ArgsFree(args)
    case Block(a, b) => StmtFree(a) + StmtFree(b)
    case For(v, lo, n, body) => Free(lo) + Free(n) + (StmtFree(body) - {v})
    case LetStmt(v, x, body) => Free(x) + (StmtFree(body) - {v})
    case IfThenElse(c, a, b) => Free(c) + StmtFree(a) + StmtFree(b)
  }

  function ArgsFree(args: seq<Expr>): set<string> {
    if args == [] then {} else Free(args[0]) + ArgsFree(args[1..])
  }

  /** Every function is provided with as many coordinates as it has dimensions. */
  predicate Sized(s: Stmt, dims: Dims) {
    match s
    case NoOp => true
    case Provide(f, args) => |args| == dims(f)
    case Block(a, b) => Sized(a, dims) && Sized(b, dims)
    case For(_, _, _, body) => Sized(body, dims)
    case LetStmt(_, _, body) => Sized(body, dims)
    case IfThenElse(_, a, b) => Sized(a, dims) && Sized(b, dims)
  }

  /** What holds wherever the analysis is: new names are new, names outside the scope are those of
      conditions, and the boxes are tidy. */
  ghost predicate Setup(t: Tools, scope: Scope, lets: Lets, n: nat, conds: set<string>, used: set<string>) {
    && Reliable(t) && NewNames(t.o, n, used) && conds <= used && {"neg_inf", "pos_inf"} <= used
    && ScopeUses(scope, used) && ScopeSane(scope)
    && forall k | 0 <= k < |lets| :: Outside(lets[k].1, scope) <= conds
  }

  ghost predicate Grows(boxes: Map, boxes': Map, dims: Dims) {
    forall env, f, at | |at| == dims(f) && InMap(boxes, env, f, at) :: InMap(boxes', env, f, at)
  }

  ghost predicate Keeps(boxes: Map, boxes': Map, n: nat, n': nat, conds: set<string>, used: set<string>, dims: Dims) {
    n <= n' && Tidy(boxes', conds, used, dims) && Grows(boxes, boxes', dims)
  }

  /** The same of a pass that has not stopped. */
  ghost predicate KeepsIfDone(boxes: Map, r: Outcome, n: nat, conds: set<string>, used: set<string>, dims: Dims) {
    r.Some? ==> Keeps(boxes, r.value.0, n, r.value.1, conds, used, dims)
  }

  lemma SetupLater(t: Tools, scope: Scope, lets: Lets, n: nat, n': nat, conds: set<string>, used: set<string>)
    requires Setup(t, scope, lets, n, conds, used) && n <= n'
    ensures Setup(t, scope, lets, n', conds, used)
  {
  }

  /** A variable enters the scope. */
  lemma SetupPush(t: Tools, scope: Scope, lets: Lets, n: nat, n': nat, conds: set<string>, used: set<string>,
                  v: string, i: Interval)
    requires Setup(t, scope, lets, n, conds, used) && n <= n' && IntervalUses(i, used) && NonEmpty(i)
    ensures Setup(t, scope[v := i], lets, n', conds, used)
  {
    hide IntervalUses, Reliable, NonEmpty;
    forall k | 0 <= k < |lets| ensures Outside(lets[k].1, scope[v := i]) <= conds {
      assert Outside(lets[k].1, scope[v := i]) <= Outside(lets[k].1, scope);
    }
  }

  /** A variable enters the scope with new names for its bounds. */
  lemma SetupNamed(t: Tools, scope: Scope, lets: Lets, n: nat, conds: set<string>, used: set<string>, v: string,
                   ty: Type)
    requires Setup(t, scope, lets, n, conds, used)
    ensures var (maxName, minName) := (t.o.newName(n), t.o.newName(n + 1));
            && maxName !in used && minName !in used && minName != maxName
            && Setup(t, scope[v := Interval(Fin(Var(minName, ty)), Fin(Var(maxName, ty)))], lets, n + 2, conds,
                used + {minName, maxName})
  {
    var (maxName, minName) := (t.o.newName(n), t.o.newName(n + 1));
    var more := used + {minName, maxName};
    MoreScope(scope, used, more);
    hide Reliable, IntervalUses;
    assert Setup(t, scope, lets, n + 2, conds, more);
    assert IntervalUses(Interval(Fin(Var(minName, ty)), Fin(Var(maxName, ty))),
        more) by { NamedUses(minName, maxName, ty, more); }
    SetupPush(t, scope, lets, n + 2, n + 2, conds, more, v, Interval(Fin(Var(minName, ty)), Fin(Var(maxName, ty))));
  }

  lemma NamedUses(minName: string, maxName: string, ty: Type, k: set<string>)
    requires minName in k && maxName in k
    ensures IntervalUses(Interval(Fin(Var(minName, ty)), Fin(Var(maxName, ty))), k)
  {
  }

  lemma TidyMore(boxes: Map, conds: set<string>, k: set<string>, more: set<string>, dims: Dims)
    requires Tidy(boxes, conds, k, dims) && k <= more
    ensures Tidy(boxes, conds, more, dims)
  {
    forall f | f in boxes ensures TidyBox(boxes[f], conds, more, dims(f)) {
      assert TidyBox(boxes[f], conds, k, dims(f));
      forall i | 0 <= i < |boxes[f].bounds| ensures IntervalUses(boxes[f].bounds[i], more) {
        MoreUses(boxes[f].bounds[i], k, more);
      }
    }
  }

  /** Under new names the boxes grow as they do inside. */
  lemma KeepsNamed(t: Tools, boxes: Map, inside: Map, n: nat, n1: nat, n2: nat, conds: set<string>, used: set<string>,
                   dims: Dims,
                   minName: string, low: Expr, maxName: string, high: Expr)
    requires conds <= used && Tidy(boxes, conds, used, dims) && minName !in used && maxName !in used
             && minName != maxName
    requires Keeps(boxes, inside, n, n1, conds, used + {minName, maxName}, dims) && n1 <= n2
    requires Uses(low, used) && Uses(high, used)
    ensures Keeps(boxes, NameAll(inside, minName, low, maxName, high), n, n2, conds, used, dims)
  {
    var more, named := used + {minName, maxName}, NameAll(inside, minName, low, maxName, high);
    NameAllTidy(inside, minName, low, maxName, high, conds, used, dims);
    forall env, f, at | |at| == dims(f) && InMap(boxes, env, f, at) ensures InMap(named, env, f, at) {
      NamesUnseen(boxes, minName, low, maxName, high, env, f, at, conds, used, dims);
      assert InMap(inside, NamedEnv(env, minName, low, maxName, high), f, at);
      NameAllMeans(inside, minName, low, maxName, high, env, f, at, conds, more, dims);
    }
    hide InMap, Tidy, Free;
  }

  lemma MergeAtKeeps(t: Tools, boxes: Map, f: string, b: Box, conds: set<string>, used: set<string>, dims: Dims)
    requires Reliable(t) && conds <= used && Tidy(boxes, conds, used, dims) && TidyBox(b, conds, used, dims(f))
    ensures var boxes' := MergeAt(t, boxes, f, b);
            && Tidy(boxes', conds, used, dims) && Grows(boxes, boxes', dims)
            && forall env, at | |at| == dims(f) && InBox(b, env, at) :: InMap(boxes', env, f, at)
  {
    NoBoxTidy(conds, used, dims(f));
    var a, boxes' := At(boxes, f), MergeAt(t, boxes, f, b);
    assert TidyBox(a, conds, used, dims(f));
    MergeTidy(t, a, b, conds, used, dims(f));
    hide TidyBox, MergeBoxes, Reliable;
    forall env, g, at | |at| == dims(g) && InMap(boxes, env, g, at) ensures InMap(boxes', env, g, at) {
      if g == f {
        MergeTidySound(t, a, b, conds, used, dims(f), env, at);
      }
    }
    forall env, at | |at| == dims(f) && InBox(b, env, at) ensures InMap(boxes', env, f, at) {
      MergeTidySound(t, a, b, conds, used, dims(f), env, at);
    }
    hide InBox;
  }

  // ----- branches -----

  lemma UnderTidy(b: Box, cond: Expr, conds: set<string>, k: set<string>, size: nat)
    requires TidyBox(b, conds, k, size) && Uses(cond, conds)
    ensures Under(b, cond).IsEmpty() || TidyBox(Under(b, cond), conds, k, size)
    ensures Under(b, cond).IsEmpty() <==> b.IsEmpty()
  {
  }

  /** Under a true condition a box is what it was. */
  lemma UnderHolds(b: Box, cond: Expr, env: Env, at: seq<int>)
    requires InBox(b, env, at) && Eval(cond, env) != 0
    ensures InBox(Under(b, cond), env, at)
  {
    if b.MaybeUnused() {
      EvalBin(And, b.used.value, cond, env);
    }
    hide Eval, Contains;
  }

  /** The two branches of one function together, when one of them has a box. */
  lemma BranchesTidy(t: Tools, a: Box, b: Box, cond: Expr, conds: set<string>, k: set<string>, size: nat)
    requires Reliable(t) && conds <= k && TidyBox(a, conds, k, size) && TidyBox(b, conds, k, size) && Uses(cond, conds)
    ensures var x := MergeOr(t, Under(a, cond), Under(b, Not(cond))); x.IsEmpty() || TidyBox(x, conds, k, size)
    ensures var x := MergeOr(t, Under(a, cond), Under(b, Not(cond))); x.IsEmpty() <==> a.IsEmpty() && b.IsEmpty()
  {
    UnderTidy(a, cond, conds, k, size);
    assert Uses(Not(cond), conds);
    UnderTidy(b, Not(cond), conds, k, size);
    var a', b' := Under(a, cond), Under(b, Not(cond));
    if !a.IsEmpty() && !b.IsEmpty() {
      MergeTidy(t, a', b', conds, k, size);
    }
    hide Sane, BoxUses, Under, Uses, MergeSide, MergeUsed;
  }

  lemma BranchTaken(t: Tools, a: Box, b: Box, cond: Expr, conds: set<string>, k: set<string>, size: nat, env: Env,
                    at: seq<int>)
    requires Reliable(t) && conds <= k && TidyBox(a, conds, k, size) && TidyBox(b, conds, k, size) && Uses(cond, conds)
    requires |at| == size && at != []
    requires if Eval(cond, env) != 0 then InBox(a, env, at) else InBox(b, env, at)
    ensures InBox(MergeOr(t, Under(a, cond), Under(b, Not(cond))), env, at)
  {
    UnderTidy(a, cond, conds, k, size);
    assert Uses(Not(cond), conds);
    UnderTidy(b, Not(cond), conds, k, size);
    var a', b' := Under(a, cond), Under(b, Not(cond));
    assert Eval(cond, env) == 0 ==> Eval(Not(cond), env) != 0;
    hide Eval;
    if Eval(cond, env) != 0 {
      UnderHolds(a, cond, env, at);
    } else {
      UnderHolds(b, Not(cond), env, at);
    }
    hide Under;
    if !a.IsEmpty() && !b.IsEmpty() {
      MergeTidySound(t, a', b', conds, k, size, env, at);
    }
    hide Sane, BoxUses, Uses, MergeSide, MergeUsed, Contains, Holds;
  }

  /** Forking and merging keeps what is there, and has what the branch taken has. */
  lemma BranchesKeep(t: Tools, boxes: Map, thenBoxes: Map, elseBoxes: Map, cond: Expr, conds: set<string>,
                     used: set<string>, dims: Dims)
    requires Reliable(t) && conds <= used && Uses(cond, conds)
    requires Tidy(boxes, conds, used, dims) && Tidy(thenBoxes, conds, used, dims) && Tidy(elseBoxes, conds, used, dims)
    ensures var r := MergeBranches(t, boxes, thenBoxes, elseBoxes, cond);
            && Tidy(r, conds, used, dims) && Grows(boxes, r, dims)
            && forall env, f, at | |at| == dims(f)
                && InMap(if Eval(cond, env) != 0 then thenBoxes else elseBoxes, env, f, at) ::
                 InMap(r, env, f, at)
  {
    var r := MergeBranches(t, boxes, thenBoxes, elseBoxes, cond);
    hide MergeOr, Under, MergeBoxes, Reliable, Uses, Eval, TidyBox, InBox;
    forall f | f in r ensures TidyBox(r[f], conds, used, dims(f)) {
      BranchTidyAt(t, boxes, thenBoxes, elseBoxes, cond, conds, used, dims, f);
    }
    forall env, f, at | |at| == dims(f) && InMap(boxes, env, f, at) ensures InMap(r, env, f, at) {
      BranchSoundAt(t, boxes, thenBoxes, elseBoxes, cond, conds, used, dims, f, env, at);
    }
    forall env, f, at | |at| == dims(f) && InMap(if Eval(cond, env) != 0 then thenBoxes else elseBoxes, env, f, at)
      ensures InMap(r, env, f, at)
    {
      BranchSoundAt(t, boxes, thenBoxes, elseBoxes, cond, conds, used, dims, f, env, at);
    }
  }

  lemma AtTidy(boxes: Map, f: string, conds: set<string>, used: set<string>, dims: Dims)
    requires Tidy(boxes, conds, used, dims)
    ensures TidyBox(At(boxes, f), conds, used, dims(f))
  {
    NoBoxTidy(conds, used, dims(f));
  }

  lemma BranchTidyAt(t: Tools, boxes: Map, thenBoxes: Map, elseBoxes: Map, cond: Expr, conds: set<string>,
                     used: set<string>, dims: Dims, f: string)
    requires Reliable(t) && conds <= used && Uses(cond, conds)
    requires Tidy(boxes, conds, used, dims) && Tidy(thenBoxes, conds, used, dims) && Tidy(elseBoxes, conds, used, dims)
    requires f in MergeBranches(t, boxes, thenBoxes, elseBoxes, cond)
    ensures TidyBox(MergeBranches(t, boxes, thenBoxes, elseBoxes, cond)[f], conds, used, dims(f))
  {
    AtTidy(boxes, f, conds, used, dims);
    AtTidy(thenBoxes, f, conds, used, dims);
    AtTidy(elseBoxes, f, conds, used, dims);
    var a, b := At(thenBoxes, f), At(elseBoxes, f);
    var x := MergeOr(t, Under(a, cond), Under(b, Not(cond)));
    BranchesTidy(t, a, b, cond, conds, used, dims(f));
    if !x.IsEmpty() {
      MergeTidy(t, At(boxes, f), x, conds, used, dims(f));
    }
    hide Under, Reliable, Uses, MergeSide, MergeUsed, Sane, BoxUses;
  }

  lemma BranchSoundAt(t: Tools, boxes: Map, thenBoxes: Map, elseBoxes: Map, cond: Expr, conds: set<string>,
                      used: set<string>, dims: Dims,
                      f: string, env: Env, at: seq<int>)
    requires Reliable(t) && conds <= used && Uses(cond, conds)
    requires Tidy(boxes, conds, used, dims) && Tidy(thenBoxes, conds, used, dims) && Tidy(elseBoxes, conds, used, dims)
    requires |at| == dims(f)
    requires InMap(boxes, env, f, at) || InMap(if Eval(cond, env) != 0 then thenBoxes else elseBoxes, env, f, at)
    ensures InMap(MergeBranches(t, boxes, thenBoxes, elseBoxes, cond), env, f, at)
  {
    AtTidy(boxes, f, conds, used, dims);
    AtTidy(thenBoxes, f, conds, used, dims);
    AtTidy(elseBoxes, f, conds, used, dims);
    var a, b := At(thenBoxes, f), At(elseBoxes, f);
    var x := MergeOr(t, Under(a, cond), Under(b, Not(cond)));
    BranchesTidy(t, a, b, cond, conds, used, dims(f));
    EvalImm(One(Bool), env);
    hide Eval, Under, MergeOr, Reliable, Uses;
    if f in thenBoxes || f in elseBoxes {
      if at != [] {
        if !InMap(boxes, env, f, at) {
          BranchTaken(t, a, b, cond, conds, used, dims(f), env, at);
        }
        MergeLast(t, At(boxes, f), x, conds, used, dims(f), env, at);
      } else {
        ScalarLast(t, At(boxes, f), x, conds, used, env);
      }
    }
  }

  lemma MergeLast(t: Tools, a: Box, x: Box, conds: set<string>, k: set<string>, size: nat, env: Env, at: seq<int>)
    requires Reliable(t) && TidyBox(a, conds, k, size) && (x.IsEmpty() || TidyBox(x, conds, k, size))
    requires |at| == size && at != [] && (InBox(a, env, at) || InBox(x, env, at))
    ensures InBox(MergeOr(t, a, x), env, at)
  {
    if !x.IsEmpty() {
      MergeTidySound(t, a, x, conds, k, size, env, at);
    }
    hide MergeSide, MergeUsed;
  }

  /** A function without dimensions keeps a box without a condition. */
  lemma ScalarLast(t: Tools, a: Box, x: Box, conds: set<string>, k: set<string>, env: Env)
    requires TidyBox(a, conds, k, 0) && (x.IsEmpty() || TidyBox(x, conds, k, 0))
    ensures InBox(MergeOr(t, a, x), env, [])
  {
    EvalImm(One(Bool), env);
  }

  // ----- every statement -----

  /** The interval of an expression is usable in the scope. */
  lemma BoundsOk(o: Oracle, e: Expr, scope: Scope, n: nat, conds: set<string>, used: set<string>)
    requires Honest(o) && conds <= used && Outside(e, scope) <= conds && ScopeUses(scope, used) && ScopeSane(scope)
    ensures var (i, n') := BoundsOf(o, e, scope, n); n <= n' && IntervalUses(i, used) && NonEmpty(i)
  {
    BoundsUse(o, e, scope, n, used);
    BoundsNonEmpty(o, e, scope, n);
  }

  lemma {:induction false} ArgsOk(o: Oracle, args: seq<Expr>, scope: Scope, n: nat, conds: set<string>,
                                  used: set<string>)
    requires Honest(o) && conds <= used && ArgsFree(args) - scope.Keys <= conds && ScopeUses(scope, used)
             && ScopeSane(scope)
    ensures var (b, n') := ArgBounds(o, args, scope, n);
            n <= n' && |b| == |args| && forall i | 0 <= i < |b| :: IntervalUses(b[i], used) && NonEmpty(b[i])
    decreases |args|
  {
    if args != [] {
      BoundsOk(o, args[0], scope, n, conds, used);
      ArgsOk(o, args[1..], scope, BoundsOf(o, args[0], scope, n).1, conds, used);
      hide IntervalUses, NonEmpty, ScopeUses, BoundsOf, Free;
    }
  }

  lemma SimplifiedOk(t: Tools, i: Interval, used: set<string>)
    requires Reliable(t) && IntervalUses(i, used) && NonEmpty(i)
    ensures IntervalUses(Simplified(t, i), used) && NonEmpty(Simplified(t, i))
  {
    if i.min.Fin? {
      UsesSimplified(t, i.min.e, used);
    }
    if i.max.Fin? {
      UsesSimplified(t, i.max.e, used);
    }
    SameBoundIsEqual(t.o, i.min, i.max);
    hide Uses, Reliable;
  }

  lemma AsExprUses(b: Bound, used: set<string>)
    requires BoundUses(b, used) && {"neg_inf", "pos_inf"} <= used
    ensures Uses(AsExpr(b), used)
  {
  }

  lemma LoopOk(o: Oracle, s: Stmt, scope: Scope, n: nat, conds: set<string>, used: set<string>)
    requires s.For? && Honest(o) && conds <= used && {"neg_inf", "pos_inf"} <= used
    requires Outside(s.min, scope) <= conds && Outside(s.extent, scope) <= conds && ScopeUses(scope, used)
             && ScopeSane(scope)
    ensures var r := LoopInterval(o, s, scope, n);
            r.Some? ==> n <= r.value.1 && IntervalUses(r.value.0, used) && NonEmpty(r.value.0)
  {
    BoundsOk(o, s.min, scope, n, conds, used);
    var n1 := LoopStart(o, s, scope, n).1;
    BoundsOk(o, s.extent, scope, n1, conds, used);
    var (extent, n2) := BoundsOf(o, s.extent, scope, n1);
    BoundsOk(o, s.min, scope, n2, conds, used);
    LoopEndUses(extent.max, BoundsOf(o, s.min, scope, n2).0.max, used);
    hide BoundsOf, LoopEnd, Uses;
  }

  lemma LoopEndUses(extent: Bound, start: Bound, used: set<string>)
    requires BoundUses(extent, used) && BoundUses(start, used)
    ensures LoopEnd(extent, start).Some? ==>
              LoopEnd(extent, start).value.Fin? && BoundUses(LoopEnd(extent, start).value, used)
  {
    if extent.Fin? && start.Fin? {
      UsesConstants(used);
      UsesBin(Add, extent.e, start.e, used);
      UsesBin(Sub, Bin(Add, extent.e, start.e), One(Int), used);
    }
    hide Uses;
  }

  lemma RestrictOk(op: BinOp, i: Interval, rhs: Interval, used: set<string>)
    requires IntervalUses(i, used) && IntervalUses(rhs, used) && NonEmpty(i)
    ensures IntervalUses(Restrict(op, i, rhs), used) && NonEmpty(Restrict(op, i, rhs))
  {
    UsesConstants(used);
  }

  predicate PushesOk(pushes: seq<Push>, used: set<string>, lets: Lets) {
    forall p | p in pushes :: if p.Dependent? then p.k < |lets| else IntervalUses(p.i, used) && NonEmpty(p.i)
  }

  lemma {:induction false} RestrictionsOk(t: Tools, cond: Expr, vars: seq<string>, scope: Scope, lets: Lets, n: nat,
                                          conds: set<string>, used: set<string>)
    requires Setup(t, scope, lets, n, conds, used) && Outside(cond, scope) <= conds
    ensures var (pushes, n') := Restrictions(t, cond, vars, scope, lets, n); n <= n' && PushesOk(pushes, used, lets)
    decreases |vars|
  {
    if vars != [] {
      var v := vars[0];
      if v in scope && t.solve(cond, v).Some? && Understood(t.solve(cond, v).value) {
        var solved := t.solve(cond, v).value;
        assert Free(solved) <= Free(cond);
        BoundsOk(t.o, solved.b, scope, n, conds, used);
        var (rhs, n1) := BoundsOf(t.o, solved.b, scope, n);
        RestrictOk(solved.op, scope[v], rhs, used);
        SetupLater(t, scope, lets, n, n1, conds, used);
        RestrictionsOk(t, cond, vars[1..], scope, lets, n1, conds, used);
      } else {
        RestrictionsOk(t, cond, vars[1..], scope, lets, n, conds, used);
      }
    }
    hide BoundsOf, Restrict, IntervalUses, NonEmpty, Free, Dependents;
  }

  lemma GrowsTrans(a: Map, b: Map, c: Map, n: nat, n1: nat, n2: nat, conds: set<string>, used: set<string>, dims: Dims)
    requires Keeps(a, b, n, n1, conds, used, dims) && Keeps(b, c, n1, n2, conds, used, dims)
    ensures Keeps(a, c, n, n2, conds, used, dims)
  {
    hide InMap, Tidy;
  }

  /** Whatever the statement does, the boxes stay tidy and what is in them stays in them. */
  lemma {:induction false} BoxesKept(t: Tools, s: Stmt, scope: Scope, lets: Lets, boxes: Map, n: nat,
                                     conds: set<string>, used: set<string>, dims: Dims)
    requires Setup(t, scope, lets, n, conds, used) && StmtFree(s) - scope.Keys <= conds
    requires Sized(s, dims) && Tidy(boxes, conds, used, dims)
    ensures KeepsIfDone(boxes, BoxesOf(t, s, scope, lets, boxes, n), n, conds, used, dims)
    decreases s, 1, 0
  {
    match s
    case NoOp =>
    case Provide(f, args) =>
      ArgsOk(t.o, args, scope, n, conds, used);
      var (b, n1) := ArgBounds(t.o, args, scope, n);
      ProvideTidy(b, conds, used, dims(f));
      MergeAtKeeps(t, boxes, f, Box(None, b), conds, used, dims);
      hide ArgBounds, MergeAt, Tidy, Grows, Reliable;
    case Block(a, b) =>
      BothKept(t, s, a, b, scope, lets, boxes, n, conds, used, dims);
      hide Setup, Tidy, Grows;
    case For(v, _, _, body) =>
      LoopOk(t.o, s, scope, n, conds, used);
      var r := LoopInterval(t.o, s, scope, n);
      if r.Some? {
        var (i, n1) := r.value;
        SetupPush(t, scope, lets, n, n1, conds, used, v, i);
        BoxesKept(t, body, scope[v := i], lets, boxes, n1, conds, used, dims);
      }
      hide LoopInterval, Setup, Tidy, Grows;
    case LetStmt(_, _, _) => LetKept(t, s, scope, lets, boxes, n, conds, used, dims);
    case IfThenElse(_, _, _) => IfKept(t, s, scope, lets, boxes, n, conds, used, dims);
  }

  /** One statement after another. */
  lemma {:induction false} BothKept(t: Tools, s: Stmt, a: Stmt, b: Stmt, scope: Scope, lets: Lets, boxes: Map,
                                    n: nat, conds: set<string>, used: set<string>, dims: Dims)
    requires a < s && b < s
    requires Setup(t, scope, lets, n, conds, used) && StmtFree(a) + StmtFree(b) - scope.Keys <= conds
    requires Sized(a, dims) && Sized(b, dims) && Tidy(boxes, conds, used, dims)
    ensures var r := BoxesOf(t, a, scope, lets, boxes, n);
            && KeepsIfDone(boxes, r, n, conds, used, dims)
            && (r.Some? ==> KeepsIfDone(boxes, BoxesOf(t, b, scope, lets, r.value.0, r.value.1), n, conds, used, dims))
    decreases s, 0, 0
  {
    BoxesKept(t, a, scope, lets, boxes, n, conds, used, dims);
    var r := BoxesOf(t, a, scope, lets, boxes, n);
    if r.Some? {
      var (boxes1, n1) := r.value;
      SetupLater(t, scope, lets, n, n1, conds, used);
      BoxesKept(t, b, scope, lets, boxes1, n1, conds, used, dims);
      var r' := BoxesOf(t, b, scope, lets, boxes1, n1);
      hide Setup, Tidy, Grows;
      if r'.Some? {
        GrowsTrans(boxes, boxes1, r'.value.0, n, n1, r'.value.1, conds, used, dims);
      }
    }
  }

  lemma ProvideTidy(b: seq<Interval>, conds: set<string>, used: set<string>, size: nat)
    requires |b| == size && forall i | 0 <= i < |b| :: IntervalUses(b[i], used) && NonEmpty(b[i])
    ensures TidyBox(Box(None, b), conds, used, size)
  {
  }

  lemma LetsPush(t: Tools, scope: Scope, lets: Lets, n: nat, conds: set<string>, used: set<string>, v: string, x: Expr)
    requires Setup(t, scope, lets, n, conds, used) && Outside(x, scope) <= conds
    ensures Setup(t, scope, lets + [(v, x)], n, conds, used)
  {
  }

  lemma {:induction false} LetKept(t: Tools, s: Stmt, scope: Scope, lets: Lets, boxes: Map, n: nat, conds: set<string>,
                                   used: set<string>, dims: Dims)
    requires s.LetStmt? && Setup(t, scope, lets, n, conds, used) && StmtFree(s) - scope.Keys <= conds
    requires Sized(s, dims) && Tidy(boxes, conds, used, dims)
    ensures KeepsIfDone(boxes, BoxesOf(t, s, scope, lets, boxes, n), n, conds, used, dims)
    decreases s, 0, 1
  {
    hide *;
    var v, x, body := s.v, s.value, s.body;
    LetSetup(t, s, scope, lets, n, conds, used, dims);
    LetUnfolds(t, s, scope, lets, boxes, n);
    var (value, n1) := BoundsOf(t.o, x, scope, n);
    var i, lets' := Simplified(t, value), lets + [(v, x)];
    if KeptSmall(t, value) {
      SetupPush(t, scope, lets', n1, n1, conds, used, v, i);
      BoxesKept(t, body, scope[v := i], lets', boxes, n1, conds, used, dims);
    } else {
      LetNamedKept(t, s, scope, lets', boxes, n1, conds, used, dims, i);
    }
    KeepsFrom(boxes, BoxesOf(t, s, scope, lets, boxes, n), n, n1, conds, used, dims);
  }

  lemma LetSetup(t: Tools, s: Stmt, scope: Scope, lets: Lets, n: nat, conds: set<string>, used: set<string>, dims: Dims)
    requires s.LetStmt? && Setup(t, scope, lets, n, conds, used) && StmtFree(s) - scope.Keys <= conds && Sized(s, dims)
    ensures var (value, n1) := BoundsOf(t.o, s.value, scope, n);
            var i := Simplified(t, value);
            && n <= n1 && IntervalUses(i, used) && NonEmpty(i)
            && Setup(t, scope, lets + [(s.v, s.value)], n1, conds, used)
            && StmtFree(s.body) - scope[s.v := i].Keys <= conds && Sized(s.body, dims)
  {
    assert Outside(s.value, scope) <= conds;
    BoundsOk(t.o, s.value, scope, n, conds, used);
    var (value, n1) := BoundsOf(t.o, s.value, scope, n);
    assert StmtFree(s.body) - scope[s.v := Simplified(t, value)].Keys <= conds;
    SimplifiedOk(t, value, used);
    LetsPush(t, scope, lets, n, conds, used, s.v, s.value);
    SetupLater(t, scope, lets + [(s.v, s.value)], n, n1, conds, used);
    hide Setup, BoundsOf, Simplified, IntervalUses, NonEmpty;
  }

  /** Counting on from a later name does no harm. */
  lemma KeepsFrom(boxes: Map, r: Outcome, n: nat, n1: nat, conds: set<string>, used: set<string>, dims: Dims)
    requires n <= n1 && KeepsIfDone(boxes, r, n1, conds, used, dims)
    ensures KeepsIfDone(boxes, r, n, conds, used, dims)
  {
  }

  /** What a let leaves behind when its bounds got names. */
  function LetLeaves(t: Tools, r: Outcome, n: nat, i: Interval): Outcome {
    if r.None? then None else Some((NameNew(t, r.value.0, n, AsExpr(i.min), AsExpr(i.max)), r.value.1))
  }

  /** Bounds small enough to stand for the variable themselves. */
  predicate KeptSmall(t: Tools, value: Interval) {
    var i := Simplified(t, value);
    IsSmall(i.min) && (SameBound(t.o, value.min, value.max) || IsSmall(i.max))
  }

  lemma LetUnfolds(t: Tools, s: Stmt, scope: Scope, lets: Lets, boxes: Map, n: nat)
    requires s.LetStmt?
    ensures var (value, n1) := BoundsOf(t.o, s.value, scope, n);
            var i, lets' := Simplified(t, value), lets + [(s.v, s.value)];
            BoxesOf(t, s, scope, lets, boxes, n)
            == if KeptSmall(t, value) then BoxesOf(t, s.body, scope[s.v := i], lets', boxes, n1)
               else LetLeaves(t, BoxesOf(t, s.body, scope[s.v := NamedFor(t, s.value, n1)], lets', boxes, n1 + 2),
                   n1, i)
  {
  }

  /** The case of a let whose bounds get names. */
  lemma {:induction false} LetNamedKept(t: Tools, s: Stmt, scope: Scope, lets: Lets, boxes: Map, n: nat,
                                        conds: set<string>, used: set<string>, dims: Dims,
                                        i: Interval)
    requires s.LetStmt? && Setup(t, scope, lets, n, conds, used) && StmtFree(s) - scope.Keys <= conds
             && IntervalUses(i, used)
    requires Sized(s, dims) && Tidy(boxes, conds, used, dims)
    ensures var inside := BoxesOf(t, s.body, scope[s.v := NamedFor(t, s.value, n)], lets, boxes, n + 2);
            KeepsIfDone(boxes, LetLeaves(t, inside, n, i), n, conds, used, dims)
    decreases s, 0, 0
  {
    var (maxName, minName) := (t.o.newName(n), t.o.newName(n + 1));
    var named := NamedFor(t, s.value, n);
    SetupNamed(t, scope, lets, n, conds, used, s.v, TypeOf(s.value));
    TidyMore(boxes, conds, used, used + {minName, maxName}, dims);
    BoxesKept(t, s.body, scope[s.v := named], lets, boxes, n + 2, conds, used + {minName, maxName}, dims);
    var r := BoxesOf(t, s.body, scope[s.v := named], lets, boxes, n + 2);
    AsExprUses(i.min, used);
    AsExprUses(i.max, used);
    hide Tidy, Uses, AsExpr, BoxesOf, Setup;
    if r.Some? {
      KeepsNamed(t, boxes, r.value.0, n + 2, r.value.1, r.value.1, conds, used, dims, minName, AsExpr(i.min), maxName,
          AsExpr(i.max));
    }
    KeepsFrom(boxes, LetLeaves(t, r, n, i), n, n + 2, conds, used, dims);
  }

  lemma {:induction false} IfKept(t: Tools, s: Stmt, scope: Scope, lets: Lets, boxes: Map, n: nat, conds: set<string>,
                                  used: set<string>, dims: Dims)
    requires s.IfThenElse? && Setup(t, scope, lets, n, conds, used) && StmtFree(s) - scope.Keys <= conds
    requires Sized(s, dims) && Tidy(boxes, conds, used, dims)
    ensures KeepsIfDone(boxes, BoxesOf(t, s, scope, lets, boxes, n), n, conds, used, dims)
    decreases s, 0, 1
  {
    var c, a, b := s.cond, s.thenCase, s.elseCase;
    if UsesScope(c, scope) {
      if b.NoOp? {
        RestrictionsOk(t, c, Occurrences(c), scope, lets, n, conds, used);
        var (pushes, n1) := Restrictions(t, c, Occurrences(c), scope, lets, n);
        SetupLater(t, scope, lets, n, n1, conds, used);
        TrimmedKept(t, a, pushes, scope, lets, boxes, n1, conds, used, dims);
      } else {
        BothKept(t, s, a, b, scope, lets, boxes, n, conds, used, dims);
      }
    } else {
      ForkKept(t, s, scope, lets, boxes, n, conds, used, dims);
    }
    hide Setup, Restrictions, Trimmed, MergeBranches, Tidy, Grows;
  }

  /** Both branches from nothing, and merged. */
  lemma {:induction false} ForkKept(t: Tools, s: Stmt, scope: Scope, lets: Lets, boxes: Map, n: nat, conds: set<string>,
                                    used: set<string>, dims: Dims)
    requires s.IfThenElse? && !UsesScope(s.cond, scope)
    requires Setup(t, scope, lets, n, conds, used) && StmtFree(s) - scope.Keys <= conds
    requires Sized(s, dims) && Tidy(boxes, conds, used, dims)
    ensures KeepsIfDone(boxes, BoxesOf(t, s, scope, lets, boxes, n), n, conds, used, dims)
    decreases s, 0, 0
  {
    var c, a, b := s.cond, s.thenCase, s.elseCase;
    BoxesKept(t, a, scope, lets, map[], n, conds, used, dims);
    var r := BoxesOf(t, a, scope, lets, map[], n);
    if r.Some? {
      var (thenBoxes, n1) := r.value;
      SetupLater(t, scope, lets, n, n1, conds, used);
      BoxesKept(t, b, scope, lets, map[], n1, conds, used, dims);
      var r' := BoxesOf(t, b, scope, lets, map[], n1);
      FreeAreNames(c);
      assert Uses(c, conds);
      hide Setup, Tidy, Grows, MergeBranches;
      if r'.Some? {
        BranchesKeep(t, boxes, thenBoxes, r'.value.0, c, conds, used, dims);
      }
    }
  }

  lemma {:induction false} TrimmedKept(t: Tools, s: Stmt, pushes: seq<Push>, scope: Scope, lets: Lets, boxes: Map,
                                       n: nat,
                                       conds: set<string>, used: set<string>, dims: Dims)
    requires PushesOk(pushes, used, lets) && forall p | p in pushes :: p.Dependent? ==> p.k < |lets|
    requires Setup(t, scope, lets, n, conds, used) && StmtFree(s) - scope.Keys <= conds
    requires Sized(s, dims) && Tidy(boxes, conds, used, dims)
    ensures KeepsIfDone(boxes, Trimmed(t, s, pushes, scope, lets, boxes, n), n, conds, used, dims)
    decreases s, 2, |pushes|
  {
    if pushes == [] {
      BoxesKept(t, s, scope, lets, boxes, n, conds, used, dims);
    } else {
      match pushes[0]
      case Given(v, i) =>
        SetupPush(t, scope, lets, n, n, conds, used, v, i);
        TrimmedKept(t, s, pushes[1..], scope[v := i], lets, boxes, n, conds, used, dims);
      case Dependent(k) =>
        DependentKept(t, s, pushes, scope, lets, boxes, n, conds, used, dims);
    }
    hide BoxesOf, Setup, Tidy, Grows;
  }

  lemma TrimmedUses(t: Tools, i: Interval, known: Interval, used: set<string>)
    requires Reliable(t) && IntervalUses(i, used) && IntervalUses(known, used) && {"neg_inf", "pos_inf"} <= used
    ensures Uses(TrimmedLow(t, i, known), used) && Uses(TrimmedHigh(t, i, known), used)
  {
    AsExprUses(i.min, used);
    AsExprUses(i.max, used);
    AsExprUses(known.min, used);
    AsExprUses(known.max, used);
    hide Uses, AsExpr;
    UsesBin(Max, AsExpr(i.min), AsExpr(known.min), used);
    UsesBin(Min, AsExpr(i.max), AsExpr(known.max), used);
    UsesSimplified(t, Bin(Max, AsExpr(i.min), AsExpr(known.min)), used);
    UsesSimplified(t, Bin(Min, AsExpr(i.max), AsExpr(known.max)), used);
  }

  lemma {:induction false} DependentKept(t: Tools, s: Stmt, pushes: seq<Push>, scope: Scope, lets: Lets, boxes: Map,
                                         n: nat,
                                         conds: set<string>, used: set<string>, dims: Dims)
    requires PushesOk(pushes, used, lets) && forall p | p in pushes :: p.Dependent? ==> p.k < |lets|
    requires pushes != [] && pushes[0].Dependent?
    requires Setup(t, scope, lets, n, conds, used) && StmtFree(s) - scope.Keys <= conds
    requires Sized(s, dims) && Tidy(boxes, conds, used, dims)
    ensures KeepsIfDone(boxes, Trimmed(t, s, pushes, scope, lets, boxes, n), n, conds, used, dims)
    decreases s, 2, |pushes|, 0
  {
    var (u, x) := lets[pushes[0].k];
    var (maxName, minName) := (t.o.newName(n), t.o.newName(n + 1));
    var named, more := NamedFor(t, x, n), used + {minName, maxName};
    SetupNamed(t, scope, lets, n, conds, used, u, TypeOf(x));
    TidyMore(boxes, conds, used, more, dims);
    forall p | p in pushes[1..]
      ensures if p.Dependent? then p.k < |lets| else IntervalUses(p.i, more) && NonEmpty(p.i)
    {
      assert p in pushes;
      if p.Given? { MoreUses(p.i, used, more); }
    }
    TrimmedKept(t, s, pushes[1..], scope[u := named], lets, boxes, n + 2, conds, more, dims);
    var r := Trimmed(t, s, pushes[1..], scope[u := named], lets, boxes, n + 2);
    if r.Some? {
      var (boxes1, n1) := r.value;
      BoundsOk(t.o, x, scope, n1, conds, used);
      var (value, n2) := BoundsOf(t.o, x, scope, n1);
      SimplifiedOk(t, value, used);
      var i, known := Simplified(t, value), Known(scope, u);
      TrimmedUses(t, i, known, used);
      var low, high := TrimmedLow(t, i, known), TrimmedHigh(t, i, known);
      hide BoundsOf, Simplified, Tidy, Grows, Uses, Setup, PushesOk, BoxesOf;
      KeepsNamed(t, boxes, boxes1, n + 2, n1, n2, conds, used, dims, minName, low, maxName, high);
    }
    hide BoundsOf, Simplified, Tidy, Grows, Uses, Setup, PushesOk, BoxesOf;
  }
}
