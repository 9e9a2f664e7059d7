/** The shape the lowering gives to a body that realizes an asynchronous function, and the trace of
    such a body: idle stretches and rounds, a round being one produce followed by its consumes. */
module AsyncShape {
  import opened StmtIR
  import opened AsyncFork

  /** No produce or consume node of the function. */
  predicate Free(s: Stmt, func: string) {
    match s
    case NoOp => true
    case Provide(_, _, _) => true
    case Block(a, b) => Free(a, func) && Free(b, func)
    case For(_, _, _, b) => Free(b, func)
    case LetStmt(_, _, b) => Free(b, func)
    case IfThenElse(_, t, e) => Free(t, func) && Free(e, func)
    case ProducerConsumer(f, _, b) => f != func && Free(b, func)
    case Realize(_, b) => Free(b, func)
    case Acquire(_, _, b) => Free(b, func)
    case Release(_, _) => true
    case Fork(a, b) => Free(a, func) && Free(b, func)
  }

  /** Every consume node of the function is entered exactly once. */
  predicate OnceEach(s: Stmt, func: string) {
    Free(s, func) ||
    match s
    case Block(a, b) => OnceEach(a, func) && OnceEach(b, func)
    case LetStmt(_, _, b) => OnceEach(b, func)
    case ProducerConsumer(f, p, b) => if f == func then !p && Free(b, func) else OnceEach(b, func)
    case Realize(_, b) => OnceEach(b, func)
    case _ => false
  }

  predicate IsRound(s: Stmt, func: string) {
    s.Block? && s.first.ProducerConsumer? && s.first.func == func && s.first.isProducer
  }

  /** One produce node, under any loop nest, with the consume nodes right behind it. */
  predicate Synced(s: Stmt, func: string) {
    Free(s, func) ||
    match s
    case Block(a, b) =>
      if IsRound(s, func) then Free(a.body, func) && OnceEach(b, func)
      else (Free(a, func) && Synced(b, func)) || (Synced(a, func) && Free(b, func))
    case For(_, _, _, b) => Synced(b, func)
    case LetStmt(_, _, b) => Synced(b, func)
    case IfThenElse(_, t, e) => (Synced(t, func) && Free(e, func)) || (Free(t, func) && Synced(e, func))
    case ProducerConsumer(f, _, b) => f != func && Synced(b, func)
    case Realize(_, b) => Synced(b, func)
    case _ => false
  }

  /** What may be loaded outside produce nodes: the function only in its consume nodes. */
  predicate MayLoad(fs: set<string>, func: string, inConsume: bool) {
    inConsume || func !in fs
  }

  /** The produce node writes only the function and loads, of what is written here (`w`), only the
      function; nothing else writes the function, and only its consume nodes load it. */
  predicate Separated(s: Stmt, func: string, w: set<string>, inConsume: bool) {
    match s
    case NoOp => true
    case Provide(f, i, v) => f != func && MayLoad(Loads(i) + Loads(v), func, inConsume)
    case Block(a, b) => Separated(a, func, w, inConsume) && Separated(b, func, w, inConsume)
    case For(_, lo, n, b) => MayLoad(Loads(lo) + Loads(n), func, inConsume) && Separated(b, func, w, inConsume)
    case LetStmt(_, e, b) => MayLoad(Loads(e), func, inConsume) && Separated(b, func, w, inConsume)
    case IfThenElse(c, t, e) =>
      && MayLoad(Loads(c), func, inConsume)
      && Separated(t, func, w, inConsume) && Separated(e, func, w, inConsume)
    case ProducerConsumer(f, p, b) =>
      if f == func && p then Provided(b) <= {func} && (LeafLoads(b) + ControlLoads(b)) * w <= {func}
      else Separated(b, func, w, inConsume || f == func)
    case Realize(_, b) => Separated(b, func, w, inConsume)
    case Acquire(_, n, b) => MayLoad(Loads(n), func, inConsume) && Separated(b, func, w, inConsume)
    case Release(_, n) => MayLoad(Loads(n), func, inConsume)
    case Fork(a, b) => Separated(a, func, w, inConsume) && Separated(b, func, w, inConsume)
  }

  /** The control around the produce node, which both copies evaluate, loads nothing that is written
      here: the producer copy has lost those stores. */
  predicate SpineSteady(s: Stmt, func: string, w: set<string>) {
    Free(s, func) ||
    match s
    case Block(a, b) => IsRound(s, func) || (SpineSteady(a, func, w) && SpineSteady(b, func, w))
    case For(_, lo, n, b) => (Loads(lo) + Loads(n)) * w == {} && SpineSteady(b, func, w)
    case LetStmt(_, e, b) => Loads(e) * w == {} && SpineSteady(b, func, w)
    case IfThenElse(c, t, e) => Loads(c) * w == {} && SpineSteady(t, func, w) && SpineSteady(e, func, w)
    case ProducerConsumer(_, _, b) => SpineSteady(b, func, w)
    case Realize(_, b) => SpineSteady(b, func, w)
    case _ => true
  }

  /** The static side of the hypotheses of the forking theorem. */
  predicate WellFormed(body: Stmt, func: string) {
    && Plain(body)
    && Synced(body, func)
    && Separated(body, func, Provided(body), false)
    && SpineSteady(body, func, Provided(body))
  }

  // ----- dropping tests -----

  /** `u` is `t` without some of its tests. */
  predicate Thin(t: seq<Act>, u: seq<Act>) {
    if t == [] then u == []
    else
      || (u != [] && t[0] == u[0] && Thin(t[1..], u[1..]))
      || (t[0].Test? && Thin(t[1..], u))
  }

  lemma {:induction false} ThinSelf(t: seq<Act>)
    ensures Thin(t, t)
    decreases |t|
  {
    if t != [] {
      ThinSelf(t[1..]);
    }
  }

  lemma {:induction false} ThinGone(t: seq<Act>)
    requires forall a | a in t :: a.Test?
    ensures Thin(t, [])
    decreases |t|
  {
    if t != [] {
      assert t[0] in t;
      ThinGone(t[1..]);
    }
  }

  lemma {:induction false} ThinConcat(t: seq<Act>, u: seq<Act>, t': seq<Act>, u': seq<Act>)
    requires Thin(t, u) && Thin(t', u')
    ensures Thin(t + t', u + u')
    decreases |t|
  {
    if t == [] {
      assert t + t' == t' && u + u' == u';
    } else {
      assert (t + t')[0] == t[0] && (t + t')[1..] == t[1..] + t';
      if u != [] && t[0] == u[0] && Thin(t[1..], u[1..]) {
        assert (u + u')[0] == u[0] && (u + u')[1..] == u[1..] + u';
        ThinConcat(t[1..], u[1..], t', u');
      } else {
        ThinConcat(t[1..], u, t', u');
      }
    }
  }

  /** Tests change nothing. */
  lemma {:induction false} ThinDo(t: seq<Act>, u: seq<Act>, store: Store)
    requires Thin(t, u)
    ensures DoAll(t, store) == DoAll(u, store)
    ensures Real(t, store) ==> Real(u, store)
    decreases |t|
  {
    if t != [] {
      if u != [] && t[0] == u[0] && Thin(t[1..], u[1..]) {
        ThinDo(t[1..], u[1..], Do(t[0], store));
      } else {
        assert Do(t[0], store) == store;
        ThinDo(t[1..], u, store);
      }
    }
  }

  lemma {:induction false} ThinMembers(t: seq<Act>, u: seq<Act>)
    requires Thin(t, u)
    ensures forall a | a in u :: a in t
    decreases |t|
  {
    if t != [] {
      if u != [] && t[0] == u[0] && Thin(t[1..], u[1..]) {
        ThinMembers(t[1..], u[1..]);
        assert u == [u[0]] + u[1..] && t == [t[0]] + t[1..];
      } else {
        ThinMembers(t[1..], u);
      }
    }
  }

  // ----- the traces of the folded constructors -----

  lemma {:induction false} NoOpLoop(k: Watch, own: bool, v: string, lo: int, n: nat, env: Env, store: Store)
    ensures TraceLoop(k, NoOp, own, v, lo, n, env, store) == []
    decreases n
  {
    if n != 0 {
      NoOpLoop(k, own, v, lo + 1, n - 1, env, store);
    }
  }

  lemma {:induction false} TraceMakeBlock(k: Watch, a: Stmt, b: Stmt, own: bool, env: Env, store: Store)
    ensures Trace(k, MakeBlock(a, b), own, env, store) ==
            Trace(k, a, own, env, store) + Trace(k, b, own, env, Run(a, env, store))
    decreases a
  {
    match a
    case Block(x, y) =>
      var mid := Run(x, env, store);
      TraceMakeBlock(k, y, b, own, env, mid);
      SeqAssoc(Trace(k, x, own, env, store), Trace(k, y, own, env, mid), Trace(k, b, own, env, Run(y, env, mid)));
    case _ =>
  }

  lemma TraceFoldBlock(k: Watch, a: Stmt, b: Stmt, own: bool, env: Env, store: Store)
    ensures Trace(k, FoldBlock(a, b), own, env, store) ==
            Trace(k, a, own, env, store) + Trace(k, b, own, env, Run(a, env, store))
  {
    TraceMakeBlock(k, a, b, own, env, store);
    assert [] + Trace(k, b, own, env, store) == Trace(k, b, own, env, store);
  }

  /** The second statement does what the first does, with fewer tests. */
  ghost predicate Leaner(k: Watch, s: Stmt, s': Stmt, env: Env, store: Store) {
    && Thin(Trace(k, s, false, env, store), Trace(k, s', false, env, store))
    && Run(s, env, store) == Run(s', env, store)
  }

  lemma LeanerRuns(k: Watch, s: Stmt, s': Stmt, env: Env, store: Store)
    requires Thin(Trace(k, s, false, env, store), Trace(k, s', false, env, store))
    ensures Leaner(k, s, s', env, store)
  {
    RunIsTrace(k, s, false, env, store);
    RunIsTrace(k, s', false, env, store);
    ThinDo(Trace(k, s, false, env, store), Trace(k, s', false, env, store), store);
  }

  lemma {:induction false} LeanerLoop(k: Watch, b: Stmt, b': Stmt, v: string, lo: int, n: nat, env: Env, store: Store)
    requires forall e: Env, st: Store :: Leaner(k, b, b', e, st)
    ensures Thin(TraceLoop(k, b, false, v, lo, n, env, store), TraceLoop(k, b', false, v, lo, n, env, store))
    decreases n
  {
    if n != 0 {
      var inner := env[v := lo];
      assert Leaner(k, b, b', inner, store);
      var mid := Run(b, inner, store);
      LeanerLoop(k, b, b', v, lo + 1, n - 1, env, mid);
      ThinConcat(Trace(k, b, false, inner, store), Trace(k, b', false, inner, store),
                 TraceLoop(k, b, false, v, lo + 1, n - 1, env, mid),
                     TraceLoop(k, b', false, v, lo + 1, n - 1, env, mid));
    }
  }

  lemma LeanerFoldFor(k: Watch, v: string, lo: Expr, n: Expr, b: Stmt, b': Stmt, env: Env, store: Store)
    requires forall e: Env, st: Store :: Leaner(k, b, b', e, st)
    ensures Leaner(k, For(v, lo, n, b), FoldFor(v, lo, n, b'), env, store)
  {
    var l, m := Eval(lo, env, store), Nat(Eval(n, env, store));
    var tests := Tests(k, false, lo, n, env, store);
    var t, t' := TraceLoop(k, b, false, v, l, m, env, store), TraceLoop(k, b', false, v, l, m, env, store);
    LeanerLoop(k, b, b', v, l, m, env, store);
    if IsNoOp(b') {
      NoOpLoop(k, false, v, l, m, env, store);
      TestsFrom(k, false, lo, n, env, store);
      ThinGone(tests);
      ThinConcat(tests, [], t, []);
    } else {
      ThinSelf(tests);
      ThinConcat(tests, tests, t, t');
    }
    LeanerRuns(k, For(v, lo, n, b), FoldFor(v, lo, n, b'), env, store);
  }

  lemma LeanerFoldLet(k: Watch, v: string, e: Expr, b: Stmt, b': Stmt, env: Env, store: Store)
    requires Leaner(k, b, b', env[v := Eval(e, env, store)], store)
    ensures Leaner(k, LetStmt(v, e, b), FoldLet(v, e, b'), env, store)
  {
    var tests, inner := Tests(k, false, e, Const(0), env, store), env[v := Eval(e, env, store)];
    if IsNoOp(b') {
      TestsFrom(k, false, e, Const(0), env, store);
      ThinGone(tests);
      ThinConcat(tests, [], Trace(k, b, false, inner, store), []);
    } else {
      ThinSelf(tests);
      ThinConcat(tests, tests, Trace(k, b, false, inner, store), Trace(k, b', false, inner, store));
    }
    LeanerRuns(k, LetStmt(v, e, b), FoldLet(v, e, b'), env, store);
  }

  lemma LeanerFoldIf(k: Watch, c: Expr, t: Stmt, t': Stmt, e: Stmt, e': Stmt, env: Env, store: Store)
    requires Leaner(k, t, t', env, store) && Leaner(k, e, e', env, store)
    ensures Leaner(k, IfThenElse(c, t, e), FoldIf(c, t', e'), env, store)
  {
    var tests := Tests(k, false, c, Const(0), env, store);
    var taken, taken' := if Eval(c, env, store) != 0 then t else e, if Eval(c, env, store) != 0 then t' else e';
    if IsNoOp(t') && IsNoOp(e') {
      TestsFrom(k, false, c, Const(0), env, store);
      ThinGone(tests);
      ThinConcat(tests, [], Trace(k, taken, false, env, store), []);
    } else {
      ThinSelf(tests);
      ThinConcat(tests, tests, Trace(k, taken, false, env, store), Trace(k, taken', false, env, store));
    }
    LeanerRuns(k, IfThenElse(c, t, e), FoldIf(c, t', e'), env, store);
  }

  lemma LeanerFoldBlock(k: Watch, a: Stmt, a': Stmt, b: Stmt, b': Stmt, env: Env, store: Store)
    requires Leaner(k, a, a', env, store) && Leaner(k, b, b', env, Run(a, env, store))
    ensures Leaner(k, Block(a, b), FoldBlock(a', b'), env, store)
  {
    var mid := Run(a, env, store);
    TraceFoldBlock(k, a', b', false, env, store);
    ThinConcat(Trace(k, a, false, env, store), Trace(k, a', false, env, store),
               Trace(k, b, false, env, mid), Trace(k, b', false, env, mid));
    LeanerRuns(k, Block(a, b), FoldBlock(a', b'), env, store);
  }

  // ----- bodies without the function -----

  lemma {:induction false} FreeCounts(s: Stmt, func: string)
    requires Free(s, func)
    ensures ConsumeCount(s, func) == ProduceCount(s, func) == 0
  {
    match s
    case NoOp =>
    case Provide(_, _, _) =>
    case Block(a, b) => FreeCounts(a, func); FreeCounts(b, func);
    case For(_, _, _, b) => FreeCounts(b, func);
    case LetStmt(_, _, b) => FreeCounts(b, func);
    case IfThenElse(_, t, e) => FreeCounts(t, func); FreeCounts(e, func);
    case ProducerConsumer(_, _, b) => FreeCounts(b, func);
    case Realize(_, b) => FreeCounts(b, func);
    case Acquire(_, _, b) => FreeCounts(b, func);
    case Release(_, _) =>
    case Fork(a, b) => FreeCounts(a, func); FreeCounts(b, func);
  }

  /** The producer copy of a statement without a produce node is nothing at all. */
  lemma {:induction false} ProducerVanishes(s: Stmt, func: string, sema: seq<Sema>)
    requires Plain(s) && ProduceCount(s, func) == 0
    ensures Producer(s, func, sema) == Done(NoOp, sema)
  {
    match s
    case NoOp =>
    case Provide(_, _, _) =>
    case Block(a, b) => ProducerVanishes(a, func, sema); ProducerVanishes(b, func, sema);
    case For(_, _, _, b) => ProducerVanishes(b, func, sema);
    case LetStmt(_, _, b) => ProducerVanishes(b, func, sema);
    case IfThenElse(_, t, e) => ProducerVanishes(t, func, sema); ProducerVanishes(e, func, sema);
    case ProducerConsumer(_, _, b) => ProducerVanishes(b, func, sema);
    case Realize(_, b) => ProducerVanishes(b, func, sema);
  }

  /** The consumer copy of a statement without the function does what the statement does, leaving out
      control that nothing depends on. */
  lemma {:induction false} ConsumerKeeps(k: Watch, s: Stmt, sema: seq<Sema>, env: Env, store: Store)
    requires Plain(s) && Free(s, k.func)
    ensures ConsumeCount(s, k.func) == 0
    ensures Consumer(s, k.func, sema).1 == sema
    ensures Leaner(k, s, Consumer(s, k.func, sema).0, env, store)
  {
    FreeCounts(s, k.func);
    match s
    case NoOp =>
    case Provide(_, _, _) => ThinSelf(Trace(k, s, false, env, store));
    case Block(a, b) =>
      ConsumerKeeps(k, a, sema, env, store);
      ConsumerKeeps(k, b, sema, env, Run(a, env, store));
      LeanerFoldBlock(k, a, Consumer(a, k.func, sema).0, b, Consumer(b, k.func, sema).0, env, store);
    case For(v, lo, n, b) =>
      forall e: Env, st: Store ensures Leaner(k, b, Consumer(b, k.func, sema).0, e, st) {
        ConsumerKeeps(k, b, sema, e, st);
      }
      ConsumerKeeps(k, b, sema, env, store);
      LeanerFoldFor(k, v, lo, n, b, Consumer(b, k.func, sema).0, env, store);
    case LetStmt(v, e, b) =>
      ConsumerKeeps(k, b, sema, env[v := Eval(e, env, store)], store);
      LeanerFoldLet(k, v, e, b, Consumer(b, k.func, sema).0, env, store);
    case IfThenElse(c, t, e) =>
      ConsumerKeeps(k, t, sema, env, store);
      ConsumerKeeps(k, e, sema, env, store);
      LeanerFoldIf(k, c, t, Consumer(t, k.func, sema).0, e, Consumer(e, k.func, sema).0, env, store);
    case ProducerConsumer(_, _, b) => ConsumerKeeps(k, b, sema, env, store);
    case Realize(_, b) => ConsumerKeeps(k, b, sema, env, store);
  }

  // ----- facts about actions -----

  /** The acquires of a trace, in order. */
  function Acqs(t: seq<Act>): seq<Sema> {
    if t == [] then [] else (if t[0].Acq? then [t[0].sema] else []) + Acqs(t[1..])
  }

  lemma {:induction false} AcqsConcat(t: seq<Act>, u: seq<Act>)
    ensures Acqs(t + u) == Acqs(t) + Acqs(u)
    decreases |t|
  {
    if t == [] {
      assert t + u == u;
    } else {
      assert (t + u)[1..] == t[1..] + u;
      AcqsConcat(t[1..], u);
      SeqAssoc(if t[0].Acq? then [t[0].sema] else [], Acqs(t[1..]), Acqs(u));
    }
  }

  lemma {:induction false} AcqsNone(t: seq<Act>)
    requires forall a | a in t :: !a.Acq?
    ensures Acqs(t) == []
    decreases |t|
  {
    if t != [] {
      assert t[0] in t;
      AcqsNone(t[1..]);
    }
  }

  /** What happens to the function, or to everything else: stores, and tests inside or outside its
      produce nodes. */
  predicate IsItem(a: Act, func: string, own: bool) {
    (a.Write? && (a.func == func) == own) || (a.Test? && a.own == own)
  }

  function Items(t: seq<Act>, func: string, own: bool): seq<Act> {
    if t == [] then [] else (if IsItem(t[0], func, own) then [t[0]] else []) + Items(t[1..], func, own)
  }

  lemma {:induction false} ItemsConcat(t: seq<Act>, u: seq<Act>, func: string, own: bool)
    ensures Items(t + u, func, own) == Items(t, func, own) + Items(u, func, own)
    decreases |t|
  {
    if t == [] {
      assert t + u == u;
    } else {
      assert (t + u)[1..] == t[1..] + u;
      ItemsConcat(t[1..], u, func, own);
      SeqAssoc(if IsItem(t[0], func, own) then [t[0]] else [], Items(t[1..], func, own), Items(u, func, own));
    }
  }

  /** A trace of items of one side is its own items, and has none of the other side. */
  lemma {:induction false} ItemsAll(t: seq<Act>, func: string, own: bool)
    requires forall a | a in t :: IsItem(a, func, own)
    ensures Items(t, func, own) == t && Items(t, func, !own) == []
    decreases |t|
  {
    if t != [] {
      assert t[0] in t;
      ItemsAll(t[1..], func, own);
    }
  }

  lemma {:induction false} ItemsNone(t: seq<Act>, func: string, own: bool)
    requires forall a | a in t :: !IsItem(a, func, own)
    ensures Items(t, func, own) == []
    decreases |t|
  {
    if t != [] {
      assert t[0] in t;
      ItemsNone(t[1..], func, own);
    }
  }

  /** Semaphore operations change nothing in the store. */
  lemma {:induction false} ItemsDo(t: seq<Act>, func: string, own: bool, store: Store)
    requires forall a | a in t :: IsItem(a, func, own) || a.Acq? || a.Rel?
    ensures DoAll(Items(t, func, own), store) == DoAll(t, store)
    decreases |t|
  {
    if t != [] {
      assert t[0] in t;
      ItemsDo(t[1..], func, own, Do(t[0], store));
      if IsItem(t[0], func, own) {
        assert Items(t, func, own)[1..] == Items(t[1..], func, own);
      } else {
        assert Items(t, func, own) == Items(t[1..], func, own);
      }
    }
  }

  /** Loads of the function come after an acquire. */
  ghost predicate Guarded(t: seq<Act>, func: string) {
    forall j | 0 <= j < |t| && func in ActLoads(t[j]) :: exists i :: 0 <= i < j && t[i].Acq?
  }

  lemma GuardedConcat(t: seq<Act>, u: seq<Act>, func: string)
    requires Guarded(t, func) && Guarded(u, func)
    ensures Guarded(t + u, func)
  {
    var w := t + u;
    forall j | 0 <= j < |w| && func in ActLoads(w[j])
      ensures exists i :: 0 <= i < j && w[i].Acq?
    {
      if j < |t| {
        var i :| 0 <= i < j && t[i].Acq?;
        assert w[i].Acq?;
      } else {
        var i :| 0 <= i < j - |t| && u[i].Acq?;
        assert w[|t| + i].Acq?;
      }
    }
  }

  predicate OwnAct(a: Act, func: string, w: set<string>) {
    IsItem(a, func, true) && (a.Write? ==> func in w) && ActLoads(a) * w <= {func}
  }

  predicate OtherAct(a: Act, func: string, w: set<string>) {
    IsItem(a, func, false) && (a.Write? ==> a.func in w)
  }

  predicate ConsumeAct(a: Act, func: string, w: set<string>) {
    OtherAct(a, func, w) || (a.Acq? && a.n == 1)
  }

  // ----- segments -----

  /** An idle stretch holds what the consumer copy does; a round, one execution of the produce node and
      what the consumer copy does behind it. */
  datatype Seg = Idle(acts: seq<Act>) | Round(inst: seq<Act>, cons: seq<Act>)

  function Rels(sema: seq<Sema>): seq<Act> {
    if sema == [] then [] else [Rel(sema[|sema| - 1], 1)] + Rels(sema[..|sema| - 1])
  }

  /** The body, the producer copy and the consumer copy, from the segments. */
  function BodyActs(g: Seg, func: string): seq<Act> {
    match g
    case Idle(acts) => acts
    case Round(inst, cons) => inst + Items(cons, func, false)
  }

  function ProducerActs(g: Seg, sema: seq<Sema>): seq<Act> {
    match g
    case Idle(_) => []
    case Round(inst, _) => inst + Rels(sema)
  }

  function ConsumerActs(g: Seg): seq<Act> {
    match g
    case Idle(acts) => acts
    case Round(_, cons) => cons
  }

  function BodyTrace(gs: seq<Seg>, func: string): seq<Act> {
    if gs == [] then [] else BodyActs(gs[0], func) + BodyTrace(gs[1..], func)
  }

  function ProducerTrace(gs: seq<Seg>, sema: seq<Sema>): seq<Act> {
    if gs == [] then [] else ProducerActs(gs[0], sema) + ProducerTrace(gs[1..], sema)
  }

  function ConsumerTrace(gs: seq<Seg>): seq<Act> {
    if gs == [] then [] else ConsumerActs(gs[0]) + ConsumerTrace(gs[1..])
  }

  lemma {:induction false} BodyConcat(gs: seq<Seg>, hs: seq<Seg>, func: string)
    ensures BodyTrace(gs + hs, func) == BodyTrace(gs, func) + BodyTrace(hs, func)
    decreases |gs|
  {
    if gs == [] {
      assert gs + hs == hs;
    } else {
      assert (gs + hs)[1..] == gs[1..] + hs;
      BodyConcat(gs[1..], hs, func);
      SeqAssoc(BodyActs(gs[0], func), BodyTrace(gs[1..], func), BodyTrace(hs, func));
    }
  }

  lemma {:induction false} ProducerConcat(gs: seq<Seg>, hs: seq<Seg>, sema: seq<Sema>)
    ensures ProducerTrace(gs + hs, sema) == ProducerTrace(gs, sema) + ProducerTrace(hs, sema)
    decreases |gs|
  {
    if gs == [] {
      assert gs + hs == hs;
    } else {
      assert (gs + hs)[1..] == gs[1..] + hs;
      ProducerConcat(gs[1..], hs, sema);
      SeqAssoc(ProducerActs(gs[0], sema), ProducerTrace(gs[1..], sema), ProducerTrace(hs, sema));
    }
  }

  lemma {:induction false} ConsumerConcat(gs: seq<Seg>, hs: seq<Seg>)
    ensures ConsumerTrace(gs + hs) == ConsumerTrace(gs) + ConsumerTrace(hs)
    decreases |gs|
  {
    if gs == [] {
      assert gs + hs == hs;
    } else {
      assert (gs + hs)[1..] == gs[1..] + hs;
      ConsumerConcat(gs[1..], hs);
      SeqAssoc(ConsumerActs(gs[0]), ConsumerTrace(gs[1..]), ConsumerTrace(hs));
    }
  }

  lemma TracesConcat(gs: seq<Seg>, hs: seq<Seg>, func: string, sema: seq<Sema>)
    ensures BodyTrace(gs + hs, func) == BodyTrace(gs, func) + BodyTrace(hs, func)
    ensures ProducerTrace(gs + hs, sema) == ProducerTrace(gs, sema) + ProducerTrace(hs, sema)
    ensures ConsumerTrace(gs + hs) == ConsumerTrace(gs) + ConsumerTrace(hs)
  {
    BodyConcat(gs, hs, func);
    ProducerConcat(gs, hs, sema);
    ConsumerConcat(gs, hs);
  }

  lemma TracesOne(g: Seg, func: string, sema: seq<Sema>)
    ensures BodyTrace([g], func) == BodyActs(g, func)
    ensures ProducerTrace([g], sema) == ProducerActs(g, sema)
    ensures ConsumerTrace([g]) == ConsumerActs(g)
  {
    assert [g][1..] == [];
  }

  /** The traces of the produce node, one per execution. */
  function Instances(gs: seq<Seg>): seq<seq<Act>> {
    if gs == [] then []
    else (match gs[0] case Idle(_) => [] case Round(inst, _) => [inst]) + Instances(gs[1..])
  }

  lemma {:induction false} InstancesConcat(gs: seq<Seg>, hs: seq<Seg>)
    ensures Instances(gs + hs) == Instances(gs) + Instances(hs)
    decreases |gs|
  {
    if gs == [] {
      assert gs + hs == hs;
    } else {
      assert (gs + hs)[1..] == gs[1..] + hs;
      InstancesConcat(gs[1..], hs);
    }
  }

  lemma InstancesOne(g: Seg)
    ensures Instances([g]) == if g.Round? then [g.inst] else []
  {
    assert [g][1..] == [];
  }

  /** Everything the concurrency argument needs to know of one segment. */
  ghost predicate SegOk(g: Seg, func: string, w: set<string>, sema: seq<Sema>) {
    match g
    case Idle(acts) => forall a | a in acts :: OtherAct(a, func, w) && func !in ActLoads(a)
    case Round(inst, cons) =>
      && (forall a | a in inst :: OwnAct(a, func, w))
      && (forall a | a in cons :: ConsumeAct(a, func, w))
      && Guarded(cons, func)
      && Acqs(cons) == Reverse(sema)
  }

  ghost predicate SegsOk(gs: seq<Seg>, func: string, w: set<string>, sema: seq<Sema>) {
    forall g | g in gs :: SegOk(g, func, w, sema)
  }

  function Reverse<T>(s: seq<T>): seq<T> {
    if s == [] then [] else [s[|s| - 1]] + Reverse(s[..|s| - 1])
  }

  lemma {:induction false} ReverseSplit<T>(s: seq<T>, n: nat)
    requires n <= |s|
    ensures Reverse(s) == Reverse(s[n..]) + Reverse(s[..n])
    decreases |s|
  {
    if n == |s| {
      assert s[..n] == s && s[n..] == [];
    } else {
      var t := s[..|s| - 1];
      ReverseSplit(t, n);
      assert t[..n] == s[..n] && t[n..] == s[n..][..|s[n..]| - 1];
      assert s[n..][|s[n..]| - 1] == s[|s| - 1];
      SeqAssoc([s[|s| - 1]], Reverse(t[n..]), Reverse(t[..n]));
    }
  }

  // ----- the executions of the produce node -----

  /** The action sequences of the executions of the produce node, in a sequential run. */
  function ProduceRuns(k: Watch, s: Stmt, env: Env, store: Store): seq<seq<Act>>
    decreases s, 0
  {
    match s
    case NoOp => []
    case Provide(_, _, _) => []
    case Block(a, b) => ProduceRuns(k, a, env, store) + ProduceRuns(k, b, env, Run(a, env, store))
    case For(v, lo, n, b) => ProduceRunsLoop(k, b, v, Eval(lo, env, store), Nat(Eval(n, env, store)), env, store)
    case LetStmt(v, e, b) => ProduceRuns(k, b, env[v := Eval(e, env, store)], store)
    case IfThenElse(c, t, e) => ProduceRuns(k, if Eval(c, env, store) != 0 then t else e, env, store)
    case ProducerConsumer(f, p, b) =>
      if f == k.func && p then [Trace(k, b, true, env, store)] else ProduceRuns(k, b, env, store)
    case Realize(_, b) => ProduceRuns(k, b, env, store)
    case Acquire(_, _, b) => ProduceRuns(k, b, env, store)
    case Release(_, _) => []
    case Fork(a, b) => ProduceRuns(k, a, env, store) + ProduceRuns(k, b, env, Run(a, env, store))
  }

  function ProduceRunsLoop(k: Watch, b: Stmt, v: string, lo: int, n: nat, env: Env, store: Store): seq<seq<Act>>
    decreases b, n + 1
  {
    if n == 0 then []
    else
      ProduceRuns(k, b, env[v := lo], store)
      + ProduceRunsLoop(k, b, v, lo + 1, n - 1, env, Run(b, env[v := lo], store))
  }

  lemma {:induction false} NoProduceRuns(k: Watch, s: Stmt, env: Env, store: Store)
    requires ProduceCount(s, k.func) == 0
    ensures ProduceRuns(k, s, env, store) == []
    decreases s, 0
  {
    match s
    case NoOp =>
    case Provide(_, _, _) =>
    case Block(a, b) => NoProduceRuns(k, a, env, store); NoProduceRuns(k, b, env, Run(a, env, store));
    case For(v, lo, n, b) => NoProduceRunsLoop(k, b, v, Eval(lo, env, store), Nat(Eval(n, env, store)), env, store);
    case LetStmt(v, e, b) => NoProduceRuns(k, b, env[v := Eval(e, env, store)], store);
    case IfThenElse(_, t, e) => NoProduceRuns(k, t, env, store); NoProduceRuns(k, e, env, store);
    case ProducerConsumer(_, _, b) => NoProduceRuns(k, b, env, store);
    case Realize(_, b) => NoProduceRuns(k, b, env, store);
    case Acquire(_, _, b) => NoProduceRuns(k, b, env, store);
    case Release(_, _) =>
    case Fork(a, b) => NoProduceRuns(k, a, env, store); NoProduceRuns(k, b, env, Run(a, env, store));
  }

  lemma {:induction false} NoProduceRunsLoop(k: Watch, b: Stmt, v: string, lo: int, n: nat, env: Env, store: Store)
    requires ProduceCount(b, k.func) == 0
    ensures ProduceRunsLoop(k, b, v, lo, n, env, store) == []
    decreases b, n + 1
  {
    if n != 0 {
      NoProduceRuns(k, b, env[v := lo], store);
      NoProduceRunsLoop(k, b, v, lo + 1, n - 1, env, Run(b, env[v := lo], store));
    }
  }

  lemma {:induction false} OnceEachProduces(s: Stmt, func: string)
    requires OnceEach(s, func)
    ensures ProduceCount(s, func) == 0
  {
    if Free(s, func) {
      FreeCounts(s, func);
    } else {
      match s
      case Block(a, b) => OnceEachProduces(a, func); OnceEachProduces(b, func);
      case LetStmt(_, _, b) => OnceEachProduces(b, func);
      case ProducerConsumer(f, _, b) =>
        if f == func { FreeCounts(b, func); } else { OnceEachProduces(b, func); }
      case Realize(_, b) => OnceEachProduces(b, func);
    }
  }

  // ----- what runs outside produce and consume nodes -----

  lemma {:induction false} SeparatedOthers(s: Stmt, func: string, w: set<string>, inConsume: bool)
    requires Separated(s, func, w, inConsume) && Free(s, func)
    ensures func !in Provided(s)
    ensures !inConsume ==> func !in LeafLoads(s) + ControlLoads(s)
  {
    match s
    case NoOp =>
    case Provide(_, _, _) =>
    case Block(a, b) => SeparatedOthers(a, func, w, inConsume); SeparatedOthers(b, func, w, inConsume);
    case For(_, _, _, b) => SeparatedOthers(b, func, w, inConsume);
    case LetStmt(_, _, b) => SeparatedOthers(b, func, w, inConsume);
    case IfThenElse(_, t, e) => SeparatedOthers(t, func, w, inConsume); SeparatedOthers(e, func, w, inConsume);
    case ProducerConsumer(_, _, b) => SeparatedOthers(b, func, w, inConsume);
    case Realize(_, b) => SeparatedOthers(b, func, w, inConsume);
    case Acquire(_, _, b) => SeparatedOthers(b, func, w, inConsume);
    case Release(_, _) =>
    case Fork(a, b) => SeparatedOthers(a, func, w, inConsume); SeparatedOthers(b, func, w, inConsume);
  }

  /** Tests belong to the produce node exactly inside it. */
  lemma {:induction false} TestsOwned(k: Watch, s: Stmt, own: bool, env: Env, store: Store)
    requires own || ProduceCount(s, k.func) == 0
    ensures forall a | a in Trace(k, s, own, env, store) && a.Test? :: a.own == own
    decreases s, 0
  {
    match s
    case NoOp =>
    case Provide(_, _, _) =>
    case Block(a, b) => TestsOwned(k, a, own, env, store); TestsOwned(k, b, own, env, Run(a, env, store));
    case For(v, lo, n, b) =>
      TestsFrom(k, own, lo, n, env, store);
      TestsOwnedLoop(k, b, own, v, Eval(lo, env, store), Nat(Eval(n, env, store)), env, store);
    case LetStmt(v, e, b) =>
      TestsFrom(k, own, e, Const(0), env, store);
      TestsOwned(k, b, own, env[v := Eval(e, env, store)], store);
    case IfThenElse(c, t, e) =>
      TestsFrom(k, own, c, Const(0), env, store);
      TestsOwned(k, t, own, env, store);
      TestsOwned(k, e, own, env, store);
    case ProducerConsumer(_, _, b) => TestsOwned(k, b, own, env, store);
    case Realize(_, b) => TestsOwned(k, b, own, env, store);
    case Acquire(_, _, b) => TestsOwned(k, b, own, env, store);
    case Release(_, _) =>
    case Fork(a, b) => TestsOwned(k, a, own, env, store); TestsOwned(k, b, own, env, Run(a, env, store));
  }

  lemma {:induction false} TestsOwnedLoop(k: Watch, b: Stmt, own: bool, v: string, lo: int, n: nat, env: Env,
                                          store: Store)
    requires own || ProduceCount(b, k.func) == 0
    ensures forall a | a in TraceLoop(k, b, own, v, lo, n, env, store) && a.Test? :: a.own == own
    decreases b, n + 1
  {
    if n != 0 {
      TestsOwned(k, b, own, env[v := lo], store);
      TestsOwnedLoop(k, b, own, v, lo + 1, n - 1, env, Run(b, env[v := lo], store));
    }
  }

  lemma FreeTrace(k: Watch, s: Stmt, inConsume: bool, env: Env, store: Store)
    requires Plain(s) && Free(s, k.func) && Separated(s, k.func, k.w, inConsume) && Provided(s) <= k.w
    ensures forall a | a in Trace(k, s, false, env, store) ::
              OtherAct(a, k.func, k.w) && (!inConsume ==> k.func !in ActLoads(a))
  {
    FreeCounts(s, k.func);
    SeparatedOthers(s, k.func, k.w, inConsume);
    TraceFrom(k, s, false, env, store);
    TestsOwned(k, s, false, env, store);
    forall a | a in Trace(k, s, false, env, store)
      ensures OtherAct(a, k.func, k.w) && (!inConsume ==> k.func !in ActLoads(a))
    {
      assert From(a, s);
    }
  }

  /** One execution of the produce node. */
  lemma ProduceTrace(k: Watch, b: Stmt, env: Env, store: Store)
    requires Plain(b) && Provided(b) <= {k.func} && Provided(b) <= k.w
    requires (LeafLoads(b) + ControlLoads(b)) * k.w <= {k.func}
    ensures forall a | a in Trace(k, b, true, env, store) :: OwnAct(a, k.func, k.w)
  {
    TraceFrom(k, b, true, env, store);
    TestsOwned(k, b, true, env, store);
    forall a | a in Trace(k, b, true, env, store) ensures OwnAct(a, k.func, k.w) {
      assert From(a, b);
      assert a.Write? ==> a.func in Provided(b);
    }
  }

  // ----- the consumer copy of what stands behind a produce node -----

  /** What is asked of the trace `t` of the consumer copy of a statement with trace `orig` behind a
      produce node, when the semaphores `used` were taken: the same stores in the same order, one acquire
      per consume node in the order in which the vector is used up, and every load of the function behind
      an acquire. */
  ghost predicate RoundTrace(t: seq<Act>, orig: seq<Act>, func: string, w: set<string>, used: seq<Sema>) {
    && Thin(orig, Items(t, func, false))
    && Acqs(t) == Reverse(used)
    && (forall a | a in t :: ConsumeAct(a, func, w))
    && Guarded(t, func)
  }

  lemma RoundConcat(t: seq<Act>, t': seq<Act>, u: seq<Act>, u': seq<Act>, func: string, w: set<string>,
                    sema: seq<Sema>, n: nat)
    requires n <= |sema|
    requires RoundTrace(t, t', func, w, sema[n..]) && RoundTrace(u, u', func, w, sema[..n])
    ensures RoundTrace(t + u, t' + u', func, w, sema)
  {
    ItemsConcat(t, u, func, false);
    ThinConcat(t', Items(t, func, false), u', Items(u, func, false));
    AcqsConcat(t, u);
    GuardedConcat(t, u, func);
    ReverseSplit(sema, n);
  }

  lemma RoundFree(t: seq<Act>, orig: seq<Act>, func: string, w: set<string>)
    requires Thin(orig, t) && forall a | a in orig :: OtherAct(a, func, w) && func !in ActLoads(a)
    ensures RoundTrace(t, orig, func, w, [])
  {
    ThinMembers(orig, t);
    ItemsAll(t, func, false);
    AcqsNone(t);
  }

  lemma RoundConsume(t: seq<Act>, func: string, w: set<string>, sm: Sema)
    requires forall a | a in t :: OtherAct(a, func, w)
    ensures RoundTrace([Acq(sm, 1)] + t, t, func, w, [sm])
  {
    var u := [Acq(sm, 1)] + t;
    assert u[1..] == t && u[0].Acq?;
    ItemsAll(t, func, false);
    assert Items(u, func, false) == [] + t == t;
    ThinSelf(t);
    AcqsNone(t);
    assert [sm][..0] == [];
  }

  lemma RoundDo(t: seq<Act>, orig: seq<Act>, func: string, w: set<string>, used: seq<Sema>, store: Store)
    requires RoundTrace(t, orig, func, w, used)
    ensures DoAll(t, store) == DoAll(orig, store)
  {
    assert forall a | a in t :: ConsumeAct(a, func, w);
    ItemsDo(t, func, false, store);
    ThinDo(orig, Items(t, func, false), store);
  }

  ghost predicate ConsumerOk(k: Watch, s: Stmt, sema: seq<Sema>, env: Env, store: Store)
    requires Plain(s) && ConsumeCount(s, k.func) <= |sema|
  {
    var n := |sema| - ConsumeCount(s, k.func);
    && Consumer(s, k.func, sema).1 == sema[..n]
    && RoundTrace(Trace(k, Consumer(s, k.func, sema).0, false, env, store), Trace(k, s, false, env, store),
                  k.func, k.w, sema[n..])
  }

  lemma ConsumerOkRuns(k: Watch, s: Stmt, sema: seq<Sema>, env: Env, store: Store)
    requires Plain(s) && ConsumeCount(s, k.func) <= |sema| && ConsumerOk(k, s, sema, env, store)
    ensures Run(Consumer(s, k.func, sema).0, env, store) == Run(s, env, store)
  {
    var c, n := Consumer(s, k.func, sema).0, |sema| - ConsumeCount(s, k.func);
    RunIsTrace(k, s, false, env, store);
    RunIsTrace(k, c, false, env, store);
    RoundDo(Trace(k, c, false, env, store), Trace(k, s, false, env, store), k.func, k.w, sema[n..], store);
  }

  lemma {:induction false} ConsumerOfRound(k: Watch, s: Stmt, sema: seq<Sema>, env: Env, store: Store)
    requires Plain(s) && OnceEach(s, k.func) && Separated(s, k.func, k.w, false) && Provided(s) <= k.w
    requires ConsumeCount(s, k.func) <= |sema|
    ensures ConsumerOk(k, s, sema, env, store)
    decreases s
  {
    if Free(s, k.func) {
      ConsumerOfFree(k, s, sema, env, store);
    } else {
      match s
      case Block(a, b) =>
        ConsumerOfRound(k, a, sema, env, store);
        ConsumerOfRound(k, b, Consumer(a, k.func, sema).1, env, Run(a, env, store));
        ConsumerOfBlock(k, s, sema, env, store);
      case LetStmt(v, e, b) =>
        ConsumerOfRound(k, b, sema, env[v := Eval(e, env, store)], store);
        ConsumerOfLet(k, s, sema, env, store);
      case ProducerConsumer(f, p, b) =>
        if f == k.func {
          ConsumerOfConsume(k, s, sema, env, store);
        } else {
          ConsumerOfRound(k, b, sema, env, store);
          ConsumerOfOther(k, s, sema, env, store);
        }
      case Realize(_, b) =>
        ConsumerOfRound(k, b, sema, env, store);
        ConsumerOfRealize(k, s, sema, env, store);
    }
  }

  lemma ConsumerOfFree(k: Watch, s: Stmt, sema: seq<Sema>, env: Env, store: Store)
    requires Plain(s) && Free(s, k.func) && Separated(s, k.func, k.w, false) && Provided(s) <= k.w
    ensures ConsumeCount(s, k.func) <= |sema|
    ensures ConsumerOk(k, s, sema, env, store)
  {
    ConsumerKeeps(k, s, sema, env, store);
    FreeTrace(k, s, false, env, store);
    RoundFree(Trace(k, Consumer(s, k.func, sema).0, false, env, store), Trace(k, s, false, env, store), k.func, k.w);
    assert sema[|sema|..] == [] && sema[..|sema|] == sema;
  }

  lemma ConsumerOfLet(k: Watch, s: Stmt, sema: seq<Sema>, env: Env, store: Store)
    requires s.LetStmt? && Plain(s) && ConsumeCount(s, k.func) <= |sema| && k.func !in Loads(s.value)
    requires ConsumerOk(k, s.body, sema, env[s.v := Eval(s.value, env, store)], store)
    ensures ConsumerOk(k, s, sema, env, store)
  {
    var inner, c := env[s.v := Eval(s.value, env, store)], Consumer(s.body, k.func, sema).0;
    var used := sema[|sema| - ConsumeCount(s, k.func)..];
    LetRound(Tests(k, false, s.value, Const(0), env, store), Trace(k, c, false, inner, store),
             Trace(k, s.body, false, inner, store), k, s.value, env, store, used);
  }

  lemma LetRound(tests: seq<Act>, t: seq<Act>, orig: seq<Act>, k: Watch, e: Expr, env: Env, store: Store,
                 used: seq<Sema>)
    requires tests == Tests(k, false, e, Const(0), env, store) && k.func !in Loads(e)
    requires RoundTrace(t, orig, k.func, k.w, used)
    ensures RoundTrace(tests + t, tests + orig, k.func, k.w, used)
    ensures t == [] ==> RoundTrace(t, tests + orig, k.func, k.w, used)
  {
    TestsFrom(k, false, e, Const(0), env, store);
    ThinSelf(tests);
    RoundFree(tests, tests, k.func, k.w);
    assert used[|used|..] == [] && used[..|used|] == used;
    RoundConcat(tests, tests, t, orig, k.func, k.w, used, |used|);
    ThinGone(tests);
    if t == [] {
      ThinConcat(tests, [], orig, []);
    }
  }

  lemma ConsumerOfOther(k: Watch, s: Stmt, sema: seq<Sema>, env: Env, store: Store)
    requires s.ProducerConsumer? && s.func != k.func && Plain(s) && ConsumeCount(s, k.func) <= |sema|
    requires ConsumerOk(k, s.body, sema, env, store)
    ensures ConsumerOk(k, s, sema, env, store)
  {
  }

  lemma ConsumerOfRealize(k: Watch, s: Stmt, sema: seq<Sema>, env: Env, store: Store)
    requires s.Realize? && Plain(s) && ConsumeCount(s, k.func) <= |sema|
    requires ConsumerOk(k, s.body, sema, env, store)
    ensures ConsumerOk(k, s, sema, env, store)
  {
  }

  lemma ConsumerOfConsume(k: Watch, s: Stmt, sema: seq<Sema>, env: Env, store: Store)
    requires s.ProducerConsumer? && s.func == k.func && !s.isProducer && Plain(s) && Free(s.body, k.func)
    requires Separated(s, k.func, k.w, false) && Provided(s) <= k.w && ConsumeCount(s, k.func) <= |sema|
    ensures ConsumerOk(k, s, sema, env, store)
  {
    FreeCounts(s.body, k.func);
    FreeTrace(k, s.body, true, env, store);
    RoundConsume(Trace(k, s.body, false, env, store), k.func, k.w, sema[|sema| - 1]);
    assert sema[|sema| - 1..] == [sema[|sema| - 1]];
  }

  lemma ConsumerOfBlock(k: Watch, s: Stmt, sema: seq<Sema>, env: Env, store: Store)
    requires s.Block? && Plain(s) && ConsumeCount(s, k.func) <= |sema|
    requires ConsumerOk(k, s.first, sema, env, store)
    requires ConsumerOk(k, s.rest, Consumer(s.first, k.func, sema).1, env, Run(s.first, env, store))
    ensures ConsumerOk(k, s, sema, env, store)
  {
    var a, b := Consumer(s.first, k.func, sema), Consumer(s.rest, k.func, Consumer(s.first, k.func, sema).1);
    var n, mid := |sema| - ConsumeCount(s.first, k.func), Run(s.first, env, store);
    var m := n - ConsumeCount(s.rest, k.func);
    assert Consumer(s, k.func, sema) == (FoldBlock(a.0, b.0), b.1);
    assert Trace(k, s, false, env, store) == Trace(k, s.first, false, env, store) + Trace(k, s.rest, false, env, mid);
    assert a.1 == sema[..n] && b.1 == a.1[..m];
    ConsumerOkRuns(k, s.first, sema, env, store);
    TraceFoldBlock(k, a.0, b.0, false, env, store);
    hide Trace, Run, Consumer, RoundTrace, FoldBlock;
    RoundsJoin(Trace(k, a.0, false, env, store), Trace(k, s.first, false, env, store),
               Trace(k, b.0, false, env, mid), Trace(k, s.rest, false, env, mid),
               k.func, k.w, sema, a.1, b.1, n, m);
  }

  lemma RoundsJoin(t: seq<Act>, t': seq<Act>, u: seq<Act>, u': seq<Act>, func: string, w: set<string>,
                   sema: seq<Sema>, sema1: seq<Sema>, sema2: seq<Sema>, k1: nat, k: nat)
    requires k <= k1 <= |sema| && sema1 == sema[..k1] && sema2 == sema1[..k]
    requires RoundTrace(t, t', func, w, sema[k1..]) && RoundTrace(u, u', func, w, sema1[k..])
    ensures sema2 == sema[..k] && RoundTrace(t + u, t' + u', func, w, sema[k..])
  {
    hide *;
    UsedUp(sema, sema1, k, k1);
    RoundConcat(t, t', u, u', func, w, sema[k..], k1 - k);
  }

  lemma UsedUp(sema: seq<Sema>, sema1: seq<Sema>, k: nat, k1: nat)
    requires k <= k1 <= |sema| && sema1 == sema[..k1]
    ensures sema[k..][k1 - k..] == sema[k1..] && sema[k..][..k1 - k] == sema1[k..] && sema1[..k] == sema[..k]
  {
  }

}
