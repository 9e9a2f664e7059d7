/** A body in shape falls apart into segments, and the body, its producer copy and its consumer copy are
    three readings of the same segments. The two copies run on their own, so theirs are the actions they
    perform once the tests among them come out as recorded. */
module AsyncSplit {
  import opened StmtIR
  import opened AsyncFork
  import opened AsyncShape
  import opened AsyncMachine

  // ----- what the folded constructors perform -----

  lemma {:induction false} NothingIterates(w: set<string>, start: Store, v: string, lo: int, env: Env,
                                           ts: seq<seq<Act>>)
    requires Iterations(w, start, v, lo, NoOp, env, ts)
    ensures Flatten(ts) == []
    decreases |ts|
  {
    if ts != [] {
      assert Performs(w, start, NoOp, env[v := lo + 0], ts[0]);
      NothingPerforms(w, start, env[v := lo + 0], ts[0]);
      var later := ts[1..];
      forall i | 0 <= i < |later| ensures Performs(w, start, NoOp, env[v := lo + 1 + i], later[i]) {
        assert later[i] == ts[i + 1] && lo + 1 + i == lo + (i + 1);
      }
      NothingIterates(w, start, v, lo + 1, env, later);
    }
  }

  lemma PerformsFoldFor(w: set<string>, start: Store, v: string, lo: Expr, n: Expr, b: Stmt, env: Env,
                        ts: seq<seq<Act>>)
    requires (Loads(lo) + Loads(n)) * w == {} && |ts| == Nat(Eval(n, env, start))
    requires Iterations(w, start, v, Eval(lo, env, start), b, env, ts)
    ensures Performs(w, start, FoldFor(v, lo, n, b), env, Flatten(ts))
  {
    if IsNoOp(b) {
      NothingIterates(w, start, v, Eval(lo, env, start), env, ts);
      PerformsNothing(w, start, env);
    } else {
      PerformsFor(w, start, For(v, lo, n, b), env, [], Eval(lo, env, start), Eval(n, env, start), ts);
      assert [] + Flatten(ts) == Flatten(ts);
    }
  }

  lemma PerformsFoldLet(w: set<string>, start: Store, v: string, e: Expr, b: Stmt, env: Env, t: seq<Act>)
    requires Loads(e) * w == {} && Performs(w, start, b, env[v := Eval(e, env, start)], t)
    ensures Performs(w, start, FoldLet(v, e, b), env, t)
  {
    if IsNoOp(b) {
      NothingPerforms(w, start, env[v := Eval(e, env, start)], t);
      PerformsNothing(w, start, env);
    } else {
      PerformsLet(w, start, LetStmt(v, e, b), env, [], Eval(e, env, start), t);
      assert [] + t == t;
    }
  }

  lemma PerformsFoldIf(w: set<string>, start: Store, c: Expr, a: Stmt, b: Stmt, env: Env, t: seq<Act>)
    requires Loads(c) * w == {} && Performs(w, start, if Eval(c, env, start) != 0 then a else b, env, t)
    ensures Performs(w, start, FoldIf(c, a, b), env, t)
  {
    if !(IsNoOp(a) && IsNoOp(b)) {
      PerformsIf(w, start, IfThenElse(c, a, b), env, [], Eval(c, env, start), t);
      assert [] + t == t;
    }
  }

  lemma PerformsFoldBlock(w: set<string>, start: Store, a: Stmt, b: Stmt, env: Env, t: seq<Act>, u: seq<Act>)
    requires Performs(w, start, a, env, t) && Performs(w, start, b, env, u)
    ensures Performs(w, start, FoldBlock(a, b), env, t + u)
  {
    if IsNoOp(a) {
      NothingPerforms(w, start, env, t);
      assert [] + u == u;
    } else if IsNoOp(b) {
      NothingPerforms(w, start, env, u);
      assert t + [] == t;
    } else {
      PerformsMakeBlock(w, start, a, b, env, t, u);
    }
  }

  /** The releases come last, in the order in which the vector is used up. */
  lemma {:induction false} PerformsReleases(w: set<string>, start: Store, body: Stmt, sema: seq<Sema>, env: Env,
                                            t: seq<Act>)
    requires Performs(w, start, body, env, t)
    ensures Performs(w, start, AddReleases(body, sema), env, t + Rels(sema))
    decreases |sema|
  {
    if sema == [] {
      assert t + [] == t;
    } else {
      var sm, rest := sema[|sema| - 1], sema[..|sema| - 1];
      PerformsRelease(w, start, sm, 1, env);
      PerformsMakeBlock(w, start, body, Release(sm, Const(1)), env, t, [Rel(sm, 1)]);
      PerformsReleases(w, start, MakeBlock(body, Release(sm, Const(1))), rest, env, t + [Rel(sm, 1)]);
      SeqAssoc(t, [Rel(sm, 1)], Rels(rest));
    }
  }

  // ----- the consumer copy is an ordinary statement -----

  lemma {:induction false} ShapeOfMakeBlock(a: Stmt, b: Stmt)
    requires Simple(a) && Simple(b)
    ensures Simple(MakeBlock(a, b)) && Provided(MakeBlock(a, b)) == Provided(a) + Provided(b)
    decreases a
  {
    match a
    case Block(_, y) => ShapeOfMakeBlock(y, b);
    case _ =>
  }

  lemma {:induction false} PlainIsSimple(s: Stmt)
    requires Plain(s)
    ensures Simple(s)
  {
    match s
    case NoOp =>
    case Provide(_, _, _) =>
    case Block(a, b) => PlainIsSimple(a); PlainIsSimple(b);
    case For(_, _, _, b) => PlainIsSimple(b);
    case LetStmt(_, _, b) => PlainIsSimple(b);
    case IfThenElse(_, t, e) => PlainIsSimple(t); PlainIsSimple(e);
    case ProducerConsumer(_, _, b) => PlainIsSimple(b);
    case Realize(_, b) => PlainIsSimple(b);
  }

  lemma {:induction false} ShapeOfConsumer(s: Stmt, func: string, sema: seq<Sema>)
    requires Plain(s) && ConsumeCount(s, func) <= |sema|
    ensures Simple(Consumer(s, func, sema).0) && Provided(Consumer(s, func, sema).0) <= Provided(s)
  {
    match s
    case NoOp =>
    case Provide(_, _, _) =>
    case Block(a, b) =>
      var sema1 := Consumer(a, func, sema).1;
      ShapeOfConsumer(a, func, sema);
      ShapeOfConsumer(b, func, sema1);
      ShapeOfMakeBlock(Consumer(a, func, sema).0, Consumer(b, func, sema1).0);
    case For(_, _, _, b) => ShapeOfConsumer(b, func, sema);
    case LetStmt(_, _, b) => ShapeOfConsumer(b, func, sema);
    case IfThenElse(_, t, e) =>
      ShapeOfConsumer(t, func, sema);
      ShapeOfConsumer(e, func, Consumer(t, func, sema).1);
    case ProducerConsumer(f, p, b) =>
      if f == func { PlainIsSimple(b); } else { ShapeOfConsumer(b, func, sema); }
    case Realize(_, b) => ShapeOfConsumer(b, func, sema);
  }

  // ----- the three readings -----

  /** `gs` describes the sequential run of `s` from `store`, and what its two copies do wherever they
      start, as long as nothing but watched functions has changed since `start`. */
  ghost predicate Agrees(k: Watch, start: Store, s: Stmt, env: Env, store: Store, sema: seq<Sema>, gs: seq<Seg>)
    requires Plain(s) && ConsumeCount(s, k.func) <= |sema| && Producer(s, k.func, sema).Done?
  {
    && Thin(Trace(k, s, false, env, store), BodyTrace(gs, k.func))
    && Performs(k.w, start, Producer(s, k.func, sema).stmt, env, ProducerTrace(gs, sema))
    && Performs(k.w, start, Consumer(s, k.func, sema).0, env, ConsumerTrace(gs))
    && Instances(gs) == ProduceRuns(k, s, env, store)
    && SegsOk(gs, k.func, k.w, sema)
  }

  ghost predicate Ready(k: Watch, start: Store, s: Stmt, store: Store) {
    Plain(s) && Separated(s, k.func, k.w, false) && Provided(s) <= k.w && AgreeOutside(k.w, store, start)
  }

  lemma ReadyAfter(k: Watch, start: Store, a: Stmt, b: Stmt, env: Env, store: Store)
    requires Ready(k, start, a, store) && Ready(k, start, b, store)
    ensures Ready(k, start, b, Run(a, env, store))
  {
    RunStaysInside(a, env, store, k.w);
  }

  /** A stretch without the function is one idle segment. */
  lemma IdleAgrees(k: Watch, start: Store, s: Stmt, env: Env, store: Store, sema: seq<Sema>, sema': seq<Sema>)
      returns (g: Seg)
    requires Ready(k, start, s, store) && Free(s, k.func)
    ensures ConsumeCount(s, k.func) == 0 && Producer(s, k.func, sema) == Done(NoOp, sema)
    ensures Consumer(s, k.func, sema).1 == sema
    ensures Agrees(k, start, s, env, store, sema, [g]) && SegsOk([g], k.func, k.w, sema')
    ensures g.Idle?
  {
    FreeCounts(s, k.func);
    ProducerVanishes(s, k.func, sema);
    ConsumerKeeps(k, s, sema, env, store);
    var c := Consumer(s, k.func, sema).0;
    var t, t' := Trace(k, s, false, env, store), Trace(k, c, false, env, store);
    g := Idle(t');
    FreeTrace(k, s, false, env, store);
    ThinMembers(t, t');
    ShapeOfConsumer(s, k.func, sema);
    PerformsTrace(k, start, c, false, env, store);
    PerformsNothing(k.w, start, env);
    TracesOne(g, k.func, sema);
    InstancesOne(g);
    NoProduceRuns(k, s, env, store);
    assert SegOk(g, k.func, k.w, sema) && SegOk(g, k.func, k.w, sema');
  }

  /** A produce node with its consume nodes is one round. */
  lemma RoundAgrees(k: Watch, start: Store, s: Stmt, env: Env, store: Store, sema: seq<Sema>) returns (g: Seg)
    requires Ready(k, start, s, store) && Synced(s, k.func) && IsRound(s, k.func)
    requires ConsumeCount(s, k.func) == |sema| && Producer(s, k.func, sema).Done?
    ensures Agrees(k, start, s, env, store, sema, [g])
  {
    var p, r := s.first, s.rest;
    assert !Free(p, k.func);
    assert !Free(s, k.func) && Free(p.body, k.func) && OnceEach(r, k.func);
    assert Plain(p) && Separated(p, k.func, k.w, false) && Provided(p) <= k.w;
    FreeCounts(p.body, k.func);
    OnceEachProduces(r, k.func);
    var mid, c := Run(p.body, env, store), Consumer(r, k.func, sema).0;
    var inst, cons := Trace(k, p.body, true, env, store), Trace(k, c, false, env, mid);
    g := Round(inst, cons);
    RunStaysInside(p.body, env, store, k.w);
    RoundProducer(k, start, s, env, store, sema);
    ShapeOfConsumer(r, k.func, sema);
    PerformsTrace(k, start, c, false, env, mid);
    ConsumerOfRound(k, r, sema, env, mid);
    assert sema[0..] == sema;
    RoundSegment(k, inst, cons, Trace(k, r, false, env, mid), sema);
    ProduceTrace(k, p.body, env, store);
    assert SegOk(g, k.func, k.w, sema);
    TracesOne(g, k.func, sema);
    InstancesOne(g);
    NoProduceRuns(k, r, env, mid);
    assert Trace(k, p, false, env, store) == inst;
    assert Consumer(s, k.func, sema).0 == c;
    assert [inst] + [] == [inst];
  }

  lemma RoundSegment(k: Watch, inst: seq<Act>, cons: seq<Act>, orig: seq<Act>, sema: seq<Sema>)
    requires RoundTrace(cons, orig, k.func, k.w, sema)
    ensures Thin(inst + orig, inst + Items(cons, k.func, false))
    ensures (forall a | a in cons :: ConsumeAct(a, k.func, k.w)) && Guarded(cons, k.func) && Acqs(cons) == Reverse(sema)
  {
    ThinSelf(inst);
    ThinConcat(inst, inst, orig, Items(cons, k.func, false));
  }

  lemma RoundProducer(k: Watch, start: Store, s: Stmt, env: Env, store: Store, sema: seq<Sema>)
    requires Ready(k, start, s, store) && IsRound(s, k.func) && ProduceCount(s.rest, k.func) == 0
    requires Producer(s, k.func, sema).Done?
    ensures Performs(k.w, start, Producer(s, k.func, sema).stmt, env,
            Trace(k, s.first.body, true, env, store) + Rels(sema))
  {
    var b := s.first.body;
    var inst := Trace(k, b, true, env, store);
    assert Plain(s.first) && Provided(s.first) <= k.w;
    PlainIsSimple(b);
    PerformsTrace(k, start, b, true, env, store);
    PerformsReleases(k.w, start, b, sema, env, inst);
    PerformsInside(k.w, start, ProducerConsumer(k.func, true, AddReleases(b, sema)), env, inst + Rels(sema));
    ProducerVanishes(s.rest, k.func, []);
  }

  lemma SegsJoin(k: Watch, gs: seq<Seg>, hs: seq<Seg>, sema: seq<Sema>)
    requires SegsOk(gs, k.func, k.w, sema) && SegsOk(hs, k.func, k.w, sema)
    ensures SegsOk(gs + hs, k.func, k.w, sema)
    ensures BodyTrace(gs + hs, k.func) == BodyTrace(gs, k.func) + BodyTrace(hs, k.func)
    ensures ProducerTrace(gs + hs, sema) == ProducerTrace(gs, sema) + ProducerTrace(hs, sema)
    ensures ConsumerTrace(gs + hs) == ConsumerTrace(gs) + ConsumerTrace(hs)
    ensures Instances(gs + hs) == Instances(gs) + Instances(hs)
  {
    TracesConcat(gs, hs, k.func, sema);
    InstancesConcat(gs, hs);
  }

  /** Decompose a body in shape. All consume nodes sit in its rounds, so each round uses up the whole
      vector. */
  lemma {:induction false} Decompose(k: Watch, start: Store, s: Stmt, env: Env, store: Store, sema: seq<Sema>)
    returns (gs: seq<Seg>)
    requires Ready(k, start, s, store) && Synced(s, k.func) && SpineSteady(s, k.func, k.w)
    requires !Free(s, k.func) ==> ConsumeCount(s, k.func) == |sema|
    requires Producer(s, k.func, sema).Done?
    ensures ConsumeCount(s, k.func) <= |sema|
    ensures Agrees(k, start, s, env, store, sema, gs)
    decreases s, 1
  {
    if Free(s, k.func) {
      var g := IdleAgrees(k, start, s, env, store, sema, sema);
      gs := [g];
    } else {
      match s
      case Block(a, b) =>
        if IsRound(s, k.func) {
          var g := RoundAgrees(k, start, s, env, store, sema);
          gs := [g];
        } else if Free(a, k.func) && Synced(b, k.func) {
          gs := IdleFirst(k, start, s, env, store, sema);
        } else {
          gs := IdleLast(k, start, s, env, store, sema);
        }
      case For(_, _, _, _) => gs := LoopAgrees(k, start, s, env, store, sema);
      case LetStmt(v, e, b) =>
        EvalOutside(e, env, k.w, store, start);
        gs := Decompose(k, start, b, env[v := Eval(e, env, store)], store, sema);
        LetAgrees(k, start, s, env, store, sema, gs);
      case IfThenElse(_, _, _) => gs := BranchAgrees(k, start, s, env, store, sema);
      case ProducerConsumer(_, _, b) =>
        gs := Decompose(k, start, b, env, store, sema);
        NodeAgrees(k, start, s, env, store, sema, gs);
      case Realize(_, b) =>
        gs := Decompose(k, start, b, env, store, sema);
        RealizeAgrees(k, start, s, env, store, sema, gs);
    }
  }

  lemma LetAgrees(k: Watch, start: Store, s: Stmt, env: Env, store: Store, sema: seq<Sema>, gs: seq<Seg>)
    requires s.LetStmt? && Plain(s) && ConsumeCount(s, k.func) <= |sema| && Producer(s, k.func, sema).Done?
    requires Loads(s.value) * k.w == {} && Eval(s.value, env, store) == Eval(s.value, env, start)
    requires Agrees(k, start, s.body, env[s.v := Eval(s.value, env, store)], store, sema, gs)
    ensures Agrees(k, start, s, env, store, sema, gs)
  {
    var p, c := Producer(s.body, k.func, sema).stmt, Consumer(s.body, k.func, sema).0;
    PerformsFoldLet(k.w, start, s.v, s.value, p, env, ProducerTrace(gs, sema));
    PerformsFoldLet(k.w, start, s.v, s.value, c, env, ConsumerTrace(gs));
    var inner := Trace(k, s.body, false, env[s.v := Eval(s.value, env, store)], store);
    assert Tests(k, false, s.value, Const(0), env, store) == [];
    assert [] + inner == inner;
  }

  lemma NodeAgrees(k: Watch, start: Store, s: Stmt, env: Env, store: Store, sema: seq<Sema>, gs: seq<Seg>)
    requires s.ProducerConsumer? && s.func != k.func
    requires Plain(s) && ConsumeCount(s, k.func) <= |sema| && Producer(s, k.func, sema).Done?
    requires Agrees(k, start, s.body, env, store, sema, gs)
    ensures Agrees(k, start, s, env, store, sema, gs)
  {
    var p, c := Producer(s.body, k.func, sema).stmt, Consumer(s.body, k.func, sema).0;
    PerformsInside(k.w, start, ProducerConsumer(s.func, s.isProducer, p), env, ProducerTrace(gs, sema));
    PerformsInside(k.w, start, ProducerConsumer(s.func, s.isProducer, c), env, ConsumerTrace(gs));
  }

  lemma RealizeAgrees(k: Watch, start: Store, s: Stmt, env: Env, store: Store, sema: seq<Sema>, gs: seq<Seg>)
    requires s.Realize? && Plain(s) && ConsumeCount(s, k.func) <= |sema| && Producer(s, k.func, sema).Done?
    requires Agrees(k, start, s.body, env, store, sema, gs)
    ensures Agrees(k, start, s, env, store, sema, gs)
  {
    var p, c := Producer(s.body, k.func, sema).stmt, Consumer(s.body, k.func, sema).0;
    PerformsInside(k.w, start, Realize(s.func, p), env, ProducerTrace(gs, sema));
    PerformsInside(k.w, start, Realize(s.func, c), env, ConsumerTrace(gs));
  }

  lemma {:induction false} IdleFirst(k: Watch, start: Store, s: Stmt, env: Env, store: Store, sema: seq<Sema>)
    returns (gs: seq<Seg>)
    requires s.Block? && Ready(k, start, s, store) && SpineSteady(s, k.func, k.w)
    requires !Free(s, k.func) && !IsRound(s, k.func) && Free(s.first, k.func) && Synced(s.rest, k.func)
    requires ConsumeCount(s, k.func) == |sema| && Producer(s, k.func, sema).Done?
    ensures Agrees(k, start, s, env, store, sema, gs)
    decreases s, 0
  {
    var a, b, mid := s.first, s.rest, Run(s.first, env, store);
    var g := IdleAgrees(k, start, a, env, store, sema, sema);
    ReadyAfter(k, start, a, b, env, store);
    var hs := Decompose(k, start, b, env, mid, sema);
    gs := [g] + hs;
    SegsJoin(k, [g], hs, sema);
    ThinConcat(Trace(k, a, false, env, store), BodyTrace([g], k.func), Trace(k, b, false, env, mid),
        BodyTrace(hs, k.func));
    TracesOne(g, k.func, sema);
    assert [] + ProducerTrace(hs, sema) == ProducerTrace(hs, sema);
    PerformsFoldBlock(k.w, start, Consumer(a, k.func, sema).0, Consumer(b, k.func, sema).0, env,
                      ConsumerTrace([g]), ConsumerTrace(hs));
  }

  lemma {:induction false} IdleLast(k: Watch, start: Store, s: Stmt, env: Env, store: Store, sema: seq<Sema>)
    returns (gs: seq<Seg>)
    requires s.Block? && Ready(k, start, s, store) && SpineSteady(s, k.func, k.w)
    requires !Free(s, k.func) && !IsRound(s, k.func) && Free(s.rest, k.func) && Synced(s.first, k.func)
    requires ConsumeCount(s, k.func) == |sema| && Producer(s, k.func, sema).Done?
    ensures Agrees(k, start, s, env, store, sema, gs)
    decreases s, 0
  {
    var a, b, mid := s.first, s.rest, Run(s.first, env, store);
    FreeCounts(b, k.func);
    var hs := Decompose(k, start, a, env, store, sema);
    ReadyAfter(k, start, a, b, env, store);
    var sema1 := Consumer(a, k.func, sema).1;
    var g := IdleAgrees(k, start, b, env, mid, sema1, sema);
    gs := hs + [g];
    SegsJoin(k, hs, [g], sema);
    ThinConcat(Trace(k, a, false, env, store), BodyTrace(hs, k.func), Trace(k, b, false, env, mid),
        BodyTrace([g], k.func));
    TracesOne(g, k.func, sema);
    assert ProducerTrace(hs, sema) + [] == ProducerTrace(hs, sema);
    ProducerVanishes(b, k.func, Producer(a, k.func, sema).sema);
    PerformsFoldBlock(k.w, start, Consumer(a, k.func, sema).0, Consumer(b, k.func, sema1).0, env,
                      ConsumerTrace(hs), ConsumerTrace([g]));
  }

  lemma {:induction false} BranchAgrees(k: Watch, start: Store, s: Stmt, env: Env, store: Store, sema: seq<Sema>)
    returns (gs: seq<Seg>)
    requires s.IfThenElse? && Ready(k, start, s, store) && Synced(s, k.func) && SpineSteady(s, k.func, k.w)
    requires !Free(s, k.func) && ConsumeCount(s, k.func) == |sema| && Producer(s, k.func, sema).Done?
    ensures Agrees(k, start, s, env, store, sema, gs)
    decreases s, 0
  {
    var c, t, e := s.cond, s.thenCase, s.elseCase;
    var sema1 := Consumer(t, k.func, sema).1;
    EvalOutside(c, env, k.w, store, start);
    if Free(t, k.func) { FreeCounts(t, k.func); } else { FreeCounts(e, k.func); }
    BranchCopies(k, s, sema);
    if Eval(c, env, store) != 0 {
      gs := SideAgrees(k, start, t, env, store, sema, sema);
    } else {
      gs := SideAgrees(k, start, e, env, store, sema, if Free(e, k.func) then sema1 else sema);
    }
    BranchTaken(k, start, s, env, store, sema, gs);
  }

  /** A branch, with or without the function; its copies may have been made with another vector when it
      does not hold the function. */
  lemma {:induction false} SideAgrees(k: Watch, start: Store, s: Stmt, env: Env, store: Store, sema: seq<Sema>,
                                      sema1: seq<Sema>)
    returns (gs: seq<Seg>)
    requires Ready(k, start, s, store)
    requires Free(s, k.func) || (Synced(s, k.func) && SpineSteady(s, k.func, k.w) && sema1 == sema)
    requires !Free(s, k.func) ==> ConsumeCount(s, k.func) == |sema| && Producer(s, k.func, sema).Done?
    ensures ConsumeCount(s, k.func) <= |sema1|
    ensures Thin(Trace(k, s, false, env, store), BodyTrace(gs, k.func))
            && Instances(gs) == ProduceRuns(k, s, env, store)
    ensures SegsOk(gs, k.func, k.w, sema)
    ensures Performs(k.w, start, Consumer(s, k.func, sema1).0, env, ConsumerTrace(gs))
    ensures if Free(s, k.func) then ProducerTrace(gs, sema) == []
            else Performs(k.w, start, Producer(s, k.func, sema).stmt, env, ProducerTrace(gs, sema))
    decreases s, 2
  {
    if Free(s, k.func) {
      var g := IdleAgrees(k, start, s, env, store, sema1, sema);
      gs := [g];
      TracesOne(g, k.func, sema);
    } else {
      gs := Decompose(k, start, s, env, store, sema);
    }
  }

  lemma BranchCopies(k: Watch, s: Stmt, sema: seq<Sema>)
    requires s.IfThenElse? && Plain(s) && ConsumeCount(s, k.func) <= |sema| && Producer(s, k.func, sema).Done?
    requires Free(s.thenCase, k.func) || Free(s.elseCase, k.func)
    ensures var c, t, e := s.cond, s.thenCase, s.elseCase;
            && (Free(t, k.func) ==>
                  Consumer(t, k.func, sema).1 == sema && Producer(t, k.func, sema) == Done(NoOp, sema))
            && (Free(e, k.func) ==> Producer(e, k.func, Producer(t, k.func, sema).sema).stmt == NoOp)
            && Producer(t, k.func, sema).Done?
            && Producer(e, k.func, Producer(t, k.func, sema).sema).Done?
  {
    var t, e := s.thenCase, s.elseCase;
    if Free(t, k.func) {
      FreeCounts(t, k.func);
      ConsumerKeeps(Watch(k.func, {}), t, sema, map[], map[]);
      ProducerVanishes(t, k.func, sema);
    }
    if Free(e, k.func) {
      FreeCounts(e, k.func);
      ProducerVanishes(e, k.func, Producer(t, k.func, sema).sema);
    }
  }

  lemma BranchTaken(k: Watch, start: Store, s: Stmt, env: Env, store: Store, sema: seq<Sema>, gs: seq<Seg>)
    requires s.IfThenElse? && Plain(s) && ConsumeCount(s, k.func) <= |sema| && Producer(s, k.func, sema).Done?
    requires Loads(s.cond) * k.w == {} && Eval(s.cond, env, store) == Eval(s.cond, env, start)
    requires Producer(s.thenCase, k.func, sema).Done?
    requires Producer(s.elseCase, k.func, Producer(s.thenCase, k.func, sema).sema).Done?
    requires var taken := if Eval(s.cond, env, store) != 0 then s.thenCase else s.elseCase;
             var c := if Eval(s.cond, env, store) != 0 then Consumer(s.thenCase, k.func, sema).0
                      else Consumer(s.elseCase, k.func, Consumer(s.thenCase, k.func, sema).1).0;
             var p := if Eval(s.cond, env, store) != 0 then Producer(s.thenCase, k.func, sema).stmt
                      else Producer(s.elseCase, k.func, Producer(s.thenCase, k.func, sema).sema).stmt;
             && Thin(Trace(k, taken, false, env, store), BodyTrace(gs, k.func))
             && Instances(gs) == ProduceRuns(k, taken, env, store) && SegsOk(gs, k.func, k.w, sema)
             && Performs(k.w, start, c, env, ConsumerTrace(gs))
             && (Performs(k.w, start, p, env, ProducerTrace(gs, sema)) || (p == NoOp && ProducerTrace(gs, sema) == []))
    ensures Agrees(k, start, s, env, store, sema, gs)
  {
    var t, e, x := s.thenCase, s.elseCase, Eval(s.cond, env, store);
    var p1, c1 := Producer(t, k.func, sema), Consumer(t, k.func, sema);
    var p2, c2 := Producer(e, k.func, p1.sema), Consumer(e, k.func, c1.1);
    PerformsNothing(k.w, start, env);
    PerformsFoldIf(k.w, start, s.cond, p1.stmt, p2.stmt, env, ProducerTrace(gs, sema));
    PerformsFoldIf(k.w, start, s.cond, c1.0, c2.0, env, ConsumerTrace(gs));
    var inner := Trace(k, if x != 0 then t else e, false, env, store);
    assert Tests(k, false, s.cond, Const(0), env, store) == [];
    assert [] + inner == inner;
  }

  lemma {:induction false} LoopAgrees(k: Watch, start: Store, s: Stmt, env: Env, store: Store, sema: seq<Sema>)
    returns (gs: seq<Seg>)
    requires s.For? && Ready(k, start, s, store) && Synced(s, k.func) && SpineSteady(s, k.func, k.w)
    requires !Free(s, k.func) && ConsumeCount(s, k.func) == |sema| && Producer(s, k.func, sema).Done?
    ensures Agrees(k, start, s, env, store, sema, gs)
    decreases s, 0
  {
    var For(v, lo, n, b) := s;
    var l, m := Eval(lo, env, store), Nat(Eval(n, env, store));
    EvalOutside(lo, env, k.w, store, start);
    EvalOutside(n, env, k.w, store, start);
    var ps, cs;
    gs, ps, cs := IterationsAgree(k, start, b, v, l, m, env, store, sema);
    PerformsFoldFor(k.w, start, v, lo, n, Producer(b, k.func, sema).stmt, env, ps);
    PerformsFoldFor(k.w, start, v, lo, n, Consumer(b, k.func, sema).0, env, cs);
    assert Tests(k, false, lo, n, env, store) == [];
    var inner := TraceLoop(k, b, false, v, l, m, env, store);
    assert [] + inner == inner;
  }

  lemma {:induction false} IterationsAgree(k: Watch, start: Store, b: Stmt, v: string, lo: int, n: nat, env: Env,
                                           store: Store, sema: seq<Sema>)
    returns (gs: seq<Seg>, ps: seq<seq<Act>>, cs: seq<seq<Act>>)
    requires Ready(k, start, b, store) && Synced(b, k.func) && SpineSteady(b, k.func, k.w) && !Free(b, k.func)
    requires ConsumeCount(b, k.func) == |sema| && Producer(b, k.func, sema).Done?
    ensures Thin(TraceLoop(k, b, false, v, lo, n, env, store), BodyTrace(gs, k.func))
    ensures Instances(gs) == ProduceRunsLoop(k, b, v, lo, n, env, store) && SegsOk(gs, k.func, k.w, sema)
    ensures |ps| == |cs| == n && Flatten(ps) == ProducerTrace(gs, sema) && Flatten(cs) == ConsumerTrace(gs)
    ensures Iterations(k.w, start, v, lo, Producer(b, k.func, sema).stmt, env, ps)
    ensures Iterations(k.w, start, v, lo, Consumer(b, k.func, sema).0, env, cs)
    decreases b, n + 2
  {
    gs, ps, cs := [], [], [];
    if n != 0 {
      var inner, mid := env[v := lo], Run(b, env[v := lo], store);
      var hs := Decompose(k, start, b, inner, store, sema);
      ReadyAfter(k, start, b, b, inner, store);
      var ls, ps', cs' := IterationsAgree(k, start, b, v, lo + 1, n - 1, env, mid, sema);
      gs, ps, cs := hs + ls, [ProducerTrace(hs, sema)] + ps', [ConsumerTrace(hs)] + cs';
      SegsJoin(k, hs, ls, sema);
      ThinConcat(Trace(k, b, false, inner, store), BodyTrace(hs, k.func),
                 TraceLoop(k, b, false, v, lo + 1, n - 1, env, mid), BodyTrace(ls, k.func));
      assert ps[1..] == ps' && cs[1..] == cs';
      IterationsCons(k.w, start, v, lo, Producer(b, k.func, sema).stmt, env, ps, ps');
      IterationsCons(k.w, start, v, lo, Consumer(b, k.func, sema).0, env, cs, cs');
    }
  }

  lemma IterationsCons(w: set<string>, start: Store, v: string, lo: int, b: Stmt, env: Env, ts: seq<seq<Act>>,
                       later: seq<seq<Act>>)
    requires ts != [] && ts[1..] == later && Iterations(w, start, v, lo + 1, b, env, later)
    requires Performs(w, start, b, env[v := lo], ts[0])
    ensures Iterations(w, start, v, lo, b, env, ts)
  {
    forall i | 0 <= i < |ts| ensures Performs(w, start, b, env[v := lo + i], ts[i]) {
      if i > 0 {
        assert ts[i] == later[i - 1] && lo + i == lo + 1 + (i - 1);
      }
    }
  }
}
