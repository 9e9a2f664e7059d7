/** The invariant of the forked machine and the theorems that follow from it. */
module AsyncTheorem {
  import opened StmtIR
  import opened AsyncFork
  import opened AsyncShape
  import opened AsyncMachine
  import opened AsyncSplit
  import opened AsyncCount
  import opened AsyncProof

  /** A decomposed body: its segments, the functions it writes (`w`) and the store it starts in. */
  datatype Setup = Setup(func: string, w: set<string>, sema: seq<Sema>, gs: seq<Seg>, start: Store)

  ghost predicate Good(S: Setup) {
    && SegsOk(S.gs, S.func, S.w, S.sema)
    && Distinct(S.sema)
    && Undisturbed(TB(S), S.func, S.start)
    && Real(TB(S), S.start)
  }

  function TB(S: Setup): seq<Act> {
    BodyTrace(S.gs, S.func)
  }

  function TP(S: Setup): seq<Act> {
    ProducerTrace(S.gs, S.sema)
  }

  function TC(S: Setup): seq<Act> {
    ConsumerTrace(S.gs)
  }

  /** Where the two threads are: the producer has done `i` actions and has `p` steps to go, the consumer
      `j` and `q`. */
  ghost predicate Threads(S: Setup, c: Config, i: nat, j: nat, p: nat, q: nat) {
    && i <= |TP(S)| && j <= |TC(S)|
    && Follows(S.w, S.start, c.prod, TP(S)[i..], p)
    && Follows(S.w, S.start, c.cons, TC(S)[j..], q)
  }

  ghost predicate Semaphores(S: Setup, c: Config, i: nat, j: nat)
    requires i <= |TP(S)| && j <= |TC(S)|
  {
    forall s :: SemaValue(c.semas, s) == CountRel(TP(S)[..i], s) - CountAcq(TC(S)[..j], s) >= 0
  }

  /** The function's cells are what the producer alone has made them; the other cells are what some
      point of the sequential run, with as many of their stores done, has made them. */
  ghost predicate Memory(S: Setup, c: Config, i: nat, j: nat, m: nat)
    requires i <= |TP(S)| && j <= |TC(S)|
  {
    && m <= |TB(S)|
    && Items(TB(S)[..m], S.func, false) == Items(TC(S)[..j], S.func, false)
    && c.store == Mix(S.func, DoAll(Items(TP(S)[..i], S.func, true), S.start), At(TB(S), m, S.start))
  }

  ghost predicate Logged(S: Setup, c: Config, i: nat, j: nat)
    requires i <= |TP(S)| && j <= |TC(S)|
  {
    && Writes(c.log, S.func, true) == Writes(TP(S)[..i], S.func, true)
    && Writes(c.log, S.func, false) == Writes(TC(S)[..j], S.func, false)
    && forall s :: CountRel(c.log, s) == CountRel(TP(S)[..i], s) && CountAcq(c.log, s) == CountAcq(TC(S)[..j], s)
  }

  ghost predicate Inv(S: Setup, c: Config, i: nat, j: nat, m: nat) {
    && i <= |TP(S)| && j <= |TC(S)|
    && Semaphores(S, c, i, j)
    && Memory(S, c, i, j, m)
    && Logged(S, c, i, j)
  }

  // ----- stepping along a trace -----

  lemma Snoc(t: seq<Act>, n: nat, func: string)
    requires n < |t|
    ensures forall own :: Items(t[..n + 1], func, own) ==
                          Items(t[..n], func, own) + if IsItem(t[n], func, own) then [t[n]] else []
    ensures forall own :: Writes(t[..n + 1], func, own) ==
                          Writes(t[..n], func, own) + if t[n].Write? && (t[n].func == func) == own then [t[n]] else []
    ensures forall s :: CountAcq(t[..n + 1], s) == CountAcq(t[..n], s) + if t[n].Acq? && t[n].sema == s then 1 else 0
    ensures forall s :: CountRel(t[..n + 1], s) == CountRel(t[..n], s) + if t[n].Rel? && t[n].sema == s then 1 else 0
  {
    assert t[..n + 1] == t[..n] + [t[n]];
    ItemsSnoc(t, n, func, true);
    ItemsSnoc(t, n, func, false);
    WritesSnoc(t[..n], t[n], func, true);
    WritesSnoc(t[..n], t[n], func, false);
    forall s
      ensures CountAcq(t[..n + 1], s) == CountAcq(t[..n], s) + if t[n].Acq? && t[n].sema == s then 1 else 0
      ensures CountRel(t[..n + 1], s) == CountRel(t[..n], s) + if t[n].Rel? && t[n].sema == s then 1 else 0
    {
      CountConcat(t[..n], [t[n]], s);
      assert [t[n]][1..] == [];
    }
  }

  /** Appending an action to the log counts it. */
  lemma LogSnoc(log: seq<Act>, a: Act, func: string)
    ensures forall own :: Writes(log + [a], func, own) ==
                          Writes(log, func, own) + if a.Write? && (a.func == func) == own then [a] else []
    ensures forall s :: CountAcq(log + [a], s) == CountAcq(log, s) + if a.Acq? && a.sema == s then 1 else 0
    ensures forall s :: CountRel(log + [a], s) == CountRel(log, s) + if a.Rel? && a.sema == s then 1 else 0
  {
    var t := log + [a];
    assert t[..|log|] == log && t[..|log| + 1] == t && t[|log|] == a;
    Snoc(t, |log|, func);
  }

  lemma NextAction(used: seq<Act>, rest: seq<Act>, t: seq<Act>, i: nat)
    requires i <= |t| && |used| <= 1 && used + rest == t[i..]
    ensures used == [] ==> rest == t[i..]
    ensures used != [] ==> i < |t| && used == [t[i]] && rest == t[i + 1..]
    ensures t[i..] != [] ==> i < |t| && t[i..][0] == t[i]
  {
    if used != [] {
      assert t[i..][0] == used[0];
      assert t[i..][1..] == t[i + 1..];
      assert (used + rest)[1..] == rest;
    }
  }

  /** Nothing but the functions that the body writes ever changes. */
  lemma StoreOutside(S: Setup, c: Config, i: nat, j: nat, m: nat)
    requires Good(S) && Inv(S, c, i, j, m)
    ensures AgreeOutside(S.w, c.store, S.start)
    ensures AgreeOutside(S.w, DoAll(Items(TP(S)[..i], S.func, true), S.start), S.start)
    ensures forall n: nat | n <= |TB(S)| :: AgreeOutside(S.w, At(TB(S), n, S.start), S.start)
  {
    TraceActs(S.gs, S.func, S.w, S.sema);
    var own := Items(TP(S)[..i], S.func, true);
    ItemsSubset(TP(S)[..i], S.func, true);
    assert forall a | a in TP(S)[..i] :: a in TP(S);
    WritesStayInside(own, S.w, S.start);
    forall n: nat | n <= |TB(S)| ensures AgreeOutside(S.w, At(TB(S), n, S.start), S.start) {
      BodyActsInside(TB(S), n, S.func, S.w);
      WritesStayInside(TB(S)[..n], S.w, S.start);
    }
    forall k: Cell | Outside(k, S.w) ensures Get(c.store, k) == Get(S.start, k) {
      MixGet(S.func, DoAll(own, S.start), At(TB(S), m, S.start), k);
    }
  }

  /** One action of a thread, as it shows in the machine: a test leaves no trace there. */
  predicate Performed(a: Act, c: Config, c': Config) {
    && Enabled(a, c.semas)
    && c'.store == Do(a, c.store)
    && c'.semas == DoSema(a, c.semas)
    && c'.log == c.log + if a.Test? then [] else [a]
  }

  lemma EffectPerforms(acts: seq<Act>, used: seq<Act>, c: Config, c': Config)
    requires Effect(acts, c, c') && |used| == 1 && (acts == used || (acts == [] && used[0].Test?))
    requires acts != [] ==> !acts[0].Test?
    ensures Performed(used[0], c, c')
  {
    assert c.log + [] == c.log;
  }

  /** The next step of a thread that has done the first `i` actions of `t` and has `n` steps to go: what it
      performs is the action it is due, unless that is a test or there is none. */
  ghost predicate NextIs(w: set<string>, start: Store, st: Stack, t: seq<Act>, i: nat, n: nat, store: Store,
                         used: seq<Act>)
    requires st != [] && i <= |t|
  {
    var (top, acts) := Advance(st[0], store);
    && n > 0
    && |used| <= 1 && (acts == used || (acts == [] && used[0].Test?)) && (acts != [] ==> !acts[0].Test?)
    && i + |used| <= |t| && (used != [] ==> used == [t[i]])
    && Follows(w, start, top + st[1..], t[i + |used|..], n - 1)
  }

  lemma NextStep(w: set<string>, start: Store, st: Stack, t: seq<Act>, i: nat, n: nat, store: Store)
      returns (used: seq<Act>)
    requires i <= |t| && Follows(w, start, st, t[i..], n) && st != [] && AgreeOutside(w, store, start)
    requires i < |t| && t[i].Test? ==> Holds(t[i], store)
    ensures NextIs(w, start, st, t, i, n, store, used)
  {
    hide Follows, Advance, AgreeOutside, Holds;
    assert t[i..] != [] ==> i < |t| && t[i..][0] == t[i];
    var top, acts, u;
    top, acts, used, u := AdvanceFollows(w, start, st, t[i..], n, store);
    NextAction(used, u, t, i);
  }

  /** A step without an action. */
  lemma StandsStill(S: Setup, c: Config, c': Config, i: nat, j: nat, m: nat)
    requires Inv(S, c, i, j, m) && Effect([], c, c')
    ensures Inv(S, c', i, j, m)
  {
  }

  // ----- the producer moves -----

  /** What the producer reads next is what it would read at the same point of the sequential run. */
  lemma ProducerReads(S: Setup, c: Config, i: nat, j: nat, m: nat)
    requires Good(S) && Inv(S, c, i, j, m) && i < |TP(S)| && IsItem(TP(S)[i], S.func, true)
    ensures var mine := DoAll(Items(TP(S)[..i], S.func, true), S.start);
            AgreeOn(ActReads(TP(S)[i], mine), mine, c.store)
  {
    TraceActs(S.gs, S.func, S.w, S.sema);
    assert TP(S)[i] in TP(S);
    StoreOutside(S, c, i, j, m);
    var mine := DoAll(Items(TP(S)[..i], S.func, true), S.start);
    MixPart(S.func, mine, At(TB(S), m, S.start));
    forall k | Outside(k, S.w) ensures Get(mine, k) == Get(c.store, k) {
    }
    OwnReads(TP(S)[i], S.func, S.w, mine, c.store);
  }

  lemma MixPart(func: string, a: Store, b: Store)
    ensures Part(func, true, Mix(func, a, b)) == Part(func, true, a)
  {
  }

  /** The producer's tests come out as in the sequential run. */
  lemma ProducerHolds(S: Setup, c: Config, i: nat, j: nat, m: nat)
    requires Good(S) && Inv(S, c, i, j, m) && i < |TP(S)| && TP(S)[i].Test?
    ensures Holds(TP(S)[i], c.store)
  {
    TraceActs(S.gs, S.func, S.w, S.sema);
    var a, own := TP(S)[i], Items(TP(S)[..i], S.func, true);
    assert a in TP(S);
    CopiesPartition(S.gs, S.func, S.w, S.sema);
    var k := ItemPosition(TP(S), S.func, true, i);
    var n := ItemPlace(TB(S), S.func, true, k);
    assert TB(S)[n] == a && Items(TB(S)[..n], S.func, true) == own;
    RealAt(TB(S), n, S.start);
    OwnHalf(TB(S), n, S.func, S.w, S.start);
    StoreOutside(S, c, i, j, m);
    var seen, mine := At(TB(S), n, S.start), DoAll(own, S.start);
    MixPart(S.func, mine, At(TB(S), m, S.start));
    forall x | Outside(x, S.w) ensures Get(seen, x) == Get(c.store, x) {
    }
    OwnReads(a, S.func, S.w, seen, c.store);
    HoldsFrame(a, seen, c.store);
  }

  lemma ProducerMemory(S: Setup, c: Config, c': Config, i: nat, j: nat, m: nat, a: Act)
    requires Good(S) && Inv(S, c, i, j, m) && i < |TP(S)| && a == TP(S)[i]
    requires IsItem(a, S.func, true) || a.Rel?
    requires c'.store == Do(a, c.store)
    ensures Memory(S, c', i + 1, j, m)
  {
    var own := Items(TP(S)[..i], S.func, true);
    ItemsSnoc(TP(S), i, S.func, true);
    if IsItem(a, S.func, true) {
      ProducerReads(S, c, i, j, m);
      DoMixOwn(S.func, DoAll(own, S.start), At(TB(S), m, S.start), a);
      DoAllConcat(own, [a], S.start);
      assert [a][1..] == [];
    } else {
      assert own + [] == own;
    }
  }

  lemma ProducerLogged(S: Setup, c: Config, c': Config, i: nat, j: nat, a: Act)
    requires i < |TP(S)| && j <= |TC(S)| && Logged(S, c, i, j)
    requires a == TP(S)[i] && (a.Rel? || IsItem(a, S.func, true)) && c'.log == c.log + if a.Test? then [] else [a]
    ensures Logged(S, c', i + 1, j)
  {
    Snoc(TP(S), i, S.func);
    LogSnoc(c.log, a, S.func);
    assert c.log + [] == c.log;
    var tp, tc := TP(S)[..i + 1], TC(S)[..j];
    assert Writes(c'.log, S.func, true) == Writes(tp, S.func, true);
    assert Writes(c'.log, S.func, false) == Writes(tc, S.func, false);
  }

  lemma ProducerCounts(S: Setup, c: Config, c': Config, i: nat, j: nat)
    requires i < |TP(S)| && j <= |TC(S)| && Semaphores(S, c, i, j) && !TP(S)[i].Acq?
    requires TP(S)[i].Rel? ==> TP(S)[i].n == 1
    requires c'.semas == DoSema(TP(S)[i], c.semas)
    ensures Semaphores(S, c', i + 1, j)
  {
    Snoc(TP(S), i, S.func);
    forall s
      ensures SemaValue(c'.semas, s) == CountRel(TP(S)[..i + 1], s) - CountAcq(TC(S)[..j], s) >= 0
    {
      assert SemaValue(c.semas, s) == CountRel(TP(S)[..i], s) - CountAcq(TC(S)[..j], s) >= 0;
    }
  }

  lemma ProducerActs1(S: Setup, c: Config, c': Config, i: nat, j: nat, m: nat, a: Act)
    requires Good(S) && Inv(S, c, i, j, m) && i < |TP(S)| && a == TP(S)[i]
    requires Performed(a, c, c')
    ensures Inv(S, c', i + 1, j, m)
  {
    TraceActs(S.gs, S.func, S.w, S.sema);
    assert a in TP(S);
    ProducerCounts(S, c, c', i, j);
    ProducerMemory(S, c, c', i, j, m, a);
    ProducerLogged(S, c, c', i, j, a);
  }

  /** The step the producer takes next. */
  lemma ProducerNext(S: Setup, c: Config, i: nat, j: nat, m: nat, p: nat, q: nat) returns (used: seq<Act>)
    requires Good(S) && Inv(S, c, i, j, m) && Threads(S, c, i, j, p, q) && c.prod != []
    ensures NextIs(S.w, S.start, c.prod, TP(S), i, p, c.store, used)
  {
    hide Good, Semaphores, Memory, Logged, Follows, TP, NextIs;
    StoreOutside(S, c, i, j, m);
    if i < |TP(S)| && TP(S)[i].Test? {
      ProducerHolds(S, c, i, j, m);
    }
    used := NextStep(S.w, S.start, c.prod, TP(S), i, p, c.store);
  }

  lemma ProducerMoves(S: Setup, c: Config, c': Config, i: nat, j: nat, m: nat, p: nat, q: nat) returns (i': nat)
    requires Good(S) && Inv(S, c, i, j, m) && Threads(S, c, i, j, p, q) && ProducerStep(c, c')
    ensures p > 0 && Inv(S, c', i', j, m) && Threads(S, c', i', j, p - 1, q)
  {
    hide Follows, Advance, Semaphores, Memory, Logged, Effect, TP, TC, TB, Good;
    var used := ProducerNext(S, c, i, j, m, p, q);
    i' := i + |used|;
    if used != [] {
      EffectPerforms(Advance(c.prod[0], c.store).1, used, c, c');
      ProducerActs1(S, c, c', i, j, m, used[0]);
    } else {
      StandsStill(S, c, c', i, j, m);
    }
  }

  // ----- the consumer moves -----

  /** By the time the consumer's next store or test runs, everything it reads of the function is in place,
      and stays. `p` is its place in the sequential run. */
  lemma ConsumerSees(S: Setup, c: Config, i: nat, j: nat, m: nat) returns (p: nat)
    requires Good(S) && Inv(S, c, i, j, m) && j < |TC(S)| && IsItem(TC(S)[j], S.func, false)
    ensures p < |TB(S)| && TB(S)[p] == TC(S)[j]
    ensures Items(TB(S)[..p], S.func, false) == Items(TC(S)[..j], S.func, false)
    ensures c.store == Mix(S.func, DoAll(Items(TP(S)[..i], S.func, true), S.start), At(TB(S), p, S.start))
    ensures AgreeOn(ActReads(TC(S)[j], At(TB(S), p, S.start)), At(TB(S), p, S.start), c.store)
  {
    TraceActs(S.gs, S.func, S.w, S.sema);
    var r, s;
    p, r, s := Locate(S.gs, S.func, S.w, S.sema, j);
    var a, done := TC(S)[j], Items(TP(S)[..i], S.func, true);
    assert a in TC(S);
    if m <= p {
      OtherHalf(TB(S), m, p, S.func, S.w, S.start);
    } else {
      OtherHalf(TB(S), p, m, S.func, S.w, S.start);
    }
    var own, seen := DoAll(done, S.start), At(TB(S), p, S.start);
    assert c.store == Mix(S.func, own, seen);
    if S.func in ActLoads(a) {
      var n := ProducedEnough(S, c, i, j, p, r, s);
      OwnHalf(TB(S), n, S.func, S.w, S.start);
      forall k | k in ActReads(a, seen) ensures Get(seen, k) == Get(Mix(S.func, own, seen), k) {
        MixGet(S.func, own, seen, k);
        if k.0 == S.func {
          PartGet(S.func, true, At(TB(S), n, S.start), own, k);
        }
      }
    } else {
      forall k | k in ActReads(a, seen) ensures Get(seen, k) == Get(Mix(S.func, own, seen), k) {
        ActReadsAreLoads(a, seen, k);
        MixGet(S.func, own, seen, k);
      }
    }
  }

  /** The semaphores make the producer at least as advanced as the sequential run would be. */
  lemma ProducedEnough(S: Setup, c: Config, i: nat, j: nat, p: nat, r: nat, s: Sema) returns (n: nat)
    requires Good(S) && i <= |TP(S)| && j < |TC(S)| && Semaphores(S, c, i, j)
    requires Located(TB(S), TC(S), Instances(S.gs), S.func, S.sema, j, p, r, s) && S.func in ActLoads(TC(S)[j])
    ensures p <= n <= |TB(S)| && Items(TB(S)[..n], S.func, true) == Items(TP(S)[..i], S.func, true)
  {
    var done := Items(TP(S)[..i], S.func, true);
    assert SemaValue(c.semas, s) == CountRel(TP(S)[..i], s) - CountAcq(TC(S)[..j], s) >= 0;
    var k := CountRel(TP(S)[..i], s);
    ReleasedIsWritten(S.gs, S.func, S.w, S.sema, i, s);
    FirstRunsMonotone(Instances(S.gs), r, k);
    PrefixTrans(FirstRuns(Instances(S.gs), r), FirstRuns(Instances(S.gs), k), done);
    CopiesPartition(S.gs, S.func, S.w, S.sema);
    ItemsMonotone(TP(S), i, |TP(S)|, S.func, true);
    assert TP(S)[..|TP(S)|] == TP(S);
    n := ReachItems(TB(S), p, done, S.func);
  }

  lemma PrefixTrans(a: seq<Act>, b: seq<Act>, c: seq<Act>)
    requires a <= b <= c
    ensures a <= c
  {
  }

  lemma ConsumerHolds(S: Setup, c: Config, i: nat, j: nat, m: nat)
    requires Good(S) && Inv(S, c, i, j, m) && j < |TC(S)| && TC(S)[j].Test?
    ensures Holds(TC(S)[j], c.store)
  {
    TraceActs(S.gs, S.func, S.w, S.sema);
    assert TC(S)[j] in TC(S);
    var p := ConsumerSees(S, c, i, j, m);
    RealAt(TB(S), p, S.start);
    HoldsFrame(TC(S)[j], At(TB(S), p, S.start), c.store);
  }

  lemma ConsumerItem(S: Setup, c: Config, i: nat, j: nat, m: nat) returns (m': nat)
    requires Good(S) && Inv(S, c, i, j, m) && j < |TC(S)| && IsItem(TC(S)[j], S.func, false)
    ensures m' <= |TB(S)| && Items(TB(S)[..m'], S.func, false) == Items(TC(S)[..j + 1], S.func, false)
    ensures Do(TC(S)[j], c.store) ==
            Mix(S.func, DoAll(Items(TP(S)[..i], S.func, true), S.start), At(TB(S), m', S.start))
  {
    var a, own := TC(S)[j], DoAll(Items(TP(S)[..i], S.func, true), S.start);
    var p := ConsumerSees(S, c, i, j, m);
    m' := p + 1;
    DoMixOther(S.func, own, At(TB(S), p, S.start), a);
    DoAllSnoc(TB(S), p, S.start);
    ItemsSnoc(TB(S), p, S.func, false);
    ItemsSnoc(TC(S), j, S.func, false);
  }

  lemma ConsumerCounts(S: Setup, c: Config, c': Config, i: nat, j: nat)
    requires i <= |TP(S)| && j < |TC(S)| && Semaphores(S, c, i, j) && !TC(S)[j].Rel?
    requires TC(S)[j].Acq? ==> TC(S)[j].n == 1
    requires Enabled(TC(S)[j], c.semas) && c'.semas == DoSema(TC(S)[j], c.semas)
    ensures Semaphores(S, c', i, j + 1)
  {
    Snoc(TC(S), j, S.func);
    forall s
      ensures SemaValue(c'.semas, s) == CountRel(TP(S)[..i], s) - CountAcq(TC(S)[..j + 1], s) >= 0
    {
      assert SemaValue(c.semas, s) == CountRel(TP(S)[..i], s) - CountAcq(TC(S)[..j], s) >= 0;
    }
  }

  lemma ConsumerLogged(S: Setup, c: Config, c': Config, i: nat, j: nat, a: Act)
    requires i <= |TP(S)| && j < |TC(S)| && Logged(S, c, i, j)
    requires a == TC(S)[j] && ConsumeAct(a, S.func, S.w) && c'.log == c.log + if a.Test? then [] else [a]
    ensures Logged(S, c', i, j + 1)
  {
    Snoc(TC(S), j, S.func);
    LogSnoc(c.log, a, S.func);
    assert c.log + [] == c.log;
    var tp, tc := TP(S)[..i], TC(S)[..j + 1];
    assert Writes(c'.log, S.func, true) == Writes(tp, S.func, true);
    assert Writes(c'.log, S.func, false) == Writes(tc, S.func, false);
  }

  lemma ConsumerActs1(S: Setup, c: Config, c': Config, i: nat, j: nat, m: nat, a: Act) returns (m': nat)
    requires Good(S) && Inv(S, c, i, j, m) && j < |TC(S)| && a == TC(S)[j]
    requires Performed(a, c, c')
    ensures Inv(S, c', i, j + 1, m')
  {
    TraceActs(S.gs, S.func, S.w, S.sema);
    assert a in TC(S);
    ConsumerCounts(S, c, c', i, j);
    ConsumerLogged(S, c, c', i, j, a);
    m' := m;
    if IsItem(a, S.func, false) {
      m' := ConsumerItem(S, c, i, j, m);
    } else {
      ItemsSnoc(TC(S), j, S.func, false);
      assert Items(TC(S)[..j], S.func, false) + [] == Items(TC(S)[..j], S.func, false);
    }
  }

  lemma ConsumerNext(S: Setup, c: Config, i: nat, j: nat, m: nat, p: nat, q: nat) returns (used: seq<Act>)
    requires Good(S) && Inv(S, c, i, j, m) && Threads(S, c, i, j, p, q) && c.cons != []
    ensures NextIs(S.w, S.start, c.cons, TC(S), j, q, c.store, used)
  {
    hide Good, Semaphores, Memory, Logged, Follows, TC, NextIs;
    StoreOutside(S, c, i, j, m);
    if j < |TC(S)| && TC(S)[j].Test? {
      ConsumerHolds(S, c, i, j, m);
    }
    used := NextStep(S.w, S.start, c.cons, TC(S), j, q, c.store);
  }

  lemma ConsumerMoves(S: Setup, c: Config, c': Config, i: nat, j: nat, m: nat, p: nat, q: nat)
      returns (j': nat, m': nat)
    requires Good(S) && Inv(S, c, i, j, m) && Threads(S, c, i, j, p, q) && ConsumerStep(c, c')
    ensures q > 0 && Inv(S, c', i, j', m') && Threads(S, c', i, j', p, q - 1)
  {
    hide Follows, Advance, Semaphores, Memory, Logged, Effect, TP, TC, TB, Good;
    var used := ConsumerNext(S, c, i, j, m, p, q);
    j' := j + |used|;
    m' := m;
    if used != [] {
      EffectPerforms(Advance(c.cons[0], c.store).1, used, c, c');
      m' := ConsumerActs1(S, c, c', i, j, m, used[0]);
    } else {
      StandsStill(S, c, c', i, j, m);
    }
  }

  // ----- runs -----

  /** A state that the invariant describes, `left` steps from the end. */
  ghost predicate Reached(S: Setup, c: Config, left: nat) {
    exists i: nat, j: nat, m: nat, p: nat, q: nat :: Inv(S, c, i, j, m) && Threads(S, c, i, j, p, q) && left == p + q
  }

  lemma StepKeeps(S: Setup, c: Config, c': Config, left: nat)
    requires Good(S) && Reached(S, c, left) && Next(c, c')
    ensures left > 0 && Reached(S, c', left - 1)
  {
    var i: nat, j: nat, m: nat, p: nat, q: nat :| Inv(S, c, i, j, m) && Threads(S, c, i, j, p, q) && left == p + q;
    if ProducerStep(c, c') {
      var i' := ProducerMoves(S, c, c', i, j, m, p, q);
    } else {
      var j', m' := ConsumerMoves(S, c, c', i, j, m, p, q);
    }
  }

  lemma {:induction false} RunKeeps(S: Setup, run: seq<Config>, start: Config, total: nat)
    requires Good(S) && IsRun(run, start) && Reached(S, start, total)
    ensures |run| - 1 <= total && Reached(S, Last(run), total - (|run| - 1))
    decreases |run|
  {
    if |run| > 1 {
      var before := run[..|run| - 1];
      assert IsRun(before, start);
      RunKeeps(S, before, start, total);
      assert Next(run[|run| - 2], run[|run| - 1]);
      StepKeeps(S, Last(before), Last(run), total - (|before| - 1));
    }
  }

  // ----- the setup of a forked body -----

  /** What a body does when it runs on one thread: its stores, and the control it reads from functions
      that it writes. */
  function SequentialTrace(body: Stmt, func: string, env: Env, store: Store): seq<Act> {
    Trace(Watch(func, Provided(body)), body, false, env, store)
  }

  /** The hypotheses of the forking theorems: the static shape, a pass that did not stop, and a
      sequential run in which no cell is overwritten after it was consumed. */
  ghost predicate Forkable(body: Stmt, func: string, env: Env, store: Store) {
    && WellFormed(body, func)
    && ForkSides(body, func).Sides?
    && Undisturbed(SequentialTrace(body, func, env, store), func, store)
  }

  function Forked(body: Stmt, func: string, env: Env, store: Store): Config
    requires Plain(body) && ForkSides(body, func).Sides?
  {
    Start(ForkSides(body, func).producer, ForkSides(body, func).consumer, env, store)
  }

  lemma ForkStarts(body: Stmt, func: string, env: Env, store: Store) returns (S: Setup, total: nat)
    requires Forkable(body, func, env, store)
    ensures Good(S) && Reached(S, Forked(body, func, env, store), total)
    ensures S.func == func && S.start == store && S.sema == Semas(func, ConsumeCount(body, func))
    ensures Thin(SequentialTrace(body, func, env, store), TB(S))
    ensures Instances(S.gs) == ProduceRuns(Watch(func, Provided(body)), body, env, store)
  {
    var k, sema := Watch(func, Provided(body)), Semas(func, ConsumeCount(body, func));
    SemasDistinct(func, ConsumeCount(body, func));
    var gs := Decompose(k, store, body, env, store, sema);
    S := Setup(func, k.w, sema, gs, store);
    var t, c := SequentialTrace(body, func, env, store), Forked(body, func, env, store);
    RunIsTrace(k, body, false, env, store);
    ThinDo(t, TB(S), store);
    ThinUndisturbed(t, TB(S), func, store);
    var p := OneThing(k.w, store, c.prod[0], TP(S));
    var q := OneThing(k.w, store, c.cons[0], TC(S));
    assert TP(S)[0..] == TP(S) && TC(S)[0..] == TC(S);
    assert Threads(S, c, 0, 0, p, q);
    InitialInv(S, c);
    total := p + q;
  }

  lemma InitialInv(S: Setup, c: Config)
    requires c.store == S.start && c.log == [] && c.semas == map[]
    ensures Inv(S, c, 0, 0, 0)
  {
    assert TP(S)[..0] == [] && TC(S)[..0] == [] && TB(S)[..0] == [];
    MixSelf(S.func, S.start);
  }

  // ----- the theorems -----

  lemma FollowsEnd(w: set<string>, start: Store, st: Stack, t: seq<Act>, n: nat)
    requires Follows(w, start, st, t, n)
    ensures st == [] <==> n == 0
    ensures n == 0 ==> t == []
  {
  }

  lemma FinalStore(S: Setup, c: Config, left: nat)
    requires Good(S) && Reached(S, c, left) && Finished(c)
    ensures c.store == DoAll(TB(S), S.start)
    ensures forall s :: SemaValue(c.semas, s) == 0
  {
    var i: nat, j: nat, m: nat, p: nat, q: nat :| Inv(S, c, i, j, m) && Threads(S, c, i, j, p, q) && left == p + q;
    FollowsEnd(S.w, S.start, c.prod, TP(S)[i..], p);
    FollowsEnd(S.w, S.start, c.cons, TC(S)[j..], q);
    assert TP(S)[i..] == [] && TC(S)[j..] == [];
    assert TP(S)[..i] == TP(S) && TC(S)[..j] == TC(S);
    var n := |TB(S)|;
    assert TB(S)[..n] == TB(S);
    CopiesPartition(S.gs, S.func, S.w, S.sema);
    TraceActs(S.gs, S.func, S.w, S.sema);
    OtherHalf(TB(S), m, n, S.func, S.w, S.start);
    OwnHalf(TB(S), n, S.func, S.w, S.start);
    var all := DoAll(TB(S), S.start);
    MixSelf(S.func, all);
    assert c.store == Mix(S.func, all, all);
    forall s ensures SemaValue(c.semas, s) == 0 {
      BalancedSemas(S.gs, S.func, S.w, S.sema, s);
      assert SemaValue(c.semas, s) == CountRel(TP(S)[..i], s) - CountAcq(TC(S)[..j], s);
      hide Threads, Good, Finished;
    }
  }

  /** Whatever the interleaving, a run that is over has computed what the sequential body computes, and
      every semaphore is back at zero. */
  lemma ForkedRunIsSequential(body: Stmt, func: string, env: Env, store: Store, run: seq<Config>)
    requires Forkable(body, func, env, store)
    requires IsRun(run, Forked(body, func, env, store)) && Finished(Last(run))
    ensures Last(run).store == Run(body, env, store)
    ensures forall s :: SemaValue(Last(run).semas, s) == 0
  {
    var S, total := ForkStarts(body, func, env, store);
    var t := SequentialTrace(body, func, env, store);
    RunIsTrace(Watch(func, Provided(body)), body, false, env, store);
    ThinDo(t, TB(S), store);
    RunKeeps(S, run, Forked(body, func, env, store), total);
    FinalStore(S, Last(run), total - (|run| - 1));
  }

  lemma {:induction false} AcquiresInVector(gs: seq<Seg>, func: string, w: set<string>, sema: seq<Sema>)
    requires SegsOk(gs, func, w, sema)
    ensures forall a | a in ConsumerTrace(gs) && a.Acq? :: a.sema in sema
    decreases |gs|
  {
    if gs != [] {
      var g := gs[0];
      assert g in gs;
      AcquiresInVector(gs[1..], func, w, sema);
      forall a | a in ConsumerActs(g) && a.Acq? ensures a.sema in sema {
        var k :| 0 <= k < |ConsumerActs(g)| && ConsumerActs(g)[k] == a;
        AcqIn(ConsumerActs(g), k);
        ReverseElements(sema, a.sema);
      }
    }
  }

  lemma ProducerCanMove(S: Setup, c: Config, i: nat, j: nat, m: nat, p: nat, q: nat)
    requires Good(S) && Inv(S, c, i, j, m) && Threads(S, c, i, j, p, q) && c.prod != []
    ensures exists c' :: Next(c, c')
  {
    var used := ProducerNext(S, c, i, j, m, p, q);
    var (top, acts) := Advance(c.prod[0], c.store);
    var rest := top + c.prod[1..];
    if acts == [] {
      var c' := c.(prod := rest);
      assert ProducerStep(c, c') && Next(c, c');
    } else {
      TraceActs(S.gs, S.func, S.w, S.sema);
      assert acts[0] in TP(S);
      var c' := Config(rest, c.cons, Do(acts[0], c.store), DoSema(acts[0], c.semas), c.log + [acts[0]]);
      assert ProducerStep(c, c') && Next(c, c');
    }
  }

  /** Once the producer is done, whatever the consumer wants to acquire has been released. */
  lemma ReleasedInTheEnd(S: Setup, c: Config, i: nat, j: nat)
    requires Good(S) && i == |TP(S)| && j <= |TC(S)| && Semaphores(S, c, i, j)
    requires j < |TC(S)| && TC(S)[j].Acq?
    ensures SemaValue(c.semas, TC(S)[j].sema) >= 1
  {
    var s := TC(S)[j].sema;
    assert TP(S)[..i] == TP(S);
    assert TC(S)[j] in TC(S);
    AcquiresInVector(S.gs, S.func, S.w, S.sema);
    BalancedSemas(S.gs, S.func, S.w, S.sema, s);
    Snoc(TC(S), j, S.func);
    CountPrefix(TC(S), j + 1, s);
    assert SemaValue(c.semas, s) == CountRel(TP(S)[..i], s) - CountAcq(TC(S)[..j], s);
  }

  lemma ConsumerCanMove(S: Setup, c: Config, i: nat, j: nat, m: nat, p: nat, q: nat)
    requires Good(S) && Inv(S, c, i, j, m) && Threads(S, c, i, j, p, q) && c.prod == [] && c.cons != []
    ensures exists c' :: Next(c, c')
  {
    var used := ConsumerNext(S, c, i, j, m, p, q);
    var (top, acts) := Advance(c.cons[0], c.store);
    var rest := top + c.cons[1..];
    if acts == [] {
      var c' := c.(cons := rest);
      assert ConsumerStep(c, c') && Next(c, c');
    } else {
      TraceActs(S.gs, S.func, S.w, S.sema);
      assert acts[0] in TC(S);
      FollowsEnd(S.w, S.start, c.prod, TP(S)[i..], p);
      if acts[0].Acq? {
        ReleasedInTheEnd(S, c, i, j);
      }
      var c' := Config(c.prod, rest, Do(acts[0], c.store), DoSema(acts[0], c.semas), c.log + [acts[0]]);
      assert ConsumerStep(c, c') && Next(c, c');
    }
  }

  /** No reachable state is stuck. */
  lemma ForkedNeverDeadlocks(body: Stmt, func: string, env: Env, store: Store, run: seq<Config>)
    requires Forkable(body, func, env, store)
    requires IsRun(run, Forked(body, func, env, store)) && !Finished(Last(run))
    ensures exists c :: Next(Last(run), c)
  {
    var S, total := ForkStarts(body, func, env, store);
    RunKeeps(S, run, Forked(body, func, env, store), total);
    var i: nat, j: nat, m: nat, p: nat, q: nat :| Inv(S, Last(run), i, j, m) && Threads(S, Last(run), i, j, p, q);
    if Last(run).prod != [] {
      ProducerCanMove(S, Last(run), i, j, m, p, q);
    } else {
      ConsumerCanMove(S, Last(run), i, j, m, p, q);
    }
  }

  /** Every run from this state makes at most `total` steps, and is over exactly when it has made them. */
  ghost predicate TakesExactly(start: Config, total: nat) {
    forall run | IsRun(run, start) :: |run| - 1 <= total && (Finished(Last(run)) <==> |run| - 1 == total)
  }

  /** Every run stops: all interleavings take the same number of steps. */
  lemma ForkedAlwaysStops(body: Stmt, func: string, env: Env, store: Store)
    requires Forkable(body, func, env, store)
    ensures exists total :: TakesExactly(Forked(body, func, env, store), total)
  {
    var S, total := ForkStarts(body, func, env, store);
    var start := Forked(body, func, env, store);
    forall run | IsRun(run, start)
      ensures |run| - 1 <= total && (Finished(Last(run)) <==> |run| - 1 == total)
    {
      RunKeeps(S, run, start, total);
      EndsWithNothingLeft(S, Last(run), total - (|run| - 1));
    }
    assert TakesExactly(start, total);
  }

  lemma EndsWithNothingLeft(S: Setup, c: Config, left: nat)
    requires Reached(S, c, left)
    ensures Finished(c) <==> left == 0
  {
    var i: nat, j: nat, m: nat, p: nat, q: nat :| Inv(S, c, i, j, m) && Threads(S, c, i, j, p, q) && left == p + q;
    FollowsEnd(S.w, S.start, c.prod, TP(S)[i..], p);
    FollowsEnd(S.w, S.start, c.cons, TC(S)[j..], q);
  }

  // ----- order -----

  lemma LogOrder(S: Setup, c: Config, i: nat, j: nat)
    requires Good(S) && i <= |TP(S)| && j <= |TC(S)| && Logged(S, c, i, j)
    ensures Writes(c.log, S.func, true) <= Writes(TB(S), S.func, true)
    ensures Writes(c.log, S.func, false) <= Writes(TB(S), S.func, false)
  {
    CopiesPartition(S.gs, S.func, S.w, S.sema);
    InOrder(c.log, TP(S), i, TB(S), S.func, true);
    InOrder(c.log, TC(S), j, TB(S), S.func, false);
  }

  lemma InOrder(log: seq<Act>, t: seq<Act>, i: nat, tb: seq<Act>, func: string, own: bool)
    requires i <= |t| && Writes(log, func, own) == Writes(t[..i], func, own)
    requires Items(t, func, own) == Items(tb, func, own)
    ensures Writes(log, func, own) <= Writes(tb, func, own)
  {
    WritesPrefix(t[..i], t, func, own);
    WritesFollowItems(t, tb, func, own);
    PrefixTrans(Writes(log, func, own), Writes(t, func, own), Writes(tb, func, own));
  }

  lemma EnteredIsWritten(S: Setup, c: Config, i: nat, j: nat, s: Sema)
    requires Good(S) && i <= |TP(S)| && j <= |TC(S)| && Logged(S, c, i, j) && Semaphores(S, c, i, j)
    ensures CountAcq(c.log, s) <= CountRel(c.log, s)
    ensures s in S.sema ==>
              Writes(FirstRuns(Instances(S.gs), CountAcq(c.log, s)), S.func, true) <= Writes(c.log, S.func, true)
  {
    var acq, rel := CountAcq(c.log, s), CountRel(c.log, s);
    assert SemaValue(c.semas, s) == CountRel(TP(S)[..i], s) - CountAcq(TC(S)[..j], s) >= 0;
    assert rel == CountRel(TP(S)[..i], s) && acq == CountAcq(TC(S)[..j], s);
    if s in S.sema {
      ReleasedIsWritten(S.gs, S.func, S.w, S.sema, i, s);
      FirstRunsMonotone(Instances(S.gs), acq, rel);
      Written(FirstRuns(Instances(S.gs), acq), FirstRuns(Instances(S.gs), rel), TP(S)[..i], c.log, S.func);
    }
  }

  lemma Written(a: seq<Act>, b: seq<Act>, t: seq<Act>, log: seq<Act>, func: string)
    requires a <= b <= Items(t, func, true) && Writes(log, func, true) == Writes(t, func, true)
    ensures Writes(a, func, true) <= Writes(log, func, true)
  {
    PrefixTrans(a, b, Items(t, func, true));
    WritesPrefix(a, Items(t, func, true), func, true);
    WritesOfItems(t, func, true);
  }

  /** In every reachable state: a semaphore is acquired no more often than released; when a consume
      node has been entered `k` times, the first `k` executions of the produce node have made all
      their stores; and each thread makes its stores in the order of the sequential run. */
  lemma ConsumeFollowsProduce(body: Stmt, func: string, env: Env, store: Store, run: seq<Config>, s: Sema)
    requires Forkable(body, func, env, store)
    requires IsRun(run, Forked(body, func, env, store))
    ensures var log, t := Last(run).log, SequentialTrace(body, func, env, store);
            var runs := ProduceRuns(Watch(func, Provided(body)), body, env, store);
            && CountAcq(log, s) <= CountRel(log, s)
            && (s in Semas(func, ConsumeCount(body, func)) ==>
                  Writes(FirstRuns(runs, CountAcq(log, s)), func, true) <= Writes(log, func, true))
            && Writes(log, func, true) <= Writes(t, func, true)
            && Writes(log, func, false) <= Writes(t, func, false)
  {
    var S, total := ForkStarts(body, func, env, store);
    RunKeeps(S, run, Forked(body, func, env, store), total);
    var i: nat, j: nat, m: nat, p: nat, q: nat :| Inv(S, Last(run), i, j, m) && Threads(S, Last(run), i, j, p, q);
    LogOrder(S, Last(run), i, j);
    EnteredIsWritten(S, Last(run), i, j, s);
    ThinWrites(SequentialTrace(body, func, env, store), TB(S), func, true);
    ThinWrites(SequentialTrace(body, func, env, store), TB(S), func, false);
  }

  // ----- a sufficient condition on the sequential run -----

  function Target(a: Act, store: Store): Cell
    requires a.Write?
  {
    (a.func, Eval(a.index, map[], store))
  }

  /** Two stores to the function with a store or a test of something else between them, so in different
      executions of its produce node, go to different cells, or the second one rewrites the value it
      finds. */
  ghost predicate DisjointInstances(t: seq<Act>, func: string, store: Store) {
    forall p, m, q | 0 <= p < m < q < |t| && t[p].Write? && IsItem(t[m], func, false) && t[q].Write?
                     && t[p].func == func && t[q].func == func ::
      Target(t[p], At(t, p, store)) == Target(t[q], At(t, q, store)) ==>
        Eval(t[q].value, map[], At(t, q, store)) == Get(At(t, q, store), Target(t[q], At(t, q, store)))
  }

  /** What is read of the function was written before. */
  ghost predicate ReadsProduced(t: seq<Act>, func: string, store: Store) {
    forall m, c | 0 <= m < |t| && IsItem(t[m], func, false) && c in ActReads(t[m], At(t, m, store)) && c.0 == func ::
      exists p :: 0 <= p < m && t[p].Write? && t[p].func == func && Target(t[p], At(t, p, store)) == c
  }

  lemma {:induction false} DisjointKeeps(t: seq<Act>, func: string, store: Store, p: nat, m: nat, n: nat, c: Cell)
    requires DisjointInstances(t, func, store)
    requires p < m < |t| && m <= n <= |t| && c.0 == func
    requires t[p].Write? && t[p].func == func && Target(t[p], At(t, p, store)) == c
    requires IsItem(t[m], func, false)
    ensures Get(At(t, n, store), c) == Get(At(t, m, store), c)
    decreases n
  {
    if m < n {
      DisjointKeeps(t, func, store, p, m, n - 1, c);
      DoAllSnoc(t, n - 1, store);
    }
  }

  /** Produce instances that write disjoint cells, or the same values, and consumes that read what was
      produced, leave consumed cells alone. */
  lemma DisjointIsUndisturbed(t: seq<Act>, func: string, store: Store)
    requires DisjointInstances(t, func, store) && ReadsProduced(t, func, store)
    ensures Undisturbed(t, func, store)
  {
    forall m, n, c | 0 <= m <= n <= |t| && m < |t| && IsItem(t[m], func, false)
                     && c in ActReads(t[m], At(t, m, store)) && c.0 == func
      ensures Get(At(t, n, store), c) == Get(At(t, m, store), c)
    {
      var p :| 0 <= p < m && t[p].Write? && t[p].func == func && Target(t[p], At(t, p, store)) == c;
      DisjointKeeps(t, func, store, p, m, n, c);
    }
  }
}
