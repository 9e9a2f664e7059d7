/** One produce node under a condition, behind any stores: exactly when forking it can leave the consumer waiting. */
module AsyncGuards {
  import opened StmtIR
  import opened AsyncFork
  import opened AsyncShape
  import opened AsyncMachine
  import opened AsyncTheorem

  /** before; if (cond) { produce func { .. } consume func { .. } } */
  datatype Guarded = Guarded(func: string, before: seq<Stmt>, cond: Expr, produce: Stmt, use: Stmt)

  /** Neither the stores nor the condition load the function; it is produced by stores to it only. */
  predicate Proper(g: Guarded) {
    && Plain(g.produce) && Free(g.produce, g.func) && Provided(g.produce) <= {g.func}
    && Plain(g.use) && Free(g.use, g.func)
    && Loads(g.cond) * {g.func} == {}
    && forall s | s in g.before :: StoresOther(s, g.func)
  }

  predicate StoresOther(s: Stmt, func: string) {
    s.Provide? && s.func != func && (Loads(s.index) + Loads(s.value)) * {func} == {}
  }

  function Chain(before: seq<Stmt>, last: Stmt): Stmt {
    if before == [] then last else Block(before[0], Chain(before[1..], last))
  }

  function Round(g: Guarded): Stmt {
    Block(ProducerConsumer(g.func, true, g.produce), ProducerConsumer(g.func, false, g.use))
  }

  function Body(g: Guarded): Stmt {
    Chain(g.before, IfThenElse(g.cond, Round(g), NoOp))
  }

  /** The store after the first `n` stores. */
  function Moment(g: Guarded, n: nat, env: Env, store: Store): Store
    requires n <= |g.before|
  {
    if n == 0 then store else Run(g.before[n - 1], env, Moment(g, n - 1, env, store))
  }

  predicate Taken(g: Guarded, n: nat, env: Env, store: Store)
    requires n <= |g.before|
  {
    Eval(g.cond, env, Moment(g, n, env, store)) != 0
  }

  /** The condition holds after all the stores, but not at every moment before. */
  ghost predicate Wavers(g: Guarded, env: Env, store: Store) {
    Taken(g, |g.before|, env, store) && exists n: nat | n <= |g.before| :: !Taken(g, n, env, store)
  }

  // ----- the two copies -----

  function TheSema(g: Guarded): Sema {
    Sema(g.func, 0)
  }

  function Produced(g: Guarded): Stmt {
    ProducerConsumer(g.func, true, MakeBlock(g.produce, Release(TheSema(g), Const(1))))
  }

  function Waiting(g: Guarded): Stmt {
    Acquire(TheSema(g), Const(1), ProducerConsumer(g.func, false, g.use))
  }

  function ProducerCopy(g: Guarded): Stmt {
    IfThenElse(g.cond, Produced(g), NoOp)
  }

  function ConsumerTest(g: Guarded): Stmt {
    IfThenElse(g.cond, Waiting(g), NoOp)
  }

  lemma TestCopies(g: Guarded)
    requires Proper(g)
    ensures var s, semas := IfThenElse(g.cond, Round(g), NoOp), [TheSema(g)];
            && Plain(s) && ConsumeCount(s, g.func) == 1
            && Producer(s, g.func, semas) == Done(ProducerCopy(g), [])
            && Consumer(s, g.func, semas) == (ConsumerTest(g), [])
  {
    var semas := [TheSema(g)];
    assert semas[|semas| - 1] == TheSema(g) && semas[..|semas| - 1] == [];
    FreeCounts(g.produce, g.func);
    FreeCounts(g.use, g.func);
    ProducerVanishes(g.use, g.func, []);
    var released := MakeBlock(g.produce, Release(TheSema(g), Const(1)));
    assert AddReleases(released, []) == released && AddReleases(g.produce, semas) == released;
    var make, use := ProducerConsumer(g.func, true, g.produce), ProducerConsumer(g.func, false, g.use);
    assert Producer(make, g.func, semas) == Done(Produced(g), []);
    assert Producer(use, g.func, []) == Done(NoOp, []);
    assert Producer(Round(g), g.func, semas) == Done(Produced(g), []);
    assert Consumer(make, g.func, semas) == (NoOp, semas);
    assert Consumer(use, g.func, semas) == (Waiting(g), []);
    assert Consumer(Round(g), g.func, semas) == (Waiting(g), []);
  }

  lemma {:induction false} ChainCopies(before: seq<Stmt>, s: Stmt, func: string, semas: seq<Sema>)
    requires Plain(s) && ConsumeCount(s, func) <= |semas| && Producer(s, func, semas).Done?
    requires !IsNoOp(Consumer(s, func, semas).0)
    requires forall b | b in before :: b.Provide?
    ensures Plain(Chain(before, s)) && ConsumeCount(Chain(before, s), func) == ConsumeCount(s, func)
    ensures Producer(Chain(before, s), func, semas) == Producer(s, func, semas)
    ensures Consumer(Chain(before, s), func, semas).0 == Chain(before, Consumer(s, func, semas).0)
    ensures !IsNoOp(Consumer(Chain(before, s), func, semas).0)
    decreases |before|
  {
    if before != [] {
      ChainCopies(before[1..], s, func, semas);
      assert Producer(before[0], func, semas) == Done(NoOp, semas);
      assert Consumer(before[0], func, semas) == (before[0], semas);
    }
  }

  lemma BodyForks(g: Guarded, env: Env, store: Store)
    requires Proper(g)
    ensures Plain(Body(g)) && ForkSides(Body(g), g.func).Sides?
    ensures Forked(Body(g), g.func, env, store)
            == Start(ProducerCopy(g), Chain(g.before, ConsumerTest(g)), env, store)
  {
    assert Semas(g.func, 1) == [TheSema(g)];
    TestCopies(g);
    ChainCopies(g.before, IfThenElse(g.cond, Round(g), NoOp), g.func, [TheSema(g)]);
    hide Producer, Consumer, ConsumeCount, Plain;
  }

  // ----- where the two threads are -----

  datatype Maker = Undecided | Making | Made | Refused
  datatype User = Storing(k: nat) | Half(k: nat) | Waits | Skips | Uses

  predicate Quiet(s: Stmt, g: Guarded) {
    Plain(s) && Provided(s) <= {g.func}
  }

  /** What is left of a produce node up to its release. */
  predicate Releases(s: Stmt, g: Guarded) {
    match s
    case Release(sema, n) => sema == TheSema(g) && n == Const(1)
    case Block(a, b) => Quiet(a, g) && Releases(b, g)
    case ProducerConsumer(_, _, b) => Releases(b, g)
    case _ => false
  }

  predicate MakerAt(g: Guarded, env: Env, m: Maker, stack: Stack) {
    match m
    case Undecided => stack == [Task(ProducerCopy(g), env)]
    case Making =>
      && stack != [] && Releases(stack[|stack| - 1].s, g)
      && forall i | 0 <= i < |stack| - 1 :: Quiet(stack[i].s, g)
    case Made => stack == []
    case Refused => stack == [] || stack == [Task(NoOp, env)]
  }

  predicate UserAt(g: Guarded, env: Env, u: User, stack: Stack) {
    match u
    case Storing(k) => k <= |g.before| && stack == [Task(Chain(g.before[k..], ConsumerTest(g)), env)]
    case Half(k) =>
      && k < |g.before|
      && stack == [Task(g.before[k], env), Task(Chain(g.before[k + 1..], ConsumerTest(g)), env)]
    case Waits => stack == [Task(Waiting(g), env)]
    case Skips => stack == [] || stack == [Task(NoOp, env)]
    case Uses => forall t | t in stack :: Plain(t.s)
  }

  function StoresDone(g: Guarded, u: User): nat {
    if u.Storing? || u.Half? then u.k else |g.before|
  }

  /** What is known of a state of the two threads that started in `store`. */
  ghost predicate Inv(g: Guarded, env: Env, store: Store, c: Config, m: Maker, u: User) {
    && MakerAt(g, env, m, c.prod) && UserAt(g, env, u, c.cons)
    && SemaValue(c.semas, TheSema(g)) == (if m.Made? then 1 else 0) - (if u.Uses? then 1 else 0)
    && (u.Uses? ==> m.Made?)
    && (!u.Uses? ==> AgreeOutside({g.func}, c.store, Moment(g, StoresDone(g, u), env, store)))
    && (m.Refused? ==> exists n: nat | n <= |g.before| :: !Taken(g, n, env, store))
    && (u.Waits? ==> Taken(g, |g.before|, env, store))
  }

  /** The state after a step of a thread that performs these actions. */
  function After(c: Config, acts: seq<Act>): Config {
    if acts == [] then c
    else c.(store := Do(acts[0], c.store), semas := DoSema(acts[0], c.semas), log := c.log + [acts[0]])
  }

  // ----- steps of the producer -----

  lemma QuietStep(g: Guarded, t: Task, store: Store)
    requires Quiet(t.s, g)
    ensures var (top, acts) := Advance(t, store);
            && (forall i | 0 <= i < |top| :: Quiet(top[i].s, g))
            && (acts == [] || (acts[0].Write? && acts[0].func == g.func))
  {
  }

  lemma {:induction false} MakeBlockReleases(g: Guarded, s: Stmt)
    requires Quiet(s, g)
    ensures Releases(MakeBlock(s, Release(TheSema(g), Const(1))), g)
  {
    if s.Block? {
      MakeBlockReleases(g, s.rest);
    }
  }

  lemma ReleasesStep(g: Guarded, t: Task, store: Store)
    requires Releases(t.s, g)
    ensures var (top, acts) := Advance(t, store);
            && (t.s.Release? ==> top == [] && acts == [Rel(TheSema(g), 1)])
            && (!t.s.Release? ==> acts == [] && MakerAt(g, t.env, Making, top))
  {
  }

  /** A store to the function does not concern what was stored before. */
  lemma WriteAside(func: string, a: Act, store: Store, other: Store)
    requires a.Write? && a.func == func && AgreeOutside({func}, store, other)
    ensures AgreeOutside({func}, Do(a, store), other)
  {
    forall c | Outside(c, {func}) ensures Get(Do(a, store), c) == Get(other, c) {
      assert Get(store, c) == Get(other, c);
    }
  }

  lemma MakerDecides(g: Guarded, env: Env, store: Store, c: Config, u: User) returns (c': Config, m': Maker)
    requires Proper(g) && Inv(g, env, store, c, Undecided, u)
    ensures ProducerStep(c, c') && Inv(g, env, store, c', m', u)
    ensures m' == if Taken(g, StoresDone(g, u), env, store) then Making else Refused
  {
    var n := StoresDone(g, u);
    EvalOutside(g.cond, env, {g.func}, c.store, Moment(g, n, env, store));
    var t := c.prod[0];
    assert c.prod[1..] == [];
    c' := c.(prod := Advance(t, c.store).0);
    assert c'.prod == [Task(if Taken(g, n, env, store) then Produced(g) else NoOp, env)];
    MakeBlockReleases(g, g.produce);
    m' := if Taken(g, n, env, store) then Making else Refused;
    hide Eval, Moment, AgreeOutside, Chain, UserAt;
  }

  lemma MakerMakes(g: Guarded, env: Env, store: Store, c: Config, u: User) returns (c': Config, m': Maker)
    requires Proper(g) && Inv(g, env, store, c, Making, u)
    ensures ProducerStep(c, c') && Inv(g, env, store, c', m', u)
  {
    var t := c.prod[0];
    var (top, acts) := Advance(t, c.store);
    c' := After(c, acts).(prod := top + c.prod[1..]);
    hide Advance, UserAt, Moment, Taken;
    if |c.prod| == 1 {
      ReleasesStep(g, t, c.store);
      assert c'.prod == top;
      m' := if t.s.Release? then Made else Making;
    } else {
      QuietStep(g, t, c.store);
      m' := Making;
      if acts != [] && !u.Uses? {
        WriteAside(g.func, acts[0], c.store, Moment(g, StoresDone(g, u), env, store));
      }
      hide Do, AgreeOutside;
    }
  }

  /** As long as the producer is not done it can move. */
  lemma MakerMoves(g: Guarded, env: Env, store: Store, c: Config, m: Maker, u: User) returns (c': Config, m': Maker)
    requires Proper(g) && Inv(g, env, store, c, m, u) && c.prod != []
    ensures ProducerStep(c, c') && Inv(g, env, store, c', m', u)
    ensures m.Refused? ==> m'.Refused? && c'.prod == []
    ensures m.Undecided? ==> m' == if Taken(g, StoresDone(g, u), env, store) then Making else Refused
  {
    match m
    case Undecided => c', m' := MakerDecides(g, env, store, c, u);
    case Making => c', m' := MakerMakes(g, env, store, c, u);
    case Refused =>
      c', m' := c.(prod := []), Refused;
      assert Advance(c.prod[0], c.store) == ([], []) && c.prod[1..] == [];
      hide UserAt, Moment, Taken, AgreeOutside;
  }

  // ----- steps of the consumer -----

  lemma Stored(g: Guarded, env: Env, store: Store, k: nat, now: Store)
    requires Proper(g) && k < |g.before| && AgreeOutside({g.func}, now, Moment(g, k, env, store))
    ensures var acts := Advance(Task(g.before[k], env), now).1;
            |acts| == 1 && acts[0].Write? && AgreeOutside({g.func}, Do(acts[0], now), Moment(g, k + 1, env, store))
  {
    var s, was := g.before[k], Moment(g, k, env, store);
    assert s in g.before && StoresOther(s, g.func);
    EvalOutside(s.index, env, {g.func}, now, was);
    EvalOutside(s.value, env, {g.func}, now, was);
    CloseMeans(s.index, env, now);
    CloseMeans(s.value, env, now);
    var acts := Advance(Task(s, env), now).1;
    forall c | Outside(c, {g.func}) ensures Get(Do(acts[0], now), c) == Get(Moment(g, k + 1, env, store), c) {
      assert Get(now, c) == Get(was, c);
    }
  }

  lemma UserStores(g: Guarded, env: Env, store: Store, c: Config, m: Maker, u: User) returns (c': Config, u': User)
    requires Proper(g) && Inv(g, env, store, c, m, u) && (u.Half? || (u.Storing? && u.k < |g.before|))
    ensures ConsumerStep(c, c') && Inv(g, env, store, c', m, u') && c'.prod == c.prod
    ensures u' == if u.Half? then Storing(u.k + 1) else Half(u.k)
  {
    var t := c.cons[0];
    var (top, acts) := Advance(t, c.store);
    c' := After(c, acts).(cons := top + c.cons[1..]);
    u' := if u.Half? then Storing(u.k + 1) else Half(u.k);
    if u.Half? {
      Stored(g, env, store, u.k, c.store);
      assert c'.cons == c.cons[1..];
    } else {
      assert g.before[u.k..][0] == g.before[u.k] && g.before[u.k..][1..] == g.before[u.k + 1..];
      assert c.cons[1..] == [] && acts == [];
      assert c'.cons == top;
    }
    hide Moment, Taken, Do, AgreeOutside, MakerAt;
  }

  lemma UserDecides(g: Guarded, env: Env, store: Store, c: Config, m: Maker, u: User) returns (c': Config, u': User)
    requires Proper(g) && Inv(g, env, store, c, m, u) && u == Storing(|g.before|)
    ensures ConsumerStep(c, c') && Inv(g, env, store, c', m, u') && c'.prod == c.prod
    ensures u' == if Taken(g, |g.before|, env, store) then Waits else Skips
  {
    EvalOutside(g.cond, env, {g.func}, c.store, Moment(g, |g.before|, env, store));
    assert g.before[u.k..] == [] && c.cons == [Task(ConsumerTest(g), env)] && c.cons[1..] == [];
    c' := c.(cons := Advance(c.cons[0], c.store).0);
    assert c'.cons == [Task(if Taken(g, |g.before|, env, store) then Waiting(g) else NoOp, env)];
    u' := if Taken(g, |g.before|, env, store) then Waits else Skips;
    hide Eval, Moment, AgreeOutside, MakerAt;
  }

  lemma UserUses(g: Guarded, env: Env, store: Store, c: Config, m: Maker, u: User) returns (c': Config, u': User)
    requires Proper(g) && Inv(g, env, store, c, m, u) && c.cons != []
    requires u.Skips? || u.Uses? || (u.Waits? && m.Made?)
    ensures ConsumerStep(c, c') && Inv(g, env, store, c', m, u') && c'.prod == c.prod
  {
    var t := c.cons[0];
    var (top, acts) := Advance(t, c.store);
    c' := After(c, acts).(cons := top + c.cons[1..]);
    hide Moment, Taken, MakerAt, AgreeOutside, Do;
    match u
    case Skips =>
      u' := Skips;
      assert c'.cons == [];
    case Waits =>
      u' := Uses;
      assert Eval(Const(1), env, c.store) == 1 && acts == [Acq(TheSema(g), 1)];
      assert c'.cons == [Task(ProducerConsumer(g.func, false, g.use), env)];
    case Uses =>
      u' := Uses;
      PlainStep(t, c.store);
      assert forall t' | t' in c'.cons :: t' in top || t' in c.cons;
  }

  lemma PlainStep(t: Task, store: Store)
    requires Plain(t.s)
    ensures var (top, acts) := Advance(t, store);
            (forall t' | t' in top :: Plain(t'.s)) && (acts == [] || acts[0].Write?)
  {
  }

  /** The consumer can move unless it waits for a release that has not come. */
  lemma UserMoves(g: Guarded, env: Env, store: Store, c: Config, m: Maker, u: User) returns (c': Config, u': User)
    requires Proper(g) && Inv(g, env, store, c, m, u) && c.cons != [] && (u.Waits? ==> m.Made?)
    ensures ConsumerStep(c, c') && Inv(g, env, store, c', m, u')
  {
    assert u.Storing? ==> u.k <= |g.before|;
    hide Inv;
    if u.Half? || (u.Storing? && u.k < |g.before|) {
      c', u' := UserStores(g, env, store, c, m, u);
    } else if u.Storing? {
      assert u == Storing(|g.before|);
      c', u' := UserDecides(g, env, store, c, m, u);
    } else {
      c', u' := UserUses(g, env, store, c, m, u);
    }
  }

  // ----- every reachable state is known -----

  /** The state cannot be left although the threads are not done. */
  ghost predicate DeadEnd(c: Config) {
    !Finished(c) && forall c' :: !Next(c, c')
  }

  lemma OneProducerStep(c: Config, c': Config, c'': Config)
    requires ProducerStep(c, c') && ProducerStep(c, c'')
    ensures c' == c''
  {
  }

  lemma OneConsumerStep(c: Config, c': Config, c'': Config)
    requires ConsumerStep(c, c') && ConsumerStep(c, c'')
    ensures c' == c''
  {
  }

  /** A consumer that waits for what was not released has no step. */
  lemma WaitingIsStuck(g: Guarded, env: Env, store: Store, c: Config, c': Config, m: Maker)
    requires Inv(g, env, store, c, m, Waits) && !m.Made?
    ensures !ConsumerStep(c, c')
  {
    assert Eval(Const(1), env, c.store) == 1;
    assert Advance(c.cons[0], c.store).1 == [Acq(TheSema(g), 1)];
    hide Moment, Taken, AgreeOutside, MakerAt;
  }

  lemma StepKeeps(g: Guarded, env: Env, store: Store, c: Config, m: Maker, u: User, c': Config)
    returns (m': Maker, u': User)
    requires Proper(g) && Inv(g, env, store, c, m, u) && Next(c, c')
    ensures Inv(g, env, store, c', m', u')
  {
    m', u' := m, u;
    var next: Config;
    if ProducerStep(c, c') {
      next, m' := MakerMoves(g, env, store, c, m, u);
      hide ProducerStep, Inv;
      OneProducerStep(c, c', next);
    } else {
      if u.Waits? && !m.Made? {
        WaitingIsStuck(g, env, store, c, c', m);
      } else {
        next, u' := UserMoves(g, env, store, c, m, u);
        hide ConsumerStep, Inv;
        OneConsumerStep(c, c', next);
      }
    }
  }

  function Begun(g: Guarded, env: Env, store: Store): Config {
    Start(ProducerCopy(g), Chain(g.before, ConsumerTest(g)), env, store)
  }

  lemma StartKnown(g: Guarded, env: Env, store: Store)
    requires Proper(g)
    ensures Inv(g, env, store, Begun(g, env, store), Undecided, Storing(0))
  {
    assert g.before[0..] == g.before;
  }

  lemma {:induction false} RunKnown(g: Guarded, env: Env, store: Store, run: seq<Config>, i: nat)
    returns (m: Maker, u: User)
    requires Proper(g) && IsRun(run, Begun(g, env, store)) && i < |run|
    ensures Inv(g, env, store, run[i], m, u)
    decreases i
  {
    if i == 0 {
      StartKnown(g, env, store);
      m, u := Undecided, Storing(0);
    } else {
      m, u := RunKnown(g, env, store, run, i - 1);
      hide Inv, Next;
      m, u := StepKeeps(g, env, store, run[i - 1], m, u, run[i]);
    }
  }

  /** A run can only stop early where the producer skipped and the consumer waits. */
  lemma DeadEndWavers(g: Guarded, env: Env, store: Store, c: Config, m: Maker, u: User)
    requires Proper(g) && Inv(g, env, store, c, m, u) && DeadEnd(c)
    ensures Wavers(g, env, store)
  {
    if c.prod != [] {
      var c', _ := MakerMoves(g, env, store, c, m, u);
      assert Next(c, c');
    } else if u.Waits? && !m.Made? {
      assert m.Refused?;
    } else {
      var c', _ := UserMoves(g, env, store, c, m, u);
      assert Next(c, c');
    }
  }

  // ----- the run that gets stuck -----

  ghost predicate Reaches(c: Config, c': Config) {
    exists run :: IsRun(run, c) && Last(run) == c'
  }

  lemma ReachesItself(c: Config)
    ensures Reaches(c, c)
  {
    assert IsRun([c], c) && Last([c]) == c;
  }

  lemma ReachesNext(c: Config, c': Config, c'': Config)
    requires Reaches(c, c') && Next(c', c'')
    ensures Reaches(c, c'')
  {
    var run :| IsRun(run, c) && Last(run) == c';
    hide Next;
    assert IsRun(run + [c''], c) && Last(run + [c'']) == c'';
  }

  /** The consumer can go on storing. */
  lemma {:induction false} GoOnStoring(g: Guarded, env: Env, store: Store, start: Config, c: Config, m: Maker, k: nat,
                                       n: nat) returns (c': Config)
    requires Proper(g) && Inv(g, env, store, c, m, Storing(k)) && Reaches(start, c) && k <= n <= |g.before|
    ensures Inv(g, env, store, c', m, Storing(n)) && Reaches(start, c') && c'.prod == c.prod
    decreases n - k
  {
    hide *;
    if k == n {
      c' := c;
    } else {
      var half, u := UserStores(g, env, store, c, m, Storing(k));
      StepReaches(start, c, half);
      var next, u' := UserStores(g, env, store, half, m, u);
      StepReaches(start, half, next);
      c' := GoOnStoring(g, env, store, start, next, m, k + 1, n);
    }
  }

  lemma StepReaches(start: Config, c: Config, c': Config)
    requires Reaches(start, c) && (ProducerStep(c, c') || ConsumerStep(c, c'))
    ensures Reaches(start, c')
  {
    ReachesNext(start, c, c');
  }

  /** The producer looks at a moment at which the condition does not hold, and is done. */
  lemma RefuseAt(g: Guarded, env: Env, store: Store, start: Config, c: Config, n: nat) returns (c': Config)
    requires Proper(g) && Inv(g, env, store, c, Undecided, Storing(n)) && Reaches(start, c)
    requires n <= |g.before| && !Taken(g, n, env, store)
    ensures Inv(g, env, store, c', Refused, Storing(n)) && Reaches(start, c') && c'.prod == []
  {
    assert c.prod != [];
    var c1, m := MakerMoves(g, env, store, c, Undecided, Storing(n));
    StepReaches(start, c, c1);
    hide Reaches, ProducerStep, Taken, Moment;
    if c1.prod == [] {
      c' := c1;
    } else {
      hide Inv;
      var c2, m2 := MakerMoves(g, env, store, c1, m, Storing(n));
      StepReaches(start, c1, c2);
      c' := c2;
    }
  }

  lemma StuckAtTheEnd(g: Guarded, env: Env, store: Store, c: Config)
    requires Inv(g, env, store, c, Refused, Waits) && c.prod == []
    ensures DeadEnd(c)
  {
    assert c.cons != [];
    hide Inv;
    forall c' ensures !Next(c, c') {
      WaitingIsStuck(g, env, store, c, c', Refused);
    }
  }

  lemma WaversGetStuck(g: Guarded, env: Env, store: Store) returns (c: Config)
    requires Proper(g) && Wavers(g, env, store)
    ensures Reaches(Begun(g, env, store), c) && DeadEnd(c)
  {
    var n: nat :| n <= |g.before| && !Taken(g, n, env, store);
    var start := Begun(g, env, store);
    StartKnown(g, env, store);
    ReachesItself(start);
    hide Inv, Reaches, DeadEnd, Taken;
    c := GoOnStoring(g, env, store, start, start, Undecided, 0, n);
    c := RefuseAt(g, env, store, start, c, n);
    c := GoOnStoring(g, env, store, start, c, Refused, n, |g.before|);
    var last, _ := UserDecides(g, env, store, c, Refused, Storing(|g.before|));
    StepReaches(start, c, last);
    c := last;
    StuckAtTheEnd(g, env, store, c);
  }

  /** Some run of the forked body stops before the end with nothing able to move, if and only if the condition holds
      after all the stores but does not hold at some moment before. */
  lemma GuardDeadlocksExactly(g: Guarded, env: Env, store: Store)
    requires Proper(g)
    ensures Plain(Body(g)) && ForkSides(Body(g), g.func).Sides?
    ensures (exists run :: IsRun(run, Forked(Body(g), g.func, env, store)) && DeadEnd(Last(run)))
            <==> Wavers(g, env, store)
  {
    BodyForks(g, env, store);
    hide Plain, ForkSides, Wavers, DeadEnd;
    var start := Forked(Body(g), g.func, env, store);
    assert start == Begun(g, env, store);
    if Wavers(g, env, store) {
      var _ := WaversGetStuck(g, env, store);
    }
    forall run | IsRun(run, start) && DeadEnd(Last(run)) ensures Wavers(g, env, store) {
      var m, u := RunKnown(g, env, store, run, |run| - 1);
      DeadEndWavers(g, env, store, Last(run), m, u);
    }
  }
}
