/** Two threads over one store and a set of semaphores, one atomic step at a time. A thread is a stack
    of statements still to run; loop bounds, let values and conditions are evaluated in the store the
    thread finds when it gets there. */
module AsyncMachine {
  import opened StmtIR

  datatype Task = Task(s: Stmt, env: Env)
  type Stack = seq<Task>

  /** `log` records the actions of both threads in the order in which they happened. */
  datatype Config = Config(prod: Stack, cons: Stack, store: Store, semas: map<Sema, int>, log: seq<Act>)

  function SemaValue(semas: map<Sema, int>, s: Sema): int {
    if s in semas then semas[s] else 0
  }

  /** The control expressions that the next step of a statement evaluates, at most two of them. */
  function Control(s: Stmt): (Expr, Expr) {
    match s
    case For(_, lo, n, _) => (lo, n)
    case LetStmt(_, e, _) => (e, Const(0))
    case IfThenElse(c, _, _) => (c, Const(0))
    case Acquire(_, n, _) => (n, Const(0))
    case Release(_, n) => (n, Const(0))
    case _ => (Const(0), Const(0))
  }

  /** What the top of a stack turns into when its control has the values `x` and `y`, and the action it
      performs, if any. */
  function Unfold(t: Task, x: int, y: int): (Stack, seq<Act>) {
    var env := t.env;
    match t.s
    case NoOp => ([], [])
    case Provide(f, i, v) => ([], [Write(f, Close(i, env), Close(v, env))])
    case Block(a, b) => ([Task(a, env), Task(b, env)], [])
    case For(v, _, _, b) =>
      if y <= 0 then ([], [])
      else ([Task(b, env[v := x]), Task(For(v, Const(x + 1), Const(y - 1), b), env)], [])
    case LetStmt(v, _, b) => ([Task(b, env[v := x])], [])
    case IfThenElse(_, a, b) => ([Task(if x != 0 then a else b, env)], [])
    case ProducerConsumer(_, _, b) => ([Task(b, env)], [])
    case Realize(_, b) => ([Task(b, env)], [])
    case Acquire(sm, _, b) => ([Task(b, env)], [Acq(sm, x)])
    case Release(sm, _) => ([], [Rel(sm, x)])
    case Fork(a, b) => ([Task(a, env), Task(b, env)], [])
  }

  /** One step of the top of a stack: control reads the store the thread finds. */
  function Advance(t: Task, store: Store): (Stack, seq<Act>) {
    var c := Control(t.s);
    Unfold(t, Eval(c.0, t.env, store), Eval(c.1, t.env, store))
  }

  /** Acquiring waits until the semaphore holds enough. */
  predicate Enabled(a: Act, semas: map<Sema, int>) {
    a.Acq? ==> SemaValue(semas, a.sema) >= a.n
  }

  function DoSema(a: Act, semas: map<Sema, int>): map<Sema, int> {
    match a
    case Write(_, _, _) => semas
    case Acq(s, n) => semas[s := SemaValue(semas, s) - n]
    case Rel(s, n) => semas[s := SemaValue(semas, s) + n]
    case Test(_, _, _, _, _) => semas
  }

  /** One step of one thread, seen from the rest of the machine. */
  predicate Effect(acts: seq<Act>, c: Config, c': Config) {
    if acts == [] then c'.store == c.store && c'.semas == c.semas && c'.log == c.log
    else
      && Enabled(acts[0], c.semas)
      && c'.store == Do(acts[0], c.store)
      && c'.semas == DoSema(acts[0], c.semas)
      && c'.log == c.log + [acts[0]]
  }

  predicate ProducerStep(c: Config, c': Config) {
    && c.prod != []
    && c'.cons == c.cons
    && var (top, acts) := Advance(c.prod[0], c.store);
       c'.prod == top + c.prod[1..] && Effect(acts, c, c')
  }

  predicate ConsumerStep(c: Config, c': Config) {
    && c.cons != []
    && c'.prod == c.prod
    && var (top, acts) := Advance(c.cons[0], c.store);
       c'.cons == top + c.cons[1..] && Effect(acts, c, c')
  }

  predicate Next(c: Config, c': Config) {
    ProducerStep(c, c') || ConsumerStep(c, c')
  }

  predicate Finished(c: Config) {
    c.prod == [] && c.cons == []
  }

  /** All semaphores start at zero. */
  function Start(producer: Stmt, consumer: Stmt, env: Env, store: Store): Config {
    Config([Task(producer, env)], [Task(consumer, env)], store, map[], [])
  }

  /** A run: any interleaving of the two threads. */
  ghost predicate IsRun(run: seq<Config>, start: Config) {
    && run != [] && run[0] == start
    && forall i | 0 < i < |run| :: Next(run[i - 1], run[i])
  }

  function Last(run: seq<Config>): Config
    requires run != []
  {
    run[|run| - 1]
  }

  // ----- what a stack has still to do -----

  /** Does the next step look at anything that changes? */
  predicate Silent(w: set<string>, s: Stmt) {
    (Loads(Control(s).0) + Loads(Control(s).1)) * w == {}
  }

  /** Does the test record an evaluation of the control of this task? Only loops, lets and conditions
      are tested; semaphore counts are constants. */
  predicate TestOf(a: Act, t: Task) {
    (t.s.For? || t.s.LetStmt? || t.s.IfThenElse?) && a.Test? && a.e1 == Close(Control(t.s).0, t.env)
        && a.e2 == Close(Control(t.s).1, t.env)
  }

  /** What a task turns into and the part of `t` that this uses up: a step that looks at nothing that
      changes finds the values of the starting store, any other the values that `t` records next. */
  function Guided(w: set<string>, start: Store, task: Task, t: seq<Act>): (Stack, seq<Act>) {
    if Silent(w, task.s) then Advance(task, start)
    else if t != [] && TestOf(t[0], task) then (Unfold(task, t[0].v1, t[0].v2).0, [t[0]])
    else ([], [Rel(Sema("", 0), 0)] + t)
  }

  /** The stack does exactly `t`, in `n` steps. */
  predicate Follows(w: set<string>, start: Store, st: Stack, t: seq<Act>, n: nat)
    decreases n
  {
    if n == 0 then st == [] && t == []
    else
      && st != []
      && var (top, acts) := Guided(w, start, st[0], t);
         acts <= t && Follows(w, start, top + st[1..], t[|acts|..], n - 1)
  }

  /** A task alone does `t`. */
  ghost predicate Performs(w: set<string>, start: Store, s: Stmt, env: Env, t: seq<Act>) {
    exists n: nat :: Follows(w, start, [Task(s, env)], t, n)
  }

  lemma GuidedMore(w: set<string>, start: Store, task: Task, t: seq<Act>, u: seq<Act>)
    requires Guided(w, start, task, t).1 <= t
    ensures Guided(w, start, task, t + u) == Guided(w, start, task, t)
  {
  }

  lemma FollowsOn(w: set<string>, start: Store, st: Stack, rest: Stack, t: seq<Act>, u: seq<Act>, n: nat,
                  top: Stack, acts: seq<Act>)
    requires st != [] && rest == top + st[1..] && t == acts + u
    requires Guided(w, start, st[0], t) == (top, acts) && Follows(w, start, rest, u, n)
    ensures Follows(w, start, st, t, n + 1)
  {
    assert t[|acts|..] == u;
  }

  lemma FollowsBack(w: set<string>, start: Store, st: Stack, t: seq<Act>, n: nat)
      returns (top: Stack, acts: seq<Act>, u: seq<Act>)
    requires Follows(w, start, st, t, n) && n > 0
    ensures st != [] && Guided(w, start, st[0], t) == (top, acts) && t == acts + u
    ensures Follows(w, start, top + st[1..], u, n - 1)
  {
    var g := Guided(w, start, st[0], t);
    top, acts := g.0, g.1;
    u := t[|acts|..];
  }

  lemma FollowsNothing(w: set<string>, start: Store, st: Stack, t: seq<Act>)
    ensures Follows(w, start, st, t, 0) <==> st == [] && t == []
  {
  }

  lemma Behind(st: Stack, tt: Stack, top: Stack, t: seq<Act>, u: seq<Act>, acts: seq<Act>, t': seq<Act>)
    requires st != [] && t == acts + t'
    ensures (st + tt)[0] == st[0] && (top + st[1..]) + tt == top + (st + tt)[1..]
    ensures t + u == acts + (t' + u) && acts <= t
  {
  }

  /** Stacks one behind the other do one thing after the other. */
  lemma {:induction false} FollowsConcat(w: set<string>, start: Store, st: Stack, t: seq<Act>, n: nat, tt: Stack,
                                         u: seq<Act>, m: nat)
    requires Follows(w, start, st, t, n) && Follows(w, start, tt, u, m)
    ensures Follows(w, start, st + tt, t + u, n + m)
    decreases n
  {
    hide *;
    if n == 0 {
      FollowsNothing(w, start, st, t);
      assert st + tt == tt && t + u == u;
    } else {
      var top, acts, t' := FollowsBack(w, start, st, t, n);
      Behind(st, tt, top, t, u, acts, t');
      GuidedMore(w, start, st[0], t, u);
      FollowsConcat(w, start, top + st[1..], t', n - 1, tt, u, m);
      FollowsOn(w, start, st + tt, (top + st[1..]) + tt, t + u, t' + u, n - 1 + m, top, acts);
    }
  }

  /** The first step of a single task. */
  lemma FirstStep(w: set<string>, start: Store, task: Task, t: seq<Act>, top: Stack, acts: seq<Act>, u: seq<Act>,
                  n: nat)
    requires Guided(w, start, task, t) == (top, acts) && t == acts + u && Follows(w, start, top, u, n)
    ensures Follows(w, start, [task], t, n + 1)
  {
    assert top + [task][1..] == top;
    hide *;
    FollowsOn(w, start, [task], top, t, u, n, top, acts);
  }

  lemma OneThing(w: set<string>, start: Store, a: Task, t: seq<Act>) returns (n: nat)
    requires Performs(w, start, a.s, a.env, t)
    ensures Follows(w, start, [a], t, n)
  {
    n :| Follows(w, start, [Task(a.s, a.env)], t, n);
  }

  lemma TwoThings(w: set<string>, start: Store, a: Task, b: Task, t: seq<Act>, u: seq<Act>) returns (n: nat)
    requires Performs(w, start, a.s, a.env, t) && Performs(w, start, b.s, b.env, u)
    ensures Follows(w, start, [a, b], t + u, n)
  {
    hide *;
    var p := OneThing(w, start, a, t);
    var q := OneThing(w, start, b, u);
    FollowsConcat(w, start, [a], t, p, [b], u, q);
    n := p + q;
    assert [a] + [b] == [a, b];
  }

  // ----- rules for statements -----

  lemma PerformsNothing(w: set<string>, start: Store, env: Env)
    ensures Performs(w, start, NoOp, env, [])
  {
    FirstStep(w, start, Task(NoOp, env), [], [], [], [], 0);
  }

  lemma NothingPerforms(w: set<string>, start: Store, env: Env, t: seq<Act>)
    requires Performs(w, start, NoOp, env, t)
    ensures t == []
  {
    var n :| Follows(w, start, [Task(NoOp, env)], t, n);
    var top, acts, u := FollowsBack(w, start, [Task(NoOp, env)], t, n);
    assert top + [Task(NoOp, env)][1..] == [];
  }

  lemma PerformsPair(w: set<string>, start: Store, a: Stmt, b: Stmt, s: Stmt, env: Env, t: seq<Act>, u: seq<Act>)
    requires s == Block(a, b) || s == Fork(a, b)
    requires Performs(w, start, a, env, t) && Performs(w, start, b, env, u)
    ensures Performs(w, start, s, env, t + u)
  {
    var n := TwoThings(w, start, Task(a, env), Task(b, env), t, u);
    assert t + u == [] + (t + u);
    FirstStep(w, start, Task(s, env), t + u, [Task(a, env), Task(b, env)], [], t + u, n);
  }

  /** A produce or consume node, and a realization, do what their body does. */
  lemma PerformsInside(w: set<string>, start: Store, s: Stmt, env: Env, t: seq<Act>)
    requires s.ProducerConsumer? || s.Realize?
    requires Performs(w, start, s.body, env, t)
    ensures Performs(w, start, s, env, t)
  {
    var n := OneThing(w, start, Task(s.body, env), t);
    assert t == [] + t;
    FirstStep(w, start, Task(s, env), t, [Task(s.body, env)], [], t, n);
  }

  /** The tests at the head of a statement whose control has these values. */
  predicate HeadTests(w: set<string>, start: Store, s: Stmt, env: Env, head: seq<Act>, x: int, y: int) {
    if Silent(w, s) then head == [] && x == Eval(Control(s).0, env, start) && y == Eval(Control(s).1, env, start)
    else |head| == 1 && TestOf(head[0], Task(s, env)) && head[0].v1 == x && head[0].v2 == y
  }

  lemma PerformsHead(w: set<string>, start: Store, s: Stmt, env: Env, head: seq<Act>, x: int, y: int, u: seq<Act>,
                     n: nat)
    requires s.For? || s.LetStmt? || s.IfThenElse?
    requires HeadTests(w, start, s, env, head, x, y)
    requires Follows(w, start, Unfold(Task(s, env), x, y).0, u, n)
    ensures Performs(w, start, s, env, head + u)
  {
    var t := head + u;
    if Silent(w, s) {
      assert t == u;
    } else {
      assert t[0] == head[0] && head == [head[0]];
    }
    FirstStep(w, start, Task(s, env), t, Unfold(Task(s, env), x, y).0, head, u, n);
  }

  lemma PerformsLet(w: set<string>, start: Store, s: Stmt, env: Env, head: seq<Act>, x: int, t: seq<Act>)
    requires s.LetStmt? && HeadTests(w, start, s, env, head, x, 0) && Performs(w, start, s.body, env[s.v := x], t)
    ensures Performs(w, start, s, env, head + t)
  {
    var n := OneThing(w, start, Task(s.body, env[s.v := x]), t);
    PerformsHead(w, start, s, env, head, x, 0, t, n);
  }

  lemma PerformsIf(w: set<string>, start: Store, s: Stmt, env: Env, head: seq<Act>, x: int, t: seq<Act>)
    requires s.IfThenElse? && HeadTests(w, start, s, env, head, x, 0)
    requires Performs(w, start, if x != 0 then s.thenCase else s.elseCase, env, t)
    ensures Performs(w, start, s, env, head + t)
  {
    var n := OneThing(w, start, Task(if x != 0 then s.thenCase else s.elseCase, env), t);
    PerformsHead(w, start, s, env, head, x, 0, t, n);
  }

  /** The traces of the iterations of a loop that starts at `lo`. */
  ghost predicate Iterations(w: set<string>, start: Store, v: string, lo: int, b: Stmt, env: Env, ts: seq<seq<Act>>) {
    forall i | 0 <= i < |ts| :: Performs(w, start, b, env[v := lo + i], ts[i])
  }

  lemma {:induction false} PerformsFor(w: set<string>, start: Store, s: Stmt, env: Env, head: seq<Act>, x: int, y: int,
                                       ts: seq<seq<Act>>)
    requires s.For? && HeadTests(w, start, s, env, head, x, y) && |ts| == Nat(y)
    requires Iterations(w, start, s.v, x, s.body, env, ts)
    ensures Performs(w, start, s, env, head + Flatten(ts))
    decreases |ts|
  {
    if ts == [] {
      PerformsHead(w, start, s, env, head, x, y, [], 0);
    } else {
      var rest, later := For(s.v, Const(x + 1), Const(y - 1), s.body), ts[1..];
      assert Eval(Const(x + 1), env, start) == x + 1 && Eval(Const(y - 1), env, start) == y - 1;
      assert Iterations(w, start, s.v, x + 1, s.body, env, later) by {
        forall i | 0 <= i < |later| ensures Performs(w, start, s.body, env[s.v := x + 1 + i], later[i]) {
          assert later[i] == ts[i + 1] && x + 1 + i == x + (i + 1);
        }
      }
      PerformsFor(w, start, rest, env, [], x + 1, y - 1, later);
      assert [] + Flatten(later) == Flatten(later);
      assert Performs(w, start, s.body, env[s.v := x + 0], ts[0]);
      var n := TwoThings(w, start, Task(s.body, env[s.v := x]), Task(rest, env), ts[0], Flatten(later));
      PerformsHead(w, start, s, env, head, x, y, Flatten(ts), n);
    }
  }

  lemma PerformsAcquire(w: set<string>, start: Store, sm: Sema, c: int, b: Stmt, env: Env, t: seq<Act>)
    requires Performs(w, start, b, env, t)
    ensures Performs(w, start, Acquire(sm, Const(c), b), env, [Acq(sm, c)] + t)
  {
    var n := OneThing(w, start, Task(b, env), t);
    FirstStep(w, start, Task(Acquire(sm, Const(c), b), env), [Acq(sm, c)] + t, [Task(b, env)], [Acq(sm, c)], t, n);
  }

  lemma PerformsRelease(w: set<string>, start: Store, sm: Sema, c: int, env: Env)
    ensures Performs(w, start, Release(sm, Const(c)), env, [Rel(sm, c)])
  {
    var t := [Rel(sm, c)];
    assert t == t + [];
    FirstStep(w, start, Task(Release(sm, Const(c)), env), t, [], t, [], 0);
  }

  lemma PerformsProvide(w: set<string>, start: Store, f: string, i: Expr, v: Expr, env: Env)
    ensures Performs(w, start, Provide(f, i, v), env, [Write(f, Close(i, env), Close(v, env))])
  {
    var t := [Write(f, Close(i, env), Close(v, env))];
    assert t == t + [];
    FirstStep(w, start, Task(Provide(f, i, v), env), t, [], t, [], 0);
  }

  // ----- blocks kept in their canonical nesting -----

  /** Two tasks on a stack may as well be one block of them. */
  lemma {:induction false} Regroup(w: set<string>, start: Store, pre: Stack, a: Stmt, b: Stmt, env: Env, st: Stack,
                                   t: seq<Act>, n: nat)
    requires st == pre + [Task(a, env), Task(b, env)] && Follows(w, start, st, t, n)
    ensures Follows(w, start, pre + [Task(MakeBlock(a, b), env)], t, n + 1)
    decreases n
  {
    var x, y, z := Task(a, env), Task(b, env), Task(MakeBlock(a, b), env);
    MakeBlockSteps(w, start, a, b, env, t);
    hide *;
    FollowsNothing(w, start, st, t);
    assert [] + [z] == [z] && t == [] + t;
    if pre != [] {
      var top, acts, u := FollowsBack(w, start, st, t, n);
      RegroupLater(pre, x, y, top, z);
      Regroup(w, start, top + pre[1..], a, b, env, top + st[1..], u, n - 1);
      FollowsOn(w, start, pre + [z], (top + pre[1..]) + [z], t, u, n, top, acts);
    } else if a.Block? {
      var top, acts, u := FollowsBack(w, start, st, t, n);
      var p, q, z' := Task(a.first, env), Task(a.rest, env), Task(MakeBlock(a.rest, b), env);
      assert st[0] == x && top == [p, q] && acts == [] && u == t;
      assert top + st[1..] == [p] + [q, y];
      Regroup(w, start, [p], a.rest, b, env, [p] + [q, y], t, n - 1);
      assert [p] + [z'] == [p, z'];
      FirstStep(w, start, z, t, [p, z'], [], t, n);
    } else {
      assert st == [x, y];
      FirstStep(w, start, z, t, [x, y], [], t, n);
    }
  }

  lemma MakeBlockSteps(w: set<string>, start: Store, a: Stmt, b: Stmt, env: Env, t: seq<Act>)
    ensures var z := Guided(w, start, Task(MakeBlock(a, b), env), t);
            if a.Block? then
              && z == ([Task(a.first, env), Task(MakeBlock(a.rest, b), env)], [])
              && Guided(w, start, Task(a, env), t) == ([Task(a.first, env), Task(a.rest, env)], [])
            else z == ([Task(a, env), Task(b, env)], [])
  {
  }

  lemma RegroupLater(pre: Stack, x: Task, y: Task, top: Stack, z: Task)
    requires pre != []
    ensures (pre + [x, y])[0] == pre[0] == (pre + [z])[0]
    ensures top + (pre + [x, y])[1..] == (top + pre[1..]) + [x, y]
    ensures top + (pre + [z])[1..] == (top + pre[1..]) + [z]
  {
  }

  lemma PerformsMakeBlock(w: set<string>, start: Store, a: Stmt, b: Stmt, env: Env, t: seq<Act>, u: seq<Act>)
    requires Performs(w, start, a, env, t) && Performs(w, start, b, env, u)
    ensures Performs(w, start, MakeBlock(a, b), env, t + u)
  {
    var x, y := Task(a, env), Task(b, env);
    var n := TwoThings(w, start, x, y, t, u);
    assert [] + [x, y] == [x, y];
    Regroup(w, start, [], a, b, env, [x, y], t + u, n);
    assert [] + [Task(MakeBlock(a, b), env)] == [Task(MakeBlock(a, b), env)];
  }

  // ----- a statement does its trace -----

  /** No fork, and semaphore counts are constants. */
  predicate Simple(s: Stmt) {
    match s
    case NoOp => true
    case Provide(_, _, _) => true
    case Block(a, b) => Simple(a) && Simple(b)
    case For(_, _, _, b) => Simple(b)
    case LetStmt(_, _, b) => Simple(b)
    case IfThenElse(_, t, e) => Simple(t) && Simple(e)
    case ProducerConsumer(_, _, b) => Simple(b)
    case Realize(_, b) => Simple(b)
    case Acquire(_, n, b) => n.Const? && Simple(b)
    case Release(_, n) => n.Const?
    case Fork(_, _) => false
  }

  lemma TestsHead(k: Watch, start: Store, s: Stmt, own: bool, env: Env, store: Store)
    requires s.For? || s.LetStmt? || s.IfThenElse?
    requires AgreeOutside(k.w, store, start)
    ensures var (e1, e2) := Control(s);
            HeadTests(k.w, start, s, env, Tests(k, own, e1, e2, env, store), Eval(e1, env, store), Eval(e2, env, store))
  {
    var (e1, e2) := Control(s);
    if Silent(k.w, s) {
      EvalOutside(e1, env, k.w, store, start);
      EvalOutside(e2, env, k.w, store, start);
    }
  }

  /** Run where the store agrees with the starting store on everything that does not change, a
      statement does its trace. */
  lemma {:induction false} PerformsTrace(k: Watch, start: Store, s: Stmt, own: bool, env: Env, store: Store)
    requires Simple(s) && Provided(s) <= k.w && AgreeOutside(k.w, store, start)
    ensures Performs(k.w, start, s, env, Trace(k, s, own, env, store))
    decreases s, 1
  {
    match s
    case NoOp => PerformsNothing(k.w, start, env);
    case Provide(f, i, v) => PerformsProvide(k.w, start, f, i, v, env);
    case Block(a, b) =>
      PerformsTrace(k, start, a, own, env, store);
      RunStaysInside(a, env, store, k.w);
      PerformsTrace(k, start, b, own, env, Run(a, env, store));
      PerformsPair(k.w, start, a, b, s, env, Trace(k, a, own, env, store), Trace(k, b, own, env, Run(a, env, store)));
    case For(v, lo, n, b) =>
      var l, m := Eval(lo, env, store), Eval(n, env, store);
      TestsHead(k, start, s, own, env, store);
      var ts := PerformsTraceLoop(k, start, b, own, v, l, Nat(m), env, store);
      PerformsFor(k.w, start, s, env, Tests(k, own, lo, n, env, store), l, m, ts);
    case LetStmt(v, e, b) =>
      var x := Eval(e, env, store);
      TestsHead(k, start, s, own, env, store);
      PerformsTrace(k, start, b, own, env[v := x], store);
      PerformsLet(k.w, start, s, env, Tests(k, own, e, Const(0), env, store), x, Trace(k, b, own, env[v := x], store));
    case IfThenElse(c, t, e) =>
      var x := Eval(c, env, store);
      TestsHead(k, start, s, own, env, store);
      PerformsTrace(k, start, t, own, env, store);
      PerformsTrace(k, start, e, own, env, store);
      PerformsIf(k.w, start, s, env, Tests(k, own, c, Const(0), env, store), x,
                 Trace(k, if x != 0 then t else e, own, env, store));
    case ProducerConsumer(f, p, b) =>
      var own' := own || (f == k.func && p);
      PerformsTrace(k, start, b, own', env, store);
      PerformsInside(k.w, start, s, env, Trace(k, b, own', env, store));
    case Realize(_, b) =>
      PerformsTrace(k, start, b, own, env, store);
      PerformsInside(k.w, start, s, env, Trace(k, b, own, env, store));
    case Acquire(sm, n, b) =>
      PerformsTrace(k, start, b, own, env, store);
      PerformsAcquire(k.w, start, sm, n.n, b, env, Trace(k, b, own, env, store));
    case Release(sm, n) => PerformsRelease(k.w, start, sm, n.n, env);
  }

  lemma {:induction false} PerformsTraceLoop(k: Watch, start: Store, b: Stmt, own: bool, v: string, lo: int, n: nat,
                                             env: Env, store: Store)
    returns (ts: seq<seq<Act>>)
    requires Simple(b) && Provided(b) <= k.w && AgreeOutside(k.w, store, start)
    ensures |ts| == n && Flatten(ts) == TraceLoop(k, b, own, v, lo, n, env, store)
    ensures Iterations(k.w, start, v, lo, b, env, ts)
    decreases b, n + 2
  {
    ts := [];
    if n != 0 {
      PerformsTrace(k, start, b, own, env[v := lo], store);
      RunStaysInside(b, env[v := lo], store, k.w);
      var later := PerformsTraceLoop(k, start, b, own, v, lo + 1, n - 1, env, Run(b, env[v := lo], store));
      ts := [Trace(k, b, own, env[v := lo], store)] + later;
      assert ts[1..] == later;
      forall i | 0 <= i < |ts| ensures Performs(k.w, start, b, env[v := lo + i], ts[i]) {
        if i > 0 {
          assert ts[i] == later[i - 1] && lo + i == lo + 1 + (i - 1);
        }
      }
    }
  }

  // ----- the machine follows -----

  /** The next step of a thread is the guided one, if the store agrees with the starting store on what
      does not change and a recorded test still holds. */
  lemma AdvanceFollows(w: set<string>, start: Store, st: Stack, t: seq<Act>, n: nat, store: Store)
    returns (top: Stack, acts: seq<Act>, used: seq<Act>, u: seq<Act>)
    requires Follows(w, start, st, t, n) && st != [] && AgreeOutside(w, store, start)
    requires t != [] && t[0].Test? ==> Holds(t[0], store)
    ensures n > 0 && Advance(st[0], store) == (top, acts)
    ensures t == used + u && |used| <= 1 && Follows(w, start, top + st[1..], u, n - 1)
    ensures acts == used || (acts == [] && used[0].Test?)
    ensures acts != [] ==> !acts[0].Test?
  {
    FollowsNothing(w, start, st, t);
    GuidedIsAdvance(w, start, st[0], t, store);
    hide *;
    top, used, u := FollowsBack(w, start, st, t, n);
    acts := Advance(st[0], store).1;
  }

  lemma GuidedIsAdvance(w: set<string>, start: Store, task: Task, t: seq<Act>, store: Store)
    requires AgreeOutside(w, store, start) && Guided(w, start, task, t).1 <= t
    requires t != [] && t[0].Test? ==> Holds(t[0], store)
    ensures var (top, used) := Guided(w, start, task, t);
            var acts := Advance(task, store).1;
            && Advance(task, store).0 == top && |used| <= 1
            && (acts == used || (acts == [] && used[0].Test?))
            && (acts != [] ==> !acts[0].Test?)
  {
    var (e1, e2) := Control(task.s);
    if Silent(w, task.s) {
      EvalOutside(e1, task.env, w, store, start);
      EvalOutside(e2, task.env, w, store, start);
    } else {
      CloseMeans(e1, task.env, store);
      CloseMeans(e2, task.env, store);
    }
  }
}
