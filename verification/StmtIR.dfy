/** A small statement IR with its sequential meaning: expressions over loop variables and
    buffers, loop nests, produce/consume nodes and the semaphore statements that the
    asynchronous lowering introduces. */
module StmtIR {

  datatype BinOp = Add | Sub | Mul | Div | Mod | Min | Max | LT | EQ | And

  datatype Expr =
    | Const(n: int)
    | Var(name: string)
    | Bin(op: BinOp, a: Expr, b: Expr)
    | Select(cond: Expr, t: Expr, f: Expr)
    | Load(func: string, index: Expr)

  /** One semaphore per consume node of a function. */
  datatype Sema = Sema(func: string, id: nat)

  datatype Stmt =
    | NoOp
    | Provide(func: string, index: Expr, value: Expr)
    | Block(first: Stmt, rest: Stmt)
    | For(v: string, min: Expr, extent: Expr, body: Stmt)
    | LetStmt(v: string, value: Expr, body: Stmt)
    | IfThenElse(cond: Expr, thenCase: Stmt, elseCase: Stmt)
    | ProducerConsumer(func: string, isProducer: bool, body: Stmt)
    | Realize(func: string, body: Stmt)
    | Acquire(sema: Sema, count: Expr, body: Stmt)
    | Release(sema: Sema, amount: Expr)
    | Fork(first: Stmt, rest: Stmt)

  type Env = map<string, int>
  type Cell = (string, int)
  type Store = map<Cell, int>

  function Get(store: Store, c: Cell): int {
    if c in store then store[c] else 0
  }

  function Apply2(op: BinOp, x: int, y: int): int {
    match op
    case Add => x + y
    case Sub => x - y
    case Mul => x * y
    case Div => if y == 0 then 0 else x / y
    case Mod => if y == 0 then 0 else x % y
    case Min => if x < y then x else y
    case Max => if x < y then y else x
    case LT => if x < y then 1 else 0
    case EQ => if x == y then 1 else 0
    case And => if x != 0 && y != 0 then 1 else 0
  }

  function Eval(e: Expr, env: Env, store: Store): int {
    match e
    case Const(n) => n
    case Var(v) => if v in env then env[v] else 0
    case Bin(op, a, b) => Apply2(op, Eval(a, env, store), Eval(b, env, store))
    case Select(c, t, f) => if Eval(c, env, store) != 0 then Eval(t, env, store) else Eval(f, env, store)
    case Load(f, i) => Get(store, (f, Eval(i, env, store)))
  }

  /** The cells an evaluation looks at. */
  function Reads(e: Expr, env: Env, store: Store): set<Cell> {
    match e
    case Const(_) => {}
    case Var(_) => {}
    case Bin(_, a, b) => Reads(a, env, store) + Reads(b, env, store)
    case Select(c, t, f) => Reads(c, env, store) + Reads(t, env, store) + Reads(f, env, store)
    case Load(f, i) => Reads(i, env, store) + {(f, Eval(i, env, store))}
  }

  /** The functions an expression loads from. */
  function Loads(e: Expr): set<string> {
    match e
    case Const(_) => {}
    case Var(_) => {}
    case Bin(_, a, b) => Loads(a) + Loads(b)
    case Select(c, t, f) => Loads(c) + Loads(t) + Loads(f)
    case Load(f, i) => Loads(i) + {f}
  }

  /** Replace the variables by their values; what is left depends on the store only. */
  function Close(e: Expr, env: Env): Expr {
    match e
    case Const(_) => e
    case Var(v) => Const(if v in env then env[v] else 0)
    case Bin(op, a, b) => Bin(op, Close(a, env), Close(b, env))
    case Select(c, t, f) => Select(Close(c, env), Close(t, env), Close(f, env))
    case Load(f, i) => Load(f, Close(i, env))
  }

  lemma {:induction false} CloseMeans(e: Expr, env: Env, store: Store)
    ensures Eval(Close(e, env), map[], store) == Eval(e, env, store)
    ensures Loads(Close(e, env)) == Loads(e)
  {
    match e
    case Const(_) =>
    case Var(_) =>
    case Bin(_, a, b) => CloseMeans(a, env, store); CloseMeans(b, env, store);
    case Select(c, t, f) => CloseMeans(c, env, store); CloseMeans(t, env, store); CloseMeans(f, env, store);
    case Load(f, i) => CloseMeans(i, env, store);
  }

  lemma ReadsAreLoads(e: Expr, env: Env, store: Store)
    ensures forall c :: c in Reads(e, env, store) ==> c.0 in Loads(e)
  {
  }

  ghost predicate AgreeOn(cells: set<Cell>, s: Store, s': Store) {
    forall c | c in cells :: Get(s, c) == Get(s', c)
  }

  /** The two stores hold the same values in every function of a set. */
  ghost predicate AgreeOnFuncs(fs: set<string>, s: Store, s': Store) {
    forall c: Cell | c.0 in fs :: Get(s, c) == Get(s', c)
  }

  /** Evaluation depends on the cells it reads only. */
  lemma {:induction false} EvalFrame(e: Expr, env: Env, s: Store, s': Store)
    requires AgreeOn(Reads(e, env, s), s, s')
    ensures Eval(e, env, s) == Eval(e, env, s')
    ensures Reads(e, env, s) == Reads(e, env, s')
  {
    match e
    case Const(_) =>
    case Var(_) =>
    case Bin(_, a, b) => EvalFrame(a, env, s, s'); EvalFrame(b, env, s, s');
    case Select(c, t, f) => EvalFrame(c, env, s, s'); EvalFrame(t, env, s, s'); EvalFrame(f, env, s, s');
    case Load(f, i) => EvalFrame(i, env, s, s'); assert (f, Eval(i, env, s)) in Reads(e, env, s);
  }

  lemma EvalFrameFuncs(e: Expr, env: Env, s: Store, s': Store)
    requires AgreeOnFuncs(Loads(e), s, s')
    ensures Eval(e, env, s) == Eval(e, env, s')
    ensures Reads(e, env, s) == Reads(e, env, s')
  {
    ReadsAreLoads(e, env, s);
    EvalFrame(e, env, s, s');
  }

  // ----- sequential meaning -----

  function Nat(n: int): nat {
    if n < 0 then 0 else n
  }

  /** What running a statement on one thread leaves in the store. Semaphores play no part, and the
      two sides of a fork run one after the other. */
  function Run(s: Stmt, env: Env, store: Store): Store
    decreases s, 0
  {
    match s
    case NoOp => store
    case Provide(f, i, v) => store[(f, Eval(i, env, store)) := Eval(v, env, store)]
    case Block(a, b) => Run(b, env, Run(a, env, store))
    case For(v, lo, n, b) => RunLoop(b, v, Eval(lo, env, store), Nat(Eval(n, env, store)), env, store)
    case LetStmt(v, e, b) => Run(b, env[v := Eval(e, env, store)], store)
    case IfThenElse(c, t, e) => if Eval(c, env, store) != 0 then Run(t, env, store) else Run(e, env, store)
    case ProducerConsumer(_, _, b) => Run(b, env, store)
    case Realize(_, b) => Run(b, env, store)
    case Acquire(_, _, b) => Run(b, env, store)
    case Release(_, _) => store
    case Fork(a, b) => Run(b, env, Run(a, env, store))
  }

  function RunLoop(b: Stmt, v: string, lo: int, n: nat, env: Env, store: Store): Store
    decreases b, n + 1
  {
    if n == 0 then store
    else RunLoop(b, v, lo + 1, n - 1, env, Run(b, env[v := lo], store))
  }

  // ----- constructors that keep the canonical nesting (IR.cpp) -----

  predicate IsNoOp(s: Stmt) {
    s.NoOp?
  }

  function MakeBlock(first: Stmt, rest: Stmt): Stmt {
    match first
    case Block(a, b) => Block(a, MakeBlock(b, rest))
    case _ => Block(first, rest)
  }

  function MakeFork(first: Stmt, rest: Stmt): Stmt {
    match first
    case Fork(a, b) => Fork(a, MakeFork(b, rest))
    case _ => Fork(first, rest)
  }

  // ----- syntactic facts about statements -----

  /** Functions written anywhere in a statement. */
  function Provided(s: Stmt): set<string> {
    match s
    case NoOp => {}
    case Provide(f, _, _) => {f}
    case Block(a, b) => Provided(a) + Provided(b)
    case For(_, _, _, b) => Provided(b)
    case LetStmt(_, _, b) => Provided(b)
    case IfThenElse(_, t, e) => Provided(t) + Provided(e)
    case ProducerConsumer(_, _, b) => Provided(b)
    case Realize(_, b) => Provided(b)
    case Acquire(_, _, b) => Provided(b)
    case Release(_, _) => {}
    case Fork(a, b) => Provided(a) + Provided(b)
  }

  /** Functions loaded by loop bounds, let values, conditions and semaphore counts. */
  function ControlLoads(s: Stmt): set<string> {
    match s
    case NoOp => {}
    case Provide(_, _, _) => {}
    case Block(a, b) => ControlLoads(a) + ControlLoads(b)
    case For(_, lo, n, b) => Loads(lo) + Loads(n) + ControlLoads(b)
    case LetStmt(_, e, b) => Loads(e) + ControlLoads(b)
    case IfThenElse(c, t, e) => Loads(c) + ControlLoads(t) + ControlLoads(e)
    case ProducerConsumer(_, _, b) => ControlLoads(b)
    case Realize(_, b) => ControlLoads(b)
    case Acquire(_, n, b) => Loads(n) + ControlLoads(b)
    case Release(_, n) => Loads(n)
    case Fork(a, b) => ControlLoads(a) + ControlLoads(b)
  }

  /** Functions loaded by the indices and values of provide nodes. */
  function LeafLoads(s: Stmt): set<string> {
    match s
    case NoOp => {}
    case Provide(_, i, v) => Loads(i) + Loads(v)
    case Block(a, b) => LeafLoads(a) + LeafLoads(b)
    case For(_, _, _, b) => LeafLoads(b)
    case LetStmt(_, _, b) => LeafLoads(b)
    case IfThenElse(_, t, e) => LeafLoads(t) + LeafLoads(e)
    case ProducerConsumer(_, _, b) => LeafLoads(b)
    case Realize(_, b) => LeafLoads(b)
    case Acquire(_, _, b) => LeafLoads(b)
    case Release(_, _) => {}
    case Fork(a, b) => LeafLoads(a) + LeafLoads(b)
  }

  /** No semaphore statement and no fork: what the pass is given. */
  predicate Plain(s: Stmt) {
    match s
    case NoOp => true
    case Provide(_, _, _) => true
    case Block(a, b) => Plain(a) && Plain(b)
    case For(_, _, _, b) => Plain(b)
    case LetStmt(_, _, b) => Plain(b)
    case IfThenElse(_, t, e) => Plain(t) && Plain(e)
    case ProducerConsumer(_, _, b) => Plain(b)
    case Realize(_, b) => Plain(b)
    case Acquire(_, _, _) => false
    case Release(_, _) => false
    case Fork(_, _) => false
  }

  predicate ForkFree(s: Stmt) {
    match s
    case NoOp => true
    case Provide(_, _, _) => true
    case Block(a, b) => ForkFree(a) && ForkFree(b)
    case For(_, _, _, b) => ForkFree(b)
    case LetStmt(_, _, b) => ForkFree(b)
    case IfThenElse(_, t, e) => ForkFree(t) && ForkFree(e)
    case ProducerConsumer(_, _, b) => ForkFree(b)
    case Realize(_, b) => ForkFree(b)
    case Acquire(_, _, b) => ForkFree(b)
    case Release(_, _) => true
    case Fork(_, _) => false
  }

  // ----- action traces -----

  /** What a statement does that matters outside its own thread: stores, semaphore operations, and the
      evaluation of control (loop bounds, let values, conditions) that looks at a watched function. The
      expressions are closed, so what they evaluate to depends on the store alone; a test records the
      values it found, and whether it sits in a produce node of the function under consideration. */
  datatype Act =
    | Write(func: string, index: Expr, value: Expr)
    | Acq(sema: Sema, n: int)
    | Rel(sema: Sema, n: int)
    | Test(own: bool, e1: Expr, e2: Expr, v1: int, v2: int)

  /** The function that is produced asynchronously, and the functions whose contents change. */
  datatype Watch = Watch(func: string, w: set<string>)

  /** The evaluation of at most two control expressions, if it looks at anything that changes. */
  function Tests(k: Watch, own: bool, e1: Expr, e2: Expr, env: Env, store: Store): seq<Act> {
    if (Loads(e1) + Loads(e2)) * k.w == {} then []
    else [Test(own, Close(e1, env), Close(e2, env), Eval(e1, env, store), Eval(e2, env, store))]
  }

  /** What running a statement on one thread does, in order; control reads the store as it then is. */
  function Trace(k: Watch, s: Stmt, own: bool, env: Env, store: Store): seq<Act>
    decreases s, 0
  {
    match s
    case NoOp => []
    case Provide(f, i, v) => [Write(f, Close(i, env), Close(v, env))]
    case Block(a, b) => Trace(k, a, own, env, store) + Trace(k, b, own, env, Run(a, env, store))
    case For(v, lo, n, b) =>
      Tests(k, own, lo, n, env, store)
      + TraceLoop(k, b, own, v, Eval(lo, env, store), Nat(Eval(n, env, store)), env, store)
    case LetStmt(v, e, b) =>
      Tests(k, own, e, Const(0), env, store) + Trace(k, b, own, env[v := Eval(e, env, store)], store)
    case IfThenElse(c, t, e) =>
      Tests(k, own, c, Const(0), env, store)
      + Trace(k, if Eval(c, env, store) != 0 then t else e, own, env, store)
    case ProducerConsumer(f, p, b) => Trace(k, b, own || (f == k.func && p), env, store)
    case Realize(_, b) => Trace(k, b, own, env, store)
    case Acquire(sm, n, b) => [Acq(sm, Eval(n, env, store))] + Trace(k, b, own, env, store)
    case Release(sm, n) => [Rel(sm, Eval(n, env, store))]
    case Fork(a, b) => Trace(k, a, own, env, store) + Trace(k, b, own, env, Run(a, env, store))
  }

  function TraceLoop(k: Watch, b: Stmt, own: bool, v: string, lo: int, n: nat, env: Env, store: Store): seq<Act>
    decreases b, n + 1
  {
    if n == 0 then []
    else
      Trace(k, b, own, env[v := lo], store)
      + TraceLoop(k, b, own, v, lo + 1, n - 1, env, Run(b, env[v := lo], store))
  }

  /** The effect of one action on the store. */
  function Do(a: Act, store: Store): Store {
    match a
    case Write(f, i, v) => store[(f, Eval(i, map[], store)) := Eval(v, map[], store)]
    case Acq(_, _) => store
    case Rel(_, _) => store
    case Test(_, _, _, _, _) => store
  }

  function DoAll(t: seq<Act>, store: Store): Store {
    if t == [] then store else DoAll(t[1..], Do(t[0], store))
  }

  function ActReads(a: Act, store: Store): set<Cell> {
    match a
    case Write(_, i, v) => Reads(i, map[], store) + Reads(v, map[], store)
    case Acq(_, _) => {}
    case Rel(_, _) => {}
    case Test(_, e1, e2, _, _) => Reads(e1, map[], store) + Reads(e2, map[], store)
  }

  function ActLoads(a: Act): set<string> {
    match a
    case Write(_, i, v) => Loads(i) + Loads(v)
    case Acq(_, _) => {}
    case Rel(_, _) => {}
    case Test(_, e1, e2, _, _) => Loads(e1) + Loads(e2)
  }

  /** The store still gives a test the values it recorded. */
  predicate Holds(a: Act, store: Store)
    requires a.Test?
  {
    Eval(a.e1, map[], store) == a.v1 && Eval(a.e2, map[], store) == a.v2
  }

  /** Doing the actions one after the other finds the recorded values. */
  predicate Real(t: seq<Act>, store: Store) {
    t == [] || ((t[0].Test? ==> Holds(t[0], store)) && Real(t[1..], Do(t[0], store)))
  }

  function Flatten(ts: seq<seq<Act>>): seq<Act> {
    if ts == [] then [] else ts[0] + Flatten(ts[1..])
  }

  lemma SeqAssoc<T>(a: seq<T>, b: seq<T>, c: seq<T>)
    ensures a + (b + c) == (a + b) + c
  {
  }

  lemma {:induction false} DoAllConcat(t: seq<Act>, u: seq<Act>, store: Store)
    ensures DoAll(t + u, store) == DoAll(u, DoAll(t, store))
    decreases |t|
  {
    if t == [] {
      assert t + u == u;
    } else {
      assert (t + u)[0] == t[0] && (t + u)[1..] == t[1..] + u;
      DoAllConcat(t[1..], u, Do(t[0], store));
    }
  }

  lemma {:induction false} RealConcat(t: seq<Act>, u: seq<Act>, store: Store)
    ensures Real(t + u, store) <==> Real(t, store) && Real(u, DoAll(t, store))
    decreases |t|
  {
    if t == [] {
      assert t + u == u;
    } else {
      assert (t + u)[0] == t[0] && (t + u)[1..] == t[1..] + u;
      RealConcat(t[1..], u, Do(t[0], store));
    }
  }

  lemma {:induction false} DoAllSnoc(t: seq<Act>, n: nat, store: Store)
    requires n < |t|
    ensures DoAll(t[..n + 1], store) == Do(t[n], DoAll(t[..n], store))
  {
    assert t[..n + 1] == t[..n] + [t[n]];
    DoAllConcat(t[..n], [t[n]], store);
    assert [t[n]][1..] == [];
  }

  lemma RealAt(t: seq<Act>, n: nat, store: Store)
    requires n < |t| && Real(t, store) && t[n].Test?
    ensures Holds(t[n], DoAll(t[..n], store))
  {
    assert t == t[..n] + t[n..];
    RealConcat(t[..n], t[n..], store);
  }

  lemma TestsDo(k: Watch, own: bool, e1: Expr, e2: Expr, env: Env, store: Store)
    ensures var t := Tests(k, own, e1, e2, env, store); DoAll(t, store) == store && Real(t, store)
  {
    CloseMeans(e1, env, store);
    CloseMeans(e2, env, store);
    var t := Tests(k, own, e1, e2, env, store);
    if t != [] {
      assert t[1..] == [];
    }
  }

  /** A trace does what the statement does, and records true values. */
  ghost predicate Traced(t: seq<Act>, store: Store, after: Store) {
    DoAll(t, store) == after && Real(t, store)
  }

  lemma TracedConcat(t: seq<Act>, u: seq<Act>, store: Store, mid: Store, after: Store)
    requires Traced(t, store, mid) && Traced(u, mid, after)
    ensures Traced(t + u, store, after)
  {
    DoAllConcat(t, u, store);
    RealConcat(t, u, store);
  }

  lemma {:induction false} RunIsTrace(k: Watch, s: Stmt, own: bool, env: Env, store: Store)
    ensures Traced(Trace(k, s, own, env, store), store, Run(s, env, store))
    decreases s, 1
  {
    match s
    case NoOp =>
    case Provide(f, i, v) =>
      CloseMeans(i, env, store);
      CloseMeans(v, env, store);
      assert Trace(k, s, own, env, store)[1..] == [];
    case Block(a, b) => RunIsTracePair(k, a, b, s, own, env, store);
    case For(v, lo, n, b) =>
      var l, m := Eval(lo, env, store), Nat(Eval(n, env, store));
      TestsDo(k, own, lo, n, env, store);
      RunIsTraceLoop(k, b, own, v, l, m, env, store);
      TracedConcat(Tests(k, own, lo, n, env, store), TraceLoop(k, b, own, v, l, m, env, store), store, store,
                   RunLoop(b, v, l, m, env, store));
    case LetStmt(v, e, b) =>
      var inner := env[v := Eval(e, env, store)];
      TestsDo(k, own, e, Const(0), env, store);
      RunIsTrace(k, b, own, inner, store);
      TracedConcat(Tests(k, own, e, Const(0), env, store), Trace(k, b, own, inner, store), store, store,
                   Run(b, inner, store));
    case IfThenElse(c, t, e) =>
      var taken := if Eval(c, env, store) != 0 then t else e;
      TestsDo(k, own, c, Const(0), env, store);
      RunIsTrace(k, taken, own, env, store);
      TracedConcat(Tests(k, own, c, Const(0), env, store), Trace(k, taken, own, env, store), store, store,
                   Run(taken, env, store));
    case ProducerConsumer(f, p, b) => RunIsTrace(k, b, own || (f == k.func && p), env, store);
    case Realize(_, b) => RunIsTrace(k, b, own, env, store);
    case Acquire(sm, n, b) =>
      var a := [Acq(sm, Eval(n, env, store))];
      assert a[1..] == [];
      RunIsTrace(k, b, own, env, store);
      TracedConcat(a, Trace(k, b, own, env, store), store, store, Run(b, env, store));
    case Release(_, _) => assert Trace(k, s, own, env, store)[1..] == [];
    case Fork(a, b) => RunIsTracePair(k, a, b, s, own, env, store);
  }

  lemma {:induction false} RunIsTracePair(k: Watch, a: Stmt, b: Stmt, s: Stmt, own: bool, env: Env, store: Store)
    requires s == Block(a, b) || s == Fork(a, b)
    ensures Traced(Trace(k, s, own, env, store), store, Run(s, env, store))
    decreases s, 0
  {
    var mid := Run(a, env, store);
    RunIsTrace(k, a, own, env, store);
    RunIsTrace(k, b, own, env, mid);
    TracedConcat(Trace(k, a, own, env, store), Trace(k, b, own, env, mid), store, mid, Run(b, env, mid));
  }

  lemma {:induction false} RunIsTraceLoop(k: Watch, b: Stmt, own: bool, v: string, lo: int, n: nat, env: Env,
                                          store: Store)
    ensures Traced(TraceLoop(k, b, own, v, lo, n, env, store), store, RunLoop(b, v, lo, n, env, store))
    decreases b, n + 2
  {
    if n != 0 {
      var mid := Run(b, env[v := lo], store);
      RunIsTrace(k, b, own, env[v := lo], store);
      RunIsTraceLoop(k, b, own, v, lo + 1, n - 1, env, mid);
      TracedConcat(Trace(k, b, own, env[v := lo], store), TraceLoop(k, b, own, v, lo + 1, n - 1, env, mid),
                   store, mid, RunLoop(b, v, lo + 1, n - 1, env, mid));
    }
  }

  /** An action of a statement writes a function it provides and loads what its leaves and its control
      load; without semaphore statements there are stores and tests only. */
  predicate From(a: Act, s: Stmt) {
    && (a.Write? ==> a.func in Provided(s))
    && ActLoads(a) <= LeafLoads(s) + ControlLoads(s)
    && (Plain(s) ==> a.Write? || a.Test?)
  }

  lemma TestsFrom(k: Watch, own: bool, e1: Expr, e2: Expr, env: Env, store: Store)
    ensures forall a | a in Tests(k, own, e1, e2, env, store) ::
            a.Test? && a.own == own && ActLoads(a) == Loads(e1) + Loads(e2)
  {
    CloseMeans(e1, env, store);
    CloseMeans(e2, env, store);
  }

  lemma {:induction false} TraceFrom(k: Watch, s: Stmt, own: bool, env: Env, store: Store)
    ensures forall a | a in Trace(k, s, own, env, store) :: From(a, s)
    decreases s, 0
  {
    match s
    case NoOp =>
    case Provide(_, i, v) => CloseMeans(i, env, store); CloseMeans(v, env, store);
    case Block(a, b) => TraceFrom(k, a, own, env, store); TraceFrom(k, b, own, env, Run(a, env, store));
    case For(v, lo, n, b) =>
      TestsFrom(k, own, lo, n, env, store);
      TraceLoopFrom(k, b, own, v, Eval(lo, env, store), Nat(Eval(n, env, store)), env, store);
    case LetStmt(v, e, b) =>
      TestsFrom(k, own, e, Const(0), env, store);
      TraceFrom(k, b, own, env[v := Eval(e, env, store)], store);
    case IfThenElse(c, t, e) =>
      TestsFrom(k, own, c, Const(0), env, store);
      TraceFrom(k, t, own, env, store);
      TraceFrom(k, e, own, env, store);
    case ProducerConsumer(f, p, b) => TraceFrom(k, b, own || (f == k.func && p), env, store);
    case Realize(_, b) => TraceFrom(k, b, own, env, store);
    case Acquire(_, _, b) => TraceFrom(k, b, own, env, store);
    case Release(_, _) =>
    case Fork(a, b) => TraceFrom(k, a, own, env, store); TraceFrom(k, b, own, env, Run(a, env, store));
  }

  lemma {:induction false} TraceLoopFrom(k: Watch, b: Stmt, own: bool, v: string, lo: int, n: nat, env: Env,
                                         store: Store)
    ensures forall a | a in TraceLoop(k, b, own, v, lo, n, env, store) :: From(a, b)
    decreases b, n + 1
  {
    if n != 0 {
      TraceFrom(k, b, own, env[v := lo], store);
      TraceLoopFrom(k, b, own, v, lo + 1, n - 1, env, Run(b, env[v := lo], store));
    }
  }

  // ----- stores that differ in watched functions only -----

  predicate Outside(c: Cell, w: set<string>) {
    c.0 !in w
  }

  ghost predicate AgreeOutside(w: set<string>, s: Store, s': Store) {
    forall c | Outside(c, w) :: Get(s, c) == Get(s', c)
  }

  lemma EvalOutside(e: Expr, env: Env, w: set<string>, s: Store, s': Store)
    requires Loads(e) * w == {} && AgreeOutside(w, s, s')
    ensures Eval(e, env, s) == Eval(e, env, s')
  {
    forall c: Cell | c.0 in Loads(e) ensures Get(s, c) == Get(s', c) {
      assert c.0 !in Loads(e) * w;
      assert Outside(c, w);
    }
    EvalFrameFuncs(e, env, s, s');
  }

  lemma {:induction false} WritesStayInside(t: seq<Act>, w: set<string>, store: Store)
    requires forall a | a in t && a.Write? :: a.func in w
    ensures AgreeOutside(w, DoAll(t, store), store)
    decreases |t|
  {
    if t != [] {
      assert t[0] in t;
      WritesStayInside(t[1..], w, Do(t[0], store));
    }
  }

  lemma RunStaysInside(s: Stmt, env: Env, store: Store, w: set<string>)
    requires Provided(s) <= w
    ensures AgreeOutside(w, Run(s, env, store), store)
  {
    var k := Watch("", {});
    RunIsTrace(k, s, false, env, store);
    TraceFrom(k, s, false, env, store);
    WritesStayInside(Trace(k, s, false, env, store), w, store);
  }
}
