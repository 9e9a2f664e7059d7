/** The two passes that move acquires outwards and forks inwards (AsyncProducers.cpp) do not change what
    a statement can do: the set of its possible sequences of acquires, releases and stores. */
module AsyncExpand {
  import opened StmtIR

  // ----- possible sequences -----

  /** `t` interleaves `a` and `b`. */
  predicate IsMerge(a: seq<Act>, b: seq<Act>, t: seq<Act>)
    decreases |t|
  {
    if t == [] then a == [] && b == []
    else
      || (a != [] && a[0] == t[0] && IsMerge(a[1..], b, t[1..]))
      || (b != [] && b[0] == t[0] && IsMerge(a, b[1..], t[1..]))
  }

  ghost function Seqs(A: iset<seq<Act>>, B: iset<seq<Act>>): iset<seq<Act>> {
    iset t, u | t in A && u in B :: t + u
  }

  ghost predicate Merged(A: iset<seq<Act>>, B: iset<seq<Act>>, t: seq<Act>) {
    exists a, b :: a in A && b in B && IsMerge(a, b, t)
  }

  ghost function Merges(A: iset<seq<Act>>, B: iset<seq<Act>>): iset<seq<Act>> {
    iset t | Merged(A, B, t)
  }

  // ----- what a semaphore statement operates on -----

  function Digits(n: nat): string {
    if n < 10 then ['0' + n as char] else Digits(n / 10) + ['0' + (n % 10) as char]
  }

  function SemaName(s: Sema): string {
    s.func + ".semaphore_" + Digits(s.id)
  }

  function Code(n: int): nat {
    if n < 0 then -2 * n - 1 else 2 * n
  }

  /** A semaphore is referred to by name. The name of one that a let defines stands for whatever the let
      computed; any other name, for the semaphore of that name. */
  function Handle(s: Sema, env: Env): Sema {
    if SemaName(s) in env then Sema("", Code(env[SemaName(s)])) else s
  }

  /** The values that control can find, with the test that records them: what does not change is read from the
      starting store `ctl` and not recorded; anything else can be any value, and whether it was the right one is for the
      test to say. */
  datatype Choice = Choice(acts: seq<Act>, x: int, y: int)

  predicate Still(w: set<string>, e: Expr) {
    Loads(e) * w == {}
  }

  ghost function Choices(k: Watch, own: bool, e1: Expr, e2: Expr, env: Env, ctl: Store): iset<Choice> {
    if (Loads(e1) + Loads(e2)) * k.w == {} then iset{Choice([], Eval(e1, env, ctl), Eval(e2, env, ctl))}
    else iset x: int, y: int :: Choice([Test(own, Close(e1, env), Close(e2, env), x, y)], x, y)
  }

  /** Every order in which the actions of a statement can happen, before the semaphores and the tests rule some out. */
  ghost function Traces(k: Watch, s: Stmt, own: bool, env: Env, ctl: Store): iset<seq<Act>>
    decreases s, 0
  {
    match s
    case NoOp => iset{[]}
    case Provide(f, i, v) => iset{[Write(f, Close(i, env), Close(v, env))]}
    case Block(a, b) => Seqs(Traces(k, a, own, env, ctl), Traces(k, b, own, env, ctl))
    case For(v, lo, n, b) =>
      iset c, t | c in Choices(k, own, lo, n, env, ctl) && t in TracesLoop(k, b, own, v, c.x, Nat(c.y), env, ctl) ::
        c.acts + t
    case LetStmt(v, e, b) =>
      iset c, t | c in Choices(k, own, e, Const(0), env, ctl) && t in Traces(k, b, own, env[v := c.x], ctl) ::
        c.acts + t
    case IfThenElse(c, t, e) =>
      iset d, u | d in Choices(k, own, c, Const(0), env, ctl)
                  && u in Traces(k, if d.x != 0 then t else e, own, env, ctl) ::
        d.acts + u
    case ProducerConsumer(f, p, b) => Traces(k, b, own || (f == k.func && p), env, ctl)
    case Realize(_, b) => Traces(k, b, own, env, ctl)
    case Acquire(sm, n, b) => Seqs(iset{[Acq(Handle(sm, env), Eval(n, env, ctl))]}, Traces(k, b, own, env, ctl))
    case Release(sm, n) => iset{[Rel(Handle(sm, env), Eval(n, env, ctl))]}
    case Fork(a, b) => Merges(Traces(k, a, own, env, ctl), Traces(k, b, own, env, ctl))
  }

  ghost function TracesLoop(k: Watch, b: Stmt, own: bool, v: string, lo: int, n: nat, env: Env,
                            ctl: Store): iset<seq<Act>>
    decreases b, n + 1
  {
    if n == 0 then iset{[]}
    else Seqs(Traces(k, b, own, env[v := lo], ctl), TracesLoop(k, b, own, v, lo + 1, n - 1, env, ctl))
  }

  // ----- algebra of sequences and merges -----

  lemma SeqsAssoc(A: iset<seq<Act>>, B: iset<seq<Act>>, C: iset<seq<Act>>)
    ensures Seqs(Seqs(A, B), C) == Seqs(A, Seqs(B, C))
  {
    forall t | t in Seqs(Seqs(A, B), C) ensures t in Seqs(A, Seqs(B, C)) {
      var a, b, c :| a in A && b in B && c in C && t == (a + b) + c;
      SeqAssoc(a, b, c);
      assert b + c in Seqs(B, C);
    }
    forall t | t in Seqs(A, Seqs(B, C)) ensures t in Seqs(Seqs(A, B), C) {
      var a, b, c :| a in A && b in B && c in C && t == a + (b + c);
      SeqAssoc(a, b, c);
      assert a + b in Seqs(A, B);
    }
  }

  lemma {:induction false} MergeUnit(b: seq<Act>, t: seq<Act>)
    ensures IsMerge([], b, t) <==> b == t
    decreases |t|
  {
    if t != [] && b != [] {
      MergeUnit(b[1..], t[1..]);
      assert b == [b[0]] + b[1..] && t == [t[0]] + t[1..];
    }
  }

  lemma {:induction false} MergeSwap(a: seq<Act>, b: seq<Act>, t: seq<Act>)
    ensures IsMerge(a, b, t) <==> IsMerge(b, a, t)
    decreases |t|
  {
    if t != [] {
      if a != [] { MergeSwap(a[1..], b, t[1..]); }
      if b != [] { MergeSwap(a, b[1..], t[1..]); }
    }
  }

  lemma {:induction false} MergeRotate(a: seq<Act>, b: seq<Act>, u: seq<Act>, c: seq<Act>, t: seq<Act>)
      returns (w: seq<Act>)
    requires IsMerge(a, b, u) && IsMerge(u, c, t)
    ensures IsMerge(b, c, w) && IsMerge(a, w, t)
    decreases |t|
  {
    if t == [] {
      w := [];
    } else if c != [] && c[0] == t[0] && IsMerge(u, c[1..], t[1..]) {
      var w' := MergeRotate(a, b, u, c[1..], t[1..]);
      w := [t[0]] + w';
      assert w[1..] == w';
    } else if a != [] && a[0] == u[0] && IsMerge(a[1..], b, u[1..]) {
      w := MergeRotate(a[1..], b, u[1..], c, t[1..]);
    } else {
      var w' := MergeRotate(a, b[1..], u[1..], c, t[1..]);
      w := [t[0]] + w';
      assert w[1..] == w';
    }
  }

  lemma MergesAssoc(A: iset<seq<Act>>, B: iset<seq<Act>>, C: iset<seq<Act>>)
    ensures Merges(Merges(A, B), C) == Merges(A, Merges(B, C))
  {
    forall t | Merged(Merges(A, B), C, t) ensures Merged(A, Merges(B, C), t) {
      var u, c :| u in Merges(A, B) && c in C && IsMerge(u, c, t);
      var a, b :| a in A && b in B && IsMerge(a, b, u);
      var w := MergeRotate(a, b, u, c, t);
      assert Merged(B, C, w);
    }
    forall t | Merged(A, Merges(B, C), t) ensures Merged(Merges(A, B), C, t) {
      var a, w :| a in A && w in Merges(B, C) && IsMerge(a, w, t);
      var b, c :| b in B && c in C && IsMerge(b, c, w);
      MergeSwap(b, c, w);
      MergeSwap(a, w, t);
      var u := MergeRotate(c, b, w, a, t);
      MergeSwap(b, a, u);
      MergeSwap(c, u, t);
      assert Merged(A, B, u);
    }
  }

  lemma MergesUnit(A: iset<seq<Act>>)
    ensures Merges(iset{[]}, A) == A && Merges(A, iset{[]}) == A
  {
    var E: iset<seq<Act>> := iset{[]};
    forall t ensures Merged(E, A, t) <==> t in A {
      MergeUnit(t, t);
      if Merged(E, A, t) {
        var b :| b in A && IsMerge([], b, t);
        MergeUnit(b, t);
      }
    }
    forall t ensures Merged(A, E, t) <==> t in A {
      MergeUnit(t, t);
      MergeSwap([], t, t);
      if Merged(A, E, t) {
        var a :| a in A && IsMerge(a, [], t);
        MergeSwap(a, [], t);
        MergeUnit(a, t);
      }
    }
  }

  lemma {:induction false} TracesMakeBlock(k: Watch, a: Stmt, b: Stmt, own: bool, env: Env, ctl: Store)
    ensures Traces(k, MakeBlock(a, b), own, env, ctl)
            == Seqs(Traces(k, a, own, env, ctl), Traces(k, b, own, env, ctl))
    decreases a
  {
    if a.Block? {
      var x, rest := Traces(k, a.first, own, env, ctl), MakeBlock(a.rest, b);
      var y, z := Traces(k, a.rest, own, env, ctl), Traces(k, b, own, env, ctl);
      assert Traces(k, a, own, env, ctl) == Seqs(x, y);
      assert Traces(k, MakeBlock(a, b), own, env, ctl) == Seqs(x, Traces(k, rest, own, env, ctl));
      hide *;
      TracesMakeBlock(k, a.rest, b, own, env, ctl);
      SeqsAssoc(x, y, z);
    }
  }

  lemma {:induction false} TracesMakeFork(k: Watch, a: Stmt, b: Stmt, own: bool, env: Env, ctl: Store)
    ensures Traces(k, MakeFork(a, b), own, env, ctl)
            == Merges(Traces(k, a, own, env, ctl), Traces(k, b, own, env, ctl))
    decreases a
  {
    if a.Fork? {
      var x, rest := Traces(k, a.first, own, env, ctl), MakeFork(a.rest, b);
      var y, z := Traces(k, a.rest, own, env, ctl), Traces(k, b, own, env, ctl);
      assert Traces(k, a, own, env, ctl) == Merges(x, y);
      assert Traces(k, MakeFork(a, b), own, env, ctl) == Merges(x, Traces(k, rest, own, env, ctl));
      hide *;
      TracesMakeFork(k, a.rest, b, own, env, ctl);
      MergesAssoc(x, y, z);
    }
  }

  lemma {:induction false} TracesLoopCongruence(k: Watch, b: Stmt, b': Stmt, own: bool, v: string, lo: int, n: nat,
                                                env: Env, ctl: Store)
    requires forall e: Env :: Traces(k, b, own, e, ctl) == Traces(k, b', own, e, ctl)
    ensures TracesLoop(k, b, own, v, lo, n, env, ctl) == TracesLoop(k, b', own, v, lo, n, env, ctl)
    decreases n
  {
    if n != 0 {
      TracesLoopCongruence(k, b, b', own, v, lo + 1, n - 1, env, ctl);
    }
  }

  /** A loop over a body that can do the same. */
  lemma TracesForCongruence(k: Watch, s: Stmt, b: Stmt, own: bool, env: Env, ctl: Store)
    requires s.For? && forall e: Env :: Traces(k, b, own, e, ctl) == Traces(k, s.body, own, e, ctl)
    ensures Traces(k, For(s.v, s.min, s.extent, b), own, env, ctl) == Traces(k, s, own, env, ctl)
  {
    forall x: int, n: nat
      ensures TracesLoop(k, b, own, s.v, x, n, env, ctl) == TracesLoop(k, s.body, own, s.v, x, n, env, ctl)
    {
      TracesLoopCongruence(k, b, s.body, own, s.v, x, n, env, ctl);
    }
  }

  /** A let around a body that can do the same. */
  lemma TracesLetCongruence(k: Watch, s: Stmt, b: Stmt, own: bool, env: Env, ctl: Store)
    requires s.LetStmt? && forall e: Env :: Traces(k, b, own, e, ctl) == Traces(k, s.body, own, e, ctl)
    ensures Traces(k, LetStmt(s.v, s.value, b), own, env, ctl) == Traces(k, s, own, env, ctl)
  {
  }

  /** A let whose value does not change is a binding. */
  lemma StillLet(k: Watch, v: string, e: Expr, b: Stmt, own: bool, env: Env, ctl: Store)
    requires Still(k.w, e)
    ensures Traces(k, LetStmt(v, e, b), own, env, ctl) == Traces(k, b, own, env[v := Eval(e, env, ctl)], ctl)
  {
    var c := Choice([], Eval(e, env, ctl), 0);
    assert (Loads(e) + Loads(Const(0))) * k.w == {};
    OneChoice(Traces(k, LetStmt(v, e, b), own, env, ctl), Choices(k, own, e, Const(0), env, ctl),
        (x, _) => Traces(k, b, own, env[v := x], ctl), c);
  }

  /** What follows the only choice there is. */
  lemma OneChoice(T: iset<seq<Act>>, C: iset<Choice>, F: (int, int) -> iset<seq<Act>>, c: Choice)
    requires T == iset d, t | d in C && t in F(d.x, d.y) :: d.acts + t
    requires C == iset{c} && c.acts == []
    ensures T == F(c.x, c.y)
  {
    forall t ensures t in T <==> t in F(c.x, c.y) {
      assert c in C && c.acts + t == t;
      if t in T {
        var d, u :| d in C && u in F(d.x, d.y) && t == d.acts + u;
        assert d == c && c.acts + u == u;
      }
    }
  }

  // ----- names -----

  predicate ExprUses(e: Expr, v: string) {
    match e
    case Const(_) => false
    case Var(x) => x == v
    case Bin(_, a, b) => ExprUses(a, v) || ExprUses(b, v)
    case Select(c, t, f) => ExprUses(c, v) || ExprUses(t, v) || ExprUses(f, v)
    case Load(f, i) => f == v || ExprUses(i, v)
  }

  /** Does a statement reference or define a name (ExprUsesVar.h)? Loop variables do not count as
      definitions. */
  predicate StmtUses(s: Stmt, v: string) {
    match s
    case NoOp => false
    case Provide(f, i, x) => f == v || ExprUses(i, v) || ExprUses(x, v)
    case Block(a, b) => StmtUses(a, v) || StmtUses(b, v)
    case For(_, lo, n, b) => ExprUses(lo, v) || ExprUses(n, v) || StmtUses(b, v)
    case LetStmt(x, e, b) => x == v || ExprUses(e, v) || StmtUses(b, v)
    case IfThenElse(c, t, e) => ExprUses(c, v) || StmtUses(t, v) || StmtUses(e, v)
    case ProducerConsumer(_, _, b) => StmtUses(b, v)
    case Realize(f, b) => f == v || StmtUses(b, v)
    case Acquire(sm, n, b) => SemaName(sm) == v || ExprUses(n, v) || StmtUses(b, v)
    case Release(sm, n) => SemaName(sm) == v || ExprUses(n, v)
    case Fork(a, b) => StmtUses(a, v) || StmtUses(b, v)
  }

  function Lookup(env: Env, v: string): int {
    if v in env then env[v] else 0
  }

  ghost predicate SameBut(v: string, env: Env, env': Env) {
    forall u | u != v :: Lookup(env, u) == Lookup(env', u) && (u in env <==> u in env')
  }

  lemma LetBinds(v: string, x: int, env: Env)
    ensures SameBut(v, env, env[v := x])
  {
  }

  lemma SameHandle(s: Sema, v: string, env: Env, env': Env)
    requires SemaName(s) != v && SameBut(v, env, env')
    ensures Handle(s, env) == Handle(s, env')
  {
    assert Lookup(env, SemaName(s)) == Lookup(env', SemaName(s));
  }

  lemma {:induction false} UnusedInExpr(e: Expr, v: string, env: Env, env': Env, store: Store)
    requires !ExprUses(e, v) && SameBut(v, env, env')
    ensures Eval(e, env, store) == Eval(e, env', store) && Close(e, env) == Close(e, env')
  {
    match e
    case Const(_) =>
    case Var(x) => assert Lookup(env, x) == Lookup(env', x);
    case Bin(_, a, b) => UnusedInExpr(a, v, env, env', store); UnusedInExpr(b, v, env, env', store);
    case Select(c, t, f) =>
      UnusedInExpr(c, v, env, env', store);
      UnusedInExpr(t, v, env, env', store);
      UnusedInExpr(f, v, env, env', store);
    case Load(f, i) => UnusedInExpr(i, v, env, env', store);
  }

  lemma SameButUpdate(v: string, env: Env, env': Env, u: string, x: int)
    requires SameBut(v, env, env')
    ensures SameBut(v, env[u := x], env'[u := x])
  {
    var e, e' := env[u := x], env'[u := x];
    forall w | w != v ensures Lookup(e, w) == Lookup(e', w) && (w in e <==> w in e') {
      assert Lookup(env, w) == Lookup(env', w);
    }
  }

  lemma ChoicesUnused(k: Watch, own: bool, e1: Expr, e2: Expr, v: string, env: Env, env': Env, ctl: Store)
    requires !ExprUses(e1, v) && !ExprUses(e2, v) && SameBut(v, env, env')
    ensures Choices(k, own, e1, e2, env, ctl) == Choices(k, own, e1, e2, env', ctl)
  {
    UnusedInExpr(e1, v, env, env', ctl);
    UnusedInExpr(e2, v, env, env', ctl);
  }

  /** A statement that does not use a name does not care what it is bound to. */
  lemma {:induction false} UnusedInStmt(k: Watch, s: Stmt, own: bool, v: string, env: Env, env': Env, ctl: Store)
    requires !StmtUses(s, v) && SameBut(v, env, env')
    ensures Traces(k, s, own, env, ctl) == Traces(k, s, own, env', ctl)
    decreases s, 0
  {
    match s
    case NoOp =>
    case Provide(_, i, x) => UnusedInExpr(i, v, env, env', ctl); UnusedInExpr(x, v, env, env', ctl);
    case Block(a, b) => UnusedInStmt(k, a, own, v, env, env', ctl); UnusedInStmt(k, b, own, v, env, env', ctl);
    case For(u, lo, n, b) =>
      ChoicesUnused(k, own, lo, n, v, env, env', ctl);
      forall x: int, m: nat
        ensures TracesLoop(k, b, own, u, x, m, env, ctl) == TracesLoop(k, b, own, u, x, m, env', ctl)
      {
        UnusedInLoop(k, b, own, u, x, m, v, env, env', ctl);
      }
    case LetStmt(u, e, b) =>
      ChoicesUnused(k, own, e, Const(0), v, env, env', ctl);
      forall x: int {:trigger env[u := x]}
        ensures Traces(k, b, own, env[u := x], ctl) == Traces(k, b, own, env'[u := x], ctl)
      {
        SameButUpdate(v, env, env', u, x);
        UnusedInStmt(k, b, own, v, env[u := x], env'[u := x], ctl);
      }
    case IfThenElse(c, t, e) =>
      ChoicesUnused(k, own, c, Const(0), v, env, env', ctl);
      UnusedInStmt(k, t, own, v, env, env', ctl);
      UnusedInStmt(k, e, own, v, env, env', ctl);
    case ProducerConsumer(f, p, b) => UnusedInStmt(k, b, own || (f == k.func && p), v, env, env', ctl);
    case Realize(_, b) => UnusedInStmt(k, b, own, v, env, env', ctl);
    case Acquire(sm, n, b) =>
      SameHandle(sm, v, env, env');
      UnusedInExpr(n, v, env, env', ctl);
      UnusedInStmt(k, b, own, v, env, env', ctl);
    case Release(sm, n) =>
      SameHandle(sm, v, env, env');
      UnusedInExpr(n, v, env, env', ctl);
    case Fork(a, b) => UnusedInStmt(k, a, own, v, env, env', ctl); UnusedInStmt(k, b, own, v, env, env', ctl);
  }

  lemma {:induction false} UnusedInLoop(k: Watch, b: Stmt, own: bool, u: string, lo: int, n: nat, v: string, env: Env,
                                        env': Env, ctl: Store)
    requires !StmtUses(b, v) && SameBut(v, env, env')
    ensures TracesLoop(k, b, own, u, lo, n, env, ctl) == TracesLoop(k, b, own, u, lo, n, env', ctl)
    decreases b, n + 1
  {
    if n != 0 {
      SameButUpdate(v, env, env', u, lo);
      UnusedInStmt(k, b, own, v, env[u := lo], env'[u := lo], ctl);
      UnusedInLoop(k, b, own, u, lo + 1, n - 1, v, env, env', ctl);
    }
  }

  // ----- expanding acquires -----

  /** The number of nodes: what the re-mutation of rebuilt nodes makes smaller. */
  function Size(s: Stmt): nat {
    match s
    case NoOp => 1
    case Provide(_, _, _) => 1
    case Block(a, b) => 1 + Size(a) + Size(b)
    case For(_, _, _, b) => 1 + Size(b)
    case LetStmt(_, _, b) => 1 + Size(b)
    case IfThenElse(_, t, e) => 1 + Size(t) + Size(e)
    case ProducerConsumer(_, _, b) => 1 + Size(b)
    case Realize(_, b) => 1 + Size(b)
    case Acquire(_, _, b) => 1 + Size(b)
    case Release(_, _) => 1
    case Fork(a, b) => 1 + Size(a) + Size(b)
  }

  lemma {:induction false} SizeMakeBlock(a: Stmt, b: Stmt)
    ensures Size(MakeBlock(a, b)) == 1 + Size(a) + Size(b)
    decreases a
  {
    match a
    case Block(_, y) => SizeMakeBlock(y, b);
    case _ =>
  }

  lemma {:induction false} SizeMakeFork(a: Stmt, b: Stmt)
    ensures Size(MakeFork(a, b)) == 1 + Size(a) + Size(b)
    decreases a
  {
    match a
    case Fork(_, y) => SizeMakeFork(y, b);
    case _ =>
  }

  /** Nest what follows an acquire inside it, and pull acquires out of realizations, lets and
      produce/consume nodes. The node count stays, which is why re-mutating terminates. */
  function Expand(s: Stmt): (r: Stmt)
    ensures Size(r) == Size(s)
    decreases Size(s)
  {
    match s
    case NoOp => s
    case Provide(_, _, _) => s
    case Block(a, b) =>
      var first, rest := Expand(a), Expand(b);
      if first.Acquire? then
        SizeMakeBlock(first.body, b);
        Acquire(first.sema, first.count, Expand(MakeBlock(first.body, b)))
      else
        SizeMakeBlock(first, rest);
        MakeBlock(first, rest)
    case For(v, lo, n, b) => For(v, lo, n, Expand(b))
    case LetStmt(v, e, b) =>
      var body := Expand(b);
      if body.Acquire? && SemaName(body.sema) != v && !ExprUses(body.count, v) then
        Acquire(body.sema, body.count, LetStmt(v, e, body.body))
      else
        LetStmt(v, e, body)
    case IfThenElse(c, t, e) => IfThenElse(c, Expand(t), Expand(e))
    case ProducerConsumer(f, p, b) =>
      var body := Expand(b);
      if body.Acquire? then Acquire(body.sema, body.count, Expand(ProducerConsumer(f, p, body.body)))
      else ProducerConsumer(f, p, body)
    case Realize(f, b) =>
      var body := Expand(b);
      if body.Acquire? then Acquire(body.sema, body.count, Expand(Realize(f, body.body)))
      else Realize(f, body)
    case Acquire(sm, n, b) => Acquire(sm, n, Expand(b))
    case Release(_, _) => s
    case Fork(a, b) =>
      SizeMakeFork(Expand(a), Expand(b));
      MakeFork(Expand(a), Expand(b))
  }

  predicate HasAcquire(s: Stmt) {
    match s
    case NoOp => false
    case Provide(_, _, _) => false
    case Block(a, b) => HasAcquire(a) || HasAcquire(b)
    case For(_, _, _, b) => HasAcquire(b)
    case LetStmt(_, _, b) => HasAcquire(b)
    case IfThenElse(_, t, e) => HasAcquire(t) || HasAcquire(e)
    case ProducerConsumer(_, _, b) => HasAcquire(b)
    case Realize(_, b) => HasAcquire(b)
    case Acquire(_, _, _) => true
    case Release(_, _) => false
    case Fork(a, b) => HasAcquire(a) || HasAcquire(b)
  }

  /** Lets around acquires have values that do not change. */
  predicate AcquireSteady(s: Stmt, w: set<string>) {
    match s
    case NoOp => true
    case Provide(_, _, _) => true
    case Block(a, b) => AcquireSteady(a, w) && AcquireSteady(b, w)
    case For(_, _, _, b) => AcquireSteady(b, w)
    case LetStmt(_, e, b) => (HasAcquire(b) ==> Still(w, e)) && AcquireSteady(b, w)
    case IfThenElse(_, t, e) => AcquireSteady(t, w) && AcquireSteady(e, w)
    case ProducerConsumer(_, _, b) => AcquireSteady(b, w)
    case Realize(_, b) => AcquireSteady(b, w)
    case Acquire(_, _, b) => AcquireSteady(b, w)
    case Release(_, _) => true
    case Fork(a, b) => AcquireSteady(a, w) && AcquireSteady(b, w)
  }

  lemma {:induction false} SteadyMakeBlock(a: Stmt, b: Stmt, w: set<string>)
    ensures AcquireSteady(MakeBlock(a, b), w) <==> AcquireSteady(a, w) && AcquireSteady(b, w)
    ensures HasAcquire(MakeBlock(a, b)) <==> HasAcquire(a) || HasAcquire(b)
    decreases a
  {
    if a.Block? {
      assert MakeBlock(a, b) == Block(a.first, MakeBlock(a.rest, b));
      hide MakeBlock;
      SteadyMakeBlock(a.rest, b, w);
    }
  }

  lemma {:induction false} SteadyMakeFork(a: Stmt, b: Stmt, w: set<string>)
    ensures AcquireSteady(MakeFork(a, b), w) <==> AcquireSteady(a, w) && AcquireSteady(b, w)
    ensures HasAcquire(MakeFork(a, b)) <==> HasAcquire(a) || HasAcquire(b)
    decreases a
  {
    if a.Fork? {
      assert MakeFork(a, b) == Fork(a.first, MakeFork(a.rest, b));
      hide MakeFork;
      SteadyMakeFork(a.rest, b, w);
    }
  }

  lemma {:induction false} ExpandSteady(s: Stmt, w: set<string>)
    requires AcquireSteady(s, w)
    ensures AcquireSteady(Expand(s), w) && (HasAcquire(Expand(s)) <==> HasAcquire(s))
    decreases Size(s), 1
  {
    match s
    case NoOp =>
    case Provide(_, _, _) =>
    case Block(_, _) => ExpandSteadyBlock(s, w);
    case For(_, _, _, b) => ExpandSteady(b, w);
    case LetStmt(_, _, b) => ExpandSteady(b, w);
    case IfThenElse(_, t, e) => ExpandSteady(t, w); ExpandSteady(e, w);
    case ProducerConsumer(f, p, b) =>
      var body := Expand(b);
      ExpandSteady(b, w);
      if body.Acquire? {
        ExpandSteady(ProducerConsumer(f, p, body.body), w);
      }
    case Realize(f, b) =>
      var body := Expand(b);
      ExpandSteady(b, w);
      if body.Acquire? {
        ExpandSteady(Realize(f, body.body), w);
      }
    case Acquire(_, _, b) => ExpandSteady(b, w);
    case Release(_, _) =>
    case Fork(a, b) =>
      ExpandSteady(a, w);
      ExpandSteady(b, w);
      SteadyMakeFork(Expand(a), Expand(b), w);
  }

  lemma {:induction false} ExpandSteadyBlock(s: Stmt, w: set<string>)
    requires s.Block? && AcquireSteady(s, w)
    ensures AcquireSteady(Expand(s), w) && (HasAcquire(Expand(s)) <==> HasAcquire(s))
    decreases Size(s), 0
  {
    var a, b, first := s.first, s.rest, Expand(s.first);
    ExpandSteady(a, w);
    ExpandSteady(b, w);
    SteadyMakeBlock(first, Expand(b), w);
    if first.Acquire? {
      SizeMakeBlock(first.body, b);
      SteadyMakeBlock(first.body, b, w);
      ExpandSteady(MakeBlock(first.body, b), w);
    }
    hide MakeBlock;
  }

  /** ExpandAcquireNodes keeps the possible sequences of every statement whose lets around acquires have values that do
      not change. */
  lemma {:induction false} ExpandKeepsTraces(k: Watch, s: Stmt, own: bool, env: Env, ctl: Store)
    requires AcquireSteady(s, k.w)
    ensures Traces(k, Expand(s), own, env, ctl) == Traces(k, s, own, env, ctl)
    decreases Size(s), 1
  {
    match s
    case NoOp =>
    case Provide(_, _, _) =>
    case Block(a, b) => ExpandBlock(k, a, b, own, env, ctl);
    case For(v, lo, n, b) =>
      forall e: Env ensures Traces(k, Expand(b), own, e, ctl) == Traces(k, b, own, e, ctl) {
        ExpandKeepsTraces(k, b, own, e, ctl);
      }
      TracesForCongruence(k, s, Expand(b), own, env, ctl);
    case LetStmt(_, _, _) => ExpandLet(k, s, own, env, ctl);
    case IfThenElse(_, t, e) =>
      ExpandKeepsTraces(k, t, own, env, ctl);
      ExpandKeepsTraces(k, e, own, env, ctl);
    case ProducerConsumer(_, _, _) => ExpandNode(k, s, own, env, ctl);
    case Realize(_, _) => ExpandNode(k, s, own, env, ctl);
    case Acquire(_, _, b) => ExpandKeepsTraces(k, b, own, env, ctl);
    case Release(_, _) =>
    case Fork(a, b) =>
      ExpandKeepsTraces(k, a, own, env, ctl);
      ExpandKeepsTraces(k, b, own, env, ctl);
      TracesMakeFork(k, Expand(a), Expand(b), own, env, ctl);
  }

  lemma {:induction false} ExpandNode(k: Watch, s: Stmt, own: bool, env: Env, ctl: Store)
    requires (s.ProducerConsumer? || s.Realize?) && AcquireSteady(s, k.w)
    ensures Traces(k, Expand(s), own, env, ctl) == Traces(k, s, own, env, ctl)
    decreases Size(s), 0
  {
    var b, body := s.body, Expand(s.body);
    ExpandSteady(b, k.w);
    if s.ProducerConsumer? {
      ExpandKeepsTraces(k, b, own || (s.func == k.func && s.isProducer), env, ctl);
      if body.Acquire? {
        ExpandKeepsTraces(k, ProducerConsumer(s.func, s.isProducer, body.body), own, env, ctl);
      }
    } else {
      ExpandKeepsTraces(k, b, own, env, ctl);
      if body.Acquire? {
        ExpandKeepsTraces(k, Realize(s.func, body.body), own, env, ctl);
      }
    }
    hide Seqs, Handle, Eval;
  }

  /** Moving an acquire out of a let whose value does not change. */
  lemma LetOverAcquire(k: Watch, v: string, e: Expr, sm: Sema, n: Expr, b: Stmt, own: bool, env: Env, ctl: Store)
    requires SemaName(sm) != v && !ExprUses(n, v) && Still(k.w, e)
    ensures Traces(k, Acquire(sm, n, LetStmt(v, e, b)), own, env, ctl)
            == Traces(k, LetStmt(v, e, Acquire(sm, n, b)), own, env, ctl)
  {
    var env' := env[v := Eval(e, env, ctl)];
    LetBinds(v, Eval(e, env, ctl), env);
    UnusedInExpr(n, v, env, env', ctl);
    SameHandle(sm, v, env, env');
    StillLet(k, v, e, b, own, env, ctl);
    StillLet(k, v, e, Acquire(sm, n, b), own, env, ctl);
    hide Eval, Seqs, Still, Handle;
  }

  lemma {:induction false} ExpandLet(k: Watch, s: Stmt, own: bool, env: Env, ctl: Store)
    requires s.LetStmt? && AcquireSteady(s, k.w)
    ensures Traces(k, Expand(s), own, env, ctl) == Traces(k, s, own, env, ctl)
    decreases Size(s), 0
  {
    var v, e, b, body := s.v, s.value, s.body, Expand(s.body);
    forall e: Env ensures Traces(k, body, own, e, ctl) == Traces(k, b, own, e, ctl) {
      ExpandKeepsTraces(k, b, own, e, ctl);
    }
    TracesLetCongruence(k, s, body, own, env, ctl);
    ExpandSteady(b, k.w);
    hide Traces, Eval, AcquireSteady;
    if body.Acquire? && SemaName(body.sema) != v && !ExprUses(body.count, v) {
      assert HasAcquire(b);
      LetOverAcquire(k, v, e, body.sema, body.count, body.body, own, env, ctl);
    }
  }

  lemma {:induction false} ExpandBlock(k: Watch, a: Stmt, b: Stmt, own: bool, env: Env, ctl: Store)
    requires AcquireSteady(Block(a, b), k.w)
    ensures Traces(k, Expand(Block(a, b)), own, env, ctl) == Traces(k, Block(a, b), own, env, ctl)
    decreases Size(Block(a, b)), 0
  {
    var first, rest := Expand(a), Expand(b);
    ExpandKeepsTraces(k, a, own, env, ctl);
    if first.Acquire? {
      ExpandSteady(a, k.w);
      SizeMakeBlock(first.body, b);
      SteadyMakeBlock(first.body, b, k.w);
      ExpandKeepsTraces(k, MakeBlock(first.body, b), own, env, ctl);
      TracesMakeBlock(k, first.body, b, own, env, ctl);
      SeqsAssoc(iset{[Acq(Handle(first.sema, env), Eval(first.count, env, ctl))]}, Traces(k, first.body, own, env, ctl),
          Traces(k, b, own, env, ctl));
    } else {
      ExpandKeepsTraces(k, b, own, env, ctl);
      TracesMakeBlock(k, first, rest, own, env, ctl);
    }
  }

  // ----- tightening forks -----

  /** Push a fork inside the lets and realizations of its children. */
  function TightFork(first: Stmt, rest: Stmt): Stmt
    decreases Size(first) + Size(rest)
  {
    if first.LetStmt? && rest.LetStmt? && first.v == rest.v && first.value == rest.value then
      LetStmt(first.v, first.value, TightFork(first.body, rest.body))
    else if first.LetStmt? && !StmtUses(rest, first.v) then
      LetStmt(first.v, first.value, TightFork(first.body, rest))
    else if rest.LetStmt? && !StmtUses(first, rest.v) then
      LetStmt(rest.v, rest.value, TightFork(first, rest.body))
    else if first.Realize? && !StmtUses(rest, first.func) then
      Realize(first.func, TightFork(first.body, rest))
    else if rest.Realize? && !StmtUses(first, rest.func) then
      Realize(rest.func, TightFork(first, rest.body))
    else
      MakeFork(first, rest)
  }

  /** Under a fork, lets and realizations that nothing uses are dropped as well. */
  function Tighten(s: Stmt, inFork: bool): Stmt {
    match s
    case NoOp => s
    case Provide(_, _, _) => s
    case Block(a, b) => MakeBlock(Tighten(a, inFork), Tighten(b, inFork))
    case For(v, lo, n, b) => For(v, lo, n, Tighten(b, inFork))
    case LetStmt(v, e, b) =>
      var body := Tighten(b, inFork);
      if inFork && !StmtUses(body, v) then body else LetStmt(v, e, body)
    case IfThenElse(c, t, e) => IfThenElse(c, Tighten(t, inFork), Tighten(e, inFork))
    case ProducerConsumer(f, p, b) => ProducerConsumer(f, p, Tighten(b, inFork))
    case Realize(f, b) =>
      var body := Tighten(b, inFork);
      if inFork && !StmtUses(body, f) && !StmtUses(body, f + ".buffer") then body else Realize(f, body)
    case Acquire(sm, n, b) => Acquire(sm, n, Tighten(b, inFork))
    case Release(_, _) => s
    case Fork(a, b) =>
      var first, rest := Tighten(a, true), Tighten(b, true);
      if IsNoOp(first) then rest else if IsNoOp(rest) then first else TightFork(first, rest)
  }

  /** Lets inside forks have values that do not change. */
  predicate ForkSteady(s: Stmt, w: set<string>, inFork: bool) {
    match s
    case NoOp => true
    case Provide(_, _, _) => true
    case Block(a, b) => ForkSteady(a, w, inFork) && ForkSteady(b, w, inFork)
    case For(_, _, _, b) => ForkSteady(b, w, inFork)
    case LetStmt(_, e, b) => (inFork ==> Still(w, e)) && ForkSteady(b, w, inFork)
    case IfThenElse(_, t, e) => ForkSteady(t, w, inFork) && ForkSteady(e, w, inFork)
    case ProducerConsumer(_, _, b) => ForkSteady(b, w, inFork)
    case Realize(_, b) => ForkSteady(b, w, inFork)
    case Acquire(_, _, b) => ForkSteady(b, w, inFork)
    case Release(_, _) => true
    case Fork(a, b) => ForkSteady(a, w, true) && ForkSteady(b, w, true)
  }

  lemma {:induction false} ForkSteadyMakeBlock(a: Stmt, b: Stmt, w: set<string>, inFork: bool)
    ensures ForkSteady(MakeBlock(a, b), w, inFork) <==> ForkSteady(a, w, inFork) && ForkSteady(b, w, inFork)
    decreases a
  {
    match a
    case Block(_, y) => ForkSteadyMakeBlock(y, b, w, inFork);
    case _ =>
  }

  lemma {:induction false} ForkSteadyInside(s: Stmt, w: set<string>, inFork: bool)
    requires ForkSteady(s, w, true)
    ensures ForkSteady(s, w, inFork)
  {
    match s
    case NoOp =>
    case Provide(_, _, _) =>
    case Block(a, b) => ForkSteadyInside(a, w, inFork); ForkSteadyInside(b, w, inFork);
    case For(_, _, _, b) => ForkSteadyInside(b, w, inFork);
    case LetStmt(_, _, b) => ForkSteadyInside(b, w, inFork);
    case IfThenElse(_, t, e) => ForkSteadyInside(t, w, inFork); ForkSteadyInside(e, w, inFork);
    case ProducerConsumer(_, _, b) => ForkSteadyInside(b, w, inFork);
    case Realize(_, b) => ForkSteadyInside(b, w, inFork);
    case Acquire(_, _, b) => ForkSteadyInside(b, w, inFork);
    case Release(_, _) =>
    case Fork(_, _) =>
  }

  lemma {:induction false} ForkSteadyMakeFork(a: Stmt, b: Stmt, w: set<string>)
    requires ForkSteady(a, w, true) && ForkSteady(b, w, true)
    ensures ForkSteady(MakeFork(a, b), w, true)
    decreases a
  {
    match a
    case Fork(_, y) => ForkSteadyMakeFork(y, b, w);
    case _ =>
  }

  lemma {:induction false} TightForkSteady(first: Stmt, rest: Stmt, w: set<string>)
    requires ForkSteady(first, w, true) && ForkSteady(rest, w, true)
    ensures ForkSteady(TightFork(first, rest), w, true)
    decreases Size(first) + Size(rest)
  {
    if first.LetStmt? && rest.LetStmt? && first.v == rest.v && first.value == rest.value {
      TightForkSteady(first.body, rest.body, w);
    } else if first.LetStmt? && !StmtUses(rest, first.v) {
      TightForkSteady(first.body, rest, w);
    } else if rest.LetStmt? && !StmtUses(first, rest.v) {
      TightForkSteady(first, rest.body, w);
    } else if first.Realize? && !StmtUses(rest, first.func) {
      TightForkSteady(first.body, rest, w);
    } else if rest.Realize? && !StmtUses(first, rest.func) {
      TightForkSteady(first, rest.body, w);
    } else {
      ForkSteadyMakeFork(first, rest, w);
    }
  }

  lemma {:induction false} TightenSteady(s: Stmt, w: set<string>, inFork: bool)
    requires ForkSteady(s, w, inFork)
    ensures ForkSteady(Tighten(s, inFork), w, inFork)
  {
    match s
    case NoOp =>
    case Provide(_, _, _) =>
    case Block(a, b) =>
      TightenSteady(a, w, inFork);
      TightenSteady(b, w, inFork);
      ForkSteadyMakeBlock(Tighten(a, inFork), Tighten(b, inFork), w, inFork);
    case For(_, _, _, b) => TightenSteady(b, w, inFork);
    case LetStmt(_, _, b) => TightenSteady(b, w, inFork);
    case IfThenElse(_, t, e) => TightenSteady(t, w, inFork); TightenSteady(e, w, inFork);
    case ProducerConsumer(_, _, b) => TightenSteady(b, w, inFork);
    case Realize(_, b) => TightenSteady(b, w, inFork);
    case Acquire(_, _, b) => TightenSteady(b, w, inFork);
    case Release(_, _) =>
    case Fork(a, b) =>
      TightenSteady(a, w, true);
      TightenSteady(b, w, true);
      TightForkSteady(Tighten(a, true), Tighten(b, true), w);
      ForkSteadyInside(Tighten(s, inFork), w, inFork);
  }

  lemma {:induction false} TightForkKeepsTraces(k: Watch, first: Stmt, rest: Stmt, own: bool, env: Env, ctl: Store)
    requires ForkSteady(first, k.w, true) && ForkSteady(rest, k.w, true)
    ensures Traces(k, TightFork(first, rest), own, env, ctl)
            == Merges(Traces(k, first, own, env, ctl), Traces(k, rest, own, env, ctl))
    decreases Size(first) + Size(rest)
  {
    if first.LetStmt? && rest.LetStmt? && first.v == rest.v && first.value == rest.value {
      StillLet(k, first.v, first.value, first.body, own, env, ctl);
      StillLet(k, first.v, first.value, rest.body, own, env, ctl);
      StillLet(k, first.v, first.value, TightFork(first.body, rest.body), own, env, ctl);
      TightForkKeepsTraces(k, first.body, rest.body, own, env[first.v := Eval(first.value, env, ctl)], ctl);
    } else if first.LetStmt? && !StmtUses(rest, first.v) {
      LetAside(k, first, rest, TightFork(first.body, rest), own, env, ctl);
      TightForkKeepsTraces(k, first.body, rest, own, env[first.v := Eval(first.value, env, ctl)], ctl);
    } else if rest.LetStmt? && !StmtUses(first, rest.v) {
      LetAside(k, rest, first, TightFork(first, rest.body), own, env, ctl);
      TightForkKeepsTraces(k, first, rest.body, own, env[rest.v := Eval(rest.value, env, ctl)], ctl);
    } else if first.Realize? && !StmtUses(rest, first.func) {
      TightForkKeepsTraces(k, first.body, rest, own, env, ctl);
    } else if rest.Realize? && !StmtUses(first, rest.func) {
      TightForkKeepsTraces(k, first, rest.body, own, env, ctl);
    } else {
      TracesMakeFork(k, first, rest, own, env, ctl);
    }
    hide Eval, StmtUses, Merges, ForkSteady;
  }

  /** A let whose value does not change, beside a statement that does not use it. */
  lemma LetAside(k: Watch, s: Stmt, other: Stmt, inside: Stmt, own: bool, env: Env, ctl: Store)
    requires s.LetStmt? && Still(k.w, s.value) && !StmtUses(other, s.v)
    ensures var env' := env[s.v := Eval(s.value, env, ctl)];
            && Traces(k, other, own, env', ctl) == Traces(k, other, own, env, ctl)
            && Traces(k, s, own, env, ctl) == Traces(k, s.body, own, env', ctl)
            && Traces(k, LetStmt(s.v, s.value, inside), own, env, ctl) == Traces(k, inside, own, env', ctl)
  {
    var x := Eval(s.value, env, ctl);
    LetBinds(s.v, x, env);
    UnusedInStmt(k, other, own, s.v, env, env[s.v := x], ctl);
    StillLet(k, s.v, s.value, s.body, own, env, ctl);
    StillLet(k, s.v, s.value, inside, own, env, ctl);
  }

  /** TightenForkNodes keeps the possible sequences of every statement whose lets inside forks have values that do not
      change. */
  lemma {:induction false} TightenKeepsTraces(k: Watch, s: Stmt, inFork: bool, own: bool, env: Env, ctl: Store)
    requires ForkSteady(s, k.w, inFork)
    ensures Traces(k, Tighten(s, inFork), own, env, ctl) == Traces(k, s, own, env, ctl)
    decreases s, 1
  {
    match s
    case NoOp =>
    case Provide(_, _, _) =>
    case Block(a, b) =>
      TightenKeepsTraces(k, a, inFork, own, env, ctl);
      TightenKeepsTraces(k, b, inFork, own, env, ctl);
      TracesMakeBlock(k, Tighten(a, inFork), Tighten(b, inFork), own, env, ctl);
    case For(v, lo, n, b) =>
      forall e: Env ensures Traces(k, Tighten(b, inFork), own, e, ctl) == Traces(k, b, own, e, ctl) {
        TightenKeepsTraces(k, b, inFork, own, e, ctl);
      }
      TracesForCongruence(k, s, Tighten(b, inFork), own, env, ctl);
    case LetStmt(v, e, b) =>
      var body := Tighten(b, inFork);
      forall e: Env ensures Traces(k, body, own, e, ctl) == Traces(k, b, own, e, ctl) {
        TightenKeepsTraces(k, b, inFork, own, e, ctl);
      }
      TracesLetCongruence(k, s, body, own, env, ctl);
      if inFork && !StmtUses(body, v) {
        var x := Eval(e, env, ctl);
        LetBinds(v, x, env);
        UnusedInStmt(k, body, own, v, env, env[v := x], ctl);
        StillLet(k, v, e, body, own, env, ctl);
      }
    case IfThenElse(_, t, e) =>
      TightenKeepsTraces(k, t, inFork, own, env, ctl);
      TightenKeepsTraces(k, e, inFork, own, env, ctl);
    case ProducerConsumer(f, p, b) => TightenKeepsTraces(k, b, inFork, own || (f == k.func && p), env, ctl);
    case Realize(_, b) => TightenKeepsTraces(k, b, inFork, own, env, ctl);
    case Acquire(_, _, b) => TightenKeepsTraces(k, b, inFork, own, env, ctl);
    case Release(_, _) =>
    case Fork(_, _) => TightenFork(k, s, inFork, own, env, ctl);
  }

  lemma {:induction false} TightenFork(k: Watch, s: Stmt, inFork: bool, own: bool, env: Env, ctl: Store)
    requires s.Fork? && ForkSteady(s, k.w, inFork)
    ensures Traces(k, Tighten(s, inFork), own, env, ctl) == Traces(k, s, own, env, ctl)
    decreases s, 0
  {
    var a, b := s.first, s.rest;
    var first, rest := Tighten(a, true), Tighten(b, true);
    TightenKeepsTraces(k, a, true, own, env, ctl);
    TightenKeepsTraces(k, b, true, own, env, ctl);
    MergesUnit(Traces(k, a, own, env, ctl));
    MergesUnit(Traces(k, b, own, env, ctl));
    if !IsNoOp(first) && !IsNoOp(rest) {
      TightenSteady(a, k.w, true);
      TightenSteady(b, k.w, true);
      TightForkKeepsTraces(k, first, rest, own, env, ctl);
    }
  }

  // ----- moving an acquire over a let -----

  /** There is always some sequence. */
  lemma {:induction false} SomeTrace(k: Watch, s: Stmt, own: bool, env: Env, ctl: Store) returns (t: seq<Act>)
    ensures t in Traces(k, s, own, env, ctl)
    decreases s, 0
  {
    match s
    case NoOp => t := [];
    case Provide(f, i, v) => t := [Write(f, Close(i, env), Close(v, env))];
    case Block(a, b) =>
      var x := SomeTrace(k, a, own, env, ctl);
      var y := SomeTrace(k, b, own, env, ctl);
      t := x + y;
    case For(v, lo, n, b) =>
      var c := SomeChoice(k, own, lo, n, env, ctl);
      var u := SomeLoop(k, b, own, v, c.x, Nat(c.y), env, ctl);
      t := c.acts + u;
    case LetStmt(v, e, b) =>
      var c := SomeChoice(k, own, e, Const(0), env, ctl);
      var u := SomeTrace(k, b, own, env[v := c.x], ctl);
      t := c.acts + u;
    case IfThenElse(c, a, b) =>
      var d := SomeChoice(k, own, c, Const(0), env, ctl);
      var u := SomeTrace(k, if d.x != 0 then a else b, own, env, ctl);
      t := d.acts + u;
    case ProducerConsumer(f, p, b) => t := SomeTrace(k, b, own || (f == k.func && p), env, ctl);
    case Realize(_, b) => t := SomeTrace(k, b, own, env, ctl);
    case Acquire(sm, n, b) =>
      var u := SomeTrace(k, b, own, env, ctl);
      t := [Acq(Handle(sm, env), Eval(n, env, ctl))] + u;
    case Release(sm, n) => t := [Rel(Handle(sm, env), Eval(n, env, ctl))];
    case Fork(a, b) =>
      var x := SomeTrace(k, a, own, env, ctl);
      var y := SomeTrace(k, b, own, env, ctl);
      MergeOfBoth(x, y);
      t := x + y;
  }

  lemma SomeChoice(k: Watch, own: bool, e1: Expr, e2: Expr, env: Env, ctl: Store) returns (c: Choice)
    ensures c in Choices(k, own, e1, e2, env, ctl)
    ensures (Loads(e1) + Loads(e2)) * k.w != {} ==> |c.acts| == 1 && c.acts[0].Test?
  {
    if (Loads(e1) + Loads(e2)) * k.w == {} {
      c := Choice([], Eval(e1, env, ctl), Eval(e2, env, ctl));
    } else {
      c := Choice([Test(own, Close(e1, env), Close(e2, env), 0, 0)], 0, 0);
    }
  }

  lemma {:induction false} SomeLoop(k: Watch, b: Stmt, own: bool, v: string, lo: int, n: nat, env: Env, ctl: Store)
      returns (t: seq<Act>)
    ensures t in TracesLoop(k, b, own, v, lo, n, env, ctl)
    decreases b, n + 1
  {
    if n == 0 {
      t := [];
    } else {
      var x := SomeTrace(k, b, own, env[v := lo], ctl);
      var y := SomeLoop(k, b, own, v, lo + 1, n - 1, env, ctl);
      t := x + y;
    }
  }

  lemma {:induction false} MergeOfBoth(a: seq<Act>, b: seq<Act>)
    ensures IsMerge(a, b, a + b)
    decreases |a|
  {
    if a == [] {
      assert a + b == b;
      MergeUnit(b, b);
    } else {
      assert (a + b)[1..] == a[1..] + b;
      MergeOfBoth(a[1..], b);
    }
  }

  /** Moving an acquire out of a let keeps the possible sequences if and only if the value of the let does not change:
      otherwise the value is read before the acquire in the one, and after it in the other. */
  lemma LetOverAcquireExactly(k: Watch, v: string, e: Expr, sm: Sema, n: Expr, b: Stmt, own: bool, env: Env, ctl: Store)
    requires SemaName(sm) != v && !ExprUses(n, v)
    ensures Still(k.w, e) <==>
            Traces(k, Acquire(sm, n, LetStmt(v, e, b)), own, env, ctl)
            == Traces(k, LetStmt(v, e, Acquire(sm, n, b)), own, env, ctl)
  {
    var inner, outer := LetStmt(v, e, Acquire(sm, n, b)), Acquire(sm, n, LetStmt(v, e, b));
    if Still(k.w, e) {
      LetOverAcquire(k, v, e, sm, n, b, own, env, ctl);
    } else {
      var t := SomeTrace(k, outer, own, env, ctl);
      assert t[0].Acq?;
      hide Traces;
      if t in Traces(k, inner, own, env, ctl) {
        TestsFirst(k, v, e, Acquire(sm, n, b), own, env, ctl, t);
      }
    }
  }

  /** A let whose value can change reads it before anything else. */
  lemma TestsFirst(k: Watch, v: string, e: Expr, b: Stmt, own: bool, env: Env, ctl: Store, t: seq<Act>)
    requires !Still(k.w, e) && t in Traces(k, LetStmt(v, e, b), own, env, ctl)
    ensures t != [] && t[0].Test?
  {
    assert (Loads(e) + Loads(Const(0))) * k.w == Loads(e) * k.w;
    var d, r :| d in Choices(k, own, e, Const(0), env, ctl) && r in Traces(k, b, own, env[v := d.x], ctl)
                && t == d.acts + r;
    assert d.acts[0].Test?;
  }

  /** Moving a fork inside a let, beside a statement that stores: the possible sequences stay if and only if the value
      of the let does not change, since otherwise it is no longer read after the store. */
  lemma LetOverForkExactly(k: Watch, v: string, e: Expr, a: Stmt, rest: Stmt, own: bool, env: Env, ctl: Store)
    requires rest.Provide? && !StmtUses(rest, v)
    ensures Still(k.w, e) <==>
            Traces(k, LetStmt(v, e, Fork(a, rest)), own, env, ctl)
            == Traces(k, Fork(LetStmt(v, e, a), rest), own, env, ctl)
  {
    var first, hoisted := LetStmt(v, e, a), LetStmt(v, e, Fork(a, rest));
    hide *;
    if Still(k.w, e) {
      LetOverFork(k, first, rest, own, env, ctl);
    } else {
      var t := StoreFirst(k, first, rest, own, env, ctl);
      if t in Traces(k, hoisted, own, env, ctl) {
        TestsFirst(k, v, e, Fork(a, rest), own, env, ctl, t);
      }
    }
  }

  lemma LetOverFork(k: Watch, first: Stmt, rest: Stmt, own: bool, env: Env, ctl: Store)
    requires first.LetStmt? && Still(k.w, first.value) && !StmtUses(rest, first.v)
    ensures Traces(k, LetStmt(first.v, first.value, Fork(first.body, rest)), own, env, ctl)
            == Traces(k, Fork(first, rest), own, env, ctl)
  {
    var env' := env[first.v := Eval(first.value, env, ctl)];
    assert Traces(k, Fork(first, rest), own, env, ctl)
        == Merges(Traces(k, first, own, env, ctl), Traces(k, rest, own, env, ctl));
    assert Traces(k, Fork(first.body, rest), own, env', ctl)
        == Merges(Traces(k, first.body, own, env', ctl), Traces(k, rest, own, env', ctl));
    hide *;
    LetAside(k, first, rest, Fork(first.body, rest), own, env, ctl);
  }

  /** What runs beside a store can come after it. */
  lemma StoreFirst(k: Watch, first: Stmt, rest: Stmt, own: bool, env: Env, ctl: Store) returns (t: seq<Act>)
    requires rest.Provide?
    ensures t in Traces(k, Fork(first, rest), own, env, ctl) && t != [] && t[0].Write?
  {
    var u := SomeTrace(k, first, own, env, ctl);
    var x := SomeTrace(k, rest, own, env, ctl);
    assert |x| == 1 && x[0].Write?;
    t := x + u;
    MergeOfBoth(x, u);
    MergeSwap(x, u, t);
    assert Merged(Traces(k, first, own, env, ctl), Traces(k, rest, own, env, ctl), t);
  }

  /** Where no store changes what control reads, both conditions hold of every statement. */
  lemma {:induction false} NothingChanges(s: Stmt, inFork: bool)
    ensures AcquireSteady(s, {}) && ForkSteady(s, {}, inFork)
  {
    match s
    case NoOp =>
    case Provide(_, _, _) =>
    case Block(a, b) => NothingChanges(a, inFork); NothingChanges(b, inFork);
    case For(_, _, _, b) => NothingChanges(b, inFork);
    case LetStmt(_, _, b) => NothingChanges(b, inFork);
    case IfThenElse(_, t, e) => NothingChanges(t, inFork); NothingChanges(e, inFork);
    case ProducerConsumer(_, _, b) => NothingChanges(b, inFork);
    case Realize(_, b) => NothingChanges(b, inFork);
    case Acquire(_, _, b) => NothingChanges(b, inFork);
    case Release(_, _) =>
    case Fork(a, b) => NothingChanges(a, true); NothingChanges(b, true);
  }

  // ----- against the meaning on one thread -----

  function SemaNames(s: Stmt): set<string> {
    match s
    case NoOp => {}
    case Provide(_, _, _) => {}
    case Block(a, b) => SemaNames(a) + SemaNames(b)
    case For(_, _, _, b) => SemaNames(b)
    case LetStmt(_, _, b) => SemaNames(b)
    case IfThenElse(_, t, e) => SemaNames(t) + SemaNames(e)
    case ProducerConsumer(_, _, b) => SemaNames(b)
    case Realize(_, b) => SemaNames(b)
    case Acquire(sm, _, b) => {SemaName(sm)} + SemaNames(b)
    case Release(sm, _) => {SemaName(sm)}
    case Fork(a, b) => SemaNames(a) + SemaNames(b)
  }

  /** The variables that loops and lets bind. */
  function Binders(s: Stmt): set<string> {
    match s
    case NoOp => {}
    case Provide(_, _, _) => {}
    case Block(a, b) => Binders(a) + Binders(b)
    case For(v, _, _, b) => {v} + Binders(b)
    case LetStmt(v, _, b) => {v} + Binders(b)
    case IfThenElse(_, t, e) => Binders(t) + Binders(e)
    case ProducerConsumer(_, _, b) => Binders(b)
    case Realize(_, b) => Binders(b)
    case Acquire(_, _, b) => Binders(b)
    case Release(_, _) => {}
    case Fork(a, b) => Binders(a) + Binders(b)
  }

  /** The functions loaded by semaphore counts. */
  function CountLoads(s: Stmt): set<string> {
    match s
    case NoOp => {}
    case Provide(_, _, _) => {}
    case Block(a, b) => CountLoads(a) + CountLoads(b)
    case For(_, _, _, b) => CountLoads(b)
    case LetStmt(_, _, b) => CountLoads(b)
    case IfThenElse(_, t, e) => CountLoads(t) + CountLoads(e)
    case ProducerConsumer(_, _, b) => CountLoads(b)
    case Realize(_, b) => CountLoads(b)
    case Acquire(_, n, b) => Loads(n) + CountLoads(b)
    case Release(_, n) => Loads(n)
    case Fork(a, b) => CountLoads(a) + CountLoads(b)
  }

  /** On one thread: semaphores are not defined by lets and their counts do not change, and the store still agrees with
      the starting one on what does not change. */
  ghost predicate Alone(k: Watch, s: Stmt, env: Env, store: Store, ctl: Store) {
    && ForkFree(s) && Provided(s) <= k.w && CountLoads(s) * k.w == {}
    && AgreeOutside(k.w, store, ctl) && SemaNames(s) !! env.Keys + Binders(s)
  }

  lemma AloneAfter(k: Watch, a: Stmt, env: Env, store: Store, ctl: Store)
    requires Provided(a) <= k.w && AgreeOutside(k.w, store, ctl)
    ensures AgreeOutside(k.w, Run(a, env, store), ctl)
  {
    RunStaysInside(a, env, store, k.w);
  }

  function FoundValues(k: Watch, own: bool, e1: Expr, e2: Expr, env: Env, store: Store): Choice {
    Choice(Tests(k, own, e1, e2, env, store), Eval(e1, env, store), Eval(e2, env, store))
  }

  /** The one choice that finds the right values. */
  lemma RightChoice(k: Watch, own: bool, e1: Expr, e2: Expr, env: Env, store: Store, ctl: Store)
    requires AgreeOutside(k.w, store, ctl)
    ensures forall c: Choice :: c in Choices(k, own, e1, e2, env, ctl) && Real(c.acts, store)
                                <==> c == FoundValues(k, own, e1, e2, env, store)
    ensures DoAll(FoundValues(k, own, e1, e2, env, store).acts, store) == store
  {
    hide *;
    var right := FoundValues(k, own, e1, e2, env, store);
    RightIsChoice(k, own, e1, e2, env, store, ctl);
    ChoiceAt(k, own, e1, e2, env, store, ctl, right);
    forall c: Choice | c in Choices(k, own, e1, e2, env, ctl) ensures Real(c.acts, store) <==> c == right {
      ChoiceAt(k, own, e1, e2, env, store, ctl, c);
    }
  }

  lemma StillFound(k: Watch, e1: Expr, e2: Expr, env: Env, store: Store, ctl: Store)
    requires AgreeOutside(k.w, store, ctl) && (Loads(e1) + Loads(e2)) * k.w == {}
    ensures Eval(e1, env, store) == Eval(e1, env, ctl) && Eval(e2, env, store) == Eval(e2, env, ctl)
  {
    assert Loads(e1) * k.w == {} && Loads(e2) * k.w == {};
    hide Loads, Eval;
    EvalOutside(e1, env, k.w, store, ctl);
    EvalOutside(e2, env, k.w, store, ctl);
  }

  lemma RightIsChoice(k: Watch, own: bool, e1: Expr, e2: Expr, env: Env, store: Store, ctl: Store)
    requires AgreeOutside(k.w, store, ctl)
    ensures FoundValues(k, own, e1, e2, env, store) in Choices(k, own, e1, e2, env, ctl)
  {
    hide Loads, Eval, Close;
    if (Loads(e1) + Loads(e2)) * k.w == {} {
      StillFound(k, e1, e2, env, store, ctl);
    }
  }

  lemma ChoiceAt(k: Watch, own: bool, e1: Expr, e2: Expr, env: Env, store: Store, ctl: Store, c: Choice)
    requires AgreeOutside(k.w, store, ctl) && c in Choices(k, own, e1, e2, env, ctl)
    ensures Real(c.acts, store) <==> c == FoundValues(k, own, e1, e2, env, store)
    ensures DoAll(c.acts, store) == store
  {
    hide Loads, Eval, Close;
    if (Loads(e1) + Loads(e2)) * k.w == {} {
      StillFound(k, e1, e2, env, store, ctl);
    } else {
      hide Real, DoAll;
      RecordedTest(own, e1, e2, c.x, c.y, env, store);
    }
  }

  lemma RecordedTest(own: bool, e1: Expr, e2: Expr, x: int, y: int, env: Env, store: Store)
    ensures var t := [Test(own, Close(e1, env), Close(e2, env), x, y)];
            DoAll(t, store) == store && (Real(t, store) <==> x == Eval(e1, env, store) && y == Eval(e2, env, store))
  {
    CloseMeans(e1, env, store);
    CloseMeans(e2, env, store);
    var t := [Test(own, Close(e1, env), Close(e2, env), x, y)];
    assert t[1..] == [];
    hide Eval, Close;
  }

  ghost predicate OneReal(T: iset<seq<Act>>, store: Store, u: seq<Act>) {
    forall t :: t in T && Real(t, store) <==> t == u
  }

  /** One thing after another. */
  lemma OneRealSeqs(A: iset<seq<Act>>, B: iset<seq<Act>>, a: seq<Act>, b: seq<Act>, store: Store)
    requires OneReal(A, store, a) && OneReal(B, DoAll(a, store), b)
    ensures OneReal(Seqs(A, B), store, a + b)
  {
    RealConcat(a, b, store);
    assert a in A && b in B;
    forall t | t in Seqs(A, B) && Real(t, store) ensures t == a + b {
      var x, y :| x in A && y in B && t == x + y;
      RealConcat(x, y, store);
    }
  }

  /** Control, and then what depends on it. */
  lemma OneRealAfter(T: iset<seq<Act>>, C: iset<Choice>, F: (int, int) -> iset<seq<Act>>, c: Choice, b: seq<Act>,
                     store: Store)
    requires T == iset d, t | d in C && t in F(d.x, d.y) :: d.acts + t
    requires forall d: Choice :: d in C && Real(d.acts, store) <==> d == c
    requires DoAll(c.acts, store) == store && OneReal(F(c.x, c.y), store, b)
    ensures OneReal(T, store, c.acts + b)
  {
    assert c in C && Real(c.acts, store) && b in F(c.x, c.y);
    RealConcat(c.acts, b, store);
    forall t | t in T && Real(t, store) ensures t == c.acts + b {
      var d, u :| d in C && u in F(d.x, d.y) && t == d.acts + u;
      RealConcat(d.acts, u, store);
    }
  }

  /** On a statement without forks the one possible sequence whose tests find what they recorded is what the statement
      does on one thread, whatever its control reads. */
  lemma {:induction false} TracesAreTrace(k: Watch, s: Stmt, own: bool, env: Env, store: Store, ctl: Store)
    requires Alone(k, s, env, store, ctl)
    ensures OneReal(Traces(k, s, own, env, ctl), store, Trace(k, s, own, env, store))
    decreases s, 1
  {
    match s
    case NoOp =>
    case Provide(_, _, _) => assert Trace(k, s, own, env, store)[1..] == [];
    case Block(a, b) =>
      AloneAfter(k, a, env, store, ctl);
      TracesAreTrace(k, a, own, env, store, ctl);
      TracesAreTrace(k, b, own, env, Run(a, env, store), ctl);
      RunIsTrace(k, a, own, env, store);
      OneRealSeqs(Traces(k, a, own, env, ctl), Traces(k, b, own, env, ctl), Trace(k, a, own, env, store),
          Trace(k, b, own, env, Run(a, env, store)), store);
    case For(_, _, _, _) => ForIsTrace(k, s, own, env, store, ctl);
    case LetStmt(_, _, _) => LetIsTrace(k, s, own, env, store, ctl);
    case IfThenElse(_, _, _) => IfIsTrace(k, s, own, env, store, ctl);
    case ProducerConsumer(f, p, b) => TracesAreTrace(k, b, own || (f == k.func && p), env, store, ctl);
    case Realize(_, b) => TracesAreTrace(k, b, own, env, store, ctl);
    case Acquire(sm, n, b) =>
      var a := [Acq(sm, Eval(n, env, store))];
      assert Loads(n) <= CountLoads(s);
      EvalOutside(n, env, k.w, store, ctl);
      TracesAreTrace(k, b, own, env, store, ctl);
      assert a[1..] == [];
      OneRealSeqs(iset{a}, Traces(k, b, own, env, ctl), a, Trace(k, b, own, env, store), store);
    case Release(_, n) =>
      EvalOutside(n, env, k.w, store, ctl);
      assert Trace(k, s, own, env, store)[1..] == [];
  }

  lemma {:induction false} ForIsTrace(k: Watch, s: Stmt, own: bool, env: Env, store: Store, ctl: Store)
    requires s.For? && Alone(k, s, env, store, ctl)
    ensures OneReal(Traces(k, s, own, env, ctl), store, Trace(k, s, own, env, store))
    decreases s, 0
  {
    var lo, n := Eval(s.min, env, store), Eval(s.extent, env, store);
    RightChoice(k, own, s.min, s.extent, env, store, ctl);
    LoopIsTrace(k, s.body, own, s.v, lo, Nat(n), env, store, ctl);
    OneRealAfter(Traces(k, s, own, env, ctl), Choices(k, own, s.min, s.extent, env, ctl),
        (x, y) => TracesLoop(k, s.body, own, s.v, x, Nat(y), env, ctl),
        FoundValues(k, own, s.min, s.extent, env, store), TraceLoop(k, s.body, own, s.v, lo, Nat(n), env, store),
        store);
  }

  lemma {:induction false} LetIsTrace(k: Watch, s: Stmt, own: bool, env: Env, store: Store, ctl: Store)
    requires s.LetStmt? && Alone(k, s, env, store, ctl)
    ensures OneReal(Traces(k, s, own, env, ctl), store, Trace(k, s, own, env, store))
    decreases s, 0
  {
    var x := Eval(s.value, env, store);
    RightChoice(k, own, s.value, Const(0), env, store, ctl);
    TracesAreTrace(k, s.body, own, env[s.v := x], store, ctl);
    OneRealAfter(Traces(k, s, own, env, ctl), Choices(k, own, s.value, Const(0), env, ctl),
        (x, _) => Traces(k, s.body, own, env[s.v := x], ctl),
        FoundValues(k, own, s.value, Const(0), env, store), Trace(k, s.body, own, env[s.v := x], store), store);
  }

  lemma {:induction false} IfIsTrace(k: Watch, s: Stmt, own: bool, env: Env, store: Store, ctl: Store)
    requires s.IfThenElse? && Alone(k, s, env, store, ctl)
    ensures OneReal(Traces(k, s, own, env, ctl), store, Trace(k, s, own, env, store))
    decreases s, 0
  {
    var x := Eval(s.cond, env, store);
    var taken := if x != 0 then s.thenCase else s.elseCase;
    RightChoice(k, own, s.cond, Const(0), env, store, ctl);
    TracesAreTrace(k, taken, own, env, store, ctl);
    OneRealAfter(Traces(k, s, own, env, ctl), Choices(k, own, s.cond, Const(0), env, ctl),
        (x, _) => Traces(k, if x != 0 then s.thenCase else s.elseCase, own, env, ctl),
        FoundValues(k, own, s.cond, Const(0), env, store), Trace(k, taken, own, env, store), store);
  }

  lemma {:induction false} LoopIsTrace(k: Watch, b: Stmt, own: bool, v: string, lo: int, n: nat, env: Env, store: Store,
                                       ctl: Store)
    requires ForkFree(b) && Provided(b) <= k.w && CountLoads(b) * k.w == {} && AgreeOutside(k.w, store, ctl)
    requires SemaNames(b) !! env.Keys + {v} + Binders(b)
    ensures OneReal(TracesLoop(k, b, own, v, lo, n, env, ctl), store, TraceLoop(k, b, own, v, lo, n, env, store))
    decreases b, n + 2
  {
    if n != 0 {
      var inner, mid := env[v := lo], Run(b, env[v := lo], store);
      AloneAfter(k, b, inner, store, ctl);
      TracesAreTrace(k, b, own, inner, store, ctl);
      RunIsTrace(k, b, own, inner, store);
      LoopIsTrace(k, b, own, v, lo + 1, n - 1, env, mid, ctl);
      OneRealSeqs(Traces(k, b, own, inner, ctl), TracesLoop(k, b, own, v, lo + 1, n - 1, env, ctl),
          Trace(k, b, own, inner, store), TraceLoop(k, b, own, v, lo + 1, n - 1, env, mid), store);
    }
  }
}
