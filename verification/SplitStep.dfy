/** One directive: which iterations of the new loops run which iterations of the old ones. */
module SplitStep {
  import opened Wrappers
  import opened ApplySplit
  import opened SplitCode

  // ----- bounds -----

  predicate IsFrame(n: Name) {
    n.LoopMin? || n.LoopMax? || n.LoopExtent? || n.Param?
  }

  /** The bounds and parameters are those of `b`. */
  ghost predicate SameFrame(b: Env, env: Env) {
    forall n | IsFrame(n) :: Get(env, n) == Get(b, n)
  }

  function MinOf(b: Env, d: string): int { Get(b, LoopMin(d)) }
  function MaxOf(b: Env, d: string): int { Get(b, LoopMax(d)) }
  function ExtentOf(b: Env, d: string): int { Get(b, LoopExtent(d)) }

  /** The values of the loops. */
  function LoopsOf(env: Env, dims: set<string>): map<string, int> {
    map d | d in dims :: Get(env, Loop(d))
  }

  /** An iteration of the loops over `dims`. */
  ghost predicate Inside(p: map<string, int>, dims: set<string>, b: Env) {
    p.Keys == dims && forall d | d in dims :: MinOf(b, d) <= p[d] < MinOf(b, d) + ExtentOf(b, d)
  }

  lemma {:induction false} ClosedEval(e: Expr, b: Env, env: Env)
    requires Closed(e) && SameFrame(b, env)
    ensures Eval(e, env) == Eval(e, b)
  {
    match e
    case Imm(_) =>
    case Var(n) => assert n in Free(e);
    case Bin(_, x, y) =>
      assert Free(x) <= Free(e) && Free(y) <= Free(e);
      ClosedEval(x, b, env);
      ClosedEval(y, b, env);
  }

  // ----- one split -----

  predicate Shifted(proved: Prover, s: Split, al: Alignment) {
    s.SplitVar? && !Trivial(proved, s, al) && s.tail.ShiftInwards?
  }

  predicate Guarded(proved: Prover, s: Split, al: Alignment) {
    s.SplitVar? && !Trivial(proved, s, al) && s.tail.GuardWithIf?
  }

  /** Where the inner loop starts. */
  function StartAt(shifted: bool, f: int, from: int, to: int, o: int): int {
    var start := o * f + from;
    if shifted && to + (1 - f) < start then to + (1 - f) else start
  }

  lemma EvalBin(op: Op, x: Expr, y: Expr, env: Env)
    ensures Eval(Bin(op, x, y), env) == Apply(op, Eval(x, env), Eval(y, env))
  {
  }

  lemma RejoinRuns(s: Split, base: Expr, env: Env)
    requires s.SplitVar? && s.inner != s.from
    ensures var x := Eval(base, env);
            Run(Rejoin(s, base), env) == Some(env[Base(s.inner) := x][Loop(s.from) := x + Get(env, Loop(s.inner))])
  {
    var r, x := Rejoin(s, base), Eval(base, env);
    var joined := Bin(Add, Var(Base(s.inner)), Var(Loop(s.inner)));
    var env1 := env[Base(s.inner) := x];
    var env2 := env1[Loop(s.from) := x + Get(env, Loop(s.inner))];
    assert r[1..] == [r[1], r[2]] && [r[1], r[2]][1..] == [r[2]] && [r[2]][1..] == [];
    assert Run([r[2]], env) == Some(env1);
    assert Eval(joined, env1) == x + Get(env, Loop(s.inner)) == Eval(joined, env2);
    assert Run([r[1], r[2]], env) == Some(env2);
    assert env2[Loop(s.from) := x + Get(env, Loop(s.inner))] == env2;
  }

  lemma GuardRuns(s: Split, r: seq<Result>, env: Env)
    requires s.SplitVar? && Run(r, env).Some?
    ensures var env1 := Run(r, env).value;
            var x := Get(env1, Loop(s.outer)) * Eval(s.factor, env1) + Get(env1, Loop(s.inner));
            Run(Guard(s) + r, env)
            == if x < ExtentOf(env1, s.from) then
                Some(env1[Rebased(s.from) := x][Loop(s.from) := x + MinOf(env1, s.from)]) else None
  {
    var g, env1 := Guard(s), Run(r, env).value;
    var x := Get(env1, Loop(s.outer)) * Eval(s.factor, env1) + Get(env1, Loop(s.inner));
    assert (g + r)[1..] == [g[1], g[2]] + r && ([g[1], g[2]] + r)[1..] == [g[2]] + r && ([g[2]] + r)[1..] == r;
    var env2 := env1[Rebased(s.from) := x];
    EvalBin(Mul, Var(Loop(s.outer)), s.factor, env1);
    assert Eval(g[2].value, env1) == x;
    assert Run([g[2]] + r, env) == Some(env2);
    assert Eval(g[1].value, env2) == if x < ExtentOf(env1, s.from) then 1 else 0;
    assert Run([g[1], g[2]] + r, env) == if x < ExtentOf(env1, s.from) then Some(env2) else None;
    assert Eval(g[0].value, env2) == x + MinOf(env1, s.from);
  }

  /** What a split computes for the old loop, and when it skips an iteration. */
  lemma SplitRuns(proved: Prover, s: Split, al: Alignment, b: Env, env: Env)
    requires s.SplitVar? && s.inner != s.from && s.outer != s.from && Closed(s.factor) && SameFrame(b, env)
    ensures var f, o, i, r := Eval(s.factor, b), Get(env, Loop(s.outer)), Get(env, Loop(s.inner)),
            Run(Results(proved, s, al), env);
            && (r.Some? <==> (Guarded(proved, s, al) ==> o * f + i < ExtentOf(b, s.from)))
            && (r.Some? ==> Joined(s, b, env, r.value,
                StartAt(Shifted(proved, s, al), f, MinOf(b, s.from), MaxOf(b, s.from), o) + i))
  {
    var base := if Shifted(proved, s, al) then ShiftedBase(s) else SplitBase(s);
    PlainRuns(s, Shifted(proved, s, al), b, env);
    assert Results(proved, s, al) == if Guarded(proved, s, al) then Guard(s) + Rejoin(s, base) else Rejoin(s, base);
    assert Guarded(proved, s, al) ==> !Shifted(proved, s, al);
    hide Results, Run, Rejoin, Guard, Eval, ShiftedBase, SplitBase, SameFrame, Trivial, Closed, Shifted, Guarded,
        Joined;
    if Guarded(proved, s, al) {
      GuardedRuns(s, Rejoin(s, base), b, env, Run(Rejoin(s, base), env).value);
    }
  }

  /** The old loop has the value `x`, and the other loops and the bounds are as before. */
  ghost predicate Joined(s: Split, b: Env, env: Env, env': Env, x: int) {
    SameFrame(b, env') && Get(env', Loop(s.from)) == x && forall d | d != s.from ::
        Get(env', Loop(d)) == Get(env, Loop(d))
  }

  lemma PlainRuns(s: Split, shifted: bool, b: Env, env: Env)
    requires s.SplitVar? && s.inner != s.from && Closed(s.factor) && SameFrame(b, env)
    ensures var r := Run(Rejoin(s, if shifted then ShiftedBase(s) else SplitBase(s)), env);
            var x := StartAt(shifted, Eval(s.factor, b), MinOf(b, s.from), MaxOf(b, s.from), Get(env, Loop(s.outer)));
            r.Some? && Joined(s, b, env, r.value, x + Get(env, Loop(s.inner)))
  {
    var base := if shifted then ShiftedBase(s) else SplitBase(s);
    var x, i := Eval(base, env), Get(env, Loop(s.inner));
    ClosedEval(s.factor, b, env);
    RejoinRuns(s, base, env);
    BaseMeans(s, b, env);
    FrameKept(b, env, Base(s.inner), x);
    FrameKept(b, env[Base(s.inner) := x], Loop(s.from), x + i);
    hide Run, Rejoin, Eval, ShiftedBase, SplitBase, SameFrame, Closed;
  }

  lemma GuardedRuns(s: Split, rejoin: seq<Result>, b: Env, env: Env, env1: Env)
    requires s.SplitVar? && s.inner != s.from && s.outer != s.from && Closed(s.factor) && Run(rejoin, env) == Some(env1)
    requires var x := StartAt(false, Eval(s.factor, b), MinOf(b, s.from), MaxOf(b, s.from), Get(env, Loop(s.outer)));
             Joined(s, b, env, env1, x + Get(env, Loop(s.inner)))
    ensures var f, o, i, r := Eval(s.factor, b), Get(env, Loop(s.outer)), Get(env, Loop(s.inner)),
            Run(Guard(s) + rejoin, env);
            && (r.Some? <==> o * f + i < ExtentOf(b, s.from))
            && (r.Some? ==> Joined(s, b, env, r.value, StartAt(false, f, MinOf(b, s.from), MaxOf(b, s.from), o) + i))
  {
    hide Run, Guard, Eval, SameFrame, Closed;
    ClosedEval(s.factor, b, env1);
    GuardRuns(s, rejoin, env);
    FrameIs(b, env1, s.from);
    var y := Get(env, Loop(s.outer)) * Eval(s.factor, b) + Get(env, Loop(s.inner));
    JoinedAgain(s, b, env, env1, y, y + MinOf(b, s.from), y + MinOf(b, s.from));
  }

  /** Setting the rebased variable and the old loop leaves everything else joined. */
  lemma JoinedAgain(s: Split, b: Env, env: Env, env1: Env, x: int, y: int, z: int)
    requires Joined(s, b, env, env1, z)
    ensures Joined(s, b, env, env1[Rebased(s.from) := x][Loop(s.from) := y], y)
  {
    FrameKept(b, env1, Rebased(s.from), x);
    FrameKept(b, env1[Rebased(s.from) := x], Loop(s.from), y);
    hide SameFrame;
  }

  lemma FrameKept(b: Env, env: Env, n: Name, x: int)
    requires SameFrame(b, env) && !IsFrame(n)
    ensures SameFrame(b, env[n := x])
  {
  }

  lemma FrameIs(b: Env, env: Env, d: string)
    requires SameFrame(b, env)
    ensures MinOf(env, d) == MinOf(b, d) && MaxOf(env, d) == MaxOf(b, d) && ExtentOf(env, d) == ExtentOf(b, d)
  {
  }

  lemma BaseMeans(s: Split, b: Env, env: Env)
    requires s.SplitVar? && SameFrame(b, env) && Eval(s.factor, env) == Eval(s.factor, b)
    ensures Eval(SplitBase(s), env)
            == StartAt(false, Eval(s.factor, b), MinOf(b, s.from), MaxOf(b, s.from), Get(env, Loop(s.outer)))
    ensures Eval(ShiftedBase(s), env)
            == StartAt(true, Eval(s.factor, b), MinOf(b, s.from), MaxOf(b, s.from), Get(env, Loop(s.outer)))
  {
    var mul, last := Bin(Mul, Var(Loop(s.outer)), s.factor), Bin(Sub, Imm(1), s.factor);
    EvalBin(Mul, Var(Loop(s.outer)), s.factor, env);
    EvalBin(Add, mul, Var(LoopMin(s.from)), env);
    EvalBin(Sub, Imm(1), s.factor, env);
    EvalBin(Add, Var(LoopMax(s.from)), last, env);
    EvalBin(Min, SplitBase(s), Bin(Add, Var(LoopMax(s.from)), last), env);
    FrameIs(b, env, s.from);
    hide SameFrame;
  }

  lemma FuseRuns(s: Split, b: Env, env: Env)
    requires s.FuseVars? && s.from != s.inner && s.from != s.outer && s.inner != s.outer && SameFrame(b, env)
    ensures var r, k, f := Run(FuseResults(s), env), Get(env, Loop(s.from)), if ExtentOf(b, s.inner) <= 1 then 1
            else ExtentOf(b, s.inner);
            && r.Some? && SameFrame(b, r.value)
            && Get(r.value, Loop(s.inner)) == k % f + MinOf(b, s.inner)
            && Get(r.value, Loop(s.outer)) == k / f + MinOf(b, s.outer)
            && forall d | d != s.inner && d != s.outer :: Get(r.value, Loop(d)) == Get(env, Loop(d))
  {
    FuseIsFour(s);
    hide Eval, FuseResults, SameFrame, Run;
    var r := FuseResults(s);
    var x, y := Eval(r[0].value, env), Eval(r[1].value, env);
    var env1 := env[Loop(s.outer) := y];
    var env2 := env1[Loop(s.inner) := x];
    var env3 := env2[Loop(s.outer) := y];
    FrameKept(b, env, Loop(s.outer), y);
    FrameKept(b, env1, Loop(s.inner), x);
    FrameKept(b, env2, Loop(s.outer), y);
    FrameKept(b, env3, Loop(s.inner), x);
    FuseValues(s, b, env);
    FuseValues(s, b, env1);
    FuseValues(s, b, env2);
    FuseValues(s, b, env3);
    RunFour(r[0], r[1], r[2], r[3], env);
  }

  lemma FuseIsFour(s: Split)
    requires s.FuseVars?
    ensures var r := FuseResults(s);
            && |r| == 4 && r == [r[0], r[1], r[2], r[3]]
            && r[0].Substitution? && r[1].Substitution? && r[2].LetStmt? && r[3].LetStmt?
            && r[0].name == r[2].name == Loop(s.inner) && r[1].name == r[3].name == Loop(s.outer)
  {
  }

  lemma RunFour(a: Result, b: Result, c: Result, d: Result, env: Env)
    requires a.Substitution? && b.Substitution? && c.LetStmt? && d.LetStmt?
    ensures var env1 := env[d.name := Eval(d.value, env)];
            var env2 := env1[c.name := Eval(c.value, env1)];
            var env3 := env2[b.name := Eval(b.value, env2)];
            Run([a, b, c, d], env) == Some(env3[a.name := Eval(a.value, env3)])
  {
    hide Eval;
    var env1 := env[d.name := Eval(d.value, env)];
    var env2 := env1[c.name := Eval(c.value, env1)];
    var env3 := env2[b.name := Eval(b.value, env2)];
    assert [a, b, c, d][1..] == [b, c, d] && [b, c, d][1..] == [c, d] && [c, d][1..] == [d] && [d][1..] == [];
    assert Run([d], env) == Some(env1);
    assert Run([c, d], env) == Some(env2);
    assert Run([b, c, d], env) == Some(env3);
  }

  lemma FuseValues(s: Split, b: Env, env: Env)
    requires s.FuseVars? && SameFrame(b, env)
    ensures var r, k, f := FuseResults(s), Get(env, Loop(s.from)), if ExtentOf(b, s.inner) <= 1 then 1
            else ExtentOf(b, s.inner);
            && Eval(r[0].value, env) == k % f + MinOf(b, s.inner) && r[2].value == r[0].value
            && Eval(r[1].value, env) == k / f + MinOf(b, s.outer) && r[3].value == r[1].value
  {
    var k, f := Var(Loop(s.from)), FuseFactor(s);
    EvalBin(Max, Var(LoopExtent(s.inner)), Imm(1), env);
    EvalBin(Mod, k, f, env);
    EvalBin(Div, k, f, env);
    EvalBin(Add, Bin(Mod, k, f), Var(LoopMin(s.inner)), env);
    EvalBin(Add, Bin(Div, k, f), Var(LoopMin(s.outer)), env);
    FrameIs(b, env, s.inner);
    FrameIs(b, env, s.outer);
    var r := FuseResults(s);
    assert r[0].value == Bin(Add, Bin(Mod, k, f), Var(LoopMin(s.inner)));
    assert r[1].value == Bin(Add, Bin(Div, k, f), Var(LoopMin(s.outer)));
    var x := ExtentOf(b, s.inner);
    assert Eval(f, env) == if x <= 1 then 1 else x;
    assert Eval(Bin(Mod, k, f), env) == Get(env, Loop(s.from)) % (if x <= 1 then 1 else x);
    assert Eval(Bin(Div, k, f), env) == Get(env, Loop(s.from)) / (if x <= 1 then 1 else x);
    hide SameFrame;
  }

  lemma RenameRuns(s: Split, b: Env, env: Env)
    requires s.RenameVar? && s.from != s.outer && SameFrame(b, env)
    ensures var r := Run(RenameResults(s), env);
            && r.Some? && SameFrame(b, r.value) && Get(r.value, Loop(s.from)) == Get(env, Loop(s.outer))
            && forall d | d != s.from :: Get(r.value, Loop(d)) == Get(env, Loop(d))
  {
    var r := RenameResults(s);
    assert r[1..] == [r[1]] && [r[1]][1..] == [];
    var env1 := env[Loop(s.from) := Get(env, Loop(s.outer))];
    assert Run([r[1]], env) == Some(env1);
    assert Run(r, env) == Some(env1[Loop(s.from) := Get(env1, Loop(s.outer))]);
  }

  // ----- arithmetic -----

  lemma MulMono(a: int, b: int, f: int)
    requires a <= b && f >= 0
    ensures a * f <= b * f
  {
  }

  lemma MulLess(a: int, b: int, f: int)
    requires f >= 1 && a * f < b * f
    ensures a < b
  {
    if a >= b {
      MulMono(b, a, f);
    }
  }

  lemma QuotientUnique(q: int, r: int, o: int, i: int, f: int)
    requires 0 <= r < f && 0 <= i < f && q * f + r == o * f + i
    ensures q == o && r == i
  {
    assert (q - o) * f == i - r && (o - q) * f == r - i;
    if q > o {
      MulMono(1, q - o, f);
    } else if q < o {
      MulMono(1, o - q, f);
    }
  }

  lemma DivMod(x: int, f: int)
    requires f >= 1
    ensures x / f * f + x % f == x && 0 <= x % f < f
  {
  }

  lemma DivModUnique(o: int, i: int, f: int)
    requires 0 <= i < f
    ensures (o * f + i) / f == o && (o * f + i) % f == i
  {
    var x := o * f + i;
    DivMod(x, f);
    QuotientUnique(x / f, x % f, o, i, f);
  }

  /** The outer loop has a tile for every point, and no tile that starts past the end. */
  lemma TileOf(x: int, e: int, f: int)
    requires 0 <= x < e && f >= 1
    ensures 0 <= x / f < (e - 1 + f) / f && 0 <= x % f < f && x / f * f + x % f == x
  {
    var q, k := x / f, (e - 1 + f) / f;
    DivMod(x, f);
    DivMod(e - 1 + f, f);
    assert q * f <= x && e - 1 < k * f;
    MulLess(q, k, f);
    assert q >= 0;
  }

  lemma WholeTiles(e: int, f: int, o: int, i: int)
    requires f >= 1 && e % f == 0 && 0 <= o < (e - 1 + f) / f && 0 <= i < f
    ensures 0 <= o * f + i < e
  {
    var k := e / f;
    DivMod(e, f);
    DivModUnique(k, f - 1, f);
    assert e - 1 + f == k * f + (f - 1);
    MulMono(o, k - 1, f);
    MulMono(0, o, f);
    assert (k - 1) * f == k * f - f;
  }

  // ----- what one directive keeps -----

  /** The new bounds follow from the old ones. */
  ghost predicate Related(s: Split, b: Env) {
    match s
    case SplitVar(from, outer, inner, factor, _) =>
      var f := Eval(factor, b);
      && f >= 1 && ExtentOf(b, from) >= 0 && MaxOf(b, from) == MinOf(b, from) + ExtentOf(b, from) - 1
      && MinOf(b, inner) == 0 && ExtentOf(b, inner) == f
      && MinOf(b, outer) == 0 && ExtentOf(b, outer) == (ExtentOf(b, from) - 1 + f) / f
    case FuseVars(from, outer, inner) =>
      && ExtentOf(b, inner) >= 0 && ExtentOf(b, outer) >= 0
      && MinOf(b, from) == 0 && ExtentOf(b, from) == ExtentOf(b, inner) * ExtentOf(b, outer)
    case RenameVar(from, outer) => MinOf(b, outer) == MinOf(b, from) && ExtentOf(b, outer) == ExtentOf(b, from)
  }

  /** What the prover found divisible is divisible. */
  ghost predicate DividesWhereProved(proved: Prover, s: Split, al: Alignment, b: Env) {
    s.SplitVar? && ProvedDivisible(proved, s, InnerAligned(s, al)) && Eval(s.factor, b) >= 1 ==>
      ExtentOf(b, s.from) % Eval(s.factor, b) == 0
  }

  /** The iteration of the new loops for one of the old ones. */
  function Preimage(proved: Prover, s: Split, al: Alignment, b: Env, p: map<string, int>): map<string, int> {
    match s
    case SplitVar(from, outer, inner, factor, _) =>
      var f, x := Eval(factor, b), if from in p then p[from] else 0;
      var o := if f >= 1 then (x - MinOf(b, from)) / f else 0;
      (p - {from})[outer := o][inner := x - StartAt(Shifted(proved, s, al), f, MinOf(b, from), MaxOf(b, from), o)]
    case FuseVars(from, outer, inner) =>
      var x, y := if inner in p then p[inner] else 0, if outer in p then p[outer] else 0;
      (p - {outer, inner})[from := (y - MinOf(b, outer)) * ExtentOf(b, inner) + (x - MinOf(b, inner))]
    case RenameVar(from, outer) => (p - {from})[outer := if from in p then p[from] else 0]
  }

  /** A directive that neither repeats nor leaves out nor adds an iteration. */
  predicate Exact(proved: Prover, s: Split, al: Alignment) {
    s.SplitVar? ==> Trivial(proved, s, al) || s.tail.GuardWithIf?
  }

  ghost predicate StepReady(proved: Prover, s: Split, al: Alignment, dims: set<string>, seen: set<string>, b: Env) {
    dims <= seen && Valid(s, dims, seen) && Related(s, b) && DividesWhereProved(proved, s, al, b)
  }

  /** Every old iteration is run by the new loops. */
  lemma StepReaches(proved: Prover, s: Split, al: Alignment, dims: set<string>, seen: set<string>, b: Env,
                    p: map<string, int>)
    requires StepReady(proved, s, al, dims, seen, b) && Inside(p, dims, b)
    ensures Inside(Preimage(proved, s, al, b, p), DimsAfter(s, dims), b)
  {
    match s
    case SplitVar(from, outer, inner, factor, _) =>
      var f, x := Eval(factor, b), p[from] - MinOf(b, from);
      TileOf(x, ExtentOf(b, from), f);
      hide Eval, Trivial, Valid, Closed, DividesWhereProved;
    case FuseVars(from, outer, inner) =>
      FusedInside(p[outer] - MinOf(b, outer), p[inner] - MinOf(b, inner), ExtentOf(b, outer), ExtentOf(b, inner));
    case RenameVar(from, outer) =>
  }

  lemma FusedInside(y: int, x: int, m: int, n: int)
    requires 0 <= y < m && 0 <= x < n
    ensures 0 <= y * n + x < n * m
  {
    MulMono(0, y, n);
    MulMono(y, m - 1, n);
    assert (m - 1) * n + n == n * m;
  }

  /** Running an iteration of the new loops at the preimage gives the old iteration. */
  lemma StepRuns(proved: Prover, s: Split, al: Alignment, dims: set<string>, seen: set<string>, b: Env, p: map<string,
                 int>, env: Env)
    requires StepReady(proved, s, al, dims, seen, b) && Inside(p, dims, b) && SameFrame(b, env)
    requires LoopsOf(env, DimsAfter(s, dims)) == Preimage(proved, s, al, b, p)
    ensures var r := Run(Results(proved, s, al), env); r.Some? && SameFrame(b, r.value) && LoopsOf(r.value, dims) == p
  {
    LoopsAre(env, DimsAfter(s, dims), Preimage(proved, s, al, b, p));
    match s
    case SplitVar(_, _, _, _, _) => SplitStepRuns(proved, s, al, dims, seen, b, p, env);
    case FuseVars(_, _, _) => FuseStepRuns(proved, s, al, dims, seen, b, p, env);
    case RenameVar(from, outer) =>
      RenameRuns(s, b, env);
      hide Run, RenameResults, SameFrame;
  }

  lemma LoopsAre(env: Env, dims: set<string>, q: map<string, int>)
    requires LoopsOf(env, dims) == q
    ensures forall d | d in dims :: d in q && Get(env, Loop(d)) == q[d]
  {
    forall d | d in dims ensures d in q && Get(env, Loop(d)) == q[d] {
      assert LoopsOf(env, dims)[d] == q[d];
    }
  }

  lemma SplitStepRuns(proved: Prover, s: Split, al: Alignment, dims: set<string>, seen: set<string>, b: Env,
                      p: map<string, int>, env: Env)
    requires s.SplitVar? && StepReady(proved, s, al, dims, seen, b) && Inside(p, dims, b) && SameFrame(b, env)
    requires var q := Preimage(proved, s, al, b, p); forall d | d in DimsAfter(s, dims) ::
             d in q && Get(env, Loop(d)) == q[d]
    ensures var r := Run(Results(proved, s, al), env); r.Some? && SameFrame(b, r.value) && LoopsOf(r.value, dims) == p
  {
    SplitRuns(proved, s, al, b, env);
    AtPreimage(proved, s, al, dims, seen, b, p, env);
    assert Guarded(proved, s, al) ==> !Shifted(proved, s, al);
    hide Run, Results, Eval, SameFrame, Preimage, StepReady, Guarded, Shifted, StartAt, ExtentOf, MinOf, MaxOf;
    var r := Run(Results(proved, s, al), env);
    if r.Some? {
      forall d | d in dims ensures Get(r.value, Loop(d)) == p[d] {
      }
      SameLoops(p, r.value, dims);
    }
  }

  /** The loop values at the preimage, and what the rebased iteration comes to. */
  lemma AtPreimage(proved: Prover, s: Split, al: Alignment, dims: set<string>, seen: set<string>, b: Env,
                   p: map<string, int>, env: Env)
    requires s.SplitVar? && StepReady(proved, s, al, dims, seen, b) && Inside(p, dims, b)
    requires var q := Preimage(proved, s, al, b, p); forall d | d in DimsAfter(s, dims) ::
             d in q && Get(env, Loop(d)) == q[d]
    ensures s.from in p && s.inner != s.from && s.outer != s.from && Closed(s.factor) && p.Keys == dims
    ensures forall d | d in dims && d != s.from :: Get(env, Loop(d)) == p[d]
    ensures var f, o, i := Eval(s.factor, b), Get(env, Loop(s.outer)), Get(env, Loop(s.inner));
            && StartAt(Shifted(proved, s, al), f, MinOf(b, s.from), MaxOf(b, s.from), o) + i == p[s.from]
            && (!Shifted(proved, s, al) ==> o * f + i < ExtentOf(b, s.from))
  {
    var q, f := Preimage(proved, s, al, b, p), Eval(s.factor, b);
    TileOf(p[s.from] - MinOf(b, s.from), ExtentOf(b, s.from), f);
    assert Get(env, Loop(s.outer)) == (p[s.from] - MinOf(b, s.from)) / f;
    hide Eval, Trivial, DividesWhereProved, Related, Closed, Shifted;
    forall d | d in dims && d != s.from ensures Get(env, Loop(d)) == p[d] {
      assert q[d] == p[d];
    }
  }

  lemma FuseStepRuns(proved: Prover, s: Split, al: Alignment, dims: set<string>, seen: set<string>, b: Env,
                     p: map<string, int>, env: Env)
    requires s.FuseVars? && StepReady(proved, s, al, dims, seen, b) && Inside(p, dims, b) && SameFrame(b, env)
    requires var q := Preimage(proved, s, al, b, p); forall d | d in DimsAfter(s, dims) ::
             d in q && Get(env, Loop(d)) == q[d]
    ensures var r := Run(Results(proved, s, al), env); r.Some? && SameFrame(b, r.value) && LoopsOf(r.value, dims) == p
  {
    var q, y, x := Preimage(proved, s, al, b, p), p[s.outer] - MinOf(b, s.outer), p[s.inner] - MinOf(b, s.inner);
    FuseRuns(s, b, env);
    DivModUnique(y, x, ExtentOf(b, s.inner));
    assert Get(env, Loop(s.from)) == q[s.from] == y * ExtentOf(b, s.inner) + x;
    var r := Run(Results(proved, s, al), env).value;
    hide Run, FuseResults, SameFrame, Related, DividesWhereProved;
    forall d | d in dims ensures Get(r, Loop(d)) == p[d] {
      if d != s.inner && d != s.outer {
        assert q[d] == p[d];
      }
    }
    SameLoops(p, r, dims);
    hide LoopsOf, Preimage;
  }

  /** An exact directive runs only old iterations, and each from one place only. */
  lemma StepInverts(proved: Prover, s: Split, al: Alignment, dims: set<string>, seen: set<string>, b: Env, env: Env)
    requires StepReady(proved, s, al, dims, seen, b) && Exact(proved, s, al) && SameFrame(b, env)
    requires Inside(LoopsOf(env, DimsAfter(s, dims)), DimsAfter(s, dims), b) && Run(Results(proved, s, al), env).Some?
    ensures var r := Run(Results(proved, s, al), env).value;
            && SameFrame(b, r) && Inside(LoopsOf(r, dims), dims, b)
            && Preimage(proved, s, al, b, LoopsOf(r, dims)) == LoopsOf(env, DimsAfter(s, dims))
  {
    hide *;
    InsideLoops(env, DimsAfter(s, dims), b);
    match s
    case SplitVar(_, _, _, _, _) => SplitStepInverts(proved, s, al, dims, seen, b, env);
    case FuseVars(_, _, _) => FuseStepInverts(proved, s, al, dims, seen, b, env);
    case RenameVar(_, _) => RenameStepInverts(proved, s, al, dims, seen, b, env);
  }

  lemma RenameStepInverts(proved: Prover, s: Split, al: Alignment, dims: set<string>, seen: set<string>, b: Env,
                          env: Env)
    requires s.RenameVar? && StepReady(proved, s, al, dims, seen, b) && SameFrame(b, env)
    requires forall d | d in DimsAfter(s, dims) :: MinOf(b, d) <= Get(env, Loop(d)) < MinOf(b, d) + ExtentOf(b, d)
    ensures Run(Results(proved, s, al), env).Some?
    ensures var r := Run(Results(proved, s, al), env).value;
            && SameFrame(b, r) && Inside(LoopsOf(r, dims), dims, b)
            && Preimage(proved, s, al, b, LoopsOf(r, dims)) == LoopsOf(env, DimsAfter(s, dims))
  {
    RenameRuns(s, b, env);
    hide Run, RenameResults, SameFrame;
  }

  lemma InsideLoops(env: Env, dims: set<string>, b: Env)
    requires Inside(LoopsOf(env, dims), dims, b)
    ensures forall d | d in dims :: MinOf(b, d) <= Get(env, Loop(d)) < MinOf(b, d) + ExtentOf(b, d)
  {
    forall d | d in dims ensures MinOf(b, d) <= Get(env, Loop(d)) < MinOf(b, d) + ExtentOf(b, d) {
      assert LoopsOf(env, dims)[d] == Get(env, Loop(d));
    }
  }

  /** Two maps over the same loops are the same if their values are. */
  lemma SameLoops(q: map<string, int>, env: Env, dims: set<string>)
    requires q.Keys == dims && forall d | d in dims :: q[d] == Get(env, Loop(d))
    ensures q == LoopsOf(env, dims)
  {
  }

  lemma SplitStepInverts(proved: Prover, s: Split, al: Alignment, dims: set<string>, seen: set<string>, b: Env,
                         env: Env)
    requires s.SplitVar? && StepReady(proved, s, al, dims, seen, b) && Exact(proved, s, al) && SameFrame(b, env)
    requires forall d | d in DimsAfter(s, dims) :: MinOf(b, d) <= Get(env, Loop(d)) < MinOf(b, d) + ExtentOf(b, d)
    requires Run(Results(proved, s, al), env).Some?
    ensures var r := Run(Results(proved, s, al), env).value;
            && SameFrame(b, r) && Inside(LoopsOf(r, dims), dims, b)
            && Preimage(proved, s, al, b, LoopsOf(r, dims)) == LoopsOf(env, DimsAfter(s, dims))
  {
    var o, i := Get(env, Loop(s.outer)), Get(env, Loop(s.inner));
    SplitRuns(proved, s, al, b, env);
    SplitInverts(proved, s, al, b, o, i);
    var r, f := Run(Results(proved, s, al), env).value, Eval(s.factor, b);
    assert f >= 1 && dims <= seen && Joined(s, b, env, r, MinOf(b, s.from) + (o * f + i));
    assert s.from in dims && s.outer !in seen && s.inner !in seen && s.outer != s.inner;
    hide Run, Results, Eval, StepReady, SameFrame, DividesWhereProved, Related, Trivial, Closed, Valid, Guarded,
        Shifted, Exact;
    SplitInside(s, b, env, r, dims, o * f + i);
    SplitPreimage(proved, s, al, b, env, r, dims, seen, o, i);
    hide Preimage, LoopsOf, Inside, DimsAfter;
  }

  lemma SplitInside(s: Split, b: Env, env: Env, r: Env, dims: set<string>, x: int)
    requires s.SplitVar? && Joined(s, b, env, r, MinOf(b, s.from) + x) && 0 <= x < ExtentOf(b, s.from)
    requires forall d | d in DimsAfter(s, dims) :: MinOf(b, d) <= Get(env, Loop(d)) < MinOf(b, d) + ExtentOf(b, d)
    ensures Inside(LoopsOf(r, dims), dims, b) && SameFrame(b, r)
  {
    hide SameFrame;
  }

  lemma SplitPreimage(proved: Prover, s: Split, al: Alignment, b: Env, env: Env, r: Env, dims: set<string>,
                      seen: set<string>, o: int, i: int)
    requires s.SplitVar? && s.from in dims && dims <= seen && s.outer !in seen && s.inner !in seen && s.outer != s.inner
    requires !Shifted(proved, s, al) && Eval(s.factor, b) >= 1
    requires o == Get(env, Loop(s.outer)) && i == Get(env, Loop(s.inner))
    requires var x := o * Eval(s.factor, b) + i;
             x / Eval(s.factor, b) == o && Joined(s, b, env, r, MinOf(b, s.from) + x)
    ensures Preimage(proved, s, al, b, LoopsOf(r, dims)) == LoopsOf(env, DimsAfter(s, dims))
  {
    var p := LoopsOf(r, dims);
    var q := Preimage(proved, s, al, b, p);
    assert p[s.from] - MinOf(b, s.from) == o * Eval(s.factor, b) + i;
    hide Eval, SameFrame, Shifted;
    assert q == (p - {s.from})[s.outer := o][s.inner := i];
    hide Preimage;
    forall d | d in DimsAfter(s, dims) ensures q[d] == Get(env, Loop(d)) {
      if d != s.outer && d != s.inner {
        assert q[d] == p[d] == Get(r, Loop(d));
      }
    }
    SameLoops(q, env, DimsAfter(s, dims));
  }

  lemma FuseStepInverts(proved: Prover, s: Split, al: Alignment, dims: set<string>, seen: set<string>, b: Env, env: Env)
    requires s.FuseVars? && StepReady(proved, s, al, dims, seen, b) && SameFrame(b, env)
    requires forall d | d in DimsAfter(s, dims) :: MinOf(b, d) <= Get(env, Loop(d)) < MinOf(b, d) + ExtentOf(b, d)
    ensures Run(Results(proved, s, al), env).Some?
    ensures var r := Run(Results(proved, s, al), env).value;
            && SameFrame(b, r) && Inside(LoopsOf(r, dims), dims, b)
            && Preimage(proved, s, al, b, LoopsOf(r, dims)) == LoopsOf(env, DimsAfter(s, dims))
  {
    var k := Get(env, Loop(s.from));
    FuseRuns(s, b, env);
    FuseInverts(k, ExtentOf(b, s.outer), ExtentOf(b, s.inner));
    var r := Run(Results(proved, s, al), env).value;
    assert s.inner in dims && s.outer in dims && s.inner != s.outer && s.from !in dims;
    hide Run, Results, FuseResults, StepReady, SameFrame, Related, DividesWhereProved, Valid;
    FusePreimage(proved, s, al, b, env, r, dims, k);
    assert Inside(LoopsOf(r, dims), dims, b);
    hide LoopsOf, Preimage, DimsAfter;
  }

  lemma FusePreimage(proved: Prover, s: Split, al: Alignment, b: Env, env: Env, r: Env, dims: set<string>, k: int)
    requires s.FuseVars? && s.inner in dims && s.outer in dims && s.inner != s.outer && s.from !in dims
             && ExtentOf(b, s.inner) >= 1
    requires k == Get(env, Loop(s.from))
             && k / ExtentOf(b, s.inner) * ExtentOf(b, s.inner) + k % ExtentOf(b, s.inner) == k
    requires Get(r, Loop(s.inner)) == k % ExtentOf(b, s.inner) + MinOf(b, s.inner)
    requires Get(r, Loop(s.outer)) == k / ExtentOf(b, s.inner) + MinOf(b, s.outer)
    requires forall d | d != s.inner && d != s.outer :: Get(r, Loop(d)) == Get(env, Loop(d))
    ensures Preimage(proved, s, al, b, LoopsOf(r, dims)) == LoopsOf(env, DimsAfter(s, dims))
  {
    var p := LoopsOf(r, dims);
    var q := Preimage(proved, s, al, b, p);
    assert p[s.inner] - MinOf(b, s.inner) == k % ExtentOf(b, s.inner)
        && p[s.outer] - MinOf(b, s.outer) == k / ExtentOf(b, s.inner);
    assert q == (p - {s.outer, s.inner})[s.from := k];
    hide Preimage;
    forall d | d in DimsAfter(s, dims) ensures q[d] == Get(env, Loop(d)) {
      if d != s.from {
        assert q[d] == p[d] == Get(r, Loop(d));
      }
    }
    SameLoops(q, env, DimsAfter(s, dims));
  }

  lemma SplitInverts(proved: Prover, s: Split, al: Alignment, b: Env, o: int, i: int)
    requires s.SplitVar? && Related(s, b) && DividesWhereProved(proved, s, al, b) && Exact(proved, s, al)
    requires 0 <= o < ExtentOf(b, s.outer) && 0 <= i < ExtentOf(b, s.inner)
    requires Guarded(proved, s, al) ==> o * Eval(s.factor, b) + i < ExtentOf(b, s.from)
    ensures var f := Eval(s.factor, b);
            0 <= o * f + i < ExtentOf(b, s.from) && (o * f + i) / f == o && !Shifted(proved, s, al)
  {
    var f := Eval(s.factor, b);
    DivModUnique(o, i, f);
    MulMono(0, o, f);
    if Trivial(proved, s, al) {
      assert IsOne(s.factor) ==> f == 1;
      WholeTiles(ExtentOf(b, s.from), f, o, i);
    }
  }

  lemma FuseInverts(k: int, m: int, n: int)
    requires 0 <= k < n * m && m >= 0 && n >= 0
    ensures n >= 1 && 0 <= k % n < n && 0 <= k / n < m && k / n * n + k % n == k
  {
    assert n != 0;
    DivMod(k, n);
    MulLess(k / n, m, n);
  }
}
