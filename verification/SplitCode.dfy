/** What the emitted substitutions, lets and predicates do when a nest runs. */
module SplitCode {
  import opened Wrappers
  import opened ApplySplit

  // ----- substituting is binding -----

  lemma {:induction false} EvalSubstituted(n: Name, v: Expr, e: Expr, env: Env)
    ensures Eval(SubstituteExpr(n, v, e), env) == Eval(e, env[n := Eval(v, env)])
  {
    match e
    case Imm(_) =>
    case Var(_) =>
    case Bin(_, a, b) =>
      EvalSubstituted(n, v, a, env);
      EvalSubstituted(n, v, b, env);
  }

  lemma {:induction false} PointSubstituted(n: Name, v: Expr, point: seq<Expr>, env: Env)
    ensures Point(SubstitutePoint(n, v, point), env) == Point(point, env[n := Eval(v, env)])
  {
    if point != [] {
      EvalSubstituted(n, v, point[0], env);
      PointSubstituted(n, v, point[1..], env);
    }
  }

  lemma {:induction false} EvalElsewhere(e: Expr, env: Env, m: Name, x: int)
    requires m !in Free(e)
    ensures Eval(e, env[m := x]) == Eval(e, env)
  {
    match e
    case Imm(_) =>
    case Var(_) =>
    case Bin(_, a, b) =>
      EvalElsewhere(a, env, m, x);
      EvalElsewhere(b, env, m, x);
  }

  /** The names that lets bind. */
  function BoundBy(c: Code): set<Name> {
    match c
    case Body(_) => {}
    case Let(n, _, rest) => {n} + BoundBy(rest)
    case If(_, rest) => BoundBy(rest)
  }

  lemma {:induction false} SubstituteMeans(n: Name, v: Expr, c: Code, env: Env)
    requires Free(v) !! BoundBy(c)
    ensures Exec(Substitute(n, v, c), env) == Exec(c, env[n := Eval(v, env)])
    ensures BoundBy(Substitute(n, v, c)) == BoundBy(c)
    decreases c
  {
    var x := Eval(v, env);
    match c
    case Body(point) => PointSubstituted(n, v, point, env);
    case Let(m, value, rest) =>
      EvalSubstituted(n, v, value, env);
      var y := Eval(value, env[n := x]);
      if m == n {
        assert env[n := x][n := y] == env[n := y];
      } else {
        EvalElsewhere(v, env, m, y);
        SubstituteMeans(n, v, rest, env[m := y]);
        assert env[m := y][n := x] == env[n := x][m := y];
      }
    case If(cond, rest) =>
      EvalSubstituted(n, v, cond, env);
      SubstituteMeans(n, v, rest, env);
  }

  // ----- running results -----

  function RunOne(r: Result, env: Env): Option<Env> {
    match r
    case Substitution(n, v) => Some(env[n := Eval(v, env)])
    case LetStmt(n, v) => Some(env[n := Eval(v, env)])
    case Predicate(p) => if Eval(p, env) != 0 then Some(env) else None
  }

  /** The last result is outermost and comes first. */
  function Run(results: seq<Result>, env: Env): Option<Env>
    decreases |results|
  {
    if results == [] then Some(env)
    else
      var rest := Run(results[1..], env);
      if rest.None? then None else RunOne(results[0], rest.value)
  }

  function BoundAlso(r: Result): set<Name> {
    if r.LetStmt? then {r.name} else {}
  }

  /** No substitution moves a variable under a let that binds it. */
  predicate CaptureFree(results: seq<Result>, bound: set<Name>)
    decreases |results|
  {
    results != [] ==>
      && (results[0].Substitution? ==> Free(results[0].value) !! bound)
      && CaptureFree(results[1..], bound + BoundAlso(results[0]))
  }

  function Inside1(c: Code, r: Result): Code {
    match r
    case Substitution(n, v) => Substitute(n, v, c)
    case LetStmt(n, v) => Let(n, v, c)
    case Predicate(p) => If(p, c)
  }

  lemma OneMeans(c: Code, r: Result, env: Env)
    requires r.Substitution? ==> Free(r.value) !! BoundBy(c)
    ensures BoundBy(Inside1(c, r)) == BoundBy(c) + BoundAlso(r)
    ensures Exec(Inside1(c, r), env) == if RunOne(r, env).None? then None else Exec(c, RunOne(r, env).value)
  {
    if r.Substitution? {
      SubstituteMeans(r.name, r.value, c, env);
    }
  }

  function LetNames(results: seq<Result>): set<Name>
    decreases |results|
  {
    if results == [] then {} else BoundAlso(results[0]) + LetNames(results[1..])
  }

  /** A wrapped statement runs the results, and then the statement. */
  lemma {:induction false} WrapMeans(c: Code, results: seq<Result>, env: Env)
    requires CaptureFree(results, BoundBy(c))
    ensures Exec(Wrap(c, results), env) == if Run(results, env).None? then None else Exec(c, Run(results, env).value)
    ensures BoundBy(Wrap(c, results)) == BoundBy(c) + LetNames(results)
    decreases |results|
  {
    if results != [] {
      var r, rest := results[0], results[1..];
      OneMeans(c, r, env);
      WrapMeans(Inside1(c, r), rest, env);
      if Run(rest, env).Some? {
        OneMeans(c, r, Run(rest, env).value);
      }
      hide Exec, Inside1, BoundBy, RunOne;
    }
  }

  // ----- names -----

  /** Only parameters. */
  predicate Closed(e: Expr) {
    forall n | n in Free(e) :: n.Param?
  }

  /** The directive is about loops that exist, and makes up new names. */
  predicate Valid(s: Split, dims: set<string>, seen: set<string>) {
    match s
    case SplitVar(from, outer, inner, factor, _) => from in dims && outer !in seen && inner !in seen && outer != inner
        && Closed(factor)
    case FuseVars(from, outer, inner) => outer in dims && inner in dims && outer != inner && from !in seen
    case RenameVar(from, outer) => from in dims && outer !in seen
  }

  function SeenAfter(s: Split, seen: set<string>): set<string> {
    match s
    case SplitVar(_, outer, inner, _, _) => seen + {outer, inner}
    case FuseVars(from, _, _) => seen + {from}
    case RenameVar(_, outer) => seen + {outer}
  }

  /** A name that only code of earlier directives binds. */
  predicate Gone(n: Name, dims: set<string>, seen: set<string>) {
    match n
    case Loop(v) => v in seen && v !in dims
    case Base(v) => v in seen
    case Rebased(v) => v in seen && v !in dims
    case _ => false
  }

  ghost predicate Tame(c: Code, dims: set<string>, seen: set<string>) {
    dims <= seen && forall n | n in BoundBy(c) :: Gone(n, dims, seen)
  }

  lemma FirstFree(r: Result, rest: seq<Result>, bound: set<Name>)
    requires (r.Substitution? ==> Free(r.value) !! bound) && CaptureFree(rest, bound + BoundAlso(r))
    ensures CaptureFree([r] + rest, bound) && LetNames([r] + rest) == BoundAlso(r) + LetNames(rest)
  {
    assert ([r] + rest)[1..] == rest;
  }

  lemma TwoLetsFree(a: Result, b: Result, bound: set<Name>)
    requires a.LetStmt? && b.LetStmt?
    ensures CaptureFree([a, b], bound) && LetNames([a, b]) == {a.name, b.name}
  {
    FirstFree(b, [], bound + {a.name});
    assert [b] + [] == [b] && [a] + [b] == [a, b];
    FirstFree(a, [b], bound);
  }

  lemma ThreeFree(a: Result, b: Result, c: Result, bound: set<Name>)
    requires a.Substitution? && Free(a.value) !! bound && b.LetStmt? && c.LetStmt?
    ensures CaptureFree([a, b, c], bound) && LetNames([a, b, c]) == {b.name, c.name}
  {
    TwoLetsFree(b, c, bound);
    assert bound + {} == bound && [a] + [b, c] == [a, b, c];
    FirstFree(a, [b, c], bound);
  }

  lemma ResultsCaptureFree(proved: Prover, s: Split, al: Alignment, c: Code, dims: set<string>, seen: set<string>)
    requires Valid(s, dims, seen) && Tame(c, dims, seen)
    ensures CaptureFree(Results(proved, s, al), BoundBy(c))
    ensures forall n | n in LetNames(Results(proved, s, al)) :: Gone(n, DimsAfter(s, dims), SeenAfter(s, seen))
  {
    match s
    case SplitVar(_, _, _, _, _) =>
      var base := if Trivial(proved, s, al) || !s.tail.ShiftInwards? then SplitBase(s) else ShiftedBase(s);
      RejoinCaptureFree(s, base, c, dims, seen, {});
      RejoinCaptureFree(s, base, c, dims, seen, {Rebased(s.from)});
      GuardCaptureFree(s, base, c, dims, seen);
    case FuseVars(from, outer, inner) => FuseCaptureFree(s, c, dims, seen);
    case RenameVar(from, outer) =>
      var r := RenameResults(s);
      assert Free(r[0].value) == {Loop(s.outer)} && !Gone(Loop(s.outer), dims, seen);
      assert BoundBy(c) + {} == BoundBy(c) && [r[1]] + [] == [r[1]] && [r[0]] + [r[1]] == r;
      FirstFree(r[1], [], BoundBy(c));
      FirstFree(r[0], [r[1]], BoundBy(c));
  }

  lemma RejoinCaptureFree(s: Split, base: Expr, c: Code, dims: set<string>, seen: set<string>, more: set<Name>)
    requires s.SplitVar? && Valid(s, dims, seen) && Tame(c, dims, seen) && more <= {Rebased(s.from)}
    ensures CaptureFree(Rejoin(s, base), BoundBy(c) + more)
    ensures LetNames(Rejoin(s, base)) == {Loop(s.from), Base(s.inner)}
  {
    var r := Rejoin(s, base);
    assert !Gone(Base(s.inner), dims, seen) && !Gone(Loop(s.inner), dims, seen);
    assert Free(r[0].value) == {Base(s.inner), Loop(s.inner)};
    assert r == [r[0], r[1], r[2]];
    ThreeFree(r[0], r[1], r[2], BoundBy(c) + more);
  }

  lemma GuardCaptureFree(s: Split, base: Expr, c: Code, dims: set<string>, seen: set<string>)
    requires s.SplitVar? && Valid(s, dims, seen) && Tame(c, dims, seen)
    ensures CaptureFree(Guard(s) + Rejoin(s, base), BoundBy(c))
    ensures LetNames(Guard(s) + Rejoin(s, base)) == {Loop(s.from), Base(s.inner), Rebased(s.from)}
  {
    var g, r := Guard(s), Rejoin(s, base);
    var all, guarded := g + r, BoundBy(c) + {Rebased(s.from)};
    assert !Gone(Rebased(s.from), dims, seen) && !Gone(LoopMin(s.from), dims, seen);
    assert Free(g[0].value) == {Rebased(s.from), LoopMin(s.from)};
    RejoinCaptureFree(s, base, c, dims, seen, {Rebased(s.from)});
    assert all[0] == g[0] && all[1..] == [g[1], g[2]] + r;
    hide Rejoin, Gone, Free;
    GuardUnfolds(g[1], g[2], r, BoundBy(c), Rebased(s.from));
    assert BoundBy(c) + BoundAlso(g[0]) == BoundBy(c);
  }

  lemma GuardUnfolds(p: Result, l: Result, r: seq<Result>, bound: set<Name>, n: Name)
    requires p.Predicate? && l.LetStmt? && l.name == n && CaptureFree(r, bound + {n})
    ensures CaptureFree([p, l] + r, bound) && LetNames([p, l] + r) == {n} + LetNames(r)
  {
    var all := [p, l] + r;
    assert all[1..] == [l] + r && all[1..][1..] == r;
    assert bound + {} == bound;
  }

  lemma FuseCaptureFree(s: Split, c: Code, dims: set<string>, seen: set<string>)
    requires s.FuseVars? && Valid(s, dims, seen) && Tame(c, dims, seen)
    ensures CaptureFree(FuseResults(s), BoundBy(c)) && LetNames(FuseResults(s)) == {Loop(s.inner), Loop(s.outer)}
  {
    var r := FuseResults(s);
    assert Free(FuseFactor(s)) == {LoopExtent(s.inner)};
    assert Free(Bin(Mod, Var(Loop(s.from)), FuseFactor(s))) == {Loop(s.from), LoopExtent(s.inner)};
    assert Free(Bin(Div, Var(Loop(s.from)), FuseFactor(s))) == {Loop(s.from), LoopExtent(s.inner)};
    assert Free(r[0].value) == {Loop(s.from), LoopExtent(s.inner), LoopMin(s.inner)};
    assert Free(r[1].value) == {Loop(s.from), LoopExtent(s.inner), LoopMin(s.outer)};
    assert !Gone(Loop(s.from), dims, seen) && !Gone(LoopExtent(s.inner), dims, seen);
    assert !Gone(LoopMin(s.inner), dims, seen) && !Gone(LoopMin(s.outer), dims, seen);
    assert r == [r[0]] + [r[1], r[2], r[3]] && BoundBy(c) + {} == BoundBy(c);
    ThreeFree(r[1], r[2], r[3], BoundBy(c));
    FirstFree(r[0], [r[1], r[2], r[3]], BoundBy(c));
  }

  /** What one directive does to the code, and that its names stay apart. */
  lemma StepMeans(proved: Prover, s: Split, al: Alignment, c: Code, dims: set<string>, seen: set<string>, env: Env)
    requires Valid(s, dims, seen) && Tame(c, dims, seen)
    ensures var r, rs := Run(Results(proved, s, al), env), Results(proved, s, al);
            Exec(Wrap(c, rs), env) == if r.None? then None else Exec(c, r.value)
    ensures Tame(Wrap(c, Results(proved, s, al)), DimsAfter(s, dims), SeenAfter(s, seen))
  {
    ResultsCaptureFree(proved, s, al, c, dims, seen);
    WrapMeans(c, Results(proved, s, al), env);
    hide Results, Run, Exec, CaptureFree, LetNames, Wrap;
    forall n | n in BoundBy(c) ensures Gone(n, DimsAfter(s, dims), SeenAfter(s, seen)) {
      assert Gone(n, dims, seen);
    }
  }
}
