/** Splitting, fusing and renaming loops (ApplySplit.cpp): what is emitted for each directive, and the loop nest
    that comes out of a list of them (ScheduleFunctions.cpp). */
module ApplySplit {
  import opened Wrappers

  // ----- emitted code -----

  /** The variables of a loop nest: the loops, their bounds, the helpers of splits, and parameters. */
  datatype Name = Loop(v: string) | LoopMin(v: string) | LoopMax(v: string) | LoopExtent(v: string)
                | Base(v: string) | Rebased(v: string) | Param(v: string)

  datatype Op = Add | Sub | Mul | Div | Mod | Min | Max | LT

  datatype Expr = Imm(n: int) | Var(name: Name) | Bin(op: Op, a: Expr, b: Expr)

  type Env = map<Name, int>

  function Get(env: Env, n: Name): int {
    if n in env then env[n] else 0
  }

  /** Division and remainder round as in Halide, and by zero they are zero. */
  function Apply(op: Op, x: int, y: int): int {
    match op
    case Add => x + y
    case Sub => x - y
    case Mul => x * y
    case Div => if y == 0 then 0 else x / y
    case Mod => if y == 0 then 0 else x % y
    case Min => if x <= y then x else y
    case Max => if x <= y then y else x
    case LT => if x < y then 1 else 0
  }

  function Eval(e: Expr, env: Env): int {
    match e
    case Imm(n) => n
    case Var(n) => Get(env, n)
    case Bin(op, a, b) => Apply(op, Eval(a, env), Eval(b, env))
  }

  function Free(e: Expr): set<Name> {
    match e
    case Imm(_) => {}
    case Var(n) => {n}
    case Bin(_, a, b) => Free(a) + Free(b)
  }

  /** The statement inside the loops; the body writes one point. */
  datatype Code = Body(point: seq<Expr>) | Let(name: Name, value: Expr, rest: Code) | If(cond: Expr, rest: Code)

  function Point(point: seq<Expr>, env: Env): seq<int> {
    if point == [] then [] else [Eval(point[0], env)] + Point(point[1..], env)
  }

  /** The point that is written, if any. */
  function Exec(c: Code, env: Env): Option<seq<int>> {
    match c
    case Body(point) => Some(Point(point, env))
    case Let(n, x, rest) => Exec(rest, env[n := Eval(x, env)])
    case If(cond, rest) => if Eval(cond, env) != 0 then Exec(rest, env) else None
  }

  // ----- substitution -----

  function SubstituteExpr(n: Name, v: Expr, e: Expr): Expr {
    match e
    case Imm(_) => e
    case Var(m) => if m == n then v else e
    case Bin(op, a, b) => Bin(op, SubstituteExpr(n, v, a), SubstituteExpr(n, v, b))
  }

  function SubstitutePoint(n: Name, v: Expr, point: seq<Expr>): seq<Expr> {
    if point == [] then [] else [SubstituteExpr(n, v, point[0])] + SubstitutePoint(n, v, point[1..])
  }

  /** Stops at a let that binds the name again. */
  function Substitute(n: Name, v: Expr, c: Code): Code {
    match c
    case Body(point) => Body(SubstitutePoint(n, v, point))
    case Let(m, x, rest) => Let(m, SubstituteExpr(n, v, x), if m == n then rest else Substitute(n, v, rest))
    case If(cond, rest) => If(SubstituteExpr(n, v, cond), Substitute(n, v, rest))
  }

  // ----- directives -----

  datatype TailStrategy = RoundUp | GuardWithIf | ShiftInwards

  datatype Split =
    | SplitVar(from: string, outer: string, inner: string, factor: Expr, tail: TailStrategy)
    | FuseVars(from: string, outer: string, inner: string)
    | RenameVar(from: string, outer: string)

  datatype Result = Substitution(name: Name, value: Expr) | LetStmt(name: Name, value: Expr) | Predicate(value: Expr)

  /** Known multiples of the extents of dimensions. */
  type Alignment = map<string, Expr>

  /** The simplifier finds that the first expression is a multiple of the second. */
  type Prover = (Expr, Expr) -> bool

  /** The split factor is proved to divide the old extent. */
  predicate ProvedDivisible(proved: Prover, s: Split, al: Alignment)
    requires s.SplitVar?
  {
    s.from in al && proved(al[s.from], s.factor)
  }

  predicate IsNegative(e: Expr) { e.Imm? && e.n < 0 }
  predicate IsZero(e: Expr) { e == Imm(0) }
  predicate IsOne(e: Expr) { e == Imm(1) }

  /** The alignments once the inner dimension is known. */
  function InnerAligned(s: Split, al: Alignment): Alignment
    requires s.SplitVar?
  {
    al[s.inner := s.factor]
  }

  /** The directive is refused: a factor that is not positive. */
  predicate Refused(proved: Prover, s: Split, al: Alignment) {
    s.SplitVar? && !ProvedDivisible(proved, s, InnerAligned(s, al)) && (IsNegative(s.factor) || IsZero(s.factor))
  }

  function SplitBase(s: Split): Expr
    requires s.SplitVar?
  {
    Bin(Add, Bin(Mul, Var(Loop(s.outer)), s.factor), Var(LoopMin(s.from)))
  }

  function ShiftedBase(s: Split): Expr
    requires s.SplitVar?
  {
    Bin(Min, SplitBase(s), Bin(Add, Var(LoopMax(s.from)), Bin(Sub, Imm(1), s.factor)))
  }

  /** The predicate that keeps a split from running past its old extent. */
  function Guard(s: Split): seq<Result>
    requires s.SplitVar?
  {
    [Substitution(Loop(s.from), Bin(Add, Var(Rebased(s.from)), Var(LoopMin(s.from)))),
     Predicate(Bin(LT, Var(Rebased(s.from)), Var(LoopExtent(s.from)))),
     LetStmt(Rebased(s.from), Bin(Add, Bin(Mul, Var(Loop(s.outer)), s.factor), Var(Loop(s.inner))))]
  }

  /** What the old dimension is in terms of the base and the inner one. */
  function Rejoin(s: Split, base: Expr): seq<Result>
    requires s.SplitVar?
  {
    var joined := Bin(Add, Var(Base(s.inner)), Var(Loop(s.inner)));
    [Substitution(Loop(s.from), joined), LetStmt(Loop(s.from), joined), LetStmt(Base(s.inner), base)]
  }

  /** A split that needs no adjustment whatever its tail strategy. */
  predicate Trivial(proved: Prover, s: Split, al: Alignment)
    requires s.SplitVar?
  {
    ProvedDivisible(proved, s, InnerAligned(s, al)) || IsOne(s.factor)
  }

  function SplitResults(proved: Prover, s: Split, al: Alignment): seq<Result>
    requires s.SplitVar?
  {
    if Trivial(proved, s, al) || s.tail.RoundUp? then Rejoin(s, SplitBase(s))
    else if s.tail.GuardWithIf? then Guard(s) + Rejoin(s, SplitBase(s))
    else Rejoin(s, ShiftedBase(s))
  }

  function FuseFactor(s: Split): Expr
    requires s.FuseVars?
  {
    Bin(Max, Var(LoopExtent(s.inner)), Imm(1))
  }

  function FuseResults(s: Split): seq<Result>
    requires s.FuseVars?
  {
    var fused := Var(Loop(s.from));
    var inner := Bin(Add, Bin(Mod, fused, FuseFactor(s)), Var(LoopMin(s.inner)));
    var outer := Bin(Add, Bin(Div, fused, FuseFactor(s)), Var(LoopMin(s.outer)));
    [Substitution(Loop(s.inner), inner), Substitution(Loop(s.outer), outer), LetStmt(Loop(s.inner), inner),
        LetStmt(Loop(s.outer), outer)]
  }

  function RenameResults(s: Split): seq<Result>
    requires s.RenameVar?
  {
    [Substitution(Loop(s.from), Var(Loop(s.outer))), LetStmt(Loop(s.from), Var(Loop(s.outer)))]
  }

  function Results(proved: Prover, s: Split, al: Alignment): seq<Result> {
    match s
    case SplitVar(_, _, _, _, _) => SplitResults(proved, s, al)
    case FuseVars(_, _, _) => FuseResults(s)
    case RenameVar(_, _) => RenameResults(s)
  }

  /** The alignments afterwards. */
  function Aligned(proved: Prover, s: Split, al: Alignment): Alignment {
    match s
    case SplitVar(_, _, _, _, _) =>
      var known := InnerAligned(s, al);
      if ProvedDivisible(proved, s, known) then known[s.outer := Bin(Div, known[s.from], s.factor)] else known
    case FuseVars(_, _, _) =>
      if s.inner in al && s.outer in al then al[s.from := Bin(Mul, al[s.inner], al[s.outer])] else al
    case RenameVar(_, _) => al
  }

  /** apply_split: the results are appended in order, and the map of alignments is updated. */
  method ApplySplitTo(proved: Prover, s: Split, al: Alignment)
      returns (results: Option<seq<Result>>, aligned: Alignment)
    ensures results == if Refused(proved, s, al) then None else Some(Results(proved, s, al))
    ensures results.Some? ==> aligned == Aligned(proved, s, al)
  {
    var r: seq<Result> := [];
    aligned := al;
    match s {
    case SplitVar(from, outer, inner, factor, tail) =>
      aligned := aligned[inner := factor];
      var base := Bin(Add, Bin(Mul, Var(Loop(outer)), factor), Var(LoopMin(from)));
      if from in aligned && proved(aligned[from], factor) {
        aligned := aligned[outer := Bin(Div, aligned[from], factor)];
      } else if IsNegative(factor) || IsZero(factor) {
        return None, aligned;
      } else if IsOne(factor) {
      } else if tail.GuardWithIf? {
        var rebased := Bin(Add, Bin(Mul, Var(Loop(outer)), factor), Var(Loop(inner)));
        r := r + [Substitution(Loop(from), Bin(Add, Var(Rebased(from)), Var(LoopMin(from))))];
        r := r + [Predicate(Bin(LT, Var(Rebased(from)), Var(LoopExtent(from))))];
        r := r + [LetStmt(Rebased(from), rebased)];
      } else if tail.ShiftInwards? {
        base := Bin(Min, base, Bin(Add, Var(LoopMax(from)), Bin(Sub, Imm(1), factor)));
      }
      r := r + [Substitution(Loop(from), Bin(Add, Var(Base(inner)), Var(Loop(inner))))];
      r := r + [LetStmt(Loop(from), Bin(Add, Var(Base(inner)), Var(Loop(inner))))];
      r := r + [LetStmt(Base(inner), base)];
    case FuseVars(from, outer, inner) =>
      var factor := Bin(Max, Var(LoopExtent(inner)), Imm(1));
      var innerValue := Bin(Add, Bin(Mod, Var(Loop(from)), factor), Var(LoopMin(inner)));
      var outerValue := Bin(Add, Bin(Div, Var(Loop(from)), factor), Var(LoopMin(outer)));
      r := r + [Substitution(Loop(inner), innerValue)];
      r := r + [Substitution(Loop(outer), outerValue)];
      r := r + [LetStmt(Loop(inner), innerValue)];
      r := r + [LetStmt(Loop(outer), outerValue)];
      if inner in aligned && outer in aligned {
        aligned := aligned[from := Bin(Mul, aligned[inner], aligned[outer])];
      }
    case RenameVar(from, outer) =>
      r := r + [Substitution(Loop(from), Var(Loop(outer)))];
      r := r + [LetStmt(Loop(from), Var(Loop(outer)))];
    }
    assert r == Results(proved, s, al);
    results := Some(r);
  }

  /** compute_loop_bounds_after_split: definitions, the outermost one last. */
  function LoopBounds(s: Split): seq<(Name, Expr)> {
    match s
    case SplitVar(from, outer, inner, f, _) =>
      var outerExtent := Bin(Div, Bin(Add, Bin(Sub, Var(LoopMax(from)), Var(LoopMin(from))), f), f);
      [(LoopMin(inner), Imm(0)), (LoopMax(inner), Bin(Sub, f, Imm(1))), (LoopExtent(inner), f),
       (LoopMin(outer), Imm(0)), (LoopMax(outer), Bin(Sub, outerExtent, Imm(1))), (LoopExtent(outer), outerExtent)]
    case FuseVars(from, outer, inner) =>
      var extent := Bin(Mul, Var(LoopExtent(inner)), Var(LoopExtent(outer)));
      [(LoopMin(from), Imm(0)), (LoopMax(from), Bin(Sub, extent, Imm(1))), (LoopExtent(from), extent)]
    case RenameVar(from, outer) =>
      [(LoopMin(outer), Var(LoopMin(from))), (LoopMax(outer), Var(LoopMax(from))),
          (LoopExtent(outer), Var(LoopExtent(from)))]
  }

  // ----- the loop nest -----

  /** Wraps the code in the results, the first one innermost. */
  function Wrap(c: Code, results: seq<Result>): Code
    decreases |results|
  {
    if results == [] then c
    else
      var inside := match results[0]
        case Substitution(n, v) => Substitute(n, v, c)
        case LetStmt(n, v) => Let(n, v, c)
        case Predicate(p) => If(p, c);
      Wrap(inside, results[1..])
  }

  /** The values of definitions, the last one first. */
  function Defined(lets: seq<(Name, Expr)>, env: Env): Env
    decreases |lets|
  {
    if lets == [] then env
    else
      var (n, x) := lets[|lets| - 1];
      Defined(lets[..|lets| - 1], env[n := Eval(x, env)])
  }

  function DimsAfter(s: Split, dims: set<string>): set<string> {
    match s
    case SplitVar(from, outer, inner, _, _) => dims - {from} + {outer, inner}
    case FuseVars(from, outer, inner) => dims - {outer, inner} + {from}
    case RenameVar(from, outer) => dims - {from} + {outer}
  }

  /** Loops over `dims`, with bounds that are known from outside, around `code`. */
  datatype Nest = Nest(code: Code, dims: set<string>, al: Alignment, bounds: Env)

  function Split1(proved: Prover, s: Split, nest: Nest): Nest {
    Nest(Wrap(nest.code, Results(proved, s, nest.al)), DimsAfter(s, nest.dims), Aligned(proved, s, nest.al),
        Defined(LoopBounds(s), nest.bounds))
  }

  function ArgExprs(args: seq<string>): (r: seq<Expr>)
    ensures |r| == |args| && forall i | 0 <= i < |args| :: r[i] == Var(Loop(args[i]))
  {
    if args == [] then [] else [Var(Loop(args[0]))] + ArgExprs(args[1..])
  }

  /** The nest over the arguments of a function, before any directive. */
  function StartNest(args: seq<string>, al: Alignment, bounds: Env): Nest {
    Nest(Body(ArgExprs(args)), (set a | a in args), al, bounds)
  }

  /** The nest after the directives, the first one applied first; `start` is the nest before them. */
  function Built(proved: Prover, splits: seq<Split>, start: Nest): Nest
    decreases |splits|
  {
    if splits == [] then start
    else Split1(proved, splits[|splits| - 1], Built(proved, splits[..|splits| - 1], start))
  }

  /** No directive is refused. */
  ghost predicate Accepted(proved: Prover, splits: seq<Split>, start: Nest)
    decreases |splits|
  {
    splits != [] ==>
      var before := splits[..|splits| - 1];
      Accepted(proved, before, start) && !Refused(proved, splits[|splits| - 1], Built(proved, before, start).al)
  }

  lemma {:induction false} AcceptedBefore(proved: Prover, splits: seq<Split>, i: nat, start: Nest)
    requires i <= |splits| && Accepted(proved, splits, start)
    ensures Accepted(proved, splits[..i], start)
    decreases |splits|
  {
    if i == |splits| {
      assert splits[..i] == splits;
    } else {
      assert splits[..|splits| - 1][..i] == splits[..i];
      AcceptedBefore(proved, splits[..|splits| - 1], i, start);
    }
  }

  lemma BuiltMore(proved: Prover, splits: seq<Split>, i: nat, start: Nest)
    requires i < |splits|
    ensures Built(proved, splits[..i + 1], start) == Split1(proved, splits[i], Built(proved, splits[..i], start))
    ensures Accepted(proved, splits[..i + 1], start)
            <==>
            Accepted(proved, splits[..i], start) && !Refused(proved, splits[i], Built(proved, splits[..i], start).al)
  {
    assert splits[..i + 1][..i] == splits[..i];
    hide Split1, Refused;
  }

  /** build_loop_nest as far as the directives go. */
  method BuildLoopNest(proved: Prover, splits: seq<Split>, args: seq<string>, al: Alignment, bounds: Env)
      returns (nest: Option<Nest>)
    ensures nest.Some? <==> Accepted(proved, splits, StartNest(args, al, bounds))
    ensures nest.Some? ==> nest.value == Built(proved, splits, StartNest(args, al, bounds))
  {
    ghost var start := StartNest(args, al, bounds);
    var code, dims, aligned, defined := Body(ArgExprs(args)), (set a | a in args), al, bounds;
    assert splits[..0] == [] && Built(proved, [], start) == start;
    hide Wrap, Results, Refused, Aligned, DimsAfter, Defined, LoopBounds, Built;
    for i := 0 to |splits|
      invariant Accepted(proved, splits[..i], start)
      invariant Nest(code, dims, aligned, defined) == Built(proved, splits[..i], start)
    {
      BuiltMore(proved, splits, i, start);
      hide Accepted;
      var results;
      results, aligned := ApplySplitTo(proved, splits[i], aligned);
      if results.None? {
        if Accepted(proved, splits, start) {
          AcceptedBefore(proved, splits, i + 1, start);
        }
        return None;
      }
      code := Wrap(code, results.value);
      dims := DimsAfter(splits[i], dims);
      defined := Defined(LoopBounds(splits[i]), defined);
    }
    assert splits[..|splits|] == splits;
    nest := Some(Nest(code, dims, aligned, defined));
  }
}
