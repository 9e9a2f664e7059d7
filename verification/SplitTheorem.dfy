/** Any list of splits, fuses and renames: the nest visits every point of the original domain, and exactly once if
    every split is proved divisible or guarded. */
module SplitTheorem {
  import opened Wrappers
  import opened ApplySplit
  import opened SplitCode
  import opened SplitStep

  /** What the simplifier proves divisible is divisible. */
  ghost predicate Reliable(proved: Prover) {
    forall a, f, env: Env {:trigger proved(a, f), Eval(a, env)} :: proved(a, f) && Eval(f, env) >= 1 ==>
        Eval(a, env) % Eval(f, env) == 0
  }

  predicate Divides(a: int, e: int) {
    if a == 0 then e == 0 else e % a == 0
  }

  predicate BoundsOk(b: Env, d: string) {
    MaxOf(b, d) == MinOf(b, d) + ExtentOf(b, d) - 1 && ExtentOf(b, d) >= 0
  }

  /** The alignments are multiples that divide the extents. */
  ghost predicate AlignmentOk(al: Alignment, seen: set<string>, b: Env) {
    forall d | d in al :: d in seen && Closed(al[d]) && Divides(Eval(al[d], b), ExtentOf(b, d))
  }

  ghost predicate Sound(nest: Nest, seen: set<string>) {
    && nest.dims <= seen && Tame(nest.code, nest.dims, seen)
    && (forall d | d in seen :: BoundsOk(nest.bounds, d)) && AlignmentOk(nest.al, seen, nest.bounds)
  }

  /** Split factors are positive when the nest runs. */
  predicate Positive(s: Split, b: Env) {
    s.SplitVar? ==> Eval(s.factor, b) >= 1
  }

  /** A name of a bound of `seen`, or a parameter. */
  predicate Known(n: Name, seen: set<string>) {
    n.Param? || ((n.LoopMin? || n.LoopMax? || n.LoopExtent?) && n.v in seen)
  }

  ghost predicate Extends(b: Env, b': Env, seen: set<string>) {
    forall n | Known(n, seen) :: Get(b', n) == Get(b, n)
  }

  function SeenOf(splits: seq<Split>, seen: set<string>): set<string>
    decreases |splits|
  {
    if splits == [] then seen else SeenAfter(splits[|splits| - 1], SeenOf(splits[..|splits| - 1], seen))
  }

  /** Every directive is about loops that exist when it is applied. */
  ghost predicate Usable(proved: Prover, splits: seq<Split>, start: Nest, seen: set<string>)
    decreases |splits|
  {
    splits != [] ==>
      var before, s := splits[..|splits| - 1], splits[|splits| - 1];
      && Usable(proved, before, start, seen) && Valid(s, Built(proved, before, start).dims, SeenOf(before, seen))
      && Positive(s, start.bounds)
  }

  // ----- bounds and alignments -----

  lemma {:induction false} ClosedExtends(e: Expr, b: Env, b': Env, seen: set<string>)
    requires Closed(e) && Extends(b, b', seen)
    ensures Eval(e, b') == Eval(e, b)
  {
    match e
    case Imm(_) =>
    case Var(n) => assert n in Free(e) && Known(n, seen);
    case Bin(_, x, y) =>
      assert Free(x) <= Free(e) && Free(y) <= Free(e);
      ClosedExtends(x, b, b', seen);
      ClosedExtends(y, b, b', seen);
  }

  lemma KnownBounds(b: Env, b': Env, seen: set<string>, d: string)
    requires Extends(b, b', seen) && d in seen
    ensures MinOf(b', d) == MinOf(b, d) && MaxOf(b', d) == MaxOf(b, d) && ExtentOf(b', d) == ExtentOf(b, d)
  {
    assert Known(LoopMin(d), seen) && Known(LoopMax(d), seen) && Known(LoopExtent(d), seen);
  }

  lemma ExtendsMore(b: Env, b': Env, n: Name, x: int, seen: set<string>)
    requires Extends(b, b', seen) && !Known(n, seen)
    ensures Extends(b, b'[n := x], seen)
  {
  }

  /** Three definitions of the bounds of a new loop. */
  function Bounded(b: Env, d: string, lo: int, hi: int, extent: int): Env {
    b[LoopExtent(d) := extent][LoopMax(d) := hi][LoopMin(d) := lo]
  }

  lemma BoundedKeeps(b: Env, b': Env, d: string, lo: int, hi: int, extent: int, seen: set<string>)
    requires Extends(b, b', seen) && d !in seen
    ensures Extends(b, Bounded(b', d, lo, hi, extent), seen)
  {
    ExtendsMore(b, b', LoopExtent(d), extent, seen);
    ExtendsMore(b, b'[LoopExtent(d) := extent], LoopMax(d), hi, seen);
    ExtendsMore(b, b'[LoopExtent(d) := extent][LoopMax(d) := hi], LoopMin(d), lo, seen);
  }

  lemma ThreeDefined(lets: seq<(Name, Expr)>, d: string, lo: Expr, hi: Expr, extent: Expr, b: Env)
    requires lets == [(LoopMin(d), lo), (LoopMax(d), hi), (LoopExtent(d), extent)]
    ensures var b1 := b[LoopExtent(d) := Eval(extent, b)];
            var b2 := b1[LoopMax(d) := Eval(hi, b1)];
            Defined(lets, b) == b2[LoopMin(d) := Eval(lo, b2)]
  {
    var b1 := b[LoopExtent(d) := Eval(extent, b)];
    var b2 := b1[LoopMax(d) := Eval(hi, b1)];
    assert lets[..2] == [lets[0], lets[1]] && [lets[0], lets[1]][..1] == [lets[0]] && [lets[0]][..0] == [];
    assert Defined([lets[0]], b2) == b2[LoopMin(d) := Eval(lo, b2)];
    assert Defined([lets[0], lets[1]], b1) == Defined([lets[0]], b2);
  }

  lemma {:induction false} DefinedAppend(a: seq<(Name, Expr)>, c: seq<(Name, Expr)>, b: Env)
    ensures Defined(a + c, b) == Defined(a, Defined(c, b))
    decreases |c|
  {
    if c == [] {
      assert a + c == a;
    } else {
      var (n, x) := c[|c| - 1];
      assert (a + c)[..|a + c| - 1] == a + c[..|c| - 1];
      DefinedAppend(a, c[..|c| - 1], b[n := Eval(x, b)]);
    }
  }

  /** The bounds of the new loops of a split. */
  lemma SplitBounds(s: Split, b: Env, seen: set<string>)
    requires s.SplitVar? && s.from in seen && s.outer !in seen && s.inner !in seen && s.outer != s.inner
             && Closed(s.factor) && Positive(s, b)
    ensures var f := Eval(s.factor, b);
            var extent := (MaxOf(b, s.from) - MinOf(b, s.from) + f) / f;
            Defined(LoopBounds(s), b) == Bounded(Bounded(b, s.outer, 0, extent - 1, extent), s.inner, 0, f - 1, f)
  {
    var f, lets := Eval(s.factor, b), LoopBounds(s);
    var extent := (MaxOf(b, s.from) - MinOf(b, s.from) + f) / f;
    var e := lets[5].1;
    var inner, outer := [lets[0], lets[1], lets[2]], [lets[3], lets[4], lets[5]];
    assert lets == inner + outer;
    DefinedAppend(inner, outer, b);
    assert Extends(b, b, seen);
    ThreeDefined(outer, s.outer, Imm(0), Bin(Sub, e, Imm(1)), e, b);
    var b1 := b[LoopExtent(s.outer) := extent];
    OuterExtent(s, b, b, seen);
    ExtendsMore(b, b, LoopExtent(s.outer), extent, seen);
    OuterExtent(s, b, b1, seen);
    EvalBin(Sub, e, Imm(1), b1);
    var b2 := Bounded(b, s.outer, 0, extent - 1, extent);
    BoundedKeeps(b, b, s.outer, 0, extent - 1, extent, seen);
    ThreeDefined(inner, s.inner, Imm(0), Bin(Sub, s.factor, Imm(1)), s.factor, b2);
    ClosedExtends(s.factor, b, b2, seen);
    ExtendsMore(b, b2, LoopExtent(s.inner), f, seen);
    ClosedExtends(s.factor, b, b2[LoopExtent(s.inner) := f], seen);
    EvalBin(Sub, s.factor, Imm(1), b2[LoopExtent(s.inner) := f]);
    hide Defined, Extends, Closed;
  }

  lemma OuterExtent(s: Split, b: Env, env: Env, seen: set<string>)
    requires s.SplitVar? && s.from in seen && Closed(s.factor) && Positive(s, b) && Extends(b, env, seen)
    ensures var f := Eval(s.factor, b); Eval(LoopBounds(s)[5].1, env) == (MaxOf(b, s.from) - MinOf(b, s.from) + f) / f
  {
    var max, min, f := Var(LoopMax(s.from)), Var(LoopMin(s.from)), s.factor;
    ClosedExtends(f, b, env, seen);
    KnownBounds(b, env, seen, s.from);
    EvalBin(Sub, max, min, env);
    EvalBin(Add, Bin(Sub, max, min), f, env);
    EvalBin(Div, Bin(Add, Bin(Sub, max, min), f), f, env);
    hide Extends, Closed;
  }

  lemma FuseBounds(s: Split, b: Env, seen: set<string>)
    requires s.FuseVars? && s.from !in seen && s.inner in seen && s.outer in seen
    ensures var extent := ExtentOf(b, s.inner) * ExtentOf(b, s.outer);
            Defined(LoopBounds(s), b) == Bounded(b, s.from, 0, extent - 1, extent)
  {
    var extent := ExtentOf(b, s.inner) * ExtentOf(b, s.outer);
    var e := LoopBounds(s)[2].1;
    var b1 := b[LoopExtent(s.from) := extent];
    ThreeDefined(LoopBounds(s), s.from, Imm(0), Bin(Sub, e, Imm(1)), e, b);
    EvalBin(Mul, Var(LoopExtent(s.inner)), Var(LoopExtent(s.outer)), b);
    EvalBin(Mul, Var(LoopExtent(s.inner)), Var(LoopExtent(s.outer)), b1);
    EvalBin(Sub, e, Imm(1), b1);
  }

  lemma RenameBounds(s: Split, b: Env, seen: set<string>)
    requires s.RenameVar? && s.outer !in seen && s.from in seen
    ensures Defined(LoopBounds(s), b) == Bounded(b, s.outer, MinOf(b, s.from), MaxOf(b, s.from), ExtentOf(b, s.from))
  {
    ThreeDefined(LoopBounds(s), s.outer, Var(LoopMin(s.from)), Var(LoopMax(s.from)), Var(LoopExtent(s.from)), b);
  }

  /** The bounds after a directive: earlier ones stay, and the new ones follow from them. */
  ghost predicate BoundsFollow(s: Split, b: Env, b': Env, seen: set<string>) {
    Extends(b, b', seen) && Related(s, b') && forall d | d in SeenAfter(s, seen) :: BoundsOk(b', d)
  }

  lemma StepBounds(s: Split, b: Env, dims: set<string>, seen: set<string>)
    requires dims <= seen && Valid(s, dims, seen) && Positive(s, b) && forall d | d in seen :: BoundsOk(b, d)
    ensures BoundsFollow(s, b, Defined(LoopBounds(s), b), seen)
  {
    match s
    case SplitVar(_, _, _, _, _) => SplitFollows(s, b, seen);
    case FuseVars(_, _, _) => FuseFollows(s, b, seen);
    case RenameVar(_, _) => RenameFollows(s, b, seen);
  }

  lemma SplitFollows(s: Split, b: Env, seen: set<string>)
    requires s.SplitVar? && s.from in seen && s.outer !in seen && s.inner !in seen && s.outer != s.inner
             && Closed(s.factor)
    requires Positive(s, b) && forall d | d in seen :: BoundsOk(b, d)
    ensures BoundsFollow(s, b, Defined(LoopBounds(s), b), seen)
  {
    var b', f := Defined(LoopBounds(s), b), Eval(s.factor, b);
    var extent := (MaxOf(b, s.from) - MinOf(b, s.from) + f) / f;
    assert Extends(b, b, seen);
    assert BoundsOk(b, s.from) && f >= 1;
    SplitBounds(s, b, seen);
    hide Extends, Defined, LoopBounds, Eval, Closed, Positive;
    assert extent >= 0;
    BoundedKeeps(b, b, s.outer, 0, extent - 1, extent, seen);
    BoundedKeeps(b, Bounded(b, s.outer, 0, extent - 1, extent), s.inner, 0, f - 1, f, seen);
    ClosedExtends(s.factor, b, b', seen);
    KnownBounds(b, b', seen, s.from);
    LaterBounds(b, b', seen);
  }

  lemma FuseFollows(s: Split, b: Env, seen: set<string>)
    requires s.FuseVars? && s.from !in seen && s.inner in seen && s.outer in seen && forall d | d in seen ::
             BoundsOk(b, d)
    ensures BoundsFollow(s, b, Defined(LoopBounds(s), b), seen)
  {
    var b', extent := Defined(LoopBounds(s), b), ExtentOf(b, s.inner) * ExtentOf(b, s.outer);
    assert Extends(b, b, seen);
    FuseBounds(s, b, seen);
    BoundedKeeps(b, b, s.from, 0, extent - 1, extent, seen);
    KnownBounds(b, b', seen, s.inner);
    KnownBounds(b, b', seen, s.outer);
    assert BoundsOk(b, s.inner) && BoundsOk(b, s.outer);
    MulMono(0, ExtentOf(b, s.inner), ExtentOf(b, s.outer));
    LaterBounds(b, b', seen);
    hide Extends, Defined, LoopBounds;
  }

  lemma RenameFollows(s: Split, b: Env, seen: set<string>)
    requires s.RenameVar? && s.outer !in seen && s.from in seen && forall d | d in seen :: BoundsOk(b, d)
    ensures BoundsFollow(s, b, Defined(LoopBounds(s), b), seen)
  {
    var b' := Defined(LoopBounds(s), b);
    assert Extends(b, b, seen);
    RenameBounds(s, b, seen);
    BoundedKeeps(b, b, s.outer, MinOf(b, s.from), MaxOf(b, s.from), ExtentOf(b, s.from), seen);
    KnownBounds(b, b', seen, s.from);
    assert BoundsOk(b, s.from);
    LaterBounds(b, b', seen);
    hide Extends, Defined, LoopBounds;
  }

  lemma LaterBounds(b: Env, b': Env, seen: set<string>)
    requires Extends(b, b', seen) && forall d | d in seen :: BoundsOk(b, d)
    ensures forall d | d in seen :: BoundsOk(b', d)
  {
    forall d | d in seen ensures BoundsOk(b', d) {
      KnownBounds(b, b', seen, d);
      assert BoundsOk(b, d);
    }
  }

  // ----- alignments keep dividing -----

  lemma DividesTrans(a: int, f: int, e: int)
    requires Divides(a, e) && f >= 1 && a % f == 0
    ensures e % f == 0
  {
    if a != 0 {
      var k, q := e / a, a / f;
      assert e == a * k && a == f * q;
      assert e == f * (q * k);
      DivModUnique(q * k, 0, f);
    }
  }

  /** The outer extent of an even split is a multiple of the quotient. */
  lemma DividesOuter(a: int, f: int, e: int)
    requires Divides(a, e) && f >= 1 && a % f == 0
    ensures Divides(a / f, (e - 1 + f) / f)
  {
    DividesTrans(a, f, e);
    var q, t := a / f, e / f;
    assert a == f * q && e == f * t;
    DivModUnique(t, f - 1, f);
    assert (e - 1 + f) / f == t;
    if a == 0 {
      assert q == 0 && t == 0;
    } else {
      var k := e / a;
      assert e == a * k;
      assert f * t == f * (q * k);
      Cancel(f, t, q * k);
      MultipleOf(q, k);
    }
  }

  lemma Cancel(f: int, x: int, y: int)
    requires f >= 1 && f * x == f * y
    ensures x == y
  {
    if x < y {
      MulMono(1, y - x, f);
    } else if y < x {
      MulMono(1, x - y, f);
    }
  }

  lemma MultipleOf(q: int, k: int)
    requires q != 0
    ensures (q * k) % q == 0
  {
    if q > 0 {
      DivModUnique(k, 0, q);
    } else {
      DivModUnique(-k, 0, -q);
      assert (q * k) == (-k) * (-q);
      ModOfNegative(q * k, q);
    }
  }

  lemma ModOfNegative(x: int, q: int)
    requires q < 0
    ensures x % q == x % -q
  {
    var r := x % -q;
    DivMod(x, -q);
    assert x == (-(x / -q)) * q + r;
  }

  lemma DividesProduct(a: int, b: int, m: int, n: int)
    requires Divides(a, m) && Divides(b, n)
    ensures Divides(a * b, m * n)
  {
    if a == 0 || b == 0 {
      assert m * n == 0;
    } else {
      var k, l := m / a, n / b;
      assert m == a * k && n == b * l;
      assert m * n == (a * b) * (k * l);
      MultipleOf(a * b, k * l);
    }
  }

  /** Every entry keeps dividing its extent, and the new ones do. */
  lemma StepAlignment(proved: Prover, s: Split, al: Alignment, dims: set<string>, seen: set<string>, b: Env, b': Env)
    requires Reliable(proved) && dims <= seen && Valid(s, dims, seen) && Positive(s, b) && AlignmentOk(al, seen, b)
    requires Extends(b, b', seen) && Related(s, b')
    ensures DividesWhereProved(proved, s, al, b') && AlignmentOk(Aligned(proved, s, al), SeenAfter(s, seen), b')
  {
    LaterAlignment(al, seen, b, b');
    match s
    case SplitVar(_, _, _, _, _) =>
      ClosedExtends(s.factor, b, b', seen);
      SplitAlignment(proved, s, al, seen, b');
    case FuseVars(from, outer, inner) =>
      if inner in al && outer in al {
        DividesProduct(Eval(al[inner], b'), Eval(al[outer], b'), ExtentOf(b', inner), ExtentOf(b', outer));
        EvalBin(Mul, al[inner], al[outer], b');
        hide Divides, Eval, Extends;
      }
    case RenameVar(_, _) =>
  }

  lemma LaterAlignment(al: Alignment, seen: set<string>, b: Env, b': Env)
    requires AlignmentOk(al, seen, b) && Extends(b, b', seen)
    ensures AlignmentOk(al, seen, b')
  {
    forall d | d in al ensures d in seen && Closed(al[d]) && Divides(Eval(al[d], b'), ExtentOf(b', d)) {
      ClosedExtends(al[d], b, b', seen);
      KnownBounds(b, b', seen, d);
    }
  }

  lemma SplitAlignment(proved: Prover, s: Split, al: Alignment, seen: set<string>, b: Env)
    requires s.SplitVar? && Reliable(proved) && s.from in seen && s.outer !in seen && s.inner !in seen
             && s.outer != s.inner
    requires Closed(s.factor) && AlignmentOk(al, seen, b) && Related(s, b)
    ensures DividesWhereProved(proved, s, al, b) && AlignmentOk(Aligned(proved, s, al), SeenAfter(s, seen), b)
  {
    var f := Eval(s.factor, b);
    DivModUnique(1, 0, f);
    assert Divides(f, ExtentOf(b, s.inner));
    if ProvedDivisible(proved, s, InnerAligned(s, al)) {
      var a := al[s.from];
      assert InnerAligned(s, al)[s.from] == a;
      assert Eval(a, b) % f == 0;
      DividesTrans(Eval(a, b), f, ExtentOf(b, s.from));
      DividesOuter(Eval(a, b), f, ExtentOf(b, s.from));
      EvalBin(Div, a, s.factor, b);
      hide Divides, Eval, Reliable;
      assert Free(Bin(Div, a, s.factor)) == Free(a) + Free(s.factor);
    }
    hide Divides, Eval, Reliable;
  }

  // ----- lists of directives -----

  lemma {:induction false} BuiltSound(proved: Prover, splits: seq<Split>, start: Nest, seen: set<string>)
    requires Reliable(proved) && Sound(start, seen) && Usable(proved, splits, start, seen)
    ensures Sound(Built(proved, splits, start), SeenOf(splits, seen))
    ensures Extends(start.bounds, Built(proved, splits, start).bounds, seen) && seen <= SeenOf(splits, seen)
    decreases |splits|
  {
    if splits == [] {
      assert Extends(start.bounds, start.bounds, seen);
    } else {
      var before, s := splits[..|splits| - 1], splits[|splits| - 1];
      BuiltSound(proved, before, start, seen);
      LastStep(proved, s, Built(proved, before, start), SeenOf(before, seen), start.bounds, seen);
      hide Sound, Extends, Split1, Valid, Positive;
    }
  }

  /** One more directive on a sound nest. */
  lemma LastStep(proved: Prover, s: Split, nest: Nest, seen: set<string>, b0: Env, seen0: set<string>)
    requires Reliable(proved) && Sound(nest, seen) && Valid(s, nest.dims, seen) && Positive(s, b0)
    requires seen0 <= seen && Extends(b0, nest.bounds, seen0)
    ensures var next := Split1(proved, s, nest);
            && Sound(next, SeenAfter(s, seen)) && Extends(nest.bounds, next.bounds, seen)
                && Extends(b0, next.bounds, seen0)
            && seen <= SeenAfter(s, seen) && Related(s, next.bounds)
                && DividesWhereProved(proved, s, nest.al, next.bounds)
  {
    var next := Split1(proved, s, nest);
    if s.SplitVar? {
      ClosedExtends(s.factor, b0, nest.bounds, seen0);
    }
    assert Positive(s, nest.bounds);
    StepBounds(s, nest.bounds, nest.dims, seen);
    StepAlignment(proved, s, nest.al, nest.dims, seen, nest.bounds, next.bounds);
    StepMeans(proved, s, nest.al, nest.code, nest.dims, seen, nest.bounds);
    ExtendsTrans(b0, nest.bounds, next.bounds, seen0, seen);
    hide Extends, Tame, AlignmentOk, BoundsOk, Related, DividesWhereProved, Reliable, Positive, Wrap, Results, Aligned,
        Defined, LoopBounds, Eval;
  }

  lemma ExtendsTrans(a: Env, b: Env, c: Env, few: set<string>, many: set<string>)
    requires Extends(a, b, few) && Extends(b, c, many) && few <= many
    ensures Extends(a, c, few)
  {
    forall n | Known(n, few) ensures Get(c, n) == Get(a, n) {
      assert Known(n, many);
    }
  }

  /** The iteration of the final loops for a point of the original domain. */
  function Back(proved: Prover, splits: seq<Split>, start: Nest, b: Env, p: map<string, int>): map<string, int>
    decreases |splits|
  {
    if splits == [] then p
    else
      var before := splits[..|splits| - 1];
      Preimage(proved, splits[|splits| - 1], Built(proved, before, start).al, b, Back(proved, before, start, b, p))
  }

  /** What holds of the last directive under the final bounds. */
  lemma LastReady(proved: Prover, splits: seq<Split>, start: Nest, seen: set<string>, b: Env)
    requires Reliable(proved) && Sound(start, seen) && splits != [] && Usable(proved, splits, start, seen)
    requires Extends(Built(proved, splits, start).bounds, b, SeenOf(splits, seen))
    ensures var before, s := splits[..|splits| - 1], splits[|splits| - 1];
            var nest := Built(proved, before, start);
            && Usable(proved, before, start, seen) && StepReady(proved, s, nest.al, nest.dims, SeenOf(before, seen), b)
            && Extends(nest.bounds, b, SeenOf(before, seen)) && Tame(nest.code, nest.dims, SeenOf(before, seen))
            && Built(proved, splits, start) == Split1(proved, s, nest)
  {
    var before, s := splits[..|splits| - 1], splits[|splits| - 1];
    var nest, known := Built(proved, before, start), SeenOf(before, seen);
    BuiltSound(proved, before, start, seen);
    LastStep(proved, s, nest, known, start.bounds, seen);
    var next := Split1(proved, s, nest);
    ExtendsTrans(nest.bounds, next.bounds, b, known, SeenAfter(s, known));
    RelatedLater(proved, s, nest.al, nest.dims, known, next.bounds, b);
    hide Extends, AlignmentOk, BoundsOk, Related, DividesWhereProved, Reliable, Positive, Split1, Valid;
  }

  lemma RelatedLater(proved: Prover, s: Split, al: Alignment, dims: set<string>, seen: set<string>, b: Env, b': Env)
    requires dims <= seen && Valid(s, dims, seen) && Extends(b, b', SeenAfter(s, seen))
    requires Related(s, b) && DividesWhereProved(proved, s, al, b)
    ensures Related(s, b') && DividesWhereProved(proved, s, al, b')
  {
    var all := SeenAfter(s, seen);
    KnownBounds(b, b', all, s.outer);
    KnownBounds(b, b', all, s.from);
    if s.SplitVar? {
      ClosedExtends(s.factor, b, b', all);
      KnownBounds(b, b', all, s.inner);
    }
    if s.FuseVars? {
      KnownBounds(b, b', all, s.inner);
    }
    hide Extends;
  }

  function Values(args: seq<string>, p: map<string, int>): seq<int>
    requires forall a | a in args :: a in p
  {
    if args == [] then [] else [p[args[0]]] + Values(args[1..], p)
  }

  lemma {:induction false} BodyWrites(args: seq<string>, dims: set<string>, env: Env)
    requires forall a | a in args :: a in dims
    ensures Point(ArgExprs(args), env) == Values(args, LoopsOf(env, dims))
  {
    if args != [] {
      assert ArgExprs(args)[1..] == ArgExprs(args[1..]);
      BodyWrites(args[1..], dims, env);
    }
  }

  lemma {:induction false} NestReaches(proved: Prover, splits: seq<Split>, start: Nest, seen: set<string>, b: Env,
                                       p: map<string, int>)
    requires Reliable(proved) && Sound(start, seen) && Usable(proved, splits, start, seen)
    requires Extends(Built(proved, splits, start).bounds, b, SeenOf(splits, seen)) && Inside(p, start.dims, b)
    ensures Inside(Back(proved, splits, start, b, p), Built(proved, splits, start).dims, b)
    decreases |splits|
  {
    if splits != [] {
      var before, s := splits[..|splits| - 1], splits[|splits| - 1];
      var nest := Built(proved, before, start);
      LastReady(proved, splits, start, seen, b);
      hide Inside, Extends, Sound, Reliable, StepReady, Usable, Tame, Preimage, DimsAfter;
      NestReaches(proved, before, start, seen, b, p);
      StepReaches(proved, s, nest.al, nest.dims, SeenOf(before, seen), b, Back(proved, before, start, b, p));
    }
  }

  /** At that iteration the nest writes that point. */
  lemma {:induction false} NestRuns(proved: Prover, splits: seq<Split>, start: Nest, args: seq<string>,
                                    seen: set<string>, b: Env, p: map<string, int>, env: Env)
    requires Reliable(proved) && Sound(start, seen) && Usable(proved, splits, start, seen)
             && start.code == Body(ArgExprs(args))
    requires Extends(Built(proved, splits, start).bounds, b, SeenOf(splits, seen)) && Inside(p, start.dims, b)
             && SameFrame(b, env)
    requires start.dims == (set a | a in args)
             && LoopsOf(env, Built(proved, splits, start).dims) == Back(proved, splits, start, b, p)
    ensures Exec(Built(proved, splits, start).code, env) == Some(Values(args, p))
    decreases |splits|
  {
    if splits == [] {
      BodyWrites(args, start.dims, env);
    } else {
      var before, s := splits[..|splits| - 1], splits[|splits| - 1];
      var nest := Built(proved, before, start);
      LastReady(proved, splits, start, seen, b);
      NestReaches(proved, before, start, seen, b, p);
      StepRuns(proved, s, nest.al, nest.dims, SeenOf(before, seen), b, Back(proved, before, start, b, p), env);
      StepMeans(proved, s, nest.al, nest.code, nest.dims, SeenOf(before, seen), env);
      hide Inside, Extends, Sound, Reliable, Usable, Tame, Preimage, DimsAfter, SameFrame, Run, Results, Exec, LoopsOf,
          Wrap, Related, DividesWhereProved, Valid;
      NestRuns(proved, before, start, args, seen, b, p, Run(Results(proved, s, nest.al), env).value);
    }
  }

  ghost predicate AllExact(proved: Prover, splits: seq<Split>, start: Nest)
    decreases |splits|
  {
    splits != [] ==>
      var before := splits[..|splits| - 1];
      AllExact(proved, before, start) && Exact(proved, splits[|splits| - 1], Built(proved, before, start).al)
  }

  /** Where an exact nest writes: a point of the domain, from the one iteration that belongs to it. */
  lemma {:induction false} NestInverts(proved: Prover, splits: seq<Split>, start: Nest, args: seq<string>,
                                       seen: set<string>, b: Env, env: Env)
      returns (p: map<string, int>)
    requires Reliable(proved) && Sound(start, seen) && Usable(proved, splits, start, seen)
             && start.code == Body(ArgExprs(args))
    requires AllExact(proved, splits, start) && SameFrame(b, env) && start.dims == (set a | a in args)
    requires Extends(Built(proved, splits, start).bounds, b, SeenOf(splits, seen))
    requires var nest := Built(proved, splits, start);
             Inside(LoopsOf(env, nest.dims), nest.dims, b) && Exec(nest.code, env).Some?
    ensures Inside(p, start.dims, b) && Exec(Built(proved, splits, start).code, env) == Some(Values(args, p))
    ensures Back(proved, splits, start, b, p) == LoopsOf(env, Built(proved, splits, start).dims)
    decreases |splits|
  {
    if splits == [] {
      BodyWrites(args, start.dims, env);
      p := LoopsOf(env, start.dims);
    } else {
      var before, s := splits[..|splits| - 1], splits[|splits| - 1];
      var nest := Built(proved, before, start);
      LastReady(proved, splits, start, seen, b);
      StepMeans(proved, s, nest.al, nest.code, nest.dims, SeenOf(before, seen), env);
      StepInverts(proved, s, nest.al, nest.dims, SeenOf(before, seen), b, env);
      hide Inside, Extends, Sound, Reliable, Usable, Tame, Preimage, DimsAfter, SameFrame, Run, Results, Exec, LoopsOf,
          Wrap, Related, DividesWhereProved, Valid, Exact;
      p := NestInverts(proved, before, start, args, seen, b, Run(Results(proved, s, nest.al), env).value);
    }
  }

  // ----- the theorems -----

  /** One iteration of the final loops. */
  function Iteration(b: Env, q: map<string, int>): Env {
    b + map d | d in q :: Loop(d) := q[d]
  }

  /** The point that an iteration writes, if it is not skipped. */
  function Visits(nest: Nest, q: map<string, int>): Option<seq<int>> {
    Exec(nest.code, Iteration(nest.bounds, q))
  }

  lemma IterationIs(b: Env, q: map<string, int>)
    ensures SameFrame(b, Iteration(b, q)) && LoopsOf(Iteration(b, q), q.Keys) == q
  {
    var env := Iteration(b, q);
    forall d | d in q ensures Get(env, Loop(d)) == q[d] {
      assert Loop(d) in env;
    }
  }

  /** The start of a nest over the arguments: their bounds are consistent, and what is known of extents is true. */
  ghost predicate Startable(args: seq<string>, al: Alignment, bounds: Env) {
    (forall d | d in args || d in al :: BoundsOk(bounds, d)) && forall d | d in al ::
        Closed(al[d]) && Divides(Eval(al[d], bounds), ExtentOf(bounds, d))
  }

  function StartSeen(args: seq<string>, al: Alignment): set<string> {
    (set a | a in args) + al.Keys
  }

  lemma StartSound(args: seq<string>, al: Alignment, bounds: Env)
    requires Startable(args, al, bounds)
    ensures Sound(StartNest(args, al, bounds), StartSeen(args, al))
  {
  }

  /** Whatever the tail strategies, every point of the original domain is written. */
  lemma EveryPointVisited(proved: Prover, splits: seq<Split>, args: seq<string>, al: Alignment, bounds: Env,
                          p: map<string, int>)
      returns (q: map<string, int>)
    requires var start := StartNest(args, al, bounds);
             && Reliable(proved) && Startable(args, al, bounds) && Usable(proved, splits, start, StartSeen(args, al))
             && Inside(p, start.dims, bounds)
    ensures var nest := Built(proved, splits, StartNest(args, al, bounds));
            Inside(q, nest.dims, nest.bounds) && Visits(nest, q) == Some(Values(args, p))
  {
    var start, seen := StartNest(args, al, bounds), StartSeen(args, al);
    var nest := Built(proved, splits, start);
    StartSound(args, al, bounds);
    BuiltSound(proved, splits, start, seen);
    InsideLater(p, start.dims, bounds, nest.bounds, seen);
    assert Extends(nest.bounds, nest.bounds, SeenOf(splits, seen));
    q := Back(proved, splits, start, nest.bounds, p);
    NestReaches(proved, splits, start, seen, nest.bounds, p);
    IterationIs(nest.bounds, q);
    assert q.Keys == nest.dims;
    hide Extends, Sound, Reliable, Usable, SameFrame, Exec, LoopsOf, Startable, Back, Built;
    NestRuns(proved, splits, start, args, seen, nest.bounds, p, Iteration(nest.bounds, q));
  }

  lemma InsideLater(p: map<string, int>, dims: set<string>, b: Env, b': Env, seen: set<string>)
    requires Extends(b, b', seen) && dims <= seen
    ensures Inside(p, dims, b) <==> Inside(p, dims, b')
  {
    forall d | d in dims ensures MinOf(b', d) == MinOf(b, d) && ExtentOf(b', d) == ExtentOf(b, d) {
      KnownBounds(b, b', seen, d);
    }
  }

  /** If all splits are proved divisible or guarded, an iteration that is not skipped writes a point of the original
      domain, and no other iteration writes that point. */
  lemma VisitedOnce(proved: Prover, splits: seq<Split>, args: seq<string>, al: Alignment, bounds: Env, q: map<string,
                    int>, q': map<string, int>)
      returns (p: map<string, int>)
    requires var start := StartNest(args, al, bounds);
             && Reliable(proved) && Startable(args, al, bounds) && Usable(proved, splits, start, StartSeen(args, al))
             && AllExact(proved, splits, start)
    requires var nest := Built(proved, splits, StartNest(args, al, bounds));
             Inside(q, nest.dims, nest.bounds) && Inside(q', nest.dims, nest.bounds) && Visits(nest, q).Some?
    ensures var start := StartNest(args, al, bounds);
            Inside(p, start.dims, bounds) && Visits(Built(proved, splits, start), q) == Some(Values(args, p))
    ensures var nest := Built(proved, splits, StartNest(args, al, bounds)); Visits(nest, q') == Visits(nest, q) ==>
            q' == q
  {
    var start := StartNest(args, al, bounds);
    var nest := Built(proved, splits, start);
    p := VisitedFrom(proved, splits, args, al, bounds, q);
    if Visits(nest, q') == Visits(nest, q) {
      var p' := VisitedFrom(proved, splits, args, al, bounds, q');
      SamePoint(args, p, p');
    }
    hide Visits, Inside, Built, Back;
  }

  lemma VisitedFrom(proved: Prover, splits: seq<Split>, args: seq<string>, al: Alignment, bounds: Env, q: map<string,
                    int>)
      returns (p: map<string, int>)
    requires var start := StartNest(args, al, bounds);
             && Reliable(proved) && Startable(args, al, bounds) && Usable(proved, splits, start, StartSeen(args, al))
             && AllExact(proved, splits, start)
    requires var nest := Built(proved, splits, StartNest(args, al, bounds));
             Inside(q, nest.dims, nest.bounds) && Visits(nest, q).Some?
    ensures var start := StartNest(args, al, bounds);
            var nest := Built(proved, splits, start);
            && p.Keys == start.dims && Inside(p, start.dims, bounds) && Visits(nest, q) == Some(Values(args, p))
            && Back(proved, splits, start, nest.bounds, p) == q
  {
    var start, seen := StartNest(args, al, bounds), StartSeen(args, al);
    var nest := Built(proved, splits, start);
    StartSound(args, al, bounds);
    BuiltSound(proved, splits, start, seen);
    IterationIs(nest.bounds, q);
    assert q.Keys == nest.dims;
    assert Extends(nest.bounds, nest.bounds, SeenOf(splits, seen));
    hide Extends, Sound, Reliable, Usable, SameFrame, Exec, LoopsOf, Startable, Back, Built, AllExact;
    p := NestInverts(proved, splits, start, args, seen, nest.bounds, Iteration(nest.bounds, q));
    InsideLater(p, start.dims, bounds, nest.bounds, seen);
  }

  lemma SamePoint(args: seq<string>, p: map<string, int>, p': map<string, int>)
    requires p.Keys == (set a | a in args) == p'.Keys && Values(args, p) == Values(args, p')
    ensures p == p'
  {
    forall a | a in args ensures p[a] == p'[a] {
      ValueAt(args, p, p', a);
    }
  }

  lemma {:induction false} ValueAt(args: seq<string>, p: map<string, int>, p': map<string, int>, a: string)
    requires (forall x | x in args :: x in p && x in p') && Values(args, p) == Values(args, p') && a in args
    ensures p[a] == p'[a]
  {
    assert Values(args, p)[0] == Values(args, p')[0];
    if a != args[0] {
      assert Values(args, p)[1..] == Values(args[1..], p) && Values(args, p')[1..] == Values(args[1..], p');
      ValueAt(args[1..], p, p', a);
    }
  }

  /** Whatever the directives, a known multiple of an extent divides it. */
  lemma AlignmentsDivide(proved: Prover, splits: seq<Split>, args: seq<string>, al: Alignment, bounds: Env, d: string)
    requires Reliable(proved) && Startable(args, al, bounds)
             && Usable(proved, splits, StartNest(args, al, bounds), StartSeen(args, al))
    requires d in Built(proved, splits, StartNest(args, al, bounds)).al
    ensures var nest := Built(proved, splits, StartNest(args, al, bounds));
            Divides(Eval(nest.al[d], nest.bounds), ExtentOf(nest.bounds, d))
  {
    StartSound(args, al, bounds);
    BuiltSound(proved, splits, StartNest(args, al, bounds), StartSeen(args, al));
    hide Built, Usable, Divides, Eval;
  }

  // ----- the tail strategies that overlap or run over -----

  /** Iterations of the loops after a directive, and what they compute for the loops before it. */
  ghost predicate Runs(proved: Prover, s: Split, al: Alignment, dims: set<string>, b: Env, env: Env) {
    SameFrame(b, env) && Inside(LoopsOf(env, DimsAfter(s, dims)), DimsAfter(s, dims), b)
        && Run(Results(proved, s, al), env).Some?
  }

  function Computed(proved: Prover, s: Split, al: Alignment, env: Env): int {
    var r := Run(Results(proved, s, al), env);
    if r.Some? then Get(r.value, Loop(s.from)) else 0
  }

  /** Every iteration computes a point of the old range. */
  ghost predicate StaysInside(proved: Prover, s: Split, al: Alignment, dims: set<string>, b: Env) {
    forall env: Env | Runs(proved, s, al, dims, b, env) ::
        MinOf(b, s.from) <= Computed(proved, s, al, env) <= MaxOf(b, s.from)
  }

  lemma ShiftedComputes(proved: Prover, s: Split, al: Alignment, dims: set<string>, seen: set<string>, b: Env, env: Env)
    requires StepReady(proved, s, al, dims, seen, b) && Shifted(proved, s, al) && Runs(proved, s, al, dims, b, env)
    ensures Computed(proved, s, al, env) <= MaxOf(b, s.from)
    ensures ExtentOf(b, s.from) >= Eval(s.factor, b) ==> MinOf(b, s.from) <= Computed(proved, s, al, env)
  {
    var f, o, i := Eval(s.factor, b), Get(env, Loop(s.outer)), Get(env, Loop(s.inner));
    SplitRuns(proved, s, al, b, env);
    InsideLoops(env, DimsAfter(s, dims), b);
    MulMono(0, o, f);
    hide Run, Results, Eval, SameFrame, DividesWhereProved, LoopsOf;
  }

  /** A shifted split never passes its old maximum, and over a domain that is not empty it stays inside the old range
      if and only if that is at least as long as the factor. */
  lemma ShiftInwardsExactly(proved: Prover, s: Split, al: Alignment, dims: set<string>, seen: set<string>, b: Env,
                            p: map<string, int>)
    requires StepReady(proved, s, al, dims, seen, b) && Shifted(proved, s, al) && Inside(p, dims, b)
    ensures forall env: Env | Runs(proved, s, al, dims, b, env) :: Computed(proved, s, al, env) <= MaxOf(b, s.from)
    ensures StaysInside(proved, s, al, dims, b) <==> ExtentOf(b, s.from) >= Eval(s.factor, b)
  {
    forall env: Env | Runs(proved, s, al, dims, b, env)
      ensures Computed(proved, s, al, env) <= MaxOf(b, s.from)
      ensures ExtentOf(b, s.from) >= Eval(s.factor, b) ==> MinOf(b, s.from) <= Computed(proved, s, al, env)
    {
      ShiftedComputes(proved, s, al, dims, seen, b, env);
    }
    if ExtentOf(b, s.from) < Eval(s.factor, b) {
      var env := FirstTile(proved, s, al, dims, seen, b, p);
      assert Runs(proved, s, al, dims, b, env);
    }
    hide Runs, Computed, Eval, StepReady, Shifted, Inside;
  }

  /** The first iteration of the split starts below a range that is shorter than the factor. */
  lemma FirstTile(proved: Prover, s: Split, al: Alignment, dims: set<string>, seen: set<string>, b: Env, p: map<string,
                  int>) returns (env: Env)
    requires StepReady(proved, s, al, dims, seen, b) && Shifted(proved, s, al) && Inside(p, dims, b)
    requires ExtentOf(b, s.from) < Eval(s.factor, b)
    ensures Runs(proved, s, al, dims, b, env) && Computed(proved, s, al, env) < MinOf(b, s.from)
  {
    var q := (p - {s.from})[s.outer := 0][s.inner := 0];
    assert dims <= seen && Valid(s, dims, seen) && Related(s, b) && s.SplitVar?;
    assert s.outer in DimsAfter(s, dims) && s.inner in DimsAfter(s, dims) && q[s.outer] == 0 && q[s.inner] == 0;
    hide *;
    env := Iteration(b, q);
    FirstInside(s, dims, seen, b, p, q);
    IterationIs(b, q);
    LoopsAre(env, q.Keys, q);
    BelowRange(proved, s, al, dims, seen, b, env);
  }

  lemma BelowRange(proved: Prover, s: Split, al: Alignment, dims: set<string>, seen: set<string>, b: Env, env: Env)
    requires StepReady(proved, s, al, dims, seen, b) && Shifted(proved, s, al)
             && ExtentOf(b, s.from) < Eval(s.factor, b)
    requires SameFrame(b, env) && Inside(LoopsOf(env, DimsAfter(s, dims)), DimsAfter(s, dims), b)
    requires Get(env, Loop(s.outer)) == 0 && Get(env, Loop(s.inner)) == 0
    ensures Runs(proved, s, al, dims, b, env) && Computed(proved, s, al, env) < MinOf(b, s.from)
  {
    assert Guarded(proved, s, al) ==> !Shifted(proved, s, al);
    SplitRuns(proved, s, al, b, env);
    hide Run, Results, Eval, SameFrame, DividesWhereProved, LoopsOf, Inside, Trivial, DimsAfter;
  }

  lemma FirstInside(s: Split, dims: set<string>, seen: set<string>, b: Env, p: map<string, int>, q: map<string, int>)
    requires s.SplitVar? && dims <= seen && Valid(s, dims, seen) && Related(s, b) && Inside(p, dims, b)
    requires q == (p - {s.from})[s.outer := 0][s.inner := 0]
    ensures Inside(q, DimsAfter(s, dims), b) && q.Keys == DimsAfter(s, dims)
  {
    TileOf(0, ExtentOf(b, s.from), Eval(s.factor, b));
    assert q.Keys == DimsAfter(s, dims);
    hide Eval, Closed;
  }

  /** A rounded-up split writes only the range rounded up to whole tiles, and nothing of it twice. */
  lemma RoundUpOnce(proved: Prover, s: Split, al: Alignment, dims: set<string>, seen: set<string>, b: Env, env: Env)
    requires StepReady(proved, s, al, dims, seen, b) && s.SplitVar? && s.tail.RoundUp?
             && Runs(proved, s, al, dims, b, env)
    ensures var x := Computed(proved, s, al, env) - MinOf(b, s.from);
            0 <= x < ExtentOf(b, s.outer) * ExtentOf(b, s.inner)
    ensures Preimage(proved, s, al, b, LoopsOf(Run(Results(proved, s, al), env).value, dims))
            == LoopsOf(env, DimsAfter(s, dims))
  {
    var f, o, i := Eval(s.factor, b), Get(env, Loop(s.outer)), Get(env, Loop(s.inner));
    SplitRuns(proved, s, al, b, env);
    InsideLoops(env, DimsAfter(s, dims), b);
    DivModUnique(o, i, f);
    FusedInside(o, i, ExtentOf(b, s.outer), f);
    hide Eval, Run, Results, SameFrame, DividesWhereProved, LoopsOf, Preimage, Trivial, Closed;
    SplitPreimage(proved, s, al, b, env, Run(Results(proved, s, al), env).value, dims, seen, o, i);
  }

  // ----- fused extents -----

  /** The environment is that of an iteration of the fused loop. */
  ghost predicate RunsFused(s: Split, b: Env, env: Env)
    requires s.FuseVars?
  {
    SameFrame(b, env) && Inside(LoopsOf(env, {s.from}), {s.from}, b)
  }

  /** Running what was emitted for it there gives an iteration of the two loops. */
  ghost predicate GivesPoint(s: Split, b: Env, env: Env)
    requires s.FuseVars?
  {
    var r := Run(FuseResults(s), env);
    r.Some? && Inside(LoopsOf(r.value, {s.inner, s.outer}), {s.inner, s.outer}, b)
  }

  /** Under the bounds emitted for a fused loop, what was emitted for its body gives iterations of the two loops only,
      unless both extents are negative: then their product is positive, and the fused loop runs although the two loops
      would not. */
  lemma FuseExactly(s: Split, b0: Env)
    requires s.FuseVars? && s.from != s.inner && s.from != s.outer && s.inner != s.outer
    ensures var b := Defined(LoopBounds(s), b0);
            (forall env: Env | RunsFused(s, b, env) :: GivesPoint(s, b, env))
            <==> !(ExtentOf(b0, s.inner) < 0 && ExtentOf(b0, s.outer) < 0)
  {
    var b := Defined(LoopBounds(s), b0);
    var n, m := ExtentOf(b0, s.inner), ExtentOf(b0, s.outer);
    FusedExtent(s, b0);
    hide Defined, LoopBounds;
    if m < 0 && n < 0 {
      MulMono(1, -m, -n);
      assert (-m) * (-n) == n * m;
      var env := b[Loop(s.from) := 0];
      FrameKept(b, b, Loop(s.from), 0);
      assert LoopsOf(env, {s.from}) == map[s.from := 0];
      assert RunsFused(s, b, env) && !GivesPoint(s, b, env) by { FusedPoint(s, b, env, m, n); }
    } else {
      forall env: Env | RunsFused(s, b, env) ensures GivesPoint(s, b, env) {
        FusedPoint(s, b, env, m, n);
        var k := Get(env, Loop(s.from));
        assert LoopsOf(env, {s.from})[s.from] == k;
        ProductPositive(m, n);
        FuseInverts(k, m, n);
      }
    }
  }

  /** What an iteration of a fused loop comes to. */
  lemma FusedPoint(s: Split, b: Env, env: Env, m: int, n: int)
    requires s.FuseVars? && s.from != s.inner && s.from != s.outer && s.inner != s.outer && SameFrame(b, env)
    requires n == ExtentOf(b, s.inner) && m == ExtentOf(b, s.outer)
    ensures var k, f := Get(env, Loop(s.from)), if n <= 1 then 1 else n;
            GivesPoint(s, b, env) <==> 0 <= k % f < n && 0 <= k / f < m
  {
    var k, f := Get(env, Loop(s.from)), if n <= 1 then 1 else n;
    FuseRuns(s, b, env);
    hide Run, FuseResults, SameFrame;
    var r := Run(FuseResults(s), env).value;
    var p := LoopsOf(r, {s.inner, s.outer});
    assert p[s.inner] == k % f + MinOf(b, s.inner) && p[s.outer] == k / f + MinOf(b, s.outer);
    assert p.Keys == {s.inner, s.outer};
    hide Get;
    if 0 <= k % f < n && 0 <= k / f < m {
      forall d | d in {s.inner, s.outer} ensures MinOf(b, d) <= p[d] < MinOf(b, d) + ExtentOf(b, d) {
        if d == s.inner {
        } else {
          assert d == s.outer;
        }
      }
    }
  }

  /** The bounds emitted for a fused loop; those of the two loops stay. */
  lemma FusedExtent(s: Split, b0: Env)
    requires s.FuseVars? && s.from != s.inner && s.from != s.outer
    ensures var b := Defined(LoopBounds(s), b0);
            && MinOf(b, s.from) == 0 && ExtentOf(b, s.from) == ExtentOf(b0, s.inner) * ExtentOf(b0, s.outer)
            && ExtentOf(b, s.inner) == ExtentOf(b0, s.inner) && ExtentOf(b, s.outer) == ExtentOf(b0, s.outer)
  {
    FuseBounds(s, b0, {s.inner, s.outer});
    hide Defined, LoopBounds;
  }

  lemma ProductPositive(m: int, n: int)
    requires n * m > 0 && !(m < 0 && n < 0)
    ensures m > 0 && n > 0
  {
    if m <= 0 && n >= 0 {
      MulMono(m, 0, n);
    } else if n <= 0 && m >= 0 {
      MulMono(n, 0, m);
    }
  }
}
