/** Rewriting vector loads to loads of native vectors (AlignLoads.cpp), with the alignment analysis of
    HexagonAlignment.h. */
module AlignLoads {
  import opened Wrappers

  // ----- loads -----

  /** A scalar index: an unknown expression plus a constant. */
  datatype Base = Base(e: string, offset: int)

  datatype Stride = Const(n: int) | Unknown(e: string)

  datatype Index = Ramp(base: Base, stride: Stride, lanes: nat) | Other(e: string, lanes: nat)

  /** The base is the remainder modulo the modulus, or equal to it if the modulus is zero. */
  datatype Align = Align(modulus: nat, remainder: int)

  /** `host` is the alignment of a parameter's memory; a load of an internal buffer has none. */
  datatype LoadOp = LoadOp(name: string, bytes: nat, predicated: bool, external: bool, index: Index, align: Align,
          host: Option<int>)

  datatype Expr = Load(op: LoadOp) | Slice(vector: Expr, begin: int, stride: int, size: nat)
          | Concat(vectors: seq<Expr>)

  function Lanes(e: Expr): nat {
    match e
    case Load(op) => op.index.lanes
    case Slice(_, _, _, size) => size
    case Concat(vs) => LanesOf(vs)
  }

  function LanesOf(vs: seq<Expr>): nat {
    if vs == [] then 0 else Lanes(vs[0]) + LanesOf(vs[1..])
  }

  // ----- what a vector holds -----

  /** The values of unknown scalars, and of unknown index vectors lane by lane. */
  datatype Env = Env(scalar: string -> int, vector: (string, nat) -> int)

  function ValueOf(b: Base, env: Env): int {
    env.scalar(b.e) + b.offset
  }

  function Address(i: Index, env: Env, j: nat): int {
    match i
    case Ramp(b, Const(n), _) => ValueOf(b, env) + j * n
    case Ramp(b, Unknown(s), _) => ValueOf(b, env) + j * env.scalar(s)
    case Other(v, _) => env.vector(v, j)
  }

  type Memory = (string, int) -> int

  function Lane(e: Expr, env: Env, mem: Memory, j: nat): int
    requires j < Lanes(e)
    decreases e, 0
  {
    match e
    case Load(op) => mem(op.name, Address(op.index, env, j))
    case Slice(v, begin, stride, _) =>
      if 0 <= begin + j * stride < Lanes(v) then Lane(v, env, mem, begin + j * stride) else 0
    case Concat(vs) => LaneOf(vs, env, mem, j)
  }

  function LaneOf(vs: seq<Expr>, env: Env, mem: Memory, j: nat): int
    requires j < LanesOf(vs)
    decreases vs, 1
  {
    if j < Lanes(vs[0]) then Lane(vs[0], env, mem, j) else LaneOf(vs[1..], env, mem, j - Lanes(vs[0]))
  }

  // ----- building vectors: None is a failed assertion of the compiler -----

  /** make_slice: every lane must exist. */
  function MakeSlice(v: Expr, begin: int, stride: int, size: nat): Option<Expr> {
    if begin == 0 && size == Lanes(v) && stride == 1 then Some(v)
    else if size > 0 && forall i | 0 <= i < size ::
        0 <= begin + i * stride < Lanes(v) then Some(Slice(v, begin, stride, size))
    else None
  }

  function MakeConcat(vs: seq<Expr>): Option<Expr> {
    if vs == [] then None else if |vs| == 1 then Some(vs[0]) else Some(Concat(vs))
  }

  // ----- alignment -----

  /** C++'s remainder has the sign of the dividend. */
  function Rem(a: int, n: int): int
    requires n >= 1
  {
    if a >= 0 then a % n else -((-a) % n)
  }

  /** ModulusRemainder plus a constant. */
  function Shift(a: Align, d: int): Align {
    Align(a.modulus, if a.modulus == 0 then a.remainder + d else (a.remainder + d) % a.modulus)
  }

  /** The analyzer as it is written, which calls a load aligned as soon as it knows the offset; and as it is
      documented, which calls it aligned if that offset is zero. */
  datatype Analyzer = AsWritten | AsDocumented

  function Native(required: nat, op: LoadOp): nat
    requires op.bytes > 0
  {
    required / op.bytes
  }

  predicate Known(required: nat, op: LoadOp)
    requires op.bytes > 0 && required > 0 && Native(required, op) >= 1
  {
    (op.host.Some? ==> op.host.value % required == 0) && op.align.modulus % Native(required, op) == 0
  }

  /** Whether the load is found to be aligned, and its offset if it is known. */
  function IsAligned(an: Analyzer, required: nat, op: LoadOp): (bool, int)
    requires op.bytes > 0 && required > 0 && Native(required, op) >= 1
  {
    if Known(required, op) then
      var offset := Rem(op.align.remainder, Native(required, op));
      (an.AsWritten? || offset == 0, offset)
    else (false, 0)
  }

  // ----- the rewriting -----

  predicate Rewritable(op: LoadOp) {
    !op.predicated && !op.external && op.index.Ramp? && op.index.lanes > 1 && op.index.stride.Const?
        && op.index.stride.n in {1, 2, 3}
  }

  /** A dense load of the same buffer. */
  function Dense(op: LoadOp, d: int, lanes: nat): LoadOp
    requires op.index.Ramp?
  {
    op.(index := Ramp(Base(op.index.base.e, op.index.base.offset + d), Const(1), lanes), align := Shift(op.align, d))
  }

  /** A dense load whose offset is known and not zero, if the analyzer says so. */
  predicate Misaligned(an: Analyzer, required: nat, op: LoadOp)
    requires op.bytes > 0 && required > 0 && Native(required, op) >= 1
  {
    var (aligned, offset) := IsAligned(an, required, op);
    !aligned && offset != 0
  }

  /** Decreases with every load that is made: strided loads become dense, large and small ones native, and native
      ones aligned. */
  function Rank(an: Analyzer, required: nat, op: LoadOp): nat
    requires op.bytes > 0 && required > 0
  {
    if !Rewritable(op) || Native(required, op) == 0 then 0
    else if op.index.stride != Const(1) then 7
    else
      var n := Native(required, op);
      (if op.index.lanes == n then 1 else if op.index.lanes < n then 2 else 3)
          + (if Misaligned(an, required, op) then 3 else 0)
  }

  function Visit(an: Analyzer, required: nat, op: LoadOp): Option<Expr>
    requires op.bytes > 0 && required > 0
    decreases Rank(an, required, op), 0
  {
    if !Rewritable(op) then Some(Load(op))
    else if Native(required, op) == 0 then None
    else
      var (aligned, offset) := IsAligned(an, required, op);
      var known := aligned || offset != 0;
      var n, lanes, stride := Native(required, op), op.index.lanes, op.index.stride.n;
      if stride != 1 then
        var shift := if known && offset < stride then offset else 0;
        DenseRank(an, required, op, -shift, lanes * stride);
        var dense := Visit(an, required, Dense(op, -shift, lanes * stride));
        if dense.None? then None else MakeSlice(dense.value, shift, stride, lanes)
      else if lanes < n then
        SameOffset(an, required, op, 0, n);
        var native := Visit(an, required, Dense(op, 0, n));
        if native.None? then None else MakeSlice(native.value, 0, 1, lanes)
      else if lanes > n then
        var slices := Slices(an, required, op, 0);
        if slices.None? then None else MakeConcat(slices.value)
      else if !aligned && offset != 0 then
        Realigned(an, required, op);
        var wide := Visit(an, required, Dense(op, -offset, lanes * 2));
        if wide.None? then None else MakeSlice(wide.value, offset, 1, lanes)
      else Some(Load(op))
  }

  /** The native loads that cover a large one from lane `i` on; a vector of one lane cannot be made. */
  function Slices(an: Analyzer, required: nat, op: LoadOp, i: nat): Option<seq<Expr>>
    requires op.bytes > 0 && required > 0 && Rewritable(op) && op.index.stride == Const(1)
    requires 1 <= Native(required, op) < op.index.lanes && i % Native(required, op) == 0
    decreases Rank(an, required, op), 0, if i < op.index.lanes then op.index.lanes - i else 0
  {
    var n, lanes := Native(required, op), op.index.lanes;
    if i >= lanes then Some([])
    else
      var size := if n <= lanes - i then n else lanes - i;
      if size <= 1 then None
      else
        SameOffset(an, required, op, i, size);
        NextMultiple(i, n);
        var first := Visit(an, required, Dense(op, i, size));
        if first.None? then None
        else
          var rest := Slices(an, required, op, i + n);
          if rest.None? then None else Some([first.value] + rest.value)
  }

  // ----- why it ends -----

  lemma ModAdd(q: int, n: int, s: int)
    requires n >= 1
    ensures (q * n + s) % n == s % n
  {
    var a, b := (q * n + s) / n, s / n;
    var x, y := (q * n + s) % n, s % n;
    assert q * n + s == a * n + x && s == b * n + y;
    Unique(a - b - q, n, y - x);
  }

  lemma AtLeast(q: int, n: int)
    requires q >= 1 && n >= 1
    ensures q * n >= n
  {
  }

  lemma Unique(q: int, n: int, r: int)
    requires n >= 1 && -n < r < n && q * n == r
    ensures r == 0
  {
    if q >= 1 {
      AtLeast(q, n);
    } else if q <= -1 {
      AtLeast(-q, n);
    }
  }

  lemma NextMultiple(i: nat, n: nat)
    requires n >= 1 && i % n == 0
    ensures (i + n) % n == 0
  {
    ModAdd(1, n, i);
  }

  lemma MulNegative(q: int, n: int)
    ensures (-q) * n == -(q * n)
  {
  }

  lemma SmallNegative(r: int, n: int)
    requires 0 < r < n
    ensures (-r) % n == n - r
  {
    ModAdd(-1, n, n - r);
  }

  lemma DividedRemainder(a: int, q: int, r: int, n: int)
    requires n >= 1 && a == -(q * n) - r && 0 <= r < n
    ensures a % n == 0 <==> r == 0
  {
    MulNegative(q, n);
    ModAdd(-q, n, -r);
    if r > 0 {
      SmallNegative(r, n);
    }
  }

  lemma NegatedRemainder(a: int, n: int)
    requires n >= 1
    ensures (-a) % n == 0 <==> a % n == 0
  {
    var q, r := (-a) / n, (-a) % n;
    DividedRemainder(a, q, r, n);
  }

  lemma RemZero(a: int, n: int)
    requires n >= 1
    ensures Rem(a, n) == 0 <==> a % n == 0
    ensures (a - Rem(a, n)) % n == 0
  {
    if a >= 0 {
      assert a - Rem(a, n) == (a / n) * n + 0;
      ModAdd(a / n, n, 0);
    } else {
      NegatedRemainder(a, n);
      assert a - Rem(a, n) == (-((-a) / n)) * n + 0;
      ModAdd(-((-a) / n), n, 0);
    }
  }

  /** Adding a constant to a known base adds it to the offset. */
  lemma ShiftOffset(a: Align, d: int, n: int)
    requires n >= 1 && a.modulus % n == 0
    ensures Shift(a, d).remainder % n == (a.remainder + d) % n
  {
    var x := a.remainder + d;
    if a.modulus != 0 {
      var q, k := x / a.modulus, a.modulus / n;
      assert x == q * a.modulus + x % a.modulus && a.modulus == k * n;
      assert x == (q * k) * n + x % a.modulus;
      ModAdd(q * k, n, x % a.modulus);
    }
  }

  lemma DenseRank(an: Analyzer, required: nat, op: LoadOp, d: int, lanes: nat)
    requires op.bytes > 0 && required > 0 && Rewritable(op) && Native(required, op) >= 1
    ensures op.index.stride != Const(1) ==> Rank(an, required, Dense(op, d, lanes)) < Rank(an, required, op)
  {
    hide Misaligned;
  }

  /** A shift by whole native vectors does not change whether the load is misaligned. */
  lemma SameOffset(an: Analyzer, required: nat, op: LoadOp, d: int, lanes: nat)
    requires op.bytes > 0 && required > 0 && Rewritable(op) && op.index.stride == Const(1) && Native(required, op) >= 1
    requires d % Native(required, op) == 0 && op.index.lanes != Native(required, op)
    requires lanes <= Native(required, op) && (op.index.lanes < Native(required, op) ==> lanes == Native(required, op))
    ensures Misaligned(an, required, Dense(op, d, lanes)) == Misaligned(an, required, op)
    ensures Rank(an, required, Dense(op, d, lanes)) < Rank(an, required, op)
  {
    MisalignedKeeps(an, required, op, d, lanes);
    hide Misaligned;
  }

  lemma MisalignedKeeps(an: Analyzer, required: nat, op: LoadOp, d: int, lanes: nat)
    requires op.bytes > 0 && required > 0 && op.index.Ramp? && Native(required, op) >= 1
             && d % Native(required, op) == 0
    ensures Misaligned(an, required, Dense(op, d, lanes)) == Misaligned(an, required, op)
  {
    var n := Native(required, op);
    if Known(required, op) {
      ShiftOffset(op.align, d, n);
      assert d == (d / n) * n;
      ModAdd(d / n, n, op.align.remainder);
      RemZero(op.align.remainder, n);
      RemZero(Shift(op.align, d).remainder, n);
    }
  }

  /** Shifted back by its offset a native load becomes an aligned load of twice the size. */
  lemma Realigned(an: Analyzer, required: nat, op: LoadOp)
    requires op.bytes > 0 && required > 0 && Rewritable(op) && op.index.stride == Const(1) && Native(required, op) >= 1
    requires op.index.lanes == Native(required, op) && Misaligned(an, required, op)
    ensures var offset := IsAligned(an, required, op).1;
            Rank(an, required, Dense(op, -offset, op.index.lanes * 2)) < Rank(an, required, op)
  {
    var n, offset := Native(required, op), IsAligned(an, required, op).1;
    ShiftOffset(op.align, -offset, n);
    RemZero(op.align.remainder, n);
    RemZero(Shift(op.align, -offset).remainder, n);
    assert !Misaligned(an, required, Dense(op, -offset, op.index.lanes * 2));
  }
}
