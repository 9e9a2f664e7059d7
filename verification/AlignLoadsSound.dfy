/** The rewritten loads hold the values of the original ones, lane for lane; when the rewriting fails; and when its
    loads are aligned. */
module AlignLoadsSound {
  import opened Wrappers
  import opened AlignLoads

  // ----- lane for lane -----

  ghost predicate Holds(e: Expr, op: LoadOp, env: Env, mem: Memory) {
    Lanes(e) == op.index.lanes && forall j: nat | j < Lanes(e) ::
        Lane(e, env, mem, j) == mem(op.name, Address(op.index, env, j))
  }

  lemma SliceMeans(v: Expr, begin: int, stride: int, size: nat, env: Env, mem: Memory, j: nat)
    requires MakeSlice(v, begin, stride, size).Some? && j < size
    ensures var r := MakeSlice(v, begin, stride, size).value;
            Lanes(r) == size && 0 <= begin + j * stride < Lanes(v)
                && Lane(r, env, mem, j) == Lane(v, env, mem, begin + j * stride)
  {
  }

  lemma SliceSize(v: Expr, begin: int, stride: int, size: nat)
    requires MakeSlice(v, begin, stride, size).Some?
    ensures Lanes(MakeSlice(v, begin, stride, size).value) == size
  {
  }

  /** A part of a dense load that holds what a load does. */
  lemma PartHolds(op: LoadOp, d: int, wide: nat, dense: Expr, begin: int, env: Env, mem: Memory)
    requires Rewritable(op) && Holds(dense, Dense(op, d, wide), env, mem) && begin == -d
    requires MakeSlice(dense, begin, op.index.stride.n, op.index.lanes).Some?
    ensures Holds(MakeSlice(dense, begin, op.index.stride.n, op.index.lanes).value, op, env, mem)
  {
    var r := MakeSlice(dense, begin, op.index.stride.n, op.index.lanes).value;
    SliceSize(dense, begin, op.index.stride.n, op.index.lanes);
    forall j: nat | j < Lanes(r) ensures Lane(r, env, mem, j) == mem(op.name, Address(op.index, env, j)) {
      hide *;
      PartLane(op, d, wide, dense, begin, env, mem, j);
    }
    hide MakeSlice, Lane, Address;
  }

  lemma PartLane(op: LoadOp, d: int, wide: nat, dense: Expr, begin: int, env: Env, mem: Memory, j: nat)
    requires Rewritable(op) && Holds(dense, Dense(op, d, wide), env, mem) && begin == -d && j < op.index.lanes
    requires MakeSlice(dense, begin, op.index.stride.n, op.index.lanes).Some?
    ensures var r := MakeSlice(dense, begin, op.index.stride.n, op.index.lanes).value;
            j < Lanes(r) && Lane(r, env, mem, j) == mem(op.name, Address(op.index, env, j))
  {
    var k := begin + j * op.index.stride.n;
    SliceMeans(dense, begin, op.index.stride.n, op.index.lanes, env, mem, j);
    LaneHolds(dense, Dense(op, d, wide), env, mem, k);
    SameAddress(op, d, wide, env, j, k);
    hide MakeSlice, Lane, Address, Holds;
  }

  lemma LaneHolds(e: Expr, op: LoadOp, env: Env, mem: Memory, k: nat)
    requires Holds(e, op, env, mem) && k < Lanes(e)
    ensures Lane(e, env, mem, k) == mem(op.name, Address(op.index, env, k))
  {
  }

  lemma SameAddress(op: LoadOp, d: int, wide: nat, env: Env, j: nat, k: nat)
    requires Rewritable(op) && k == j * op.index.stride.n - d
    ensures Address(Dense(op, d, wide).index, env, k) == Address(op.index, env, j)
  {
    assert Address(Dense(op, d, wide).index, env, k) == ValueOf(op.index.base, env) + d + k * 1;
  }

  /** The slices hold the lanes from `i` on. */
  ghost predicate SlicesHold(vs: seq<Expr>, op: LoadOp, i: nat, env: Env, mem: Memory) {
    && LanesOf(vs) == (if i < op.index.lanes then op.index.lanes - i else 0)
    && forall j: nat | j < LanesOf(vs) :: LaneOf(vs, env, mem, j) == mem(op.name, Address(op.index, env, i + j))
  }

  lemma MoreSlices(first: Expr, rest: seq<Expr>, op: LoadOp, i: nat, size: nat, env: Env, mem: Memory)
    requires Rewritable(op) && op.index.stride == Const(1) && i + size <= op.index.lanes
    requires Holds(first, Dense(op, i, size), env, mem) && SlicesHold(rest, op, i + size, env, mem)
    ensures SlicesHold([first] + rest, op, i, env, mem)
  {
    var all := [first] + rest;
    assert all[1..] == rest;
    forall j: nat | j < LanesOf(all) ensures LaneOf(all, env, mem, j) == mem(op.name, Address(op.index, env, i + j)) {
      if j < size {
        assert Lane(first, env, mem, j) == mem(op.name, Address(Dense(op, i, size).index, env, j));
      } else {
        assert LaneOf(rest, env, mem, j - size) == mem(op.name, Address(op.index, env, (i + size) + (j - size)));
      }
    }
  }

  lemma ConcatHolds(vs: seq<Expr>, op: LoadOp, env: Env, mem: Memory)
    requires SlicesHold(vs, op, 0, env, mem) && MakeConcat(vs).Some?
    ensures Holds(MakeConcat(vs).value, op, env, mem)
  {
    var r := MakeConcat(vs).value;
    if |vs| == 1 {
      assert LanesOf(vs) == Lanes(vs[0]) + LanesOf(vs[1..]);
      forall j: nat | j < Lanes(r) ensures Lane(r, env, mem, j) == mem(op.name, Address(op.index, env, j)) {
        assert LaneOf(vs, env, mem, j) == Lane(vs[0], env, mem, j);
      }
    } else {
      forall j: nat | j < Lanes(r) ensures Lane(r, env, mem, j) == mem(op.name, Address(op.index, env, j)) {
        assert Lane(r, env, mem, j) == LaneOf(vs, env, mem, j);
      }
    }
  }

  /** The rewritten load holds the values that the original one reads. */
  lemma {:induction false} LaneForLane(an: Analyzer, required: nat, op: LoadOp, env: Env, mem: Memory)
    requires op.bytes > 0 && required > 0 && Visit(an, required, op).Some?
    ensures Holds(Visit(an, required, op).value, op, env, mem)
    decreases Rank(an, required, op), 0
  {
    hide Holds, Rank, Misaligned, MakeSlice, MakeConcat, Slices, SlicesHold;
    if !Rewritable(op) {
      assert Holds(Load(op), op, env, mem) by { LoadHolds(op, env, mem); }
    } else {
      var (aligned, offset) := IsAligned(an, required, op);
      var n, lanes, stride := Native(required, op), op.index.lanes, op.index.stride.n;
      if stride != 1 {
        var shift := if (aligned || offset != 0) && offset < stride then offset else 0;
        DenseRank(an, required, op, -shift, lanes * stride);
        LaneForLane(an, required, Dense(op, -shift, lanes * stride), env, mem);
        PartHolds(op, -shift, lanes * stride, Visit(an, required, Dense(op, -shift, lanes * stride)).value, shift, env,
            mem);
      } else if lanes < n {
        SameOffset(an, required, op, 0, n);
        LaneForLane(an, required, Dense(op, 0, n), env, mem);
        PartHolds(op, 0, n, Visit(an, required, Dense(op, 0, n)).value, 0, env, mem);
      } else if lanes > n {
        SlicesLaneForLane(an, required, op, 0, env, mem);
        ConcatHolds(Slices(an, required, op, 0).value, op, env, mem);
      } else if !aligned && offset != 0 {
        assert Misaligned(an, required, op) by { Unaligned(an, required, op); }
        Realigned(an, required, op);
        LaneForLane(an, required, Dense(op, -offset, lanes * 2), env, mem);
        PartHolds(op, -offset, lanes * 2, Visit(an, required, Dense(op, -offset, lanes * 2)).value, offset, env, mem);
      } else {
        LoadHolds(op, env, mem);
      }
    }
  }

  lemma Unaligned(an: Analyzer, required: nat, op: LoadOp)
    requires op.bytes > 0 && required > 0 && Native(required, op) >= 1
    ensures Misaligned(an, required, op) <==> !IsAligned(an, required, op).0 && IsAligned(an, required, op).1 != 0
  {
  }

  lemma LoadHolds(op: LoadOp, env: Env, mem: Memory)
    ensures Holds(Load(op), op, env, mem)
  {
  }

  lemma {:induction false} SlicesLaneForLane(an: Analyzer, required: nat, op: LoadOp, i: nat, env: Env, mem: Memory)
    requires op.bytes > 0 && required > 0 && Rewritable(op) && op.index.stride == Const(1)
    requires 1 <= Native(required, op) < op.index.lanes && i % Native(required, op) == 0
             && Slices(an, required, op, i).Some?
    ensures SlicesHold(Slices(an, required, op, i).value, op, i, env, mem)
    decreases Rank(an, required, op), 0, if i < op.index.lanes then op.index.lanes - i else 0
  {
    hide Holds, Rank, Visit;
    var n, lanes := Native(required, op), op.index.lanes;
    if i < lanes {
      var size := if n <= lanes - i then n else lanes - i;
      SameOffset(an, required, op, i, size);
      NextMultiple(i, n);
      LaneForLane(an, required, Dense(op, i, size), env, mem);
      SlicesLaneForLane(an, required, op, i + n, env, mem);
      var first, rest := Visit(an, required, Dense(op, i, size)).value, Slices(an, required, op, i + n).value;
      assert SlicesHold(rest, op, i + size, env, mem);
      MoreSlices(first, rest, op, i, size, env, mem);
      hide SlicesHold;
    }
  }

  // ----- when it fails -----

  /** The last of the native loads that cover a dense load would have one lane, or all of them would. */
  predicate SingleLane(lanes: nat, n: nat)
    requires n >= 1
  {
    lanes > n && (n == 1 || lanes % n == 1)
  }

  /** The load is strided, and the analyzer reports a negative offset for it. */
  predicate NegativeOffset(required: nat, op: LoadOp)
    requires op.bytes > 0 && required > 0 && Native(required, op) >= 1 && Rewritable(op)
  {
    op.index.stride.n != 1 && Known(required, op) && Rem(op.align.remainder, Native(required, op)) < 0
  }

  lemma {:induction false} DenseFails(required: nat, op: LoadOp)
    requires op.bytes > 0 && required > 0 && Rewritable(op) && op.index.stride == Const(1) && Native(required, op) >= 1
    ensures Visit(AsWritten, required, op).None? <==> SingleLane(op.index.lanes, Native(required, op))
    decreases Rank(AsWritten, required, op), 0
  {
    var n, lanes := Native(required, op), op.index.lanes;
    hide Rank, Slices, MakeSlice, MakeConcat, SingleLane;
    if lanes < n {
      SameOffset(AsWritten, required, op, 0, n);
      DenseFails(required, Dense(op, 0, n));
      NotSingle(n);
      NotSingleBelow(lanes, n);
      var native := Visit(AsWritten, required, Dense(op, 0, n));
      NativeLanes(AsWritten, required, Dense(op, 0, n));
      SliceFits(native.value, 0, 1, lanes);
    } else if lanes > n {
      SlicesFail(required, op, 0);
      SlicesNonEmpty(required, op);
      assert Visit(AsWritten, required, op).None? <==>
          Slices(AsWritten, required, op, 0).None? by { ConcatOk(required, op); }
      TailIsSingle(lanes, n, 0);
    } else {
      NotSingle(n);
      assert !Misaligned(AsWritten, required, op);
    }
  }

  lemma NotSingle(n: nat)
    requires n >= 1
    ensures !SingleLane(n, n)
  {
  }

  lemma NotSingleBelow(lanes: nat, n: nat)
    requires 1 <= lanes < n
    ensures !SingleLane(lanes, n)
  {
  }

  lemma NativeLanes(an: Analyzer, required: nat, op: LoadOp)
    requires op.bytes > 0 && required > 0
    ensures Visit(an, required, op).Some? ==> Lanes(Visit(an, required, op).value) == op.index.lanes
  {
    if Visit(an, required, op).Some? {
      LaneForLane(an, required, op, Env(_ => 0, (_, _) => 0), (_, _) => 0);
    }
    hide Visit, Lane;
  }

  lemma SliceFits(v: Expr, begin: int, stride: int, size: nat)
    requires size > 0 && stride > 0
    ensures MakeSlice(v, begin, stride, size).Some? <==> 0 <= begin && begin + (size - 1) * stride < Lanes(v)
  {
    SliceNeeds(v, begin, stride, size);
    if 0 <= begin && begin + (size - 1) * stride < Lanes(v) {
      forall i | 0 <= i < size ensures 0 <= begin + i * stride < Lanes(v) {
        MulMono(0, i, stride);
        MulMono(i, size - 1, stride);
      }
    }
  }

  lemma SliceNeeds(v: Expr, begin: int, stride: int, size: nat)
    requires size > 0 && stride > 0
    ensures MakeSlice(v, begin, stride, size).Some? ==> 0 <= begin && begin + (size - 1) * stride < Lanes(v)
  {
    if MakeSlice(v, begin, stride, size).Some? {
      assert 0 <= begin + 0 * stride;
      assert begin + (size - 1) * stride < Lanes(v);
    }
  }

  lemma MulMono(a: int, b: int, f: int)
    requires a <= b && f >= 0
    ensures a * f <= b * f
  {
  }

  lemma ConcatOk(required: nat, op: LoadOp)
    requires op.bytes > 0 && required > 0 && Rewritable(op) && op.index.stride == Const(1)
    requires 1 <= Native(required, op) < op.index.lanes
    requires Slices(AsWritten, required, op, 0).Some? ==> Slices(AsWritten, required, op, 0).value != []
    ensures Visit(AsWritten, required, op).None? <==> Slices(AsWritten, required, op, 0).None?
  {
    hide Slices;
  }

  lemma SlicesNonEmpty(required: nat, op: LoadOp)
    requires op.bytes > 0 && required > 0 && Rewritable(op) && op.index.stride == Const(1)
    requires 1 <= Native(required, op) < op.index.lanes
    ensures Slices(AsWritten, required, op, 0).Some? ==> Slices(AsWritten, required, op, 0).value != []
  {
    hide Visit, Rank;
  }

  /** A vector of one lane is among those from lane `i` on. */
  predicate SingleFrom(lanes: nat, n: nat, i: nat)
    requires n >= 1
    decreases if i < lanes then lanes - i else 0
  {
    i < lanes && ((if n <= lanes - i then n else lanes - i) <= 1 || SingleFrom(lanes, n, i + n))
  }

  lemma {:induction false} TailIsSingle(lanes: nat, n: nat, i: nat)
    requires n >= 1 && i % n == 0 && i <= lanes + n
    ensures i < lanes ==> (SingleFrom(lanes, n, i) <==> n == 1 || lanes % n == 1)
    decreases if i < lanes then lanes - i else 0
  {
    if i < lanes {
      NextMultiple(i, n);
      if lanes - i <= n {
        LastTile(lanes, n, i);
      } else {
        TailIsSingle(lanes, n, i + n);
      }
    }
  }

  lemma LastTile(lanes: nat, n: nat, i: nat)
    requires n >= 1 && i % n == 0 && 0 < lanes - i <= n
    ensures lanes % n == if lanes - i == n then 0 else lanes - i
  {
    assert i == (i / n) * n;
    ModAdd(i / n, n, lanes - i);
  }

  lemma {:induction false} SlicesFail(required: nat, op: LoadOp, i: nat)
    requires op.bytes > 0 && required > 0 && Rewritable(op) && op.index.stride == Const(1)
    requires 1 <= Native(required, op) < op.index.lanes && i % Native(required, op) == 0
    ensures Slices(AsWritten, required, op, i).None? <==> SingleFrom(op.index.lanes, Native(required, op), i)
    decreases Rank(AsWritten, required, op), 0, if i < op.index.lanes then op.index.lanes - i else 0
  {
    hide Rank, Visit;
    var n, lanes := Native(required, op), op.index.lanes;
    if i < lanes {
      var size := if n <= lanes - i then n else lanes - i;
      if size > 1 {
        SameOffset(AsWritten, required, op, i, size);
        NextMultiple(i, n);
        DenseFails(required, Dense(op, i, size));
        SlicesFail(required, op, i + n);
        if size == n { NotSingle(n); } else { NotSingleBelow(size, n); }
        hide SingleLane;
      }
    }
  }

  /** The compiler's assertions fail if and only if the dense load that covers the original one leaves a single lane
      over, or a strided load has a negative offset, or a value does not fit a native vector. */
  lemma FailsExactly(required: nat, op: LoadOp)
    requires op.bytes > 0 && required > 0
    ensures Visit(AsWritten, required, op).None?
            <==>
            && Rewritable(op)
            && (|| Native(required, op) == 0
                || SingleLane(op.index.lanes * op.index.stride.n, Native(required, op))
                || NegativeOffset(required, op))
  {
    if Rewritable(op) && Native(required, op) >= 1 {
      if op.index.stride.n == 1 {
        DenseFails(required, op);
        assert op.index.lanes * 1 == op.index.lanes;
        hide Visit;
      } else {
        StridedFails(required, op);
        hide *;
      }
    }
  }

  lemma StridedFails(required: nat, op: LoadOp)
    requires op.bytes > 0 && required > 0 && Rewritable(op) && op.index.stride.n != 1 && Native(required, op) >= 1
    ensures Visit(AsWritten, required, op).None?
            <==> SingleLane(op.index.lanes * op.index.stride.n, Native(required, op)) || NegativeOffset(required, op)
  {
    hide Visit, MakeSlice, SingleLane;
    var lanes, stride := op.index.lanes, op.index.stride.n;
    var (aligned, offset) := IsAligned(AsWritten, required, op);
    var shift := if (aligned || offset != 0) && offset < stride then offset else 0;
    var wide := lanes * stride;
    var dense := Visit(AsWritten, required, Dense(op, -shift, wide));
    DenseFails(required, Dense(op, -shift, wide));
    NativeLanes(AsWritten, required, Dense(op, -shift, wide));
    StridedVisit(required, op);
    if dense.Some? {
      SliceFits(dense.value, shift, stride, lanes);
      assert (lanes - 1) * stride + stride == wide;
    }
  }

  lemma StridedVisit(required: nat, op: LoadOp)
    requires op.bytes > 0 && required > 0 && Rewritable(op) && op.index.stride.n != 1 && Native(required, op) >= 1
    ensures var (aligned, offset) := IsAligned(AsWritten, required, op);
            var shift := if (aligned || offset != 0) && offset < op.index.stride.n then offset else 0;
            var dense := Visit(AsWritten, required, Dense(op, -shift, op.index.lanes * op.index.stride.n));
            Visit(AsWritten, required, op) == if dense.None? then None
                else MakeSlice(dense.value, shift, op.index.stride.n, op.index.lanes)
  {
    hide MakeSlice, IsAligned;
  }

  // ----- when the loads are aligned -----

  /** What is said about the base of the load is true. */
  ghost predicate True(op: LoadOp, env: Env) {
    op.index.Ramp? &&
    var x := ValueOf(op.index.base, env) - op.align.remainder;
        if op.align.modulus == 0 then x == 0 else x % op.align.modulus == 0
  }

  /** Every load is of one native vector, and aligned. */
  ghost predicate AllAligned(e: Expr, env: Env, required: nat) {
    match e
    case Load(op) => op.bytes > 0 && op.index.Ramp? && op.index.lanes == Native(required, op) >= 1
        && ValueOf(op.index.base, env) % Native(required, op) == 0
    case Slice(v, _, _, _) => AllAligned(v, env, required)
    case Concat(vs) => forall v | v in vs :: AllAligned(v, env, required)
  }

  lemma SliceAligned(v: Expr, begin: int, stride: int, size: nat, env: Env, required: nat)
    requires MakeSlice(v, begin, stride, size).Some?
    ensures AllAligned(MakeSlice(v, begin, stride, size).value, env, required) <==> AllAligned(v, env, required)
  {
    hide Lanes;
  }

  lemma ConcatAligned(vs: seq<Expr>, env: Env, required: nat)
    requires MakeConcat(vs).Some?
    ensures AllAligned(MakeConcat(vs).value, env, required) <==> forall v | v in vs :: AllAligned(v, env, required)
  {
    if |vs| == 1 {
      assert vs == [vs[0]];
    }
  }

  /** Moving by whole vectors keeps alignment. */
  lemma BaseMoves(op: LoadOp, d: int, lanes: nat, n: nat, env: Env)
    requires op.index.Ramp? && n >= 1 && d % n == 0
    ensures ValueOf(Dense(op, d, lanes).index.base, env) % n == ValueOf(op.index.base, env) % n
  {
    assert d == (d / n) * n;
    ModAdd(d / n, n, ValueOf(op.index.base, env));
  }

  /** With the analyzer as written the loads of a dense load are aligned exactly if its base is. */
  lemma {:induction false} DenseAlignedExactly(required: nat, op: LoadOp, env: Env)
    requires op.bytes > 0 && required > 0 && Rewritable(op) && op.index.stride == Const(1) && Native(required, op) >= 1
    requires Visit(AsWritten, required, op).Some?
    ensures AllAligned(Visit(AsWritten, required, op).value, env, required)
            <==> ValueOf(op.index.base, env) % Native(required, op) == 0
    decreases Rank(AsWritten, required, op), 0
  {
    var n, lanes := Native(required, op), op.index.lanes;
    assert lanes > 1 && op.index.Ramp?;
    hide *;
    DenseVisit(required, op);
    if lanes < n {
      SmallAligned(required, op, env);
      SameOffset(AsWritten, required, op, 0, n);
      DenseAlignedExactly(required, Dense(op, 0, n), env);
      BaseMoves(op, 0, n, n, env);
      SliceAligned(Visit(AsWritten, required, Dense(op, 0, n)).value, 0, 1, lanes, env, required);
    } else if lanes > n {
      ZeroMod(n);
      SlicesAlignedExactly(required, op, 0, env);
      SlicesNonEmpty(required, op);
      var slices := Slices(AsWritten, required, op, 0).value;
      ConcatAligned(slices, env, required);
      assert slices[0] in slices;
    } else {
      NativeAligned(op, env, required);
    }
  }

  lemma ZeroMod(n: nat)
    requires n >= 1
    ensures 0 % n == 0
  {
  }

  lemma NativeAligned(op: LoadOp, env: Env, required: nat)
    requires op.bytes > 0 && op.index.Ramp? && op.index.lanes == Native(required, op) >= 1
    ensures AllAligned(Load(op), env, required) <==> ValueOf(op.index.base, env) % Native(required, op) == 0
  {
  }

  lemma SmallAligned(required: nat, op: LoadOp, env: Env)
    requires op.bytes > 0 && required > 0 && Rewritable(op) && op.index.stride == Const(1)
             && op.index.lanes < Native(required, op)
    ensures var dense := Dense(op, 0, Native(required, op));
            Rewritable(dense) && dense.index.stride == Const(1) && dense.bytes == op.bytes
                && Native(required, dense) == Native(required, op)
  {
  }

  /** What becomes of a dense load; a native one is left alone. */
  lemma DenseVisit(required: nat, op: LoadOp)
    requires op.bytes > 0 && required > 0 && Rewritable(op) && op.index.stride == Const(1) && Native(required, op) >= 1
    ensures var n, lanes, r := Native(required, op), op.index.lanes, Visit(AsWritten, required, op);
            if lanes == n then r == Some(Load(op))
            else if lanes < n then
              var native := Visit(AsWritten, required, Dense(op, 0, n));
              r == if native.None? then None else MakeSlice(native.value, 0, 1, lanes)
            else
              var slices := Slices(AsWritten, required, op, 0);
              r == if slices.None? then None else MakeConcat(slices.value)
  {
    assert !Misaligned(AsWritten, required, op);
    hide Slices, MakeSlice, MakeConcat;
  }

  lemma {:induction false} SlicesAlignedExactly(required: nat, op: LoadOp, i: nat, env: Env)
    requires op.bytes > 0 && required > 0 && Rewritable(op) && op.index.stride == Const(1)
    requires 1 <= Native(required, op) < op.index.lanes && i % Native(required, op) == 0
             && Slices(AsWritten, required, op, i).Some?
    ensures forall v | v in Slices(AsWritten, required, op, i).value ::
              AllAligned(v, env, required) <==> ValueOf(op.index.base, env) % Native(required, op) == 0
    decreases Rank(AsWritten, required, op), 0, if i < op.index.lanes then op.index.lanes - i else 0
  {
    hide Rank, Visit, AllAligned, ValueOf;
    var n, lanes := Native(required, op), op.index.lanes;
    if i < lanes {
      var size := if n <= lanes - i then n else lanes - i;
      SameOffset(AsWritten, required, op, i, size);
      NextMultiple(i, n);
      DenseAlignedExactly(required, Dense(op, i, size), env);
      BaseMoves(op, i, size, n, env);
      SlicesAlignedExactly(required, op, i + n, env);
    }
  }

  /** The offset of a load whose alignment is known is that of its address. */
  lemma OffsetIsTrue(required: nat, op: LoadOp, env: Env)
    requires op.bytes > 0 && required > 0 && Native(required, op) >= 1 && Known(required, op) && True(op, env)
    ensures (ValueOf(op.index.base, env) - Rem(op.align.remainder, Native(required, op))) % Native(required, op) == 0
  {
    var n, r := Native(required, op), op.align.remainder;
    RemZero(r, n);
    var x := ValueOf(op.index.base, env) - r;
    if op.align.modulus != 0 {
      var k, q := op.align.modulus / n, x / op.align.modulus;
      assert x == q * op.align.modulus && op.align.modulus == k * n;
      assert x == (q * k) * n;
      ModAdd(q * k, n, r - Rem(r, n));
    }
  }

  /** A load of known alignment becomes aligned loads if and only if it is aligned already, or it is strided and its
      offset is smaller than its stride: the analyzer as written never reports a dense load as misaligned. */
  lemma AlignedExactly(required: nat, op: LoadOp, env: Env)
    requires op.bytes > 0 && required > 0 && Rewritable(op) && Native(required, op) >= 1 && Known(required, op)
             && True(op, env)
    requires Visit(AsWritten, required, op).Some?
    ensures var offset := Rem(op.align.remainder, Native(required, op));
            AllAligned(Visit(AsWritten, required, op).value, env, required) <==>
                offset == 0 || (op.index.stride.n != 1 && offset < op.index.stride.n)
  {
    var n, lanes, stride := Native(required, op), op.index.lanes, op.index.stride.n;
    var offset := Rem(op.align.remainder, n);
    OffsetIsTrue(required, op, env);
    OffsetDecides(ValueOf(op.index.base, env), offset, n);
    if stride == 1 {
      DenseAlignedExactly(required, op, env);
    } else {
      var shift := if offset < stride then offset else 0;
      var dense := Visit(AsWritten, required, Dense(op, -shift, lanes * stride));
      StridedVisit(required, op);
      hide Visit;
      DenseAlignedExactly(required, Dense(op, -shift, lanes * stride), env);
      SliceAligned(dense.value, shift, stride, lanes, env, required);
      assert ValueOf(Dense(op, -shift, lanes * stride).index.base, env) == ValueOf(op.index.base, env) - shift;
    }
    hide Visit, AllAligned, MakeSlice;
  }

  lemma OffsetDecides(x: int, offset: int, n: int)
    requires n >= 1 && (x - offset) % n == 0 && -n < offset < n
    ensures x % n == 0 <==> offset == 0
  {
    var q := (x - offset) / n;
    assert x == q * n + offset;
    ModAdd(q, n, offset);
    if offset < 0 {
      SmallNegative(-offset, n);
    }
  }

  // ----- the analyzer as it is documented -----

  lemma TrueMoves(op: LoadOp, d: int, lanes: nat, env: Env)
    requires op.index.Ramp? && True(op, env)
    ensures True(Dense(op, d, lanes), env)
  {
    if op.align.modulus != 0 {
      TruthMoves(ValueOf(op.index.base, env), op.align.remainder, d, op.align.modulus);
    }
    hide Native;
  }

  lemma Multiple(q: int, m: int, b: int)
    requires m >= 1
    ensures (q * m) % m == 0 && (q * m + b) % m == b % m
  {
    ModAdd(q, m, 0);
    ModAdd(q, m, b);
  }

  lemma Whole(y: int, m: int)
    requires m >= 1
    ensures y == (y / m) * m + y % m
  {
  }

  lemma WholePart(y: int, m: int)
    requires m >= 1
    ensures (y - y % m) % m == 0
  {
    var q, r := y / m, y % m;
    Whole(y, m);
    Multiple(q, m, 0);
  }

  lemma SumOfMultiples(a: int, b: int, m: int)
    requires m >= 1 && a % m == 0 && b % m == 0
    ensures (a + b) % m == 0
  {
    var q := a / m;
    Whole(a, m);
    Multiple(q, m, b);
  }

  lemma TruthMoves(x: int, r: int, d: int, m: int)
    requires m >= 1 && (x - r) % m == 0
    ensures (x + d - (r + d) % m) % m == 0
  {
    WholePart(r + d, m);
    SumOfMultiples(x - r, r + d - (r + d) % m, m);
    assert x + d - (r + d) % m == (x - r) + (r + d - (r + d) % m);
  }

  /** With an analyzer that calls a load aligned only if its offset is zero, every load of known alignment would become
      aligned loads. */
  lemma {:induction false} DocumentedAligns(required: nat, op: LoadOp, env: Env)
    requires op.bytes > 0 && required > 0 && Rewritable(op) && Native(required, op) >= 1 && Known(required, op)
             && True(op, env)
    requires Visit(AsDocumented, required, op).Some?
    ensures AllAligned(Visit(AsDocumented, required, op).value, env, required)
    decreases Rank(AsDocumented, required, op), 0
  {
    hide Rank, Slices, MakeSlice, MakeConcat, AllAligned, True;
    var (aligned, offset) := IsAligned(AsDocumented, required, op);
    var n, lanes, stride := Native(required, op), op.index.lanes, op.index.stride.n;
    if stride != 1 {
      var shift := if (aligned || offset != 0) && offset < stride then offset else 0;
      DenseRank(AsDocumented, required, op, -shift, lanes * stride);
      TrueMoves(op, -shift, lanes * stride, env);
      DocumentedAligns(required, Dense(op, -shift, lanes * stride), env);
      SliceAligned(Visit(AsDocumented, required, Dense(op, -shift, lanes * stride)).value, shift, stride, lanes, env,
          required);
    } else if lanes < n {
      SameOffset(AsDocumented, required, op, 0, n);
      TrueMoves(op, 0, n, env);
      DocumentedAligns(required, Dense(op, 0, n), env);
      SliceAligned(Visit(AsDocumented, required, Dense(op, 0, n)).value, 0, 1, lanes, env, required);
    } else if lanes > n {
      DocumentedSlices(required, op, 0, env);
      ConcatAligned(Slices(AsDocumented, required, op, 0).value, env, required);
    } else if !aligned && offset != 0 {
      Unaligned(AsDocumented, required, op);
      Realigned(AsDocumented, required, op);
      TrueMoves(op, -offset, lanes * 2, env);
      DocumentedAligns(required, Dense(op, -offset, lanes * 2), env);
      SliceAligned(Visit(AsDocumented, required, Dense(op, -offset, lanes * 2)).value, offset, 1, lanes, env, required);
    } else {
      OffsetIsTrue(required, op, env);
      NativeAligned(op, env, required);
    }
  }

  lemma {:induction false} DocumentedSlices(required: nat, op: LoadOp, i: nat, env: Env)
    requires op.bytes > 0 && required > 0 && Rewritable(op) && op.index.stride == Const(1) && True(op, env)
    requires 1 <= Native(required, op) < op.index.lanes && Known(required, op) && i % Native(required, op) == 0
             && Slices(AsDocumented, required, op, i).Some?
    ensures forall v | v in Slices(AsDocumented, required, op, i).value :: AllAligned(v, env, required)
    decreases Rank(AsDocumented, required, op), 0, if i < op.index.lanes then op.index.lanes - i else 0
  {
    hide Rank, Visit, AllAligned, True;
    var n, lanes := Native(required, op), op.index.lanes;
    if i < lanes {
      var size := if n <= lanes - i then n else lanes - i;
      SameOffset(AsDocumented, required, op, i, size);
      NextMultiple(i, n);
      TrueMoves(op, i, size, env);
      DocumentedAligns(required, Dense(op, i, size), env);
      DocumentedSlices(required, op, i + n, env);
    }
  }
}
