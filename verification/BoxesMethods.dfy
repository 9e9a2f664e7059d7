/** The visitor as Bounds.cpp runs it: the boxes are grown in place, lets and loops push and pop the scope, and
    stacked lets are kept in a list of frames. */
module BoxesMethods {
  import opened Wrappers
  import opened BoundsIR
  import opened Intervals
  import opened BoundsExpr
  import opened BoundsMethods
  import opened Boxes
  import BT = BoxesTouched

  /** merge_boxes, one dimension after the other. */
  method MergeBoxesInto(t: Tools, a: Box, b: Box) returns (r: Box)
    requires a.IsEmpty() || b.IsEmpty() || |a.bounds| == |b.bounds|
    ensures r == MergeBoxes(t, a, b)
  {
    if b.IsEmpty() {
      return a;
    }
    if a.IsEmpty() {
      return b;
    }
    var bounds := a.bounds;
    for i := 0 to |bounds|
      invariant |bounds| == |a.bounds|
      invariant forall k | 0 <= k < |bounds| ::
        bounds[k] == if k < i then MergeSide(t, a, b, a.bounds[k], b.bounds[k]) else a.bounds[k]
    {
      bounds := bounds[i := MergeSide(t, a, b, bounds[i], b.bounds[i])];
    }
    r := Box(MergeUsed(t, a, b), bounds);
    assert bounds == MergeBoxes(t, a, b).bounds;
  }

  /** What has to be bound in the boxes when a let is left: nothing, or the new names of its bounds. */
  datatype Frame = Shown | Renamed(n: nat, low: Expr, high: Expr)

  function Leave(t: Tools, frame: Frame, boxes: BT.Map): BT.Map {
    if frame.Renamed? then BT.NameNew(t, boxes, frame.n, frame.low, frame.high) else boxes
  }

  function LeaveAll(t: Tools, frames: seq<Frame>, boxes: BT.Map): BT.Map
    decreases |frames|
  {
    if frames == [] then boxes else LeaveAll(t, frames[..|frames| - 1], Leave(t, frames[|frames| - 1], boxes))
  }

  lemma LeaveLast(t: Tools, frames: seq<Frame>, frame: Frame, boxes: BT.Map)
    ensures LeaveAll(t, frames + [frame], boxes) == LeaveAll(t, frames, Leave(t, frame, boxes))
  {
    assert (frames + [frame])[..|frames|] == frames;
  }

  /** The outcome outside of the lets, from the one inside. */
  function Left(t: Tools, frame: Frame, r: BT.Outcome): BT.Outcome {
    if r.None? then None else Some((Leave(t, frame, r.value.0), r.value.1))
  }

  function LeftAll(t: Tools, frames: seq<Frame>, r: BT.Outcome): BT.Outcome {
    if r.None? then None else Some((LeaveAll(t, frames, r.value.0), r.value.1))
  }

  lemma LeftLast(t: Tools, frames: seq<Frame>, frame: Frame, r: BT.Outcome)
    ensures LeftAll(t, frames, Left(t, frame, r)) == LeftAll(t, frames + [frame], r)
  {
    if r.Some? {
      LeaveLast(t, frames, frame, r.value.0);
    }
  }

  /** What a loop has collected so far, before what the rest of the list gives. */
  ghost function Prefixed<T>(done: seq<T>, rest: (seq<T>, nat)): (seq<T>, nat) {
    (done + rest.0, rest.1)
  }

  lemma PrefixedNone<T>(rest: (seq<T>, nat))
    ensures Prefixed([], rest) == rest
  {
    assert [] + rest.0 == rest.0;
  }

  lemma PrefixedMore<T>(done: seq<T>, more: seq<T>, rest: (seq<T>, nat))
    ensures Prefixed(done, Prefixed(more, rest)) == Prefixed(done + more, rest)
  {
    assert done + (more + rest.0) == (done + more) + rest.0;
  }

  class BoxesTouched {
    const t: Tools
    var scope: Scope
    var lets: BT.Lets
    var boxes: BT.Map
    var names: nat

    constructor (t: Tools, scope: Scope, names: nat)
      ensures this.t == t && this.scope == scope && this.names == names && boxes == map[] && lets == []
    {
      this.t, this.scope, this.names, boxes, lets := t, scope, names, map[], [];
    }

    /** Fails where the pass stops with an error; then nothing is said about the fields. */
    method Accept(s: BT.Stmt) returns (ok: bool)
      modifies this
      ensures ok <==> BT.BoxesOf(t, s, old(scope), old(lets), old(boxes), old(names)).Some?
      ensures ok ==>
        && scope == old(scope) && lets == old(lets)
        && BT.BoxesOf(t, s, old(scope), old(lets), old(boxes), old(names)) == Some((boxes, names))
      decreases s, 1, 0
    {
      ok := true;
      match s
      case NoOp =>
      case Provide(f, args) => VisitProvide(f, args);
      case Block(a, b) =>
        ok := Accept(a);
        if ok {
          ok := Accept(b);
        }
      case For(_, _, _, _) => ok := VisitFor(s);
      case LetStmt(_, _, _) => ok := VisitLets(s);
      case IfThenElse(_, _, _) => ok := VisitIfThenElse(s);
    }

    method VisitProvide(f: string, args: seq<Expr>)
      modifies this
      ensures scope == old(scope) && lets == old(lets)
      ensures BT.BoxesOf(t, BT.Provide(f, args), old(scope), old(lets), old(boxes), old(names)) == Some((boxes, names))
    {
      var b: seq<Interval> := [];
      assert args[0..] == args;
      PrefixedNone(BT.ArgBounds(t.o, args, scope, names));
      for i := 0 to |args|
        invariant scope == old(scope) && lets == old(lets) && boxes == old(boxes)
        invariant BT.ArgBounds(t.o, args, scope, old(names)) == Prefixed(b, BT.ArgBounds(t.o, args[i..], scope, names))
      {
        assert args[i..][1..] == args[i + 1..];
        var interval;
        interval, names := BoundsOfExprInScope(t.o, args[i], scope, names);
        PrefixedMore(b, [interval], BT.ArgBounds(t.o, args[i + 1..], scope, names));
        b := b + [interval];
      }
      assert args[|args|..] == [] && b + [] == b;
      var before := BT.At(boxes, f);
      if before.IsEmpty() || b == [] || |before.bounds| == |b| {
        var merged := MergeBoxesInto(t, before, Box(None, b));
        boxes := boxes[f := merged];
      }
    }

    /** The end of the loop is computed with arithmetic that refuses infinities. */
    method VisitFor(s: BT.Stmt) returns (ok: bool)
      requires s.For?
      modifies this
      ensures ok <==> BT.BoxesOf(t, s, old(scope), old(lets), old(boxes), old(names)).Some?
      ensures ok ==>
        && scope == old(scope) && lets == old(lets)
        && BT.BoxesOf(t, s, old(scope), old(lets), old(boxes), old(names)) == Some((boxes, names))
      decreases s, 0, 0
    {
      var low, high, i;
      if s.v + ".loop_min" in scope {
        low := scope[s.v + ".loop_min"].min;
      } else {
        i, names := BoundsOfExprInScope(t.o, s.min, scope, names);
        low := i.min;
      }
      if s.v + ".loop_max" in scope {
        high := scope[s.v + ".loop_max"].max;
      } else {
        i, names := BoundsOfExprInScope(t.o, s.extent, scope, names);
        var extent := i.max;
        i, names := BoundsOfExprInScope(t.o, s.min, scope, names);
        if !extent.Fin? || !i.max.Fin? {
          return false;
        }
        high := Fin(Bin(Sub, Bin(Add, extent.e, i.max.e), One(Int)));
      }
      var outer := scope;
      scope := scope[s.v := Interval(low, high)];
      ok := Accept(s.body);
      scope := outer;
    }

    /** Lets on top of each other are entered in a loop and left in reverse. */
    method VisitLets(s: BT.Stmt) returns (ok: bool)
      requires s.LetStmt?
      modifies this
      ensures ok <==> BT.BoxesOf(t, s, old(scope), old(lets), old(boxes), old(names)).Some?
      ensures ok ==>
        && scope == old(scope) && lets == old(lets)
        && BT.BoxesOf(t, s, old(scope), old(lets), old(boxes), old(names)) == Some((boxes, names))
      decreases s, 0, 0
    {
      var outer, outerLets, op := scope, lets, s;
      var frames: seq<Frame> := [];
      ghost var all := BT.BoxesOf(t, s, scope, lets, boxes, names);
      while op.LetStmt?
        invariant op == s || op < s
        invariant op == s ==> op.LetStmt?
        invariant boxes == old(boxes)
        invariant all == LeftAll(t, frames, BT.BoxesOf(t, op, scope, lets, boxes, names))
        decreases op
      {
        var frame := EnterLet(op);
        LeftLast(t, frames, frame, BT.BoxesOf(t, op.body, scope, lets, boxes, names));
        frames := frames + [frame];
        op := op.body;
      }
      ok := Accept(op);
      if !ok {
        return;
      }
      while frames != []
        invariant all == Some((LeaveAll(t, frames, boxes), names))
        decreases |frames|
      {
        boxes := Leave(t, frames[|frames| - 1], boxes);
        frames := frames[..|frames| - 1];
      }
      scope, lets := outer, outerLets;
    }

    /** Pushes the bounds of a let's value, under new names if they are large. */
    method EnterLet(s: BT.Stmt) returns (frame: Frame)
      requires s.LetStmt?
      modifies this
      ensures boxes == old(boxes)
      ensures BT.BoxesOf(t, s, old(scope), old(lets), old(boxes), old(names))
              == Left(t, frame, BT.BoxesOf(t, s.body, scope, lets, boxes, names))
    {
      var value;
      value, names := BoundsOfExprInScope(t.o, s.value, scope, names);
      var fixed := SameBound(t.o, value.min, value.max);
      var i := BT.Simplified(t, value);
      lets := lets + [(s.v, s.value)];
      if BT.IsSmall(i.min) && (fixed || BT.IsSmall(i.max)) {
        scope := scope[s.v := i];
        frame := Shown;
      } else {
        scope := scope[s.v := BT.NamedFor(t, s.value, names)];
        frame := Renamed(names, BT.AsExpr(i.min), BT.AsExpr(i.max));
        names := names + 2;
      }
    }

    method VisitIfThenElse(s: BT.Stmt) returns (ok: bool)
      requires s.IfThenElse?
      modifies this
      ensures ok <==> BT.BoxesOf(t, s, old(scope), old(lets), old(boxes), old(names)).Some?
      ensures ok ==>
        && scope == old(scope) && lets == old(lets)
        && BT.BoxesOf(t, s, old(scope), old(lets), old(boxes), old(names)) == Some((boxes, names))
      decreases s, 0, 1
    {
      if BT.UsesScope(s.cond, scope) {
        if s.elseCase.NoOp? {
          var pushes := RestrictedVars(s.cond);
          ok := VisitTrimmed(s.thenCase, pushes);
        } else {
          ok := Accept(s.thenCase);
          if ok {
            ok := Accept(s.elseCase);
          }
        }
      } else {
        var orig := boxes;
        boxes := map[];
        ok := Accept(s.thenCase);
        if !ok {
          return;
        }
        var thenBoxes := boxes;
        boxes := map[];
        ok := Accept(s.elseCase);
        if !ok {
          return;
        }
        var elseBoxes := boxes;
        boxes := orig;
        MergeForked(thenBoxes, elseBoxes, s.cond);
      }
    }

    /** Solves the condition for each variable in scope; nothing is pushed yet. */
    method RestrictedVars(cond: Expr) returns (pushes: seq<BT.Push>)
      modifies this
      ensures scope == old(scope) && lets == old(lets) && boxes == old(boxes)
      ensures (pushes, names) == BT.Restrictions(t, cond, BT.Occurrences(cond), scope, lets, old(names))
      ensures forall p | p in pushes :: p.Dependent? ==> p.k < |lets|
    {
      var vars := BT.Occurrences(cond);
      pushes := [];
      assert vars[0..] == vars;
      PrefixedNone(BT.Restrictions(t, cond, vars, scope, lets, names));
      for i := 0 to |vars|
        invariant scope == old(scope) && lets == old(lets) && boxes == old(boxes)
        invariant BT.Restrictions(t, cond, vars, scope, lets, old(names))
                  == Prefixed(pushes, BT.Restrictions(t, cond, vars[i..], scope, lets, names))
      {
        assert vars[i..][1..] == vars[i + 1..];
        var v := vars[i];
        if v in scope && t.solve(cond, v).Some? && BT.Understood(t.solve(cond, v).value) {
          var solved := t.solve(cond, v).value;
          var rhs;
          rhs, names := BoundsOfExprInScope(t.o, solved.b, scope, names);
          var more := [BT.Given(v, BT.Restrict(solved.op, scope[v], rhs))] + BT.Dependents(lets, v, 0);
          PrefixedMore(pushes, more, BT.Restrictions(t, cond, vars[i + 1..], scope, lets, names));
          pushes := pushes + more;
        }
      }
      assert vars[|vars|..] == [] && pushes + [] == pushes;
    }

    /** trim_scope_push, the branch, trim_scope_pop. */
    method VisitTrimmed(s: BT.Stmt, pushes: seq<BT.Push>) returns (ok: bool)
      requires forall p | p in pushes :: p.Dependent? ==> p.k < |lets|
      modifies this
      ensures ok <==> BT.Trimmed(t, s, pushes, old(scope), old(lets), old(boxes), old(names)).Some?
      ensures ok ==>
        && scope == old(scope) && lets == old(lets)
        && BT.Trimmed(t, s, pushes, old(scope), old(lets), old(boxes), old(names)) == Some((boxes, names))
      decreases s, 2, |pushes|
    {
      hide BT.LeaveTrimmed, BT.BoxesOf, BT.NamedFor;
      if pushes == [] {
        ok := Accept(s);
        return;
      }
      var outer := scope;
      assert pushes[0] in pushes;
      match pushes[0]
      case Given(v, i) =>
        scope := scope[v := i];
        ok := VisitTrimmed(s, pushes[1..]);
        scope := outer;
      case Dependent(k) =>
        var n := names;
        var (u, x) := lets[k];
        scope := scope[u := BT.NamedFor(t, x, n)];
        names := names + 2;
        ok := VisitTrimmed(s, pushes[1..]);
        if !ok {
          return;
        }
        scope := outer;
        ok := BindTrimmed(u, x, n);
    }

    /** The names of a dependent let are bound when its scope is popped. */
    method BindTrimmed(u: string, x: Expr, n: nat) returns (ok: bool)
      modifies this
      ensures scope == old(scope) && lets == old(lets)
      ensures ok <==> BT.LeaveTrimmed(t, u, x, old(scope), old(boxes), n, old(names)).Some?
      ensures ok ==> BT.LeaveTrimmed(t, u, x, old(scope), old(boxes), n, old(names)) == Some((boxes, names))
    {
      var value;
      value, names := BoundsOfExprInScope(t.o, x, scope, names);
      var i, known := BT.Simplified(t, value), BT.Known(scope, u);
      var mentioned := BT.Mentions(boxes, t.o.newName(n)) || BT.Mentions(boxes, t.o.newName(n + 1));
      if mentioned && !BT.Matching(i, known) {
        return false;
      }
      boxes := BT.NameNew(t, boxes, n, BT.TrimmedLow(t, i, known), BT.TrimmedHigh(t, i, known));
      ok := true;
    }

    /** Merges the boxes of both branches into those there were, function by function. */
    method MergeForked(thenBoxes: BT.Map, elseBoxes: BT.Map, cond: Expr)
      modifies this`boxes
      ensures boxes == BT.MergeBranches(t, old(boxes), thenBoxes, elseBoxes, cond)
    {
      var orig, rest := boxes, thenBoxes.Keys + elseBoxes.Keys;
      while rest != {}
        invariant ForkedBut(t, orig, thenBoxes, elseBoxes, cond, boxes, rest)
        decreases |rest|
      {
        var f :| f in rest;
        ForkedOneMore(t, orig, thenBoxes, elseBoxes, cond, boxes, rest, f);
        boxes := boxes[f := Forked(t, boxes, thenBoxes, elseBoxes, cond, f)];
        rest := rest - {f};
      }
      ForkedAreBranches(t, orig, thenBoxes, elseBoxes, cond, boxes);
    }
  }

  function Forked(t: Tools, boxes: BT.Map, thenBoxes: BT.Map, elseBoxes: BT.Map, cond: Expr, f: string): Box {
    BT.MergeOr(t, BT.At(boxes, f),
        BT.MergeOr(t, BT.Under(BT.At(thenBoxes, f), cond), BT.Under(BT.At(elseBoxes, f), Not(cond))))
  }

  /** All boxes are merged except those of `rest`. */
  ghost predicate ForkedBut(t: Tools, boxes: BT.Map, thenBoxes: BT.Map, elseBoxes: BT.Map, cond: Expr, merged: BT.Map,
                            rest: set<string>) {
    && rest <= thenBoxes.Keys + elseBoxes.Keys
    && merged.Keys == boxes.Keys + (thenBoxes.Keys + elseBoxes.Keys - rest)
    && forall f | f in merged ::
         merged[f] == if f in thenBoxes.Keys + elseBoxes.Keys - rest then
             Forked(t, boxes, thenBoxes, elseBoxes, cond, f) else boxes[f]
  }

  lemma ForkedOneMore(t: Tools, boxes: BT.Map, thenBoxes: BT.Map, elseBoxes: BT.Map, cond: Expr, merged: BT.Map,
                      rest: set<string>, f: string)
    requires ForkedBut(t, boxes, thenBoxes, elseBoxes, cond, merged, rest) && f in rest
    ensures ForkedBut(t, boxes, thenBoxes, elseBoxes, cond,
            merged[f := Forked(t, merged, thenBoxes, elseBoxes, cond, f)], rest - {f})
  {
    assert BT.At(merged, f) == BT.At(boxes, f);
    hide BT.MergeOr, BT.Under, BT.At;
  }

  lemma ForkedAreBranches(t: Tools, boxes: BT.Map, thenBoxes: BT.Map, elseBoxes: BT.Map, cond: Expr, merged: BT.Map)
    requires ForkedBut(t, boxes, thenBoxes, elseBoxes, cond, merged, {})
    ensures merged == BT.MergeBranches(t, boxes, thenBoxes, elseBoxes, cond)
  {
    hide BT.MergeOr, BT.Under;
  }
}
