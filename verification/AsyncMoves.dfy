/** What moving acquires outwards and forks inwards achieves, and what it leaves alone (AsyncProducers.cpp): acquires
    end up outside blocks, realizations and produce/consume nodes, forks inside the lets and realizations of their
    children, and every store stays where it was. */
module AsyncMoves {
  import opened StmtIR
  import opened AsyncExpand
  import opened AsyncPlaces

  // ----- acquires -----

  /** Blocks nest to the right, as Block::make sees to. */
  predicate Canonical(s: Stmt) {
    match s
    case NoOp => true
    case Provide(_, _, _) => true
    case Block(a, b) => !a.Block? && Canonical(a) && Canonical(b)
    case For(_, _, _, b) => Canonical(b)
    case LetStmt(_, _, b) => Canonical(b)
    case IfThenElse(_, t, e) => Canonical(t) && Canonical(e)
    case ProducerConsumer(_, _, b) => Canonical(b)
    case Realize(_, b) => Canonical(b)
    case Acquire(_, _, b) => Canonical(b)
    case Release(_, _) => true
    case Fork(a, b) => Canonical(a) && Canonical(b)
  }

  /** No acquire comes first in a block or is the whole body of a realization or a produce/consume node. One that is the
      body of a let needs the name of the let, unless an acquire was moved out of that let already. */
  predicate Broad(s: Stmt, moved: bool) {
    match s
    case NoOp => true
    case Provide(_, _, _) => true
    case Block(a, b) => !a.Acquire? && Broad(a, false) && Broad(b, false)
    case For(_, _, _, b) => Broad(b, false)
    case LetStmt(v, _, b) =>
      Broad(b, moved) && (b.Acquire? ==> moved || SemaName(b.sema) == v || ExprUses(b.count, v))
    case IfThenElse(_, t, e) => Broad(t, false) && Broad(e, false)
    case ProducerConsumer(_, _, b) => !b.Acquire? && Broad(b, false)
    case Realize(_, b) => !b.Acquire? && Broad(b, false)
    case Acquire(_, _, b) => Broad(b, true)
    case Release(_, _) => true
    case Fork(a, b) => Broad(a, false) && Broad(b, false)
  }

  lemma {:induction false} BroadMoved(s: Stmt)
    requires Broad(s, false)
    ensures Broad(s, true)
  {
    if s.LetStmt? {
      BroadMoved(s.body);
    }
  }

  lemma {:induction false} CanonicalMakeBlock(a: Stmt, b: Stmt)
    requires Canonical(a) && Canonical(b)
    ensures Canonical(MakeBlock(a, b))
  {
    match a
    case Block(_, y) => CanonicalMakeBlock(y, b);
    case _ =>
  }

  lemma {:induction false} BroadMakeFork(a: Stmt, b: Stmt)
    requires Canonical(a) && Canonical(b) && Broad(a, false) && Broad(b, false)
    ensures Canonical(MakeFork(a, b)) && Broad(MakeFork(a, b), false)
    decreases a
  {
    match a
    case Fork(_, y) => BroadMakeFork(y, b);
    case _ =>
  }

  /** ExpandAcquireNodes moves acquires out as far as it is meant to. */
  lemma {:induction false} ExpandIsBroad(s: Stmt)
    requires Canonical(s)
    ensures Canonical(Expand(s)) && Broad(Expand(s), false)
    ensures Expand(s).Block? ==> s.Block?
    decreases Size(s), 1
  {
    match s
    case NoOp =>
    case Provide(_, _, _) =>
    case Block(_, _) => ExpandBlockIsBroad(s);
    case For(_, _, _, b) => ExpandIsBroad(b);
    case LetStmt(_, _, b) => ExpandIsBroad(b);
    case IfThenElse(_, t, e) => ExpandIsBroad(t); ExpandIsBroad(e);
    case ProducerConsumer(f, p, b) =>
      ExpandIsBroad(b);
      if Expand(b).Acquire? {
        ExpandIsBroad(ProducerConsumer(f, p, Expand(b).body));
        BroadMoved(Expand(ProducerConsumer(f, p, Expand(b).body)));
      }
    case Realize(f, b) =>
      ExpandIsBroad(b);
      if Expand(b).Acquire? {
        ExpandIsBroad(Realize(f, Expand(b).body));
        BroadMoved(Expand(Realize(f, Expand(b).body)));
      }
    case Acquire(_, _, b) =>
      ExpandIsBroad(b);
      BroadMoved(Expand(b));
    case Release(_, _) =>
    case Fork(a, b) =>
      ExpandIsBroad(a);
      ExpandIsBroad(b);
      BroadMakeFork(Expand(a), Expand(b));
  }

  lemma {:induction false} ExpandBlockIsBroad(s: Stmt)
    requires s.Block? && Canonical(s)
    ensures Canonical(Expand(s)) && Broad(Expand(s), false)
    decreases Size(s), 0
  {
    var first := Expand(s.first);
    ExpandIsBroad(s.first);
    ExpandIsBroad(s.rest);
    if first.Acquire? {
      SizeMakeBlock(first.body, s.rest);
      CanonicalMakeBlock(first.body, s.rest);
      ExpandIsBroad(MakeBlock(first.body, s.rest));
      BroadMoved(Expand(MakeBlock(first.body, s.rest)));
    }
  }

  lemma {:induction false} PlacesMakeFork(a: Stmt, b: Stmt, path: seq<Frame>)
    ensures Places(MakeFork(a, b), path) == Places(a, path) + Places(b, path)
    decreases a
  {
    match a
    case Fork(x, y) =>
      PlacesMakeFork(y, b, path);
      SeqAssoc(Places(x, path), Places(y, path), Places(b, path));
    case _ =>
  }

  /** ExpandAcquireNodes moves nothing but acquires: every store keeps what is around it. */
  lemma {:induction false} ExpandKeepsPlaces(s: Stmt, path: seq<Frame>)
    ensures Places(Expand(s), path) == Places(s, path)
    decreases Size(s)
  {
    match s
    case NoOp =>
    case Provide(_, _, _) =>
    case Block(a, b) =>
      var first := Expand(a);
      ExpandKeepsPlaces(a, path);
      if first.Acquire? {
        SizeMakeBlock(first.body, b);
        PlacesMakeBlock(first.body, b, path);
        ExpandKeepsPlaces(MakeBlock(first.body, b), path);
      } else {
        ExpandKeepsPlaces(b, path);
        PlacesMakeBlock(first, Expand(b), path);
      }
    case For(v, lo, n, b) => ExpandKeepsPlaces(b, path + [Loop(v, lo, n)]);
    case LetStmt(v, e, b) => ExpandKeepsPlaces(b, path + [Bound(v, e)]);
    case IfThenElse(c, t, e) =>
      ExpandKeepsPlaces(t, path + [Guarded(c, true)]);
      ExpandKeepsPlaces(e, path + [Guarded(c, false)]);
    case ProducerConsumer(f, p, b) =>
      ExpandKeepsPlaces(b, path + [Within(f, p)]);
      if Expand(b).Acquire? {
        ExpandKeepsPlaces(ProducerConsumer(f, p, Expand(b).body), path);
      }
    case Realize(f, b) =>
      ExpandKeepsPlaces(b, path + [Storage(f)]);
      if Expand(b).Acquire? {
        ExpandKeepsPlaces(Realize(f, Expand(b).body), path);
      }
    case Acquire(_, _, b) => ExpandKeepsPlaces(b, path);
    case Release(_, _) =>
    case Fork(a, b) =>
      ExpandKeepsPlaces(a, path);
      ExpandKeepsPlaces(b, path);
      PlacesMakeFork(Expand(a), Expand(b), path);
  }

  // ----- forks -----

  predicate SomeUses(near: seq<Stmt>, v: string) {
    exists i :: 0 <= i < |near| && StmtUses(near[i], v)
  }

  /** The name of a let or realization that is a child of a fork is used by one of the other children. */
  predicate Snug(s: Stmt, near: seq<Stmt>) {
    match s
    case Fork(a, b) => Snug(a, near + [b]) && Snug(b, near + [a])
    case LetStmt(v, _, _) => SomeUses(near, v)
    case Realize(f, _) => SomeUses(near, f)
    case _ => true
  }

  /** Every fork is inside all lets and realizations that it can be inside of. */
  predicate Narrow(s: Stmt)
    decreases s, 0
  {
    match s
    case NoOp => true
    case Provide(_, _, _) => true
    case Block(a, b) => Narrow(a) && Narrow(b)
    case For(_, _, _, b) => Narrow(b)
    case LetStmt(_, _, b) => Narrow(b)
    case IfThenElse(_, t, e) => Narrow(t) && Narrow(e)
    case ProducerConsumer(_, _, b) => Narrow(b)
    case Realize(_, b) => Narrow(b)
    case Acquire(_, _, b) => Narrow(b)
    case Release(_, _) => true
    case Fork(a, b) => Snug(s, []) && !IsNoOp(a) && !IsNoOp(b) && NarrowChild(a) && NarrowChild(b)
  }

  /** The children of a fork that is part of a larger one. */
  predicate NarrowChild(s: Stmt)
    decreases s, 1
  {
    if s.Fork? then !IsNoOp(s.first) && !IsNoOp(s.rest) && NarrowChild(s.first) && NarrowChild(s.rest) else Narrow(s)
  }

  ghost predicate UseAll(near: seq<Stmt>, more: seq<Stmt>) {
    forall v | SomeUses(near, v) :: SomeUses(more, v)
  }

  lemma UsesAppend(near: seq<Stmt>, s: Stmt, v: string)
    ensures SomeUses(near + [s], v) <==> SomeUses(near, v) || StmtUses(s, v)
  {
    if SomeUses(near, v) {
      var i :| 0 <= i < |near| && StmtUses(near[i], v);
      assert (near + [s])[i] == near[i];
    }
    assert (near + [s])[|near|] == s;
  }

  lemma {:induction false} SnugMore(s: Stmt, near: seq<Stmt>, more: seq<Stmt>)
    requires Snug(s, near) && UseAll(near, more)
    ensures Snug(s, more)
  {
    if s.Fork? {
      forall v ensures SomeUses(near + [s.rest], v) ==> SomeUses(more + [s.rest], v) {
        UsesAppend(near, s.rest, v);
        UsesAppend(more, s.rest, v);
      }
      forall v ensures SomeUses(near + [s.first], v) ==> SomeUses(more + [s.first], v) {
        UsesAppend(near, s.first, v);
        UsesAppend(more, s.first, v);
      }
      SnugMore(s.first, near + [s.rest], more + [s.rest]);
      SnugMore(s.rest, near + [s.first], more + [s.first]);
    }
  }

  lemma {:induction false} UsesMakeFork(a: Stmt, b: Stmt, v: string)
    ensures StmtUses(MakeFork(a, b), v) <==> StmtUses(a, v) || StmtUses(b, v)
    decreases a
  {
    match a
    case Fork(_, y) => UsesMakeFork(y, b, v);
    case _ =>
  }

  lemma {:induction false} SnugMakeFork(a: Stmt, b: Stmt, near: seq<Stmt>)
    requires Snug(a, near + [b]) && Snug(b, near + [a])
    ensures Snug(MakeFork(a, b), near)
    decreases a
  {
    if a.Fork? {
      var x, y := a.first, a.rest;
      forall v ensures SomeUses(near + [b] + [y], v) <==> SomeUses(near + [MakeFork(y, b)], v) {
        UsesAppend(near + [b], y, v);
        UsesAppend(near, b, v);
        UsesAppend(near, MakeFork(y, b), v);
        UsesMakeFork(y, b, v);
      }
      SnugMore(x, near + [b] + [y], near + [MakeFork(y, b)]);
      forall v ensures SomeUses(near + [b] + [x], v) <==> SomeUses(near + [x] + [b], v) {
        UsesAppend(near + [b], x, v);
        UsesAppend(near, b, v);
        UsesAppend(near + [x], b, v);
        UsesAppend(near, x, v);
      }
      SnugMore(y, near + [b] + [x], near + [x] + [b]);
      forall v ensures SomeUses(near + [a], v) <==> SomeUses(near + [x] + [y], v) {
        UsesAppend(near, a, v);
        UsesAppend(near + [x], y, v);
        UsesAppend(near, x, v);
      }
      SnugMore(b, near + [a], near + [x] + [y]);
      SnugMakeFork(y, b, near + [x]);
    }
  }

  lemma {:induction false} NarrowMakeFork(a: Stmt, b: Stmt)
    requires NarrowChild(a) && NarrowChild(b) && !IsNoOp(a) && !IsNoOp(b)
    ensures MakeFork(a, b).Fork? && NarrowChild(MakeFork(a, b))
    decreases a
  {
    match a
    case Fork(_, y) => NarrowMakeFork(y, b);
    case _ =>
  }

  lemma {:induction false} TightForkIsNarrow(first: Stmt, rest: Stmt)
    requires Narrow(first) && Narrow(rest) && !IsNoOp(first) && !IsNoOp(rest)
    requires Solid(first) && Solid(rest)
    ensures Narrow(TightFork(first, rest)) && !IsNoOp(TightFork(first, rest))
    decreases Size(first) + Size(rest)
  {
    if first.LetStmt? && rest.LetStmt? && first.v == rest.v && first.value == rest.value {
      TightForkIsNarrow(first.body, rest.body);
    } else if first.LetStmt? && !StmtUses(rest, first.v) {
      TightForkIsNarrow(first.body, rest);
    } else if rest.LetStmt? && !StmtUses(first, rest.v) {
      TightForkIsNarrow(first, rest.body);
    } else if first.Realize? && !StmtUses(rest, first.func) {
      TightForkIsNarrow(first.body, rest);
    } else if rest.Realize? && !StmtUses(first, rest.func) {
      TightForkIsNarrow(first, rest.body);
    } else {
      BesideIsSnug(first, rest);
      BesideIsSnug(rest, first);
      SnugMakeFork(first, rest, []);
      NarrowMakeFork(first, rest);
    }
  }

  /** A let or realization holds something. */
  predicate Solid(s: Stmt) {
    match s
    case LetStmt(_, _, b) => !IsNoOp(b) && Solid(b)
    case Realize(_, b) => !IsNoOp(b) && Solid(b)
    case _ => true
  }

  lemma BesideIsSnug(s: Stmt, other: Stmt)
    requires Narrow(s) && !IsNoOp(other)
    requires s.LetStmt? ==> StmtUses(other, s.v)
    requires s.Realize? ==> StmtUses(other, s.func)
    ensures Snug(s, [] + [other])
  {
    assert ([] + [other])[0] == other;
    if s.Fork? {
      SnugMore(s, [], [] + [other]);
    }
  }

  // ----- nothing unused under a fork -----

  /** Under a fork, lets and realizations are used by what they hold. */
  predicate Needed(s: Stmt, inFork: bool) {
    match s
    case NoOp => true
    case Provide(_, _, _) => true
    case Block(a, b) => Needed(a, inFork) && Needed(b, inFork)
    case For(_, _, _, b) => Needed(b, inFork)
    case LetStmt(v, _, b) => (inFork ==> StmtUses(b, v)) && Needed(b, inFork)
    case IfThenElse(_, t, e) => Needed(t, inFork) && Needed(e, inFork)
    case ProducerConsumer(_, _, b) => Needed(b, inFork)
    case Realize(f, b) => (inFork ==> StmtUses(b, f) || StmtUses(b, f + ".buffer")) && Needed(b, inFork)
    case Acquire(_, _, b) => Needed(b, inFork)
    case Release(_, _) => true
    case Fork(a, b) => Needed(a, true) && Needed(b, true)
  }

  lemma {:induction false} NeededSolid(s: Stmt)
    requires Needed(s, true)
    ensures Solid(s)
  {
    match s
    case LetStmt(_, _, b) => NeededSolid(b);
    case Realize(_, b) => NeededSolid(b);
    case _ =>
  }

  lemma {:induction false} NeededOutside(s: Stmt)
    requires Needed(s, true)
    ensures Needed(s, false)
  {
    match s
    case NoOp =>
    case Provide(_, _, _) =>
    case Block(a, b) => NeededOutside(a); NeededOutside(b);
    case For(_, _, _, b) => NeededOutside(b);
    case LetStmt(_, _, b) => NeededOutside(b);
    case IfThenElse(_, t, e) => NeededOutside(t); NeededOutside(e);
    case ProducerConsumer(_, _, b) => NeededOutside(b);
    case Realize(_, b) => NeededOutside(b);
    case Acquire(_, _, b) => NeededOutside(b);
    case Release(_, _) =>
    case Fork(_, _) =>
  }

  lemma {:induction false} MakeBlockMoves(a: Stmt, b: Stmt, inFork: bool)
    ensures Needed(MakeBlock(a, b), inFork) <==> Needed(a, inFork) && Needed(b, inFork)
    ensures Narrow(MakeBlock(a, b)) <==> Narrow(a) && Narrow(b)
    decreases a
  {
    match a
    case Block(_, y) => MakeBlockMoves(y, b, inFork);
    case _ =>
  }

  lemma {:induction false} NeededMakeFork(a: Stmt, b: Stmt)
    requires Needed(a, true) && Needed(b, true)
    ensures Needed(MakeFork(a, b), true)
    decreases a
  {
    match a
    case Fork(_, y) => NeededMakeFork(y, b);
    case _ =>
  }

  lemma {:induction false} UsesTightFork(first: Stmt, rest: Stmt, v: string)
    ensures StmtUses(TightFork(first, rest), v) <==> StmtUses(first, v) || StmtUses(rest, v)
    decreases Size(first) + Size(rest)
  {
    if first.LetStmt? && rest.LetStmt? && first.v == rest.v && first.value == rest.value {
      UsesTightFork(first.body, rest.body, v);
    } else if first.LetStmt? && !StmtUses(rest, first.v) {
      UsesTightFork(first.body, rest, v);
    } else if rest.LetStmt? && !StmtUses(first, rest.v) {
      UsesTightFork(first, rest.body, v);
    } else if first.Realize? && !StmtUses(rest, first.func) {
      UsesTightFork(first.body, rest, v);
    } else if rest.Realize? && !StmtUses(first, rest.func) {
      UsesTightFork(first, rest.body, v);
    } else {
      UsesMakeFork(first, rest, v);
    }
  }

  lemma {:induction false} NeededTightFork(first: Stmt, rest: Stmt)
    requires Needed(first, true) && Needed(rest, true)
    ensures Needed(TightFork(first, rest), true)
    decreases Size(first) + Size(rest)
  {
    if first.LetStmt? && rest.LetStmt? && first.v == rest.v && first.value == rest.value {
      NeededTightFork(first.body, rest.body);
      UsesTightFork(first.body, rest.body, first.v);
    } else if first.LetStmt? && !StmtUses(rest, first.v) {
      NeededTightFork(first.body, rest);
      UsesTightFork(first.body, rest, first.v);
    } else if rest.LetStmt? && !StmtUses(first, rest.v) {
      NeededTightFork(first, rest.body);
      UsesTightFork(first, rest.body, rest.v);
    } else if first.Realize? && !StmtUses(rest, first.func) {
      NeededTightFork(first.body, rest);
      UsesTightFork(first.body, rest, first.func);
      UsesTightFork(first.body, rest, first.func + ".buffer");
    } else if rest.Realize? && !StmtUses(first, rest.func) {
      NeededTightFork(first, rest.body);
      UsesTightFork(first, rest.body, rest.func);
      UsesTightFork(first, rest.body, rest.func + ".buffer");
    } else {
      NeededMakeFork(first, rest);
    }
  }

  /** TightenForkNodes moves every fork in as far as it can, and leaves nothing unused under one. */
  lemma {:induction false} TightenIsNarrow(s: Stmt, inFork: bool)
    ensures Narrow(Tighten(s, inFork)) && Needed(Tighten(s, inFork), inFork)
  {
    match s
    case NoOp =>
    case Provide(_, _, _) =>
    case Block(a, b) =>
      TightenIsNarrow(a, inFork);
      TightenIsNarrow(b, inFork);
      MakeBlockMoves(Tighten(a, inFork), Tighten(b, inFork), inFork);
    case For(_, _, _, b) => TightenIsNarrow(b, inFork);
    case LetStmt(_, _, b) => TightenIsNarrow(b, inFork);
    case IfThenElse(_, t, e) => TightenIsNarrow(t, inFork); TightenIsNarrow(e, inFork);
    case ProducerConsumer(_, _, b) => TightenIsNarrow(b, inFork);
    case Realize(_, b) => TightenIsNarrow(b, inFork);
    case Acquire(_, _, b) => TightenIsNarrow(b, inFork);
    case Release(_, _) =>
    case Fork(a, b) =>
      var first, rest := Tighten(a, true), Tighten(b, true);
      TightenIsNarrow(a, true);
      TightenIsNarrow(b, true);
      NeededSolid(first);
      NeededSolid(rest);
      if !IsNoOp(first) && !IsNoOp(rest) {
        TightForkIsNarrow(first, rest);
        NeededTightFork(first, rest);
      }
      NeededOutside(Tighten(s, true));
  }

  // ----- storage under moved forks -----

  lemma {:induction false} StoredMore(s: Stmt, tracked: set<string>, open: set<string>, more: set<string>)
    requires Stored(s, tracked, open) && open <= more
    ensures Stored(s, tracked, more)
  {
    match s
    case NoOp =>
    case Provide(_, _, _) =>
    case Block(a, b) => StoredMore(a, tracked, open, more); StoredMore(b, tracked, open, more);
    case For(_, _, _, b) => StoredMore(b, tracked, open, more);
    case LetStmt(_, _, b) => StoredMore(b, tracked, open, more);
    case IfThenElse(_, t, e) => StoredMore(t, tracked, open, more); StoredMore(e, tracked, open, more);
    case ProducerConsumer(_, _, b) => StoredMore(b, tracked, open, more);
    case Realize(f, b) => StoredMore(b, tracked, open + {f}, more + {f});
    case Acquire(_, _, b) => StoredMore(b, tracked, open, more);
    case Release(_, _) =>
    case Fork(a, b) => StoredMore(a, tracked, open, more); StoredMore(b, tracked, open, more);
  }

  lemma {:induction false} UnusedNotLoaded(e: Expr, f: string)
    requires !ExprUses(e, f)
    ensures f !in Loads(e)
  {
    match e
    case Const(_) =>
    case Var(_) =>
    case Bin(_, a, b) => UnusedNotLoaded(a, f); UnusedNotLoaded(b, f);
    case Select(c, t, x) => UnusedNotLoaded(c, f); UnusedNotLoaded(t, f); UnusedNotLoaded(x, f);
    case Load(_, i) => UnusedNotLoaded(i, f);
  }

  lemma {:induction false} StoredUnused(s: Stmt, tracked: set<string>, open: set<string>, f: string)
    requires Stored(s, tracked, open + {f}) && !StmtUses(s, f)
    ensures Stored(s, tracked, open)
  {
    match s
    case NoOp =>
    case Provide(_, i, v) => UnusedNotLoaded(i, f); UnusedNotLoaded(v, f);
    case Block(a, b) => StoredUnused(a, tracked, open, f); StoredUnused(b, tracked, open, f);
    case For(_, lo, n, b) => UnusedNotLoaded(lo, f); UnusedNotLoaded(n, f); StoredUnused(b, tracked, open, f);
    case LetStmt(_, e, b) => UnusedNotLoaded(e, f); StoredUnused(b, tracked, open, f);
    case IfThenElse(c, t, e) =>
      UnusedNotLoaded(c, f);
      StoredUnused(t, tracked, open, f);
      StoredUnused(e, tracked, open, f);
    case ProducerConsumer(_, _, b) => StoredUnused(b, tracked, open, f);
    case Realize(g, b) =>
      assert open + {f} + {g} == open + {g} + {f};
      StoredUnused(b, tracked, open + {g}, f);
    case Acquire(_, n, b) => UnusedNotLoaded(n, f); StoredUnused(b, tracked, open, f);
    case Release(_, n) => UnusedNotLoaded(n, f);
    case Fork(a, b) => StoredUnused(a, tracked, open, f); StoredUnused(b, tracked, open, f);
  }

  lemma {:induction false} StoredMakeFork(a: Stmt, b: Stmt, tracked: set<string>, open: set<string>)
    requires Stored(a, tracked, open) && Stored(b, tracked, open)
    ensures Stored(MakeFork(a, b), tracked, open)
    decreases a
  {
    match a
    case Fork(_, y) => StoredMakeFork(y, b, tracked, open);
    case _ =>
  }

  lemma {:induction false} StoredTightFork(first: Stmt, rest: Stmt, tracked: set<string>, open: set<string>)
    requires Stored(first, tracked, open) && Stored(rest, tracked, open)
    ensures Stored(TightFork(first, rest), tracked, open)
    decreases Size(first) + Size(rest)
  {
    if first.LetStmt? && rest.LetStmt? && first.v == rest.v && first.value == rest.value {
      StoredTightFork(first.body, rest.body, tracked, open);
    } else if first.LetStmt? && !StmtUses(rest, first.v) {
      StoredTightFork(first.body, rest, tracked, open);
    } else if rest.LetStmt? && !StmtUses(first, rest.v) {
      StoredTightFork(first, rest.body, tracked, open);
    } else if first.Realize? && !StmtUses(rest, first.func) {
      StoredMore(rest, tracked, open, open + {first.func});
      StoredTightFork(first.body, rest, tracked, open + {first.func});
    } else if rest.Realize? && !StmtUses(first, rest.func) {
      StoredMore(first, tracked, open, open + {rest.func});
      StoredTightFork(first, rest.body, tracked, open + {rest.func});
    } else {
      StoredMakeFork(first, rest, tracked, open);
    }
  }

  /** TightenForkNodes leaves every store and load of a realized function inside a realization of it. */
  lemma {:induction false} TightenKeepsStorage(s: Stmt, inFork: bool, tracked: set<string>, open: set<string>)
    requires Stored(s, tracked, open)
    ensures Stored(Tighten(s, inFork), tracked, open)
  {
    match s
    case NoOp =>
    case Provide(_, _, _) =>
    case Block(a, b) =>
      TightenKeepsStorage(a, inFork, tracked, open);
      TightenKeepsStorage(b, inFork, tracked, open);
      StoredMakeBlock(Tighten(a, inFork), Tighten(b, inFork), tracked, open);
    case For(_, _, _, b) => TightenKeepsStorage(b, inFork, tracked, open);
    case LetStmt(_, _, b) => TightenKeepsStorage(b, inFork, tracked, open);
    case IfThenElse(_, t, e) =>
      TightenKeepsStorage(t, inFork, tracked, open);
      TightenKeepsStorage(e, inFork, tracked, open);
    case ProducerConsumer(_, _, b) => TightenKeepsStorage(b, inFork, tracked, open);
    case Realize(f, b) =>
      TightenKeepsStorage(b, inFork, tracked, open + {f});
      if !StmtUses(Tighten(b, inFork), f) {
        StoredUnused(Tighten(b, inFork), tracked, open, f);
      }
    case Acquire(_, _, b) => TightenKeepsStorage(b, inFork, tracked, open);
    case Release(_, _) =>
    case Fork(a, b) =>
      TightenKeepsStorage(a, true, tracked, open);
      TightenKeepsStorage(b, true, tracked, open);
      StoredTightFork(Tighten(a, true), Tighten(b, true), tracked, open);
  }

  // ----- stores under moved forks -----

  /** The places of a statement with lets and realizations left out of the paths. */
  function Spots(s: Stmt, path: seq<Frame>): seq<Place> {
    match s
    case NoOp => []
    case Provide(f, i, v) => [Place(path, Stores(f, i, v))]
    case Block(a, b) => Spots(a, path) + Spots(b, path)
    case For(v, lo, n, b) => Spots(b, path + [Loop(v, lo, n)])
    case LetStmt(_, _, b) => Spots(b, path)
    case IfThenElse(c, t, e) => Spots(t, path + [Guarded(c, true)]) + Spots(e, path + [Guarded(c, false)])
    case ProducerConsumer(f, p, b) => [Place(path, Enters(f, p))] + Spots(b, path + [Within(f, p)])
    case Realize(_, b) => Spots(b, path)
    case Acquire(_, _, b) => Spots(b, path)
    case Release(_, _) => []
    case Fork(a, b) => Spots(a, path) + Spots(b, path)
  }

  lemma {:induction false} SpotsMakeBlock(a: Stmt, b: Stmt, path: seq<Frame>)
    ensures Spots(MakeBlock(a, b), path) == Spots(a, path) + Spots(b, path)
  {
    match a
    case Block(x, y) =>
      SpotsMakeBlock(y, b, path);
      SeqAssoc(Spots(x, path), Spots(y, path), Spots(b, path));
    case _ =>
  }

  lemma {:induction false} SpotsTightFork(first: Stmt, rest: Stmt, path: seq<Frame>)
    ensures Spots(TightFork(first, rest), path) == Spots(first, path) + Spots(rest, path)
    decreases Size(first) + Size(rest)
  {
    if first.LetStmt? && rest.LetStmt? && first.v == rest.v && first.value == rest.value {
      SpotsTightFork(first.body, rest.body, path);
    } else if first.LetStmt? && !StmtUses(rest, first.v) {
      SpotsTightFork(first.body, rest, path);
    } else if rest.LetStmt? && !StmtUses(first, rest.v) {
      SpotsTightFork(first, rest.body, path);
    } else if first.Realize? && !StmtUses(rest, first.func) {
      SpotsTightFork(first.body, rest, path);
    } else if rest.Realize? && !StmtUses(first, rest.func) {
      SpotsTightFork(first, rest.body, path);
    } else {
      SpotsMakeFork(first, rest, path);
    }
  }

  lemma {:induction false} SpotsMakeFork(a: Stmt, b: Stmt, path: seq<Frame>)
    ensures Spots(MakeFork(a, b), path) == Spots(a, path) + Spots(b, path)
    decreases a
  {
    match a
    case Fork(x, y) =>
      SpotsMakeFork(y, b, path);
      SeqAssoc(Spots(x, path), Spots(y, path), Spots(b, path));
    case _ =>
  }

  /** TightenForkNodes moves nothing but lets and realizations, whatever the lets read. */
  lemma {:induction false} TightenKeepsSpots(s: Stmt, inFork: bool, path: seq<Frame>)
    ensures Spots(Tighten(s, inFork), path) == Spots(s, path)
  {
    match s
    case NoOp =>
    case Provide(_, _, _) =>
    case Block(a, b) =>
      TightenKeepsSpots(a, inFork, path);
      TightenKeepsSpots(b, inFork, path);
      SpotsMakeBlock(Tighten(a, inFork), Tighten(b, inFork), path);
    case For(v, lo, n, b) => TightenKeepsSpots(b, inFork, path + [Loop(v, lo, n)]);
    case LetStmt(_, _, b) => TightenKeepsSpots(b, inFork, path);
    case IfThenElse(c, t, e) =>
      TightenKeepsSpots(t, inFork, path + [Guarded(c, true)]);
      TightenKeepsSpots(e, inFork, path + [Guarded(c, false)]);
    case ProducerConsumer(f, p, b) => TightenKeepsSpots(b, inFork, path + [Within(f, p)]);
    case Realize(_, b) => TightenKeepsSpots(b, inFork, path);
    case Acquire(_, _, b) => TightenKeepsSpots(b, inFork, path);
    case Release(_, _) =>
    case Fork(a, b) =>
      TightenKeepsSpots(a, true, path);
      TightenKeepsSpots(b, true, path);
      SpotsTightFork(Tighten(a, true), Tighten(b, true), path);
  }
}
