/** Where the work of a body ends up in the two copies (AsyncProducers.cpp): every store keeps the loops, lets,
    conditions, realizations and produce/consume nodes it was in, in the order of the body, and nothing hollow is
    left around. Runs say nothing of realizations, so this is stated on the statements. */
module AsyncPlaces {
  import opened StmtIR
  import opened AsyncFork

  // ----- places -----

  /** One statement around another. */
  datatype Frame =
    | Loop(v: string, lo: Expr, n: Expr)
    | Bound(v: string, value: Expr)
    | Guarded(cond: Expr, holds: bool)
    | Within(func: string, isProducer: bool)
    | Storage(func: string)

  /** A store or the entry of a produce/consume node, with all that is around it, outermost first. */
  datatype Work = Stores(func: string, index: Expr, value: Expr) | Enters(func: string, isProducer: bool)

  datatype Place = Place(path: seq<Frame>, work: Work)

  /** The places of a statement in order; semaphores are no part of it. */
  function Places(s: Stmt, path: seq<Frame>): seq<Place> {
    match s
    case NoOp => []
    case Provide(f, i, v) => [Place(path, Stores(f, i, v))]
    case Block(a, b) => Places(a, path) + Places(b, path)
    case For(v, lo, n, b) => Places(b, path + [Loop(v, lo, n)])
    case LetStmt(v, e, b) => Places(b, path + [Bound(v, e)])
    case IfThenElse(c, t, e) => Places(t, path + [Guarded(c, true)]) + Places(e, path + [Guarded(c, false)])
    case ProducerConsumer(f, p, b) => [Place(path, Enters(f, p))] + Places(b, path + [Within(f, p)])
    case Realize(f, b) => Places(b, path + [Storage(f)])
    case Acquire(_, _, b) => Places(b, path)
    case Release(_, _) => []
    case Fork(a, b) => Places(a, path) + Places(b, path)
  }

  /** The nodes around a place, the one it enters included. */
  function Trail(p: Place): seq<Frame> {
    if p.work.Enters? then p.path + [Within(p.work.func, p.work.isProducer)] else p.path
  }

  /** The outermost node of the function on a trail is its produce node. */
  predicate ProducedFirst(trail: seq<Frame>, func: string) {
    trail != [] &&
    if trail[0].Within? && trail[0].func == func then trail[0].isProducer else ProducedFirst(trail[1..], func)
  }

  /** What the consumer copy is to keep: everything that is not production of the function. */
  function Consumed(ps: seq<Place>, func: string): seq<Place> {
    if ps == [] then []
    else (if ProducedFirst(Trail(ps[0]), func) then [] else [ps[0]]) + Consumed(ps[1..], func)
  }

  /** What the producer copy is to keep: the production of the function. */
  function Produced(ps: seq<Place>, func: string): seq<Place> {
    if ps == [] then []
    else (if Within(func, true) in Trail(ps[0]) then [ps[0]] else []) + Produced(ps[1..], func)
  }

  /** A path without the produce nodes of other functions that are around the one of the function. */
  function Bare(path: seq<Frame>, func: string): seq<Frame> {
    if path == [] || path[0] == Within(func, true) then path
    else (if path[0].Within? && path[0].isProducer then [] else [path[0]]) + Bare(path[1..], func)
  }

  function Bared(ps: seq<Place>, func: string): seq<Place> {
    seq(|ps|, i requires 0 <= i < |ps| => Place(Bare(ps[i].path, func), ps[i].work))
  }

  // ----- nothing hollow -----

  /** Something under a statement gives a copy a reason to have it: the produce node of the function for the
      producer, a store or any node for the consumer. */
  predicate Busy(s: Stmt, func: string, producing: bool) {
    match s
    case NoOp => false
    case Provide(_, _, _) => !producing
    case Block(a, b) => Busy(a, func, producing) || Busy(b, func, producing)
    case For(_, _, _, b) => Busy(b, func, producing)
    case LetStmt(_, _, b) => Busy(b, func, producing)
    case IfThenElse(_, t, e) => Busy(t, func, producing) || Busy(e, func, producing)
    case ProducerConsumer(f, p, b) => !producing || (f == func && p) || Busy(b, func, producing)
    case Realize(_, b) => Busy(b, func, producing)
    case Acquire(_, _, b) => Busy(b, func, producing)
    case Release(_, _) => false
    case Fork(a, b) => Busy(a, func, producing) || Busy(b, func, producing)
  }

  /** Outside the nodes of the function that a copy takes over as they are, everything has something under it. */
  predicate Lean(s: Stmt, func: string, producing: bool) {
    match s
    case NoOp => true
    case Provide(_, _, _) => !producing
    case Block(a, b) =>
      Busy(a, func, producing) && Busy(b, func, producing) && Lean(a, func, producing) && Lean(b, func, producing)
    case For(_, _, _, b) => Busy(b, func, producing) && Lean(b, func, producing)
    case LetStmt(_, _, b) => Busy(b, func, producing) && Lean(b, func, producing)
    case IfThenElse(_, t, e) =>
      (Busy(t, func, producing) || Busy(e, func, producing)) && Lean(t, func, producing) && Lean(e, func, producing)
    case ProducerConsumer(f, p, b) =>
      if f == func && p == producing then true
      else (producing ==> !p && Busy(b, func, producing)) && Lean(b, func, producing)
    case Realize(_, b) => Busy(b, func, producing) && Lean(b, func, producing)
    case Acquire(_, _, b) => Lean(b, func, producing)
    case Release(_, _) => false
    case Fork(_, _) => false
  }

  // ----- storage -----

  function Realized(s: Stmt): set<string> {
    match s
    case NoOp => {}
    case Provide(_, _, _) => {}
    case Block(a, b) => Realized(a) + Realized(b)
    case For(_, _, _, b) => Realized(b)
    case LetStmt(_, _, b) => Realized(b)
    case IfThenElse(_, t, e) => Realized(t) + Realized(e)
    case ProducerConsumer(_, _, b) => Realized(b)
    case Realize(f, b) => {f} + Realized(b)
    case Acquire(_, _, b) => Realized(b)
    case Release(_, _) => {}
    case Fork(a, b) => Realized(a) + Realized(b)
  }

  /** Every store and load of a tracked function is under a realization of it, or the function is open already. */
  predicate Stored(s: Stmt, tracked: set<string>, open: set<string>) {
    match s
    case NoOp => true
    case Provide(f, i, v) => ({f} + Loads(i) + Loads(v)) * tracked <= open
    case Block(a, b) => Stored(a, tracked, open) && Stored(b, tracked, open)
    case For(_, lo, n, b) => (Loads(lo) + Loads(n)) * tracked <= open && Stored(b, tracked, open)
    case LetStmt(_, e, b) => Loads(e) * tracked <= open && Stored(b, tracked, open)
    case IfThenElse(c, t, e) => Loads(c) * tracked <= open && Stored(t, tracked, open) && Stored(e, tracked, open)
    case ProducerConsumer(_, _, b) => Stored(b, tracked, open)
    case Realize(f, b) => Stored(b, tracked, open + {f})
    case Acquire(_, n, b) => Loads(n) * tracked <= open && Stored(b, tracked, open)
    case Release(_, n) => Loads(n) * tracked <= open
    case Fork(a, b) => Stored(a, tracked, open) && Stored(b, tracked, open)
  }

  // ----- how places are filtered -----

  lemma {:induction false} ConsumedConcat(ps: seq<Place>, qs: seq<Place>, func: string)
    ensures Consumed(ps + qs, func) == Consumed(ps, func) + Consumed(qs, func)
    decreases |ps|
  {
    if ps == [] {
      assert ps + qs == qs;
    } else {
      assert (ps + qs)[0] == ps[0] && (ps + qs)[1..] == ps[1..] + qs;
      ConsumedConcat(ps[1..], qs, func);
    }
  }

  lemma {:induction false} ProducedConcat(ps: seq<Place>, qs: seq<Place>, func: string)
    ensures Produced(ps + qs, func) == Produced(ps, func) + Produced(qs, func)
    ensures Bared(Produced(ps + qs, func), func) == Bared(Produced(ps, func), func) + Bared(Produced(qs, func), func)
    decreases |ps|
  {
    if ps == [] {
      assert ps + qs == qs;
    } else {
      assert (ps + qs)[0] == ps[0] && (ps + qs)[1..] == ps[1..] + qs;
      ProducedConcat(ps[1..], qs, func);
    }
  }

  lemma {:induction false} ConsumedAll(ps: seq<Place>, func: string, gone: bool)
    requires forall p | p in ps :: ProducedFirst(Trail(p), func) == gone
    ensures Consumed(ps, func) == if gone then [] else ps
    decreases |ps|
  {
    if ps != [] {
      assert ps[0] in ps;
      ConsumedAll(ps[1..], func, gone);
    }
  }

  lemma {:induction false} ProducedAll(ps: seq<Place>, func: string)
    requires forall p | p in ps :: Within(func, true) in Trail(p)
    ensures Produced(ps, func) == ps
    decreases |ps|
  {
    if ps != [] {
      assert ps[0] in ps;
      ProducedAll(ps[1..], func);
    }
  }

  /** The places of a statement extend the path it is at. */
  lemma {:induction false} PlacesExtend(s: Stmt, path: seq<Frame>)
    ensures forall p | p in Places(s, path) :: path <= p.path
  {
    match s
    case NoOp =>
    case Provide(_, _, _) =>
    case Block(a, b) => PlacesExtend(a, path); PlacesExtend(b, path);
    case For(v, lo, n, b) => PlacesExtend(b, path + [Loop(v, lo, n)]);
    case LetStmt(v, e, b) => PlacesExtend(b, path + [Bound(v, e)]);
    case IfThenElse(c, t, e) =>
      PlacesExtend(t, path + [Guarded(c, true)]);
      PlacesExtend(e, path + [Guarded(c, false)]);
    case ProducerConsumer(f, p, b) => PlacesExtend(b, path + [Within(f, p)]);
    case Realize(f, b) => PlacesExtend(b, path + [Storage(f)]);
    case Acquire(_, _, b) => PlacesExtend(b, path);
    case Release(_, _) =>
    case Fork(a, b) => PlacesExtend(a, path); PlacesExtend(b, path);
  }

  predicate Apart(path: seq<Frame>, func: string) {
    forall f | f in path :: !(f.Within? && f.func == func)
  }

  lemma {:induction false} ApartFirst(path: seq<Frame>, more: seq<Frame>, func: string)
    requires Apart(path, func)
    ensures ProducedFirst(path + more, func) == ProducedFirst(more, func)
    decreases |path|
  {
    if path == [] {
      assert path + more == more;
    } else {
      assert path[0] in path;
      assert (path + more)[0] == path[0] && (path + more)[1..] == path[1..] + more;
      ApartFirst(path[1..], more, func);
    }
  }

  /** Under the node of the function, what is first on the trail is settled. */
  lemma SettledUnder(b: Stmt, path: seq<Frame>, func: string, p: bool)
    requires Apart(path, func)
    ensures forall q | q in Places(b, path + [Within(func, p)]) :: ProducedFirst(Trail(q), func) == p
  {
    var inner := path + [Within(func, p)];
    PlacesExtend(b, inner);
    forall q | q in Places(b, inner) ensures ProducedFirst(Trail(q), func) == p {
      var rest := Trail(q)[|path|..];
      assert inner <= Trail(q);
      assert Trail(q) == path + rest;
      assert rest[0] == inner[|path|];
      ApartFirst(path, rest, func);
    }
  }

  // ----- places of blocks and releases -----

  lemma {:induction false} PlacesMakeBlock(a: Stmt, b: Stmt, path: seq<Frame>)
    ensures Places(MakeBlock(a, b), path) == Places(a, path) + Places(b, path)
  {
    match a
    case Block(x, y) =>
      PlacesMakeBlock(y, b, path);
      SeqAssoc(Places(x, path), Places(y, path), Places(b, path));
    case _ =>
  }

  lemma PlacesFoldBlock(a: Stmt, b: Stmt, path: seq<Frame>)
    ensures Places(FoldBlock(a, b), path) == Places(a, path) + Places(b, path)
  {
    PlacesMakeBlock(a, b, path);
  }

  lemma {:induction false} PlacesAddReleases(b: Stmt, sema: seq<Sema>, path: seq<Frame>)
    ensures Places(AddReleases(b, sema), path) == Places(b, path)
    decreases |sema|
  {
    if sema != [] {
      var b' := MakeBlock(b, Release(sema[|sema| - 1], Const(1)));
      PlacesMakeBlock(b, Release(sema[|sema| - 1], Const(1)), path);
      PlacesAddReleases(b', sema[..|sema| - 1], path);
    }
  }

  // ----- the consumer copy -----

  lemma {:induction false} ConsumerPlaces(s: Stmt, func: string, sema: seq<Sema>, path: seq<Frame>)
    requires Plain(s) && ConsumeCount(s, func) <= |sema| && Apart(path, func)
    ensures Places(Consumer(s, func, sema).0, path) == Consumed(Places(s, path), func)
    decreases s, 1
  {
    match s
    case NoOp =>
    case Provide(_, _, _) => ApartFirst(path, [], func); assert path + [] == path;
    case Block(a, b) => ConsumerPlacesPair(a, b, s, func, sema, path, path);
    case For(v, lo, n, b) => ConsumerPlaces(b, func, sema, path + [Loop(v, lo, n)]);
    case LetStmt(v, e, b) => ConsumerPlaces(b, func, sema, path + [Bound(v, e)]);
    case IfThenElse(c, t, e) =>
      ConsumerPlacesPair(t, e, s, func, sema, path + [Guarded(c, true)], path + [Guarded(c, false)]);
    case ProducerConsumer(_, _, _) => ConsumerPlacesNode(s, func, sema, path);
    case Realize(f, b) => ConsumerPlaces(b, func, sema, path + [Storage(f)]);
  }

  lemma {:induction false} ConsumerPlacesNode(s: Stmt, func: string, sema: seq<Sema>, path: seq<Frame>)
    requires s.ProducerConsumer? && Plain(s) && ConsumeCount(s, func) <= |sema| && Apart(path, func)
    ensures Places(Consumer(s, func, sema).0, path) == Consumed(Places(s, path), func)
    decreases s, 0
  {
    var ProducerConsumer(f, p, b) := s;
    var inner := path + [Within(f, p)];
    var mark := Place(path, Enters(f, p));
    ApartFirst(path, [Within(f, p)], func);
    assert [Within(f, p)][1..] == [];
    ConsumedConcat([mark], Places(b, inner), func);
    ConsumedAll([mark], func, f == func && p);
    if f == func {
      SettledUnder(b, path, func, p);
      ConsumedAll(Places(b, inner), func, p);
    } else {
      ConsumerPlaces(b, func, sema, inner);
    }
  }

  lemma {:induction false} ConsumerPlacesPair(a: Stmt, b: Stmt, s: Stmt, func: string, sema: seq<Sema>,
                                              left: seq<Frame>, right: seq<Frame>)
    requires a < s && b < s && Plain(a) && Plain(b) && ConsumeCount(a, func) + ConsumeCount(b, func) <= |sema|
    requires Apart(left, func) && Apart(right, func)
    ensures var (a', rest) := Consumer(a, func, sema);
            var b' := Consumer(b, func, rest).0;
            var whole := Consumed(Places(a, left) + Places(b, right), func);
            && Places(a', left) + Places(b', right) == whole
            && (left == right ==> Places(FoldBlock(a', b'), left) == whole)
    decreases s, 0
  {
    var (a', rest) := Consumer(a, func, sema);
    ConsumerPlaces(a, func, sema, left);
    ConsumerPlaces(b, func, rest, right);
    ConsumedConcat(Places(a, left), Places(b, right), func);
    PlacesFoldBlock(a', Consumer(b, func, rest).0, left);
  }

  // ----- the producer copy -----

  lemma {:induction false} BareExtend(path: seq<Frame>, more: seq<Frame>, func: string)
    requires Within(func, true) !in path
    ensures Bare(path + more, func) == Bare(path, func) + Bare(more, func)
    decreases |path|
  {
    if path == [] {
      assert path + more == more;
    } else {
      assert path[0] in path;
      assert (path + more)[0] == path[0] && (path + more)[1..] == path[1..] + more;
      BareExtend(path[1..], more, func);
      SeqAssoc(if path[0].Within? && path[0].isProducer then [] else [path[0]], Bare(path[1..], func),
               Bare(more, func));
    }
  }

  lemma BareStep(path: seq<Frame>, f: Frame, func: string)
    requires Within(func, true) !in path
    ensures Bare(path + [f], func) ==
              Bare(path, func) + if f.Within? && f.isProducer && f.func != func then [] else [f]
  {
    BareExtend(path, [f], func);
    assert [f][1..] == [];
  }

  /** Under the produce node the places are those of the body, whatever is taken off the path around it. */
  lemma {:induction false} PlacesMove(s: Stmt, path: seq<Frame>, other: seq<Frame>, more: seq<Frame>)
    ensures var ps, qs := Places(s, path + more), Places(s, other + more);
            && |ps| == |qs|
            && forall i | 0 <= i < |ps| ::
                 && path + more <= ps[i].path && qs[i] == Place(other + ps[i].path[|path|..], ps[i].work)
    decreases s, 1
  {
    var p, q := path + more, other + more;
    match s
    case NoOp =>
    case Provide(f, i, v) => assert (path + more)[|path|..] == more;
    case Block(a, b) => PlacesMove(a, path, other, more); PlacesMove(b, path, other, more);
    case For(v, lo, n, b) => PlacesMoveStep(b, s, path, other, more, Loop(v, lo, n));
    case LetStmt(v, e, b) => PlacesMoveStep(b, s, path, other, more, Bound(v, e));
    case IfThenElse(c, t, e) =>
      PlacesMoveStep(t, s, path, other, more, Guarded(c, true));
      PlacesMoveStep(e, s, path, other, more, Guarded(c, false));
    case ProducerConsumer(f, pr, b) =>
      assert (path + more)[|path|..] == more;
      PlacesMoveStep(b, s, path, other, more, Within(f, pr));
    case Realize(f, b) => PlacesMoveStep(b, s, path, other, more, Storage(f));
    case Acquire(_, _, b) => PlacesMove(b, path, other, more);
    case Release(_, _) =>
    case Fork(a, b) => PlacesMove(a, path, other, more); PlacesMove(b, path, other, more);
  }

  lemma {:induction false} PlacesMoveStep(b: Stmt, s: Stmt, path: seq<Frame>, other: seq<Frame>, more: seq<Frame>,
                                          f: Frame)
    requires b < s
    ensures var ps, qs := Places(b, path + more + [f]), Places(b, other + more + [f]);
            && |ps| == |qs|
            && forall i | 0 <= i < |ps| ::
                 && path + more <= ps[i].path && qs[i] == Place(other + ps[i].path[|path|..], ps[i].work)
    decreases s, 0
  {
    PlacesMove(b, path, other, more + [f]);
    SeqAssoc(path, more, [f]);
    SeqAssoc(other, more, [f]);
    forall i | 0 <= i < |Places(b, path + more + [f])|
      ensures path + more <= Places(b, path + more + [f])[i].path {
      assert path + more <= path + (more + [f]) <= Places(b, path + more + [f])[i].path;
    }
  }

  lemma PlacesUnderProduce(b: Stmt, path: seq<Frame>, func: string)
    requires Within(func, true) !in path
    ensures Bared(Places(b, path + [Within(func, true)]), func) == Places(b, Bare(path, func) + [Within(func, true)])
  {
    var mine := [Within(func, true)];
    var ps, qs := Places(b, path + mine), Places(b, Bare(path, func) + mine);
    PlacesMove(b, path, Bare(path, func), mine);
    forall i | 0 <= i < |ps| ensures Bared(ps, func)[i] == qs[i] {
      var rest := ps[i].path[|path|..];
      assert ps[i].path == path + rest;
      assert (path + mine)[|path|] == rest[0];
      BareExtend(path, rest, func);
    }
  }

  /** What is not production of the function is at most the entry of a consume node around it. */
  predicate OnlyAround(ps: seq<Place>, func: string) {
    forall p | p in ps :: Within(func, true) in Trail(p) || (p.work.Enters? && !p.work.isProducer)
  }

  ghost predicate ProducerPlaced(r: seq<Place>, ps: seq<Place>, func: string) {
    Produced(r, func) == Bared(Produced(ps, func), func) && OnlyAround(r, func)
  }

  lemma ProducerPlacedConcat(r: seq<Place>, q: seq<Place>, ps: seq<Place>, qs: seq<Place>, func: string)
    requires ProducerPlaced(r, ps, func) && ProducerPlaced(q, qs, func)
    ensures ProducerPlaced(r + q, ps + qs, func)
  {
    ProducedConcat(r, q, func);
    ProducedConcat(ps, qs, func);
  }

  lemma {:induction false} ProducerPlaces(s: Stmt, func: string, sema: seq<Sema>, path: seq<Frame>)
    requires Plain(s) && Producer(s, func, sema).Done? && Within(func, true) !in path
    ensures ProducerPlaced(Places(Producer(s, func, sema).stmt, Bare(path, func)), Places(s, path), func)
    decreases s, 1
  {
    match s
    case NoOp =>
    case Provide(_, _, _) =>
    case Block(a, b) => ProducerPlacesPair(a, b, s, func, sema, path, path);
    case For(v, lo, n, b) =>
      BareStep(path, Loop(v, lo, n), func);
      ProducerPlaces(b, func, sema, path + [Loop(v, lo, n)]);
    case LetStmt(v, e, b) =>
      BareStep(path, Bound(v, e), func);
      ProducerPlaces(b, func, sema, path + [Bound(v, e)]);
    case IfThenElse(c, t, e) =>
      BareStep(path, Guarded(c, true), func);
      BareStep(path, Guarded(c, false), func);
      ProducerPlacesPair(t, e, s, func, sema, path + [Guarded(c, true)], path + [Guarded(c, false)]);
    case ProducerConsumer(f, p, b) => ProducerPlacesNode(s, func, sema, path);
    case Realize(f, b) =>
      BareStep(path, Storage(f), func);
      ProducerPlaces(b, func, sema, path + [Storage(f)]);
  }

  lemma {:induction false} ProducerPlacesNode(s: Stmt, func: string, sema: seq<Sema>, path: seq<Frame>)
    requires s.ProducerConsumer? && Plain(s) && Producer(s, func, sema).Done? && Within(func, true) !in path
    ensures ProducerPlaced(Places(Producer(s, func, sema).stmt, Bare(path, func)), Places(s, path), func)
    decreases s, 0
  {
    hide Produced, Bared, ProducerPlaced, Bare, AddReleases, Busy, Lean;
    var ProducerConsumer(f, p, b) := s;
    BareStep(path, Within(f, p), func);
    assert Bare(path, func) + [] == Bare(path, func);
    if f == func && p {
      PlacesAddReleases(b, sema, Bare(path, func) + [Within(f, p)]);
      ProduceNodePlaces(b, path, func);
    } else {
      var inner := path + [Within(f, p)];
      var r := Places(Producer(b, func, sema).stmt, Bare(inner, func));
      ProducerPlaces(b, func, sema, inner);
      AroundPlaces(path, f, p, r, Places(b, inner), func);
    }
  }

  lemma ProduceNodePlaces(b: Stmt, path: seq<Frame>, func: string)
    requires Within(func, true) !in path
    ensures var mine, mark := [Within(func, true)], Enters(func, true);
            var bare := Bare(path, func);
            ProducerPlaced([Place(bare, mark)] + Places(b, bare + mine),
                            [Place(path, mark)] + Places(b, path + mine), func)
  {
    var mine, mark := [Within(func, true)], Enters(func, true);
    PlacesUnderProduce(b, path, func);
    AllProduced(b, path, func);
    AllProduced(b, Bare(path, func), func);
    assert Bared([Place(path, mark)] + Places(b, path + mine), func)
           == [Place(Bare(path, func), mark)] + Bared(Places(b, path + mine), func);
  }

  /** A node around production is no production itself. */
  lemma AroundPlaces(path: seq<Frame>, f: string, p: bool, r: seq<Place>, ps: seq<Place>, func: string)
    requires Within(func, true) !in path && Within(f, p) != Within(func, true) && ProducerPlaced(r, ps, func)
    ensures ProducerPlaced(r, [Place(path, Enters(f, p))] + ps, func)
    ensures !p ==> ProducerPlaced([Place(Bare(path, func), Enters(f, p))] + r, [Place(path, Enters(f, p))] + ps, func)
  {
    var mark, left := Place(path, Enters(f, p)), Place(Bare(path, func), Enters(f, p));
    BareWithout(path, func);
    NotProduced(mark, func);
    NotProduced(left, func);
    ProducedConcat([mark], ps, func);
    ProducedConcat([left], r, func);
  }

  lemma NotProduced(p: Place, func: string)
    requires Within(func, true) !in Trail(p)
    ensures Produced([p], func) == []
  {
    assert [p][1..] == [];
  }

  /** The entry of the produce node and all that is in it is production. */
  lemma AllProduced(b: Stmt, path: seq<Frame>, func: string)
    ensures var ps := [Place(path, Enters(func, true))] + Places(b, path + [Within(func, true)]);
            Produced(ps, func) == ps && OnlyAround(ps, func)
  {
    var inner := path + [Within(func, true)];
    var ps := [Place(path, Enters(func, true))] + Places(b, inner);
    PlacesExtend(b, inner);
    assert inner[|path|] == Within(func, true);
    forall q | q in ps ensures Within(func, true) in Trail(q) {
      assert inner <= Trail(q);
      assert Trail(q)[|path|] == inner[|path|];
    }
    ProducedAll(ps, func);
  }

  lemma {:induction false} BareWithout(path: seq<Frame>, func: string)
    requires Within(func, true) !in path
    ensures Within(func, true) !in Bare(path, func)
    decreases |path|
  {
    if path != [] {
      assert path[0] in path;
      BareWithout(path[1..], func);
    }
  }

  lemma {:induction false} ProducerPlacesPair(a: Stmt, b: Stmt, s: Stmt, func: string, sema: seq<Sema>,
                                              left: seq<Frame>, right: seq<Frame>)
    requires a < s && b < s && Plain(a) && Plain(b)
    requires Within(func, true) !in left && Within(func, true) !in right
    requires Producer(a, func, sema).Done? && Producer(b, func, Producer(a, func, sema).sema).Done?
    ensures var a' := Producer(a, func, sema);
            var b' := Producer(b, func, a'.sema).stmt;
            var whole := Places(a, left) + Places(b, right);
            && ProducerPlaced(Places(a'.stmt, Bare(left, func)) + Places(b', Bare(right, func)), whole, func)
            && (left == right ==> ProducerPlaced(Places(FoldBlock(a'.stmt, b'), Bare(left, func)), whole, func))
    decreases s, 0
  {
    var a' := Producer(a, func, sema);
    var b' := Producer(b, func, a'.sema).stmt;
    ProducerPlaces(a, func, sema, left);
    ProducerPlaces(b, func, a'.sema, right);
    ProducerPlacedConcat(Places(a'.stmt, Bare(left, func)), Places(b', Bare(right, func)), Places(a, left),
                         Places(b, right), func);
    PlacesFoldBlock(a'.stmt, b', Bare(left, func));
  }

  // ----- nothing hollow is left -----

  lemma {:induction false} LeanMakeBlock(a: Stmt, b: Stmt, func: string, producing: bool)
    requires Lean(a, func, producing) && Lean(b, func, producing)
    requires Busy(a, func, producing) && Busy(b, func, producing)
    ensures Lean(MakeBlock(a, b), func, producing) && Busy(MakeBlock(a, b), func, producing)
  {
    match a
    case Block(_, y) => LeanMakeBlock(y, b, func, producing);
    case _ =>
  }

  ghost predicate Trim(s: Stmt, func: string, producing: bool) {
    Lean(s, func, producing) && (IsNoOp(s) || Busy(s, func, producing))
  }

  lemma TrimFoldBlock(a: Stmt, b: Stmt, func: string, producing: bool)
    requires Trim(a, func, producing) && Trim(b, func, producing)
    ensures Trim(FoldBlock(a, b), func, producing)
  {
    if !IsNoOp(a) && !IsNoOp(b) {
      LeanMakeBlock(a, b, func, producing);
    }
  }

  lemma {:induction false} ConsumerTrim(s: Stmt, func: string, sema: seq<Sema>)
    requires Plain(s) && ConsumeCount(s, func) <= |sema|
    ensures Trim(Consumer(s, func, sema).0, func, false)
  {
    match s
    case NoOp =>
    case Provide(_, _, _) =>
    case Block(a, b) =>
      var (a', rest) := Consumer(a, func, sema);
      ConsumerTrim(a, func, sema);
      ConsumerTrim(b, func, rest);
      TrimFoldBlock(a', Consumer(b, func, rest).0, func, false);
    case For(_, _, _, b) => ConsumerTrim(b, func, sema);
    case LetStmt(_, _, b) => ConsumerTrim(b, func, sema);
    case IfThenElse(_, t, e) =>
      ConsumerTrim(t, func, sema);
      ConsumerTrim(e, func, Consumer(t, func, sema).1);
    case ProducerConsumer(f, p, b) =>
      if f != func {
        ConsumerTrim(b, func, sema);
      }
    case Realize(_, b) => ConsumerTrim(b, func, sema);
  }

  lemma {:induction false} ProducerTrim(s: Stmt, func: string, sema: seq<Sema>)
    requires Plain(s) && Producer(s, func, sema).Done?
    ensures Trim(Producer(s, func, sema).stmt, func, true)
  {
    match s
    case NoOp =>
    case Provide(_, _, _) =>
    case Block(a, b) =>
      var a' := Producer(a, func, sema);
      ProducerTrim(a, func, sema);
      ProducerTrim(b, func, a'.sema);
      TrimFoldBlock(a'.stmt, Producer(b, func, a'.sema).stmt, func, true);
    case For(_, _, _, b) => ProducerTrim(b, func, sema);
    case LetStmt(_, _, b) => ProducerTrim(b, func, sema);
    case IfThenElse(_, t, e) =>
      ProducerTrim(t, func, sema);
      ProducerTrim(e, func, Producer(t, func, sema).sema);
    case ProducerConsumer(f, p, b) =>
      if !(f == func && p) {
        ProducerTrim(b, func, sema);
      }
    case Realize(_, b) => ProducerTrim(b, func, sema);
  }

  // ----- storage is kept -----

  lemma {:induction false} StoredMakeBlock(a: Stmt, b: Stmt, tracked: set<string>, open: set<string>)
    requires Stored(a, tracked, open) && Stored(b, tracked, open)
    ensures Stored(MakeBlock(a, b), tracked, open)
  {
    match a
    case Block(_, y) => StoredMakeBlock(y, b, tracked, open);
    case _ =>
  }

  lemma {:induction false} StoredAddReleases(b: Stmt, sema: seq<Sema>, tracked: set<string>, open: set<string>)
    requires Stored(b, tracked, open)
    ensures Stored(AddReleases(b, sema), tracked, open)
    decreases |sema|
  {
    if sema != [] {
      StoredMakeBlock(b, Release(sema[|sema| - 1], Const(1)), tracked, open);
      StoredAddReleases(MakeBlock(b, Release(sema[|sema| - 1], Const(1))), sema[..|sema| - 1], tracked, open);
    }
  }

  lemma {:induction false} ConsumerStored(s: Stmt, func: string, sema: seq<Sema>, tracked: set<string>,
                                          open: set<string>)
    requires Plain(s) && ConsumeCount(s, func) <= |sema| && Stored(s, tracked, open)
    ensures Stored(Consumer(s, func, sema).0, tracked, open)
  {
    match s
    case NoOp =>
    case Provide(_, _, _) =>
    case Block(a, b) =>
      var (a', rest) := Consumer(a, func, sema);
      ConsumerStored(a, func, sema, tracked, open);
      ConsumerStored(b, func, rest, tracked, open);
      StoredMakeBlock(a', Consumer(b, func, rest).0, tracked, open);
    case For(_, _, _, b) => ConsumerStored(b, func, sema, tracked, open);
    case LetStmt(_, _, b) => ConsumerStored(b, func, sema, tracked, open);
    case IfThenElse(_, t, e) =>
      ConsumerStored(t, func, sema, tracked, open);
      ConsumerStored(e, func, Consumer(t, func, sema).1, tracked, open);
    case ProducerConsumer(f, p, b) =>
      if f != func {
        ConsumerStored(b, func, sema, tracked, open);
      }
    case Realize(f, b) => ConsumerStored(b, func, sema, tracked, open + {f});
  }

  lemma {:induction false} ProducerStored(s: Stmt, func: string, sema: seq<Sema>, tracked: set<string>,
                                          open: set<string>)
    requires Plain(s) && Producer(s, func, sema).Done? && Stored(s, tracked, open)
    ensures Stored(Producer(s, func, sema).stmt, tracked, open)
  {
    match s
    case NoOp =>
    case Provide(_, _, _) =>
    case Block(a, b) =>
      var a' := Producer(a, func, sema);
      ProducerStored(a, func, sema, tracked, open);
      ProducerStored(b, func, a'.sema, tracked, open);
      StoredMakeBlock(a'.stmt, Producer(b, func, a'.sema).stmt, tracked, open);
    case For(_, _, _, b) => ProducerStored(b, func, sema, tracked, open);
    case LetStmt(_, _, b) => ProducerStored(b, func, sema, tracked, open);
    case IfThenElse(_, t, e) =>
      ProducerStored(t, func, sema, tracked, open);
      ProducerStored(e, func, Producer(t, func, sema).sema, tracked, open);
    case ProducerConsumer(f, p, b) =>
      if f == func && p {
        StoredAddReleases(b, sema, tracked, open);
      } else {
        ProducerStored(b, func, sema, tracked, open);
      }
    case Realize(f, b) => ProducerStored(b, func, sema, tracked, open + {f});
  }

  // ----- the two sides of the fork -----

  /** The consumer copy has exactly the stores and nodes of the body that are not production of the function, each
      inside the very same loops, lets, conditions, nodes and realizations, and nothing hollow around them. */
  lemma ConsumerKeepsPlaces(body: Stmt, func: string)
    requires Plain(body) && ForkSides(body, func).Sides?
    ensures var c := ForkSides(body, func).consumer;
            && Places(c, []) == Consumed(Places(body, []), func)
            && Lean(c, func, false)
  {
    var semas := Semas(func, ConsumeCount(body, func));
    ConsumerPlaces(body, func, semas, []);
    ConsumerTrim(body, func, semas);
  }

  /** The producer copy has exactly the production of the function, each store inside what it was in but for the
      produce nodes of other functions, and nothing else but consume nodes around it. */
  lemma ProducerKeepsPlaces(body: Stmt, func: string)
    requires Plain(body) && ForkSides(body, func).Sides?
    ensures var p := ForkSides(body, func).producer;
            && Produced(Places(p, []), func) == Bared(Produced(Places(body, []), func), func)
            && OnlyAround(Places(p, []), func)
            && Lean(p, func, true)
  {
    var semas := Semas(func, ConsumeCount(body, func));
    ProducerPlaces(body, func, semas, []);
    ProducerTrim(body, func, semas);
  }

  /** If every store and load of a realized function is inside a realization of it, that is so in both copies. */
  lemma SidesKeepStorage(body: Stmt, func: string)
    requires Plain(body) && ForkSides(body, func).Sides? && Stored(body, Realized(body), {})
    ensures var sides := ForkSides(body, func);
            && Stored(sides.producer, Realized(body), {})
            && Stored(sides.consumer, Realized(body), {})
  {
    var semas := Semas(func, ConsumeCount(body, func));
    ProducerStored(body, func, semas, Realized(body), {});
    ConsumerStored(body, func, semas, Realized(body), {});
  }
}
