/** Forking an asynchronous function out of the statement that realizes it (AsyncProducers.cpp):
    one copy of the body keeps only the production of the function, the other everything else,
    and every consume node waits for a semaphore that the producer releases. */
module AsyncFork {
  import opened StmtIR

  // ----- eagerly folding no-ops -----

  function FoldLet(v: string, e: Expr, body: Stmt): Stmt {
    if IsNoOp(body) then body else LetStmt(v, e, body)
  }

  function FoldFor(v: string, lo: Expr, n: Expr, body: Stmt): Stmt {
    if IsNoOp(body) then body else For(v, lo, n, body)
  }

  function FoldBlock(first: Stmt, rest: Stmt): Stmt {
    if IsNoOp(first) then rest else if IsNoOp(rest) then first else MakeBlock(first, rest)
  }

  function FoldRealize(f: string, body: Stmt): Stmt {
    if IsNoOp(body) then body else Realize(f, body)
  }

  function FoldIf(c: Expr, t: Stmt, e: Stmt): Stmt {
    if IsNoOp(t) && IsNoOp(e) then t else IfThenElse(c, t, e)
  }

  // ----- counting nodes -----

  function ConsumeCount(s: Stmt, func: string): nat {
    match s
    case NoOp => 0
    case Provide(_, _, _) => 0
    case Block(a, b) => ConsumeCount(a, func) + ConsumeCount(b, func)
    case For(_, _, _, b) => ConsumeCount(b, func)
    case LetStmt(_, _, b) => ConsumeCount(b, func)
    case IfThenElse(_, t, e) => ConsumeCount(t, func) + ConsumeCount(e, func)
    case ProducerConsumer(f, p, b) => (if f == func && !p then 1 else 0) + ConsumeCount(b, func)
    case Realize(_, b) => ConsumeCount(b, func)
    case Acquire(_, _, b) => ConsumeCount(b, func)
    case Release(_, _) => 0
    case Fork(a, b) => ConsumeCount(a, func) + ConsumeCount(b, func)
  }

  /** Produce nodes of the function that are not inside another one. */
  function ProduceCount(s: Stmt, func: string): nat {
    match s
    case NoOp => 0
    case Provide(_, _, _) => 0
    case Block(a, b) => ProduceCount(a, func) + ProduceCount(b, func)
    case For(_, _, _, b) => ProduceCount(b, func)
    case LetStmt(_, _, b) => ProduceCount(b, func)
    case IfThenElse(_, t, e) => ProduceCount(t, func) + ProduceCount(e, func)
    case ProducerConsumer(f, p, b) => if f == func && p then 1 else ProduceCount(b, func)
    case Realize(_, b) => ProduceCount(b, func)
    case Acquire(_, _, b) => ProduceCount(b, func)
    case Release(_, _) => 0
    case Fork(a, b) => ProduceCount(a, func) + ProduceCount(b, func)
  }

  function Semas(func: string, n: nat): seq<Sema> {
    seq(n, i requires 0 <= i < n => Sema(func, i))
  }

  // ----- the producer copy -----

  /** Abort is the pass's internal assertion: no semaphore is left at a produce node. */
  datatype Gen = Done(stmt: Stmt, sema: seq<Sema>) | Abort {
    predicate IsFailure() {
      Abort?
    }
    function PropagateFailure(): Gen
      requires Abort?
    {
      Abort
    }
    function Extract(): (Stmt, seq<Sema>)
      requires Done?
    {
      (stmt, sema)
    }
  }

  /** Release every semaphore after the body, the last of the vector first. */
  function AddReleases(body: Stmt, sema: seq<Sema>): Stmt
    decreases |sema|
  {
    if sema == [] then body
    else AddReleases(MakeBlock(body, Release(sema[|sema| - 1], Const(1))), sema[..|sema| - 1])
  }

  function Producer(s: Stmt, func: string, sema: seq<Sema>): Gen
    requires Plain(s)
  {
    match s
    case NoOp => Done(NoOp, sema)
    case Provide(_, _, _) => Done(NoOp, sema)
    case Block(a, b) =>
      var (a', sema1) :- Producer(a, func, sema);
      var (b', sema2) :- Producer(b, func, sema1);
      Done(FoldBlock(a', b'), sema2)
    case For(v, lo, n, b) =>
      var (b', sema1) :- Producer(b, func, sema);
      Done(FoldFor(v, lo, n, b'), sema1)
    case LetStmt(v, e, b) =>
      var (b', sema1) :- Producer(b, func, sema);
      Done(FoldLet(v, e, b'), sema1)
    case IfThenElse(c, t, e) =>
      var (t', sema1) :- Producer(t, func, sema);
      var (e', sema2) :- Producer(e, func, sema1);
      Done(FoldIf(c, t', e'), sema2)
    case ProducerConsumer(f, p, b) =>
      if f == func && p then
        if sema == [] then Abort else Done(ProducerConsumer(f, true, AddReleases(b, sema)), [])
      else
        var (b', sema1) :- Producer(b, func, sema);
        Done(if IsNoOp(b') || p then b' else ProducerConsumer(f, p, b'), sema1)
    case Realize(f, b) =>
      var (b', sema1) :- Producer(b, func, sema);
      Done(FoldRealize(f, b'), sema1)
  }

  /** The producer copy exists exactly when the body has at most one produce node to find, and a
      consume node to release. */
  lemma {:induction false} ProducerSucceeds(s: Stmt, func: string, sema: seq<Sema>)
    requires Plain(s)
    ensures Producer(s, func, sema).Done? <==> ProduceCount(s, func) <= (if sema == [] then 0 else 1)
    ensures Producer(s, func, sema).Done? ==>
              Producer(s, func, sema).sema == if ProduceCount(s, func) == 0 then sema else []
    decreases s, 1
  {
    match s
    case NoOp =>
    case Provide(_, _, _) =>
    case Block(a, b) => ProducerSucceedsPair(a, b, s, func, sema);
    case For(_, _, _, b) => ProducerSucceeds(b, func, sema);
    case LetStmt(_, _, b) => ProducerSucceeds(b, func, sema);
    case IfThenElse(_, t, e) => ProducerSucceedsPair(t, e, s, func, sema);
    case ProducerConsumer(f, p, b) =>
      if !(f == func && p) {
        ProducerSucceeds(b, func, sema);
      }
    case Realize(_, b) => ProducerSucceeds(b, func, sema);
  }

  lemma {:induction false} ProducerSucceedsPair(a: Stmt, b: Stmt, s: Stmt, func: string, sema: seq<Sema>)
    requires Plain(a) && Plain(b) && a < s && b < s
    ensures var r := Producer(a, func, sema);
            var count := ProduceCount(a, func) + ProduceCount(b, func);
            && ((r.Done? && Producer(b, func, r.sema).Done?) <==> count <= (if sema == [] then 0 else 1))
            && (r.Done? && Producer(b, func, r.sema).Done? ==>
                  Producer(b, func, r.sema).sema == if count == 0 then sema else [])
    decreases s, 0
  {
    ProducerSucceeds(a, func, sema);
    var r := Producer(a, func, sema);
    if r.Done? {
      ProducerSucceeds(b, func, r.sema);
    }
  }

  // ----- the consumer copy -----

  function Consumer(s: Stmt, func: string, sema: seq<Sema>): (r: (Stmt, seq<Sema>))
    requires Plain(s) && ConsumeCount(s, func) <= |sema|
    ensures |r.1| >= |sema| - ConsumeCount(s, func)
  {
    match s
    case NoOp => (s, sema)
    case Provide(_, _, _) => (s, sema)
    case Block(a, b) =>
      var (a', sema1) := Consumer(a, func, sema);
      var (b', sema2) := Consumer(b, func, sema1);
      (FoldBlock(a', b'), sema2)
    case For(v, lo, n, b) =>
      var (b', sema1) := Consumer(b, func, sema);
      (FoldFor(v, lo, n, b'), sema1)
    case LetStmt(v, e, b) =>
      var (b', sema1) := Consumer(b, func, sema);
      (FoldLet(v, e, b'), sema1)
    case IfThenElse(c, t, e) =>
      var (t', sema1) := Consumer(t, func, sema);
      var (e', sema2) := Consumer(e, func, sema1);
      (FoldIf(c, t', e'), sema2)
    case ProducerConsumer(f, p, b) =>
      if f == func then
        if p then (NoOp, sema)
        else (Acquire(sema[|sema| - 1], Const(1), s), sema[..|sema| - 1])
      else
        var (b', sema1) := Consumer(b, func, sema);
        (ProducerConsumer(f, p, b'), sema1)
    case Realize(f, b) =>
      var (b', sema1) := Consumer(b, func, sema);
      (FoldRealize(f, b'), sema1)
  }

  /** The two mutators as the pass has them: objects that use up their semaphore vector while they
      walk the body. */
  class GenerateProducerBody {
    const func: string
    var sema: seq<Sema>
    var aborted: bool

    constructor (f: string, s: seq<Sema>)
      ensures func == f && sema == s && !aborted
    {
      func := f;
      sema := s;
      aborted := false;
    }

    /** Once the assertion has fired the result means nothing. */
    method Mutate(s: Stmt) returns (r: Stmt)
      requires Plain(s) && !aborted
      modifies this
      ensures aborted == Producer(s, func, old(sema)).Abort?
      ensures !aborted ==> Producer(s, func, old(sema)) == Done(r, sema)
      decreases s
    {
      match s
      case NoOp => r := NoOp;
      case Provide(_, _, _) => r := NoOp;
      case Block(a, b) =>
        var first := Mutate(a);
        var rest := NoOp;
        if !aborted { rest := Mutate(b); }
        r := FoldBlock(first, rest);
      case For(v, lo, n, b) =>
        var body := Mutate(b);
        r := FoldFor(v, lo, n, body);
      case LetStmt(v, e, b) =>
        var body := Mutate(b);
        r := FoldLet(v, e, body);
      case IfThenElse(c, t, e) =>
        var t' := Mutate(t);
        var e' := NoOp;
        if !aborted { e' := Mutate(e); }
        r := FoldIf(c, t', e');
      case ProducerConsumer(f, p, b) =>
        if f == func && p {
          aborted := sema == [];
          r := b;
          while sema != []
            invariant AddReleases(r, sema) == AddReleases(b, old(sema))
            invariant aborted == (old(sema) == [])
            decreases |sema|
          {
            r := MakeBlock(r, Release(sema[|sema| - 1], Const(1)));
            sema := sema[..|sema| - 1];
          }
          r := ProducerConsumer(f, true, r);
        } else {
          r := Mutate(b);
          if !(IsNoOp(r) || p) {
            r := ProducerConsumer(f, p, r);
          }
        }
      case Realize(f, b) =>
        var body := Mutate(b);
        r := FoldRealize(f, body);
    }
  }

  class GenerateConsumerBody {
    const func: string
    var sema: seq<Sema>

    constructor (f: string, s: seq<Sema>)
      ensures func == f && sema == s
    {
      func := f;
      sema := s;
    }

    method Mutate(s: Stmt) returns (r: Stmt)
      requires Plain(s) && ConsumeCount(s, func) <= |sema|
      modifies this
      ensures (r, sema) == Consumer(s, func, old(sema))
      decreases s
    {
      match s
      case NoOp => r := s;
      case Provide(_, _, _) => r := s;
      case Block(a, b) =>
        var first := Mutate(a);
        var rest := Mutate(b);
        r := FoldBlock(first, rest);
      case For(v, lo, n, b) =>
        var body := Mutate(b);
        r := FoldFor(v, lo, n, body);
      case LetStmt(v, e, b) =>
        var body := Mutate(b);
        r := FoldLet(v, e, body);
      case IfThenElse(c, t, e) =>
        var t' := Mutate(t);
        var e' := Mutate(e);
        r := FoldIf(c, t', e');
      case ProducerConsumer(f, p, b) =>
        if f == func {
          if p {
            r := NoOp;
          } else {
            r := Acquire(sema[|sema| - 1], Const(1), s);
            sema := sema[..|sema| - 1];
          }
        } else {
          var body := Mutate(b);
          r := ProducerConsumer(f, p, body);
        }
      case Realize(f, b) =>
        var body := Mutate(b);
        r := FoldRealize(f, body);
    }
  }

  /** The two sides of the fork, or None where the pass stops at its assertion. */
  datatype Sides = Sides(producer: Stmt, consumer: Stmt) | Stopped

  function ForkSides(body: Stmt, func: string): Sides
    requires Plain(body)
  {
    var semas := Semas(func, ConsumeCount(body, func));
    match Producer(body, func, semas)
    case Abort => Stopped
    case Done(p, _) => Sides(p, Consumer(body, func, semas).0)
  }

  /** ForkAsyncProducers at the realization of an asynchronous function. */
  method ForkRealize(body: Stmt, func: string) returns (r: Sides)
    requires Plain(body)
    ensures r == ForkSides(body, func)
  {
    var semas := [];
    for i := 0 to ConsumeCount(body, func)
      invariant semas == Semas(func, i)
    {
      semas := semas + [Sema(func, i)];
    }
    var gp := new GenerateProducerBody(func, semas);
    var p := gp.Mutate(body);
    if gp.aborted {
      r := Stopped;
    } else {
      var gc := new GenerateConsumerBody(func, semas);
      var c := gc.Mutate(body);
      r := Sides(p, c);
    }
  }
}
