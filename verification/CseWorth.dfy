/** What elimination shares and what it leaves alone, told by the texts themselves (CSE.cpp): which expressions are
    worth a let, that these are written once, and that every let is worth it and is used at least twice. */
module CseWorth {
  import opened VarNames
  import opened CseIR
  import opened CseGVN
  import opened CseSound
  import opened CseLets
  import opened CseShare

  // ----- what is worth a let -----

  /** The operators in an expression. */
  function Ops(e: Expr): set<Op> {
    match e
    case Imm(_) => {}
    case Var(_) => {}
    case Node(_, op, ks) => {op} + OpsAll(ks)
    case Let(_, _, x, b) => Ops(x) + Ops(b)
  }

  function OpsAll(es: Exprs): set<Op> {
    match es
    case Nil => {}
    case Cons(e, rest) => Ops(e) + OpsAll(rest)
  }

  predicate LetFree(e: Expr) {
    match e
    case Imm(_) => true
    case Var(_) => true
    case Node(_, _, ks) => LetFreeAll(ks)
    case Let(_, _, _, _) => false
  }

  predicate LetFreeAll(es: Exprs) {
    es.Cons? ==> LetFree(es.hd) && LetFreeAll(es.tl)
  }

  /** A number, possibly converted or spread over vector lanes: no variable, and no operator that computes. */
  predicate Literal(e: Expr) {
    Occurring(e) == {} && LetFree(e) && forall op | op in Ops(e) :: op.Cast? || op.Ramp? || op.Broadcast?
  }

  predicate SomeLiteral(es: Exprs) {
    es.Cons? && (Literal(es.hd) || SomeLiteral(es.tl))
  }

  /** What can never move: it is no computation, or one that may not be repeated or left out. */
  predicate Fixed(e: Expr) {
    || !e.Node? || Literal(e) || e.op.Param?
    || (e.op.Call? && e.op.kind == Impure)
  }

  /** What folds into the instruction around it: arithmetic with a literal, a ramp of literal stride, a conversion or
      broadcast of something that is not worth a let itself. */
  predicate Cheap(e: Expr) {
    e.Node? &&
    if e.op.Ramp? then !(e.kids.Cons? && e.kids.tl.Cons? && !Literal(e.kids.tl.hd))
    else if e.op.Cast? || e.op.Broadcast? then !(e.kids.Cons? && !Fixed(e.kids.hd) && !Cheap(e.kids.hd))
    else e.op in {Add, Sub, Mul, Div} && SomeLiteral(e.kids)
  }

  predicate Worth(e: Expr, liftAll: bool) {
    !Fixed(e) && (liftAll || !Cheap(e))
  }

  lemma {:induction false} ConstIsLiteral(e: Expr)
    ensures IsConst(e) <==> Literal(e)
    decreases e
  {
    if e.Node? {
      ConstsAreLiterals(e.kids);
    }
  }

  lemma {:induction false} ConstsAreLiterals(es: Exprs)
    ensures AllConst(es) <==> OccurringAll(es) == {} && LetFreeAll(es)
                              && forall op | op in OpsAll(es) :: op.Cast? || op.Ramp? || op.Broadcast?
    ensures SomeConst(es) <==> SomeLiteral(es)
    decreases es
  {
    if es.Cons? {
      ConstIsLiteral(es.hd);
      ConstsAreLiterals(es.tl);
    }
  }

  /** should_extract accepts exactly the let-free expressions that are worth a let. */
  lemma {:induction false} ExtractIsWorth(e: Expr, liftAll: bool)
    requires LetFree(e)
    ensures ShouldExtract(e, liftAll) <==> Worth(e, liftAll)
    decreases e
  {
    ConstIsLiteral(e);
    if e.Node? {
      ConstsAreLiterals(e.kids);
      if e.kids.Cons? {
        ExtractIsWorth(e.kids.hd, false);
        if e.kids.tl.Cons? {
          ConstIsLiteral(e.kids.tl.hd);
        }
      }
    }
  }

  // ----- written once -----

  /** Whatever the input, a text that is worth a let is written at most once in all let values and the body. */
  lemma WorthIsWrittenOnce(e: Expr, liftAll: bool, nm: Names, s: Expr)
    requires FreshNames(nm, Occurring(e)) && LetFree(s) && Worth(s, liftAll) && Strip(s) == s
    ensures var lets, r := ChosenLets(e, liftAll), Canonical(e).1;
            Texts(s, Repl(r, lets, nm)) + TextsValues(s, lets, lets, nm) <= 1
  {
    ExtractIsWorth(s, liftAll);
    SharesFully(e, liftAll, nm, s);
  }

  // ----- used twice -----

  /** How often the rewritten form of `e` refers to the let of `x`. */
  function Refs(e: Expr, x: Expr, lets: seq<Expr>): nat
    decreases e, 1
  {
    if e in lets then (if e == x then 1 else 0) else RefsBody(e, x, lets)
  }

  function RefsBody(e: Expr, x: Expr, lets: seq<Expr>): nat
    decreases e, 0
  {
    match e
    case Imm(_) => 0
    case Var(_) => 0
    case Node(_, _, ks) => RefsAll(ks, x, lets)
    case Let(_, _, v, b) => Refs(v, x, lets) + Refs(b, x, lets)
  }

  function RefsAll(es: Exprs, x: Expr, lets: seq<Expr>): nat {
    match es
    case Nil => 0
    case Cons(e, rest) => Refs(e, x, lets) + RefsAll(rest, x, lets)
  }

  /** The same over the values of those lets that are in a list. */
  function RefsValues(vs: seq<Expr>, x: Expr, lets: seq<Expr>): nat {
    if vs == [] then 0
    else (if vs[0] in lets then RefsBody(vs[0], x, lets) else 0) + RefsValues(vs[1..], x, lets)
  }

  lemma {:induction false} RefsConcat(a: seq<Expr>, b: seq<Expr>, x: Expr, lets: seq<Expr>)
    ensures RefsValues(a + b, x, lets) == RefsValues(a, x, lets) + RefsValues(b, x, lets)
    decreases |a|
  {
    if a == [] {
      assert a + b == b;
    } else {
      assert (a + b)[1..] == a[1..] + b;
      RefsConcat(a[1..], b, x, lets);
    }
  }

  /** Counting follows referring: a let is counted once for every reference to it, here or in the value of a let that is
      visited for the first time. */
  ghost predicate Counted(c: Counts, c': Counts, refs: nat, x: Expr, lets: seq<Expr>, shallow: map<Expr, nat>) {
    c.visited <= c'.visited
    && Uses(c', x, shallow) == Uses(c, x, shallow) + refs + RefsValues(New(c, c'), x, lets)
  }

  lemma {:induction false} IncludeCounts(c: Counts, e: Expr, x: Expr, lets: seq<Expr>, final: seq<nat>,
                                         shallow: map<Expr, nat>, entries: seq<Expr>, liftAll: bool)
    requires CountsOk(c, shallow, entries, liftAll) && AllIn(e, entries) && x in lets && x in entries
    requires LetsAre(lets, final, shallow, entries, liftAll)
    requires AtMost(Include(c, e, shallow, liftAll).uses, final)
    ensures Counted(c, Include(c, e, shallow, liftAll), Refs(e, x, lets), x, lets, shallow)
    decreases e, 1
  {
    IncludeGrows(c, e, shallow, liftAll);
    if !ShouldExtract(e, liftAll) {
      AcceptCounts(c, e, x, lets, final, shallow, entries, liftAll);
    } else {
      var n := shallow[e];
      var c1 := c.(uses := Bump(c.uses, n));
      assert Uses(c, e, shallow) > 0 <==> e in c.visited;
      assert shallow[x] == n <==> x == e;
      assert Uses(c1, x, shallow) == Uses(c, x, shallow) + if e == x then 1 else 0;
      if e in c.visited {
        assert final[n] > 1;
        assert New(c, c1) == [];
      } else {
        var c2 := c1.(visited := c1.visited + [e]);
        BumpOk(c, e, shallow, entries, liftAll);
        AcceptCounts(c2, e, x, lets, final, shallow, entries, liftAll);
        var c3 := Accept(c2, e, shallow, liftAll);
        assert New(c, c3) == [e] + New(c2, c3);
        RefsConcat([e], New(c2, c3), x, lets);
        assert [e][1..] == [];
      }
    }
  }

  lemma {:induction false} AcceptCounts(c: Counts, e: Expr, x: Expr, lets: seq<Expr>, final: seq<nat>,
                                        shallow: map<Expr, nat>, entries: seq<Expr>, liftAll: bool)
    requires CountsOk(c, shallow, entries, liftAll) && AllIn(e, entries) && x in lets && x in entries
    requires LetsAre(lets, final, shallow, entries, liftAll)
    requires AtMost(Accept(c, e, shallow, liftAll).uses, final)
    ensures Counted(c, Accept(c, e, shallow, liftAll), RefsBody(e, x, lets), x, lets, shallow)
    decreases e, 0
  {
    if e.Node? {
      IncludeAllCounts(c, e.kids, x, lets, final, shallow, entries, liftAll);
    } else {
      assert New(c, c) == [];
    }
  }

  lemma {:induction false} IncludeAllCounts(c: Counts, es: Exprs, x: Expr, lets: seq<Expr>, final: seq<nat>,
                                            shallow: map<Expr, nat>, entries: seq<Expr>, liftAll: bool)
    requires CountsOk(c, shallow, entries, liftAll) && AllInKids(es, entries) && x in lets && x in entries
    requires LetsAre(lets, final, shallow, entries, liftAll)
    requires AtMost(IncludeAll(c, es, shallow, liftAll).uses, final)
    ensures Counted(c, IncludeAll(c, es, shallow, liftAll), RefsAll(es, x, lets), x, lets, shallow)
    decreases es
  {
    if es.Cons? {
      var c1 := Include(c, es.hd, shallow, liftAll);
      var c2 := IncludeAll(c1, es.tl, shallow, liftAll);
      IncludeGrows(c, es.hd, shallow, liftAll);
      IncludeAllGrows(c1, es.tl, shallow, liftAll);
      IncludeCounts(c, es.hd, x, lets, final, shallow, entries, liftAll);
      IncludeOk(c, es.hd, shallow, entries, liftAll);
      IncludeAllCounts(c1, es.tl, x, lets, final, shallow, entries, liftAll);
      assert New(c, c2) == New(c, c1) + New(c1, c2);
      RefsConcat(New(c, c1), New(c1, c2), x, lets);
    } else {
      assert New(c, c) == [];
    }
  }

  function SumRefs(vs: seq<Expr>, x: Expr, lets: seq<Expr>): nat {
    if vs == [] then 0 else RefsBody(vs[0], x, lets) + SumRefs(vs[1..], x, lets)
  }

  lemma {:induction false} SumRefsRemove(vs: seq<Expr>, k: nat, x: Expr, lets: seq<Expr>)
    requires k < |vs|
    ensures SumRefs(vs, x, lets) == RefsBody(vs[k], x, lets) + SumRefs(vs[..k] + vs[k + 1..], x, lets)
    decreases k
  {
    if k == 0 {
      assert vs[..0] + vs[1..] == vs[1..];
    } else {
      SumRefsRemove(vs[1..], k - 1, x, lets);
      var rest := vs[..k] + vs[k + 1..];
      assert rest[0] == vs[0] && rest[1..] == vs[1..][..k - 1] + vs[1..][k..];
    }
  }

  /** What distinct expressions refer to as lets is at most what all lets refer to. */
  lemma {:induction false} RefsAmongLets(vs: seq<Expr>, ls: seq<Expr>, x: Expr, lets: seq<Expr>)
    requires Distinct(vs) && forall e | e in vs && e in lets :: e in ls
    ensures RefsValues(vs, x, lets) <= SumRefs(ls, x, lets)
    decreases |vs|
  {
    if vs != [] {
      var v := vs[0];
      assert forall e | e in vs[1..] :: e in vs;
      if v in lets {
        assert v in vs;
        var k :| 0 <= k < |ls| && ls[k] == v;
        var rest := ls[..k] + ls[k + 1..];
        SumRefsRemove(ls, k, x, lets);
        forall e | e in vs[1..] && e in lets ensures e in rest {
          assert e in vs && e != v;
          var i :| 0 <= i < |ls| && ls[i] == e;
          assert e == if i < k then rest[i] else rest[i - 1];
        }
        RefsAmongLets(vs[1..], rest, x, lets);
      } else {
        RefsAmongLets(vs[1..], ls, x, lets);
      }
    }
  }

  /** References are occurrences of the variable of the let. */
  lemma {:induction false} RefsAreTexts(e: Expr, lets: seq<Expr>, k: nat, nm: Names, used: set<Name>)
    requires k < |lets| && Distinct(lets) && FreshNames(nm, used) && FreeVars(e) <= used && Closed(e, {})
    ensures Texts(Var(nm(k)), Repl(e, lets, nm)) == Refs(e, lets[k], lets)
    ensures Texts(Var(nm(k)), ReplBody(e, lets, nm)) == RefsBody(e, lets[k], lets)
    decreases e
  {
    if e in lets {
      IndexAt(lets, e);
      IndexDistinct(lets, k);
    }
    match e
    case Imm(_) =>
    case Var(_) =>
    case Node(_, _, ks) => RefsAreTextsAll(ks, lets, k, nm, used);
  }

  lemma {:induction false} RefsAreTextsAll(es: Exprs, lets: seq<Expr>, k: nat, nm: Names, used: set<Name>)
    requires k < |lets| && Distinct(lets) && FreshNames(nm, used) && FreeVarsAll(es) <= used && ClosedAll(es, {})
    ensures TextsAll(Var(nm(k)), ReplAll(es, lets, nm)) == RefsAll(es, lets[k], lets)
    decreases es
  {
    if es.Cons? {
      RefsAreTexts(es.hd, lets, k, nm, used);
      RefsAreTextsAll(es.tl, lets, k, nm, used);
    }
  }

  lemma {:induction false} SumRefsAreTexts(vs: seq<Expr>, lets: seq<Expr>, k: nat, nm: Names, used: set<Name>)
    requires k < |lets| && Distinct(lets) && FreshNames(nm, used)
    requires forall v | v in vs :: FreeVars(v) <= used && Closed(v, {})
    ensures TextsValues(Var(nm(k)), vs, lets, nm) == SumRefs(vs, lets[k], lets)
    decreases |vs|
  {
    if vs != [] {
      RefsAreTexts(vs[0], lets, k, nm, used);
      SumRefsAreTexts(vs[1..], lets, k, nm, used);
    }
  }

  /** Every introduced let stands for an expression that is worth it, and is used at least twice in all let values and
      the body of the result. */
  lemma LetsAreWorth(e: Expr, liftAll: bool, nm: Names, k: nat)
    requires FreshNames(nm, Occurring(e)) && k < |ChosenLets(e, liftAll)|
    ensures var lets, r := ChosenLets(e, liftAll), Canonical(e).1;
            && LetFree(lets[k]) && Worth(lets[k], liftAll)
            && Texts(Var(nm(k)), Repl(r, lets, nm)) + TextsValues(Var(nm(k)), lets, lets, nm) >= 2
  {
    var (g, r) := Canonical(e);
    var lets := ChosenLets(e, liftAll);
    var c := CountAll(g, r, liftAll);
    ChosenOrdered(e, liftAll);
    MutateVars(Begin(e), e, Occurring(e));
    EntriesLetFree(g);
    EntriesAllIn(g.entries, g.number);
    EntriesDistinct(g);
    PickedFrom(g.entries, c.uses);
    forall v | v in g.entries ensures FreeVars(v) <= Occurring(e) && Closed(v, {}) {
      var i :| 0 <= i < |g.entries| && g.entries[i] == v;
      assert Closed(g.entries[i], {});
    }
    hide *;
    LetIsWorth(g, r, liftAll, lets, nm, Occurring(e), k);
  }

  lemma {:induction false} ClosedIsLetFree(e: Expr)
    requires Closed(e, {})
    ensures LetFree(e)
  {
    if e.Node? {
      ClosedAreLetFree(e.kids);
    }
  }

  lemma {:induction false} ClosedAreLetFree(es: Exprs)
    requires ClosedAll(es, {})
    ensures LetFreeAll(es)
  {
    if es.Cons? {
      ClosedIsLetFree(es.hd);
      ClosedAreLetFree(es.tl);
    }
  }

  lemma LetIsWorth(g: State, r: Expr, liftAll: bool, lets: seq<Expr>, nm: Names, used: set<Name>, k: nat)
    requires Shaped(g) && AllIn(r, g.entries) && FreshNames(nm, used) && Distinct(g.entries)
    requires forall v | v in g.entries :: FreeVars(v) <= used && Closed(v, {})
    requires lets == Pick(g.entries, CountAll(g, r, liftAll).uses) && Distinct(lets) && k < |lets|
    ensures LetFree(lets[k]) && Worth(lets[k], liftAll)
    ensures Texts(Var(nm(k)), Repl(r, lets, nm)) + TextsValues(Var(nm(k)), lets, lets, nm) >= 2
  {
    var c0 := Counts([], seq(|g.entries|, i => 0));
    var c := CountAll(g, r, liftAll);
    var x := lets[k];
    assert CountsOk(c0, g.shallow, g.entries, liftAll);
    IncludeOk(c0, r, g.shallow, g.entries, liftAll);
    LetsAreUsed(g, c, lets, liftAll);
    assert x in lets && x in g.entries && ShouldExtract(x, liftAll);
    ClosedIsLetFree(x);
    ExtractIsWorth(x, liftAll);
    assert Uses(c, x, g.shallow) > 1 && Uses(c0, x, g.shallow) == 0;
    IncludeCounts(c0, r, x, lets, c.uses, g.shallow, g.entries, liftAll);
    assert New(c0, c) == c.visited;
    RefsAmongLets(c.visited, lets, x, lets);
    RefsAreTexts(r, lets, k, nm, used);
    SumRefsAreTexts(lets, lets, k, nm, used);
  }
}
