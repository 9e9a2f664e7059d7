/** Common subexpression elimination shares fully: what is worth a let is written at most once in the
    whole result. */
module CseShare {
  import opened VarNames
  import opened CseIR
  import opened CseGVN
  import opened CseSound
  import opened CseLets

  // ----- canonical expressions -----

  /** An expression whose every part is one of the entries. */
  predicate AllIn(e: Expr, entries: seq<Expr>) {
    e in entries && !e.Let? && (e.Node? ==> AllInKids(e.kids, entries))
  }

  predicate AllInKids(es: Exprs, entries: seq<Expr>) {
    es.Cons? ==> AllIn(es.hd, entries) && AllInKids(es.tl, entries)
  }

  lemma {:induction false} EntriesAllIn(entries: seq<Expr>, k: nat)
    requires Ordered(entries) && k < |entries| && forall i | 0 <= i < |entries| :: !entries[i].Let?
    ensures AllIn(entries[k], entries)
    decreases k, 1
  {
    if entries[k].Node? {
      KidsAllIn(entries[k].kids, entries, k);
    }
  }

  lemma {:induction false} KidsAllIn(es: Exprs, entries: seq<Expr>, k: nat)
    requires Ordered(entries) && k <= |entries| && forall i | 0 <= i < |entries| :: !entries[i].Let?
    requires KidsAmong(es, entries[..k])
    ensures AllInKids(es, entries)
    decreases k, 0, es
  {
    if es.Cons? {
      var i :| 0 <= i < k && entries[i] == es.hd;
      EntriesAllIn(entries, i);
      KidsAllIn(es.tl, entries, k);
    }
  }

  /** The numbering of the entries: what the use counts are kept by. */
  ghost predicate Numbered(shallow: map<Expr, nat>, entries: seq<Expr>) {
    forall i | 0 <= i < |entries| :: entries[i] in shallow && shallow[entries[i]] == i
  }

  // ----- counting -----

  predicate AtMost(a: seq<nat>, b: seq<nat>) {
    |a| == |b| && forall i | 0 <= i < |a| :: a[i] <= b[i]
  }

  function Uses(c: Counts, e: Expr, shallow: map<Expr, nat>): nat {
    if e in shallow && shallow[e] < |c.uses| then c.uses[shallow[e]] else 0
  }

  lemma {:induction false} IncludeGrows(c: Counts, e: Expr, shallow: map<Expr, nat>, liftAll: bool)
    ensures AtMost(c.uses, Include(c, e, shallow, liftAll).uses)
    ensures c.visited <= Include(c, e, shallow, liftAll).visited
    decreases e, 1
  {
    if !ShouldExtract(e, liftAll) {
      AcceptGrows(c, e, shallow, liftAll);
    } else {
      var c1 := if e in shallow then c.(uses := Bump(c.uses, shallow[e])) else c;
      if e !in c1.visited {
        AcceptGrows(c1.(visited := c1.visited + [e]), e, shallow, liftAll);
      }
    }
  }

  lemma {:induction false} AcceptGrows(c: Counts, e: Expr, shallow: map<Expr, nat>, liftAll: bool)
    ensures AtMost(c.uses, Accept(c, e, shallow, liftAll).uses)
    ensures c.visited <= Accept(c, e, shallow, liftAll).visited
    decreases e, 0
  {
    match e
    case Imm(_) =>
    case Var(_) =>
    case Node(_, _, ks) => IncludeAllGrows(c, ks, shallow, liftAll);
    case Let(_, _, x, b) =>
      IncludeGrows(c, x, shallow, liftAll);
      IncludeGrows(Include(c, x, shallow, liftAll), b, shallow, liftAll);
  }

  lemma {:induction false} IncludeAllGrows(c: Counts, es: Exprs, shallow: map<Expr, nat>, liftAll: bool)
    ensures AtMost(c.uses, IncludeAll(c, es, shallow, liftAll).uses)
    ensures c.visited <= IncludeAll(c, es, shallow, liftAll).visited
    decreases es
  {
    if es.Cons? {
      IncludeGrows(c, es.hd, shallow, liftAll);
      IncludeAllGrows(Include(c, es.hd, shallow, liftAll), es.tl, shallow, liftAll);
    }
  }

  /** Visited are exactly the extractable entries that were included, none twice. */
  ghost predicate CountsOk(c: Counts, shallow: map<Expr, nat>, entries: seq<Expr>, liftAll: bool) {
    && |c.uses| == |entries|
    && Distinct(c.visited)
    && (forall e | e in c.visited :: e in entries && ShouldExtract(e, liftAll))
    && (forall e | e in entries :: Uses(c, e, shallow) > 0 <==> e in c.visited)
  }

  lemma {:induction false} IncludeOk(c: Counts, e: Expr, shallow: map<Expr, nat>, entries: seq<Expr>, liftAll: bool)
    requires CountsOk(c, shallow, entries, liftAll) && Numbered(shallow, entries) && AllIn(e, entries)
    ensures CountsOk(Include(c, e, shallow, liftAll), shallow, entries, liftAll)
    decreases e, 1
  {
    if !ShouldExtract(e, liftAll) {
      AcceptOk(c, e, shallow, entries, liftAll);
    } else {
      var c1 := c.(uses := Bump(c.uses, shallow[e]));
      BumpOk(c, e, shallow, entries, liftAll);
      if e !in c.visited {
        AcceptOk(c1.(visited := c1.visited + [e]), e, shallow, entries, liftAll);
      }
    }
  }

  lemma BumpOk(c: Counts, e: Expr, shallow: map<Expr, nat>, entries: seq<Expr>, liftAll: bool)
    requires CountsOk(c, shallow, entries, liftAll) && Numbered(shallow, entries)
    requires e in entries && ShouldExtract(e, liftAll)
    ensures var c1 := c.(uses := Bump(c.uses, shallow[e]));
            CountsOk(if e in c.visited then c1 else c1.(visited := c1.visited + [e]), shallow, entries, liftAll)
  {
    var c1 := c.(uses := Bump(c.uses, shallow[e]));
    var c2 := if e in c.visited then c1 else c1.(visited := c1.visited + [e]);
    forall x | x in entries ensures Uses(c2, x, shallow) > 0 <==> x in c2.visited {
      assert Uses(c, x, shallow) > 0 <==> x in c.visited;
      assert x == e <==> shallow[x] == shallow[e];
      assert x in c2.visited <==> x in c.visited || x == e;
    }
  }

  lemma {:induction false} AcceptOk(c: Counts, e: Expr, shallow: map<Expr, nat>, entries: seq<Expr>, liftAll: bool)
    requires CountsOk(c, shallow, entries, liftAll) && Numbered(shallow, entries) && AllIn(e, entries)
    ensures CountsOk(Accept(c, e, shallow, liftAll), shallow, entries, liftAll)
    decreases e, 0
  {
    if e.Node? {
      IncludeAllOk(c, e.kids, shallow, entries, liftAll);
    }
  }

  lemma {:induction false} IncludeAllOk(c: Counts, es: Exprs, shallow: map<Expr, nat>, entries: seq<Expr>,
                                        liftAll: bool)
    requires CountsOk(c, shallow, entries, liftAll) && Numbered(shallow, entries) && AllInKids(es, entries)
    ensures CountsOk(IncludeAll(c, es, shallow, liftAll), shallow, entries, liftAll)
    decreases es
  {
    if es.Cons? {
      IncludeOk(c, es.hd, shallow, entries, liftAll);
      IncludeAllOk(Include(c, es.hd, shallow, liftAll), es.tl, shallow, entries, liftAll);
    }
  }

  // ----- what is written -----

  /** How often the text of `x` is written in the rewritten form of `e`: lets are written as variables. */
  function Written(e: Expr, x: Expr, lets: seq<Expr>): nat
    decreases e, 1
  {
    if e in lets then 0 else WrittenBody(e, x, lets)
  }

  function WrittenBody(e: Expr, x: Expr, lets: seq<Expr>): nat
    decreases e, 0
  {
    (if e == x then 1 else 0) +
    match e
    case Imm(_) => 0
    case Var(_) => 0
    case Node(_, _, ks) => WrittenAll(ks, x, lets)
    case Let(_, _, v, b) => Written(v, x, lets) + Written(b, x, lets)
  }

  function WrittenAll(es: Exprs, x: Expr, lets: seq<Expr>): nat {
    match es
    case Nil => 0
    case Cons(e, rest) => Written(e, x, lets) + WrittenAll(rest, x, lets)
  }

  /** The same over the values of those lets that are in a list. */
  function WrittenValues(vs: seq<Expr>, x: Expr, lets: seq<Expr>): nat {
    if vs == [] then 0
    else (if vs[0] in lets then WrittenBody(vs[0], x, lets) else 0) + WrittenValues(vs[1..], x, lets)
  }

  function Occurs(vs: seq<Expr>, x: Expr): nat {
    if vs == [] then 0 else (if vs[0] == x then 1 else 0) + Occurs(vs[1..], x)
  }

  lemma {:induction false} ValuesConcat(a: seq<Expr>, b: seq<Expr>, x: Expr, lets: seq<Expr>)
    ensures WrittenValues(a + b, x, lets) == WrittenValues(a, x, lets) + WrittenValues(b, x, lets)
    ensures Occurs(a + b, x) == Occurs(a, x) + Occurs(b, x)
    decreases |a|
  {
    if a == [] {
      assert a + b == b;
    } else {
      assert (a + b)[1..] == a[1..] + b;
      ValuesConcat(a[1..], b, x, lets);
    }
  }

  function New(c: Counts, c': Counts): seq<Expr>
    requires c.visited <= c'.visited
  {
    c'.visited[|c.visited|..]
  }

  /** The extractable entries with more than one use are the lets. */
  ghost predicate LetsAre(lets: seq<Expr>, final: seq<nat>, shallow: map<Expr, nat>, entries: seq<Expr>,
                          liftAll: bool) {
    && |final| == |entries|
    && Numbered(shallow, entries)
    && forall e | e in entries :: e in lets <==> (ShouldExtract(e, liftAll) && final[shallow[e]] > 1)
  }

  /** Writing follows counting: what including an expression visits for the first time is what its
      rewritten form writes, here or in the value of a let. */
  ghost predicate Balanced(w: nat, fresh1: seq<Expr>, x: Expr, lets: seq<Expr>) {
    w + WrittenValues(fresh1, x, lets) == Occurs(fresh1, x)
  }

  lemma {:induction false} IncludeBalanced(c: Counts, e: Expr, x: Expr, lets: seq<Expr>, final: seq<nat>,
                                           shallow: map<Expr, nat>, entries: seq<Expr>, liftAll: bool)
    requires CountsOk(c, shallow, entries, liftAll) && AllIn(e, entries) && ShouldExtract(x, liftAll)
    requires LetsAre(lets, final, shallow, entries, liftAll)
    requires AtMost(Include(c, e, shallow, liftAll).uses, final)
    ensures c.visited <= Include(c, e, shallow, liftAll).visited
    ensures Balanced(Written(e, x, lets), New(c, Include(c, e, shallow, liftAll)), x, lets)
    decreases e, 1
  {
    IncludeGrows(c, e, shallow, liftAll);
    if !ShouldExtract(e, liftAll) {
      AcceptBalanced(c, e, x, lets, final, shallow, entries, liftAll);
    } else {
      var n := shallow[e];
      var c1 := c.(uses := Bump(c.uses, n));
      assert Uses(c, e, shallow) > 0 <==> e in c.visited;
      if e in c.visited {
        assert final[n] > 1;
        assert New(c, c1) == [];
      } else {
        var c2 := c1.(visited := c1.visited + [e]);
        BumpOk(c, e, shallow, entries, liftAll);
        AcceptBalanced(c2, e, x, lets, final, shallow, entries, liftAll);
        AcceptGrows(c2, e, shallow, liftAll);
        FirstVisit(c, c2, Accept(c2, e, shallow, liftAll), e, x, lets);
      }
    }
  }

  /** Going into a node for the first time: the node itself, then what its children add. */
  lemma FirstVisit(c: Counts, c2: Counts, c3: Counts, e: Expr, x: Expr, lets: seq<Expr>)
    requires c2.visited == c.visited + [e] && c2.visited <= c3.visited
    requires Balanced(KidsWritten(e, x, lets), New(c2, c3), x, lets)
    ensures Balanced(Written(e, x, lets), New(c, c3), x, lets)
  {
    assert New(c, c3) == [e] + New(c2, c3);
    assert ([e] + New(c2, c3))[1..] == New(c2, c3);
  }

  function KidsWritten(e: Expr, x: Expr, lets: seq<Expr>): nat {
    match e
    case Imm(_) => 0
    case Var(_) => 0
    case Node(_, _, ks) => WrittenAll(ks, x, lets)
    case Let(_, _, v, b) => Written(v, x, lets) + Written(b, x, lets)
  }

  lemma {:induction false} AcceptBalanced(c: Counts, e: Expr, x: Expr, lets: seq<Expr>, final: seq<nat>,
                                          shallow: map<Expr, nat>, entries: seq<Expr>, liftAll: bool)
    requires CountsOk(c, shallow, entries, liftAll) && AllIn(e, entries) && ShouldExtract(x, liftAll)
    requires LetsAre(lets, final, shallow, entries, liftAll)
    requires AtMost(Accept(c, e, shallow, liftAll).uses, final)
    ensures c.visited <= Accept(c, e, shallow, liftAll).visited
    ensures Balanced(KidsWritten(e, x, lets), New(c, Accept(c, e, shallow, liftAll)), x, lets)
    decreases e, 0
  {
    AcceptGrows(c, e, shallow, liftAll);
    if e.Node? {
      IncludeAllBalanced(c, e.kids, x, lets, final, shallow, entries, liftAll);
    } else {
      assert New(c, c) == [];
    }
  }

  lemma {:induction false} IncludeAllBalanced(c: Counts, es: Exprs, x: Expr, lets: seq<Expr>, final: seq<nat>,
                                              shallow: map<Expr, nat>, entries: seq<Expr>, liftAll: bool)
    requires CountsOk(c, shallow, entries, liftAll) && AllInKids(es, entries) && ShouldExtract(x, liftAll)
    requires LetsAre(lets, final, shallow, entries, liftAll)
    requires AtMost(IncludeAll(c, es, shallow, liftAll).uses, final)
    ensures c.visited <= IncludeAll(c, es, shallow, liftAll).visited
    ensures Balanced(WrittenAll(es, x, lets), New(c, IncludeAll(c, es, shallow, liftAll)), x, lets)
    decreases es
  {
    IncludeAllGrows(c, es, shallow, liftAll);
    if es.Cons? {
      var c1 := Include(c, es.hd, shallow, liftAll);
      var c2 := IncludeAll(c1, es.tl, shallow, liftAll);
      IncludeGrows(c, es.hd, shallow, liftAll);
      IncludeAllGrows(c1, es.tl, shallow, liftAll);
      IncludeBalanced(c, es.hd, x, lets, final, shallow, entries, liftAll);
      IncludeOk(c, es.hd, shallow, entries, liftAll);
      IncludeAllBalanced(c1, es.tl, x, lets, final, shallow, entries, liftAll);
      assert New(c, c2) == New(c, c1) + New(c1, c2);
      ValuesConcat(New(c, c1), New(c1, c2), x, lets);
    } else {
      assert New(c, c) == [];
    }
  }

  // ----- sums over the lets do not depend on their order -----

  function SumBodies(vs: seq<Expr>, x: Expr, lets: seq<Expr>): nat {
    if vs == [] then 0 else WrittenBody(vs[0], x, lets) + SumBodies(vs[1..], x, lets)
  }

  lemma {:induction false} SumRemove(vs: seq<Expr>, k: nat, x: Expr, lets: seq<Expr>)
    requires k < |vs|
    ensures SumBodies(vs, x, lets) == WrittenBody(vs[k], x, lets) + SumBodies(vs[..k] + vs[k + 1..], x, lets)
    decreases k
  {
    if k == 0 {
      assert vs[..0] + vs[1..] == vs[1..];
    } else {
      SumRemove(vs[1..], k - 1, x, lets);
      var rest := vs[..k] + vs[k + 1..];
      assert rest[0] == vs[0] && rest[1..] == vs[1..][..k - 1] + vs[1..][k..];
    }
  }

  lemma HasElement(ls: seq<Expr>)
    requires ls != []
    ensures exists e :: e in ls
  {
    assert ls[0] in ls;
  }

  /** The lets among some distinct expressions, when these are all the lets there are. */
  lemma {:induction false} SameSum(vs: seq<Expr>, ls: seq<Expr>, x: Expr, lets: seq<Expr>)
    requires Distinct(vs) && Distinct(ls)
    requires forall e | e in ls :: e in lets && e in vs
    requires forall e | e in vs && e in lets :: e in ls
    ensures WrittenValues(vs, x, lets) == SumBodies(ls, x, lets)
    decreases |vs|
  {
    if vs == [] {
      if ls != [] {
        HasElement(ls);
      }
    } else {
      var v := vs[0];
      assert v in vs && v !in vs[1..];
      assert forall e | e in vs[1..] :: e in vs;
      if v in lets {
        var k :| 0 <= k < |ls| && ls[k] == v;
        var rest := ls[..k] + ls[k + 1..];
        SumRemove(ls, k, x, lets);
        forall e | e in rest ensures e in ls && e != v {
        }
        forall e | e in ls && e != v ensures e in rest {
          var i :| 0 <= i < |ls| && ls[i] == e;
          assert e == if i < k then rest[i] else rest[i - 1];
        }
        SameSum(vs[1..], rest, x, lets);
      } else {
        SameSum(vs[1..], ls, x, lets);
      }
    }
  }

  lemma {:induction false} OccursOnce(vs: seq<Expr>, x: Expr)
    requires Distinct(vs)
    ensures Occurs(vs, x) == if x in vs then 1 else 0
    decreases |vs|
  {
    if vs != [] {
      OccursOnce(vs[1..], x);
      assert vs[0] !in vs[1..];
    }
  }

  /** Every extractable entry is written exactly once in the body and the let values together, if it is
      part of the canonical form at all. */
  lemma WrittenOnce(g: State, r: Expr, x: Expr, liftAll: bool)
    requires Shaped(g) && AllIn(r, g.entries) && x in g.entries && ShouldExtract(x, liftAll)
    ensures var c := CountAll(g, r, liftAll);
            var lets := Pick(g.entries, c.uses);
            Written(r, x, lets) + SumBodies(lets, x, lets) == if x in c.visited then 1 else 0
  {
    var c0 := Counts([], seq(|g.entries|, i => 0));
    var c := CountAll(g, r, liftAll);
    var lets := Pick(g.entries, c.uses);
    assert CountsOk(c0, g.shallow, g.entries, liftAll);
    IncludeOk(c0, r, g.shallow, g.entries, liftAll);
    EntriesDistinct(g);
    PickedFrom(g.entries, c.uses);
    LetsAreUsed(g, c, lets, liftAll);
    IncludeBalanced(c0, r, x, lets, c.uses, g.shallow, g.entries, liftAll);
    assert New(c0, c) == c.visited;
    SameSum(c.visited, lets, x, lets);
    OccursOnce(c.visited, x);
  }

  lemma LetsAreUsed(g: State, c: Counts, lets: seq<Expr>, liftAll: bool)
    requires Valid(g) && Numbered(g.shallow, g.entries) && Distinct(g.entries)
    requires CountsOk(c, g.shallow, g.entries, liftAll) && lets == Pick(g.entries, c.uses)
    ensures LetsAre(lets, c.uses, g.shallow, g.entries, liftAll)
    ensures forall e | e in lets :: e in g.entries && e in c.visited && ShouldExtract(e, liftAll)
  {
    PickedFrom(g.entries, c.uses);
    forall e | e in g.entries
      ensures e in lets <==> (ShouldExtract(e, liftAll) && c.uses[g.shallow[e]] > 1)
      ensures e in lets ==> e in c.visited && ShouldExtract(e, liftAll)
    {
      var i :| 0 <= i < |g.entries| && g.entries[i] == e;
      assert Uses(c, e, g.shallow) == c.uses[i];
    }
  }

  // ----- from canonical objects to the text of the result -----

  /** How often a text, tags aside, occurs in an expression. */
  function Texts(s: Expr, t: Expr): nat {
    (if Strip(t) == s then 1 else 0) +
    match t
    case Imm(_) => 0
    case Var(_) => 0
    case Node(_, _, ks) => TextsAll(s, ks)
    case Let(_, _, x, b) => Texts(s, x) + Texts(s, b)
  }

  function TextsAll(s: Expr, ts: Exprs): nat {
    match ts
    case Nil => 0
    case Cons(t, rest) => Texts(s, t) + TextsAll(s, rest)
  }

  function TextsValues(s: Expr, vs: seq<Expr>, lets: seq<Expr>, nm: Names): nat {
    if vs == [] then 0 else Texts(s, ReplBody(vs[0], lets, nm)) + TextsValues(s, vs[1..], lets, nm)
  }

  /** Undo the rewriting. */
  function Unname(lets: seq<Expr>, n: nat, nm: Names): Subst
    requires n <= |lets|
  {
    if n == 0 then map[] else Unname(lets, n - 1, nm)[nm(n - 1) := Strip(lets[n - 1])]
  }

  lemma {:induction false} UnnameAt(lets: seq<Expr>, n: nat, nm: Names, used: set<Name>)
    requires n <= |lets| && FreshNames(nm, used)
    ensures forall k: nat | k < n :: nm(k) in Unname(lets, n, nm) && Unname(lets, n, nm)[nm(k)] == Strip(lets[k])
    ensures Unname(lets, n, nm).Keys !! used
    decreases n
  {
    if n > 0 {
      UnnameAt(lets, n - 1, nm, used);
    }
  }

  lemma {:induction false} Unrewrite(e: Expr, lets: seq<Expr>, nm: Names, names: set<Name>, used: set<Name>)
    requires FreshNames(nm, used) && Closed(e, names) && FreeVars(e) <= used
    ensures var th := Unname(lets, |lets|, nm);
            && Expand(ReplBody(e, lets, nm), th) == Strip(e)
            && Expand(Repl(e, lets, nm), th) == Strip(e)
    decreases e
  {
    UnnameAt(lets, |lets|, nm, used);
    if e in lets {
      IndexAt(lets, e);
    }
    match e
    case Imm(_) =>
    case Var(_) =>
    case Node(_, _, ks) => UnrewriteAll(ks, lets, nm, names, used);
  }

  lemma {:induction false} UnrewriteAll(es: Exprs, lets: seq<Expr>, nm: Names, names: set<Name>, used: set<Name>)
    requires FreshNames(nm, used) && ClosedAll(es, names) && FreeVarsAll(es) <= used
    ensures ExpandAll(ReplAll(es, lets, nm), Unname(lets, |lets|, nm)) == StripAll(es)
    decreases es
  {
    if es.Cons? {
      Unrewrite(es.hd, lets, nm, names, used);
      UnrewriteAll(es.tl, lets, nm, names, used);
    }
  }

  /** Different entries have different texts, rewritten or not. */
  lemma TextsDiffer(g: State, x: Expr, y: Expr, lets: seq<Expr>, nm: Names, used: set<Name>)
    requires Shaped(g) && EntryVars(g, used) && FreshNames(nm, used)
    requires x in g.entries && y in g.entries
    requires Strip(ReplBody(x, lets, nm)) == Strip(ReplBody(y, lets, nm))
    ensures x == y
  {
    var i :| 0 <= i < |g.entries| && g.entries[i] == x;
    var j :| 0 <= j < |g.entries| && g.entries[j] == y;
    assert Closed(g.entries[i], {}) && Closed(g.entries[j], {});
    Unrewrite(x, lets, nm, {}, used);
    Unrewrite(y, lets, nm, {}, used);
    ExpandStrip(ReplBody(x, lets, nm), Unname(lets, |lets|, nm));
    ExpandStrip(ReplBody(y, lets, nm), Unname(lets, |lets|, nm));
    assert g.numbering[Strip(g.entries[i])] == i && g.numbering[Strip(g.entries[j])] == j;
  }

  /** Rewriting leaves constants alone and makes nothing extractable that was not. */
  lemma {:induction false} ReplConst(e: Expr, lets: seq<Expr>, nm: Names)
    requires forall x | x in lets :: !IsConst(x)
    ensures IsConst(ReplBody(e, lets, nm)) == IsConst(Repl(e, lets, nm)) == IsConst(e)
    decreases e
  {
    if e.Node? {
      ReplConsts(e.kids, lets, nm);
    }
  }

  lemma {:induction false} ReplConsts(es: Exprs, lets: seq<Expr>, nm: Names)
    requires forall x | x in lets :: !IsConst(x)
    ensures AllConst(ReplAll(es, lets, nm)) == AllConst(es) && SomeConst(ReplAll(es, lets, nm)) == SomeConst(es)
    decreases es
  {
    if es.Cons? {
      ReplConst(es.hd, lets, nm);
      ReplConsts(es.tl, lets, nm);
    }
  }

  lemma {:induction false} ReplExtract(e: Expr, lets: seq<Expr>, nm: Names, liftAll: bool)
    requires forall x | x in lets :: !IsConst(x)
    ensures ShouldExtract(ReplBody(e, lets, nm), liftAll) ==> ShouldExtract(e, liftAll)
    decreases e
  {
    ReplConst(e, lets, nm);
    if e.Node? {
      ReplConsts(e.kids, lets, nm);
      if e.kids.Cons? {
        ReplExtract(e.kids.hd, lets, nm, false);
        assert ReplBody(e, lets, nm).kids.hd == Repl(e.kids.hd, lets, nm);
        var k := Repl(e.kids.hd, lets, nm);
        assert e.kids.hd in lets ==> k.Var? && !ShouldExtract(k, false);
        assert ShouldExtract(k, false) ==> ShouldExtract(e.kids.hd, false);
        if e.kids.tl.Cons? {
          ReplConst(e.kids.tl.hd, lets, nm);
        }
      }
    }
  }

  /** The setting of the last step: `s` is an extractable text, `xs` the entry it belongs to, if any. */
  ghost predicate TextOf(s: Expr, g: State, lets: seq<Expr>, nm: Names, x: Expr) {
    forall y | y in g.entries :: Strip(ReplBody(y, lets, nm)) == s <==> y == x
  }

  ghost predicate TextOfNone(s: Expr, g: State, lets: seq<Expr>, nm: Names) {
    forall y | y in g.entries :: Strip(ReplBody(y, lets, nm)) != s
  }

  lemma {:induction false} TextsAreWritten(e: Expr, s: Expr, x: Expr, g: State, lets: seq<Expr>, nm: Names)
    requires AllIn(e, g.entries) && !s.Var? && TextOf(s, g, lets, nm, x)
    ensures Texts(s, Repl(e, lets, nm)) == Written(e, x, lets)
    ensures Texts(s, ReplBody(e, lets, nm)) == WrittenBody(e, x, lets)
    decreases e
  {
    match e
    case Imm(_) =>
    case Var(_) =>
    case Node(_, _, ks) => TextsAreWrittenAll(ks, s, x, g, lets, nm);
  }

  lemma {:induction false} TextsAreWrittenAll(es: Exprs, s: Expr, x: Expr, g: State, lets: seq<Expr>, nm: Names)
    requires AllInKids(es, g.entries) && !s.Var? && TextOf(s, g, lets, nm, x)
    ensures TextsAll(s, ReplAll(es, lets, nm)) == WrittenAll(es, x, lets)
    decreases es
  {
    if es.Cons? {
      TextsAreWritten(es.hd, s, x, g, lets, nm);
      TextsAreWrittenAll(es.tl, s, x, g, lets, nm);
    }
  }

  lemma {:induction false} TextsAbsent(e: Expr, s: Expr, g: State, lets: seq<Expr>, nm: Names)
    requires AllIn(e, g.entries) && !s.Var? && TextOfNone(s, g, lets, nm)
    ensures Texts(s, Repl(e, lets, nm)) == 0 && Texts(s, ReplBody(e, lets, nm)) == 0
    decreases e
  {
    match e
    case Imm(_) =>
    case Var(_) =>
    case Node(_, _, ks) => TextsAbsentAll(ks, s, g, lets, nm);
  }

  lemma {:induction false} TextsAbsentAll(es: Exprs, s: Expr, g: State, lets: seq<Expr>, nm: Names)
    requires AllInKids(es, g.entries) && !s.Var? && TextOfNone(s, g, lets, nm)
    ensures TextsAll(s, ReplAll(es, lets, nm)) == 0
    decreases es
  {
    if es.Cons? {
      TextsAbsent(es.hd, s, g, lets, nm);
      TextsAbsentAll(es.tl, s, g, lets, nm);
    }
  }

  lemma {:induction false} ValuesAreWritten(vs: seq<Expr>, s: Expr, x: Expr, g: State, lets: seq<Expr>, nm: Names)
    requires !s.Var? && TextOf(s, g, lets, nm, x) && forall v | v in vs :: AllIn(v, g.entries)
    ensures TextsValues(s, vs, lets, nm) == SumBodies(vs, x, lets)
    decreases |vs|
  {
    if vs != [] {
      TextsAreWritten(vs[0], s, x, g, lets, nm);
      ValuesAreWritten(vs[1..], s, x, g, lets, nm);
    }
  }

  lemma {:induction false} ValuesAbsent(vs: seq<Expr>, s: Expr, g: State, lets: seq<Expr>, nm: Names)
    requires !s.Var? && TextOfNone(s, g, lets, nm) && forall v | v in vs :: AllIn(v, g.entries)
    ensures TextsValues(s, vs, lets, nm) == 0
    decreases |vs|
  {
    if vs != [] {
      TextsAbsent(vs[0], s, g, lets, nm);
      ValuesAbsent(vs[1..], s, g, lets, nm);
    }
  }

  /** What should_extract accepts is written at most once in all let values and the body of the result,
      whatever the input. */
  lemma SharesFully(e: Expr, liftAll: bool, nm: Names, s: Expr)
    requires FreshNames(nm, Occurring(e))
    requires ShouldExtract(s, liftAll) && Strip(s) == s
    ensures var lets, r := ChosenLets(e, liftAll), Canonical(e).1;
            Texts(s, Repl(r, lets, nm)) + TextsValues(s, lets, lets, nm) <= 1
  {
    var (g, r) := Canonical(e);
    var lets := ChosenLets(e, liftAll);
    ChosenOrdered(e, liftAll);
    MutateVars(Begin(e), e, Occurring(e));
    EntriesLetFree(g);
    EntriesAllIn(g.entries, g.number);
    forall v | v in lets ensures AllIn(v, g.entries) {
      var k :| 0 <= k < |lets| && lets[k] == v;
      var i :| 0 <= i < |g.entries| && g.entries[i] == v;
      EntriesAllIn(g.entries, i);
    }
    if TextOfNone(s, g, lets, nm) {
      TextsAbsent(r, s, g, lets, nm);
      ValuesAbsent(lets, s, g, lets, nm);
    } else {
      var x :| x in g.entries && Strip(ReplBody(x, lets, nm)) == s;
      forall y | y in g.entries && Strip(ReplBody(y, lets, nm)) == s ensures y == x {
        TextsDiffer(g, x, y, lets, nm, Occurring(e));
      }
      TextsAreWritten(r, s, x, g, lets, nm);
      ValuesAreWritten(lets, s, x, g, lets, nm);
      ExtractableText(g, r, x, s, lets, nm, liftAll);
      WrittenOnce(g, r, x, liftAll);
    }
  }

  lemma ExtractableText(g: State, r: Expr, x: Expr, s: Expr, lets: seq<Expr>, nm: Names, liftAll: bool)
    requires Shaped(g) && AllIn(r, g.entries) && lets == Pick(g.entries, CountAll(g, r, liftAll).uses)
    requires Strip(ReplBody(x, lets, nm)) == s && ShouldExtract(s, liftAll)
    ensures ShouldExtract(x, liftAll)
  {
    var c0 := Counts([], seq(|g.entries|, i => 0));
    assert CountsOk(c0, g.shallow, g.entries, liftAll);
    IncludeOk(c0, r, g.shallow, g.entries, liftAll);
    EntriesDistinct(g);
    LetsAreUsed(g, CountAll(g, r, liftAll), lets, liftAll);
    StripExtract(ReplBody(x, lets, nm), liftAll);
    ReplExtract(x, lets, nm, liftAll);
  }
}
