/** Global value numbering (CSE.cpp, class GVN): every distinct expression of the let-free form gets one
    number and one representative. */
module CseGVN {
  import opened VarNames
  import opened CseIR

  /** The state of the numbering. `shallow` is keyed by objects, `numbering` by deep equality; `lets` is
      the scope of let variables, innermost last; `nextTag` tags the next node that is built. */
  datatype State = State(entries: seq<Expr>, numbering: map<Expr, nat>, shallow: map<Expr, nat>,
                         lets: seq<(Name, nat)>, number: nat, nextTag: nat)

  predicate InScope(lets: seq<(Name, nat)>, v: Name) {
    lets != [] && (lets[|lets| - 1].0 == v || InScope(lets[..|lets| - 1], v))
  }

  function Number(lets: seq<(Name, nat)>, v: Name): nat
    requires InScope(lets, v)
  {
    if lets[|lets| - 1].0 == v then lets[|lets| - 1].1 else Number(lets[..|lets| - 1], v)
  }

  /** Numbers in use are numbers of entries, and every entry is numbered. */
  predicate Valid(g: State) {
    && (forall p | p in g.shallow :: g.shallow[p] < |g.entries|)
    && (forall k | k in g.numbering :: g.numbering[k] < |g.entries|)
    && (forall i | 0 <= i < |g.lets| :: g.lets[i].1 < |g.entries|)
    && (forall i | 0 <= i < |g.entries| :: Strip(g.entries[i]) in g.numbering)
  }

  lemma {:induction false} NumberValid(lets: seq<(Name, nat)>, v: Name, n: nat)
    requires InScope(lets, v) && forall i | 0 <= i < |lets| :: lets[i].1 < n
    ensures Number(lets, v) < n
    decreases |lets|
  {
    if lets[|lets| - 1].0 != v {
      NumberValid(lets[..|lets| - 1], v, n);
    }
  }

  /** What every visit does to the state: entries are only added, the scope is put back, and the
      number it leaves is the number of what it returns. */
  predicate Extends(g: State, g': State, r: Expr) {
    && Valid(g')
    && g.entries <= g'.entries
    && g'.lets == g.lets
    && g'.number < |g'.entries| && g'.entries[g'.number] == r
  }

  /** GVN::mutate. */
  function Mutate(g: State, e: Expr): (res: (State, Expr))
    requires Valid(g)
    ensures Extends(g, res.0, res.1)
    decreases e, 1
  {
    if e in g.shallow then
      (g.(number := g.shallow[e]), g.entries[g.shallow[e]])
    else if e.Var? && InScope(g.lets, e.name) then
      NumberValid(g.lets, e.name, |g.entries|);
      var n := Number(g.lets, e.name);
      (g.(number := n), g.entries[n])
    else if Strip(e) in g.numbering then
      var n := g.numbering[Strip(e)];
      (g.(number := n, shallow := g.shallow[e := n]), g.entries[n])
    else
      var (g1, e1) := Rebuild(g, e);
      if Strip(e1) in g1.numbering then
        var n := g1.numbering[Strip(e1)];
        (g1.(number := n, shallow := g1.shallow[e := n]), g1.entries[n])
      else
        (AddEntry(g1, e1), e1)
  }

  function AddEntry(g: State, e: Expr): (g': State)
    requires Valid(g)
    ensures Extends(g, g', e)
  {
    var n := |g.entries|;
    g.(entries := g.entries + [e], number := n, numbering := g.numbering[Strip(e) := n], shallow := g.shallow[e := n])
  }

  /** IRMutator::mutate: the same object when no child changed, a new one otherwise; a let disappears. */
  function Rebuild(g: State, e: Expr): (res: (State, Expr))
    requires Valid(g)
    ensures Valid(res.0) && g.entries <= res.0.entries && res.0.lets == g.lets
    decreases e, 0
  {
    match e
    case Imm(_) => (g, e)
    case Var(_) => (g, e)
    case Node(_, op, ks) =>
      var (g1, ks1) := MutateAll(g, ks);
      if ks1 == ks then (g1, e) else (g1.(nextTag := g1.nextTag + 1), Node(g1.nextTag, op, ks1))
    case Let(_, v, x, b) =>
      var (g1, _) := Mutate(g, x);
      var (g2, b1) := Mutate(g1.(lets := g1.lets + [(v, g1.number)]), b);
      (g2.(lets := g2.lets[..|g2.lets| - 1]), b1)
  }

  function MutateAll(g: State, es: Exprs): (res: (State, Exprs))
    requires Valid(g)
    ensures Valid(res.0) && g.entries <= res.0.entries && res.0.lets == g.lets
    decreases es
  {
    match es
    case Nil => (g, Nil)
    case Cons(e, rest) =>
      var (g1, e1) := Mutate(g, e);
      var (g2, rest1) := MutateAll(g1, rest);
      (g2, Cons(e1, rest1))
  }

  /** Visiting a let, step by step: the value, then the body in the longer scope. */
  function LetScope(g: State, e: Expr): (g2: State)
    requires Valid(g) && e.Let?
    ensures Valid(g2) && g.entries <= g2.entries
  {
    var g1 := Mutate(g, e.value).0;
    g1.(lets := g1.lets + [(e.name, g1.number)])
  }

  /** The five ways out of a visit. */
  lemma MutateSteps(g: State, e: Expr)
    requires Valid(g)
    ensures e in g.shallow ==>
              g.shallow[e] < |g.entries| && Mutate(g, e) == (g.(number := g.shallow[e]), g.entries[g.shallow[e]])
    ensures e !in g.shallow && e.Var? && InScope(g.lets, e.name) ==>
              var n := Number(g.lets, e.name); n < |g.entries| && Mutate(g, e) == (g.(number := n), g.entries[n])
    ensures e !in g.shallow && !(e.Var? && InScope(g.lets, e.name)) && Strip(e) in g.numbering ==>
              var n := g.numbering[Strip(e)];
              n < |g.entries| && Mutate(g, e) == (g.(number := n, shallow := g.shallow[e := n]), g.entries[n])
    ensures e !in g.shallow && !(e.Var? && InScope(g.lets, e.name)) && Strip(e) !in g.numbering ==>
              var (g1, e1) := Rebuild(g, e);
              if Strip(e1) in g1.numbering then
                var n := g1.numbering[Strip(e1)];
                n < |g1.entries| && Mutate(g, e) == (g1.(number := n, shallow := g1.shallow[e := n]), g1.entries[n])
              else Mutate(g, e) == (AddEntry(g1, e1), e1)
  {
    if e.Var? && InScope(g.lets, e.name) {
      NumberValid(g.lets, e.name, |g.entries|);
    }
  }

  lemma LetSteps(g: State, e: Expr)
    requires Valid(g) && e.Let?
    ensures var g1, g2 := Mutate(g, e.value).0, LetScope(g, e);
            && Extends(g, g1, Mutate(g, e.value).1) && g2 == g1.(lets := g1.lets + [(e.name, g1.number)])
            && var (g3, r) := Mutate(g2, e.body);
               && Extends(g2, g3, r) && g3.lets[..|g1.lets|] == g1.lets && |g3.lets| == |g1.lets| + 1
               && Rebuild(g, e) == (g3.(lets := g1.lets), r)
  {
  }

  // ----- the invariant -----

  predicate KidsAmong(es: Exprs, entries: seq<Expr>) {
    es.Cons? ==> es.hd in entries && KidsAmong(es.tl, entries)
  }

  /** Children come before their parents. */
  predicate Ordered(entries: seq<Expr>) {
    forall i | 0 <= i < |entries| :: entries[i].Node? ==> KidsAmong(entries[i].kids, entries[..i])
  }

  /** Entries are let-free, in order and pairwise different up to tags, and both numberings lead an
      entry to itself. Holds whatever the input. */
  ghost predicate Shaped(g: State) {
    && Valid(g)
    && Ordered(g.entries)
    && (forall i | 0 <= i < |g.entries| :: Closed(g.entries[i], {}))
    && (forall i | 0 <= i < |g.entries| :: g.numbering[Strip(g.entries[i])] == i)
    && (forall i | 0 <= i < |g.entries| :: g.entries[i] in g.shallow && g.shallow[g.entries[i]] == i)
    && (forall k | k in g.numbering :: Strip(g.entries[g.numbering[k]]) == k)
  }

  lemma {:induction false} KidsAmongMore(es: Exprs, a: seq<Expr>, b: seq<Expr>)
    requires KidsAmong(es, a) && a <= b
    ensures KidsAmong(es, b)
  {
    if es.Cons? {
      KidsAmongMore(es.tl, a, b);
    }
  }

  lemma {:induction false} KidsClosed(es: Exprs, entries: seq<Expr>, names: set<Name>)
    requires KidsAmong(es, entries) && forall i | 0 <= i < |entries| :: Closed(entries[i], names)
    ensures ClosedAll(es, names)
  {
    if es.Cons? {
      KidsClosed(es.tl, entries, names);
    }
  }

  // ----- new nodes are new objects -----

  /** One more than the largest tag. */
  function TagBound(e: Expr): nat {
    match e
    case Imm(_) => 0
    case Var(_) => 0
    case Node(t, _, ks) => Larger(t + 1, TagBoundAll(ks))
    case Let(t, _, x, b) => Larger(t + 1, Larger(TagBound(x), TagBound(b)))
  }

  function TagBoundAll(es: Exprs): nat {
    match es
    case Nil => 0
    case Cons(e, rest) => Larger(TagBound(e), TagBoundAll(rest))
  }

  function Larger(m: nat, n: nat): nat {
    if m < n then n else m
  }

  function Size(e: Expr): nat {
    match e
    case Imm(_) => 1
    case Var(_) => 1
    case Node(_, _, ks) => 1 + SizeAll(ks)
    case Let(_, _, x, b) => 1 + Size(x) + Size(b)
  }

  function SizeAll(es: Exprs): nat {
    match es
    case Nil => 0
    case Cons(e, rest) => Size(e) + SizeAll(rest)
  }

  /** The entries from position `n` on are let-free, and are either built here or no larger than `size`. */
  ghost predicate Added(g: State, n: nat, base: nat, size: nat) {
    && g.nextTag >= base
    && forall i | n <= i < |g.entries| ::
         !g.entries[i].Let? && ((g.entries[i].Node? && g.entries[i].tag >= base) || Size(g.entries[i]) <= size)
  }

  lemma {:induction false} MutateAdds(g: State, e: Expr, base: nat)
    requires Valid(g) && g.nextTag >= base
    ensures Added(Mutate(g, e).0, |g.entries|, base, Size(e))
    ensures Mutate(g, e).1 in Mutate(g, e).0.entries
    decreases e, 1
  {
    if e in g.shallow || (e.Var? && InScope(g.lets, e.name)) || Strip(e) in g.numbering {
      if e.Var? && InScope(g.lets, e.name) {
        NumberValid(g.lets, e.name, |g.entries|);
      }
    } else {
      RebuildAdds(g, e, base);
    }
  }

  lemma {:induction false} RebuildAdds(g: State, e: Expr, base: nat)
    requires Valid(g) && g.nextTag >= base
    ensures var (g', r) := Rebuild(g, e);
            && Added(g', |g.entries|, base, Size(e) - 1)
            && ((r == e && !e.Let?) || (r.Node? && r.tag >= base) || r in g'.entries)
    decreases e, 0, 1
  {
    match e
    case Imm(_) =>
    case Var(_) =>
    case Node(_, _, ks) => MutateAllAdds(g, ks, base);
    case Let(_, _, _, _) => RebuildLetAdds(g, e, base);
  }

  lemma {:induction false} RebuildLetAdds(g: State, e: Expr, base: nat)
    requires Valid(g) && g.nextTag >= base && e.Let?
    ensures var (g', r) := Rebuild(g, e); Added(g', |g.entries|, base, Size(e) - 1) && r in g'.entries
    decreases e, 0, 0
  {
    LetSteps(g, e);
    var g1, g2 := Mutate(g, e.value).0, LetScope(g, e);
    var (g3, r) := Mutate(g2, e.body);
    assert Size(e) == 1 + Size(e.value) + Size(e.body);
    hide *;
    MutateAdds(g, e.value, base);
    AddedHere(g1, g2, |g.entries|, base, Size(e.value));
    MutateAdds(g2, e.body, base);
    AddedLater(g1, g2, g3, g3.(lets := g1.lets), r, |g.entries|, base, Size(e.value), Size(e.body), Size(e) - 1);
  }

  lemma AddedHere(g1: State, g2: State, n: nat, base: nat, m: nat)
    requires Added(g1, n, base, m) && g2 == g1.(lets := g2.lets)
    ensures g2.nextTag >= base
  {
  }

  lemma AddedLater(g1: State, g2: State, g3: State, g4: State, r: Expr, n: nat, base: nat, m: nat, k: nat, size: nat)
    requires g2 == g1.(lets := g2.lets) && Valid(g2) && Extends(g2, g3, r) && g4 == g3.(lets := g1.lets)
    requires Added(g1, n, base, m) && Added(g3, |g2.entries|, base, k) && m <= size && k <= size
    ensures Added(g4, n, base, size) && r in g4.entries
  {
    forall i | n <= i < |g3.entries|
      ensures !g3.entries[i].Let? && ((g3.entries[i].Node? && g3.entries[i].tag >= base) || Size(g3.entries[i]) <= size)
    {
      if i < |g1.entries| {
        assert g3.entries[i] == g1.entries[i];
      }
    }
  }

  lemma {:induction false} MutateAllAdds(g: State, es: Exprs, base: nat)
    requires Valid(g) && g.nextTag >= base
    ensures Added(MutateAll(g, es).0, |g.entries|, base, SizeAll(es))
    decreases es
  {
    if es.Cons? {
      MutateAdds(g, es.hd, base);
      MutateAllAdds(Mutate(g, es.hd).0, es.tl, base);
    }
  }

  // ----- the shape is kept by every visit -----

  lemma {:induction false} MutateShaped(g: State, e: Expr, base: nat)
    requires Shaped(g) && TagBound(e) <= base <= g.nextTag
    ensures Shaped(Mutate(g, e).0)
    decreases e, 1
  {
    if e in g.shallow || (e.Var? && InScope(g.lets, e.name)) || Strip(e) in g.numbering {
      if e.Var? && InScope(g.lets, e.name) {
        NumberValid(g.lets, e.name, |g.entries|);
      }
    } else {
      RebuildShaped(g, e, base);
      var (g1, e1) := Rebuild(g, e);
      if Strip(e1) !in g1.numbering {
        AddShaped(g1, e1);
      } else {
        StillNew(g, e, base);
        RememberShaped(g1, e, g1.numbering[Strip(e1)]);
      }
    }
  }

  /** Rebuilding an object does not enter the object itself. */
  lemma StillNew(g: State, e: Expr, base: nat)
    requires Shaped(g) && e !in g.shallow && TagBound(e) <= base <= g.nextTag
    ensures e !in Rebuild(g, e).0.entries
  {
    RebuildAdds(g, e, base);
    var g1 := Rebuild(g, e).0;
    forall i | 0 <= i < |g1.entries| ensures g1.entries[i] != e {
      if i < |g.entries| {
        assert g1.entries[i] == g.entries[i];
      }
    }
  }

  lemma RememberShaped(g: State, e: Expr, n: nat)
    requires Shaped(g) && e !in g.entries && n < |g.entries|
    ensures Shaped(g.(number := n, shallow := g.shallow[e := n]))
  {
  }

  lemma AddShaped(g: State, e: Expr)
    requires Shaped(g) && Closed(e, {}) && Strip(e) !in g.numbering
    requires e.Node? ==> KidsAmong(e.kids, g.entries)
    ensures Shaped(AddEntry(g, e))
  {
    var g' := AddEntry(g, e);
    forall i | 0 <= i < |g'.entries| && g'.entries[i].Node? ensures KidsAmong(g'.entries[i].kids, g'.entries[..i]) {
      if i < |g.entries| {
        assert g'.entries[..i] == g.entries[..i];
      } else {
        assert g'.entries[..i] == g.entries;
      }
    }
  }

  lemma {:induction false} RebuildShaped(g: State, e: Expr, base: nat)
    requires Shaped(g) && TagBound(e) <= base <= g.nextTag
    ensures var (g', r) := Rebuild(g, e);
            Shaped(g') && Closed(r, {}) && (r.Node? ==> KidsAmong(r.kids, g'.entries))
    decreases e, 0, 1
  {
    match e
    case Imm(_) =>
    case Var(_) =>
    case Node(_, op, ks) =>
      MutateAllShaped(g, ks, base);
      var (g1, ks1) := MutateAll(g, ks);
      KidsClosed(ks1, g1.entries, {});
    case Let(_, _, _, _) => RebuildLetShaped(g, e, base);
  }

  lemma {:induction false} RebuildLetShaped(g: State, e: Expr, base: nat)
    requires Shaped(g) && TagBound(e) <= base <= g.nextTag && e.Let?
    ensures var (g', r) := Rebuild(g, e);
            Shaped(g') && Closed(r, {}) && (r.Node? ==> KidsAmong(r.kids, g'.entries))
    decreases e, 0, 0
  {
    LetSteps(g, e);
    var g1, g2 := Mutate(g, e.value).0, LetScope(g, e);
    var (g3, r) := Mutate(g2, e.body);
    assert TagBound(e.value) <= base && TagBound(e.body) <= base;
    hide *;
    MutateShaped(g, e.value, base);
    MutateAdds(g, e.value, base);
    AddedHere(g1, g2, |g.entries|, base, Size(e.value));
    ShapedWith(g1, g2);
    MutateShaped(g2, e.body, base);
    ShapedWith(g3, g3.(lets := g1.lets));
    ReturnedShaped(g2, g3, r);
  }

  /** The scope does not matter to the shape. */
  lemma ShapedWith(g: State, g': State)
    requires Shaped(g) && g' == g.(lets := g'.lets) && (forall i | 0 <= i < |g'.lets| :: g'.lets[i].1 < |g.entries|)
    ensures Shaped(g')
  {
  }

  lemma ReturnedShaped(g: State, g': State, r: Expr)
    requires Shaped(g') && Valid(g) && Extends(g, g', r)
    ensures Closed(r, {}) && (r.Node? ==> KidsAmong(r.kids, g'.entries))
  {
    if r.Node? {
      KidsAmongMore(r.kids, g'.entries[..g'.number], g'.entries);
    }
  }

  lemma {:induction false} MutateAllShaped(g: State, es: Exprs, base: nat)
    requires Shaped(g) && TagBoundAll(es) <= base <= g.nextTag
    ensures var (g', rs) := MutateAll(g, es); Shaped(g') && KidsAmong(rs, g'.entries)
    decreases es
  {
    if es.Cons? {
      MutateShaped(g, es.hd, base);
      MutateAdds(g, es.hd, base);
      var (g1, e1) := Mutate(g, es.hd);
      MutateAllShaped(g1, es.tl, base);
      assert MutateAll(g1, es.tl).0.entries[g1.number] == e1;
    }
  }

  // ----- the whole numbering -----

  /** An empty numbering, and tags for new nodes that the expression does not use. */
  function Begin(e: Expr): State {
    State([], map[], map[], [], 0, TagBound(e))
  }
}
