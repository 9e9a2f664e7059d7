/** What value numbering takes its input for, said of the input alone: each object for the let-free text under which it
    was remembered, and otherwise for the text that its parts are taken for, in the order of the traversal. */
module CseTaken {
  import opened VarNames
  import opened Wrappers
  import opened CseIR
  import opened CseGVN
  import opened CseSound

  /** The texts that objects of the input are remembered for, and for each text met so far the object that had it when
      it was met first, unless that object has parts that stand for something else. */
  datatype Memory = Memory(objects: map<Expr, Expr>, first: map<Expr, Option<Expr>>)

  const NOTHING_MET := Memory(map[], map[])

  /** Where let variables stand for `th`. The result is the text that `e` is taken for: that of an earlier occurrence of
      the same object, that of the let, its own text if that text was met before, or that of its parts. */
  function Take(m: Memory, e: Expr, th: Subst): (Memory, Expr)
    decreases e, 1
  {
    if e in m.objects then (m, m.objects[e])
    else if e.Var? && e.name in th then (m, th[e.name])
    else if Strip(e) in m.first then (m.(objects := m.objects[e := Strip(e)]), Strip(e))
    else
      var (m1, t, same) := TakeParts(m, e, th);
      (Meet(m1, e, t, same), t)
  }

  /** A text is met for an object. When it is met for the first time the object is remembered only if all its parts
      stand for themselves. */
  function Meet(m: Memory, e: Expr, t: Expr, same: bool): Memory {
    if t in m.first then m.(objects := m.objects[e := t])
    else if same then Memory(m.objects[e := t], m.first[t := Some(e)])
    else m.(first := m.first[t := None])
  }

  /** The text that the parts of `e` make, and whether each part is the object that had its text first. */
  function TakeParts(m: Memory, e: Expr, th: Subst): (Memory, Expr, bool)
    decreases e, 0
  {
    match e
    case Imm(_) => (m, e, true)
    case Var(_) => (m, e, true)
    case Node(_, op, ks) =>
      var (m1, ts, same) := TakeAll(m, ks, th);
      (m1, Node(0, op, ts), same)
    case Let(_, v, x, b) =>
      var (m1, t) := Take(m, x, th);
      var (m2, u) := Take(m1, b, th[v := t]);
      (m2, u, false)
  }

  function TakeAll(m: Memory, es: Exprs, th: Subst): (Memory, Exprs, bool)
    decreases es
  {
    match es
    case Nil => (m, Nil, true)
    case Cons(e, rest) =>
      var (m1, t) := Take(m, e, th);
      var (m2, ts, same) := TakeAll(m1, rest, th);
      (m2, Cons(t, ts), same && First(m1, t) == Some(e))
  }

  function First(m: Memory, t: Expr): Option<Expr> {
    if t in m.first then m.first[t] else None
  }

  /** What the whole input is taken for. */
  function TakenFor(e: Expr): Expr {
    Take(NOTHING_MET, e, map[]).1
  }

  // ----- the numbering takes it for the same -----

  /** An object of the input, rather than a node that was built. */
  predicate Old(p: Expr, base: nat) {
    TagBound(p) <= base
  }

  function Known(p: Expr, base: nat): Option<Expr> {
    if Old(p, base) then Some(p) else None
  }

  /** The numbering remembers what `m` says, and its scope is `th`. */
  ghost predicate Recalls(g: State, m: Memory, th: Subst, base: nat) {
    && Shaped(g) && base <= g.nextTag && Scoped(g, th)
    && FirstRecalled(g, m, base) && ObjectsRecalled(g, m, base)
  }

  ghost predicate FirstRecalled(g: State, m: Memory, base: nat)
    requires Valid(g)
  {
    && m.first.Keys == g.numbering.Keys
    && forall k | k in g.numbering :: m.first[k] == Known(g.entries[g.numbering[k]], base)
  }

  ghost predicate ObjectsRecalled(g: State, m: Memory, base: nat)
    requires Valid(g)
  {
    && (forall p | Old(p, base) :: p in m.objects <==> p in g.shallow)
    && (forall p | Old(p, base) && p in g.shallow :: m.objects[p] == Strip(g.entries[g.shallow[p]]))
  }

  /** A visit has returned what the text stands for. */
  ghost predicate Returned(g: State, r: Expr, m: Memory, t: Expr, th: Subst, base: nat) {
    && Recalls(g, m, th, base) && g.number < |g.entries| && g.entries[g.number] == r && Strip(r) == t
  }

  lemma RecallsWith(g: State, g': State, m: Memory, th: Subst, base: nat)
    requires Recalls(g, m, th, base) && g' == g.(number := g'.number, nextTag := g'.nextTag) && g.nextTag <= g'.nextTag
    ensures Recalls(g', m, th, base)
  {
  }

  /** An object is remembered. */
  lemma RecallsObject(g: State, m: Memory, e: Expr, n: nat, th: Subst, base: nat)
    requires Recalls(g, m, th, base) && Old(e, base) && e !in g.entries && n < |g.entries|
    ensures Returned(g.(number := n, shallow := g.shallow[e := n]), g.entries[n],
            m.(objects := m.objects[e := Strip(g.entries[n])]), Strip(g.entries[n]), th, base)
  {
    RememberShaped(g, e, n);
  }

  /** A new entry: the object itself, or a node that was built for it. */
  lemma RecallsEntry(g: State, m: Memory, e: Expr, r: Expr, same: bool, th: Subst, base: nat)
    requires Recalls(g, m, th, base) && Old(e, base) && Strip(r) !in g.numbering
    requires Closed(r, {}) && (r.Node? ==> KidsAmong(r.kids, g.entries))
    requires if same then r == e else !Old(r, base)
    ensures Returned(AddEntry(g, r), r, Meet(m, e, Strip(r), same), Strip(r), th, base)
  {
    AddShaped(g, r);
    ScopedMore(g, AddEntry(g, r), th);
    FirstEntry(g, m, e, r, same, base);
    ObjectsEntry(g, m, e, r, same, base);
    hide FirstRecalled, ObjectsRecalled, Scoped, Shaped, Meet, Closed;
  }

  lemma FirstEntry(g: State, m: Memory, e: Expr, r: Expr, same: bool, base: nat)
    requires Valid(g) && FirstRecalled(g, m, base) && Old(e, base) && Strip(r) !in g.numbering
    requires if same then r == e else !Old(r, base)
    ensures FirstRecalled(AddEntry(g, r), Meet(m, e, Strip(r), same), base)
  {
    var g', known := AddEntry(g, r), Known(r, base);
    assert Meet(m, e, Strip(r), same).first == m.first[Strip(r) := known];
    OneMoreText(g, g', m.first, Strip(r), r, base);
    hide Strip, Old, Known, Meet;
  }

  lemma OneMoreText(g: State, g': State, first: map<Expr, Option<Expr>>, t: Expr, r: Expr, base: nat)
    requires first.Keys == g.numbering.Keys && (forall k | k in g.numbering :: g.numbering[k] < |g.entries|)
    requires forall k | k in g.numbering :: first[k] == Known(g.entries[g.numbering[k]], base)
    requires g'.numbering == g.numbering[t := |g.entries|] && g'.entries == g.entries + [r]
    ensures first[t := Known(r, base)].Keys == g'.numbering.Keys
    ensures forall k | k in g'.numbering ::
              g'.numbering[k] < |g'.entries|
              && first[t := Known(r, base)][k] == Known(g'.entries[g'.numbering[k]], base)
  {
    hide Known;
  }

  lemma ObjectsEntry(g: State, m: Memory, e: Expr, r: Expr, same: bool, base: nat)
    requires Valid(g) && FirstRecalled(g, m, base) && ObjectsRecalled(g, m, base) && Strip(r) !in g.numbering
    requires if same then r == e else !Old(r, base)
    ensures ObjectsRecalled(AddEntry(g, r), Meet(m, e, Strip(r), same), base)
  {
    assert Meet(m, e, Strip(r), same).objects == if same then m.objects[r := Strip(r)] else m.objects;
    OneMoreObject(g, AddEntry(g, r), m.objects, r, base);
    hide Strip, Old, Meet;
  }

  lemma OneMoreObject(g: State, g': State, objects: map<Expr, Expr>, r: Expr, base: nat)
    requires forall p | p in g.shallow :: g.shallow[p] < |g.entries|
    requires forall p | Old(p, base) :: p in objects <==> p in g.shallow
    requires forall p | Old(p, base) && p in g.shallow :: objects[p] == Strip(g.entries[g.shallow[p]])
    requires g'.shallow == g.shallow[r := |g.entries|] && g'.entries == g.entries + [r]
    ensures forall p | p in g'.shallow :: g'.shallow[p] < |g'.entries|
    ensures var objects' := if Old(r, base) then objects[r := Strip(r)] else objects;
            forall p | Old(p, base) ::
              && (p in objects' <==> p in g'.shallow)
              && (p in objects' ==> objects'[p] == Strip(g'.entries[g'.shallow[p]]))
  {
    hide Strip, Old;
  }

  lemma {:induction false} MutateTakes(g: State, e: Expr, m: Memory, th: Subst, base: nat)
    requires Recalls(g, m, th, base) && TagBound(e) <= base
    ensures Returned(Mutate(g, e).0, Mutate(g, e).1, Take(m, e, th).0, Take(m, e, th).1, th, base)
    decreases e, 1
  {
    MutateSteps(g, e);
    if e in g.shallow {
      RecallsWith(g, g.(number := g.shallow[e]), m, th, base);
    } else if e.Var? && InScope(g.lets, e.name) {
      RecallsWith(g, g.(number := Number(g.lets, e.name)), m, th, base);
    } else if Strip(e) in g.numbering {
      RecallsObject(g, m, e, g.numbering[Strip(e)], th, base);
    } else {
      PartsTake(g, e, m, th, base);
      var (g1, e1) := Rebuild(g, e);
      var (m1, t, same) := TakeParts(m, e, th);
      StillNew(g, e, base);
      if t in g1.numbering {
        RecallsObject(g1, m1, e, g1.numbering[t], th, base);
      } else {
        RecallsEntry(g1, m1, e, e1, same, th, base);
      }
    }
    hide Recalls, Shaped, Rebuild, TakeParts, Meet;
  }

  /** What rebuilding leaves. */
  ghost predicate Rebuilds(g: State, e: Expr, r: Expr, m: Memory, t: Expr, same: bool, th: Subst, base: nat) {
    && Recalls(g, m, th, base) && Strip(r) == t && Closed(r, {}) && (r.Node? ==> KidsAmong(r.kids, g.entries))
    && (t !in g.numbering ==> if same then r == e else !Old(r, base))
  }

  lemma {:induction false} PartsTake(g: State, e: Expr, m: Memory, th: Subst, base: nat)
    requires Recalls(g, m, th, base) && TagBound(e) <= base
    ensures var (m', t, same) := TakeParts(m, e, th);
            Rebuilds(Rebuild(g, e).0, e, Rebuild(g, e).1, m', t, same, th, base)
    decreases e, 0, 1
  {
    match e
    case Imm(_) =>
    case Var(_) =>
    case Node(_, _, ks) => NodeTakes(g, e, m, th, base);
    case Let(_, _, _, _) => LetTakes(g, e, m, th, base);
  }

  lemma {:induction false} NodeTakes(g: State, e: Expr, m: Memory, th: Subst, base: nat)
    requires Recalls(g, m, th, base) && TagBound(e) <= base && e.Node?
    ensures var (m', t, same) := TakeParts(m, e, th);
            Rebuilds(Rebuild(g, e).0, e, Rebuild(g, e).1, m', t, same, th, base)
    decreases e, 0, 0
  {
    var (g1, ks1) := MutateAll(g, e.kids);
    var (m1, ts, same) := TakeAll(m, e.kids, th);
    assert Rebuild(g, e) == if ks1 == e.kids then (g1, e)
        else (g1.(nextTag := g1.nextTag + 1), Node(g1.nextTag, e.op, ks1));
    assert TakeParts(m, e, th) == (m1, Node(0, e.op, ts), same);
    assert TagBoundAll(e.kids) <= base;
    hide *;
    AllTake(g, e.kids, m, th, base);
    NodeBuilt(g1, ks1, e, m1, ts, same, th, base);
  }

  lemma NodeBuilt(g: State, ks: Exprs, e: Expr, m: Memory, ts: Exprs, same: bool, th: Subst, base: nat)
    requires e.Node? && Recalls(g, m, th, base) && KidsAmong(ks, g.entries) && StripAll(ks) == ts
    requires same <==> ks == e.kids
    ensures if same then Rebuilds(g, e, e, m, Node(0, e.op, ts), same, th, base)
            else Rebuilds(g.(nextTag := g.nextTag + 1), e, Node(g.nextTag, e.op, ks), m, Node(0, e.op, ts), same, th,
                base)
  {
    KidsClosed(ks, g.entries, {});
    RecallsWith(g, g.(nextTag := g.nextTag + 1), m, th, base);
    assert g.nextTag >= base;
    hide Recalls;
  }

  lemma {:induction false} LetTakes(g: State, e: Expr, m: Memory, th: Subst, base: nat)
    requires Recalls(g, m, th, base) && TagBound(e) <= base && e.Let?
    ensures var (m', t, same) := TakeParts(m, e, th);
            Rebuilds(Rebuild(g, e).0, e, Rebuild(g, e).1, m', t, same, th, base)
    decreases e, 0, 0
  {
    LetSteps(g, e);
    var (g1, x1) := Mutate(g, e.value);
    var (m1, t) := Take(m, e.value, th);
    var g2, inner := LetScope(g, e), th[e.name := t];
    var (g3, r) := Mutate(g2, e.body);
    var (m2, u) := Take(m1, e.body, inner);
    assert TakeParts(m, e, th) == (m2, u, false);
    assert TagBound(e.value) <= base && TagBound(e.body) <= base;
    RecallsIsShaped(g, m, th, base);
    MutateTakes(g, e.value, m, th, base);
    RecallsPush(g1, x1, g2, m1, t, e.name, th, base);
    MutateTakes(g2, e.body, m1, inner, base);
    hide Take, Mutate, Rebuild, TakeParts, LetScope, TagBound;
    RecallsPop(g1, x1, g2, g3, r, m1, t, m2, u, e, th, inner, base);
  }

  lemma RecallsIsShaped(g: State, m: Memory, th: Subst, base: nat)
    requires Recalls(g, m, th, base)
    ensures Shaped(g) && Valid(g)
  {
  }

  lemma RecallsPush(g1: State, x1: Expr, g2: State, m1: Memory, t: Expr, v: Name, th: Subst, base: nat)
    requires Returned(g1, x1, m1, t, th, base) && g2 == g1.(lets := g1.lets + [(v, g1.number)])
    ensures Recalls(g2, m1, th[v := t], base)
  {
    ScopedPush(g1, th, v, g1.number, t);
    ShapedWith(g1, g2);
  }

  lemma RecallsPop(g1: State, x1: Expr, g2: State, g3: State, r: Expr, m1: Memory, t: Expr, m2: Memory, u: Expr,
                   e: Expr, th: Subst, inner: Subst, base: nat)
    requires Returned(g1, x1, m1, t, th, base) && Valid(g2) && Extends(g2, g3, r) && g2.entries == g1.entries
    requires Returned(g3, r, m2, u, inner, base)
    ensures Rebuilds(g3.(lets := g1.lets), e, r, m2, u, false, th, base)
  {
    var g4 := g3.(lets := g1.lets);
    ShapedWith(g3, g4);
    ScopedMore(g1, g4, th);
    ReturnedShaped(g2, g3, r);
    assert Strip(r) in g3.numbering;
  }

  lemma {:induction false} AllTake(g: State, es: Exprs, m: Memory, th: Subst, base: nat)
    requires Recalls(g, m, th, base) && TagBoundAll(es) <= base
    ensures var (g', rs) := MutateAll(g, es);
            var (m', ts, same) := TakeAll(m, es, th);
            && Recalls(g', m', th, base) && StripAll(rs) == ts && KidsAmong(rs, g'.entries) && (same <==> rs == es)
    decreases es
  {
    if es.Cons? {
      MutateTakes(g, es.hd, m, th, base);
      var (g1, e1) := Mutate(g, es.hd);
      var (m1, t) := Take(m, es.hd, th);
      FirstIs(g1, e1, m1, t, es.hd, th, base);
      AllTake(g1, es.tl, m1, th, base);
      assert MutateAll(g1, es.tl).0.entries[g1.number] == e1;
      hide Recalls;
    }
  }

  /** The object that had a text first is the one that the numbering returns for it. */
  lemma FirstIs(g: State, r: Expr, m: Memory, t: Expr, e: Expr, th: Subst, base: nat)
    requires Returned(g, r, m, t, th, base) && Old(e, base)
    ensures First(m, t) == Some(e) <==> r == e
  {
    assert g.numbering[Strip(r)] == g.number;
  }

  /** The canonical form is what the input is taken for. */
  lemma CanonicalIsTaken(e: Expr)
    ensures Strip(Mutate(Begin(e), e).1) == TakenFor(e)
  {
    MutateTakes(Begin(e), e, NOTHING_MET, map[], TagBound(e));
  }
}
