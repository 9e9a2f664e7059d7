/** What value numbering returns stands for the let-free form of its input, when an object that depends on
    lets stands for the same thing wherever it occurs. */
module CseSound {
  import opened VarNames
  import opened CseIR
  import opened CseGVN

  // ----- let names and free variables -----

  function LetNames(e: Expr): set<Name> {
    match e
    case Imm(_) => {}
    case Var(_) => {}
    case Node(_, _, ks) => LetNamesAll(ks)
    case Let(_, v, x, b) => LetNames(x) + {v} + LetNames(b)
  }

  function LetNamesAll(es: Exprs): set<Name> {
    match es
    case Nil => {}
    case Cons(e, rest) => LetNames(e) + LetNamesAll(rest)
  }

  function FreeVars(e: Expr): set<Name> {
    match e
    case Imm(_) => {}
    case Var(v) => {v}
    case Node(_, _, ks) => FreeVarsAll(ks)
    case Let(_, v, x, b) => FreeVars(x) + (FreeVars(b) - {v})
  }

  function FreeVarsAll(es: Exprs): set<Name> {
    match es
    case Nil => {}
    case Cons(e, rest) => FreeVars(e) + FreeVarsAll(rest)
  }

  lemma {:induction false} ExpandAgree(e: Expr, th: Subst, th': Subst)
    requires forall v | v in FreeVars(e) :: (v in th <==> v in th') && (v in th ==> th[v] == th'[v])
    ensures Expand(e, th) == Expand(e, th')
    decreases e
  {
    match e
    case Imm(_) =>
    case Var(_) =>
    case Node(_, _, ks) => ExpandAgreeAll(ks, th, th');
    case Let(_, v, x, b) =>
      ExpandAgree(x, th, th');
      ExpandAgree(b, th[v := Expand(x, th)], th'[v := Expand(x, th')]);
  }

  lemma {:induction false} ExpandAgreeAll(es: Exprs, th: Subst, th': Subst)
    requires forall v | v in FreeVarsAll(es) :: (v in th <==> v in th') && (v in th ==> th[v] == th'[v])
    ensures ExpandAll(es, th) == ExpandAll(es, th')
    decreases es
  {
    if es.Cons? {
      ExpandAgree(es.hd, th, th');
      ExpandAgreeAll(es.tl, th, th');
    }
  }

  // ----- what objects stand for -----

  /** The let names of an expression, and the let-free text that each of its objects stands for. */
  datatype Reading = Reading(names: set<Name>, text: Expr -> Expr)

  function TextOf(K: Reading, p: Expr): Expr {
    if p.Imm? || p.Var? then p else K.text(p)
  }

  /** An object without lets and let variables stands for itself. */
  ghost predicate Honest(K: Reading) {
    forall p | Closed(p, K.names) :: TextOf(K, p) == Strip(p)
  }

  /** Where the let variables in scope stand for `th`, every object stands for the text `K` gives it, and no
      let variable occurs outside the scope of a let that binds it. The same name may be bound again. */
  predicate Coherent(e: Expr, K: Reading, th: Subst) {
    match e
    case Imm(_) => true
    case Var(v) => v in K.names ==> v in th
    case Node(_, _, ks) => Expand(e, th) == K.text(e) && CoherentAll(ks, K, th)
    case Let(_, v, x, b) =>
      && v in K.names && Expand(e, th) == K.text(e)
      && Coherent(x, K, th) && Coherent(b, K, th[v := Expand(x, th)])
  }

  predicate CoherentAll(es: Exprs, K: Reading, th: Subst) {
    es.Cons? ==> Coherent(es.hd, K, th) && CoherentAll(es.tl, K, th)
  }

  // ----- the invariant -----

  /** No entry mentions a let variable, and an object that has been seen leads to the representative of its
      text. */
  ghost predicate Sound(g: State, K: Reading) {
    && Shaped(g)
    && (forall i | 0 <= i < |g.entries| :: Closed(g.entries[i], K.names))
    && (forall p | p in g.shallow :: Strip(g.entries[g.shallow[p]]) == TextOf(K, p))
  }

  /** The scope holds the numbers of what the let variables stand for. */
  ghost predicate Scoped(g: State, th: Subst)
    requires Valid(g)
  {
    && (forall v | v in th :: InScope(g.lets, v) && Number(g.lets, v) < |g.entries|
                              && Strip(g.entries[Number(g.lets, v)]) == th[v])
    && (forall v | InScope(g.lets, v) :: v in th)
  }

  ghost predicate Fits(g: State, K: Reading, th: Subst) {
    Sound(g, K) && Honest(K) && Scoped(g, th) && th.Keys <= K.names
  }

  lemma ScopedMore(g: State, g': State, th: Subst)
    requires Valid(g) && Valid(g') && Scoped(g, th)
    requires g.entries <= g'.entries && g'.lets == g.lets
    ensures Scoped(g', th)
  {
    forall v | v in th
      ensures Number(g'.lets, v) < |g'.entries| && Strip(g'.entries[Number(g'.lets, v)]) == th[v]
    {
      assert g'.entries[Number(g.lets, v)] == g.entries[Number(g.lets, v)];
    }
  }

  lemma ScopedPush(g: State, th: Subst, v: Name, n: nat, t: Expr)
    requires Valid(g) && Scoped(g, th) && n < |g.entries| && Strip(g.entries[n]) == t
    ensures var g' := g.(lets := g.lets + [(v, n)]); Valid(g') && Scoped(g', th[v := t])
  {
    var lets := g.lets + [(v, n)];
    assert lets[..|lets| - 1] == g.lets && lets[|lets| - 1] == (v, n);
  }

  /** Neither the tag counter, nor the number last returned, nor the scope matters to soundness. */
  lemma SoundWith(g: State, g': State, K: Reading)
    requires Sound(g, K) && Valid(g')
    requires g'.entries == g.entries && g'.numbering == g.numbering && g'.shallow == g.shallow
    ensures Sound(g', K)
  {
  }

  // ----- mutate returns the representative of the let-free form -----

  /** What `Mutate` leaves. */
  ghost predicate Mutated(g': State, r: Expr, e: Expr, K: Reading, th: Subst) {
    Fits(g', K, th) && Strip(r) == Expand(e, th)
  }

  lemma {:induction false} MutateSound(g: State, e: Expr, K: Reading, th: Subst)
    requires Fits(g, K, th) && Coherent(e, K, th)
    ensures Mutated(Mutate(g, e).0, Mutate(g, e).1, e, K, th)
    decreases e, 1
  {
    MutateSteps(g, e);
    hide *;
    if e in g.shallow {
      SeenStandsForIt(g, e, K, th);
    } else if e.Var? && InScope(g.lets, e.name) {
      VariableStandsForIt(g, e, K, th);
    } else if Strip(e) in g.numbering {
      NumberedIsClosed(g, e, K, th);
      RememberSound(g, e, g.numbering[Strip(e)], K, th);
    } else {
      RebuildSound(g, e, K, th);
      RebuiltIsNumbered(g, Rebuild(g, e).0, Rebuild(g, e).1, e, K, th);
    }
  }

  lemma VariableStandsForIt(g: State, e: Expr, K: Reading, th: Subst)
    requires Fits(g, K, th) && Coherent(e, K, th) && e.Var? && InScope(g.lets, e.name)
    ensures Number(g.lets, e.name) < |g.entries|
    ensures var n := Number(g.lets, e.name); Mutated(g.(number := n), g.entries[n], e, K, th)
  {
    NumberValid(g.lets, e.name, |g.entries|);
    SoundWith(g, g.(number := Number(g.lets, e.name)), K);
  }

  /** An object seen before, perhaps under other lets. */
  lemma SeenStandsForIt(g: State, e: Expr, K: Reading, th: Subst)
    requires Fits(g, K, th) && Coherent(e, K, th) && e in g.shallow
    ensures Mutated(g.(number := g.shallow[e]), g.entries[g.shallow[e]], e, K, th)
  {
    SoundWith(g, g.(number := g.shallow[e]), K);
    if e.Var? {
      var entry := g.entries[g.shallow[e]];
      assert Closed(entry, K.names) && Strip(entry) == e;
      StripClosed(entry, K.names);
    }
  }

  /** What is in the numbering is its own let-free form. */
  lemma NumberedIsClosed(g: State, e: Expr, K: Reading, th: Subst)
    requires Fits(g, K, th) && Strip(e) in g.numbering
    ensures g.numbering[Strip(e)] < |g.entries| && Strip(g.entries[g.numbering[Strip(e)]]) == Strip(e)
    ensures Expand(e, th) == Strip(e) == TextOf(K, e)
  {
    var x := g.entries[g.numbering[Strip(e)]];
    StripClosed(x, K.names);
    StripClosed(e, K.names);
    assert Closed(e, K.names);
    ClosedFewer(e, K.names, th.Keys);
    ExpandClosed(e, th);
  }

  lemma {:induction false} ClosedFewer(e: Expr, names: set<Name>, some: set<Name>)
    requires Closed(e, names) && some <= names
    ensures Closed(e, some)
  {
    if e.Node? {
      ClosedFewerAll(e.kids, names, some);
    }
  }

  lemma {:induction false} ClosedFewerAll(es: Exprs, names: set<Name>, some: set<Name>)
    requires ClosedAll(es, names) && some <= names
    ensures ClosedAll(es, some)
  {
    if es.Cons? {
      ClosedFewer(es.hd, names, some);
      ClosedFewerAll(es.tl, names, some);
    }
  }

  /** Remembering an object's number. */
  lemma RememberSound(g: State, e: Expr, n: nat, K: Reading, th: Subst)
    requires Fits(g, K, th) && n < |g.entries| && Strip(g.entries[n]) == Expand(e, th) == TextOf(K, e)
    ensures Mutated(g.(number := n, shallow := g.shallow[e := n]), g.entries[n], e, K, th)
  {
    forall i | 0 <= i < |g.entries| && g.entries[i] == e ensures i == n {
      assert Closed(e, K.names);
      assert TextOf(K, e) == Strip(e);
    }
  }

  lemma AddSound(g: State, e: Expr, K: Reading, th: Subst)
    requires Fits(g, K, th) && Closed(e, {}) && Closed(e, K.names) && Strip(e) !in g.numbering
    requires e.Node? ==> KidsAmong(e.kids, g.entries)
    ensures Fits(AddEntry(g, e), K, th)
  {
    AddShaped(g, e);
    assert TextOf(K, e) == Strip(e);
    ScopedMore(g, AddEntry(g, e), th);
  }

  ghost predicate Rebuilt(g': State, r: Expr, e: Expr, K: Reading, th: Subst) {
    && Mutated(g', r, e, K, th)
    && Closed(r, {}) && Closed(r, K.names) && (r.Node? ==> KidsAmong(r.kids, g'.entries))
  }

  /** The object rebuilt stands for the text of what came out, which is numbered already or is added. */
  lemma RebuiltIsNumbered(g: State, g1: State, e1: Expr, e: Expr, K: Reading, th: Subst)
    requires Fits(g, K, th) && Rebuilt(g1, e1, e, K, th) && Coherent(e, K, th)
    requires e.Var? ==> !InScope(g.lets, e.name)
    ensures if Strip(e1) in g1.numbering then
              var n := g1.numbering[Strip(e1)];
              n < |g1.entries| && Mutated(g1.(number := n, shallow := g1.shallow[e := n]), g1.entries[n], e, K, th)
            else Mutated(AddEntry(g1, e1), e1, e, K, th)
  {
    assert Expand(e, th) == TextOf(K, e) == Strip(e1);
    if Strip(e1) in g1.numbering {
      assert Strip(g1.entries[g1.numbering[Strip(e1)]]) == Strip(e1);
      RememberSound(g1, e, g1.numbering[Strip(e1)], K, th);
    } else {
      AddSound(g1, e1, K, th);
    }
  }

  lemma {:induction false} RebuildSound(g: State, e: Expr, K: Reading, th: Subst)
    requires Fits(g, K, th) && Coherent(e, K, th)
    requires e.Var? ==> !InScope(g.lets, e.name)
    ensures Rebuilt(Rebuild(g, e).0, Rebuild(g, e).1, e, K, th)
    decreases e, 0, 1
  {
    hide *;
    if e.Node? {
      RebuildNodeSound(g, e, K, th);
    } else if e.Let? {
      RebuildLetSound(g, e, K, th);
    } else {
      RebuildLeafSound(g, e, K, th);
    }
  }

  lemma RebuildLeafSound(g: State, e: Expr, K: Reading, th: Subst)
    requires Fits(g, K, th) && Coherent(e, K, th) && (e.Imm? || e.Var?)
    requires e.Var? ==> !InScope(g.lets, e.name)
    ensures Rebuilt(Rebuild(g, e).0, Rebuild(g, e).1, e, K, th)
  {
  }

  lemma {:induction false} RebuildNodeSound(g: State, e: Expr, K: Reading, th: Subst)
    requires Fits(g, K, th) && Coherent(e, K, th) && e.Node?
    ensures Rebuilt(Rebuild(g, e).0, Rebuild(g, e).1, e, K, th)
    decreases e, 0, 0
  {
    var (g1, ks1) := MutateAll(g, e.kids);
    assert Rebuild(g, e) == if ks1 == e.kids then (g1, e)
        else (g1.(nextTag := g1.nextTag + 1), Node(g1.nextTag, e.op, ks1));
    assert CoherentAll(e.kids, K, th);
    hide *;
    MutateAllSound(g, e.kids, K, th);
    NodeRebuilt(g1, ks1, e, K, th);
  }

  lemma {:induction false} RebuildLetSound(g: State, e: Expr, K: Reading, th: Subst)
    requires Fits(g, K, th) && Coherent(e, K, th) && e.Let?
    ensures Rebuilt(Rebuild(g, e).0, Rebuild(g, e).1, e, K, th)
    decreases e, 0, 0
  {
    hide *;
    FitsIsValid(g, K, th);
    LetSteps(g, e);
    LetReads(e, K, th);
    var (g1, x1) := Mutate(g, e.value);
    var g2, inner := LetScope(g, e), th[e.name := Expand(e.value, th)];
    var (g3, r) := Mutate(g2, e.body);
    MutateSound(g, e.value, K, th);
    EnterLet(g, g1, x1, g2, e, K, th, inner);
    MutateSound(g2, e.body, K, inner);
    LetRebuilt(g1, x1, g2, g3, r, e, K, th, inner);
  }

  lemma FitsIsValid(g: State, K: Reading, th: Subst)
    requires Fits(g, K, th)
    ensures Valid(g)
  {
  }

  lemma LetReads(e: Expr, K: Reading, th: Subst)
    requires e.Let? && Coherent(e, K, th)
    ensures var inner := th[e.name := Expand(e.value, th)];
            && Expand(e, th) == Expand(e.body, inner)
            && Coherent(e.value, K, th) && Coherent(e.body, K, inner) && e.name in K.names
  {
  }

  lemma EnterLet(g: State, g1: State, x1: Expr, g2: State, e: Expr, K: Reading, th: Subst, inner: Subst)
    requires e.Let? && Valid(g) && Extends(g, g1, x1) && Mutated(g1, x1, e.value, K, th) && e.name in K.names
    requires g2 == g1.(lets := g1.lets + [(e.name, g1.number)]) && inner == th[e.name := Expand(e.value, th)]
    ensures Fits(g2, K, inner)
  {
    ScopedPush(g1, th, e.name, g1.number, Strip(x1));
    SoundWith(g1, g2, K);
  }

  lemma NodeRebuilt(g1: State, ks1: Exprs, e: Expr, K: Reading, th: Subst)
    requires e.Node? && Fits(g1, K, th)
    requires KidsAmong(ks1, g1.entries) && StripAll(ks1) == ExpandAll(e.kids, th)
    ensures Rebuilt(g1.(nextTag := g1.nextTag + 1), Node(g1.nextTag, e.op, ks1), e, K, th)
    ensures ks1 == e.kids ==> Rebuilt(g1, e, e, K, th)
  {
    KidsClosed(ks1, g1.entries, K.names);
    KidsClosed(ks1, g1.entries, {});
    var g2 := g1.(nextTag := g1.nextTag + 1);
    SoundWith(g1, g2, K);
    ScopedMore(g1, g2, th);
  }

  /** Leaving a let: the scope is what it was, and the body's representative stands for the let. */
  lemma LetRebuilt(g1: State, x1: Expr, g2: State, g3: State, r: Expr, e: Expr, K: Reading, th: Subst, inner: Subst)
    requires e.Let? && Mutated(g1, x1, e.value, K, th) && Expand(e, th) == Expand(e.body, inner)
    requires g2.entries == g1.entries && Valid(g2) && Mutated(g3, r, e.body, K, inner) && Extends(g2, g3, r)
    ensures Rebuilt(g3.(lets := g1.lets), r, e, K, th)
  {
    var g4 := g3.(lets := g1.lets);
    SoundWith(g3, g4, K);
    ScopedMore(g1, g4, th);
    if r.Node? {
      KidsAmongMore(r.kids, g3.entries[..g3.number], g3.entries);
    }
  }

  lemma {:induction false} MutateAllSound(g: State, es: Exprs, K: Reading, th: Subst)
    requires Fits(g, K, th) && CoherentAll(es, K, th)
    ensures var (g', rs) := MutateAll(g, es);
            Fits(g', K, th) && StripAll(rs) == ExpandAll(es, th) && KidsAmong(rs, g'.entries)
    decreases es
  {
    if es.Cons? {
      MutateSound(g, es.hd, K, th);
      var (g1, e1) := Mutate(g, es.hd);
      MutateAllSound(g1, es.tl, K, th);
      var (g2, rest) := MutateAll(g1, es.tl);
      assert g2.entries[g1.number] == e1;
    }
  }

  /** The canonical form of a coherent expression is its let-free form. */
  lemma CanonicalMeans(e: Expr, K: Reading, env: Env, I: Meaning)
    requires Coherent(e, K, map[]) && Honest(K)
    ensures var (g, r) := Mutate(Begin(e), e);
            Sound(g, K) && Closed(r, K.names) && Strip(r) == Expand(e, map[]) && Eval(r, env, I) == Eval(e, env, I)
  {
    MutateSound(Begin(e), e, K, map[]);
    var (g, r) := Mutate(Begin(e), e);
    StripMeans(r, env, I);
    ExpandMeans(e, map[], env, env, I);
  }

  // ----- a condition on the input -----

  /** The object `p` occurs in `e` where the let variables stand for `at`; `e` itself is where they stand for
      `th`. */
  ghost predicate Occurs(p: Expr, at: Subst, e: Expr, th: Subst)
    decreases e
  {
    (p == e && at == th) ||
    match e
    case Imm(_) => false
    case Var(_) => false
    case Node(_, _, ks) => OccursIn(p, at, ks, th)
    case Let(_, v, x, b) => Occurs(p, at, x, th) || Occurs(p, at, b, th[v := Expand(x, th)])
  }

  ghost predicate OccursIn(p: Expr, at: Subst, es: Exprs, th: Subst)
    decreases es
  {
    es.Cons? && (Occurs(p, at, es.hd, th) || OccursIn(p, at, es.tl, th))
  }

  /** No object occurs under two bindings that give it different texts. Variables do not count: the numbering
      looks them up in the scope. */
  ghost predicate OneText(e: Expr) {
    forall p: Expr, at: Subst, at': Subst | (p.Node? || p.Let?) && Occurs(p, at, e, map[])
        && Occurs(p, at', e, map[]) ::
      Expand(p, at) == Expand(p, at')
  }

  /** What elimination asks of its input: no let name is free, and objects are not confused. */
  ghost predicate Distinguishable(e: Expr) {
    LetNames(e) !! FreeVars(e) && OneText(e)
  }

  ghost function TextIn(e: Expr, p: Expr): Expr {
    if Closed(p, LetNames(e)) then Strip(p)
    else if exists at :: Occurs(p, at, e, map[]) then (var at :| Occurs(p, at, e, map[]); Expand(p, at))
    else p
  }

  ghost function ReadingOf(e: Expr): Reading {
    Reading(LetNames(e), p => TextIn(e, p))
  }

  /** Every object stands for what it stands for at any of its occurrences. */
  lemma TextAt(e: Expr, p: Expr, at: Subst)
    requires OneText(e) && (p.Node? || p.Let?) && Occurs(p, at, e, map[]) && at.Keys <= LetNames(e)
    ensures TextIn(e, p) == Expand(p, at)
  {
    if Closed(p, LetNames(e)) {
      ClosedFewer(p, LetNames(e), at.Keys);
      ExpandClosed(p, at);
    }
  }

  /** The part `p` of `e`, reached where the let variables stand for `at`. */
  ghost predicate PartOf(p: Expr, at: Subst, e: Expr) {
    forall q, a | Occurs(q, a, p, at) :: Occurs(q, a, e, map[])
  }

  ghost predicate PartsOf(ps: Exprs, at: Subst, e: Expr) {
    forall q, a | OccursIn(q, a, ps, at) :: Occurs(q, a, e, map[])
  }

  lemma {:induction false} PartCoherent(e: Expr, p: Expr, at: Subst)
    requires OneText(e) && PartOf(p, at, e)
    requires at.Keys <= LetNames(e) && LetNames(p) <= LetNames(e) && FreeVars(p) * LetNames(e) <= at.Keys
    ensures Coherent(p, ReadingOf(e), at)
    decreases p
  {
    assert Occurs(p, at, p, at);
    if p.Node? || p.Let? {
      TextAt(e, p, at);
    }
    match p
    case Imm(_) =>
    case Var(v) =>
      if v in LetNames(e) {
        assert v in FreeVars(p) * LetNames(e);
      }
    case Node(_, _, ks) =>
      assert PartsOf(ks, at, e) by {
        forall q, a | OccursIn(q, a, ks, at) ensures Occurs(q, a, e, map[]) {
          assert Occurs(q, a, p, at);
        }
      }
      PartsCoherent(e, ks, at);
    case Let(_, v, x, b) =>
      var inner := at[v := Expand(x, at)];
      forall q, a | Occurs(q, a, x, at) ensures Occurs(q, a, e, map[]) {
        assert Occurs(q, a, p, at);
      }
      forall q, a | Occurs(q, a, b, inner) ensures Occurs(q, a, e, map[]) {
        assert Occurs(q, a, p, at);
      }
      PartCoherent(e, x, at);
      forall u | u in FreeVars(b) * LetNames(e) ensures u in inner.Keys {
        if u != v {
          assert u in FreeVars(p) * LetNames(e);
        }
      }
      PartCoherent(e, b, inner);
  }

  lemma {:induction false} PartsCoherent(e: Expr, ps: Exprs, at: Subst)
    requires OneText(e) && PartsOf(ps, at, e)
    requires at.Keys <= LetNames(e) && LetNamesAll(ps) <= LetNames(e) && FreeVarsAll(ps) * LetNames(e) <= at.Keys
    ensures CoherentAll(ps, ReadingOf(e), at)
    decreases ps
  {
    if ps.Cons? {
      forall q, a | Occurs(q, a, ps.hd, at) ensures Occurs(q, a, e, map[]) {
        assert OccursIn(q, a, ps, at);
      }
      forall q, a | OccursIn(q, a, ps.tl, at) ensures Occurs(q, a, e, map[]) {
        assert OccursIn(q, a, ps, at);
      }
      assert FreeVars(ps.hd) * LetNames(e) <= FreeVarsAll(ps) * LetNames(e);
      assert FreeVarsAll(ps.tl) * LetNames(e) <= FreeVarsAll(ps) * LetNames(e);
      PartCoherent(e, ps.hd, at);
      PartsCoherent(e, ps.tl, at);
    }
  }

  lemma DistinguishableIsCoherent(e: Expr)
    requires Distinguishable(e)
    ensures Coherent(e, ReadingOf(e), map[]) && Honest(ReadingOf(e))
  {
    assert PartOf(e, map[], e);
    assert FreeVars(e) * LetNames(e) == {};
    PartCoherent(e, e, map[]);
    forall p | Closed(p, LetNames(e)) ensures TextOf(ReadingOf(e), p) == Strip(p) {
    }
  }

  // ----- enough: unique names -----

  /** Every let binds its name to what `th` says, and no let variable occurs outside the scope of its let. */
  predicate Tabled(e: Expr, th: Subst, scope: set<Name>) {
    match e
    case Imm(_) => true
    case Var(v) => v in th ==> v in scope
    case Node(_, _, ks) => TabledAll(ks, th, scope)
    case Let(_, v, x, b) =>
      Tabled(x, th, scope) && v in th && th[v] == Expand(x, th) && Tabled(b, th, scope + {v})
  }

  predicate TabledAll(es: Exprs, th: Subst, scope: set<Name>) {
    es.Cons? ==> Tabled(es.hd, th, scope) && TabledAll(es.tl, th, scope)
  }

  /** No name is bound twice. */
  predicate BoundOnce(e: Expr) {
    match e
    case Imm(_) => true
    case Var(_) => true
    case Node(_, _, ks) => BoundOnceAll(ks)
    case Let(_, v, x, b) =>
      BoundOnce(x) && BoundOnce(b) && v !in LetNames(x) + LetNames(b) && LetNames(x) !! LetNames(b)
  }

  predicate BoundOnceAll(es: Exprs) {
    es.Cons? ==> BoundOnce(es.hd) && BoundOnceAll(es.tl) && LetNames(es.hd) !! LetNamesAll(es.tl)
  }

  /** Let names are unique and not free. */
  predicate UniqueNames(e: Expr) {
    BoundOnce(e) && LetNames(e) !! FreeVars(e)
  }

  /** The let-free value of every let variable, outermost first. */
  function LetTable(e: Expr, th: Subst): Subst {
    match e
    case Imm(_) => th
    case Var(_) => th
    case Node(_, _, ks) => LetTableAll(ks, th)
    case Let(_, v, x, b) =>
      var th1 := LetTable(x, th);
      LetTable(b, th1[v := Expand(x, th1)])
  }

  function LetTableAll(es: Exprs, th: Subst): Subst {
    match es
    case Nil => th
    case Cons(e, rest) => LetTableAll(rest, LetTable(e, th))
  }

  predicate Within(th: Subst, th': Subst) {
    forall v | v in th :: v in th' && th'[v] == th[v]
  }

  lemma {:induction false} TableKeys(e: Expr, th: Subst)
    requires BoundOnce(e) && LetNames(e) !! th.Keys
    ensures LetTable(e, th).Keys == th.Keys + LetNames(e) && Within(th, LetTable(e, th))
    decreases e
  {
    match e
    case Imm(_) =>
    case Var(_) =>
    case Node(_, _, ks) => TableKeysAll(ks, th);
    case Let(_, v, x, b) =>
      TableKeys(x, th);
      var th1 := LetTable(x, th);
      TableKeys(b, th1[v := Expand(x, th1)]);
  }

  lemma {:induction false} TableKeysAll(es: Exprs, th: Subst)
    requires BoundOnceAll(es) && LetNamesAll(es) !! th.Keys
    ensures LetTableAll(es, th).Keys == th.Keys + LetNamesAll(es) && Within(th, LetTableAll(es, th))
    decreases es
  {
    if es.Cons? {
      TableKeys(es.hd, th);
      TableKeysAll(es.tl, LetTable(es.hd, th));
    }
  }

  /** The table says what every let means, and still does when names that are not free in the expression are added. */
  lemma {:induction false} TableTabled(e: Expr, th: Subst, all: Subst, scope: set<Name>)
    requires UniqueNames(e) && LetNames(e) !! th.Keys && Within(LetTable(e, th), all)
    requires FreeVars(e) * all.Keys <= th.Keys * scope
    ensures Tabled(e, all, scope)
    decreases e
  {
    match e
    case Imm(_) =>
    case Var(v) =>
      if v in all {
        assert v in FreeVars(e) * all.Keys;
      }
    case Node(_, _, ks) => TableTabledAll(ks, th, all, scope);
    case Let(_, v, x, b) =>
      TableKeys(x, th);
      var th1 := LetTable(x, th);
      var th2 := th1[v := Expand(x, th1)];
      TableKeys(b, th2);
      assert Within(th1, all) && all[v] == th2[v];
      TableTabled(x, th, all, scope);
      forall u | u in FreeVars(x) ensures (u in th1 <==> u in all) && (u in th1 ==> th1[u] == all[u]) {
        if u in all {
          assert u in FreeVars(e) * all.Keys;
        }
      }
      ExpandAgree(x, th1, all);
      forall u | u in FreeVars(b) * all.Keys ensures u in th2.Keys * (scope + {v}) {
        if u != v {
          assert u in FreeVars(e) * all.Keys;
        }
      }
      TableTabled(b, th2, all, scope + {v});
  }

  lemma {:induction false} TableTabledAll(es: Exprs, th: Subst, all: Subst, scope: set<Name>)
    requires BoundOnceAll(es) && LetNamesAll(es) !! FreeVarsAll(es)
    requires LetNamesAll(es) !! th.Keys && Within(LetTableAll(es, th), all)
    requires FreeVarsAll(es) * all.Keys <= th.Keys * scope
    ensures TabledAll(es, all, scope)
    decreases es
  {
    if es.Cons? {
      TableKeys(es.hd, th);
      var th1 := LetTable(es.hd, th);
      TableKeysAll(es.tl, th1);
      TableTabled(es.hd, th, all, scope);
      assert FreeVarsAll(es.tl) * all.Keys <= FreeVarsAll(es) * all.Keys <= th.Keys * scope;
      assert th.Keys <= th1.Keys;
      TableTabledAll(es.tl, th1, all, scope);
    }
  }

  ghost function TableReading(th: Subst): Reading {
    Reading(th.Keys, p => Expand(p, th))
  }

  /** The table says what substituting along the way would say. */
  lemma {:induction false} TabledCoherent(e: Expr, th: Subst, local: Subst, scope: set<Name>)
    requires Tabled(e, th, scope)
    requires local.Keys == scope && Within(local, th)
    ensures Expand(e, th) == Expand(e, local) && Coherent(e, TableReading(th), local)
    decreases e
  {
    match e
    case Imm(_) =>
    case Var(_) =>
    case Node(_, _, ks) => TabledCoherentAll(ks, th, local, scope);
    case Let(_, v, x, b) =>
      TabledCoherent(x, th, local, scope);
      assert th[v := Expand(x, th)] == th;
      TabledCoherent(b, th, local[v := Expand(x, local)], scope + {v});
  }

  lemma {:induction false} TabledCoherentAll(es: Exprs, th: Subst, local: Subst, scope: set<Name>)
    requires TabledAll(es, th, scope)
    requires local.Keys == scope && Within(local, th)
    ensures ExpandAll(es, th) == ExpandAll(es, local) && CoherentAll(es, TableReading(th), local)
    decreases es
  {
    if es.Cons? {
      TabledCoherent(es.hd, th, local, scope);
      TabledCoherentAll(es.tl, th, local, scope);
    }
  }

  /** Unique let names make an expression coherent. */
  lemma UniqueIsCoherent(e: Expr)
    requires UniqueNames(e)
    ensures var K := TableReading(LetTable(e, map[])); Coherent(e, K, map[]) && Honest(K)
  {
    TableKeys(e, map[]);
    var all := LetTable(e, map[]);
    assert FreeVars(e) * all.Keys == {};
    TableTabled(e, map[], all, {});
    TabledCoherent(e, all, map[], {});
    forall p | Closed(p, all.Keys) ensures TextOf(TableReading(all), p) == Strip(p) {
      ExpandClosed(p, all);
    }
  }
}
