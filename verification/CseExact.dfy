/** Exactly when common subexpression elimination preserves meaning: different let-free texts are told apart
    by some meaning of their operators, so it does when the numbering returns the let-free text. */
module CseExact {
  import opened VarNames
  import opened CseIR
  import opened CseGVN
  import opened CseSound
  import opened CseLets
  import opened CseTaken

  // ----- a meaning that tells texts apart -----

  /** All parts of a let-free text are in the list. */
  predicate Covered(e: Expr, us: seq<Expr>) {
    match e
    case Imm(_) => true
    case Var(_) => e in us
    case Node(_, _, ks) => e in us && CoveredAll(ks, us)
    case Let(_, _, _, _) => false
  }

  predicate CoveredAll(es: Exprs, us: seq<Expr>) {
    es.Cons? ==> Covered(es.hd, us) && CoveredAll(es.tl, us)
  }

  /** The numbers up to `base` are those of the constants, the ones from there on those of the texts in the
      list. */
  function Code(e: Expr, us: seq<Expr>, base: int): int {
    if e.Imm? then e.n else if e in us then base + Index(us, e) else base - 1
  }

  function Codes(es: Exprs, us: seq<Expr>, base: int): seq<int> {
    match es
    case Nil => []
    case Cons(e, rest) => [Code(e, us, base)] + Codes(rest, us, base)
  }

  /** No constant reaches `base`. */
  predicate Below(e: Expr, base: int) {
    match e
    case Imm(n) => n < base
    case Var(_) => true
    case Node(_, _, ks) => BelowAll(ks, base)
    case Let(_, _, _, _) => false
  }

  predicate BelowAll(es: Exprs, base: int) {
    es.Cons? ==> Below(es.hd, base) && BelowAll(es.tl, base)
  }

  lemma CodeInjective(e: Expr, e': Expr, us: seq<Expr>, base: int)
    requires Covered(e, us) && Covered(e', us) && Below(e, base) && Below(e', base)
    requires Code(e, us, base) == Code(e', us, base)
    ensures e == e'
  {
    if e in us { IndexAt(us, e); }
    if e' in us { IndexAt(us, e'); }
  }

  lemma {:induction false} CodesInjective(es: Exprs, es': Exprs, us: seq<Expr>, base: int)
    requires CoveredAll(es, us) && CoveredAll(es', us) && BelowAll(es, base) && BelowAll(es', base)
    requires Codes(es, us, base) == Codes(es', us, base)
    ensures es == es'
  {
    if es.Cons? && es'.Cons? {
      assert Codes(es, us, base)[0] == Codes(es', us, base)[0];
      assert Codes(es, us, base)[1..] == Codes(es', us, base)[1..];
      CodeInjective(es.hd, es'.hd, us, base);
      CodesInjective(es.tl, es'.tl, us, base);
    }
  }

  /** The text in the list that applies `op` to texts with these codes. */
  ghost predicate Applies(u: Expr, op: Op, xs: seq<int>, us: seq<Expr>, base: int) {
    u in us && u.Node? && u.op == op && Codes(u.kids, us, base) == xs
  }

  ghost function Answer(op: Op, xs: seq<int>, us: seq<Expr>, base: int): int {
    if exists u :: Applies(u, op, xs, us, base) then (var u :| Applies(u, op, xs, us, base); Code(u, us, base)) else 0
  }

  ghost function VarCodes(us: seq<Expr>, base: int): Env {
    map v | v in Variables(us) :: Code(Var(v), us, base)
  }

  function Variables(us: seq<Expr>): set<Name> {
    if us == [] then {} else (if us[0].Var? then {us[0].name} else {}) + Variables(us[1..])
  }

  lemma {:induction false} VariablesAre(us: seq<Expr>, v: Name)
    ensures v in Variables(us) <==> Var(v) in us
    decreases |us|
  {
    if us != [] {
      VariablesAre(us[1..], v);
      assert us == [us[0]] + us[1..];
    }
  }

  /** A list of texts that holds the parts of each of its texts. */
  ghost predicate Complete(us: seq<Expr>, base: int) {
    forall u | u in us :: Covered(u, us) && Below(u, base) && Strip(u) == u
  }

  lemma {:induction false} CodeIsValue(e: Expr, us: seq<Expr>, base: int, I: Meaning)
    requires Complete(us, base) && Covered(e, us) && Below(e, base) && Strip(e) == e
    requires forall op, xs :: I(op, xs) == Answer(op, xs, us, base)
    ensures Eval(e, VarCodes(us, base), I) == Code(e, us, base)
    decreases e
  {
    match e
    case Imm(_) =>
    case Var(v) => VariablesAre(us, v);
    case Node(_, op, ks) =>
      CodesAreValues(ks, us, base, I);
      var xs := Codes(ks, us, base);
      assert Applies(e, op, xs, us, base);
      var u :| Applies(u, op, xs, us, base) && Answer(op, xs, us, base) == Code(u, us, base);
      assert Covered(u, us) && Below(u, base) && Strip(u) == u;
      CodesInjective(u.kids, ks, us, base);
  }

  lemma {:induction false} CodesAreValues(es: Exprs, us: seq<Expr>, base: int, I: Meaning)
    requires Complete(us, base) && CoveredAll(es, us) && BelowAll(es, base) && StripAll(es) == es
    requires forall op, xs :: I(op, xs) == Answer(op, xs, us, base)
    ensures EvalAll(es, VarCodes(us, base), I) == Codes(es, us, base)
    decreases es
  {
    if es.Cons? {
      CodeIsValue(es.hd, us, base, I);
      CodesAreValues(es.tl, us, base, I);
    }
  }

  // ----- the parts of a text -----

  function Parts(e: Expr): seq<Expr> {
    match e
    case Imm(_) => []
    case Var(_) => [e]
    case Node(_, _, ks) => [e] + PartsAll(ks)
    case Let(_, _, _, _) => []
  }

  function PartsAll(es: Exprs): seq<Expr> {
    match es
    case Nil => []
    case Cons(e, rest) => Parts(e) + PartsAll(rest)
  }

  function Top(e: Expr): int {
    match e
    case Imm(n) => n + 1
    case Var(_) => 0
    case Node(_, _, ks) => TopAll(ks)
    case Let(_, _, _, _) => 0
  }

  function TopAll(es: Exprs): int {
    match es
    case Nil => 0
    case Cons(e, rest) => if Top(e) < TopAll(rest) then TopAll(rest) else Top(e)
  }

  lemma {:induction false} PartsCover(e: Expr, us: seq<Expr>, base: int)
    requires Closed(e, {}) && Strip(e) == e && (forall u | u in Parts(e) :: u in us) && Top(e) <= base
    ensures Covered(e, us) && Below(e, base)
    ensures forall u | u in Parts(e) :: Covered(u, us) && Below(u, base) && Strip(u) == u
    decreases e
  {
    match e
    case Imm(_) =>
    case Var(_) => assert e in Parts(e);
    case Node(_, _, ks) =>
      assert e in Parts(e);
      forall u | u in PartsAll(ks) ensures u in us {
        assert u in Parts(e);
      }
      PartsCoverAll(ks, us, base);
  }

  lemma {:induction false} PartsCoverAll(es: Exprs, us: seq<Expr>, base: int)
    requires ClosedAll(es, {}) && StripAll(es) == es && (forall u | u in PartsAll(es) :: u in us) && TopAll(es) <= base
    ensures CoveredAll(es, us) && BelowAll(es, base)
    ensures forall u | u in PartsAll(es) :: Covered(u, us) && Below(u, base) && Strip(u) == u
    decreases es
  {
    if es.Cons? {
      PartsCover(es.hd, us, base);
      PartsCoverAll(es.tl, us, base);
    }
  }

  /** Two different let-free texts have different values under some meaning of the operators. */
  lemma TextsAreToldApart(s: Expr, t: Expr)
    requires Closed(s, {}) && Closed(t, {}) && Strip(s) == s && Strip(t) == t && s != t
    ensures exists env: Env, I: Meaning :: Eval(s, env, I) != Eval(t, env, I)
  {
    var us := Parts(s) + Parts(t);
    var base := if Top(s) < Top(t) then Top(t) else Top(s);
    PartsCover(s, us, base);
    PartsCover(t, us, base);
    ghost var I: Meaning := (op, xs) => Answer(op, xs, us, base);
    CodeIsValue(s, us, base, I);
    CodeIsValue(t, us, base, I);
    if Code(s, us, base) == Code(t, us, base) {
      CodeInjective(s, t, us, base);
    }
    var env := VarCodes(us, base);
    assert Eval(s, env, I) != Eval(t, env, I);
  }

  // ----- exactly when elimination preserves meaning -----

  /** The result has the value of the input, whatever the variables and operators mean. */
  ghost predicate SameMeaning(e: Expr, r: Expr) {
    forall env: Env, I: Meaning :: Eval(r, env, I) == Eval(e, env, I)
  }

  lemma {:induction false} ExpandLetFree(e: Expr, th: Subst)
    requires forall v | v in th :: Closed(th[v], {}) && Strip(th[v]) == th[v]
    ensures Closed(Expand(e, th), {}) && Strip(Expand(e, th)) == Expand(e, th)
    decreases e
  {
    match e
    case Imm(_) =>
    case Var(_) =>
    case Node(_, _, ks) => ExpandLetFreeAll(ks, th);
    case Let(_, v, x, b) =>
      ExpandLetFree(x, th);
      ExpandLetFree(b, th[v := Expand(x, th)]);
  }

  lemma {:induction false} ExpandLetFreeAll(es: Exprs, th: Subst)
    requires forall v | v in th :: Closed(th[v], {}) && Strip(th[v]) == th[v]
    ensures ClosedAll(ExpandAll(es, th), {}) && StripAll(ExpandAll(es, th)) == ExpandAll(es, th)
    decreases es
  {
    if es.Cons? {
      ExpandLetFree(es.hd, th);
      ExpandLetFreeAll(es.tl, th);
    }
  }

  lemma {:induction false} StripTwice(e: Expr)
    ensures Strip(Strip(e)) == Strip(e)
    decreases e
  {
    match e
    case Imm(_) =>
    case Var(_) =>
    case Node(_, _, ks) => StripTwiceAll(ks);
    case Let(_, _, x, b) => StripTwice(x); StripTwice(b);
  }

  lemma {:induction false} StripTwiceAll(es: Exprs)
    ensures StripAll(StripAll(es)) == StripAll(es)
    decreases es
  {
    if es.Cons? {
      StripTwice(es.hd);
      StripTwiceAll(es.tl);
    }
  }

  /** Elimination preserves meaning exactly when the input, read in the order of the traversal with each object taken
      for the text under which it was remembered, is taken for its let-free text: counting uses and introducing lets
      never do harm. */
  lemma EliminateExactly(e: Expr, liftAll: bool, nm: Names)
    requires FreshNames(nm, Occurring(e))
    ensures SameMeaning(e, Eliminate(e, liftAll, nm)) <==> TakenFor(e) == Expand(e, map[])
  {
    if IsConst(e) || e.Var? {
      if IsConst(e) {
        ConstClosed(e);
      }
      LetFreeIsTaken(e);
    } else {
      hide TakenFor;
      CanonicalIsTaken(e);
      EliminateExactlyCanonical(e, liftAll, nm);
    }
  }

  lemma {:induction false} ConstClosed(e: Expr)
    requires IsConst(e)
    ensures Closed(e, {})
  {
    if e.Node? {
      ConstsClosed(e.kids);
    }
  }

  lemma {:induction false} ConstsClosed(es: Exprs)
    requires AllConst(es)
    ensures ClosedAll(es, {})
  {
    if es.Cons? {
      ConstClosed(es.hd);
      ConstsClosed(es.tl);
    }
  }

  function Literal(): Reading {
    Reading({}, p => Strip(p))
  }

  lemma {:induction false} LetFreeCoherent(e: Expr)
    requires Closed(e, {})
    ensures Coherent(e, Literal(), map[])
  {
    if e.Node? {
      LetFreeCoherentAll(e.kids);
      var none: Subst := map[];
      assert none.Keys == {};
      ExpandClosed(e, none);
    }
  }

  lemma {:induction false} LetFreeCoherentAll(es: Exprs)
    requires ClosedAll(es, {})
    ensures CoherentAll(es, Literal(), map[])
  {
    if es.Cons? {
      LetFreeCoherent(es.hd);
      LetFreeCoherentAll(es.tl);
    }
  }

  /** Without lets the input is taken for its text. */
  lemma LetFreeIsTaken(e: Expr)
    requires Closed(e, {})
    ensures TakenFor(e) == Expand(e, map[])
  {
    LetFreeCoherent(e);
    CanonicalIsTaken(e);
    CanonicalMeans(e, Literal(), map[], (_, _) => 0);
  }

  /** In terms of what the numbering returns. */
  lemma EliminateExactlyCanonical(e: Expr, liftAll: bool, nm: Names)
    requires !IsConst(e) && !e.Var? && FreshNames(nm, Occurring(e))
    ensures SameMeaning(e, Eliminate(e, liftAll, nm)) <==> Strip(Canonical(e).1) == Expand(e, map[])
  {
    var r, s, t := Eliminate(e, liftAll, nm), Strip(Canonical(e).1), Expand(e, map[]);
    forall env: Env, I: Meaning ensures Eval(r, env, I) == Eval(s, env, I) && Eval(e, env, I) == Eval(t, env, I) {
      LettingMeans(e, liftAll, nm, env, I);
      StripMeans(Canonical(e).1, env, I);
      ExpandMeans(e, map[], env, env, I);
    }
    if s != t {
      ChosenOrdered(e, liftAll);
      StripClosed(Canonical(e).1, {});
      StripTwice(Canonical(e).1);
      ExpandLetFree(e, map[]);
      TextsAreToldApart(s, t);
      var env: Env, I: Meaning :| Eval(s, env, I) != Eval(t, env, I);
      assert Eval(r, env, I) != Eval(e, env, I);
    }
  }

  // ----- the condition is not necessary -----

  /** f(let x = 2 in x, x): the last x means the x outside. */
  ghost predicate Harmless(e: Expr, inner: Expr) {
    && inner.Let? && inner.name == Plain("x") && inner.value == Imm(2) && inner.body == Var(Plain("x"))
    && e.Node? && e.op == Call("f", Pure) && e.kids == Cons(inner, Cons(Var(Plain("x")), Nil))
  }

  /** A let of a constant whose body is its variable is the constant. */
  lemma LetOfConstant(g: State, inner: Expr, n: Expr) returns (g': State)
    requires g == State([], map[], map[], [], 0, g.nextTag) && n.Imm?
    requires inner.Let? && inner.value == n && inner.body == Var(inner.name)
    ensures Valid(g') && Mutate(g, inner) == (g', n) && g'.lets == []
    ensures g'.shallow.Keys == {n, inner} && g'.numbering.Keys == {n}
  {
    NewLeaf(g, n);
    var g1 := AddEntry(g, n);
    var g2 := g1.(lets := g1.lets + [(inner.name, g1.number)]);
    MutateSteps(g2, inner.body);
    assert InScope(g2.lets, inner.name) && Number(g2.lets, inner.name) == 0;
    StripLet(inner);
    MutateSteps(g, inner);
    LetSteps(g, inner);
    g' := Mutate(g, inner).0;
  }

  lemma HarmlessForm(g: State, e: Expr, inner: Expr, n: Expr, x: Expr) returns (tag: nat)
    requires g == State([], map[], map[], [], 0, g.nextTag) && n.Imm? && x.Var?
    requires inner.Let? && inner.value == n && inner.body == x && inner.name == x.name
    requires e.Node? && e.kids == Cons(inner, Cons(x, Nil))
    ensures Mutate(g, e).1 == Node(tag, e.op, Cons(n, Cons(x, Nil)))
  {
    hide *;
    EmptyIsValid(g);
    var g1 := LetOfConstant(g, inner, n);
    StripLeaf(x);
    NewLeaf(g1, x);
    var g2 := AddEntry(g1, x);
    AddedLeaf(g1, x);
    tag := g2.nextTag;
    var r := Node(tag, e.op, Cons(n, Cons(x, Nil)));
    StripBoth(r, n, x);
    StripBoth(e, inner, x);
    CallOfTwo(g, g1, g2, e, inner, x, n, x, r);
  }

  lemma StripLeaf(x: Expr)
    requires x.Var? || x.Imm?
    ensures Strip(x) == x
  {
  }

  lemma AddedLeaf(g: State, x: Expr)
    requires Valid(g) && (x.Var? || x.Imm?)
    ensures AddEntry(g, x).numbering.Keys == g.numbering.Keys + {x} && Valid(AddEntry(g, x))
  {
  }

  /** A let name may be free and the meaning still be preserved, when the numbering has not met the free one
      yet: the condition of EliminateMeans is enough, not necessary. */
  lemma FreeNameMayBeHarmless(e: Expr, inner: Expr, liftAll: bool, nm: Names)
    requires Harmless(e, inner) && FreshNames(nm, Occurring(e))
    ensures !Distinguishable(e) && SameMeaning(e, Eliminate(e, liftAll, nm))
  {
    var x, n := Var(Plain("x")), Imm(2);
    var tag := HarmlessForm(Begin(e), e, inner, n, x);
    StripBoth(Canonical(e).1, n, x);
    HarmlessText(e, inner, n, x);
    HarmlessNames(e, inner, n, x);
    EliminateExactlyCanonical(e, liftAll, nm);
  }

  lemma HarmlessText(e: Expr, inner: Expr, n: Expr, x: Expr)
    requires n.Imm? && x.Var? && inner.Let? && inner.value == n && inner.body == x && inner.name == x.name
    requires e.Node? && e.kids == Cons(inner, Cons(x, Nil))
    ensures Expand(e, map[]) == Node(0, e.op, Cons(n, Cons(x, Nil)))
  {
    var none: Exprs := Nil;
    assert ExpandAll(none, map[]) == none;
    assert ExpandAll(Cons(x, none), map[]) == Cons(x, none);
    assert Expand(inner, map[]) == Expand(x, map[inner.name := n]) == n;
  }

  lemma HarmlessNames(e: Expr, inner: Expr, n: Expr, x: Expr)
    requires n.Imm? && x.Var? && inner.Let? && inner.value == n && inner.body == x && inner.name == x.name
    requires e.Node? && e.kids == Cons(inner, Cons(x, Nil))
    ensures x.name in LetNames(e) && x.name in FreeVars(e)
  {
    assert LetNames(inner) == LetNames(n) + {x.name} + LetNames(x);
    assert x.name in FreeVars(x) && x.name in FreeVarsAll(Cons(x, Nil));
  }
}
