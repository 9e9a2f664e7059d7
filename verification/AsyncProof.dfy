/** The forked body computes what the sequential body computes: over every interleaving, with no
    deadlock, and with every semaphore back at zero. */
module AsyncProof {
  import opened StmtIR
  import opened AsyncShape
  import opened AsyncCount

  /** The store after the first `n` actions. */
  function At(t: seq<Act>, n: nat, store: Store): Store
    requires n <= |t|
  {
    DoAll(t[..n], store)
  }

  /** In the sequential run, a cell of the function that something other than its produce node reads, in a
      store or in control, keeps its value from then on: produce instances that come later write other
      cells, or the same values. */
  ghost predicate Undisturbed(t: seq<Act>, func: string, store: Store) {
    forall m, n, c | 0 <= m <= n <= |t| && m < |t| && IsItem(t[m], func, false)
                     && c in ActReads(t[m], At(t, m, store)) && c.0 == func ::
      Get(At(t, n, store), c) == Get(At(t, m, store), c)
  }

  // ----- dropping tests keeps this -----

  /** Where position `m` of the thinner sequence stands in the fuller one. */
  function Place(t: seq<Act>, u: seq<Act>, m: nat): nat
    requires Thin(t, u) && m <= |u|
    decreases |t|
  {
    if t == [] then 0
    else if u != [] && t[0] == u[0]
        && Thin(t[1..], u[1..]) then (if m == 0 then 0 else 1 + Place(t[1..], u[1..], m - 1))
    else 1 + Place(t[1..], u, m)
  }

  lemma {:induction false} PlaceOk(t: seq<Act>, u: seq<Act>, m: nat, store: Store)
    requires Thin(t, u) && m <= |u|
    ensures Place(t, u, m) <= |t| && At(t, Place(t, u, m), store) == At(u, m, store)
    ensures m < |u| ==> Place(t, u, m) < |t| && t[Place(t, u, m)] == u[m]
    decreases |t|
  {
    if t == [] {
      assert t[..0] == u[..m];
    } else if u != [] && t[0] == u[0] && Thin(t[1..], u[1..]) {
      if m > 0 {
        PlaceOk(t[1..], u[1..], m - 1, Do(t[0], store));
        FirstDone(t, Place(t, u, m), store);
        FirstDone(u, m, store);
      }
    } else {
      PlaceOk(t[1..], u, m, store);
      FirstDone(t, Place(t, u, m), store);
      assert Do(t[0], store) == store;
    }
  }

  lemma FirstDone(t: seq<Act>, n: nat, store: Store)
    requires 0 < n <= |t|
    ensures At(t, n, store) == At(t[1..], n - 1, Do(t[0], store))
  {
    assert t[..n][1..] == t[1..][..n - 1];
  }

  lemma {:induction false} PlaceMonotone(t: seq<Act>, u: seq<Act>, m: nat, n: nat)
    requires Thin(t, u) && m <= n <= |u|
    ensures Place(t, u, m) <= Place(t, u, n)
    decreases |t|
  {
    if t != [] {
      if u != [] && t[0] == u[0] && Thin(t[1..], u[1..]) {
        if m > 0 { PlaceMonotone(t[1..], u[1..], m - 1, n - 1); }
      } else {
        PlaceMonotone(t[1..], u, m, n);
      }
    }
  }

  lemma ThinUndisturbed(t: seq<Act>, u: seq<Act>, func: string, store: Store)
    requires Thin(t, u) && Undisturbed(t, func, store)
    ensures Undisturbed(u, func, store)
  {
    forall m, n, c | 0 <= m <= n <= |u| && m < |u| && IsItem(u[m], func, false)
                     && c in ActReads(u[m], At(u, m, store)) && c.0 == func
      ensures Get(At(u, n, store), c) == Get(At(u, m, store), c)
    {
      PlaceOk(t, u, m, store);
      PlaceOk(t, u, n, store);
      PlaceMonotone(t, u, m, n);
      assert IsItem(t[Place(t, u, m)], func, false);
    }
  }

  // ----- stores among the actions -----

  /** The stores among the actions of one side. */
  function Writes(t: seq<Act>, func: string, own: bool): seq<Act> {
    if t == [] then []
    else (if t[0].Write? && (t[0].func == func) == own then [t[0]] else []) + Writes(t[1..], func, own)
  }

  lemma {:induction false} WritesConcat(t: seq<Act>, u: seq<Act>, func: string, own: bool)
    ensures Writes(t + u, func, own) == Writes(t, func, own) + Writes(u, func, own)
    decreases |t|
  {
    if t == [] {
      assert t + u == u;
    } else {
      assert (t + u)[1..] == t[1..] + u;
      WritesConcat(t[1..], u, func, own);
      SeqAssoc(if t[0].Write? && (t[0].func == func) == own then [t[0]] else [],
               Writes(t[1..], func, own), Writes(u, func, own));
    }
  }

  lemma WritesPrefix(t: seq<Act>, u: seq<Act>, func: string, own: bool)
    requires t <= u
    ensures Writes(t, func, own) <= Writes(u, func, own)
  {
    assert u == t + u[|t|..];
    WritesConcat(t, u[|t|..], func, own);
  }

  lemma {:induction false} WritesOfItems(t: seq<Act>, func: string, own: bool)
    ensures Writes(Items(t, func, own), func, own) == Writes(t, func, own)
    decreases |t|
  {
    if t != [] {
      WritesOfItems(t[1..], func, own);
      if IsItem(t[0], func, own) {
        assert Items(t, func, own)[1..] == Items(t[1..], func, own);
      } else {
        assert Items(t, func, own) == Items(t[1..], func, own);
      }
    }
  }

  /** Equal items, equal stores; fewer items, fewer stores. */
  lemma WritesFollowItems(t: seq<Act>, u: seq<Act>, func: string, own: bool)
    requires Items(t, func, own) <= Items(u, func, own)
    ensures Writes(t, func, own) <= Writes(u, func, own)
  {
    WritesOfItems(t, func, own);
    WritesOfItems(u, func, own);
    WritesPrefix(Items(t, func, own), Items(u, func, own), func, own);
  }

  lemma {:induction false} ThinWrites(t: seq<Act>, u: seq<Act>, func: string, own: bool)
    requires Thin(t, u)
    ensures Writes(t, func, own) == Writes(u, func, own)
    decreases |t|
  {
    if t != [] {
      if u != [] && t[0] == u[0] && Thin(t[1..], u[1..]) {
        ThinWrites(t[1..], u[1..], func, own);
      } else {
        ThinWrites(t[1..], u, func, own);
      }
    }
  }

  lemma WritesSnoc(t: seq<Act>, a: Act, func: string, own: bool)
    ensures Writes(t + [a], func, own) ==
            Writes(t, func, own) + if a.Write? && (a.func == func) == own then [a] else []
  {
    WritesConcat(t, [a], func, own);
    assert [a][1..] == [];
  }

  // ----- the two halves of a store -----

  function Part(func: string, own: bool, s: Store): Store {
    map c | c in s && (c.0 == func) == own :: s[c]
  }

  /** The function's cells from one store and the rest from another. */
  function Mix(func: string, a: Store, b: Store): Store {
    Part(func, true, a) + Part(func, false, b)
  }

  lemma PartGet(func: string, own: bool, s: Store, s': Store, c: Cell)
    requires Part(func, own, s) == Part(func, own, s') && (c.0 == func) == own
    ensures Get(s, c) == Get(s', c)
  {
    var p := Part(func, own, s);
    assert (c in s <==> c in p) && (c in s' <==> c in p);
    if c in p {
      assert s[c] == p[c] == s'[c];
    }
  }

  lemma MixGet(func: string, a: Store, b: Store, c: Cell)
    ensures Get(Mix(func, a, b), c) == Get(if c.0 == func then a else b, c)
  {
  }

  lemma MixSelf(func: string, a: Store)
    ensures Mix(func, a, a) == a
  {
  }

  /** Equal reads, equal effect. */
  lemma DoFrame(a: Act, s: Store, s': Store)
    requires a.Write? && AgreeOn(ActReads(a, s), s, s')
    ensures Eval(a.index, map[], s) == Eval(a.index, map[], s')
    ensures Eval(a.value, map[], s) == Eval(a.value, map[], s')
  {
    EvalFrame(a.index, map[], s, s');
    EvalFrame(a.value, map[], s, s');
  }

  lemma HoldsFrame(a: Act, s: Store, s': Store)
    requires a.Test? && AgreeOn(ActReads(a, s), s, s')
    ensures Holds(a, s) <==> Holds(a, s')
  {
    EvalFrame(a.e1, map[], s, s');
    EvalFrame(a.e2, map[], s, s');
  }

  lemma DoMixOwn(func: string, a: Store, b: Store, act: Act)
    requires IsItem(act, func, true) && AgreeOn(ActReads(act, a), a, Mix(func, a, b))
    ensures Do(act, Mix(func, a, b)) == Mix(func, Do(act, a), b)
  {
    if act.Write? {
      DoFrame(act, a, Mix(func, a, b));
    }
  }

  lemma DoMixOther(func: string, a: Store, b: Store, act: Act)
    requires IsItem(act, func, false) && AgreeOn(ActReads(act, b), b, Mix(func, a, b))
    ensures Do(act, Mix(func, a, b)) == Mix(func, a, Do(act, b))
  {
    if act.Write? {
      DoFrame(act, b, Mix(func, a, b));
    }
  }

  lemma ActReadsAreLoads(a: Act, s: Store, c: Cell)
    requires c in ActReads(a, s)
    ensures c.0 in ActLoads(a)
  {
    match a
    case Write(_, i, v) => ReadsAreLoads(i, map[], s); ReadsAreLoads(v, map[], s);
    case Acq(_, _) =>
    case Rel(_, _) =>
    case Test(_, e1, e2, _, _) => ReadsAreLoads(e1, map[], s); ReadsAreLoads(e2, map[], s);
  }

  // ----- the function's half depends on the function's writes only -----

  predicate BodyAct(a: Act, func: string, w: set<string>) {
    OwnAct(a, func, w) || OtherAct(a, func, w)
  }

  /** Both stores give an own action the same values. */
  lemma OwnReads(a: Act, func: string, w: set<string>, s: Store, s': Store)
    requires OwnAct(a, func, w)
    requires Part(func, true, s) == Part(func, true, s') && AgreeOutside(w, s, s')
    ensures AgreeOn(ActReads(a, s), s, s')
  {
    forall c | c in ActReads(a, s) ensures Get(s, c) == Get(s', c) {
      ActReadsAreLoads(a, s, c);
      if c.0 == func {
        PartGet(func, true, s, s', c);
      } else {
        assert c.0 !in ActLoads(a) * w;
        assert Outside(c, w);
      }
    }
  }

  lemma OwnStep(a: Act, func: string, w: set<string>, s: Store, s': Store)
    requires OwnAct(a, func, w)
    requires Part(func, true, s) == Part(func, true, s') && AgreeOutside(w, s, s')
    ensures Part(func, true, Do(a, s)) == Part(func, true, Do(a, s'))
  {
    OwnReads(a, func, w, s, s');
    if a.Write? {
      DoFrame(a, s, s');
      var cell := (func, Eval(a.index, map[], s));
      assert Part(func, true, Do(a, s)) == Part(func, true, s)[cell := Eval(a.value, map[], s)];
      assert Part(func, true, Do(a, s')) == Part(func, true, s')[cell := Eval(a.value, map[], s)];
    }
  }

  lemma OtherStep(a: Act, func: string, s: Store)
    requires IsItem(a, func, false)
    ensures Part(func, true, Do(a, s)) == Part(func, true, s)
  {
  }

  lemma NotOtherStep(a: Act, func: string, s: Store)
    requires IsItem(a, func, true)
    ensures Part(func, false, Do(a, s)) == Part(func, false, s)
  {
  }

  lemma ItemsSnoc(t: seq<Act>, n: nat, func: string, own: bool)
    requires n < |t|
    ensures Items(t[..n + 1], func, own) ==
            Items(t[..n], func, own) + if IsItem(t[n], func, own) then [t[n]] else []
  {
    assert t[..n + 1] == t[..n] + [t[n]];
    ItemsConcat(t[..n], [t[n]], func, own);
    assert [t[n]][1..] == [];
  }

  lemma ItemsSubset(t: seq<Act>, func: string, own: bool)
    ensures forall a | a in Items(t, func, own) :: a in t && IsItem(a, func, own)
  {
  }

  lemma BodyActsInside(t: seq<Act>, n: nat, func: string, w: set<string>)
    requires n <= |t| && forall a | a in t :: BodyAct(a, func, w)
    ensures forall a | a in t[..n] :: a in t && (a.Write? ==> a.func in w)
  {
    forall a | a in t[..n] ensures a in t && (a.Write? ==> a.func in w) {
      assert a in t && BodyAct(a, func, w);
    }
  }

  lemma {:induction false} OwnHalf(t: seq<Act>, n: nat, func: string, w: set<string>, store: Store)
    requires n <= |t| && forall a | a in t :: BodyAct(a, func, w)
    ensures Part(func, true, At(t, n, store)) == Part(func, true, DoAll(Items(t[..n], func, true), store))
    decreases n
  {
    if n == 0 {
      assert t[..0] == [];
    } else {
      OwnHalf(t, n - 1, func, w, store);
      DoAllSnoc(t, n - 1, store);
      ItemsSnoc(t, n - 1, func, true);
      var a, own := t[n - 1], Items(t[..n - 1], func, true);
      assert a in t && BodyAct(a, func, w);
      if IsItem(a, func, true) {
        DoAllConcat(own, [a], store);
        assert [a][1..] == [];
        ItemsSubset(t[..n - 1], func, true);
        BodyActsInside(t, n - 1, func, w);
        WritesStayInside(t[..n - 1], w, store);
        WritesStayInside(own, w, store);
        OwnStep(a, func, w, At(t, n - 1, store), DoAll(own, store));
      } else {
        assert own + [] == own;
        OtherStep(a, func, At(t, n - 1, store));
      }
    }
  }

  /** Positions with the same writes outside the function between them agree outside the function. */
  lemma {:induction false} OtherHalf(t: seq<Act>, m: nat, n: nat, func: string, w: set<string>, store: Store)
    requires m <= n <= |t| && forall a | a in t :: BodyAct(a, func, w)
    requires Items(t[..m], func, false) == Items(t[..n], func, false)
    ensures Part(func, false, At(t, m, store)) == Part(func, false, At(t, n, store))
    decreases n - m
  {
    if m < n {
      ItemsSnoc(t, n - 1, func, false);
      ItemsMonotone(t, m, n - 1, func, false);
      assert t[n - 1] in t;
      OtherHalf(t, m, n - 1, func, w, store);
      DoAllSnoc(t, n - 1, store);
      NotOtherStep(t[n - 1], func, At(t, n - 1, store));
    }
  }

  lemma {:induction false} ItemsMonotone(t: seq<Act>, m: nat, n: nat, func: string, own: bool)
    requires m <= n <= |t|
    ensures Items(t[..m], func, own) <= Items(t[..n], func, own)
    decreases n - m
  {
    if m < n {
      ItemsMonotone(t, m, n - 1, func, own);
      ItemsSnoc(t, n - 1, func, own);
    }
  }

  /** Some later prefix of a trace has made exactly the first items `p` of its items of the function. */
  lemma {:induction false} ReachItems(t: seq<Act>, m: nat, p: seq<Act>, func: string) returns (n: nat)
    requires m <= |t| && Items(t[..m], func, true) <= p <= Items(t, func, true)
    ensures m <= n <= |t| && Items(t[..n], func, true) == p
    decreases |t| - m
  {
    if Items(t[..m], func, true) == p {
      n := m;
    } else {
      assert t[..|t|] == t;
      assert m < |t|;
      ItemsSnoc(t, m, func, true);
      ItemsMonotone(t, m + 1, |t|, func, true);
      NextPrefix(Items(t[..m], func, true), Items(t[..m + 1], func, true), p, Items(t, func, true));
      n := ReachItems(t, m + 1, p, func);
    }
  }

  lemma NextPrefix(a: seq<Act>, b: seq<Act>, p: seq<Act>, all: seq<Act>)
    requires a <= p <= all && a != p && b <= all && a <= b && |b| <= |a| + 1
    ensures b <= p
  {
    assert b == all[..|b|] && p == all[..|p|];
  }

  // ----- what may appear in the three traces -----

  lemma {:induction false} TraceActs(gs: seq<Seg>, func: string, w: set<string>, sema: seq<Sema>)
    requires SegsOk(gs, func, w, sema) && Distinct(sema)
    ensures forall a | a in BodyTrace(gs, func) :: BodyAct(a, func, w)
    ensures forall a | a in ProducerTrace(gs, sema) :: OwnAct(a, func, w) || (a.Rel? && a.n == 1)
    ensures forall a | a in ConsumerTrace(gs) :: ConsumeAct(a, func, w)
    decreases |gs|
  {
    if gs != [] {
      var g := gs[0];
      assert g in gs;
      TraceActs(gs[1..], func, w, sema);
      if sema != [] {
        RelsCount(sema, sema[0]);
      }
      if g.Round? {
        OthersFrom(g.cons, func, w);
      }
    }
  }

  lemma {:induction false} OthersFrom(t: seq<Act>, func: string, w: set<string>)
    requires forall a | a in t :: ConsumeAct(a, func, w)
    ensures forall a | a in Items(t, func, false) :: OtherAct(a, func, w)
    decreases |t|
  {
    if t != [] {
      assert t[0] in t;
      OthersFrom(t[1..], func, w);
    }
  }
}
