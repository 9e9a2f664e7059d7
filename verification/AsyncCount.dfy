/** What the semaphores of a forked body count: releases per produce, acquires per consume, and how
    the positions of the two copies relate to positions of the original trace. */
module AsyncCount {
  import opened StmtIR
  import opened AsyncFork
  import opened AsyncShape

  function CountAcq(t: seq<Act>, s: Sema): nat {
    if t == [] then 0 else (if t[0].Acq? && t[0].sema == s then 1 else 0) + CountAcq(t[1..], s)
  }

  function CountRel(t: seq<Act>, s: Sema): nat {
    if t == [] then 0 else (if t[0].Rel? && t[0].sema == s then 1 else 0) + CountRel(t[1..], s)
  }

  lemma {:induction false} CountConcat(t: seq<Act>, u: seq<Act>, s: Sema)
    ensures CountAcq(t + u, s) == CountAcq(t, s) + CountAcq(u, s)
    ensures CountRel(t + u, s) == CountRel(t, s) + CountRel(u, s)
    decreases |t|
  {
    if t == [] {
      assert t + u == u;
    } else {
      assert (t + u)[1..] == t[1..] + u;
      CountConcat(t[1..], u, s);
    }
  }

  /** Counts of a prefix never exceed those of the whole. */
  lemma CountPrefix(t: seq<Act>, n: nat, s: Sema)
    requires n <= |t|
    ensures CountAcq(t[..n], s) <= CountAcq(t, s)
    ensures CountRel(t[..n], s) <= CountRel(t, s)
  {
    assert t == t[..n] + t[n..];
    CountConcat(t[..n], t[n..], s);
  }

  lemma {:induction false} CountNone(t: seq<Act>, s: Sema)
    requires forall a | a in t :: !a.Acq? && !a.Rel?
    ensures CountAcq(t, s) == CountRel(t, s) == 0
    decreases |t|
  {
    if t != [] {
      assert t[0] in t;
      CountNone(t[1..], s);
    }
  }

  function Occurrences(ss: seq<Sema>, s: Sema): nat {
    if ss == [] then 0 else (if ss[0] == s then 1 else 0) + Occurrences(ss[1..], s)
  }

  lemma {:induction false} AcqOccurrences(t: seq<Act>, s: Sema)
    ensures CountAcq(t, s) == Occurrences(Acqs(t), s)
    decreases |t|
  {
    if t != [] {
      AcqOccurrences(t[1..], s);
      if t[0].Acq? {
        assert Acqs(t)[1..] == Acqs(t[1..]);
      } else {
        assert Acqs(t) == Acqs(t[1..]);
      }
    }
  }

  predicate Distinct<T(==)>(ss: seq<T>) {
    forall i, j | 0 <= i < j < |ss| :: ss[i] != ss[j]
  }

  lemma SemasDistinct(func: string, n: nat)
    ensures Distinct(Semas(func, n))
  {
  }

  lemma {:induction false} ReverseOccurrences(ss: seq<Sema>, s: Sema)
    requires Distinct(ss)
    ensures Occurrences(Reverse(ss), s) == if s in ss then 1 else 0
    decreases |ss|
  {
    if ss != [] {
      var rest := ss[..|ss| - 1];
      ReverseOccurrences(rest, s);
      assert Reverse(ss)[1..] == Reverse(rest);
      assert s in ss <==> s in rest || s == ss[|ss| - 1];
      assert ss[|ss| - 1] !in rest;
    }
  }

  lemma {:induction false} RelsCount(ss: seq<Sema>, s: Sema)
    requires Distinct(ss)
    ensures CountRel(Rels(ss), s) == if s in ss then 1 else 0
    ensures forall a | a in Rels(ss) :: a.Rel? && a.n == 1
    decreases |ss|
  {
    if ss != [] {
      var rest := ss[..|ss| - 1];
      RelsCount(rest, s);
      assert Rels(ss)[1..] == Rels(rest);
      assert s in ss <==> s in rest || s == ss[|ss| - 1];
      assert ss[|ss| - 1] !in rest;
    }
  }

  // ----- rounds -----

  /** All writes of the first `k` executions of the produce node. */
  function FirstRuns(ts: seq<seq<Act>>, k: nat): seq<Act> {
    Flatten(ts[..if k < |ts| then k else |ts|])
  }

  lemma FirstRunsCons(t: seq<Act>, ts: seq<seq<Act>>, k: nat)
    ensures FirstRuns([t] + ts, k) == if k == 0 then [] else t + FirstRuns(ts, k - 1)
  {
    if k > 0 {
      var n := if k < |ts| + 1 then k else |ts| + 1;
      var m := if k - 1 < |ts| then k - 1 else |ts|;
      assert ([t] + ts)[..n] == [t] + ts[..m];
      assert ([t] + ts[..m])[1..] == ts[..m];
    }
  }

  lemma {:induction false} FirstRunsMonotone(ts: seq<seq<Act>>, k: nat, n: nat)
    requires k <= n
    ensures FirstRuns(ts, k) <= FirstRuns(ts, n)
    decreases |ts|
  {
    if ts != [] && k > 0 {
      assert ts == [ts[0]] + ts[1..];
      FirstRunsCons(ts[0], ts[1..], k);
      FirstRunsCons(ts[0], ts[1..], n);
      FirstRunsMonotone(ts[1..], k - 1, n - 1);
    } else if ts != [] {
      assert ts[..0] == [];
    }
  }

  /** Each round releases every semaphore of the vector once and acquires it once. */
  lemma RoundCounts(g: Seg, func: string, w: set<string>, sema: seq<Sema>, s: Sema)
    requires SegOk(g, func, w, sema) && Distinct(sema)
    ensures CountAcq(ConsumerActs(g), s) == CountRel(ProducerActs(g, sema), s) == if g.Round? && s in sema then 1 else 0
  {
    match g
    case Idle(acts) => CountNone(acts, s);
    case Round(inst, cons) =>
      AcqOccurrences(cons, s);
      ReverseOccurrences(sema, s);
      CountNone(inst, s);
      RelsCount(sema, s);
      CountConcat(inst, Rels(sema), s);
  }

  /** Over a whole body releases equal acquires, one of each per execution of the produce node. */
  lemma {:induction false} BalancedSemas(gs: seq<Seg>, func: string, w: set<string>, sema: seq<Sema>, s: Sema)
    requires SegsOk(gs, func, w, sema) && Distinct(sema)
    ensures CountAcq(ConsumerTrace(gs), s) == CountRel(ProducerTrace(gs, sema), s) == if s in sema then |Instances(gs)|
            else 0
    decreases |gs|
  {
    if gs != [] {
      assert gs[0] in gs;
      RoundCounts(gs[0], func, w, sema, s);
      BalancedSemas(gs[1..], func, w, sema, s);
      CountConcat(ConsumerActs(gs[0]), ConsumerTrace(gs[1..]), s);
      CountConcat(ProducerActs(gs[0], sema), ProducerTrace(gs[1..], sema), s);
    }
  }

  // ----- the producer side -----

  lemma ItemsOfRels(ss: seq<Sema>, func: string, own: bool)
    requires Distinct(ss)
    ensures Items(Rels(ss), func, own) == []
  {
    if ss != [] {
      RelsCount(ss, ss[0]);
    }
    ItemsNone(Rels(ss), func, own);
  }

  lemma ProducerActsItems(g: Seg, func: string, w: set<string>, sema: seq<Sema>)
    requires SegOk(g, func, w, sema) && Distinct(sema)
    ensures Items(ProducerActs(g, sema), func, true) == if g.Round? then g.inst else []
    ensures Items(BodyActs(g, func), func, true) == if g.Round? then g.inst else []
    ensures Items(BodyActs(g, func), func, false) == Items(ConsumerActs(g), func, false)
  {
    match g
    case Idle(acts) => ItemsNone(acts, func, true);
    case Round(inst, cons) =>
      ItemsAll(inst, func, true);
      ItemsOfRels(sema, func, true);
      ItemsConcat(inst, Rels(sema), func, true);
      var others := Items(cons, func, false);
      OthersOnly(cons, func);
      ItemsAll(others, func, false);
      ItemsConcat(inst, others, func, true);
      ItemsConcat(inst, others, func, false);
  }

  lemma {:induction false} OthersOnly(t: seq<Act>, func: string)
    ensures forall a | a in Items(t, func, false) :: IsItem(a, func, false)
    decreases |t|
  {
    if t != [] {
      OthersOnly(t[1..], func);
    }
  }

  /** The producer copy writes what the body writes to the function; the consumer copy the rest. */
  lemma {:induction false} CopiesPartition(gs: seq<Seg>, func: string, w: set<string>, sema: seq<Sema>)
    requires SegsOk(gs, func, w, sema) && Distinct(sema)
    ensures Items(ProducerTrace(gs, sema), func, true) == Items(BodyTrace(gs, func), func, true)
            == Flatten(Instances(gs))
    ensures Items(ConsumerTrace(gs), func, false) == Items(BodyTrace(gs, func), func, false)
    decreases |gs|
  {
    if gs != [] {
      var g := gs[0];
      assert g in gs;
      CopiesPartition(gs[1..], func, w, sema);
      ProducerActsItems(g, func, w, sema);
      ItemsConcat(ProducerActs(g, sema), ProducerTrace(gs[1..], sema), func, true);
      ItemsConcat(BodyActs(g, func), BodyTrace(gs[1..], func), func, true);
      ItemsConcat(BodyActs(g, func), BodyTrace(gs[1..], func), func, false);
      ItemsConcat(ConsumerActs(g), ConsumerTrace(gs[1..]), func, false);
      InstancesCons(gs);
    }
  }

  lemma InstancesCons(gs: seq<Seg>)
    requires gs != []
    ensures Flatten(Instances(gs)) == (if gs[0].Round? then gs[0].inst else []) + Flatten(Instances(gs[1..]))
  {
    match gs[0]
    case Idle(_) => assert Instances(gs) == Instances(gs[1..]);
    case Round(inst, _) => assert Instances(gs)[1..] == Instances(gs[1..]);
  }

  /** When a semaphore has been released `k` times, the first `k` executions of the produce node have
      written everything. */
  lemma {:induction false} ReleasedIsWritten(gs: seq<Seg>, func: string, w: set<string>, sema: seq<Sema>, i: nat,
                                             s: Sema)
    requires SegsOk(gs, func, w, sema) && Distinct(sema) && s in sema
    requires i <= |ProducerTrace(gs, sema)|
    ensures FirstRuns(Instances(gs), CountRel(ProducerTrace(gs, sema)[..i], s)) <= Items(ProducerTrace(gs, sema)[..i],
            func, true)
    decreases |gs|
  {
    var tp := ProducerTrace(gs, sema);
    if gs == [] {
      assert tp[..i] == [];
    } else {
      var g, rest := gs[0], ProducerTrace(gs[1..], sema);
      var acts := ProducerActs(g, sema);
      assert g in gs;
      if g.Idle? {
        assert tp == rest && Instances(gs) == Instances(gs[1..]);
        ReleasedIsWritten(gs[1..], func, w, sema, i, s);
      } else if i < |acts| {
        assert tp[..i] == acts[..i];
        ReleasedInRound(g, func, w, sema, i, s);
        FirstRunsCons(g.inst, Instances(gs[1..]), CountRel(acts[..i], s));
        assert FirstRuns(Instances(gs[1..]), 0) == [];
      } else {
        ReleasedIsWritten(gs[1..], func, w, sema, i - |acts|, s);
        RoundCounts(g, func, w, sema, s);
        ProducerActsItems(g, func, w, sema);
        ReleasedLater(acts, rest[..i - |acts|], tp[..i], g.inst, Instances(gs[1..]), Instances(gs), func, s);
      }
    }
  }

  lemma ReleasedLater(acts: seq<Act>, rest: seq<Act>, whole: seq<Act>, inst: seq<Act>, insts: seq<seq<Act>>,
                      insts': seq<seq<Act>>, func: string, s: Sema)
    requires whole == acts + rest && insts' == [inst] + insts
    requires CountRel(acts, s) == 1 && Items(acts, func, true) == inst
    requires FirstRuns(insts, CountRel(rest, s)) <= Items(rest, func, true)
    ensures FirstRuns(insts', CountRel(whole, s)) <= Items(whole, func, true)
  {
    CountConcat(acts, rest, s);
    ItemsConcat(acts, rest, func, true);
    FirstRunsCons(inst, insts, CountRel(whole, s));
  }

  lemma ReleasedInRound(g: Seg, func: string, w: set<string>, sema: seq<Sema>, i: nat, s: Sema)
    requires g.Round? && SegOk(g, func, w, sema) && Distinct(sema) && s in sema
    requires i <= |ProducerActs(g, sema)|
    ensures var t := ProducerActs(g, sema)[..i];
            CountRel(t, s) <= 1 && (CountRel(t, s) == 1 ==> Items(t, func, true) == g.inst)
  {
    var acts := ProducerActs(g, sema);
    RoundCounts(g, func, w, sema, s);
    CountPrefix(acts, i, s);
    if i <= |g.inst| {
      assert acts[..i] == g.inst[..i];
      assert forall a | a in g.inst[..i] :: a in g.inst;
      CountNone(g.inst[..i], s);
    } else {
      var k := i - |g.inst|;
      assert acts[..i] == g.inst + Rels(sema)[..k];
      ItemsAll(g.inst, func, true);
      RelsCount(sema, s);
      assert forall a | a in Rels(sema)[..k] :: a in Rels(sema);
      ItemsNone(Rels(sema)[..k], func, true);
      ItemsConcat(g.inst, Rels(sema)[..k], func, true);
    }
  }

  // ----- the consumer side -----

  /** Position `m` of the body's trace `tb` is where the action at position `j` of the consumer's trace
      `tc` comes from; by then exactly `r` produces have run, and a load of the function has semaphore
      `s` acquired `r` times before it. */
  ghost predicate Located(tb: seq<Act>, tc: seq<Act>, insts: seq<seq<Act>>, func: string, sema: seq<Sema>,
                          j: nat, m: nat, r: nat, s: Sema) {
    && j < |tc| && m < |tb| && tb[m] == tc[j]
    && r <= |insts|
    && Items(tb[..m], func, false) == Items(tc[..j], func, false)
    && Items(tb[..m], func, true) == FirstRuns(insts, r)
    && (func in ActLoads(tc[j]) ==> s in sema && CountAcq(tc[..j], s) >= r)
  }

  lemma {:induction false} Locate(gs: seq<Seg>, func: string, w: set<string>, sema: seq<Sema>, j: nat)
      returns (m: nat, r: nat, s: Sema)
    requires SegsOk(gs, func, w, sema) && Distinct(sema)
    requires j < |ConsumerTrace(gs)| && IsItem(ConsumerTrace(gs)[j], func, false)
    ensures Located(BodyTrace(gs, func), ConsumerTrace(gs), Instances(gs), func, sema, j, m, r, s)
    decreases |gs|
  {
    var g := gs[0];
    assert g in gs;
    var acts := ConsumerActs(g);
    if j < |acts| {
      m, r, s := LocateHere(gs, func, w, sema, j);
    } else {
      m, r, s := Locate(gs[1..], func, w, sema, j - |acts|);
      var tb, tc, insts := BodyTrace(gs[1..], func), ConsumerTrace(gs[1..]), Instances(gs[1..]);
      if s in sema {
        RoundCounts(g, func, w, sema, s);
      }
      ProducerActsItems(g, func, w, sema);
      var round := if g.Round? then [g.inst] else [];
      var m', r' := |BodyActs(g, func)| + m, |round| + r;
      OneRound(gs, round);
      LocateLater(BodyActs(g, func), acts, round, tb, tc, insts, func, sema, j - |acts|, m, r, s,
                  BodyTrace(gs, func), ConsumerTrace(gs), Instances(gs), j, m', r');
      m, r := m', r';
    }
  }

  lemma OneRound(gs: seq<Seg>, round: seq<seq<Act>>)
    requires gs != [] && round == if gs[0].Round? then [gs[0].inst] else []
    ensures Instances(gs) == round + Instances(gs[1..])
    ensures Flatten(round) == if gs[0].Round? then gs[0].inst else []
  {
    if gs[0].Round? {
      assert round[1..] == [];
    }
  }

  lemma LocateHere(gs: seq<Seg>, func: string, w: set<string>, sema: seq<Sema>, j: nat)
      returns (m: nat, r: nat, s: Sema)
    requires gs != [] && SegsOk(gs, func, w, sema)
    requires j < |ConsumerActs(gs[0])| && IsItem(ConsumerActs(gs[0])[j], func, false)
    ensures Located(BodyTrace(gs, func), ConsumerTrace(gs), Instances(gs), func, sema, j, m, r, s)
  {
    assert gs[0] in gs;
    match gs[0]
    case Idle(acts) =>
      m, r, s := j, 0, Sema(func, 0);
      IdleHere(acts, BodyTrace(gs, func), ConsumerTrace(gs), Instances(gs), func, w, sema, j, s);
    case Round(inst, cons) =>
      assert cons[j] in cons;
      m, s := RoundHere(inst, cons, BodyTrace(gs, func), ConsumerTrace(gs), Instances(gs), func, w, sema, j);
      r := 1;
  }

  lemma IdleHere(acts: seq<Act>, tb: seq<Act>, tc: seq<Act>, insts: seq<seq<Act>>,
                 func: string, w: set<string>, sema: seq<Sema>, j: nat, s: Sema)
    requires j < |acts| && acts <= tb && acts <= tc
    requires forall a | a in acts :: OtherAct(a, func, w) && func !in ActLoads(a)
    ensures Located(tb, tc, insts, func, sema, j, j, 0, s)
  {
    assert tb[..j] == acts[..j] == tc[..j];
    assert forall a | a in acts[..j] :: a in acts;
    ItemsNone(acts[..j], func, true);
    assert insts[..0] == [];
    assert tc[j] == acts[j] && acts[j] in acts;
  }

  lemma RoundHere(inst: seq<Act>, cons: seq<Act>, tb: seq<Act>, tc: seq<Act>, insts: seq<seq<Act>>,
                  func: string, w: set<string>, sema: seq<Sema>, j: nat) returns (m: nat, s: Sema)
    requires j < |cons| && IsItem(cons[j], func, false)
    requires inst + Items(cons, func, false) <= tb && cons <= tc && insts != [] && insts[0] == inst
    requires SegOk(Round(inst, cons), func, w, sema)
    ensures Located(tb, tc, insts, func, sema, j, m, 1, s)
  {
    s := Sema(func, 0);
    var others := Items(cons, func, false);
    var k := ItemPosition(cons, func, false, j);
    m := |inst| + k;
    assert tc[..j] == cons[..j] && tc[j] == cons[j];
    RoundPrefix(inst, others, tb, m, k);
    OthersOnly(cons, func);
    ItemsAll(others[..k], func, false);
    ItemsAll(inst, func, true);
    ItemsConcat(inst, others[..k], func, true);
    ItemsConcat(inst, others[..k], func, false);
    assert insts[..1] == [inst] && [inst][1..] == [];
    assert FirstRuns(insts, 1) == Flatten([inst]) == inst == inst + [];
    if func in ActLoads(cons[j]) {
      s := AcquiredBefore(cons, func, j, sema);
    }
  }

  lemma RoundPrefix(inst: seq<Act>, others: seq<Act>, tb: seq<Act>, m: nat, k: nat)
    requires inst + others <= tb && k < |others| && m == |inst| + k
    ensures m < |tb| && tb[..m] == inst + others[..k] && tb[m] == others[k]
  {
    assert tb[..|inst + others|] == inst + others;
  }

  lemma {:induction false} ItemPosition(t: seq<Act>, func: string, own: bool, j: nat) returns (k: nat)
    requires j < |t| && IsItem(t[j], func, own)
    ensures k < |Items(t, func, own)| && Items(t, func, own)[k] == t[j]
    ensures Items(t[..j], func, own) == Items(t, func, own)[..k]
    decreases j
  {
    if j == 0 {
      k := 0;
    } else {
      var k' := ItemPosition(t[1..], func, own, j - 1);
      assert t[..j][0] == t[0] && t[..j][1..] == t[1..][..j - 1];
      k := k' + if IsItem(t[0], func, own) then 1 else 0;
    }
  }

  /** The converse: where an item stands in the trace. */
  lemma {:induction false} ItemPlace(t: seq<Act>, func: string, own: bool, k: nat) returns (j: nat)
    requires k < |Items(t, func, own)|
    ensures j < |t| && t[j] == Items(t, func, own)[k]
    ensures Items(t[..j], func, own) == Items(t, func, own)[..k]
    decreases |t|
  {
    var n := if IsItem(t[0], func, own) then 1 else 0;
    if k < n {
      j := 0;
    } else {
      var j' := ItemPlace(t[1..], func, own, k - n);
      j := j' + 1;
      assert t[..j][0] == t[0] && t[..j][1..] == t[1..][..j'];
    }
  }

  lemma AcquiredBefore(t: seq<Act>, func: string, j: nat, sema: seq<Sema>) returns (s: Sema)
    requires Guarded(t, func) && j < |t| && func in ActLoads(t[j]) && Acqs(t) == Reverse(sema)
    ensures s in sema && CountAcq(t[..j], s) >= 1
  {
    var i :| 0 <= i < j && t[i].Acq?;
    s := t[i].sema;
    AcqIn(t, i);
    ReverseElements(sema, s);
    var tail := t[i + 1..j];
    assert t[..j] == t[..i] + ([t[i]] + tail);
    assert ([t[i]] + tail)[1..] == tail;
    CountConcat(t[..i], [t[i]] + tail, s);
  }

  lemma {:induction false} AcqIn(t: seq<Act>, i: nat)
    requires i < |t| && t[i].Acq?
    ensures t[i].sema in Acqs(t)
    decreases i
  {
    if i > 0 {
      AcqIn(t[1..], i - 1);
    }
  }

  lemma {:induction false} ReverseElements<T>(ss: seq<T>, x: T)
    ensures x in Reverse(ss) <==> x in ss
    decreases |ss|
  {
    if ss != [] {
      ReverseElements(ss[..|ss| - 1], x);
      assert ss == ss[..|ss| - 1] + [ss[|ss| - 1]];
    }
  }

  lemma LaterSlice(head: seq<Act>, tail: seq<Act>, whole: seq<Act>, m: nat, n: nat)
    requires m < |tail| && whole == head + tail && n == |head| + m
    ensures n < |whole| && whole[..n] == head + tail[..m] && whole[n] == tail[m]
  {
  }

  /** Going past one segment: `body` and `acts` are what it adds to the two traces, `round` the
      execution of the produce node it holds, if any. */
  lemma LocateLater(body: seq<Act>, acts: seq<Act>, round: seq<seq<Act>>, tb: seq<Act>, tc: seq<Act>,
                    insts: seq<seq<Act>>,
                    func: string, sema: seq<Sema>, j: nat, m: nat, r: nat, s: Sema,
                    tb': seq<Act>, tc': seq<Act>, insts': seq<seq<Act>>, j': nat, m': nat, r': nat)
    requires |round| <= 1
    requires Located(tb, tc, insts, func, sema, j, m, r, s)
    requires Items(body, func, true) == Flatten(round) && Items(body, func, false) == Items(acts, func, false)
    requires s in sema ==> CountAcq(acts, s) == |round|
    requires tb' == body + tb && tc' == acts + tc && insts' == round + insts
    requires j' == |acts| + j && m' == |body| + m && r' == |round| + r
    ensures Located(tb', tc', insts', func, sema, j', m', r', s)
  {
    LaterSlice(body, tb, tb', m, m');
    LaterSlice(acts, tc, tc', j, j');
    ItemsConcat(body, tb[..m], func, true);
    ItemsConcat(body, tb[..m], func, false);
    ItemsConcat(acts, tc[..j], func, false);
    CountConcat(acts, tc[..j], s);
    LaterFirst(round, insts, insts', r, r');
  }

  lemma LaterFirst(round: seq<seq<Act>>, insts: seq<seq<Act>>, insts': seq<seq<Act>>, r: nat, r': nat)
    requires |round| <= 1 && insts' == round + insts && r' == |round| + r
    ensures FirstRuns(insts', r') == Flatten(round) + FirstRuns(insts, r)
  {
    if round == [] {
      assert insts' == insts;
      assert [] + FirstRuns(insts, r) == FirstRuns(insts, r);
    } else {
      var t := round[0];
      assert round == [t] && round[1..] == [];
      assert Flatten(round) == t + [] == t;
      FirstRunsCons(t, insts, r');
    }
  }
}
