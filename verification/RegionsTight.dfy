/** The regions that are found are no larger than what asks for them: every end of every region is an end of some region
    that a handled stage needs, and every end of the bounds a stage is handled with comes from the query or from such a
    region. Unions are the smallest there are. */
module RegionsTight {
  import opened Wrappers
  import opened Regions

  // ----- unions -----

  predicate Encloses(c: Interval, a: Interval) {
    && (c.min.Some? ==> a.min.Some? && c.min.value <= a.min.value)
    && (c.max.Some? ==> a.max.Some? && a.max.value <= c.max.value)
  }

  /** The union of two intervals encloses both, and whatever encloses both encloses it. */
  lemma HullIsLeast(a: Interval, b: Interval, c: Interval)
    ensures Encloses(Hull(a, b), a) && Encloses(Hull(a, b), b)
    ensures Encloses(c, a) && Encloses(c, b) ==> Encloses(c, Hull(a, b))
    ensures (Hull(a, b).min == a.min || Hull(a, b).min == b.min) && (Hull(a, b).max == a.max || Hull(a, b).max == b.max)
  {
  }

  // ----- what asks for a region -----

  type Trace = seq<(Stage, DimBounds)>

  /** A stage that was handled needs the region. */
  ghost predicate Needs(q: Query, trace: Trace, e: (Stage, DimBounds), g: string, box: Box) {
    e in trace && exists regs :: regs in q.needs(e.0, e.1) && (g, box) in regs
  }

  ghost predicate Wanted(q: Query, trace: Trace, g: string, box: Box) {
    exists e {:trigger Needs(q, trace, e, g, box)} :: Needs(q, trace, e, g, box) && Merged(q, e.0.func, g)
  }

  /** The bounds that a stage was given: by the query, or by a needed region of its function. */
  ghost predicate Given(q: Query, trace: Trace, root: (Stage, DimBounds), t: Stage, b: DimBounds) {
    || root == (t, b)
    || exists box {:trigger Asked(q, trace, t, box)} :: Asked(q, trace, t, box) && AskedBounds(q, t, box) == b
  }

  ghost predicate Asked(q: Query, trace: Trace, t: Stage, box: Box) {
    && t.func in q.env && |q.env[t.func].args| == |box| && t.num < |q.env[t.func].stages|
    && exists e {:trigger Needs(q, trace, e, t.func, box)} ::
      Needs(q, trace, e, t.func, box) && Queued(q, e.0.func, t.func)
  }

  ghost function AskedBounds(q: Query, t: Stage, box: Box): DimBounds {
    if t.func in q.env && |q.env[t.func].args| == |box| && t.num < |q.env[t.func].stages| then
      StageBounds(q.env[t.func], t.num, box)
    else map[]
  }

  // ----- ends -----

  ghost predicate MinWanted(q: Query, trace: Trace, g: string, i: nat, m: Option<int>) {
    exists d: Box :: Wanted(q, trace, g, d) && i < |d| && d[i].min == m
  }

  ghost predicate MaxWanted(q: Query, trace: Trace, g: string, i: nat, m: Option<int>) {
    exists d: Box :: Wanted(q, trace, g, d) && i < |d| && d[i].max == m
  }

  ghost predicate RegionFits(q: Query, trace: Trace, g: string, box: Box) {
    forall i: nat | i < |box| :: MinWanted(q, trace, g, i, box[i].min) && MaxWanted(q, trace, g, i, box[i].max)
  }

  ghost predicate MinGiven(q: Query, trace: Trace, root: (Stage, DimBounds), t: Stage, v: string, m: Option<int>) {
    exists c: DimBounds :: Given(q, trace, root, t, c) && v in c && c[v].min == m
  }

  ghost predicate MaxGiven(q: Query, trace: Trace, root: (Stage, DimBounds), t: Stage, v: string, m: Option<int>) {
    exists c: DimBounds :: Given(q, trace, root, t, c) && v in c && c[v].max == m
  }

  ghost predicate BoundsFit(q: Query, trace: Trace, root: (Stage, DimBounds), t: Stage, b: DimBounds) {
    forall v | v in b :: MinGiven(q, trace, root, t, v, b[v].min) && MaxGiven(q, trace, root, t, v, b[v].max)
  }

  /** Everything found so far has its ends from somewhere. */
  ghost predicate Tight(q: Query, root: (Stage, DimBounds), st: State) {
    && (forall g | g in st.regions :: RegionFits(q, st.trace, g, st.regions[g]))
    && QueueTight(q, root, st.queue, st.trace)
    && (forall e | e in st.trace :: BoundsFit(q, st.trace, root, e.0, e.1))
  }

  ghost predicate QueueTight(q: Query, root: (Stage, DimBounds), queue: map<Stage, DimBounds>, trace: Trace) {
    forall t | t in queue :: BoundsFit(q, trace, root, t, queue[t])
  }

  // ----- a longer history -----

  lemma WantedMore(q: Query, trace: Trace, more: Trace, g: string, box: Box)
    requires Wanted(q, trace, g, box) && trace <= more
    ensures Wanted(q, more, g, box)
  {
    var e :| Needs(q, trace, e, g, box) && Merged(q, e.0.func, g);
    assert Needs(q, more, e, g, box);
  }

  lemma GivenMore(q: Query, trace: Trace, more: Trace, root: (Stage, DimBounds), t: Stage, b: DimBounds)
    requires Given(q, trace, root, t, b) && trace <= more
    ensures Given(q, more, root, t, b)
  {
    if root != (t, b) {
      var box :| Asked(q, trace, t, box) && AskedBounds(q, t, box) == b;
      var e :| Needs(q, trace, e, t.func, box) && Queued(q, e.0.func, t.func);
      assert Needs(q, more, e, t.func, box);
      assert Asked(q, more, t, box);
    }
  }

  lemma RegionFitsMore(q: Query, trace: Trace, more: Trace, g: string, box: Box)
    requires RegionFits(q, trace, g, box) && trace <= more
    ensures RegionFits(q, more, g, box)
  {
    forall i: nat | i < |box| ensures MinWanted(q, more, g, i, box[i].min) && MaxWanted(q, more, g, i, box[i].max) {
      assert MinWanted(q, trace, g, i, box[i].min) && MaxWanted(q, trace, g, i, box[i].max);
      var d: Box :| Wanted(q, trace, g, d) && i < |d| && d[i].min == box[i].min;
      WantedMore(q, trace, more, g, d);
      var d': Box :| Wanted(q, trace, g, d') && i < |d'| && d'[i].max == box[i].max;
      WantedMore(q, trace, more, g, d');
    }
  }

  lemma BoundsFitMore(q: Query, trace: Trace, more: Trace, root: (Stage, DimBounds), t: Stage, b: DimBounds)
    requires BoundsFit(q, trace, root, t, b) && trace <= more
    ensures BoundsFit(q, more, root, t, b)
  {
    forall v | v in b ensures MinGiven(q, more, root, t, v, b[v].min) && MaxGiven(q, more, root, t, v, b[v].max) {
      assert MinGiven(q, trace, root, t, v, b[v].min) && MaxGiven(q, trace, root, t, v, b[v].max);
      var c: DimBounds :| Given(q, trace, root, t, c) && v in c && c[v].min == b[v].min;
      GivenMore(q, trace, more, root, t, c);
      var c': DimBounds :| Given(q, trace, root, t, c') && v in c' && c'[v].max == b[v].max;
      GivenMore(q, trace, more, root, t, c');
    }
  }

  // ----- unions keep ends -----

  lemma WantedFits(q: Query, trace: Trace, g: string, box: Box)
    requires Wanted(q, trace, g, box)
    ensures RegionFits(q, trace, g, box)
  {
  }

  lemma MergedFits(q: Query, trace: Trace, g: string, a: Box, b: Box)
    requires RegionFits(q, trace, g, a) && RegionFits(q, trace, g, b)
    ensures RegionFits(q, trace, g, MergeBoxes(a, b))
  {
    var box := MergeBoxes(a, b);
    forall i: nat | i < |box| ensures MinWanted(q, trace, g, i, box[i].min) && MaxWanted(q, trace, g, i, box[i].max) {
      if i < |a| {
        assert MinWanted(q, trace, g, i, a[i].min) && MaxWanted(q, trace, g, i, a[i].max);
      }
      if i < |b| {
        assert MinWanted(q, trace, g, i, b[i].min) && MaxWanted(q, trace, g, i, b[i].max);
      }
      if i < |a| && i < |b| {
        HullIsLeast(a[i], b[i], a[i]);
      }
      hide MinWanted, MaxWanted;
    }
  }

  lemma MergedDimsFit(q: Query, trace: Trace, root: (Stage, DimBounds), t: Stage, a: DimBounds, b: DimBounds)
    requires BoundsFit(q, trace, root, t, a) && BoundsFit(q, trace, root, t, b)
    ensures BoundsFit(q, trace, root, t, MergeDims(a, b))
  {
    var c := MergeDims(a, b);
    forall v | v in c ensures MinGiven(q, trace, root, t, v, c[v].min) && MaxGiven(q, trace, root, t, v, c[v].max) {
      if v in a && v in b {
        HullIsLeast(a[v], b[v], a[v]);
      }
      hide MinGiven, MaxGiven;
    }
  }

  lemma GivenFits(q: Query, trace: Trace, root: (Stage, DimBounds), t: Stage, b: DimBounds)
    requires Given(q, trace, root, t, b)
    ensures BoundsFit(q, trace, root, t, b)
  {
  }

  // ----- the worklist -----

  /** One stage of a function whose region is needed. */
  lemma QueueStageTight(q: Query, root: (Stage, DimBounds), queue: map<Stage, DimBounds>, trace: Trace, t: Stage,
                        b: DimBounds, visited: set<(Stage, nat)>)
    requires QueueTight(q, root, queue, trace) && Given(q, trace, root, t, b)
    ensures QueueTight(q, root, QueueStage(queue, t, b, visited), trace)
  {
    var widened := if t in queue then MergeDims(queue[t], b) else b;
    assert BoundsFit(q, trace, root, t, widened) by {
      GivenFits(q, trace, root, t, b);
      if t in queue {
        MergedDimsFit(q, trace, root, t, queue[t], b);
      }
      hide *;
    }
    EntryTight(q, root, queue, trace, t, widened);
    hide QueueTight, BoundsFit, Given, MergeDims;
  }

  lemma EntryTight(q: Query, root: (Stage, DimBounds), queue: map<Stage, DimBounds>, trace: Trace, t: Stage,
                   b: DimBounds)
    requires QueueTight(q, root, queue, trace) && BoundsFit(q, trace, root, t, b)
    ensures QueueTight(q, root, queue[t := b], trace)
  {
    hide BoundsFit;
  }

  lemma StageIsGiven(q: Query, root: (Stage, DimBounds), trace: Trace, e: (Stage, DimBounds), g: string, box: Box,
                     k: nat)
    requires Needs(q, trace, e, g, box) && Queued(q, e.0.func, g)
    requires g in q.env && |q.env[g].args| == |box| && k < |q.env[g].stages|
    ensures Given(q, trace, root, Stage(g, k), StageBounds(q.env[g], k, box))
  {
    assert Asked(q, trace, Stage(g, k), box);
    hide Needs, StageBounds;
  }

  lemma {:induction false} QueueFuncTight(q: Query, root: (Stage, DimBounds), queue: map<Stage, DimBounds>,
                                          trace: Trace, e: (Stage, DimBounds), g: string, box: Box,
                                          visited: set<(Stage, nat)>, k: nat)
    requires QueueTight(q, root, queue, trace) && Needs(q, trace, e, g, box) && Queued(q, e.0.func, g)
    requires g in q.env && |q.env[g].args| == |box|
    ensures QueueTight(q, root, QueueFunc(queue, g, q.env[g], box, visited, k), trace)
    decreases |q.env[g].stages| - k
  {
    hide QueueTight, Needs, Queued, Given, QueueStage, StageBounds;
    var f := q.env[g];
    if k < |f.stages| {
      StageIsGiven(q, root, trace, e, g, box, k);
      QueueStageTight(q, root, queue, trace, Stage(g, k), StageBounds(f, k, box), visited);
      QueueFuncTight(q, root, QueueStage(queue, Stage(g, k), StageBounds(f, k, box), visited), trace, e, g, box,
                     visited, k + 1);
    }
  }

  lemma MergeOneTight(q: Query, root: (Stage, DimBounds), st: State, e: (Stage, DimBounds), g: string, box: Box)
    requires Tight(q, root, st) && Needs(q, st.trace, e, g, box)
    ensures Tight(q, root, MergeAndQueueOne(q, e.0.func, st, g, box))
  {
    if Merged(q, e.0.func, g) {
      assert Wanted(q, st.trace, g, box);
      WantedFits(q, st.trace, g, box);
      if g in st.regions {
        MergedFits(q, st.trace, g, st.regions[g], box);
      }
    }
    if Queued(q, e.0.func, g) && |q.env[g].args| == |box| {
      QueueFuncTight(q, root, st.queue, st.trace, e, g, box, st.visited, 0);
    }
    hide RegionFits, BoundsFit, QueueTight, QueueFunc, MergeBoxes;
  }

  lemma {:induction false} MergeTight(q: Query, root: (Stage, DimBounds), st: State, e: (Stage, DimBounds),
                                      regs: RegionList)
    requires Tight(q, root, st) && forall r | r in regs :: Needs(q, st.trace, e, r.0, r.1)
    ensures var st' := MergeAndQueue(q, e.0.func, st, regs); Tight(q, root, st') && st'.trace == st.trace
    decreases |regs|
  {
    hide Tight, Needs;
    if regs != [] {
      assert regs[0] in regs;
      MergeOneTight(q, root, st, e, regs[0].0, regs[0].1);
      var st1 := MergeAndQueueOne(q, e.0.func, st, regs[0].0, regs[0].1);
      assert st1.trace == st.trace;
      hide MergeAndQueueOne;
      MergeTight(q, root, st1, e, regs[1..]);
    }
  }

  lemma {:induction false} MergeAllTight(q: Query, root: (Stage, DimBounds), st: State, e: (Stage, DimBounds),
                                         all: seq<RegionList>)
    requires Tight(q, root, st) && e in st.trace && forall regs | regs in all :: regs in q.needs(e.0, e.1)
    ensures var st' := MergeAndQueueAll(q, e.0.func, st, all); Tight(q, root, st') && st'.trace == st.trace
    decreases |all|
  {
    hide Tight, MergeAndQueue;
    if all != [] {
      assert all[0] in all;
      forall r | r in all[0] ensures Needs(q, st.trace, e, r.0, r.1) {
        assert (r.0, r.1) in all[0];
      }
      MergeTight(q, root, st, e, all[0]);
      MergeAllTight(q, root, MergeAndQueue(q, e.0.func, st, all[0]), e, all[1..]);
    }
  }

  lemma ProcessTight(q: Query, root: (Stage, DimBounds), s: Stage, st: State)
    requires Tight(q, root, st) && s in st.queue
    ensures Tight(q, root, Process(q, s, st))
    ensures st.trace <= Process(q, s, st).trace
  {
    var b := st.queue[s];
    var st1 := st.(visited := st.visited + {(s, |b|)}, trace := st.trace + [(s, b)]);
    HistoryMore(q, root, st, st1, s, b);
    assert (s, b) in st1.trace;
    MergeAllTight(q, root, st1, (s, b), q.needs(s, b));
    hide RegionFits, BoundsFit, MergeAndQueueAll;
  }

  lemma HistoryMore(q: Query, root: (Stage, DimBounds), st: State, st1: State, s: Stage, b: DimBounds)
    requires Tight(q, root, st) && s in st.queue && st.queue[s] == b
    requires st1 == st.(visited := st1.visited, trace := st.trace + [(s, b)])
    ensures Tight(q, root, st1)
  {
    forall g | g in st1.regions ensures RegionFits(q, st1.trace, g, st1.regions[g]) {
      RegionFitsMore(q, st.trace, st1.trace, g, st.regions[g]);
    }
    forall t | t in st1.queue ensures BoundsFit(q, st1.trace, root, t, st1.queue[t]) {
      BoundsFitMore(q, st.trace, st1.trace, root, t, st.queue[t]);
    }
    forall e | e in st1.trace ensures BoundsFit(q, st1.trace, root, e.0, e.1) {
      BoundsFitMore(q, st.trace, st1.trace, root, e.0, e.1);
    }
    hide RegionFits, BoundsFit;
  }

  lemma {:induction false} SweepTight(q: Query, root: (Stage, DimBounds), stages: seq<Stage>, st: State)
    requires Tight(q, root, st)
    ensures Tight(q, root, Sweep(q, stages, st))
    decreases |stages|
  {
    hide Process;
    if stages != [] {
      if stages[0] in st.queue {
        ProcessTight(q, root, stages[0], st);
      }
      hide Tight;
      SweepTight(q, root, stages[1..], if stages[0] in st.queue then Process(q, stages[0], st) else st);
    }
  }

  /** Every end of a region that is found is an end of some region that a handled stage needs; and every end of the
      bounds a stage is handled with is one of the query, or of the bounds that a needed region of its function gives
      it. */
  lemma RegionsAreTight(q: Query, order: seq<string>, s: Stage, bounds: DimBounds)
    requires forall g | g in order :: g in q.env
    ensures Tight(q, (s, bounds), Sweep(q, Backward(q.env, order), Start(s, bounds)))
  {
    var st, root := Start(s, bounds), (s, bounds);
    assert Given(q, st.trace, root, s, bounds);
    GivenFits(q, st.trace, root, s, bounds);
    SweepTight(q, root, Backward(q.env, order), st);
  }
}
