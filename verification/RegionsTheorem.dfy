/** In topological order one sweep handles every stage after its consumers, and the regions it finds cover every
    point that is transitively demanded. */
module RegionsTheorem {
  import opened Regions

  // ----- hypotheses -----

  /** The names of a stage's dimensions. */
  function DimNames(env: Env, s: Stage): set<string> {
    if s.func in env && s.num < |env[s.func].stages| then
      (set a | a in env[s.func].args) + env[s.func].stages[s.num].Keys
    else {}
  }

  /** Regions have one interval for each argument; other names have a fixed number of dimensions too. */
  ghost predicate Sized(q: Query, arity: string -> nat) {
    && (forall g | g in q.env :: arity(g) == |q.env[g].args| && Distinct(q.env[g].args))
    && forall s, b, regs, r | regs in q.needs(s, b) && r in regs :: |r.1| == arity(r.0)
  }

  predicate Distinct<T(==)>(s: seq<T>) {
    forall i, j | 0 <= i < j < |s| :: s[i] != s[j]
  }

  /** Every stage needs only functions whose stages come later in the sweep. */
  ghost predicate LaterOnly(q: Query, s: Stage, rest: seq<Stage>) {
    forall b, regs, r, k: nat | regs in q.needs(s, b) && r in regs && Queued(q, s.func, r.0)
        && k < |q.env[r.0].stages| ::
      Stage(r.0, k) in rest && Stage(r.0, k) != s
  }

  ghost predicate Topological(q: Query, stages: seq<Stage>)
    decreases |stages|
  {
    stages != [] ==> stages[0] !in stages[1..] && LaterOnly(q, stages[0], stages[1..]) && Topological(q, stages[1..])
  }

  // ----- containment -----

  ghost predicate BoxWithin(a: Box, b: Box) {
    forall p | InBox(p, a) :: InBox(p, b)
  }

  ghost predicate DimsWithin(a: DimBounds, b: DimBounds) {
    forall x | InDims(x, a) :: InDims(x, b)
  }

  lemma MergedBoxes(a: Box, b: Box)
    requires |a| == |b|
    ensures BoxWithin(a, MergeBoxes(a, b)) && BoxWithin(b, MergeBoxes(a, b)) && |MergeBoxes(a, b)| == |a|
  {
  }

  lemma MergedDims(a: DimBounds, b: DimBounds)
    requires a.Keys == b.Keys
    ensures DimsWithin(a, MergeDims(a, b)) && DimsWithin(b, MergeDims(a, b)) && MergeDims(a, b).Keys == a.Keys
  {
  }

  // ----- what the worklist knows -----

  /** The stage is handled, or will be, with at least these bounds. */
  ghost predicate Taken(st: State, t: Stage, b: DimBounds) {
    || (t in st.queue && DimsWithin(b, st.queue[t]))
    || exists e | e in st.trace :: e.0 == t && DimsWithin(b, e.1)
  }

  ghost predicate TakenFrom(q: Query, st: State, g: string, box: Box, k: nat) {
    g in q.env && |q.env[g].args| == |box|
    && forall i | k <= i < |q.env[g].stages| :: Taken(st, Stage(g, i), StageBounds(q.env[g], i, box))
  }

  /** A region that a handled stage needs is in the result, and its function's stages are taken. */
  ghost predicate Settled(q: Query, st: State, curr: string, g: string, box: Box) {
    && (Merged(q, curr, g) ==> g in st.regions && BoxWithin(box, st.regions[g]))
    && (Queued(q, curr, g) ==> TakenFrom(q, st, g, box, 0))
  }

  ghost predicate AllSettled(q: Query, st: State, e: (Stage, DimBounds)) {
    forall regs, r | regs in q.needs(e.0, e.1) && r in regs :: Settled(q, st, e.0.func, r.0, r.1)
  }

  /** The second state knows all that the first one knows. */
  ghost predicate Grows(st: State, st': State) {
    && (forall t | t in st.queue :: t in st'.queue && DimsWithin(st.queue[t], st'.queue[t]))
    && (forall g | g in st.regions :: g in st'.regions && BoxWithin(st.regions[g], st'.regions[g]))
    && st'.trace == st.trace && st'.visited == st.visited
  }

  /** Boxes and bounds have the sizes and names they should have. */
  ghost predicate Shaped(q: Query, st: State, arity: string -> nat) {
    && (forall t | t in st.queue :: st.queue[t].Keys == DimNames(q.env, t))
    && (forall g | g in st.regions :: |st.regions[g]| == arity(g))
  }

  ghost predicate QueueIn(st: State, rest: seq<Stage>) {
    forall t | t in st.queue :: t in rest
  }

  /** Visited stages have been passed. */
  ghost predicate Passed(st: State, rest: seq<Stage>) {
    && (forall v | v in st.visited :: v.0 !in rest)
    && (forall e | e in st.trace :: e.0 !in rest)
  }

  lemma TakenGrows(st: State, st': State, t: Stage, b: DimBounds)
    requires Grows(st, st') && Taken(st, t, b)
    ensures Taken(st', t, b)
  {
  }

  lemma SettledGrows(q: Query, st: State, st': State, curr: string, g: string, box: Box)
    requires Grows(st, st') && Settled(q, st, curr, g, box)
    ensures Settled(q, st', curr, g, box)
  {
    if Queued(q, curr, g) {
      forall i | 0 <= i < |q.env[g].stages| ensures Taken(st', Stage(g, i), StageBounds(q.env[g], i, box)) {
        TakenGrows(st, st', Stage(g, i), StageBounds(q.env[g], i, box));
      }
    }
    hide Taken;
  }

  // ----- queueing -----

  lemma {:induction false} PureKeys(args: seq<string>, box: Box)
    requires |args| == |box|
    ensures PureBounds(args, box).Keys == set a | a in args
    decreases |args|
  {
    if args != [] {
      PureKeys(args[..|args| - 1], box[..|box| - 1]);
      assert args == args[..|args| - 1] + [args[|args| - 1]];
    }
  }

  lemma StageKeys(env: Env, g: string, k: nat, box: Box)
    requires g in env && |env[g].args| == |box| && k < |env[g].stages|
    ensures StageBounds(env[g], k, box).Keys == DimNames(env, Stage(g, k))
  {
    PureKeys(env[g].args, box);
  }

  lemma WithinSelf(b: DimBounds)
    ensures DimsWithin(b, b)
  {
  }

  lemma BoxWithinSelf(b: Box)
    ensures BoxWithin(b, b)
  {
  }

  /** One stage is queued: nothing is lost, and it is taken unless it was visited. */
  lemma QueuesStage(q: Query, st: State, t: Stage, b: DimBounds, rest: seq<Stage>, arity: string -> nat)
    requires Shaped(q, st, arity) && QueueIn(st, rest) && Passed(st, rest) && b.Keys == DimNames(q.env, t) && t in rest
    ensures var st' := st.(queue := QueueStage(st.queue, t, b, st.visited));
            Grows(st, st') && Shaped(q, st', arity) && QueueIn(st', rest) && Taken(st', t, b)
  {
    assert (t, |b|) !in st.visited;
    var c := if t in st.queue then MergeDims(st.queue[t], b) else b;
    WithinSelf(b);
    if t in st.queue {
      MergedDims(st.queue[t], b);
    }
    hide MergeDims, DimsWithin, BoxWithin, Passed;
    QueueChanges(q, st, t, c, rest, arity);
  }

  /** The queue with one entry that is new or wider. */
  lemma QueueChanges(q: Query, st: State, t: Stage, c: DimBounds, rest: seq<Stage>, arity: string -> nat)
    requires Shaped(q, st, arity) && QueueIn(st, rest) && c.Keys == DimNames(q.env, t) && t in rest
    requires t in st.queue ==> DimsWithin(st.queue[t], c)
    ensures var st' := st.(queue := st.queue[t := c]); Grows(st, st') && Shaped(q, st', arity) && QueueIn(st', rest)
  {
    var st' := st.(queue := st.queue[t := c]);
    forall u | u in st.queue ensures u in st'.queue && DimsWithin(st.queue[u], st'.queue[u]) {
      WithinSelf(st.queue[u]);
    }
    forall g | g in st.regions ensures BoxWithin(st.regions[g], st'.regions[g]) {
      BoxWithinSelf(st.regions[g]);
    }
    hide DimsWithin, BoxWithin, DimNames;
  }

  lemma {:induction false} QueuesFunc(q: Query, st: State, g: string, box: Box, k: nat, rest: seq<Stage>,
                                      arity: string -> nat)
    requires Shaped(q, st, arity) && QueueIn(st, rest) && Passed(st, rest) && g in q.env && |q.env[g].args| == |box|
    requires forall i: nat | i < |q.env[g].stages| :: Stage(g, i) in rest
    ensures var st' := st.(queue := QueueFunc(st.queue, g, q.env[g], box, st.visited, k));
            Grows(st, st') && Shaped(q, st', arity) && QueueIn(st', rest) && TakenFrom(q, st', g, box, k)
    decreases |q.env[g].stages| - k
  {
    if k < |q.env[g].stages| {
      var t, b := Stage(g, k), StageBounds(q.env[g], k, box);
      StageKeys(q.env, g, k, box);
      hide Shaped, QueueIn, Taken, Grows, StageBounds, QueueStage, Passed, DimNames, TakenFrom;
      QueuesStage(q, st, t, b, rest, arity);
      var st1 := st.(queue := QueueStage(st.queue, t, b, st.visited));
      PassedGrows(st, st1, rest);
      QueuesFunc(q, st1, g, box, k + 1, rest, arity);
      var st2 := st1.(queue := QueueFunc(st1.queue, g, q.env[g], box, st.visited, k + 1));
      TakenGrows(st1, st2, t, b);
      GrowsTrans(st, st1, st2);
      TakenOneMore(q, st2, g, box, k);
    } else {
      GrowsSelf(st);
    }
  }

  lemma TakenOneMore(q: Query, st: State, g: string, box: Box, k: nat)
    requires TakenFrom(q, st, g, box, k + 1) && k < |q.env[g].stages|
             && Taken(st, Stage(g, k), StageBounds(q.env[g], k, box))
    ensures TakenFrom(q, st, g, box, k)
  {
    hide Taken, StageBounds;
  }

  lemma PassedGrows(st: State, st': State, rest: seq<Stage>)
    requires Passed(st, rest) && Grows(st, st')
    ensures Passed(st', rest)
  {
  }

  lemma GrowsSelf(st: State)
    ensures Grows(st, st)
  {
  }

  lemma GrowsTrans(a: State, b: State, c: State)
    requires Grows(a, b) && Grows(b, c)
    ensures Grows(a, c)
  {
    forall t | t in a.queue ensures t in c.queue && DimsWithin(a.queue[t], c.queue[t]) {
      assert DimsWithin(b.queue[t], c.queue[t]);
    }
    forall g | g in a.regions ensures g in c.regions && BoxWithin(a.regions[g], c.regions[g]) {
      assert BoxWithin(b.regions[g], c.regions[g]);
    }
    hide InDims, InBox;
  }

  /** What a step keeps: the form of the state, and what the step may still reach. */
  ghost predicate Ready(q: Query, st: State, rest: seq<Stage>, arity: string -> nat) {
    Shaped(q, st, arity) && QueueIn(st, rest) && Passed(st, rest)
  }

  /** A region that the current stage needs: its size is right, and its stages are still to come. */
  ghost predicate Fine(q: Query, curr: string, g: string, box: Box, rest: seq<Stage>, arity: string -> nat) {
    |box| == arity(g) && (g in q.env ==> |q.env[g].args| == arity(g))
    && (Queued(q, curr, g) ==> forall i: nat | i < |q.env[g].stages| :: Stage(g, i) in rest)
  }

  lemma RegionMerges(q: Query, curr: string, st: State, g: string, box: Box, rest: seq<Stage>, arity: string -> nat)
    requires Ready(q, st, rest, arity) && |box| == arity(g)
    ensures var st' := st.(regions := MergeRegion(st.regions, g, box));
            Grows(st, st') && Ready(q, st', rest, arity) && BoxWithin(box, st'.regions[g])
  {
    if g in st.regions {
      MergedBoxes(st.regions[g], box);
    }
    hide MergeBoxes, InBox;
  }

  lemma OneMerges(q: Query, curr: string, st: State, g: string, box: Box, rest: seq<Stage>, arity: string -> nat)
    requires Ready(q, st, rest, arity) && Fine(q, curr, g, box, rest, arity)
    ensures var st' := MergeAndQueueOne(q, curr, st, g, box);
            Grows(st, st') && Ready(q, st', rest, arity) && Settled(q, st', curr, g, box)
  {
    var st1 := if Merged(q, curr, g) then st.(regions := MergeRegion(st.regions, g, box)) else st;
    GrowsSelf(st);
    RegionMerges(q, curr, st, g, box, rest, arity);
    var st2 := MergeAndQueueOne(q, curr, st, g, box);
    hide MergeRegion, QueueFunc, Shaped, QueueIn, Passed, Grows, TakenFrom, BoxWithin;
    if Queued(q, curr, g) {
      assert Shaped(q, st1, arity) && QueueIn(st1, rest) && Passed(st1, rest) by { assert Ready(q, st1, rest, arity); }
      QueuesFunc(q, st1, g, box, 0, rest, arity);
      assert st2 == st1.(queue := QueueFunc(st1.queue, g, q.env[g], box, st1.visited, 0));
      PassedGrows(st1, st2, rest);
      GrowsTrans(st, st1, st2);
      RegionsKept(st1, st2, g, box);
    }
  }

  lemma RegionsKept(st: State, st': State, g: string, box: Box)
    requires st'.regions == st.regions
    ensures g in st.regions && BoxWithin(box, st.regions[g]) ==> g in st'.regions && BoxWithin(box, st'.regions[g])
  {
  }

  lemma {:induction false} ListMerges(q: Query, curr: string, st: State, regs: RegionList, rest: seq<Stage>,
                                      arity: string -> nat)
    requires Ready(q, st, rest, arity) && forall r | r in regs :: Fine(q, curr, r.0, r.1, rest, arity)
    ensures var st' := MergeAndQueue(q, curr, st, regs);
            Grows(st, st') && Ready(q, st', rest, arity) && forall r | r in regs :: Settled(q, st', curr, r.0, r.1)
    decreases |regs|
  {
    hide Ready, Grows, Settled, Fine, MergeAndQueueOne;
    if regs == [] {
      GrowsSelf(st);
    } else {
      var st1 := MergeAndQueueOne(q, curr, st, regs[0].0, regs[0].1);
      OneMerges(q, curr, st, regs[0].0, regs[0].1, rest, arity);
      ListMerges(q, curr, st1, regs[1..], rest, arity);
      var st2 := MergeAndQueue(q, curr, st1, regs[1..]);
      GrowsTrans(st, st1, st2);
      SettledGrows(q, st1, st2, curr, regs[0].0, regs[0].1);
      assert regs == [regs[0]] + regs[1..];
    }
  }

  lemma {:induction false} AllMerge(q: Query, curr: string, st: State, all: seq<RegionList>, rest: seq<Stage>,
                                    arity: string -> nat)
    requires Ready(q, st, rest, arity) && forall regs, r | regs in all && r in regs ::
             Fine(q, curr, r.0, r.1, rest, arity)
    ensures var st' := MergeAndQueueAll(q, curr, st, all);
            Grows(st, st') && Ready(q, st', rest, arity) && forall regs, r | regs in all && r in regs ::
                Settled(q, st', curr, r.0, r.1)
    decreases |all|
  {
    hide Ready, Grows, Settled, Fine, MergeAndQueue;
    if all == [] {
      GrowsSelf(st);
    } else {
      var st1 := MergeAndQueue(q, curr, st, all[0]);
      ListMerges(q, curr, st, all[0], rest, arity);
      AllMerge(q, curr, st1, all[1..], rest, arity);
      var st2 := MergeAndQueueAll(q, curr, st1, all[1..]);
      GrowsTrans(st, st1, st2);
      assert all == [all[0]] + all[1..];
      forall regs, r | regs in all && r in regs ensures Settled(q, st2, curr, r.0, r.1) {
        if regs == all[0] {
          SettledGrows(q, st1, st2, curr, r.0, r.1);
        }
      }
    }
  }

  // ----- handling one stage -----

  function Without(st: State, s: Stage): State {
    st.(queue := st.queue - {s})
  }

  lemma UpdateWithout<K, V>(m: map<K, V>, t: K, c: V, s: K)
    requires t != s
    ensures m[t := c] - {s} == (m - {s})[t := c]
  {
  }

  lemma QueueStageWithout(queue: map<Stage, DimBounds>, t: Stage, b: DimBounds, visited: set<(Stage, nat)>, s: Stage)
    requires t != s
    ensures QueueStage(queue, t, b, visited) - {s} == QueueStage(queue - {s}, t, b, visited)
  {
    hide MergeDims;
    var c := if t in queue then MergeDims(queue[t], b) else b;
    UpdateWithout(queue, t, c, s);
    assert t in queue <==> t in queue - {s};
    assert t in queue ==> (queue - {s})[t] == queue[t];
  }

  lemma {:induction false} QueueFuncWithout(queue: map<Stage, DimBounds>, g: string, f: Func, box: Box,
                                            visited: set<(Stage, nat)>, k: nat, s: Stage)
    requires |f.args| == |box| && g != s.func
    ensures QueueFunc(queue, g, f, box, visited, k) - {s} == QueueFunc(queue - {s}, g, f, box, visited, k)
    decreases |f.stages| - k
  {
    hide QueueStage, StageBounds;
    if k < |f.stages| {
      var t, b := Stage(g, k), StageBounds(f, k, box);
      var next := QueueStage(queue, t, b, visited);
      QueueStageWithout(queue, t, b, visited, s);
      QueueFuncWithout(next, g, f, box, visited, k + 1, s);
      assert QueueFunc(queue, g, f, box, visited, k) == QueueFunc(next, g, f, box, visited, k + 1);
      assert QueueFunc(queue - {s}, g, f, box, visited, k) == QueueFunc(next - {s}, g, f, box, visited, k + 1);
      hide QueueFunc;
    }
  }

  lemma OneWithout(q: Query, st: State, g: string, box: Box, s: Stage)
    ensures Without(MergeAndQueueOne(q, s.func, st, g, box), s) == MergeAndQueueOne(q, s.func, Without(st, s), g, box)
  {
    if Queued(q, s.func, g) && |q.env[g].args| == |box| {
      QueueFuncWithout(st.queue, g, q.env[g], box, st.visited, 0, s);
    }
    hide QueueFunc, MergeRegion;
  }

  lemma {:induction false} ListWithout(q: Query, st: State, regs: RegionList, s: Stage)
    ensures Without(MergeAndQueue(q, s.func, st, regs), s) == MergeAndQueue(q, s.func, Without(st, s), regs)
    decreases |regs|
  {
    if regs != [] {
      OneWithout(q, st, regs[0].0, regs[0].1, s);
      ListWithout(q, MergeAndQueueOne(q, s.func, st, regs[0].0, regs[0].1), regs[1..], s);
      hide MergeAndQueueOne, Without;
    }
  }

  lemma {:induction false} AllWithout(q: Query, st: State, all: seq<RegionList>, s: Stage)
    ensures Without(MergeAndQueueAll(q, s.func, st, all), s) == MergeAndQueueAll(q, s.func, Without(st, s), all)
    decreases |all|
  {
    if all != [] {
      ListWithout(q, st, all[0], s);
      AllWithout(q, MergeAndQueue(q, s.func, st, all[0]), all[1..], s);
      hide MergeAndQueue, Without;
    }
  }

  /** The state once a stage is taken from the queue. */
  function Took(s: Stage, st: State): State
    requires s in st.queue
  {
    State(st.queue - {s}, st.regions, st.visited + {(s, |st.queue[s]|)}, st.trace + [(s, st.queue[s])])
  }

  lemma ProcessIs(q: Query, s: Stage, st: State)
    requires s in st.queue
    ensures Process(q, s, st) == MergeAndQueueAll(q, s.func, Took(s, st), q.needs(s, st.queue[s]))
  {
    var b := st.queue[s];
    var st1 := st.(visited := st.visited + {(s, |b|)}, trace := st.trace + [(s, b)]);
    AllWithout(q, st1, q.needs(s, b), s);
    hide MergeAndQueueAll;
  }

  /** What was known of a stage is known when it has been taken from the queue. */
  lemma TookTaken(s: Stage, st: State, t: Stage, b: DimBounds)
    requires s in st.queue && Taken(st, t, b)
    ensures Taken(Took(s, st), t, b)
  {
    var st' := Took(s, st);
    if t in st.queue && DimsWithin(b, st.queue[t]) {
      if t == s {
        var e := (s, st.queue[s]);
        assert e in st'.trace && DimsWithin(b, e.1);
      }
    } else {
      var e :| e in st.trace && e.0 == t && DimsWithin(b, e.1);
      assert e in st'.trace;
    }
    hide DimsWithin;
  }

  lemma TookSettled(q: Query, s: Stage, st: State, e: (Stage, DimBounds))
    requires s in st.queue && AllSettled(q, st, e)
    ensures AllSettled(q, Took(s, st), e)
  {
    var st' := Took(s, st);
    forall regs, r | regs in q.needs(e.0, e.1) && r in regs ensures Settled(q, st', e.0.func, r.0, r.1) {
      assert Settled(q, st, e.0.func, r.0, r.1);
      if Queued(q, e.0.func, r.0) {
        forall i | 0 <= i < |q.env[r.0].stages| ensures Taken(st', Stage(r.0, i), StageBounds(q.env[r.0], i, r.1)) {
          TookTaken(s, st, Stage(r.0, i), StageBounds(q.env[r.0], i, r.1));
        }
      }
    }
    hide Taken, Took, StageBounds, BoxWithin;
  }

  /** Everything that handled stages need is settled. */
  ghost predicate TraceSettled(q: Query, st: State) {
    forall e | e in st.trace :: AllSettled(q, st, e)
  }

  lemma AllSettledGrows(q: Query, st: State, st': State, e: (Stage, DimBounds))
    requires Grows(st, st') && AllSettled(q, st, e)
    ensures AllSettled(q, st', e)
  {
    forall regs, r | regs in q.needs(e.0, e.1) && r in regs ensures Settled(q, st', e.0.func, r.0, r.1) {
      SettledGrows(q, st, st', e.0.func, r.0, r.1);
    }
    hide Settled, Grows;
  }

  lemma NeedsFine(q: Query, s: Stage, b: DimBounds, rest: seq<Stage>, arity: string -> nat)
    requires Sized(q, arity) && LaterOnly(q, s, rest)
    ensures forall regs, r | regs in q.needs(s, b) && r in regs :: Fine(q, s.func, r.0, r.1, rest, arity)
  {
  }

  lemma TookReady(q: Query, s: Stage, st: State, rest: seq<Stage>, arity: string -> nat)
    requires s in st.queue && s !in rest && Ready(q, st, [s] + rest, arity)
    ensures Ready(q, Took(s, st), rest, arity)
  {
    var st' := Took(s, st);
    forall v | v in st'.visited ensures v.0 !in rest {
      assert v in st.visited ==> v.0 !in [s] + rest;
    }
    forall e | e in st'.trace ensures e.0 !in rest {
      assert e in st.trace ==> e.0 !in [s] + rest;
    }
    forall t | t in st'.queue ensures t in rest {
      assert t in [s] + rest;
    }
    hide DimNames;
  }

  /** Handling a stage keeps the form of the state, settles what the stage needs, and unsettles nothing. */
  lemma ProcessKeeps(q: Query, s: Stage, st: State, rest: seq<Stage>, arity: string -> nat, root: Stage,
                     bounds: DimBounds)
    requires s in st.queue && s !in rest && Ready(q, st, [s] + rest, arity) && LaterOnly(q, s, rest) && Sized(q, arity)
    requires TraceSettled(q, st) && Taken(st, root, bounds)
    ensures var st' := Process(q, s, st);
            && Ready(q, st', rest, arity) && TraceSettled(q, st') && Taken(st', root, bounds)
            && st'.trace == st.trace + [(s, st.queue[s])]
  {
    var b, st1, st' := st.queue[s], Took(s, st), Process(q, s, st);
    ProcessIs(q, s, st);
    TookReady(q, s, st, rest, arity);
    NeedsFine(q, s, b, rest, arity);
    TookTaken(s, st, root, bounds);
    hide Ready, LaterOnly, Sized, Taken, Settled, Process, MergeAndQueueAll, Fine;
    AllMerge(q, s.func, st1, q.needs(s, b), rest, arity);
    TakenGrows(st1, st', root, bounds);
    assert st'.trace == st1.trace by { assert Grows(st1, st'); }
    assert st1.trace == st.trace + [(s, b)];
    forall e | e in st'.trace ensures AllSettled(q, st', e) {
      if e in st.trace {
        TookSettled(q, s, st, e);
        hide AllSettled, Grows;
        AllSettledGrows(q, st1, st', e);
      } else {
        assert e == (s, b);
      }
    }
  }

  // ----- the sweep -----

  /** `c`, handled with bounds `b`, needs `t`. */
  ghost predicate Consumes(q: Query, c: Stage, b: DimBounds, t: Stage) {
    exists regs, r | regs in q.needs(c, b) && r in regs ::
        Queued(q, c.func, r.0) && t.func == r.0 && t.num < |q.env[r.0].stages|
  }

  /** Every stage was handled once, after all stages that need it. */
  ghost predicate ConsumersFirst(q: Query, trace: seq<(Stage, DimBounds)>) {
    && (forall i, j | 0 <= i < j < |trace| :: trace[i].0 != trace[j].0)
    && (forall i, j | 0 <= i < |trace| && 0 <= j < |trace| && Consumes(q, trace[j].0, trace[j].1, trace[i].0) :: j < i)
  }

  lemma ConsumedLater(q: Query, s: Stage, b: DimBounds, t: Stage, rest: seq<Stage>)
    requires LaterOnly(q, s, rest)
    ensures Consumes(q, s, b, t) ==> t in rest && t != s
  {
    if Consumes(q, s, b, t) {
      var regs, r :| regs in q.needs(s, b) && r in regs && Queued(q, s.func, r.0) && t.func == r.0
          && t.num < |q.env[r.0].stages|;
      assert t == Stage(r.0, t.num);
    }
  }

  lemma OneMoreInTrace(q: Query, st: State, s: Stage, b: DimBounds, rest: seq<Stage>)
    requires ConsumersFirst(q, st.trace) && Passed(st, [s] + rest) && LaterOnly(q, s, rest)
    ensures ConsumersFirst(q, st.trace + [(s, b)])
  {
    var trace, n := st.trace + [(s, b)], |st.trace|;
    assert s in [s] + rest;
    forall i, j | 0 <= i < j < |trace| ensures trace[i].0 != trace[j].0 {
      assert trace[i] in st.trace;
      assert j < n ==> trace[j] == st.trace[j] && trace[i] == st.trace[i];
    }
    forall i, j | 0 <= i < |trace| && 0 <= j < |trace| && Consumes(q, trace[j].0, trace[j].1, trace[i].0)
        ensures j < i {
      if j < n && i < n {
        assert trace[j] == st.trace[j] && trace[i] == st.trace[i];
      } else {
        assert trace[i].0 == s || (trace[i] in st.trace && trace[i].0 !in [s] + rest);
        ConsumedLater(q, s, b, trace[i].0, rest);
      }
    }
    hide Consumes, LaterOnly;
  }

  lemma {:induction false} SweepKeeps(q: Query, stages: seq<Stage>, st: State, arity: string -> nat, root: Stage,
                                      bounds: DimBounds)
    requires Topological(q, stages) && Sized(q, arity) && Ready(q, st, stages, arity)
    requires TraceSettled(q, st) && Taken(st, root, bounds) && ConsumersFirst(q, st.trace)
    ensures var st' := Sweep(q, stages, st);
            Ready(q, st', [], arity) && TraceSettled(q, st') && Taken(st', root, bounds) && ConsumersFirst(q, st'.trace)
    decreases |stages|
  {
    if stages != [] {
      var s, rest := stages[0], stages[1..];
      assert stages == [s] + rest;
      if s in st.queue {
        assert Passed(st, stages) by { assert Ready(q, st, stages, arity); }
        ProcessKeeps(q, s, st, rest, arity, root, bounds);
        OneMoreInTrace(q, st, s, st.queue[s], rest);
        hide Ready, TraceSettled, Taken, ConsumersFirst, LaterOnly, Sized, Process;
        SweepKeeps(q, rest, Process(q, s, st), arity, root, bounds);
      } else {
        NotQueued(q, s, st, rest, arity);
        hide Ready, TraceSettled, Taken, ConsumersFirst, LaterOnly, Sized, Process;
        SweepKeeps(q, rest, st, arity, root, bounds);
      }
    }
  }

  lemma NotQueued(q: Query, s: Stage, st: State, rest: seq<Stage>, arity: string -> nat)
    requires s !in st.queue && Ready(q, st, [s] + rest, arity)
    ensures Ready(q, st, rest, arity)
  {
    forall t | t in st.queue ensures t in rest {
      assert t in [s] + rest;
    }
    forall v | v in st.visited ensures v.0 !in rest {
      assert v.0 !in [s] + rest;
    }
    forall e | e in st.trace ensures e.0 !in rest {
      assert e.0 !in [s] + rest;
    }
    hide Shaped;
  }

  // ----- realization order -----

  /** Callees come before their callers, and every function has its place. */
  ghost predicate RealizationOrder(q: Query, order: seq<string>) {
    && Distinct(order) && (forall g | g in order :: g in q.env) && (forall g | g in q.env :: g in order)
    && forall i, num: nat, b, regs, r | 0 <= i < |order| && regs in q.needs(Stage(order[i], num), b) && r in regs
        && Queued(q, order[i], r.0) ::
         r.0 in order[..i]
  }

  lemma {:induction false} StagesOfHas(g: string, f: Func, k: nat, t: Stage)
    ensures t in StagesOf(g, f, k) <==> t.func == g && k <= t.num < |f.stages|
    decreases |f.stages| - k
  {
    if k < |f.stages| {
      StagesOfHas(g, f, k + 1, t);
    }
  }

  lemma {:induction false} BackwardHas(env: Env, order: seq<string>, t: Stage)
    requires forall g | g in order :: g in env
    ensures t in Backward(env, order) <==> t.func in order && t.num < |env[t.func].stages|
    decreases |order|
  {
    if order != [] {
      var g, before := order[|order| - 1], order[..|order| - 1];
      StagesOfHas(g, env[g], 0, t);
      BackwardHas(env, before, t);
      assert order == before + [g];
    }
  }

  lemma {:induction false} StagesTopological(q: Query, order: seq<string>, n: nat, k: nat)
    requires RealizationOrder(q, order) && n < |order| && Topological(q, Backward(q.env, order[..n]))
    ensures Topological(q, StagesOf(order[n], q.env[order[n]], k) + Backward(q.env, order[..n]))
    decreases |q.env[order[n]].stages| - k
  {
    var g, f, before := order[n], q.env[order[n]], Backward(q.env, order[..n]);
    if k < |f.stages| {
      var s, more := Stage(g, k), StagesOf(g, f, k + 1);
      StagesTopological(q, order, n, k + 1);
      assert StagesOf(g, f, k) + before == [s] + (more + before);
      assert ([s] + (more + before))[1..] == more + before;
      StagesOfHas(g, f, k + 1, s);
      BackwardHas(q.env, order[..n], s);
      assert g !in order[..n];
      forall b, regs, r, i: nat | regs in q.needs(s, b) && r in regs && Queued(q, s.func, r.0)
          && i < |q.env[r.0].stages|
        ensures Stage(r.0, i) in more + before && Stage(r.0, i) != s
      {
        assert r.0 in order[..n];
        BackwardHas(q.env, order[..n], Stage(r.0, i));
      }
    } else {
      assert [] + before == before;
    }
  }

  /** In realization order every stage only needs stages that the sweep has yet to reach. */
  lemma {:induction false} OrderIsTopological(q: Query, order: seq<string>, n: nat)
    requires RealizationOrder(q, order) && n <= |order|
    ensures Topological(q, Backward(q.env, order[..n]))
    decreases n
  {
    if n > 0 {
      OrderIsTopological(q, order, n - 1);
      StagesTopological(q, order, n - 1, 0);
      assert order[..n][..n - 1] == order[..n - 1];
    } else {
      assert order[..0] == [];
    }
  }

  // ----- the theorem -----

  /** What the pipeline computes: an iteration of a stage reads a function at a point. */
  type Reads = (Stage, Point, string, seq<int>) -> bool

  /** boxes_required, for all values and arguments of a stage: every point that is read within the bounds lies in a
      region. */
  ghost predicate NeedsCover(q: Query, read: Reads) {
    forall s, b, x, g, p | InDims(x, b) && read(s, x, g, p) :: InSome(q.needs(s, b), g, p)
  }

  ghost predicate InSome(all: seq<RegionList>, g: string, p: seq<int>) {
    exists regs, r | regs in all && r in regs :: r.0 == g && InBox(p, r.1)
  }

  /** An iteration of a stage that contributes to a point of its function. */
  ghost predicate Iterates(env: Env, t: Stage, p: seq<int>, x: Point) {
    && t.func in env && t.num < |env[t.func].stages|
    && var f := env[t.func];
       && |p| == |f.args| && (forall i | 0 <= i < |p| :: f.args[i] in x && x[f.args[i]] == p[i])
       && (forall v | v in f.stages[t.num] && v !in f.args :: v in x && InInterval(x[v], f.stages[t.num][v]))
  }

  /** The first iteration reads a point of a producer, and the second one contributes to that point. */
  ghost predicate Link(q: Query, read: Reads, a: (Stage, Point), c: (Stage, Point)) {
    exists p :: read(a.0, a.1, c.0.func, p) && Queued(q, a.0.func, c.0.func) && Iterates(q.env, c.0, p, c.1)
  }

  /** A chain of demand from an iteration of the stage that is asked for. */
  ghost predicate Demanded(q: Query, read: Reads, root: Stage, bounds: DimBounds, chain: seq<(Stage, Point)>)
    decreases |chain|
  {
    && chain != []
    && if |chain| == 1 then chain[0].0 == root && InDims(chain[0].1, bounds)
       else
         && Demanded(q, read, root, bounds, chain[..|chain| - 1])
         && Link(q, read, chain[|chain| - 2], chain[|chain| - 1])
  }

  lemma {:induction false} PureBoundsAt(args: seq<string>, box: Box, i: nat)
    requires |args| == |box| && Distinct(args) && i < |args|
    ensures args[i] in PureBounds(args, box) && PureBounds(args, box)[args[i]] == box[i]
    decreases |args|
  {
    var n := |args| - 1;
    if i < n {
      PureBoundsAt(args[..n], box[..n], i);
      assert args[i] != args[n];
    }
  }

  lemma IteratesWithin(env: Env, t: Stage, p: seq<int>, x: Point, box: Box)
    requires Iterates(env, t, p, x) && InBox(p, box) && Distinct(env[t.func].args)
    ensures InDims(x, StageBounds(env[t.func], t.num, box))
  {
    var f := env[t.func];
    var b := StageBounds(f, t.num, box);
    PureKeys(f.args, box);
    forall v | v in b ensures v in x && InInterval(x[v], b[v]) {
      if v in f.args {
        var i: nat :| i < |f.args| && f.args[i] == v;
        PureBoundsAt(f.args, box, i);
      }
    }
    hide PureBounds;
  }

  /** The stage was handled with bounds that contain the iteration. */
  ghost predicate Handled(st: State, a: (Stage, Point)) {
    exists e | e in st.trace :: e.0 == a.0 && InDims(a.1, e.1)
  }

  lemma TakenHandled(st: State, t: Stage, b: DimBounds, x: Point)
    requires st.queue == map[] && Taken(st, t, b) && InDims(x, b)
    ensures Handled(st, (t, x))
  {
    var e :| e in st.trace && e.0 == t && DimsWithin(b, e.1);
    assert InDims(x, e.1);
    hide InDims;
  }

  /** The region that covers a point which a handled iteration reads. */
  lemma ReadSettled(q: Query, read: Reads, st: State, a: (Stage, Point), g: string, p: seq<int>) returns (box: Box)
    requires NeedsCover(q, read) && TraceSettled(q, st) && Handled(st, a) && read(a.0, a.1, g, p)
    ensures Settled(q, st, a.0.func, g, box) && InBox(p, box)
  {
    var e :| e in st.trace && e.0 == a.0 && InDims(a.1, e.1);
    assert InSome(q.needs(e.0, e.1), g, p);
    var regs, r :| regs in q.needs(e.0, e.1) && r in regs && r.0 == g && InBox(p, r.1);
    assert AllSettled(q, st, e);
    box := r.1;
    hide Settled, InBox, InDims;
  }

  lemma {:induction false} ChainHandled(q: Query, read: Reads, st: State, root: Stage, bounds: DimBounds,
                                        chain: seq<(Stage, Point)>, arity: string -> nat)
    requires NeedsCover(q, read) && Sized(q, arity) && TraceSettled(q, st) && st.queue == map[]
             && Taken(st, root, bounds)
    requires Demanded(q, read, root, bounds, chain)
    ensures Handled(st, chain[|chain| - 1])
    decreases |chain|
  {
    var c := chain[|chain| - 1];
    if |chain| == 1 {
      TakenHandled(st, root, bounds, c.1);
    } else {
      ChainHandled(q, read, st, root, bounds, chain[..|chain| - 1], arity);
      var a := chain[|chain| - 2];
      assert Link(q, read, a, c);
      var p :| read(a.0, a.1, c.0.func, p) && Queued(q, a.0.func, c.0.func) && Iterates(q.env, c.0, p, c.1);
      hide Link, Demanded, NeedsCover, TraceSettled, Handled;
      var box := ReadSettled(q, read, st, a, c.0.func, p);
      assert Taken(st, Stage(c.0.func, c.0.num), StageBounds(q.env[c.0.func], c.0.num, box));
      assert Distinct(q.env[c.0.func].args);
      hide Taken, Settled, StageBounds, Sized;
      IteratesWithin(q.env, c.0, p, c.1, box);
      TakenHandled(st, c.0, StageBounds(q.env[c.0.func], c.0.num, box), c.1);
    }
  }

  /** One backward sweep empties the queue, and each stage is handled once and after all its consumers. */
  lemma SweepEmptiesQueue(q: Query, order: seq<string>, s: Stage, bounds: DimBounds, arity: string -> nat)
    requires RealizationOrder(q, order) && Sized(q, arity) && s.func in q.env && s.num < |q.env[s.func].stages|
             && bounds.Keys == DimNames(q.env, s)
    ensures var st := Sweep(q, Backward(q.env, order), Start(s, bounds));
            && st.queue == map[] && ConsumersFirst(q, st.trace) && TraceSettled(q, st) && Taken(st, s, bounds)
  {
    var stages, st0 := Backward(q.env, order), Start(s, bounds);
    assert order[..|order|] == order;
    OrderIsTopological(q, order, |order|);
    BackwardHas(q.env, order, s);
    WithinSelf(bounds);
    assert s in stages;
    hide *;
    StartReady(q, s, bounds, stages, arity);
    SweepKeeps(q, stages, st0, arity, s, bounds);
    NothingLeft(q, Sweep(q, stages, st0), arity);
  }

  lemma StartReady(q: Query, s: Stage, bounds: DimBounds, stages: seq<Stage>, arity: string -> nat)
    requires bounds.Keys == DimNames(q.env, s) && s in stages && DimsWithin(bounds, bounds)
    ensures var st := Start(s, bounds);
            Ready(q, st, stages, arity) && TraceSettled(q, st) && Taken(st, s, bounds) && ConsumersFirst(q, st.trace)
  {
    hide DimNames, DimsWithin, AllSettled, Consumes;
  }

  lemma NothingLeft(q: Query, st: State, arity: string -> nat)
    requires Ready(q, st, [], arity)
    ensures st.queue == map[]
  {
    hide Shaped, Passed;
  }

  /** The regions cover every point that is transitively demanded through producers. */
  lemma RegionsCover(q: Query, read: Reads, order: seq<string>, s: Stage, bounds: DimBounds, arity: string -> nat,
                     chain: seq<(Stage, Point)>, g: string, p: seq<int>)
    requires RealizationOrder(q, order) && Sized(q, arity) && s.func in q.env && s.num < |q.env[s.func].stages|
             && bounds.Keys == DimNames(q.env, s)
    requires NeedsCover(q, read) && Demanded(q, read, s, bounds, chain)
    requires var a := chain[|chain| - 1]; read(a.0, a.1, g, p) && Merged(q, a.0.func, g)
    ensures var regions := Sweep(q, Backward(q.env, order), Start(s, bounds)).regions;
            g in regions && InBox(p, regions[g])
  {
    var st, a := Sweep(q, Backward(q.env, order), Start(s, bounds)), chain[|chain| - 1];
    SweepEmptiesQueue(q, order, s, bounds, arity);
    hide Sweep, Sized, RealizationOrder, NeedsCover, TraceSettled, Handled, Taken, TakenFrom;
    ChainHandled(q, read, st, s, bounds, chain, arity);
    var box := ReadSettled(q, read, st, a, g, p);
    assert BoxWithin(box, st.regions[g]);
    hide InBox;
  }
}
