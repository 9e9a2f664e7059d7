/** DependenceAnalysis::regions_required (AutoSchedule.cpp): the regions of producers that are needed to compute a
    region of a function stage, found by a worklist over the stages in realization order. */
module Regions {
  import opened Wrappers

  // ----- regions -----

  /** An end that is missing is infinite. */
  datatype Interval = Interval(min: Option<int>, max: Option<int>)

  type Box = seq<Interval>

  type DimBounds = map<string, Interval>

  predicate InInterval(x: int, i: Interval) {
    (i.min.Some? ==> i.min.value <= x) && (i.max.Some? ==> x <= i.max.value)
  }

  predicate InBox(q: seq<int>, b: Box) {
    |q| == |b| && forall i | 0 <= i < |q| :: InInterval(q[i], b[i])
  }

  /** An iteration of a stage gives every dimension a value. */
  type Point = map<string, int>

  predicate InDims(x: Point, b: DimBounds) {
    forall v | v in b :: v in x && InInterval(x[v], b[v])
  }

  function Hull(a: Interval, b: Interval): Interval {
    Interval(if a.min.Some? && b.min.Some? then Some(if a.min.value <= b.min.value then a.min.value else b.min.value)
        else None,
             if a.max.Some? && b.max.Some? then Some(if a.max.value <= b.max.value then b.max.value else a.max.value)
                 else None)
  }

  /** merge_boxes for boxes without conditions. */
  function MergeBoxes(a: Box, b: Box): Box {
    if b == [] then a
    else if a == [] then b
    else if |a| == |b| then seq(|a|, i requires 0 <= i < |a| => Hull(a[i], b[i]))
    else a
  }

  function MergeDims(a: DimBounds, b: DimBounds): DimBounds {
    map v | v in a.Keys + b.Keys :: if v in a && v in b then Hull(a[v], b[v]) else if v in a then a[v] else b[v]
  }

  // ----- pipelines -----

  /** The arguments of a function, and for each of its stages the reduction variables with their ranges. */
  datatype Func = Func(args: seq<string>, stages: seq<DimBounds>)

  type Env = map<string, Func>

  datatype Stage = Stage(func: string, num: nat)

  /** Regions of functions, in the order of their names. */
  type RegionList = seq<(string, Box)>

  /** What the analysis asks of the pipeline: for a stage and its bounds, the regions that each of its values needs. */
  datatype Query = Query(env: Env, needs: (Stage, DimBounds) -> seq<RegionList>, prods: set<string>, onlyComputed: bool)

  /** The bounds of the arguments, by name. */
  function PureBounds(args: seq<string>, box: Box): DimBounds
    requires |args| == |box|
  {
    if args == [] then map[]
    else PureBounds(args[..|args| - 1], box[..|box| - 1])[args[|args| - 1] := box[|box| - 1]]
  }

  /** get_stage_bounds: an argument keeps its bounds even if a reduction variable has its name. */
  function StageBounds(f: Func, k: nat, box: Box): DimBounds
    requires |f.args| == |box| && k < |f.stages|
  {
    f.stages[k] + PureBounds(f.args, box)
  }

  // ----- the worklist -----

  /** The queue, the regions found so far, the stages visited with the number of their bounds (by which
      `visited` looks them up), and a history of what was processed. */
  datatype State = State(queue: map<Stage, DimBounds>, regions: map<string, Box>, visited: set<(Stage, nat)>,
                         trace: seq<(Stage, DimBounds)>)

  function QueueStage(queue: map<Stage, DimBounds>, t: Stage, b: DimBounds, visited: set<(Stage, nat)>): map<Stage,
                      DimBounds> {
    if (t, |b|) in visited then queue
    else queue[t := if t in queue then MergeDims(queue[t], b) else b]
  }

  /** queue_func_regions, from stage `k` on. */
  function QueueFunc(queue: map<Stage, DimBounds>, name: string, f: Func, box: Box, visited: set<(Stage, nat)>,
                     k: nat): map<Stage, DimBounds>
    requires |f.args| == |box|
    decreases |f.stages| - k
  {
    if k >= |f.stages| then queue
    else QueueFunc(QueueStage(queue, Stage(name, k), StageBounds(f, k, box), visited), name, f, box, visited, k + 1)
  }

  predicate Merged(q: Query, curr: string, g: string) {
    !q.onlyComputed || g != curr
  }

  predicate Queued(q: Query, curr: string, g: string) {
    g in q.prods && g in q.env && g != curr
  }

  function MergeRegion(regions: map<string, Box>, g: string, box: Box): map<string, Box> {
    regions[g := if g in regions then MergeBoxes(regions[g], box) else box]
  }

  /** One region of merge_and_queue_regions. */
  function MergeAndQueueOne(q: Query, curr: string, st: State, g: string, box: Box): State {
    var regions := if Merged(q, curr, g) then MergeRegion(st.regions, g, box) else st.regions;
    var queue := if Queued(q, curr, g)
        && |q.env[g].args| == |box| then QueueFunc(st.queue, g, q.env[g], box, st.visited, 0) else st.queue;
    st.(regions := regions, queue := queue)
  }

  function MergeAndQueue(q: Query, curr: string, st: State, regs: RegionList): State
    decreases |regs|
  {
    if regs == [] then st
    else MergeAndQueue(q, curr, MergeAndQueueOne(q, curr, st, regs[0].0, regs[0].1), regs[1..])
  }

  function MergeAndQueueAll(q: Query, curr: string, st: State, all: seq<RegionList>): State
    decreases |all|
  {
    if all == [] then st else MergeAndQueueAll(q, curr, MergeAndQueue(q, curr, st, all[0]), all[1..])
  }

  /** Handles a stage that is in the queue, and removes it. */
  function Process(q: Query, s: Stage, st: State): State
    requires s in st.queue
  {
    var b := st.queue[s];
    var st1 := st.(visited := st.visited + {(s, |b|)}, trace := st.trace + [(s, b)]);
    var st2 := MergeAndQueueAll(q, s.func, st1, q.needs(s, b));
    st2.(queue := st2.queue - {s})
  }

  /** One pass over `stages`. */
  function Sweep(q: Query, stages: seq<Stage>, st: State): State
    decreases |stages|
  {
    if stages == [] then st
    else Sweep(q, stages[1..], if stages[0] in st.queue then Process(q, stages[0], st) else st)
  }

  /** The stages of a function from `k` on. */
  function StagesOf(name: string, f: Func, k: nat): seq<Stage>
    decreases |f.stages| - k
  {
    if k >= |f.stages| then [] else [Stage(name, k)] + StagesOf(name, f, k + 1)
  }

  /** All stages, the function that is realized last first. */
  function Backward(env: Env, order: seq<string>): seq<Stage>
    requires forall g | g in order :: g in env
    decreases |order|
  {
    if order == [] then []
    else
      var g := order[|order| - 1];
      StagesOf(g, env[g], 0) + Backward(env, order[..|order| - 1])
  }

  function Start(s: Stage, b: DimBounds): State {
    State(map[s := b], map[], {}, [])
  }
}
