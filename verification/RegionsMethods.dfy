/** The dependence analysis as AutoSchedule.cpp runs it: the queue is drained and filled in loops, and answers are
    kept in a cache. */
module RegionsMethods {
  import opened Wrappers
  import opened Regions
  import RT = RegionsTheorem

  /** What answers are kept under; the estimates of the pipeline's inputs are not part of it. */
  datatype Key = Key(func: string, stage: nat, prods: set<string>, onlyComputed: bool)

  /** One earlier answer. */
  datatype Answer = Answer(bounds: DimBounds, regions: map<string, Box>)

  method MergeBoxesInPlace(a: Box, b: Box) returns (r: Box)
    ensures r == MergeBoxes(a, b)
  {
    if b == [] {
      return a;
    }
    if a == [] {
      return b;
    }
    if |a| != |b| {
      return a;
    }
    r := a;
    for i := 0 to |a|
      invariant |r| == |a| && forall k | 0 <= k < |a| :: r[k] == if k < i then Hull(a[k], b[k]) else a[k]
    {
      r := r[i := Hull(r[i], b[i])];
    }
    assert r == MergeBoxes(a, b);
  }

  lemma EmptySweep(q: Query, st: State)
    ensures Sweep(q, [], st) == st
  {
  }

  lemma QueueNext(queue: map<Stage, DimBounds>, g: string, f: Func, box: Box, visited: set<(Stage, nat)>, k: nat)
    requires |f.args| == |box| && k < |f.stages|
    ensures QueueFunc(queue, g, f, box, visited, k)
            == QueueFunc(QueueStage(queue, Stage(g, k), f.stages[k] + PureBounds(f.args, box), visited), g, f, box,
                visited, k + 1)
  {
  }

  lemma QueueEnd(queue: map<Stage, DimBounds>, g: string, f: Func, box: Box, visited: set<(Stage, nat)>)
    requires |f.args| == |box|
    ensures QueueFunc(queue, g, f, box, visited, |f.stages|) == queue
  {
  }

  lemma NextStage(q: Query, s: Stage, more: seq<Stage>, rest: seq<Stage>, st: State)
    ensures Sweep(q, ([s] + more) + rest, st) == Sweep(q, more + rest, if s in st.queue then Process(q, s, st) else st)
  {
    assert (([s] + more) + rest)[1..] == more + rest;
    hide Process;
  }

  /** What is assumed of the inputs of the pipeline, by name. */
  type Estimates = map<string, Interval>

  class DependenceAnalysis {
    const env: Env
    const order: seq<string>
    /** The regions that a stage needs depend on the estimates. */
    const needs: Estimates -> ((Stage, DimBounds) -> seq<RegionList>)
    /** The last step, which replaces ends that are not constant by the estimates of the function. */
    const concrete: Estimates -> (map<string, Box> -> map<string, Box>)
    var cache: map<Key, seq<Answer>>
    /** The estimates of all calls so far. */
    ghost var asked: set<Estimates>

    /** The assertions of AutoSchedule.cpp on its tables: callees come first, and regions have the size of their
        functions. */
    ghost predicate Usable(q: Query) {
      q.env == env && RT.RealizationOrder(q, order) && exists arity :: RT.Sized(q, arity)
    }

    function QueryOf(est: Estimates, k: Key): Query {
      Query(env, needs(est), k.prods, k.onlyComputed)
    }

    /** The regions without any cache. */
    ghost function Regions(est: Estimates, k: Key, bounds: DimBounds): map<string, Box>
      requires forall g | g in order :: g in env
    {
      concrete(est)(Sweep(QueryOf(est, k), Backward(env, order), Start(Stage(k.func, k.stage), bounds)).regions)
    }

    /** Every answer in the cache is what some call would compute again. */
    ghost predicate Valid()
      reads this
    {
      && (forall g | g in order :: g in env)
      && forall k, a | k in cache && a in cache[k] :: exists est ::
          est in asked && a.regions == Regions(est, k, a.bounds)
    }

    /** The cache has an answer for these bounds. */
    predicate Cached(k: Key, bounds: DimBounds)
      reads this
    {
      k in cache && exists a | a in cache[k] :: a.bounds == bounds
    }

    constructor (env: Env, order: seq<string>, needs: Estimates -> ((Stage, DimBounds) -> seq<RegionList>),
                 concrete: Estimates -> (map<string, Box> -> map<string, Box>))
      requires forall g | g in order :: g in env
      ensures Valid() && this.env == env && this.order == order && this.needs == needs && this.concrete == concrete
      ensures cache == map[] && asked == {}
    {
      this.env, this.order, this.needs, this.concrete, cache, asked := env, order, needs, concrete, map[], {};
    }

    /** A new answer is fresh; one from the cache is fresh exactly when the estimates it was computed with give
        the same regions, as they do when all calls have the same estimates. */
    method RegionsRequired(s: Stage, bounds: DimBounds, prods: set<string>, onlyComputed: bool, est: Estimates)
      returns (regions: map<string, Box>)
      requires Valid() && Usable(QueryOf(est, Key(s.func, s.num, prods, onlyComputed)))
      requires s.func in env && s.num < |env[s.func].stages| && bounds.Keys == RT.DimNames(env, s)
      modifies this
      ensures Valid() && asked == old(asked) + {est}
      ensures var k := Key(s.func, s.num, prods, onlyComputed);
              if old(Cached(k, bounds)) then
                cache == old(cache) && exists a | a in old(cache[k]) :: a.bounds == bounds && regions == a.regions
              else
                regions == Regions(est, k, bounds) && Cached(k, bounds)
      ensures exists e :: e in asked && regions == Regions(e, Key(s.func, s.num, prods, onlyComputed), bounds)
      ensures old(asked) <= {est} ==> regions == Regions(est, Key(s.func, s.num, prods, onlyComputed), bounds)
    {
      hide Sweep, Backward, Start, RT.RealizationOrder, RT.Sized, RT.DimNames;
      var key := Key(s.func, s.num, prods, onlyComputed);
      if key in cache {
        var found := FindAnswer(cache[key], bounds);
        if found.Some? {
          assert Cached(key, bounds);
          asked := asked + {est};
          return found.value;
        }
      }
      regions := Compute(s, bounds, QueryOf(est, key), est, key);
      var answers := (if key in cache then cache[key] else []) + [Answer(bounds, regions)];
      ghost var before, earlier := cache, asked;
      asked := asked + {est};
      cache := cache[key := answers];
      assert answers[|answers| - 1] in cache[key];
      forall k, a | k in cache && a in cache[k] ensures exists e :: e in asked && a.regions == Regions(e, k, a.bounds) {
        if k in before && a in before[k] {
          var e :| e in earlier && a.regions == Regions(e, k, a.bounds);
          assert e in asked;
        } else {
          assert k == key && a == Answer(bounds, regions) && est in asked;
        }
      }
    }

    /** Drains the queue; the loop around the sweep runs once. */
    method Compute(s: Stage, bounds: DimBounds, q: Query, est: Estimates, ghost k: Key)
        returns (regions: map<string, Box>)
      requires Usable(q) && s.func in env && s.num < |env[s.func].stages| && bounds.Keys == RT.DimNames(env, s)
      requires q == QueryOf(est, k) && s == Stage(k.func, k.stage)
      ensures (forall g | g in order :: g in env) && regions == Regions(est, k, bounds)
    {
      var st := Start(s, bounds);
      ghost var swept := false;
      ghost var arity :| RT.Sized(q, arity);
      RT.SweepEmptiesQueue(q, order, s, bounds, arity);
      hide Sweep, Backward, RT.Sized, RT.ConsumersFirst, RT.TraceSettled, RT.Taken, RT.DimNames;
      while st.queue != map[]
        invariant st == if swept then Sweep(q, Backward(q.env, order), Start(s, bounds)) else Start(s, bounds)
        invariant !swept ==> st.queue != map[]
        decreases !swept
      {
        st := SweepOnce(q, st);
        swept := true;
      }
      regions := concrete(est)(st.regions);
    }

    static method FindAnswer(answers: seq<Answer>, bounds: DimBounds) returns (r: Option<map<string, Box>>)
      ensures if r.Some? then exists a | a in answers :: a.bounds == bounds && a.regions == r.value
              else forall a | a in answers :: a.bounds != bounds
    {
      for i := 0 to |answers|
        invariant forall k | 0 <= k < i :: answers[k].bounds != bounds
      {
        if answers[i].bounds == bounds {
          assert answers[i] in answers;
          return Some(answers[i].regions);
        }
      }
      return None;
    }

    /** The functions backward, and the stages of each forward. */
    method SweepOnce(q: Query, st: State) returns (r: State)
      requires q.env == env && forall g | g in order :: g in env
      ensures r == Sweep(q, Backward(q.env, order), st)
    {
      r := st;
      var i := |order|;
      assert order[..|order|] == order;
      hide Sweep, Process;
      while i > 0
        invariant 0 <= i <= |order|
        invariant Sweep(q, Backward(q.env, order[..i]), r) == Sweep(q, Backward(q.env, order), st)
      {
        i := i - 1;
        assert order[..i + 1][..i] == order[..i];
        r := SweepStages(q, order[i], r, Backward(q.env, order[..i]));
      }
      assert order[..0] == [];
      EmptySweep(q, r);
    }

    /** The stages of one function in ascending order. */
    method SweepStages(q: Query, g: string, st: State, ghost rest: seq<Stage>) returns (r: State)
      requires g in q.env
      ensures Sweep(q, rest, r) == Sweep(q, StagesOf(g, q.env[g], 0) + rest, st)
    {
      r := st;
      var f := q.env[g];
      hide Process;
      for k := 0 to |f.stages|
        invariant Sweep(q, StagesOf(g, f, k) + rest, r) == Sweep(q, StagesOf(g, f, 0) + rest, st)
      {
        var s := Stage(g, k);
        NextStage(q, s, StagesOf(g, f, k + 1), rest, r);
        assert StagesOf(g, f, k) == [s] + StagesOf(g, f, k + 1);
        if s in r.queue {
          r := ProcessStage(q, s, r);
        }
      }
      assert [] + rest == rest;
    }

    /** One stage: it is marked as visited, its needs are merged and queued, and it is removed. */
    method ProcessStage(q: Query, s: Stage, st: State) returns (r: State)
      requires s in st.queue
      ensures r == Process(q, s, st)
    {
      var b := st.queue[s];
      r := st.(visited := st.visited + {(s, |b|)}, trace := st.trace + [(s, b)]);
      var all := q.needs(s, b);
      ghost var start := r;
      for i := 0 to |all|
        invariant MergeAndQueueAll(q, s.func, r, all[i..]) == MergeAndQueueAll(q, s.func, start, all)
      {
        assert all[i..][1..] == all[i + 1..];
        r := MergeAndQueueRegions(q, s.func, r, all[i]);
      }
      assert all[|all|..] == [];
      r := r.(queue := r.queue - {s});
    }

    /** merge_and_queue_regions. */
    method MergeAndQueueRegions(q: Query, curr: string, st: State, regs: RegionList) returns (r: State)
      ensures r == MergeAndQueue(q, curr, st, regs)
    {
      r := st;
      for i := 0 to |regs|
        invariant MergeAndQueue(q, curr, r, regs[i..]) == MergeAndQueue(q, curr, st, regs)
      {
        assert regs[i..][1..] == regs[i + 1..];
        var (g, box) := regs[i];
        ghost var before := r;
        if !q.onlyComputed || g != curr {
          var merged := box;
          if g in r.regions {
            merged := MergeBoxesInPlace(r.regions[g], box);
          }
          r := r.(regions := r.regions[g := merged]);
        }
        if g in q.prods && g in q.env && g != curr && |q.env[g].args| == |box| {
          var queue := QueueFuncRegions(r.queue, g, q.env[g], box, r.visited);
          r := r.(queue := queue);
        }
        assert r == MergeAndQueueOne(q, curr, before, g, box);
      }
    }

    /** queue_func_regions. */
    method QueueFuncRegions(queue: map<Stage, DimBounds>, g: string, f: Func, box: Box, visited: set<(Stage, nat)>)
        returns (r: map<Stage, DimBounds>)
      requires |f.args| == |box|
      ensures r == QueueFunc(queue, g, f, box, visited, 0)
    {
      hide *;
      var pure := BoundsByName(f.args, box);
      r := queue;
      for k := 0 to |f.stages|
        invariant QueueFunc(r, g, f, box, visited, k) == QueueFunc(queue, g, f, box, visited, 0)
      {
        var b := f.stages[k] + pure;
        var t := Stage(g, k);
        QueueNext(r, g, f, box, visited, k);
        r := QueueStageRegions(r, t, b, visited);
      }
      QueueEnd(r, g, f, box, visited);
    }

    /** The bounds of one stage: new in the queue, or merged with what is there. */
    method QueueStageRegions(queue: map<Stage, DimBounds>, t: Stage, b: DimBounds, visited: set<(Stage, nat)>)
      returns (r: map<Stage, DimBounds>)
      ensures r == QueueStage(queue, t, b, visited)
    {
      r := queue;
      if (t, |b|) !in visited {
        if t !in r {
          r := r[t := b];
        } else {
          r := r[t := MergeDims(r[t], b)];
        }
      }
    }

    method BoundsByName(args: seq<string>, box: Box) returns (r: DimBounds)
      requires |args| == |box|
      ensures r == PureBounds(args, box)
    {
      r := map[];
      for v := 0 to |args|
        invariant r == PureBounds(args[..v], box[..v])
      {
        assert args[..v + 1][..v] == args[..v] && box[..v + 1][..v] == box[..v];
        r := r[args[v] := box[v]];
      }
      assert args[..|args|] == args && box[..|box|] == box;
    }
  }

  // ----- estimates that differ -----

  /** What is known of a parameter. */
  function EstimateOf(est: Estimates, p: string): Interval {
    if p in est then est[p] else Interval(None, None)
  }

  /** f(x) = g(p) for a parameter p: the region of g is what is known of p. */
  function Reader(): Env {
    map["f" := Func(["x"], [map[]]), "g" := Func(["x"], [map[]])]
  }

  function ReaderOrder(): seq<string> {
    ["g", "f"]
  }

  function ReaderBounds(): DimBounds {
    map["x" := Interval(Some(0), Some(9))]
  }

  function ReaderNeeds(p: string): Estimates -> ((Stage, DimBounds) -> seq<RegionList>) {
    est => (s, _) => if s == Stage("f", 0) then [[("g", [EstimateOf(est, p)])]] else []
  }

  function ReaderQuery(p: string, est: Estimates): Query {
    Query(Reader(), ReaderNeeds(p)(est), {"g"}, false)
  }

  function Unchanged(): Estimates -> (map<string, Box> -> map<string, Box>) {
    _ => regions => regions
  }

  lemma ReaderUsable(p: string, est: Estimates)
    ensures RT.RealizationOrder(ReaderQuery(p, est), ReaderOrder())
    ensures exists arity :: RT.Sized(ReaderQuery(p, est), arity)
    ensures RT.DimNames(Reader(), Stage("f", 0)) == ReaderBounds().Keys
  {
    assert ReaderOrder()[..1] == ["g"];
    assert RT.Sized(ReaderQuery(p, est), (f: string) => 1);
  }

  lemma ReaderHas()
    ensures (forall g | g in ReaderOrder() :: g in Reader()) && "f" in Reader() && |Reader()["f"].stages| == 1
  {
  }

  lemma ReaderBackward()
    ensures (forall g | g in ReaderOrder() :: g in Reader())
    ensures Backward(Reader(), ReaderOrder()) == [Stage("f", 0), Stage("g", 0)]
  {
    assert ReaderOrder()[..1] == ["g"] && ["g"][..0] == [];
    assert StagesOf("f", Reader()["f"], 1) == [] && StagesOf("g", Reader()["g"], 1) == [];
    assert Backward(Reader(), []) == [];
    assert Backward(Reader(), ["g"]) == [Stage("g", 0)];
  }

  lemma OneRegion(q: Query, curr: string, st: State, g: string, box: Box)
    ensures MergeAndQueueAll(q, curr, st, [[(g, box)]]) == MergeAndQueueOne(q, curr, st, g, box)
  {
    var regs: RegionList, all: seq<RegionList> := [(g, box)], [[(g, box)]];
    assert all[1..] == [] && regs[1..] == [];
    hide MergeAndQueueOne;
    var st1 := MergeAndQueueOne(q, curr, st, g, box);
    assert MergeAndQueue(q, curr, st, regs) == MergeAndQueue(q, curr, st1, []) == st1;
    assert MergeAndQueueAll(q, curr, st, all) == MergeAndQueueAll(q, curr, st1, []) == st1;
  }

  lemma ReaderProcess(p: string, est: Estimates, st: State)
    requires st == Start(Stage("f", 0), ReaderBounds())
    ensures Process(ReaderQuery(p, est), Stage("f", 0), st).regions == map["g" := [EstimateOf(est, p)]]
  {
    var q, box := ReaderQuery(p, est), [EstimateOf(est, p)];
    assert q.needs(Stage("f", 0), ReaderBounds()) == [[("g", box)]];
    assert Merged(q, "f", "g");
    hide QueueFunc, EstimateOf, MergeAndQueueAll, Reader, ReaderNeeds, ReaderQuery, Merged, Queued;
    var st1 := st.(visited := st.visited + {(Stage("f", 0), |ReaderBounds()|)},
                   trace := st.trace + [(Stage("f", 0), ReaderBounds())]);
    OneRegion(q, "f", st1, "g", box);
    var st2 := MergeAndQueueOne(q, "f", st1, "g", box);
    assert st.queue[Stage("f", 0)] == ReaderBounds();
    assert Process(q, Stage("f", 0), st).regions == st2.regions;
    assert st1.regions == map[] && st2.regions == map["g" := box];
  }

  lemma ReaderEnds(p: string, est: Estimates, st: State)
    requires Stage("g", 0) in st.queue
    ensures Process(ReaderQuery(p, est), Stage("g", 0), st).regions == st.regions
  {
    assert ReaderQuery(p, est).needs(Stage("g", 0), st.queue[Stage("g", 0)]) == [];
  }

  lemma ReaderRegions(p: string, est: Estimates)
    ensures Sweep(ReaderQuery(p, est), [Stage("f", 0), Stage("g", 0)], Start(Stage("f", 0), ReaderBounds())).regions
            == map["g" := [EstimateOf(est, p)]]
  {
    var q, st, all := ReaderQuery(p, est), Start(Stage("f", 0), ReaderBounds()), [Stage("f", 0), Stage("g", 0)];
    ReaderProcess(p, est, st);
    hide Process, ReaderQuery, EstimateOf;
    var st1 := Process(q, Stage("f", 0), st);
    if Stage("g", 0) in st1.queue {
      ReaderEnds(p, est, st1);
    }
    assert all[1..] == [Stage("g", 0)] && [Stage("g", 0)][1..] == [];
    assert Sweep(q, all, st) == Sweep(q, [Stage("g", 0)], st1);
  }

  /** What the analysis of f(x) = g(p) answers without a cache. */
  lemma ReaderAnswer(d: DependenceAnalysis, p: string, est: Estimates, k: Key)
    requires d.env == Reader() && d.order == ReaderOrder() && d.needs == ReaderNeeds(p) && d.concrete == Unchanged()
    requires k == Key("f", 0, {"g"}, false)
    ensures d.Usable(d.QueryOf(est, k)) && RT.DimNames(d.env, Stage("f", 0)) == ReaderBounds().Keys
    ensures "f" in d.env && |d.env["f"].stages| == 1 && forall g | g in d.order :: g in d.env
    ensures d.Regions(est, k, ReaderBounds()) == map["g" := [EstimateOf(est, p)]]
  {
    hide Sweep, EstimateOf, Backward, RT.RealizationOrder, RT.Sized, RT.DimNames, Reader, ReaderOrder, ReaderBounds,
      ReaderNeeds;
    ReaderUsable(p, est);
    ReaderBackward();
    ReaderHas();
    ReaderRegions(p, est);
    assert d.QueryOf(est, k) == ReaderQuery(p, est);
  }

  /** The second of two calls with different estimates is answered from the cache, and that is what an analysis without
      the first call answers if and only if both say the same about the parameter. */
  method AskTwice(p: string, est1: Estimates, est2: Estimates)
    returns (second: map<string, Box>, alone: map<string, Box>)
    ensures second == alone <==> EstimateOf(est1, p) == EstimateOf(est2, p)
  {
    hide Sweep, EstimateOf, Backward, RT.RealizationOrder, RT.Sized, RT.DimNames, Reader, ReaderOrder, ReaderBounds,
      ReaderNeeds, Unchanged, DependenceAnalysis.Usable, DependenceAnalysis.QueryOf, DependenceAnalysis.Regions;
    ghost var k := Key("f", 0, {"g"}, false);
    ReaderHas();
    var d := new DependenceAnalysis(Reader(), ReaderOrder(), ReaderNeeds(p), Unchanged());
    ReaderAnswer(d, p, est1, k);
    ReaderAnswer(d, p, est2, k);
    var first := d.RegionsRequired(Stage("f", 0), ReaderBounds(), {"g"}, false, est1);
    second := d.RegionsRequired(Stage("f", 0), ReaderBounds(), {"g"}, false, est2);
    var other := new DependenceAnalysis(Reader(), ReaderOrder(), ReaderNeeds(p), Unchanged());
    ReaderAnswer(other, p, est2, k);
    alone := other.RegionsRequired(Stage("f", 0), ReaderBounds(), {"g"}, false, est2);
    assert map["g" := [EstimateOf(est1, p)]]["g"][0] == EstimateOf(est1, p);
    assert map["g" := [EstimateOf(est2, p)]]["g"][0] == EstimateOf(est2, p);
  }
}
