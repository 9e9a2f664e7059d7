/** The Partitioner as AutoSchedule.cpp runs it: an object whose tables every operation updates. */
module Partitioning {
  import opened Wrappers
  import opened PartitionModel
  import opened PartitionProof
  import opened PartitionTheorem

  /** One group for every stage of every function with bounds. */
  method MakeGroups(p: Pipeline) returns (groups: map<Stage, Group>)
    ensures StartGroups(p, groups)
  {
    groups := map[];
    var todo := p.updates.Keys;
    while todo != {}
      invariant todo <= p.updates.Keys
      invariant forall x :: x in groups <==> StageOf(p, x) && x.func in p.bounded && x.func !in todo
      invariant forall x | x in groups :: groups[x].output == x && groups[x].members == [x] && groups[x].inlined == {}
      decreases |todo|
    {
      var f :| f in todo;
      todo := todo - {f};
      if f in p.bounded {
        for s := 0 to p.updates[f] + 1
          invariant forall x :: x in groups <==>
                    StageOf(p, x) && x.func in p.bounded && x.func !in todo && (x.func == f ==> x.num < s)
          invariant forall x | x in groups ::
                    groups[x].output == x && groups[x].members == [x] && groups[x].inlined == {}
        {
          var stage := Stage(f, s);
          groups := groups[stage := Group(stage, [stage], {}, map[])];
        }
      }
    }
  }

  function AddChild(children: map<Stage, set<Stage>>, x: Stage, y: Stage): map<Stage, set<Stage>> {
    children[x := (if x in children then children[x] else {}) + {y}]
  }

  lemma AddChildEdges(children: map<Stage, set<Stage>>, x: Stage, y: Stage)
    ensures forall a, b :: Edge(AddChild(children, x, y), a, b) <==> Edge(children, a, b) || (a == x && b == y)
    ensures (forall a | a in children :: children[a] != {}) ==>
              forall a | a in AddChild(children, x, y) :: AddChild(children, x, y)[a] != {}
  {
  }

  /** All edges into the stages of `done`. */
  ghost predicate EdgesInto(p: Pipeline, children: map<Stage, set<Stage>>, done: iset<Stage>) {
    && (forall x, y :: Edge(children, x, y) <==> y in done && Calls(p, x, y))
    && (forall x | x in children :: children[x] != {})
  }

  /** The edges into `done`, and those into `y` from functions other than its own and not in `todo`. */
  ghost predicate EdgesSoFar(p: Pipeline, children: map<Stage, set<Stage>>, done: iset<Stage>, y: Stage,
                             todo: set<string>) {
    && (forall x, z :: Edge(children, x, z) <==>
          (z in done && Calls(p, x, z)) || (z == y && x.func != y.func && x.func !in todo && Calls(p, x, y)))
    && (forall x | x in children :: children[x] != {})
  }

  lemma OneParent(p: Pipeline, children: map<Stage, set<Stage>>, done: iset<Stage>, y: Stage, todo: set<string>,
                  c: string)
    requires StageOf(p, y) && EdgesSoFar(p, children, done, y, todo) && c in p.parents(y) && c in todo
    ensures EdgesSoFar(p, if c != y.func && c in p.updates then AddChild(children, Final(p, c), y)
            else children, done, y, todo - {c})
  {
    if c != y.func && c in p.updates {
      AddChildEdges(children, Final(p, c), y);
    }
  }

  lemma OwnParent(p: Pipeline, children: map<Stage, set<Stage>>, done: iset<Stage>, y: Stage)
    requires StageOf(p, y) && EdgesSoFar(p, children, done, y, {})
    ensures EdgesInto(p, if y.num > 0 then AddChild(children, Stage(y.func, y.num - 1), y)
            else children, done + iset{y})
  {
    if y.num > 0 {
      AddChildEdges(children, Stage(y.func, y.num - 1), y);
      assert forall x: Stage | x.func == y.func && y.num == x.num + 1 :: x == Stage(y.func, y.num - 1);
    }
  }

  /** The edges into one stage: from the functions it calls, and from the stage before it. */
  method AddConsumer(p: Pipeline, children: map<Stage, set<Stage>>, y: Stage, ghost done: iset<Stage>)
    returns (r: map<Stage, set<Stage>>)
    requires StageOf(p, y) && y !in done && EdgesInto(p, children, done)
    ensures EdgesInto(p, r, done + iset{y})
  {
    r := children;
    var todo := p.parents(y);
    while todo != {}
      invariant todo <= p.parents(y)
      invariant EdgesSoFar(p, r, done, y, todo)
      decreases |todo|
    {
      var c :| c in todo;
      OneParent(p, r, done, y, todo, c);
      todo := todo - {c};
      if c != y.func && c in p.updates {
        r := AddChild(r, Final(p, c), y);
      }
    }
    OwnParent(p, r, done, y);
    if y.num > 0 {
      r := AddChild(r, Stage(y.func, y.num - 1), y);
    }
  }

  /** The children of every stage. */
  method MakeChildren(p: Pipeline) returns (children: map<Stage, set<Stage>>)
    ensures StartChildren(p, children)
  {
    children := map[];
    ghost var done: iset<Stage> := iset{};
    var todo := p.updates.Keys;
    while todo != {}
      invariant todo <= p.updates.Keys
      invariant done == iset x | StageOf(p, x) && x.func !in todo
      invariant EdgesInto(p, children, done)
      decreases |todo|
    {
      var f :| f in todo;
      todo := todo - {f};
      for s := 0 to p.updates[f] + 1
        invariant done == iset x | StageOf(p, x) && x.func !in todo && (x.func == f ==> x.num < s)
        invariant EdgesInto(p, children, done)
      {
        children := AddConsumer(p, children, Stage(f, s), done);
        done := done + iset{Stage(f, s)};
      }
    }
  }

  method FindBestTileConfig(p: Pipeline, g: Group) returns (best: Config)
    ensures best == BestConfig(p, g)
  {
    best := Config(map[], Analyze(p, g.(tiles := map[])));
    if best.analysis.cost.None? {
      return;
    }
    var tilings := p.tilings(g.output);
    for i := 0 to |tilings|
      invariant BestFrom(p, g, best, i) == BestConfig(p, g)
    {
      var analysis := Analyze(p, g.(tiles := tilings[i]));
      var benefit := EstimateBenefit(p, best.analysis, analysis, false, true);
      if benefit.Some? && benefit.value > 0 {
        best := Config(tilings[i], analysis);
      }
    }
  }

  method TotalCost(stages: set<Stage>, costs: map<Stage, Analysis>) returns (total: Option<Cost>)
    requires stages <= costs.Keys
    ensures total == if CostsDefined(stages, costs) then Some(SumCost(stages, costs)) else None
  {
    var sum, todo := Cost(0, 0), stages;
    ghost var seen: set<Stage> := {};
    while todo != {}
      invariant todo <= stages && seen == stages - todo
      invariant CostsDefined(seen, costs) && sum == SumCost(seen, costs)
      decreases |todo|
    {
      var x :| x in todo;
      todo := todo - {x};
      if costs[x].cost.None? {
        return None;
      }
      ghost var more := seen + {x};
      SumRemove(more, costs, x);
      assert more - {x} == seen;
      sum, seen := costs[x].cost.value.Plus(sum), more;
    }
    assert seen == stages;
    return Some(sum);
  }

  method RedirectValues(children: map<Stage, set<Stage>>, prod: Stage, kids: set<Stage>)
      returns (r: map<Stage, set<Stage>>)
    ensures r == map x | x in children :: RedirectOne(children[x], prod, kids)
  {
    r := children;
    var todo := children.Keys;
    while todo != {}
      invariant todo <= children.Keys == r.Keys
      invariant forall x | x in children ::
                r[x] == if x in todo then children[x] else RedirectOne(children[x], prod, kids)
      decreases |todo|
    {
      var x :| x in todo;
      todo := todo - {x};
      if prod in r[x] {
        r := r[x := r[x] - {prod} + kids];
      }
    }
  }

  /** All groups but those of `todo` have their tiles and costs. */
  ghost predicate Analysed(p: Pipeline, start: map<Stage, Group>, groups: map<Stage, Group>, costs: map<Stage,
                           Analysis>, todo: set<Stage>) {
    && todo <= groups.Keys == start.Keys && costs.Keys == groups.Keys - todo
    && (forall x | x in groups :: groups[x] == start[x].(tiles := groups[x].tiles))
    && (forall x | x in costs :: costs[x] == Analyze(p, groups[x]))
  }

  lemma OneAnalysed(p: Pipeline, start: map<Stage, Group>, groups: map<Stage, Group>, costs: map<Stage, Analysis>,
                    todo: set<Stage>, x: Stage, best: Config)
    requires Analysed(p, start, groups, costs, todo) && x in todo && best == BestConfig(p, groups[x])
    ensures Analysed(p, start, groups[x := groups[x].(tiles := best.tiles)], costs[x := best.analysis], todo - {x})
  {
    BestConfigAnalysis(p, groups[x]);
  }

  lemma AllAnalysed(p: Pipeline, start: map<Stage, Group>, groups: map<Stage, Group>, costs: map<Stage, Analysis>)
    requires StartGroups(p, start) && Analysed(p, start, groups, costs, {})
    ensures StartGroups(p, groups) && costs.Keys == groups.Keys
    ensures forall x | x in groups :: costs[x] == Analyze(p, groups[x])
  {
  }

  class Partitioner {
    const p: Pipeline
    var groups: map<Stage, Group>
    var children: map<Stage, set<Stage>>
    var costs: map<Stage, Analysis>
    var cache: Cache

    ghost function Now(): Tables
      reads this
    {
      Tables(groups, children, costs)
    }

    constructor (p: Pipeline)
      ensures this.p == p && Started(p, Now()) && costs == map[] && cache == map[]
    {
      this.p := p;
      groups, children, costs, cache := map[], map[], map[], map[];
      new;
      groups := MakeGroups(p);
      children := MakeChildren(p);
    }

    method InitializeGroups()
      requires costs == map[]
      modifies `groups, `costs, `cache
      ensures Analysed(p, old(groups), groups, costs, {}) && cache == map[]
    {
      ghost var start := groups;
      var todo := groups.Keys;
      while todo != {}
        invariant Analysed(p, start, groups, costs, todo)
        decreases |todo|
      {
        var x :| x in todo;
        var best := FindBestTileConfig(p, groups[x]);
        OneAnalysed(p, start, groups, costs, todo, x, best);
        todo := todo - {x};
        groups := groups[x := groups[x].(tiles := best.tiles)];
        costs := costs[x := best.analysis];
      }
      cache := map[];
    }

    method GetPipelineCost() returns (total: Option<Cost>)
      requires groups.Keys == costs.Keys && costs != map[]
      ensures total == PipelineCost(Now())
    {
      total := TotalCost(groups.Keys, costs);
    }

    /** The candidates of one iteration. */
    method Candidates(level: Level) returns (cands: seq<string>)
      requires WholeFunctions(p, groups)
      ensures forall f :: f in cands <==> Candidate(p, Now(), f, level)
    {
      cands := [];
      var todo := groups.Keys;
      while todo != {}
        invariant todo <= groups.Keys
        invariant forall f :: f in cands <==> Candidate(p, Now(), f, level) && Final(p, f) !in todo
        decreases |todo|
      {
        var x :| x in todo;
        todo := todo - {x};
        assert StageOf(p, x);
        if x.func in p.outputs || x.num != p.updates[x.func] {
          continue;
        }
        if x in children {
          var childFuncs := Names(children[x]);
          if level.FastMem? && |childFuncs| == 1 {
            cands := cands + [x.func];
          } else if level.Inline? && x.func in p.pure {
            cands := cands + [x.func];
          }
        }
      }
    }

    method EvaluateChoice(choice: Choice, level: Level) returns (config: Config)
      requires Live(p, groups, choice.prod) && choice.cons in groups
      ensures config == Evaluate(p, groups, choice, level)
    {
      var cons := groups[choice.cons];
      var merged, names := cons, {};
      var n := p.updates[choice.prod] + 1;
      for s := 0 to n
        invariant merged == MergeStages(p, groups, choice.prod, s, cons)
        invariant names == MemberNames(p, groups, choice.prod, s)
      {
        var prod := groups[Stage(choice.prod, s)];
        merged := Group(merged.output, prod.members + merged.members, prod.inlined + merged.inlined, map[]);
        names := names + Names(Members(prod));
      }
      match level
      case Inline =>
        var tiles := p.unitTiles(cons.output);
        merged := merged.(inlined := merged.inlined + names + cons.inlined, tiles := tiles);
        config := Config(tiles, Analyze(p, merged));
      case FastMem =>
        config := FindBestTileConfig(p, merged);
    }

    /** estimate_benefit of merging `f` with the given configurations. */
    method EstimateGrouping(f: string, configs: map<Stage, Config>) returns (benefit: Option<int>)
      requires f in p.updates && Replaced(p, f, configs.Keys) <= costs.Keys
      ensures benefit == Benefit(p, Now(), f, configs)
    {
      var after := Analyses(configs);
      var newer := SumAnalyses(after.Keys, after);
      var older := SumAnalyses(Replaced(p, f, configs.Keys), costs);
      assert after.Keys == configs.Keys;
      benefit := EstimateBenefit(p, older, newer, false, true);
    }

    /** Evaluates every candidate with the cache, and returns the most profitable one with its
        configurations. */
    method ChooseCandidateGrouping(cands: seq<string>, level: Level)
        returns (best: Option<string>, configs: map<Stage, Config>)
      requires WholeFunctions(p, groups) && Forward(p, Now()) && costs.Keys == groups.Keys
      requires Fresh(p, Now(), cache, level)
      requires forall f | f in cands :: Candidate(p, Now(), f, level)
      modifies `cache
      ensures Fresh(p, Now(), cache, level)
      ensures best.Some? ==> Profitable(p, Now(), best.value, level) && configs == Configs(p, Now(), best.value, level)
      ensures forall f | f in cands ::
              Score(p, Now(), f, level) <= if best.Some? then Score(p, Now(), best.value, level) else 0
    {
      hide Score, Profitable, Configs, Fresh, Forward, WholeFunctions, Candidate;
      best, configs := None, map[];
      var bestBenefit := 0;
      ghost var t := Now();
      for i := 0 to |cands|
        invariant Fresh(p, t, cache, level)
        invariant best.Some? ==> IsChoice(p, t, best.value, configs, bestBenefit, level)
        invariant bestBenefit >= 0 && (best.None? ==> bestBenefit == 0)
        invariant forall k | 0 <= k < i :: Score(p, t, cands[k], level) <= bestBenefit
      {
        var f := cands[i];
        var grouping, benefit := EvaluateCandidate(f, level);
        if benefit.Some? && bestBenefit < benefit.value {
          best, configs, bestBenefit := Some(f), grouping, benefit.value;
        }
      }
    }

    method EvaluateCandidate(f: string, level: Level) returns (grouping: map<Stage, Config>, benefit: Option<int>)
      requires WholeFunctions(p, groups) && Forward(p, Now()) && costs.Keys == groups.Keys
      requires Candidate(p, Now(), f, level) && Fresh(p, Now(), cache, level)
      modifies `cache
      ensures Fresh(p, Now(), cache, level)
      ensures Worth(p, Now(), f, grouping, benefit, level)
    {
      CandidateIsMergeable(p, Now(), f, level);
      grouping := EvaluateAll(f, level);
      assert Replaced(p, f, grouping.Keys) <= costs.Keys;
      hide Fresh, Forward, WholeFunctions, Benefit, Configs, Candidate, Replaced, Kids, Mergeable, Worth;
      benefit := EstimateGrouping(f, grouping);
      BenefitIsWorth(p, Now(), f, grouping, benefit, level);
    }

    /** The evaluations of one candidate against each of its children, cached or new. */
    method EvaluateAll(f: string, level: Level) returns (grouping: map<Stage, Config>)
      requires Mergeable(p, Now(), f) && Fresh(p, Now(), cache, level)
      modifies `cache
      ensures Fresh(p, Now(), cache, level)
      ensures grouping == Configs(p, Now(), f, level)
    {
      hide Evaluate;
      grouping := map[];
      var kids := if Final(p, f) in children then children[Final(p, f)] else {};
      var todo := kids;
      while todo != {}
        invariant todo <= kids && grouping.Keys == kids - todo
        invariant forall c | c in grouping :: grouping[c] == Evaluate(p, groups, Choice(f, c), level)
        invariant Fresh(p, Now(), cache, level)
        decreases |todo|
      {
        var c :| c in todo;
        todo := todo - {c};
        var choice := Choice(f, c);
        var config;
        if choice in cache {
          config := cache[choice];
        } else {
          config := EvaluateChoice(choice, level);
          FreshMore(p, Now(), cache, level, choice);
          cache := cache[choice := config];
        }
        grouping := grouping[c := config];
      }
    }

    /** Drops the cache entries that name one of the merged children. */
    method InvalidateCache(kids: set<Stage>)
      modifies `cache
      ensures cache == Invalidate(old(cache), kids)
    {
      var invalid: set<Choice> := {};
      var todo := kids;
      while todo != {}
        invariant todo <= kids && cache == old(cache)
        invariant invalid == set c | c in cache && Stale(c, kids - todo)
        decreases |todo|
      {
        var k :| k in todo;
        StaleMore(kids - todo, k);
        assert kids - (todo - {k}) == kids - todo + {k};
        todo := todo - {k};
        invalid := invalid + set c | c in cache && (c.prod == k.func || c.cons == k);
      }
      assert kids - todo == kids;
      assert cache - invalid == Invalidate(cache, kids);
      cache := cache - invalid;
    }

    /** merge_groups: all stages of `f` go into the group of one child. */
    method MergeGroups(f: string, c: Stage, config: Config, level: Level)
      requires Live(p, groups, f) && c in groups && c.func != f
      modifies `groups, `costs
      ensures groups == old(groups)[c :=
              Absorb(p, old(groups), f, p.updates[f] + 1, old(groups)[c], level).(tiles := config.tiles)]
      ensures costs == old(costs)[c := config.analysis]
    {
      var child := groups[c];
      for s := 0 to p.updates[f] + 1
        invariant child == Absorb(p, groups, f, s, groups[c], level)
      {
        var cand := groups[Stage(f, s)];
        child := Group(child.output, child.members + cand.members,
                       child.inlined + (if level.Inline? then Names(Members(cand)) else cand.inlined), child.tiles);
      }
      groups := groups[c := child.(tiles := config.tiles)];
      costs := costs[c := config.analysis];
    }

    /** Merges `f` into all its children. */
    method MergeIntoAll(f: string, configs: map<Stage, Config>, level: Level)
      requires Live(p, groups, f) && configs.Keys <= groups.Keys && f !in Names(configs.Keys)
               && costs.Keys == groups.Keys
      modifies `groups, `costs
      ensures GroupsMerged(p, old(groups), groups, f, configs, configs.Keys, level)
      ensures CostsMerged(old(costs), costs, configs, configs.Keys)
    {
      hide Absorb, GroupsMerged, CostsMerged, Names, Live;
      ghost var done: set<Stage>, start, startCosts := {}, groups, costs;
      NothingMerged(p, groups, costs, f, configs, level);
      var todo := configs.Keys;
      while todo != {}
        invariant done == configs.Keys - todo && todo <= configs.Keys && groups.Keys == start.Keys && Live(p, groups, f)
        invariant GroupsMerged(p, start, groups, f, configs, done, level)
                  && CostsMerged(startCosts, costs, configs, done)
        decreases |todo|
      {
        var c :| c in todo;
        NotInNames(f, configs.Keys, c);
        ghost var groups', costs' := groups, costs;
        MergeGroups(f, c, configs[c], level);
        OneGroupMerged(p, start, groups', groups, f, configs, done, level, c);
        OneCostMerged(startCosts, costs', configs, done, c);
        todo, done := todo - {c}, done + {c};
      }
      assert done == configs.Keys;
    }

    /** Points the parents of one erased stage to the children of its function. */
    method RedirectStage(prod: Stage, kids: set<Stage>)
      modifies `children
      ensures children == map x | x in old(children) && x != prod :: RedirectOne(old(children)[x], prod, kids)
    {
      children := children - {prod};
      children := RedirectValues(children, prod, kids);
    }

    /** Takes the stages of the merged function out of all tables. */
    method EraseProducer(f: string, kids: set<Stage>)
      requires f in p.updates && f !in Names(kids)
      modifies `groups, `costs, `children
      ensures groups == Without(p, old(groups), f, p.updates[f] + 1)
              && costs == Without(p, old(costs), f, p.updates[f] + 1)
      ensures children == RedirectUpTo(p, old(children), f, p.updates[f] + 1, kids)
    {
      hide Without, RedirectUpTo, RedirectOne;
      WithoutNone(p, groups, f);
      WithoutNone(p, costs, f);
      RedirectNone(p, children, f, kids);
      for s := 0 to p.updates[f] + 1
        invariant groups == Without(p, old(groups), f, s) && costs == Without(p, old(costs), f, s)
        invariant children == RedirectUpTo(p, old(children), f, s, kids)
      {
        var prod := Stage(f, s);
        WithoutOne(p, old(groups), f, s);
        WithoutOne(p, old(costs), f, s);
        groups := groups - {prod};
        costs := costs - {prod};
        OneRedirected(p, old(children), f, s, kids);
        RedirectStage(prod, kids);
      }
    }

    /** One merge: drops stale evaluations, merges `f` into its children, and erases it. */
    method MergeBest(f: string, configs: map<Stage, Config>, level: Level)
      requires Sound(p, Now()) && Fresh(p, Now(), cache, level) && Profitable(p, Now(), f, level)
      requires configs == Configs(p, Now(), f, level)
      modifies this
      ensures Mergeable(p, old(Now()), f) && Now() == After(p, old(Now()), f, level)
      ensures Sound(p, Now()) && Fresh(p, Now(), cache, level) && |groups| < |old(groups)|
    {
      ghost var start := Now();
      hide Sound, Fresh, Forward, WholeFunctions, Configs, After, Merged, Mergeable, Gain, Without, RedirectUpTo,
        GroupsMerged, CostsMerged, Invalidate, Kids, Live, Candidate, CostFalls;
      SoundParts(p, start);
      ProfitableIsReady(p, start, f, configs, level);
      IterationGains(p, start, f, level);
      StepKeepsFresh(p, start, cache, f, level);
      var kids := children[Final(p, f)];
      InvalidateCache(kids);
      MergeIntoAll(f, configs, level);
      ghost var merged := Now();
      EraseProducer(f, kids);
      MergedThenErased(p, start, merged, Now(), f, configs, level);
    }

    /** Merges groups until no merge is profitable. */
    method GroupStages(level: Level) returns (ghost run: Run)
      requires Sound(p, Now()) && Fresh(p, Now(), cache, level)
      modifies this
      ensures First(run) == old(Now()) && run.now == Now() && IsRun(p, run, level)
      ensures Sound(p, Now()) && Settled(p, Now(), level)
    {
      hide Sound, Fresh, Score, Profitable, Candidate, Forward, WholeFunctions, IsRun, First, BestStep, After, Settled;
      run := Start(Now());
      EmptyRun(p, Now(), level);
      var fixpoint := false;
      while !fixpoint
        invariant First(run) == old(Now()) && run.now == Now() && IsRun(p, run, level)
        invariant Sound(p, Now()) && Fresh(p, Now(), cache, level)
        invariant fixpoint ==> Settled(p, Now(), level)
        decreases |groups| + if fixpoint then 0 else 1
      {
        SoundParts(p, Now());
        var preMerge := GetPipelineCost();
        fixpoint := true;
        var cands := Candidates(level);
        var best, configs := ChooseCandidateGrouping(cands, level);
        ghost var before := Now();
        if best.None? {
          NothingGained(p, before, cands, level);
          continue;
        }
        fixpoint := false;
        MergeBest(best.value, configs, level);
        BestIsStep(p, before, cands, best.value, level);
        RunMore(p, run, best.value, Now(), level);
        run := Then(run, best.value, Now());
        SoundParts(p, Now());
        var postMerge := GetPipelineCost();
      }
    }
  }

  lemma {:induction false} LeastRemove(s: set<Stage>, costs: map<Stage, Analysis>, x: Stage)
    requires AllDefined(s, costs) && x in s
    ensures LeastParallelism(s, costs) == Least(LeastParallelism(s - {x}, costs), costs[x].parallelism.value)
    decreases |s|
  {
    var y :| y in s && LeastParallelism(s, costs)
        == Least(LeastParallelism(s - {y}, costs), costs[y].parallelism.value);
    if y != x {
      var rest := s - {y} - {x};
      assert rest == s - {x} - {y};
      LeastRemove(s - {y}, costs, x);
      LeastRemove(s - {x}, costs, y);
      var r, px, py := LeastParallelism(rest, costs), costs[x].parallelism.value, costs[y].parallelism.value;
      assert LeastParallelism(s - {y}, costs) == Least(r, px);
      assert LeastParallelism(s - {x}, costs) == Least(r, py);
      assert Least(Least(r, px), py) == Least(Least(r, py), px);
    }
  }

  method SumAnalyses(stages: set<Stage>, costs: map<Stage, Analysis>) returns (sum: Analysis)
    requires stages <= costs.Keys
    ensures sum == Together(stages, costs)
  {
    sum := Analysis(Some(Cost(0, 0)), Some(MAX_INT64));
    var todo := stages;
    ghost var seen: set<Stage> := {};
    while todo != {}
      invariant todo <= stages && seen == stages - todo
      invariant AllDefined(seen, costs) && sum == Together(seen, costs)
      decreases |todo|
    {
      var x :| x in todo;
      todo := todo - {x};
      var a := costs[x];
      if !a.Defined() {
        return Analysis(None, None);
      }
      sum := Analysis(Some(a.cost.value.Plus(sum.cost.value)), Some(Least(sum.parallelism.value, a.parallelism.value)));
      ghost var more := seen + {x};
      SumRemove(more, costs, x);
      LeastRemove(more, costs, x);
      assert more - {x} == seen;
      seen := more;
    }
    assert seen == stages;
  }

  /** `f` is profitable with these configurations, and that is what it is worth. */
  ghost predicate IsChoice(p: Pipeline, t: Tables, f: string, configs: map<Stage, Config>, benefit: int, level: Level) {
    Profitable(p, t, f, level) && configs == Configs(p, t, f, level) && benefit == Score(p, t, f, level)
  }

  /** What the evaluation of a candidate says about it. */
  ghost predicate Worth(p: Pipeline, t: Tables, f: string, configs: map<Stage, Config>, benefit: Option<int>,
                        level: Level) {
    if benefit.Some? && benefit.value > 0 then IsChoice(p, t, f, configs, benefit.value, level)
    else Score(p, t, f, level) == 0
  }

  lemma BenefitIsWorth(p: Pipeline, t: Tables, f: string, configs: map<Stage, Config>, benefit: Option<int>,
                       level: Level)
    requires Candidate(p, t, f, level) && Mergeable(p, t, f)
    requires configs == Configs(p, t, f, level) && benefit == Benefit(p, t, f, configs)
    ensures Worth(p, t, f, configs, benefit, level)
  {
    hide Benefit, Configs, Candidate, Mergeable;
  }

  lemma CandidateIsMergeable(p: Pipeline, t: Tables, f: string, level: Level)
    requires WholeFunctions(p, t.groups) && Forward(p, t) && Candidate(p, t, f, level)
    ensures Mergeable(p, t, f)
  {
    assert StageOf(p, Final(p, f));
    LiveIsMergeable(p, t, f);
  }

  lemma StaleMore(kids: set<Stage>, k: Stage)
    ensures forall c :: Stale(c, kids + {k}) <==> Stale(c, kids) || c.prod == k.func || c.cons == k
  {
    assert Names(kids + {k}) == Names(kids) + {k.func};
  }

  lemma {:induction false} AbsorbLocal(p: Pipeline, a: map<Stage, Group>, b: map<Stage, Group>, f: string, n: nat,
                                       child: Group, level: Level)
    requires Live(p, a, f) && Live(p, b, f) && n <= p.updates[f] + 1
    requires forall s | 0 <= s <= p.updates[f] :: a[Stage(f, s)] == b[Stage(f, s)]
    ensures Absorb(p, a, f, n, child, level) == Absorb(p, b, f, n, child, level)
    decreases n
  {
    if n > 0 {
      AbsorbLocal(p, a, b, f, n - 1, child, level);
    }
  }

  /** `f` has been merged into the groups of `done`, and the other groups are as at the start. */
  ghost predicate GroupsMerged(p: Pipeline, start: map<Stage, Group>, groups: map<Stage, Group>, f: string,
                               configs: map<Stage, Config>, done: set<Stage>, level: Level)
    requires Live(p, start, f) && done <= configs.Keys
  {
    && groups.Keys == start.Keys
    && forall x | x in groups ::
         groups[x] == if x in done then
             Absorb(p, start, f, p.updates[f] + 1, start[x], level).(tiles := configs[x].tiles)
                      else start[x]
  }

  ghost predicate CostsMerged(start: map<Stage, Analysis>, costs: map<Stage, Analysis>, configs: map<Stage, Config>,
                              done: set<Stage>)
    requires done <= configs.Keys
  {
    && costs.Keys == start.Keys
    && forall x | x in costs :: costs[x] == if x in done then configs[x].analysis else start[x]
  }

  lemma NothingMerged(p: Pipeline, start: map<Stage, Group>, costs: map<Stage, Analysis>, f: string,
                      configs: map<Stage, Config>, level: Level)
    requires Live(p, start, f)
    ensures GroupsMerged(p, start, start, f, configs, {}, level) && CostsMerged(costs, costs, configs, {})
  {
  }

  lemma NotInNames(f: string, stages: set<Stage>, c: Stage)
    requires f !in Names(stages) && c in stages
    ensures c.func != f
  {
  }

  lemma OneGroupMerged(p: Pipeline, start: map<Stage, Group>, groups: map<Stage, Group>, groups': map<Stage, Group>,
                       f: string,
                       configs: map<Stage, Config>, done: set<Stage>, level: Level, c: Stage)
    requires Live(p, start, f) && done <= configs.Keys && configs.Keys <= start.Keys
    requires f !in Names(configs.Keys) && c in configs && c !in done
    requires GroupsMerged(p, start, groups, f, configs, done, level) && Live(p, groups, f)
    requires groups' == groups[c :=
             Absorb(p, groups, f, p.updates[f] + 1, groups[c], level).(tiles := configs[c].tiles)]
    ensures GroupsMerged(p, start, groups', f, configs, done + {c}, level) && groups'.Keys == start.Keys
            && Live(p, groups', f)
  {
    hide Absorb;
    forall s | 0 <= s <= p.updates[f] ensures groups[Stage(f, s)] == start[Stage(f, s)] {
      assert Stage(f, s) in done ==> f in Names(configs.Keys);
    }
    AbsorbLocal(p, groups, start, f, p.updates[f] + 1, groups[c], level);
    hide Live, Names;
  }

  lemma OneCostMerged(start: map<Stage, Analysis>, costs: map<Stage, Analysis>, configs: map<Stage, Config>,
                      done: set<Stage>, c: Stage)
    requires done <= configs.Keys && c in configs && c in start && CostsMerged(start, costs, configs, done)
    ensures CostsMerged(start, costs[c := configs[c].analysis], configs, done + {c})
  {
  }

  function RedirectOne(cons: set<Stage>, prod: Stage, kids: set<Stage>): set<Stage> {
    if prod in cons then cons - {prod} + kids else cons
  }

  /** A table without the first `n` stages of `f`. */
  function Without<T>(p: Pipeline, m: map<Stage, T>, f: string, n: nat): map<Stage, T> {
    map x | x in m && !(x.func == f && x.num < n) :: m[x]
  }

  lemma WithoutOne<T>(p: Pipeline, m: map<Stage, T>, f: string, n: nat)
    ensures Without(p, m, f, n + 1) == Without(p, m, f, n) - {Stage(f, n)}
  {
  }

  /** The children once the first `n` stages of `f` are erased. */
  function RedirectSome(cons: set<Stage>, f: string, n: nat, kids: set<Stage>): set<Stage>
    decreases n
  {
    if n == 0 then cons else RedirectOne(RedirectSome(cons, f, n - 1, kids), Stage(f, n - 1), kids)
  }

  function RedirectUpTo(p: Pipeline, children: map<Stage, set<Stage>>, f: string, n: nat, kids: set<Stage>): map<Stage,
                        set<Stage>> {
    map x | x in children && !(x.func == f && x.num < n) :: RedirectSome(children[x], f, n, kids)
  }

  lemma OneRedirected(p: Pipeline, children: map<Stage, set<Stage>>, f: string, s: nat, kids: set<Stage>)
    ensures var part := RedirectUpTo(p, children, f, s, kids);
            RedirectUpTo(p, children, f, s + 1, kids)
            == map x | x in part && x != Stage(f, s) :: RedirectOne(part[x], Stage(f, s), kids)
  {
  }

  /** Stage by stage or all at once: the consumers end up the same. */
  lemma {:induction false} RedirectSomeIs(cons: set<Stage>, f: string, n: nat, kids: set<Stage>)
    requires f !in Names(kids)
    ensures RedirectSome(cons, f, n, kids)
            == (set x | x in cons && !(x.func == f && x.num < n)) + if exists s ::
                0 <= s < n && Stage(f, s) in cons then kids else {}
    decreases n
  {
    if n > 0 {
      RedirectSomeIs(cons, f, n - 1, kids);
      assert Stage(f, n - 1) !in kids;
    }
  }

  lemma SoundParts(p: Pipeline, t: Tables)
    requires Sound(p, t)
    ensures WholeFunctions(p, t.groups) && Forward(p, t) && t.costs.Keys == t.groups.Keys && t.costs != map[]
  {
    var f :| f in p.outputs;
    assert Live(p, t.groups, f);
    assert Stage(f, 0) in t.costs;
  }

  /** No merge is worth anything any more. */
  ghost predicate Settled(p: Pipeline, t: Tables, level: Level) {
    forall f :: Score(p, t, f, level) == 0
  }

  lemma ScoreOfOther(p: Pipeline, t: Tables, f: string, level: Level)
    ensures Score(p, t, f, level) >= 0
    ensures !Candidate(p, t, f, level) ==> Score(p, t, f, level) == 0
  {
  }

  lemma NothingGained(p: Pipeline, t: Tables, cands: seq<string>, level: Level)
    requires forall f :: f in cands <==> Candidate(p, t, f, level)
    requires forall f | f in cands :: Score(p, t, f, level) <= 0
    ensures Settled(p, t, level)
  {
    hide Score, Candidate;
    forall f ensures Score(p, t, f, level) == 0 {
      ScoreOfOther(p, t, f, level);
    }
  }

  lemma BestIsStep(p: Pipeline, t: Tables, cands: seq<string>, f: string, level: Level)
    requires Profitable(p, t, f, level)
    requires forall g :: g in cands <==> Candidate(p, t, g, level)
    requires forall g | g in cands :: Score(p, t, g, level) <= Score(p, t, f, level)
    ensures BestStep(p, t, After(p, t, f, level), f, level)
  {
    hide Score, Candidate;
    forall g ensures Score(p, t, g, level) <= Score(p, t, f, level) {
      ScoreOfOther(p, t, g, level);
      ScoreOfOther(p, t, f, level);
    }
  }

  lemma EmptyRun(p: Pipeline, t: Tables, level: Level)
    ensures IsRun(p, Start(t), level) && First(Start(t)) == t
  {
  }

  lemma RunMore(p: Pipeline, run: Run, f: string, t: Tables, level: Level)
    requires IsRun(p, run, level) && BestStep(p, run.now, t, f, level)
    ensures IsRun(p, Then(run, f, t), level) && First(Then(run, f, t)) == First(run)
  {
    hide BestStep;
  }

  lemma WithoutNone<T>(p: Pipeline, m: map<Stage, T>, f: string)
    ensures Without(p, m, f, 0) == m
  {
  }

  lemma RedirectNone(p: Pipeline, children: map<Stage, set<Stage>>, f: string, kids: set<Stage>)
    ensures RedirectUpTo(p, children, f, 0, kids) == children
  {
  }

  lemma RedirectedStages(p: Pipeline, cons: set<Stage>, f: string, kids: set<Stage>)
    requires f in p.updates && f !in Names(kids) && forall x | x in cons :: StageOf(p, x)
    ensures RedirectSome(cons, f, p.updates[f] + 1, kids) == Redirect(cons, f, kids)
  {
    var n := p.updates[f] + 1;
    RedirectSomeIs(cons, f, n, kids);
    if f in Names(cons) {
      var x :| x in cons && x.func == f;
      assert StageOf(p, x) && x == Stage(f, x.num);
    }
    assert (set x | x in cons && !(x.func == f && x.num < n)) == set x | x in cons && x.func != f;
  }

  /** What a method that merges needs to know beforehand. */
  ghost predicate Ready(p: Pipeline, t: Tables, f: string, configs: map<Stage, Config>) {
    && f in p.updates && Live(p, t.groups, f) && Final(p, f) in t.children
        && configs.Keys == t.children[Final(p, f)] == Kids(p, t, f)
    && configs.Keys <= t.groups.Keys && f !in Names(configs.Keys) && t.costs.Keys == t.groups.Keys
    && WholeFunctions(p, t.groups) && Forward(p, t)
  }

  lemma ProfitableIsReady(p: Pipeline, t: Tables, f: string, configs: map<Stage, Config>, level: Level)
    requires WholeFunctions(p, t.groups) && Forward(p, t) && t.costs.Keys == t.groups.Keys
    requires Candidate(p, t, f, level) && Mergeable(p, t, f) && configs == Configs(p, t, f, level)
    ensures Ready(p, t, f, configs) && After(p, t, f, level) == Merged(p, t, f, configs, level)
  {
    assert configs.Keys == Kids(p, t, f);
    hide Forward, WholeFunctions, Configs, Merged;
  }

  /** Merging into the children and then erasing the stages one by one gives the tables of the step. */
  lemma MergedThenErased(p: Pipeline, start: Tables, merged: Tables, t: Tables, f: string, configs: map<Stage, Config>,
                         level: Level)
    requires Ready(p, start, f, configs)
    requires GroupsMerged(p, start.groups, merged.groups, f, configs, configs.Keys, level)
    requires CostsMerged(start.costs, merged.costs, configs, configs.Keys) && merged.children == start.children
    requires t.groups == Without(p, merged.groups, f, p.updates[f] + 1)
             && t.costs == Without(p, merged.costs, f, p.updates[f] + 1)
    requires t.children == RedirectUpTo(p, merged.children, f, p.updates[f] + 1, configs.Keys)
    ensures t == Merged(p, start, f, configs, level)
  {
    RedirectedTable(p, start, f);
    hide RedirectUpTo, Redirect;
    GoneTogether(p, start, f);
    WithoutAll(p, merged.groups, f);
    WithoutAll(p, merged.costs, f);
    hide Without, WholeFunctions, Names, Candidate, Absorb, Forward;
    GroupsErased(p, start, merged.groups, f, configs, level);
    CostsErased(p, start, merged.costs, f, configs, level);
    hide *;
  }

  lemma GroupsErased(p: Pipeline, start: Tables, groups: map<Stage, Group>, f: string, configs: map<Stage, Config>,
                     level: Level)
    requires Live(p, start.groups, f) && configs.Keys == Kids(p, start, f)
    requires GroupsMerged(p, start.groups, groups, f, configs, configs.Keys, level)
    ensures Merged(p, start, f, configs, level).groups == map x | x in groups && x.func != f :: groups[x]
  {
    hide Absorb, Live, Redirect;
  }

  lemma CostsErased(p: Pipeline, start: Tables, costs: map<Stage, Analysis>, f: string, configs: map<Stage, Config>,
                    level: Level)
    requires Live(p, start.groups, f) && configs.Keys == Kids(p, start, f)
    requires CostsMerged(start.costs, costs, configs, configs.Keys)
    ensures Merged(p, start, f, configs, level).costs == map x | x in costs && x.func != f :: costs[x]
  {
    hide Absorb, Live, Redirect;
  }

  lemma GoneTogether(p: Pipeline, t: Tables, f: string)
    requires WholeFunctions(p, t.groups)
    ensures forall x | x in t.groups && x.func == f :: f in p.updates && x.num <= p.updates[f]
  {
    forall x | x in t.groups && x.func == f ensures f in p.updates && x.num <= p.updates[f] {
      assert StageOf(p, x);
    }
  }

  lemma WithoutAll<T>(p: Pipeline, m: map<Stage, T>, f: string)
    requires f in p.updates && forall x | x in m && x.func == f :: x.num <= p.updates[f]
    ensures Without(p, m, f, p.updates[f] + 1) == map x | x in m && x.func != f :: m[x]
  {
  }

  lemma RedirectedTable(p: Pipeline, t: Tables, f: string)
    requires Live(p, t.groups, f) && f !in Names(Kids(p, t, f)) && WholeFunctions(p, t.groups) && Forward(p, t)
    ensures RedirectUpTo(p, t.children, f, p.updates[f] + 1, Kids(p, t, f))
            == map x | x in t.children && x.func != f :: Redirect(t.children[x], f, Kids(p, t, f))
  {
    forall x | x in t.children
      ensures StageOf(p, x) && RedirectSome(t.children[x], f, p.updates[f] + 1, Kids(p, t, f))
              == Redirect(t.children[x], f, Kids(p, t, f))
    {
      assert StageOf(p, x);
      forall y | y in t.children[x] ensures StageOf(p, y) {
        assert Before(p, x, y);
      }
      RedirectedStages(p, t.children[x], f, Kids(p, t, f));
    }
  }

  /** The grouping part of the auto-scheduler: both levels, with an empty cache for each. The runs list
      every merge with the tables it left. */
  method PartitionPipeline(p: Pipeline) returns (part: Partitioner, ghost inlining: Run, ghost tiling: Run)
    requires WellFormed(p)
    ensures part.p == p && Started(p, First(inlining))
    ensures IsRun(p, inlining, Inline) && Settled(p, inlining.now, Inline)
    ensures First(tiling) == inlining.now && IsRun(p, tiling, FastMem) && tiling.now == part.Now()
    ensures Sound(p, First(inlining)) && Sound(p, inlining.now) && Sound(p, part.Now())
            && Settled(p, part.Now(), FastMem)
  {
    hide Sound, Fresh, Settled, IsRun, Analysed, StartGroups, StartChildren, WellFormed, Costed;
    part := new Partitioner(p);
    ghost var start := part.Now();
    part.InitializeGroups();
    InitializedIsSound(p, start, part.Now());
    NothingCached(p, part.Now(), Inline);
    inlining := part.GroupStages(Inline);
    part.cache := map[];
    NothingCached(p, part.Now(), FastMem);
    tiling := part.GroupStages(FastMem);
  }

  lemma InitializedIsSound(p: Pipeline, start: Tables, t: Tables)
    requires WellFormed(p) && Started(p, start) && Analysed(p, start.groups, t.groups, t.costs, {})
             && t.children == start.children
    ensures Started(p, t) && Sound(p, t)
  {
    AllAnalysed(p, start.groups, t.groups, t.costs);
    StartIsSound(p, t);
  }

  lemma FreshMore(p: Pipeline, t: Tables, cache: Cache, level: Level, c: Choice)
    requires Fresh(p, t, cache, level) && Live(p, t.groups, c.prod) && c.cons in t.groups
    ensures Fresh(p, t, cache[c := Evaluate(p, t.groups, c, level)], level)
  {
    hide Evaluate;
  }

  lemma NothingCached(p: Pipeline, t: Tables, level: Level)
    ensures Fresh(p, t, map[], level)
  {
  }
}
