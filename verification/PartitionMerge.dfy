/** What a merge asks for and what it leaves behind: which merges have a benefit at all, how much parallelism every
    merged group keeps over a run, and the members, inlined functions and tiles of the groups after a step. */
module PartitionMerge {
  import opened Wrappers
  import opened PartitionModel
  import opened PartitionProof
  import opened PartitionTheorem

  // ----- parallelism -----

  lemma {:induction false} LeastExactly(s: set<Stage>, costs: map<Stage, Analysis>, bound: int)
    requires AllDefined(s, costs)
    ensures LeastParallelism(s, costs) >= bound
            <==> bound <= MAX_INT64 && forall x | x in s :: costs[x].parallelism.value >= bound
    decreases s
  {
    if s != {} {
      var x :| x in s && LeastParallelism(s, costs)
                         == Least(LeastParallelism(s - {x}, costs), costs[x].parallelism.value);
      var rest := s - {x};
      LeastExactly(rest, costs, bound);
      assert LeastParallelism(s, costs) == Least(LeastParallelism(rest, costs), costs[x].parallelism.value);
      if LeastParallelism(s, costs) >= bound {
        assert forall y | y in rest :: costs[y].parallelism.value >= bound;
        forall y | y in s ensures costs[y].parallelism.value >= bound {
          assert y == x || y in rest;
        }
      }
    }
  }

  /** The groups that a merge replaces all have an analysis. */
  predicate OldDefined(p: Pipeline, t: Tables, f: string, kids: set<Stage>)
    requires f in p.updates
  {
    kids != {} ==> forall x | x in StagesOf(p, f) + kids :: x in t.costs && t.costs[x].Defined()
  }

  /** A merge has a benefit exactly when everything it replaces has been analysed, and every merged group has, with as
      much parallelism as the architecture asks for. */
  lemma BenefitExactly(p: Pipeline, t: Tables, f: string, configs: map<Stage, Config>)
    requires f in p.updates
    ensures Benefit(p, t, f, configs).Some?
            <==> && p.parallelism <= MAX_INT64
                 && OldDefined(p, t, f, configs.Keys)
                 && forall c | c in configs ::
                      configs[c].analysis.Defined() && configs[c].analysis.parallelism.value >= p.parallelism
  {
    var after := Analyses(configs);
    if AllDefined(configs.Keys, after) {
      LeastExactly(configs.Keys, after, p.parallelism);
      forall c | c in configs ensures after[c] == configs[c].analysis {
      }
    } else {
      var c :| c in configs && !(c in after && after[c].Defined());
      assert !configs[c].analysis.Defined();
    }
  }

  /** Every group that a profitable merge makes has been analysed and has enough parallelism. */
  lemma ProfitableIsParallel(p: Pipeline, t: Tables, f: string, level: Level, c: Stage)
    requires Profitable(p, t, f, level) && c in Kids(p, t, f)
    ensures Eligible(p, Configs(p, t, f, level)[c].analysis)
  {
    BenefitExactly(p, t, f, Configs(p, t, f, level));
  }

  /** Groups that are not as they were have enough parallelism. */
  ghost predicate ParallelSince(p: Pipeline, start: Tables, t: Tables) {
    forall x | x in t.groups ::
      || (x in start.groups && t.groups[x] == start.groups[x])
      || Eligible(p, Analyze(p, t.groups[x]))
  }

  /** Over a whole run, every group that a merge made has been analysed, with enough parallelism. */
  lemma {:induction false} RunIsParallel(p: Pipeline, r: Run, level: Level)
    requires IsRun(p, r, level) && Sound(p, First(r))
    ensures ParallelSince(p, First(r), r.now)
    decreases r
  {
    if r.Then? {
      var t, f := r.before.now, r.merged;
      RunIsParallel(p, r.before, level);
      RunGains(p, r.before, level);
      StepIsParallel(p, First(r), t, f, level);
    }
  }

  lemma StepIsParallel(p: Pipeline, start: Tables, t: Tables, f: string, level: Level)
    requires OwnGroups(p, t.groups) && Profitable(p, t, f, level) && ParallelSince(p, start, t)
    ensures ParallelSince(p, start, After(p, t, f, level))
  {
    var t' := After(p, t, f, level);
    hide OwnGroups, Candidate, Gain, Eligible;
    forall x | x in t'.groups
      ensures (x in start.groups && t'.groups[x] == start.groups[x]) || Eligible(p, Analyze(p, t'.groups[x]))
    {
      if x in Kids(p, t, f) {
        MergedIsParallel(p, t, f, level, x);
      }
    }
  }

  lemma MergedIsParallel(p: Pipeline, t: Tables, f: string, level: Level, x: Stage)
    requires OwnGroups(p, t.groups) && Profitable(p, t, f, level) && x in Kids(p, t, f)
    ensures x in After(p, t, f, level).groups && Eligible(p, Analyze(p, After(p, t, f, level).groups[x]))
  {
    var config := Evaluate(p, t.groups, Choice(f, x), level);
    assert Configs(p, t, f, level)[x] == config;
    assert After(p, t, f, level).groups[x]
           == Absorb(p, t.groups, f, p.updates[f] + 1, t.groups[x], level).(tiles := config.tiles);
    ProfitableIsParallel(p, t, f, level, x);
    hide *;
    MergedIsEvaluated(p, t.groups, f, x, level);
  }

  // ----- tiles -----

  /** The tiles of a group are what the search should find: one of the tilings with enough parallelism that costs less
      than no tiling, or none at all; and nothing that could be chosen costs less. */
  ghost predicate TiledBest(p: Pipeline, g: Group) {
    var tilings, untiled, mine := p.tilings(g.output), Analyze(p, g.(tiles := map[])), Analyze(p, g);
    && (untiled.cost.None? ==> g.tiles == map[])
    && (untiled.cost.Some? ==>
          && mine.cost.Some? && mine.cost.value.Total() <= untiled.cost.value.Total()
          && (g.tiles == map[] || (mine.cost.value.Total() < untiled.cost.value.Total() && Eligible(p, mine)
                                   && g.tiles in tilings))
          && forall k | 0 <= k < |tilings| && Eligible(p, Analyze(p, g.(tiles := tilings[k]))) ::
               mine.cost.value.Total() <= Analyze(p, g.(tiles := tilings[k])).cost.value.Total())
  }

  lemma {:induction false} BestFromIsEligible(p: Pipeline, g: Group, best: Config, i: nat)
    requires i <= |p.tilings(g.output)| && best.analysis.cost.Some?
    ensures var c := BestFrom(p, g, best, i);
            c == best
            || (&& c.analysis.cost.Some? && Eligible(p, c.analysis) && c.tiles in p.tilings(g.output)
                && c.analysis.cost.value.Total() < best.analysis.cost.value.Total())
    decreases |p.tilings(g.output)| - i
  {
    var tilings := p.tilings(g.output);
    if i < |tilings| {
      var analysis := Analyze(p, g.(tiles := tilings[i]));
      var benefit := EstimateBenefit(p, best.analysis, analysis, false, true);
      BestFromIsEligible(p, g, if benefit.Some? && benefit.value > 0 then Config(tilings[i], analysis) else best,
                         i + 1);
    }
  }

  /** find_best_tile_config finds what it should. */
  lemma BestConfigIsTiledBest(p: Pipeline, g: Group)
    ensures TiledBest(p, g.(tiles := BestConfig(p, g).tiles))
    ensures BestConfig(p, g).analysis == Analyze(p, g.(tiles := BestConfig(p, g).tiles))
  {
    var none := Config(map[], Analyze(p, g.(tiles := map[])));
    BestConfigAnalysis(p, g);
    if none.analysis.cost.Some? {
      BestConfigIsBest(p, g);
      BestFromIsEligible(p, g, none, 0);
    }
    forall tiles: Tiles ensures g.(tiles := BestConfig(p, g).tiles).(tiles := tiles) == g.(tiles := tiles) {
    }
  }

  /** What is best for a group is best for one with the same members, in whatever order. */
  lemma TiledBestAlike(p: Pipeline, g: Group, h: Group)
    requires TiledBest(p, g) && h.output == g.output && h.inlined == g.inlined && h.tiles == g.tiles
    requires Members(g) == Members(h)
    ensures TiledBest(p, h)
  {
    forall tiles: Tiles ensures Analyze(p, g.(tiles := tiles)) == Analyze(p, h.(tiles := tiles)) {
      SameAnalysis(p, g, h, tiles);
    }
    assert g.(tiles := g.tiles) == g && h.(tiles := h.tiles) == h;
  }

  // ----- the groups after a merge -----

  /** The members of all groups of a function. */
  ghost function AllMembers(p: Pipeline, groups: map<Stage, Group>, f: string): set<Stage>
    requires Live(p, groups, f)
  {
    set x, m | x in StagesOf(p, f) && m in Members(groups[x]) :: m
  }

  ghost function AllInlined(p: Pipeline, groups: map<Stage, Group>, f: string): set<string>
    requires Live(p, groups, f)
  {
    set x, g | x in StagesOf(p, f) && g in groups[x].inlined :: g
  }

  lemma {:induction false} StagesCollect(p: Pipeline, groups: map<Stage, Group>, f: string, n: nat)
    requires Live(p, groups, f) && n <= p.updates[f] + 1
    ensures forall m :: m in StageMembers(p, groups, f, n)
                        <==> exists s: nat :: s < n && m in Members(groups[Stage(f, s)])
    ensures forall g :: g in StageInlined(p, groups, f, n)
                        <==> exists s: nat :: s < n && g in groups[Stage(f, s)].inlined
    ensures MemberNames(p, groups, f, n) == Names(StageMembers(p, groups, f, n))
    decreases n
  {
    if n > 0 {
      StagesCollect(p, groups, f, n - 1);
    }
  }

  lemma AllCollect(p: Pipeline, groups: map<Stage, Group>, f: string)
    requires Live(p, groups, f)
    ensures var n := p.updates[f] + 1;
            && StageMembers(p, groups, f, n) == AllMembers(p, groups, f)
            && StageInlined(p, groups, f, n) == AllInlined(p, groups, f)
            && MemberNames(p, groups, f, n) == Names(AllMembers(p, groups, f))
  {
    var n := p.updates[f] + 1;
    StagesCollect(p, groups, f, n);
    forall m | m in StageMembers(p, groups, f, n) ensures m in AllMembers(p, groups, f) {
      var s: nat :| s < n && m in Members(groups[Stage(f, s)]);
      assert Stage(f, s) in StagesOf(p, f);
    }
    forall g | g in StageInlined(p, groups, f, n) ensures g in AllInlined(p, groups, f) {
      var s: nat :| s < n && g in groups[Stage(f, s)].inlined;
      assert Stage(f, s) in StagesOf(p, f);
    }
    forall m | m in AllMembers(p, groups, f) ensures m in StageMembers(p, groups, f, n) {
      var x :| x in StagesOf(p, f) && m in Members(groups[x]);
      assert x == Stage(f, x.num) && x.num < n;
    }
    forall g | g in AllInlined(p, groups, f) ensures g in StageInlined(p, groups, f, n) {
      var x :| x in StagesOf(p, f) && g in groups[x].inlined;
      assert x == Stage(f, x.num) && x.num < n;
    }
  }

  /** The group `g` of a child that was `was`, once the groups of `f` are merged into it. */
  ghost predicate TookIn(p: Pipeline, groups: map<Stage, Group>, f: string, was: Group, g: Group, level: Level)
    requires Live(p, groups, f)
  {
    && g.output == was.output && Members(g) == Members(was) + AllMembers(p, groups, f)
    && match level
       case Inline => g.inlined == was.inlined + Names(AllMembers(p, groups, f)) && g.tiles == p.unitTiles(was.output)
       case FastMem => g.inlined == was.inlined + AllInlined(p, groups, f) && TiledBest(p, g)
  }

  /** A merge takes the stages of the function out of the tables, gives every child all their members, inlined or
      tiled anew, and leaves all other groups alone. */
  lemma StepMovesMembers(p: Pipeline, t: Tables, f: string, level: Level)
    requires Mergeable(p, t, f) && OwnGroups(p, t.groups)
    ensures var t' := After(p, t, f, level);
            && (forall x :: x in t'.groups <==> x in t.groups && x.func != f)
            && forall x | x in t'.groups ::
                 if x in Kids(p, t, f) then TookIn(p, t.groups, f, t.groups[x], t'.groups[x], level)
                 else t'.groups[x] == t.groups[x]
  {
    var t' := After(p, t, f, level);
    forall x | x in t'.groups && x in Kids(p, t, f)
      ensures TookIn(p, t.groups, f, t.groups[x], t'.groups[x], level)
    {
      ChildTookIn(p, t, f, x, level);
    }
  }

  lemma ChildTookIn(p: Pipeline, t: Tables, f: string, x: Stage, level: Level)
    requires Mergeable(p, t, f) && OwnGroups(p, t.groups) && x in Kids(p, t, f)
    ensures x in After(p, t, f, level).groups
    ensures TookIn(p, t.groups, f, t.groups[x], After(p, t, f, level).groups[x], level)
  {
    var absorbed := Absorb(p, t.groups, f, p.updates[f] + 1, t.groups[x], level);
    var tiles := Evaluate(p, t.groups, Choice(f, x), level).tiles;
    assert After(p, t, f, level).groups[x] == absorbed.(tiles := tiles);
    hide After, Configs, Merged, Kids, Absorb, Evaluate, OwnGroups, TookIn;
    EvaluatedTiles(p, t.groups, f, x, level);
    AbsorbedTookIn(p, t.groups, f, t.groups[x], level, absorbed, absorbed.(tiles := tiles));
  }

  lemma EvaluatedTiles(p: Pipeline, groups: map<Stage, Group>, f: string, x: Stage, level: Level)
    requires Live(p, groups, f) && OwnGroups(p, groups) && x in groups
    ensures var tiles := Evaluate(p, groups, Choice(f, x), level).tiles;
            if level.Inline? then tiles == p.unitTiles(groups[x].output)
            else TiledBest(p, Absorb(p, groups, f, p.updates[f] + 1, groups[x], level).(tiles := tiles))
  {
    if level.FastMem? {
      AbsorbedIsTiledBest(p, groups, f, groups[x]);
    }
    hide Absorb, MergeStages, TiledBest, MemberNames, OwnGroups, BestConfig;
  }

  lemma AbsorbedTookIn(p: Pipeline, groups: map<Stage, Group>, f: string, was: Group, level: Level, absorbed: Group,
                       g: Group)
    requires Live(p, groups, f) && absorbed == Absorb(p, groups, f, p.updates[f] + 1, was, level)
    requires g == absorbed.(tiles := g.tiles)
    requires if level.Inline? then g.tiles == p.unitTiles(was.output) else TiledBest(p, g)
    ensures TookIn(p, groups, f, was, g, level)
  {
    AbsorbIs(p, groups, f, p.updates[f] + 1, was, level);
    AllCollect(p, groups, f);
    assert Members(g) == Members(absorbed);
    hide Absorb, StageMembers, StageInlined, MemberNames, AllMembers, AllInlined, TiledBest, Members, Names;
  }

  lemma AbsorbedIsTiledBest(p: Pipeline, groups: map<Stage, Group>, f: string, was: Group)
    requires Live(p, groups, f) && OwnGroups(p, groups)
    ensures var n := p.updates[f] + 1;
            var tiles := BestConfig(p, MergeStages(p, groups, f, n, was)).tiles;
            TiledBest(p, Absorb(p, groups, f, n, was, FastMem).(tiles := tiles))
  {
    var n := p.updates[f] + 1;
    var merged, absorbed := MergeStages(p, groups, f, n, was), Absorb(p, groups, f, n, was, FastMem);
    var tiles := BestConfig(p, merged).tiles;
    SameGroup(p, groups, f, was, FastMem);
    BestConfigIsTiledBest(p, merged);
    hide Absorb, MergeStages, BestConfig, OwnGroups, Live, TiledBest;
    assert Members(merged.(tiles := tiles)) == Members(merged);
    assert Members(absorbed.(tiles := tiles)) == Members(absorbed);
    TiledBestAlike(p, merged.(tiles := tiles), absorbed.(tiles := tiles));
  }

  // ----- what gets inlined -----

  ghost predicate InlinedPure(p: Pipeline, groups: map<Stage, Group>) {
    forall x, f | x in groups && f in groups[x].inlined :: f in p.pure
  }

  /** While nothing but inlining has happened, a group holds inlined functions beside its own. */
  ghost predicate InlinedOnly(groups: map<Stage, Group>) {
    forall x, m | x in groups && m in Members(groups[x]) :: m.func == x.func || m.func in groups[x].inlined
  }

  lemma StepInlinesPure(p: Pipeline, t: Tables, f: string, level: Level)
    requires Mergeable(p, t, f) && OwnGroups(p, t.groups) && Candidate(p, t, f, level)
    requires InlinedPure(p, t.groups) && (level.Inline? ==> InlinedOnly(t.groups))
    ensures InlinedPure(p, After(p, t, f, level).groups)
    ensures level.Inline? ==> InlinedOnly(After(p, t, f, level).groups)
  {
    var t' := After(p, t, f, level);
    StepMovesMembers(p, t, f, level);
    forall x, g | x in t'.groups && g in t'.groups[x].inlined ensures g in p.pure {
      if x in Kids(p, t, f) && g !in t.groups[x].inlined {
        assert TookIn(p, t.groups, f, t.groups[x], t'.groups[x], level);
        if level.Inline? {
          var m :| m in AllMembers(p, t.groups, f) && m.func == g;
          var y :| y in StagesOf(p, f) && m in Members(t.groups[y]);
          assert m.func == f || m.func in t.groups[y].inlined;
        }
      }
    }
    if level.Inline? {
      forall x, m | x in t'.groups && m in Members(t'.groups[x])
        ensures m.func == x.func || m.func in t'.groups[x].inlined
      {
        if x in Kids(p, t, f) {
          assert TookIn(p, t.groups, f, t.groups[x], t'.groups[x], level);
        }
      }
    }
  }

  /** Over both phases only pure functions get inlined. */
  lemma {:induction false} RunInlinesPure(p: Pipeline, r: Run, level: Level)
    requires IsRun(p, r, level) && Sound(p, First(r))
    requires InlinedPure(p, First(r).groups) && (level.Inline? ==> InlinedOnly(First(r).groups))
    ensures InlinedPure(p, r.now.groups) && (level.Inline? ==> InlinedOnly(r.now.groups))
    decreases r
  {
    if r.Then? {
      RunInlinesPure(p, r.before, level);
      RunGains(p, r.before, level);
      StepInlinesPure(p, r.before.now, r.merged, level);
    }
  }

  lemma StartInlinesNothing(p: Pipeline, groups: map<Stage, Group>)
    requires StartGroups(p, groups)
    ensures InlinedPure(p, groups) && InlinedOnly(groups)
  {
  }

  // ----- what can be merged -----

  /** On sound tables, a function is a candidate exactly if it is live, no output, and has an entry of children; for
      inlining it is pure, and for tiling all its children are stages of one function. */
  lemma CandidateExactly(p: Pipeline, t: Tables, f: string, level: Level)
    requires Sound(p, t)
    ensures Candidate(p, t, f, level)
            <==> && Live(p, t.groups, f) && f !in p.outputs && Final(p, f) in t.children
                 && match level
                    case Inline => f in p.pure
                    case FastMem => exists h {:trigger OneTarget(p, t, f, h)} :: OneTarget(p, t, f, h)
  {
    if f in p.updates && Final(p, f) in t.groups {
      assert StageOf(p, Final(p, f));
    }
    hide Grouped, Costed, Chained, Forward, OutputsLive, WellFormed;
    if Live(p, t.groups, f) {
      OneTargetExactly(p, t, f);
    }
  }

  lemma OneTargetExactly(p: Pipeline, t: Tables, f: string)
    requires f in p.updates
    ensures |Names(Kids(p, t, f))| == 1 <==> exists h {:trigger OneTarget(p, t, f, h)} :: OneTarget(p, t, f, h)
  {
    var names := Names(Kids(p, t, f));
    if |names| == 1 {
      var h :| h in names;
      assert |names - {h}| == 0;
      forall c | c in Kids(p, t, f) ensures c.func == h {
        assert c.func in names && c.func !in names - {h};
      }
      assert OneTarget(p, t, f, h);
    }
    if exists h {:trigger OneTarget(p, t, f, h)} :: OneTarget(p, t, f, h) {
      var h :| OneTarget(p, t, f, h);
      assert names == {h};
    }
  }

  ghost predicate OneTarget(p: Pipeline, t: Tables, f: string, h: string)
    requires f in p.updates
  {
    Kids(p, t, f) != {} && forall c | c in Kids(p, t, f) :: c.func == h
  }
}
