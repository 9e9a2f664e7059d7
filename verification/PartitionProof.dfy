/** What a merge step keeps, and what it gains. */
module PartitionProof {
  import opened Wrappers
  import opened PartitionModel

  // ----- the evaluated group is the merged group -----

  ghost function StageMembers(p: Pipeline, groups: map<Stage, Group>, f: string, n: nat): set<Stage>
    requires Live(p, groups, f) && n <= p.updates[f] + 1
  {
    if n == 0 then {} else StageMembers(p, groups, f, n - 1) + Members(groups[Stage(f, n - 1)])
  }

  ghost function StageInlined(p: Pipeline, groups: map<Stage, Group>, f: string, n: nat): set<string>
    requires Live(p, groups, f) && n <= p.updates[f] + 1
  {
    if n == 0 then {} else StageInlined(p, groups, f, n - 1) + groups[Stage(f, n - 1)].inlined
  }

  lemma MembersPlus(g: Group, h: Group, both: Group)
    requires both.members == g.members + h.members
    ensures Members(both) == Members(g) + Members(h)
  {
    forall m | m in Members(g) + Members(h) ensures m in both.members {
    }
  }

  lemma {:induction false} MergeStagesAre(p: Pipeline, groups: map<Stage, Group>, f: string, n: nat, cons: Group)
    requires Live(p, groups, f) && n <= p.updates[f] + 1
    ensures var g := MergeStages(p, groups, f, n, cons);
            && g.output == cons.output
            && Members(g) == StageMembers(p, groups, f, n) + Members(cons)
            && g.inlined == StageInlined(p, groups, f, n) + cons.inlined
    decreases n
  {
    if n > 0 {
      MergeStagesAre(p, groups, f, n - 1, cons);
      MembersPlus(groups[Stage(f, n - 1)], MergeStages(p, groups, f, n - 1, cons), MergeStages(p, groups, f, n, cons));
    }
  }

  lemma {:induction false} AbsorbIs(p: Pipeline, groups: map<Stage, Group>, f: string, n: nat, child: Group,
                                    level: Level)
    requires Live(p, groups, f) && n <= p.updates[f] + 1
    ensures var g := Absorb(p, groups, f, n, child, level);
            && g.output == child.output
            && Members(g) == Members(child) + StageMembers(p, groups, f, n)
            && g.inlined == child.inlined + if level.Inline? then MemberNames(p, groups, f, n)
                else StageInlined(p, groups, f, n)
    decreases n
  {
    if n > 0 {
      AbsorbIs(p, groups, f, n - 1, child, level);
      MembersPlus(Absorb(p, groups, f, n - 1, child, level), groups[Stage(f, n - 1)],
          Absorb(p, groups, f, n, child, level));
    }
  }

  lemma {:induction false} InlinedAreNames(p: Pipeline, groups: map<Stage, Group>, f: string, n: nat)
    requires Live(p, groups, f) && n <= p.updates[f] + 1 && OwnGroups(p, groups)
    ensures StageInlined(p, groups, f, n) <= MemberNames(p, groups, f, n)
    decreases n
  {
    if n > 0 {
      InlinedAreNames(p, groups, f, n - 1);
    }
  }

  lemma {:induction false} BestFromAnalysis(p: Pipeline, g: Group, best: Config, i: nat)
    requires i <= |p.tilings(g.output)| && best.analysis == Analyze(p, g.(tiles := best.tiles))
    ensures var c := BestFrom(p, g, best, i); c.analysis == Analyze(p, g.(tiles := c.tiles))
    decreases |p.tilings(g.output)| - i
  {
    var tilings := p.tilings(g.output);
    if i < |tilings| {
      var analysis := Analyze(p, g.(tiles := tilings[i]));
      var benefit := EstimateBenefit(p, best.analysis, analysis, false, true);
      BestFromAnalysis(p, g, if benefit.Some? && benefit.value > 0 then Config(tilings[i], analysis) else best, i + 1);
    }
  }

  /** The analysis that comes with a tiling is the analysis of the group under that tiling. */
  lemma BestConfigAnalysis(p: Pipeline, g: Group)
    ensures var c := BestConfig(p, g); c.analysis == Analyze(p, g.(tiles := c.tiles))
  {
    var none := Config(map[], Analyze(p, g.(tiles := map[])));
    if none.analysis.cost.Some? {
      BestFromAnalysis(p, g, none, 0);
    }
  }

  /** A tiling that could be chosen: analysed, and with enough parallelism. */
  predicate Eligible(p: Pipeline, a: Analysis) {
    a.Defined() && a.parallelism.value >= p.parallelism
  }

  lemma {:induction false} BestFromIsBest(p: Pipeline, g: Group, best: Config, i: nat)
    requires i <= |p.tilings(g.output)| && best.analysis.cost.Some?
    ensures var c, tilings := BestFrom(p, g, best, i), p.tilings(g.output);
            && c.analysis.cost.Some? && c.analysis.cost.value.Total() <= best.analysis.cost.value.Total()
            && forall k | i <= k < |tilings| && Eligible(p, Analyze(p, g.(tiles := tilings[k]))) ::
                 c.analysis.cost.value.Total() <= Analyze(p, g.(tiles := tilings[k])).cost.value.Total()
    decreases |p.tilings(g.output)| - i
  {
    var tilings := p.tilings(g.output);
    if i < |tilings| {
      var analysis := Analyze(p, g.(tiles := tilings[i]));
      var benefit := EstimateBenefit(p, best.analysis, analysis, false, true);
      BestFromIsBest(p, g, if benefit.Some? && benefit.value > 0 then Config(tilings[i], analysis) else best, i + 1);
    }
  }

  /** No eligible tiling costs less than the chosen one, and neither does leaving the group untiled. */
  lemma BestConfigIsBest(p: Pipeline, g: Group)
    requires Analyze(p, g.(tiles := map[])).cost.Some?
    ensures var c, tilings := BestConfig(p, g), p.tilings(g.output);
            && c.analysis.cost.Some?
            && c.analysis.cost.value.Total() <= Analyze(p, g.(tiles := map[])).cost.value.Total()
            && forall k | 0 <= k < |tilings| && Eligible(p, Analyze(p, g.(tiles := tilings[k]))) ::
                 c.analysis.cost.value.Total() <= Analyze(p, g.(tiles := tilings[k])).cost.value.Total()
  {
    BestFromIsBest(p, g, Config(map[], Analyze(p, g.(tiles := map[]))), 0);
  }

  /** Evaluating a choice analyses exactly the group that the merge then leaves in the table, though the
      two put the members together in different ways. */
  lemma MergedIsEvaluated(p: Pipeline, groups: map<Stage, Group>, f: string, c: Stage, level: Level)
    requires Live(p, groups, f) && c in groups && OwnGroups(p, groups)
    ensures var config := Evaluate(p, groups, Choice(f, c), level);
            Analyze(p, Absorb(p, groups, f, p.updates[f] + 1, groups[c], level).(tiles := config.tiles))
                == config.analysis
  {
    var n, cons := p.updates[f] + 1, groups[c];
    var merged := MergeStages(p, groups, f, n, cons);
    var absorbed := Absorb(p, groups, f, n, cons, level);
    SameGroup(p, groups, f, cons, level);
    hide Absorb, MergeStages, MemberNames, Members, Names, BestConfig, OwnGroups, Live;
    if level.Inline? {
      SameAnalysis(p, absorbed, merged.(inlined := absorbed.inlined), p.unitTiles(cons.output));
    } else {
      BestConfigAnalysis(p, merged);
      SameAnalysis(p, absorbed, merged, BestConfig(p, merged).tiles);
    }
  }

  lemma SameGroup(p: Pipeline, groups: map<Stage, Group>, f: string, cons: Group, level: Level)
    requires Live(p, groups, f) && OwnGroups(p, groups)
    ensures var n := p.updates[f] + 1;
            var merged, absorbed := MergeStages(p, groups, f, n, cons), Absorb(p, groups, f, n, cons, level);
            && absorbed.output == merged.output && Members(absorbed) == Members(merged)
            && absorbed.inlined == if level.Inline? then merged.inlined + MemberNames(p, groups, f, n) + cons.inlined
                else merged.inlined
  {
    var n := p.updates[f] + 1;
    InlinedAreNames(p, groups, f, n);
    MergeStagesAre(p, groups, f, n, cons);
    AbsorbIs(p, groups, f, n, cons, level);
    hide *;
  }

  lemma SameAnalysis(p: Pipeline, g: Group, h: Group, tiles: Tiles)
    requires g.output == h.output && Members(g) == Members(h) && g.inlined == h.inlined
    ensures Analyze(p, g.(tiles := tiles)) == Analyze(p, h.(tiles := tiles))
  {
    var g', h' := g.(tiles := tiles), h.(tiles := tiles);
    assert Members(g') == Members(g) && Members(h') == Members(h);
  }

  /** Evaluation looks at the groups of the producer's stages and of the consumer only. */
  lemma {:induction false} MergeStagesLocal(p: Pipeline, a: map<Stage, Group>, b: map<Stage, Group>, f: string, n: nat,
                                            cons: Group)
    requires Live(p, a, f) && Live(p, b, f) && n <= p.updates[f] + 1
    requires forall s | 0 <= s <= p.updates[f] :: a[Stage(f, s)] == b[Stage(f, s)]
    ensures MergeStages(p, a, f, n, cons) == MergeStages(p, b, f, n, cons)
    ensures MemberNames(p, a, f, n) == MemberNames(p, b, f, n)
    decreases n
  {
    if n > 0 {
      MergeStagesLocal(p, a, b, f, n - 1, cons);
    }
  }

  // ----- the step -----

  /** A function that can be merged into its children. */
  ghost predicate Mergeable(p: Pipeline, t: Tables, f: string) {
    Live(p, t.groups, f) && Kids(p, t, f) <= t.groups.Keys && f !in Names(Kids(p, t, f))
  }

  ghost function After(p: Pipeline, t: Tables, f: string, level: Level): Tables
    requires Mergeable(p, t, f)
  {
    Merged(p, t, f, Configs(p, t, f, level), level)
  }

  /** The children of a live function are stages of later functions. */
  lemma LiveIsMergeable(p: Pipeline, t: Tables, f: string)
    requires WholeFunctions(p, t.groups) && Forward(p, t) && Live(p, t.groups, f)
    ensures Mergeable(p, t, f) && forall c | c in Kids(p, t, f) :: p.rank(f) < p.rank(c.func)
  {
    forall c | c in Kids(p, t, f) ensures c.func != f && c in t.groups && p.rank(f) < p.rank(c.func) {
      assert Before(p, Final(p, f), c) && StageOf(p, c);
    }
  }

  lemma AfterLive(p: Pipeline, t: Tables, f: string, level: Level, g: string)
    requires Mergeable(p, t, f)
    ensures Live(p, After(p, t, f, level).groups, g) <==> g != f && Live(p, t.groups, g)
  {
    var t' := After(p, t, f, level);
    if Live(p, t'.groups, g) {
      assert Stage(g, 0) in t'.groups;
    }
  }

  /** Costs stay the analyses of the groups. */
  lemma StepKeepsCosts(p: Pipeline, t: Tables, f: string, level: Level)
    requires Mergeable(p, t, f) && OwnGroups(p, t.groups) && Costed(p, t)
    ensures Costed(p, After(p, t, f, level))
  {
    var t' := After(p, t, f, level);
    forall x | x in t'.groups ensures t'.costs[x] == Analyze(p, t'.groups[x]) {
      if x in Kids(p, t, f) {
        MergedIsEvaluated(p, t.groups, f, x, level);
      }
    }
  }

  lemma StepKeepsOutputs(p: Pipeline, t: Tables, f: string, level: Level)
    requires Mergeable(p, t, f) && f !in p.outputs && OutputsLive(p, t)
    ensures OutputsLive(p, After(p, t, f, level))
  {
    forall g | g in p.outputs ensures Live(p, After(p, t, f, level).groups, g) {
      AfterLive(p, t, f, level, g);
    }
  }

  /** Links stay within the groups and keep going forward, so the graph stays acyclic. */
  lemma StepKeepsLinks(p: Pipeline, t: Tables, f: string, level: Level)
    requires Live(p, t.groups, f) && Linked(p, t)
    ensures Mergeable(p, t, f) && Linked(p, After(p, t, f, level))
  {
    LiveIsMergeable(p, t, f);
    StepKeepsWhole(p, t, f, level);
    StepKeepsForward(p, t, f, level);
    StepKeepsChained(p, t, f, level);
  }

  lemma StepKeepsWhole(p: Pipeline, t: Tables, f: string, level: Level)
    requires Mergeable(p, t, f) && WholeFunctions(p, t.groups)
    ensures WholeFunctions(p, After(p, t, f, level).groups)
  {
    var t' := After(p, t, f, level);
    forall x | x in t'.groups ensures StageOf(p, x) && Live(p, t'.groups, x.func) {
      AfterLive(p, t, f, level, x.func);
    }
  }

  lemma StepKeepsForward(p: Pipeline, t: Tables, f: string, level: Level)
    requires Mergeable(p, t, f) && WholeFunctions(p, t.groups) && Forward(p, t)
    ensures Forward(p, After(p, t, f, level))
  {
    var t' := After(p, t, f, level);
    forall x, y | x in t'.children && y in t'.children[x] ensures y in t'.groups && Before(p, x, y) {
      RedirectForward(p, t, f, x, y);
    }
  }

  lemma RedirectForward(p: Pipeline, t: Tables, f: string, x: Stage, y: Stage)
    requires Live(p, t.groups, f) && WholeFunctions(p, t.groups) && Forward(p, t) && x in t.children && x.func != f
    requires y in Redirect(t.children[x], f, Kids(p, t, f))
    ensures Before(p, x, y) && y in t.groups && y.func != f
  {
    LiveIsMergeable(p, t, f);
    assert StageOf(p, x);
    if y in t.children[x] {
      assert Before(p, x, y);
    } else {
      var z :| z in t.children[x] && z.func == f;
      assert Before(p, x, z) && Before(p, Final(p, f), y);
    }
  }

  lemma StepKeepsChained(p: Pipeline, t: Tables, f: string, level: Level)
    requires Mergeable(p, t, f) && Chained(p, t)
    ensures Chained(p, After(p, t, f, level))
  {
    var t' := After(p, t, f, level);
    forall x | x in t'.groups ensures HasNext(p, t', x) {
      assert HasNext(p, t, x);
    }
  }

  // ----- the groups -----

  lemma {:induction false} StageMembersFrom(p: Pipeline, groups: map<Stage, Group>, f: string, n: nat, m: Stage)
    requires Live(p, groups, f) && n <= p.updates[f] + 1
    ensures m in StageMembers(p, groups, f, n) <==> exists s :: 0 <= s < n && m in Members(groups[Stage(f, s)])
    decreases n
  {
    if n > 0 {
      StageMembersFrom(p, groups, f, n - 1, m);
    }
  }

  lemma {:induction false} StageInlinedFrom(p: Pipeline, groups: map<Stage, Group>, f: string, n: nat, g: string)
    requires Live(p, groups, f) && n <= p.updates[f] + 1
    ensures g in StageInlined(p, groups, f, n) <==> exists s :: 0 <= s < n && g in groups[Stage(f, s)].inlined
    decreases n
  {
    if n > 0 {
      StageInlinedFrom(p, groups, f, n - 1, g);
    }
  }

  lemma {:induction false} MemberNamesFrom(p: Pipeline, groups: map<Stage, Group>, f: string, n: nat, g: string)
    requires Live(p, groups, f) && n <= p.updates[f] + 1
    ensures g in MemberNames(p, groups, f, n) <==> exists s :: 0 <= s < n && Holds(groups[Stage(f, s)], g)
    decreases n
  {
    if n > 0 {
      MemberNamesFrom(p, groups, f, n - 1, g);
    }
  }

  /** Some group of a stage of `f`. */
  ghost predicate InSome(p: Pipeline, groups: map<Stage, Group>, f: string, m: Stage)
    requires Live(p, groups, f)
  {
    exists s: nat :: s <= p.updates[f] && m in Members(groups[Stage(f, s)])
  }

  ghost predicate HoldsSome(p: Pipeline, groups: map<Stage, Group>, f: string, g: string)
    requires Live(p, groups, f)
  {
    exists s: nat :: s <= p.updates[f] && Holds(groups[Stage(f, s)], g)
  }

  ghost predicate InlinesSome(p: Pipeline, groups: map<Stage, Group>, f: string, g: string)
    requires Live(p, groups, f)
  {
    exists s: nat :: s <= p.updates[f] && g in groups[Stage(f, s)].inlined
  }

  /** `g'` is `g` together with all groups of `f`. */
  ghost predicate Joined(p: Pipeline, groups: map<Stage, Group>, f: string, g: Group, g': Group, level: Level)
    requires Live(p, groups, f)
  {
    && g'.output == g.output
    && (forall m :: m in Members(g') <==> m in Members(g) || InSome(p, groups, f, m))
    && (forall h :: Holds(g', h) <==> Holds(g, h) || HoldsSome(p, groups, f, h))
    && (forall h :: h in g'.inlined <==>
          (h in g.inlined || (if level.Inline? then HoldsSome(p, groups, f, h) else InlinesSome(p, groups, f, h))))
  }

  lemma AbsorbJoins(p: Pipeline, groups: map<Stage, Group>, f: string, g: Group, g': Group, tiles: Tiles, level: Level)
    requires Live(p, groups, f)
    requires g' == Absorb(p, groups, f, p.updates[f] + 1, g, level).(tiles := tiles)
    ensures Joined(p, groups, f, g, g', level)
  {
    var n := p.updates[f] + 1;
    var absorbed := Absorb(p, groups, f, n, g, level);
    AbsorbIs(p, groups, f, n, g, level);
    assert Members(g') == Members(absorbed);
    forall m ensures m in StageMembers(p, groups, f, n) <==> InSome(p, groups, f, m) {
      StageMembersFrom(p, groups, f, n, m);
    }
    forall h ensures h in MemberNames(p, groups, f, n) <==> HoldsSome(p, groups, f, h) {
      MemberNamesFrom(p, groups, f, n, h);
    }
    forall h ensures h in StageInlined(p, groups, f, n) <==> InlinesSome(p, groups, f, h) {
      StageInlinedFrom(p, groups, f, n, h);
    }
    forall h ensures Holds(g', h) <==> Holds(g, h) || HoldsSome(p, groups, f, h) {
      HoldsTogether(p, groups, f, g, g', h);
    }
  }

  /** What the groups are after the step: those of the merged function are gone, its children have joined
      them, and nothing else has changed. */
  lemma AfterGroups(p: Pipeline, t: Tables, f: string, level: Level)
    requires Mergeable(p, t, f)
    ensures GroupsAfter(p, t.groups, After(p, t, f, level).groups, f, Kids(p, t, f), level)
  {
    var groups := After(p, t, f, level).groups;
    forall x | x in Kids(p, t, f) ensures Joined(p, t.groups, f, t.groups[x], groups[x], level) {
      var config := Evaluate(p, t.groups, Choice(f, x), level);
      AbsorbJoins(p, t.groups, f, t.groups[x], groups[x], config.tiles, level);
    }
  }

  ghost predicate GroupsAfter(p: Pipeline, groups: map<Stage, Group>, groups': map<Stage, Group>, f: string,
                              kids: set<Stage>, level: Level)
    requires Live(p, groups, f)
  {
    && kids <= groups'.Keys
    && (forall x :: x in groups' <==> x in groups && x.func != f)
    && (forall x | x in groups' && x !in kids :: groups'[x] == groups[x])
    && (forall x | x in kids :: Joined(p, groups, f, groups[x], groups'[x], level))
  }

  lemma HoldsTogether(p: Pipeline, groups: map<Stage, Group>, f: string, g: Group, g': Group, h: string)
    requires Live(p, groups, f)
    requires forall m :: m in Members(g') <==> m in Members(g) || InSome(p, groups, f, m)
    ensures Holds(g', h) <==> Holds(g, h) || HoldsSome(p, groups, f, h)
  {
    if Holds(g, h) {
      var m :| m in Members(g) && m.func == h;
      assert m in Members(g');
    }
    if HoldsSome(p, groups, f, h) {
      var s: nat :| s <= p.updates[f] && Holds(groups[Stage(f, s)], h);
      var m :| m in Members(groups[Stage(f, s)]) && m.func == h;
      assert InSome(p, groups, f, m);
    }
    if Holds(g', h) {
      var m :| m in Members(g') && m.func == h;
      if m !in Members(g) {
        var s: nat :| s <= p.updates[f] && m in Members(groups[Stage(f, s)]);
        assert Holds(groups[Stage(f, s)], h);
      }
    }
  }

  lemma StepKeepsOwn(p: Pipeline, groups: map<Stage, Group>, groups': map<Stage, Group>, f: string, kids: set<Stage>,
                     level: Level)
    requires Live(p, groups, f) && WholeFunctions(p, groups) && OwnGroups(p, groups)
    requires GroupsAfter(p, groups, groups', f, kids, level)
    ensures OwnGroups(p, groups')
  {
    forall x | x in groups'
      ensures groups'[x].output == x && x in Members(groups'[x]) && groups'[x].inlined <= Names(Members(groups'[x]))
    {
      if x in kids {
        forall h | h in groups'[x].inlined ensures Holds(groups'[x], h) {
        }
      }
    }
    forall x, m | x in groups' && m in Members(groups'[x]) ensures StageOf(p, m) && (m in groups' ==> m == x) {
      if m !in Members(groups[x]) {
        var s: nat :| s <= p.updates[f] && m in Members(groups[Stage(f, s)]);
        assert m in groups ==> m == Stage(f, s);
      }
    }
  }

  /** A live function is not held outside its own groups, nor inlined. */
  lemma HeldIsDead(p: Pipeline, groups: map<Stage, Group>, x: Stage, h: string)
    requires OwnGroups(p, groups) && WholeFunctions(p, groups) && x in groups && Holds(groups[x], h)
    ensures h == x.func || !Live(p, groups, h)
  {
    var m :| m in Members(groups[x]) && m.func == h;
    if Live(p, groups, h) {
      assert StageOf(p, m) && m in groups;
    }
  }

  /** Where a group of after has a function from: itself, or a group of `f` that it took in. */
  lemma HolderBefore(p: Pipeline, groups: map<Stage, Group>, groups': map<Stage, Group>, f: string, kids: set<Stage>,
                     level: Level,
                     x: Stage, h: string) returns (a: Stage)
    requires Live(p, groups, f) && GroupsAfter(p, groups, groups', f, kids, level)
    requires x in groups' && Holds(groups'[x], h)
    ensures a in groups && Holds(groups[a], h)
    ensures a == x || (x in kids && a.func == f && HoldsSome(p, groups, f, h))
    ensures a != x && h in groups[a].inlined ==> InlinesSome(p, groups, f, h)
  {
    if Holds(groups[x], h) {
      a := x;
    } else {
      assert HoldsSome(p, groups, f, h);
      var s: nat :| s <= p.updates[f] && Holds(groups[Stage(f, s)], h);
      a := Stage(f, s);
    }
  }

  /** Why a group of after inlines a function: it or a group of `f` did, or a group of `f` holds it. */
  lemma InlinerBefore(p: Pipeline, groups: map<Stage, Group>, groups': map<Stage, Group>, f: string, kids: set<Stage>,
                      level: Level,
                      x: Stage, h: string) returns (a: Stage)
    requires Live(p, groups, f) && GroupsAfter(p, groups, groups', f, kids, level)
    requires x in groups' && h in groups'[x].inlined
    ensures a in groups && (h in groups[a].inlined || (level.Inline? && a.func == f && Holds(groups[a], h)))
  {
    if h in groups[x].inlined {
      a := x;
    } else if level.Inline? {
      assert HoldsSome(p, groups, f, h);
      var s: nat :| s <= p.updates[f] && Holds(groups[Stage(f, s)], h);
      a := Stage(f, s);
    } else {
      assert InlinesSome(p, groups, f, h);
      var s: nat :| s <= p.updates[f] && h in groups[Stage(f, s)].inlined;
      a := Stage(f, s);
    }
  }

  lemma StepKeepsDead(p: Pipeline, groups: map<Stage, Group>, groups': map<Stage, Group>, f: string, kids: set<Stage>,
                      level: Level,
                      x: Stage, h: string)
    requires Live(p, groups, f) && WholeFunctions(p, groups) && OwnGroups(p, groups) && InlinedAlike(p, groups)
    requires GroupsAfter(p, groups, groups', f, kids, level)
    requires x in groups' && h in groups'[x].inlined
    ensures !Live(p, groups', h)
  {
    var a := InlinerBefore(p, groups, groups', f, kids, level, x, h);
    if h !in groups[a].inlined {
      HeldIsDead(p, groups, a, h);
    }
    assert h == f || !Live(p, groups, h);
    DeadAfter(p, groups, groups', f, h);
  }

  lemma DeadAfter(p: Pipeline, groups: map<Stage, Group>, groups': map<Stage, Group>, f: string, h: string)
    requires forall x :: x in groups' <==> x in groups && x.func != f
    requires h == f || !Live(p, groups, h)
    ensures !Live(p, groups', h)
  {
    var first := Stage(h, 0);
    assert first in groups' ==> h != f;
  }

  lemma StepKeepsAlike(p: Pipeline, groups: map<Stage, Group>, groups': map<Stage, Group>, f: string, kids: set<Stage>,
                       level: Level,
                       x: Stage, y: Stage, h: string)
    requires Live(p, groups, f) && InlinedAlike(p, groups) && OneHome(groups)
    requires GroupsAfter(p, groups, groups', f, kids, level)
    requires x in groups' && y in groups' && h in groups'[x].inlined && Holds(groups'[y], h)
    ensures h in groups'[y].inlined
  {
    var a := InlinerBefore(p, groups, groups', f, kids, level, x, h);
    var b := HolderBefore(p, groups, groups', f, kids, level, y, h);
    assert h in groups[a].inlined ==> h in groups[b].inlined;
    assert h !in groups[a].inlined ==> h in groups[b].inlined || b.func == f;
    hide InlinedAlike, OneHome, Live, Holds, HoldsSome, InlinesSome;
  }

  lemma StepKeepsHome(p: Pipeline, groups: map<Stage, Group>, groups': map<Stage, Group>, f: string, kids: set<Stage>,
                      level: Level,
                      x: Stage, y: Stage, h: string)
    requires Live(p, groups, f) && OneHome(groups)
    requires GroupsAfter(p, groups, groups', f, kids, level)
    requires level.FastMem? ==> forall c, d | c in kids && d in kids :: c.func == d.func
    requires x in groups' && y in groups' && Holds(groups'[x], h) && Holds(groups'[y], h) && h !in groups'[x].inlined
    ensures x.func == y.func
  {
    var a := HolderBefore(p, groups, groups', f, kids, level, x, h);
    var b := HolderBefore(p, groups, groups', f, kids, level, y, h);
    assert h !in groups[a].inlined && (a != x ==> level.FastMem?);
    assert a.func == b.func;
    hide OneHome, Live, Holds, Joined;
  }

  lemma StepKeepsTogether(p: Pipeline, groups: map<Stage, Group>, groups': map<Stage, Group>, f: string,
                          kids: set<Stage>, level: Level)
    requires Live(p, groups, f) && WholeFunctions(p, groups) && OwnGroups(p, groups) && Whole(p, groups)
    requires GroupsAfter(p, groups, groups', f, kids, level)
    ensures Whole(p, groups')
  {
    forall x, m | x in groups' && m in Members(groups'[x]) && m !in groups' && m.func in p.updates
      ensures StagesOf(p, m.func) <= Members(groups'[x])
    {
      forall k | k in StagesOf(p, m.func) ensures k in Members(groups'[x]) {
        if m in Members(groups[x]) {
          assert StageOf(p, m) && (m in groups ==> m == x);
          assert k in Members(groups[x]);
        } else {
          var s: nat :| s <= p.updates[f] && m in Members(groups[Stage(f, s)]);
          assert StageOf(p, m) && (m in groups ==> m == Stage(f, s));
          if m in groups {
            assert k in Members(groups[k]);
          } else {
            assert k in Members(groups[Stage(f, s)]);
          }
          assert InSome(p, groups, f, k);
        }
      }
    }
  }

  lemma StepLosesNone(p: Pipeline, groups: map<Stage, Group>, groups': map<Stage, Group>, f: string, kids: set<Stage>,
                      level: Level)
    requires Live(p, groups, f) && WholeFunctions(p, groups) && NoneLost(p, groups) && kids != {}
    requires GroupsAfter(p, groups, groups', f, kids, level)
    ensures NoneLost(p, groups')
  {
    var kid :| kid in kids;
    forall m | StageOf(p, m) ensures Held(groups', m) {
      assert Held(groups, m);
      var x :| x in groups && m in Members(groups[x]);
      if x.func == f {
        assert StageOf(p, x) && x == Stage(f, x.num);
        assert InSome(p, groups, f, m);
        assert m in Members(groups'[kid]);
      } else {
        assert m in Members(groups'[x]);
      }
    }
  }

  lemma StepKeepsInlined(p: Pipeline, groups: map<Stage, Group>, groups': map<Stage, Group>, f: string,
                         kids: set<Stage>, level: Level)
    requires Live(p, groups, f) && WholeFunctions(p, groups) && OwnGroups(p, groups) && InlinedAlike(p, groups)
             && OneHome(groups)
    requires GroupsAfter(p, groups, groups', f, kids, level)
    ensures InlinedAlike(p, groups')
  {
    hide GroupsAfter, Live, WholeFunctions, OwnGroups, OneHome, Holds;
    forall x, h | x in groups' && h in groups'[x].inlined ensures !Live(p, groups', h) {
      StepKeepsDead(p, groups, groups', f, kids, level, x, h);
    }
    forall x, y, h | x in groups' && y in groups' && h in groups'[x].inlined && Holds(groups'[y], h)
      ensures h in groups'[y].inlined
    {
      StepKeepsAlike(p, groups, groups', f, kids, level, x, y, h);
    }
  }

  lemma StepKeepsHomes(p: Pipeline, groups: map<Stage, Group>, groups': map<Stage, Group>, f: string, kids: set<Stage>,
                       level: Level)
    requires Live(p, groups, f) && OneHome(groups) && GroupsAfter(p, groups, groups', f, kids, level)
    requires level.FastMem? ==> |Names(kids)| == 1
    ensures OneHome(groups')
  {
    if level.FastMem? {
      OneName(kids);
    }
    hide GroupsAfter, Live, Holds, Names;
    forall x, y, h | x in groups' && y in groups' && Holds(groups'[x], h) && Holds(groups'[y], h)
        && h !in groups'[x].inlined
      ensures x.func == y.func
    {
      StepKeepsHome(p, groups, groups', f, kids, level, x, y, h);
    }
  }

  lemma StepKeepsGrouped(p: Pipeline, t: Tables, f: string, level: Level)
    requires Linked(p, t) && Grouped(p, t) && Candidate(p, t, f, level) && Live(p, t.groups, f) && Kids(p, t, f) != {}
    ensures Mergeable(p, t, f) && Grouped(p, After(p, t, f, level))
  {
    LiveIsMergeable(p, t, f);
    AfterGroups(p, t, f, level);
    var groups, groups', kids := t.groups, After(p, t, f, level).groups, Kids(p, t, f);
    hide GroupsAfter, Live, WholeFunctions, OwnGroups, OneHome, InlinedAlike, Whole, NoneLost, Forward, Chained, After,
        Mergeable, Kids;
    StepKeepsOwn(p, groups, groups', f, kids, level);
    StepKeepsInlined(p, groups, groups', f, kids, level);
    StepKeepsHomes(p, groups, groups', f, kids, level);
    StepKeepsTogether(p, groups, groups', f, kids, level);
    StepLosesNone(p, groups, groups', f, kids, level);
  }

  lemma OneName(kids: set<Stage>)
    requires |Names(kids)| == 1
    ensures forall c, d | c in kids && d in kids :: c.func == d.func
  {
    forall c, d | c in kids && d in kids ensures c.func == d.func {
      var names := Names(kids);
      assert c.func in names && d.func in names;
      if c.func != d.func {
        assert {c.func, d.func} <= names;
        SubsetSize({c.func, d.func}, names);
      }
    }
  }

  lemma SubsetSize<T>(a: set<T>, b: set<T>)
    requires a <= b
    ensures |a| <= |b|
  {
    assert b == a + (b - a);
  }
}
