/** The main results about the Partitioner: reachability, costs, the cache, and where every function is. */
module PartitionTheorem {
  import opened Wrappers
  import opened PartitionModel
  import opened PartitionProof

  // ----- reachability -----

  predicate Edge(children: map<Stage, set<Stage>>, a: Stage, b: Stage) {
    a in children && b in children[a]
  }

  ghost predicate ReachIn(children: map<Stage, set<Stage>>, a: Stage, b: Stage, n: nat)
    decreases n
  {
    if n == 0 then a == b else exists m :: Edge(children, a, m) && ReachIn(children, m, b, n - 1)
  }

  ghost predicate Reach(children: map<Stage, set<Stage>>, a: Stage, b: Stage) {
    exists n: nat :: ReachIn(children, a, b, n)
  }

  lemma {:induction false} ReachTrans(children: map<Stage, set<Stage>>, a: Stage, b: Stage, c: Stage, n: nat, k: nat)
    requires ReachIn(children, a, b, n) && ReachIn(children, b, c, k)
    ensures ReachIn(children, a, c, n + k)
    decreases n
  {
    if n > 0 {
      var m :| Edge(children, a, m) && ReachIn(children, m, b, n - 1);
      ReachTrans(children, m, b, c, n - 1, k);
    }
  }

  lemma ReachStep(children: map<Stage, set<Stage>>, a: Stage, m: Stage, b: Stage)
    requires Edge(children, a, m) && Reach(children, m, b)
    ensures Reach(children, a, b)
  {
    var n: nat :| ReachIn(children, m, b, n);
    assert ReachIn(children, a, b, n + 1);
  }

  /** From any stage of a live function its last stage, and from there its children, are reached. */
  lemma {:induction false} StageReachesKid(p: Pipeline, t: Tables, f: string, s: nat, c: Stage)
    requires Live(p, t.groups, f) && Chained(p, t) && s <= p.updates[f] && c in Kids(p, t, f)
    ensures Reach(t.children, Stage(f, s), c)
    decreases p.updates[f] - s
  {
    var x := Stage(f, s);
    assert ReachIn(t.children, c, c, 0);
    if s == p.updates[f] {
      ReachStep(t.children, x, c, c);
    } else {
      StageReachesKid(p, t, f, s + 1, c);
      assert HasNext(p, t, x);
      ReachStep(t.children, x, Stage(f, s + 1), c);
    }
  }

  lemma {:induction false} AfterReachIsReach(p: Pipeline, t: Tables, f: string, level: Level, a: Stage, b: Stage,
                                             n: nat)
    requires Live(p, t.groups, f) && Linked(p, t) && Mergeable(p, t, f)
    requires ReachIn(After(p, t, f, level).children, a, b, n)
    ensures Reach(t.children, a, b)
    decreases n
  {
    var children' := After(p, t, f, level).children;
    if n == 0 {
      assert ReachIn(t.children, a, b, 0);
    } else {
      var m :| Edge(children', a, m) && ReachIn(children', m, b, n - 1);
      AfterReachIsReach(p, t, f, level, m, b, n - 1);
      if m in t.children[a] {
        ReachStep(t.children, a, m, b);
      } else {
        var z :| z in t.children[a] && z.func == f;
        assert StageOf(p, a) && Before(p, a, z) && StageOf(p, z);
        StageReachesKid(p, t, f, z.num, m);
        var k: nat, j: nat :| ReachIn(t.children, z, m, k) && ReachIn(t.children, m, b, j);
        ReachTrans(t.children, z, m, b, k, j);
        ReachStep(t.children, a, z, b);
      }
    }
  }

  /** A way out of `f` leads through its last stage to one of its children. */
  lemma {:induction false} LeavesThroughKid(p: Pipeline, t: Tables, f: string, a: Stage, b: Stage, n: nat)
    returns (c: Stage, k: nat)
    requires Live(p, t.groups, f) && WholeFunctions(p, t.groups) && Forward(p, t)
    requires a.func == f && b.func != f && ReachIn(t.children, a, b, n)
    ensures c in Kids(p, t, f) && k < n && ReachIn(t.children, c, b, k)
    decreases n
  {
    var m :| Edge(t.children, a, m) && ReachIn(t.children, m, b, n - 1);
    assert Before(p, a, m);
    if m.func == f {
      c, k := LeavesThroughKid(p, t, f, m, b, n - 1);
    } else {
      c, k := m, n - 1;
    }
  }

  lemma {:induction false} ReachIsAfterReach(p: Pipeline, t: Tables, f: string, level: Level, a: Stage, b: Stage,
                                             n: nat)
    requires Mergeable(p, t, f) && WholeFunctions(p, t.groups) && Forward(p, t)
    requires a.func != f && b.func != f && ReachIn(t.children, a, b, n)
    ensures Reach(After(p, t, f, level).children, a, b)
    decreases n
  {
    var children' := After(p, t, f, level).children;
    if n == 0 {
      assert ReachIn(children', a, b, 0);
    } else {
      var m :| Edge(t.children, a, m) && ReachIn(t.children, m, b, n - 1);
      if m.func != f {
        ReachIsAfterReach(p, t, f, level, m, b, n - 1);
        assert Edge(children', a, m);
        ReachStep(children', a, m, b);
      } else {
        var c, k := LeavesThroughKid(p, t, f, m, b, n - 1);
        LiveIsMergeable(p, t, f);
        assert c.func != f;
        ReachIsAfterReach(p, t, f, level, c, b, k);
        assert f in Names(t.children[a]);
        assert Edge(children', a, c);
        ReachStep(children', a, c, b);
      }
    }
  }

  /** A merge keeps the dependences between the stages that stay: one reaches the other after the step
      exactly when it did before, whatever the number of stages of the merged function. */
  lemma StepKeepsReach(p: Pipeline, t: Tables, f: string, level: Level, a: Stage, b: Stage)
    requires Live(p, t.groups, f) && Linked(p, t) && a.func != f && b.func != f
    ensures Mergeable(p, t, f) && (Reach(After(p, t, f, level).children, a, b) <==> Reach(t.children, a, b))
  {
    LiveIsMergeable(p, t, f);
    var children' := After(p, t, f, level).children;
    if Reach(children', a, b) {
      var n: nat :| ReachIn(children', a, b, n);
      AfterReachIsReach(p, t, f, level, a, b, n);
    }
    if Reach(t.children, a, b) {
      var n: nat :| ReachIn(t.children, a, b, n);
      ReachIsAfterReach(p, t, f, level, a, b, n);
    }
  }

  /** Links that go forward do not come back: the graph has no cycle. */
  lemma {:induction false} ForwardIsAcyclic(p: Pipeline, t: Tables, a: Stage, b: Stage, n: nat)
    requires Forward(p, t) && n > 0 && ReachIn(t.children, a, b, n)
    ensures p.rank(a.func) < p.rank(b.func) || (a.func == b.func && a.num < b.num)
    ensures a != b
    decreases n
  {
    var m :| Edge(t.children, a, m) && ReachIn(t.children, m, b, n - 1);
    assert Before(p, a, m);
    if n > 1 {
      ForwardIsAcyclic(p, t, m, b, n - 1);
    }
  }

  // ----- costs -----

  lemma {:induction false} SumRemove(s: set<Stage>, costs: map<Stage, Analysis>, x: Stage)
    requires CostsDefined(s, costs) && x in s
    ensures SumCost(s, costs) == costs[x].cost.value.Plus(SumCost(s - {x}, costs))
    decreases |s|
  {
    var y :| y in s && SumCost(s, costs) == costs[y].cost.value.Plus(SumCost(s - {y}, costs));
    if y != x {
      var rest := s - {y} - {x};
      assert rest == s - {x} - {y};
      SumRemove(s - {y}, costs, x);
      SumRemove(s - {x}, costs, y);
      var cx, cy, cr := costs[x].cost.value, costs[y].cost.value, SumCost(rest, costs);
      assert SumCost(s - {y}, costs) == cx.Plus(cr);
      assert SumCost(s - {x}, costs) == cy.Plus(cr);
      assert SumCost(s, costs) == cy.Plus(cx.Plus(cr)) == cx.Plus(cy.Plus(cr));
    }
  }

  lemma {:induction false} SumUnion(whole: set<Stage>, a: set<Stage>, b: set<Stage>, costs: map<Stage, Analysis>)
    requires a !! b && whole == a + b && CostsDefined(whole, costs)
    ensures SumCost(whole, costs) == SumCost(a, costs).Plus(SumCost(b, costs))
    decreases |a|, 1
  {
    SumNone(costs);
    hide SumCost, CostsDefined;
    if a == {} {
      assert whole == b;
    } else {
      var x :| x in a;
      SumUnionStep(whole, a, b, costs, x, a - {x}, whole - {x});
    }
  }

  lemma SumNone(costs: map<Stage, Analysis>)
    ensures CostsDefined({}, costs) && SumCost({}, costs) == Cost(0, 0)
  {
  }

  lemma {:induction false} SumUnionStep(whole: set<Stage>, a: set<Stage>, b: set<Stage>, costs: map<Stage, Analysis>,
                                        x: Stage, less: set<Stage>, rest: set<Stage>)
    requires a !! b && whole == a + b && CostsDefined(whole, costs) && x in a && less == a - {x} && rest == whole - {x}
    ensures SumCost(whole, costs) == SumCost(a, costs).Plus(SumCost(b, costs))
    decreases |a|, 0
  {
    assert rest == less + b;
    SumRemove(a, costs, x);
    SumRemove(whole, costs, x);
    hide SumCost, CostsDefined;
    SumUnion(rest, less, b, costs);
    var cx, cl, cb := costs[x].cost.value, SumCost(less, costs), SumCost(b, costs);
    assert cx.Plus(cl.Plus(cb)) == cx.Plus(cl).Plus(cb);
  }

  lemma {:induction false} SumAgree(s: set<Stage>, c: map<Stage, Analysis>, d: map<Stage, Analysis>)
    requires CostsDefined(s, c) && forall x | x in s :: x in d && c[x] == d[x]
    ensures CostsDefined(s, d) && SumCost(s, c) == SumCost(s, d)
    decreases s
  {
    if s != {} {
      var x :| x in s;
      SumRemove(s, c, x);
      SumRemove(s, d, x);
      SumAgree(s - {x}, c, d);
    }
  }

  /** The pipeline cost goes down by `b`; undefined stays undefined. */
  ghost predicate CostFalls(t: Tables, t': Tables, b: int) {
    && (PipelineCost(t').Some? <==> PipelineCost(t).Some?)
    && (PipelineCost(t).Some? ==> PipelineCost(t').value.Total() == PipelineCost(t).value.Total() - b)
  }

  /** Merging with any configurations changes the cost of the whole pipeline by exactly the benefit
      estimated for them, and an undefined pipeline cost stays undefined. */
  lemma MergedCostsBenefit(p: Pipeline, t: Tables, f: string, configs: map<Stage, Config>, level: Level)
    requires Mergeable(p, t, f) && WholeFunctions(p, t.groups) && t.costs.Keys == t.groups.Keys
    requires configs.Keys == Kids(p, t, f) != {} && Benefit(p, t, f, configs).Some?
    ensures CostFalls(t, Merged(p, t, f, configs, level), Benefit(p, t, f, configs).value)
  {
    var t', kids := Merged(p, t, f, configs, level), Kids(p, t, f);
    var after := Analyses(configs);
    var own := StagesOf(p, f);
    var rest := t.groups.Keys - own - kids;
    assert after.Keys == kids;
    forall x | x in t.groups.Keys && x.func == f ensures x in own {
      assert StageOf(p, x) && x == Stage(f, x.num);
    }
    assert t.groups.Keys == (own + kids) + rest && t'.groups.Keys == kids + rest;
    CostsMove(t.groups.Keys, t'.groups.Keys, own + kids, kids, rest, t.costs, t'.costs, after);
  }

  lemma CostsMove(whole: set<Stage>, whole': set<Stage>, before: set<Stage>, kids: set<Stage>, rest: set<Stage>,
                  costs: map<Stage, Analysis>, costs': map<Stage, Analysis>, after: map<Stage, Analysis>)
    requires whole == before + rest && before !! rest && whole' == kids + rest && kids !! rest
    requires CostsDefined(before, costs) && CostsDefined(kids, after)
    requires forall x | x in kids :: x in costs' && costs'[x] == after[x]
    requires forall x | x in rest :: x in costs && x in costs' && costs'[x] == costs[x]
    ensures CostsDefined(whole, costs) <==> CostsDefined(whole', costs')
    ensures CostsDefined(whole, costs) ==>
              SumCost(whole', costs').Total()
                  == SumCost(whole, costs).Total() - (SumCost(before, costs).Total() - SumCost(kids, after).Total())
  {
    SumAgree(kids, after, costs');
    DefinedParts(whole, before, rest, costs);
    DefinedParts(whole', kids, rest, costs');
    DefinedSame(rest, costs, costs');
    hide SumCost, CostsDefined;
    if CostsDefined(rest, costs) {
      SumAgree(rest, costs, costs');
      SumUnion(whole, before, rest, costs);
      SumUnion(whole', kids, rest, costs');
    }
  }

  lemma DefinedParts(whole: set<Stage>, a: set<Stage>, b: set<Stage>, costs: map<Stage, Analysis>)
    requires whole == a + b
    ensures CostsDefined(whole, costs) <==> CostsDefined(a, costs) && CostsDefined(b, costs)
  {
  }

  lemma DefinedSame(s: set<Stage>, c: map<Stage, Analysis>, d: map<Stage, Analysis>)
    requires forall x | x in s :: x in c && x in d && c[x] == d[x]
    ensures CostsDefined(s, c) <==> CostsDefined(s, d)
  {
  }

  /** Fewer groups are left. */
  lemma StepHasFewerGroups(p: Pipeline, t: Tables, f: string, level: Level)
    requires Mergeable(p, t, f)
    ensures |After(p, t, f, level).groups| < |t.groups|
  {
    var t' := After(p, t, f, level);
    assert Stage(f, 0) in t.groups;
    assert t'.groups.Keys <= t.groups.Keys - {Stage(f, 0)};
    SubsetSize(t'.groups.Keys, t.groups.Keys - {Stage(f, 0)});
  }

  // ----- the cache -----

  /** Dropping only the entries that name a merged child leaves no live entry out of date. */
  lemma StepKeepsFresh(p: Pipeline, t: Tables, cache: Cache, f: string, level: Level)
    requires Mergeable(p, t, f) && Fresh(p, t, cache, level)
    ensures Fresh(p, After(p, t, f, level), Invalidate(cache, Kids(p, t, f)), level)
  {
    var t', kids := After(p, t, f, level), Kids(p, t, f);
    var cache' := Invalidate(cache, kids);
    forall c | c in cache' && Live(p, t'.groups, c.prod) && c.cons in t'.groups
      ensures cache'[c] == Evaluate(p, t'.groups, c, level)
    {
      AfterLive(p, t, f, level, c.prod);
      assert c.cons !in kids && c.cons.func != f;
      forall s | 0 <= s <= p.updates[c.prod] ensures t.groups[Stage(c.prod, s)] == t'.groups[Stage(c.prod, s)] {
        assert Stage(c.prod, s) !in kids;
      }
      EvaluateLocal(p, t.groups, t'.groups, c, level);
    }
  }

  lemma EvaluateLocal(p: Pipeline, a: map<Stage, Group>, b: map<Stage, Group>, c: Choice, level: Level)
    requires Live(p, a, c.prod) && Live(p, b, c.prod) && c.cons in a && c.cons in b && a[c.cons] == b[c.cons]
    requires forall s | 0 <= s <= p.updates[c.prod] :: a[Stage(c.prod, s)] == b[Stage(c.prod, s)]
    ensures Evaluate(p, a, c, level) == Evaluate(p, b, c, level)
  {
    MergeStagesLocal(p, a, b, c.prod, p.updates[c.prod] + 1, a[c.cons]);
  }

  // ----- everything together -----

  /** A chosen step: a candidate whose merge is worth a positive benefit. */
  ghost predicate Profitable(p: Pipeline, t: Tables, f: string, level: Level) {
    && Candidate(p, t, f, level) && Mergeable(p, t, f)
    && Gain(p, t, f, level).Some? && Gain(p, t, f, level).value > 0
  }

  /** A positive benefit needs children to merge into. */
  lemma BenefitHasKids(p: Pipeline, t: Tables, f: string, configs: map<Stage, Config>)
    requires f in p.updates && Benefit(p, t, f, configs).Some? && Benefit(p, t, f, configs).value > 0
    ensures configs.Keys != {}
  {
    var none: set<Stage> := {};
    assert configs.Keys == none ==> Together(configs.Keys, Analyses(configs)) == Together(none, t.costs);
  }

  /** A sound state stays sound. */
  lemma StepKeepsSound(p: Pipeline, t: Tables, f: string, level: Level)
    requires Sound(p, t) && Candidate(p, t, f, level) && Kids(p, t, f) != {}
    ensures Mergeable(p, t, f) && Sound(p, After(p, t, f, level))
  {
    assert StageOf(p, Final(p, f)) && Live(p, t.groups, f);
    StepKeepsLinks(p, t, f, level);
    StepKeepsGrouped(p, t, f, level);
    StepKeepsCosts(p, t, f, level);
    StepKeepsOutputs(p, t, f, level);
  }

  ghost predicate InlinedWhereHeld(p: Pipeline, groups: map<Stage, Group>, f: string) {
    !Live(p, groups, f) && forall x | x in groups && Holds(groups[x], f) :: f in groups[x].inlined
  }

  ghost predicate HeldBy(groups: map<Stage, Group>, f: string, h: string) {
    forall x | x in groups && Holds(groups[x], f) :: x.func == h && f !in groups[x].inlined
  }

  ghost predicate TiledInOne(p: Pipeline, groups: map<Stage, Group>, f: string) {
    !Live(p, groups, f) && exists h :: Live(p, groups, h) && HeldBy(groups, f, h)
  }

  /** In a sound state every stage of every function is in some group, and every function is exactly one of:
      live, inlined in every group that holds it, or a plain member of groups of one live function. */
  lemma ExactlyOnePlace(p: Pipeline, t: Tables, f: string)
    requires Sound(p, t) && f in p.updates
    ensures forall s | 0 <= s <= p.updates[f] :: Held(t.groups, Stage(f, s))
    ensures Live(p, t.groups, f) || InlinedWhereHeld(p, t.groups, f) || TiledInOne(p, t.groups, f)
    ensures !(InlinedWhereHeld(p, t.groups, f) && TiledInOne(p, t.groups, f))
  {
    forall s | 0 <= s <= p.updates[f] ensures Held(t.groups, Stage(f, s)) {
      assert StageOf(p, Stage(f, s));
    }
    OnePlace(p, t.groups, f);
  }

  lemma OnePlace(p: Pipeline, groups: map<Stage, Group>, f: string)
    requires WholeFunctions(p, groups) && OwnGroups(p, groups) && InlinedAlike(p, groups) && OneHome(groups)
    requires NoneLost(p, groups) && f in p.updates
    ensures Live(p, groups, f) || InlinedWhereHeld(p, groups, f) || TiledInOne(p, groups, f)
    ensures !(InlinedWhereHeld(p, groups, f) && TiledInOne(p, groups, f))
  {
    var x := SomeHolder(p, groups, f);
    if !Live(p, groups, f) {
      DeadPlace(p, groups, f, x);
      if f !in groups[x].inlined {
        assert HeldBy(groups, f, x.func);
      }
    }
  }

  lemma SomeHolder(p: Pipeline, groups: map<Stage, Group>, f: string) returns (x: Stage)
    requires NoneLost(p, groups) && f in p.updates
    ensures x in groups && Holds(groups[x], f)
  {
    assert StageOf(p, Stage(f, 0)) && Held(groups, Stage(f, 0));
    x :| x in groups && Stage(f, 0) in Members(groups[x]);
  }

  lemma DeadPlace(p: Pipeline, groups: map<Stage, Group>, f: string, x: Stage)
    requires WholeFunctions(p, groups) && OwnGroups(p, groups) && InlinedAlike(p, groups) && OneHome(groups)
    requires x in groups && Holds(groups[x], f) && !Live(p, groups, f)
    ensures Live(p, groups, x.func)
    ensures f in groups[x].inlined ==> forall y | y in groups && Holds(groups[y], f) :: f in groups[y].inlined
    ensures f !in groups[x].inlined ==> HeldBy(groups, f, x.func)
  {
    assert StageOf(p, x);
    forall y | y in groups && f in groups[y].inlined ensures f in groups[x].inlined {
      assert Holds(groups[y], f);
    }
  }

  // ----- runs -----

  /** What the merge of `f` is worth. */
  ghost function Gain(p: Pipeline, t: Tables, f: string, level: Level): Option<int>
    requires Mergeable(p, t, f)
  {
    Benefit(p, t, f, Configs(p, t, f, level))
  }

  /** What the merge of `f` is worth if it is worth anything. */
  ghost function Score(p: Pipeline, t: Tables, f: string, level: Level): int {
    if Profitable(p, t, f, level) then Gain(p, t, f, level).value else 0
  }

  /** One iteration of the grouping loop: of all profitable candidates one with the largest benefit is merged. */
  ghost predicate BestStep(p: Pipeline, t: Tables, t': Tables, f: string, level: Level) {
    && Profitable(p, t, f, level) && t' == After(p, t, f, level)
    && forall g :: Score(p, t, g, level) <= Score(p, t, f, level)
  }

  /** A run of the grouping loop: the functions merged and the tables after each merge. */
  datatype Run = Start(now: Tables) | Then(before: Run, merged: string, now: Tables)

  ghost predicate IsRun(p: Pipeline, r: Run, level: Level) {
    r.Then? ==> IsRun(p, r.before, level) && BestStep(p, r.before.now, r.now, r.merged, level)
  }

  function First(r: Run): Tables {
    if r.Start? then r.now else First(r.before)
  }

  function Length(r: Run): nat {
    if r.Start? then 0 else Length(r.before) + 1
  }

  lemma GainIsSaved(p: Pipeline, t: Tables, f: string, level: Level)
    requires Profitable(p, t, f, level) && WholeFunctions(p, t.groups) && t.costs.Keys == t.groups.Keys
    ensures Kids(p, t, f) != {} && CostFalls(t, After(p, t, f, level), Gain(p, t, f, level).value)
  {
    var configs := Configs(p, t, f, level);
    BenefitHasKids(p, t, f, configs);
    MergedCostsBenefit(p, t, f, configs, level);
  }

  /** Every iteration keeps the tables sound, leaves fewer groups, and lowers the pipeline cost by exactly
      its benefit, which is positive. */
  lemma IterationGains(p: Pipeline, t: Tables, f: string, level: Level)
    requires Sound(p, t) && Profitable(p, t, f, level)
    ensures var t' := After(p, t, f, level);
            && Sound(p, t') && |t'.groups| < |t.groups|
            && CostFalls(t, t', Gain(p, t, f, level).value) && Gain(p, t, f, level).value > 0
  {
    GainIsSaved(p, t, f, level);
    StepKeepsSound(p, t, f, level);
    StepHasFewerGroups(p, t, f, level);
  }

  /** What is left after `n` steps from `t`. */
  ghost predicate Outcome(p: Pipeline, t: Tables, last: Tables, n: nat) {
    && Sound(p, last)
    && (PipelineCost(last).Some? <==> PipelineCost(t).Some?)
    && (PipelineCost(last).Some? ==> PipelineCost(last).value.Total() <= PipelineCost(t).value.Total() - n)
    && |last.groups| <= |t.groups| - n && last.groups.Keys <= t.groups.Keys
    && SameReach(t, last)
  }

  ghost predicate SameReach(t: Tables, last: Tables) {
    forall a, b | a in last.groups && b in last.groups :: Reach(last.children, a, b) <==> Reach(t.children, a, b)
  }

  lemma OneMoreReach(p: Pipeline, start: Tables, t: Tables, f: string, level: Level)
    requires Live(p, t.groups, f) && Linked(p, t) && Mergeable(p, t, f) && SameReach(start, t)
    ensures SameReach(start, After(p, t, f, level))
  {
    var t' := After(p, t, f, level);
    forall a, b | a in t'.groups && b in t'.groups ensures Reach(t'.children, a, b) <==> Reach(start.children, a, b) {
      StepKeepsReach(p, t, f, level, a, b);
    }
  }

  lemma OneMore(p: Pipeline, start: Tables, t: Tables, f: string, level: Level, n: nat)
    requires Outcome(p, start, t, n) && Profitable(p, t, f, level)
    ensures Outcome(p, start, After(p, t, f, level), n + 1)
  {
    IterationGains(p, t, f, level);
    OneMoreReach(p, start, t, f, level);
    var b, t' := Gain(p, t, f, level).value, After(p, t, f, level);
    assert t'.groups.Keys <= t.groups.Keys;
    hide After, Gain, Profitable;
    OutcomeMore(p, start, t, t', n, b);
  }

  lemma OutcomeMore(p: Pipeline, start: Tables, t: Tables, t': Tables, n: nat, b: int)
    requires Outcome(p, start, t, n) && Sound(p, t') && |t'.groups| < |t.groups| && t'.groups.Keys <= t.groups.Keys
    requires CostFalls(t, t', b) && b > 0 && SameReach(start, t')
    ensures Outcome(p, start, t', n + 1)
  {
    hide Sound, SameReach, PipelineCost;
  }

  /** Over a whole run the tables stay sound, the cost falls by at least one for every iteration, a group
      is gone for every iteration, and dependences between the stages that are left are those of the
      beginning. */
  lemma {:induction false} RunGains(p: Pipeline, r: Run, level: Level)
    requires IsRun(p, r, level) && Sound(p, First(r))
    ensures Outcome(p, First(r), r.now, Length(r))
    decreases r
  {
    match r
    case Start(t) => NoMore(p, t);
    case Then(before, f, _) =>
      RunGains(p, before, level);
      OneMore(p, First(r), before.now, f, level, Length(before));
  }

  lemma NoMore(p: Pipeline, t: Tables)
    requires Sound(p, t)
    ensures Outcome(p, t, t, 0)
  {
  }

  // ----- the beginning -----

  /** A stage is a child of the stage before it, and of the last stage of every other function it calls. */
  predicate Calls(p: Pipeline, x: Stage, y: Stage) {
    && StageOf(p, y)
    && if x.func == y.func then y.num == x.num + 1
       else x.func in p.parents(y) && x.func in p.updates && x == Final(p, x.func)
  }

  ghost predicate StartGroups(p: Pipeline, groups: map<Stage, Group>) {
    && (forall x :: x in groups <==> StageOf(p, x) && x.func in p.bounded)
    && (forall x | x in groups :: groups[x].output == x && groups[x].members == [x] && groups[x].inlined == {})
  }

  ghost predicate StartChildren(p: Pipeline, children: map<Stage, set<Stage>>) {
    && (forall x, y :: Edge(children, x, y) <==> Calls(p, x, y))
    && (forall x | x in children :: children[x] != {})
  }

  ghost predicate Started(p: Pipeline, t: Tables) {
    StartGroups(p, t.groups) && StartChildren(p, t.children)
  }

  /** The tables the partitioner starts from are sound when all functions have bounds. */
  lemma StartIsSound(p: Pipeline, t: Tables)
    requires WellFormed(p) && Started(p, t) && Costed(p, t)
    ensures Sound(p, t)
  {
    StartIsLinked(p, t);
    StartIsGrouped(p, t.groups);
    forall f | f in p.outputs ensures Live(p, t.groups, f) {
      assert StageOf(p, Stage(f, 0)) && Stage(f, 0) in t.groups;
    }
  }

  lemma StartIsLinked(p: Pipeline, t: Tables)
    requires WellFormed(p) && Started(p, t)
    ensures Linked(p, t)
  {
    StartIsWholeFunctions(p, t.groups);
    StartIsForward(p, t);
    forall x | x in t.groups ensures HasNext(p, t, x) {
      if x.num < p.updates[x.func] {
        assert Calls(p, x, Stage(x.func, x.num + 1));
        assert Edge(t.children, x, Stage(x.func, x.num + 1));
      }
    }
  }

  lemma StartIsWholeFunctions(p: Pipeline, groups: map<Stage, Group>)
    requires p.updates.Keys <= p.bounded && StartGroups(p, groups)
    ensures WholeFunctions(p, groups)
  {
    forall x | x in groups ensures StageOf(p, x) && Live(p, groups, x.func) {
      forall s | 0 <= s <= p.updates[x.func] ensures Stage(x.func, s) in groups {
        assert StageOf(p, Stage(x.func, s));
      }
    }
  }

  lemma StartIsForward(p: Pipeline, t: Tables)
    requires WellFormed(p) && Started(p, t)
    ensures Forward(p, t)
  {
    forall x | x in t.children ensures x in t.groups {
      var y :| y in t.children[x];
      assert Edge(t.children, x, y) && StageOf(p, x);
    }
    forall x, y | x in t.children && y in t.children[x] ensures y in t.groups && Before(p, x, y) {
      assert Edge(t.children, x, y) && Calls(p, x, y);
      assert y == Stage(y.func, y.num);
    }
  }

  lemma StartIsGrouped(p: Pipeline, groups: map<Stage, Group>)
    requires WellFormed(p) && StartGroups(p, groups)
    ensures OwnGroups(p, groups) && InlinedAlike(p, groups) && OneHome(groups) && Whole(p, groups)
            && NoneLost(p, groups)
  {
    forall x | x in groups ensures Members(groups[x]) == {x} {
    }
    StartIsHome(groups);
    StartIsWhole(p, groups);
    StartHasAll(p, groups);
  }

  lemma StartIsWhole(p: Pipeline, groups: map<Stage, Group>)
    requires forall x | x in groups :: Members(groups[x]) == {x}
    ensures Whole(p, groups)
  {
  }

  lemma StartHasAll(p: Pipeline, groups: map<Stage, Group>)
    requires forall x | x in groups :: Members(groups[x]) == {x}
    requires p.updates.Keys <= p.bounded && StartGroups(p, groups)
    ensures NoneLost(p, groups)
  {
    forall m | StageOf(p, m) ensures Held(groups, m) {
      assert m in Members(groups[m]);
    }
  }

  lemma StartIsHome(groups: map<Stage, Group>)
    requires forall x | x in groups :: Members(groups[x]) == {x}
    ensures OneHome(groups)
  {
    forall x, f | x in groups && Holds(groups[x], f) ensures x.func == f {
    }
  }

  /** A function that takes no part in the graph. */
  ghost predicate Isolated(p: Pipeline, f: string) {
    forall x, y | Calls(p, x, y) :: x.func != f && y.func != f
  }

  /** The children graph covers functions without bounds although they get no group: its links stay inside
      the groups exactly when no such function takes part in it. */
  lemma UnboundedMustBeIsolated(p: Pipeline, t: Tables)
    requires Started(p, t)
    ensures (t.children.Keys <= t.groups.Keys && forall x | x in t.children :: t.children[x] <= t.groups.Keys)
            <==> forall f | f in p.updates && f !in p.bounded :: Isolated(p, f)
  {
    if t.children.Keys <= t.groups.Keys && forall x | x in t.children :: t.children[x] <= t.groups.Keys {
      forall f, x, y | f in p.updates && f !in p.bounded && Calls(p, x, y) ensures x.func != f && y.func != f {
        assert Edge(t.children, x, y);
        assert x in t.groups && y in t.groups;
      }
    }
    if forall f | f in p.updates && f !in p.bounded :: Isolated(p, f) {
      forall x, y | Edge(t.children, x, y) ensures x in t.groups && y in t.groups {
        assert Calls(p, x, y) && StageOf(p, x);
        assert x.func in p.bounded || Isolated(p, x.func);
        assert y.func in p.bounded || Isolated(p, y.func);
      }
      forall x | x in t.children ensures x in t.groups {
        var y :| y in t.children[x];
        assert Edge(t.children, x, y);
      }
      forall x, y | x in t.children && y in t.children[x] ensures y in t.groups {
        assert Edge(t.children, x, y);
      }
    }
  }
}
