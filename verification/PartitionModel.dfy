/** The tables of the auto-scheduler's Partitioner (AutoSchedule.cpp): groups of function stages, the
    children graph between them, the analysed costs, and what one merge does to all of them. */
module PartitionModel {
  import opened Wrappers

  datatype Stage = Stage(func: string, num: nat)

  type Tiles = map<string, int>

  datatype Cost = Cost(arith: int, memory: int) {
    function Plus(other: Cost): Cost {
      Cost(arith + other.arith, memory + other.memory)
    }

    function Total(): int {
      arith + memory
    }
  }

  datatype Analysis = Analysis(cost: Option<Cost>, parallelism: Option<int>) {
    predicate Defined() {
      cost.Some? && parallelism.Some?
    }
  }

  datatype Group = Group(output: Stage, members: seq<Stage>, inlined: set<string>, tiles: Tiles)
  datatype Config = Config(tiles: Tiles, analysis: Analysis)
  datatype Level = Inline | FastMem
  datatype Choice = Choice(prod: string, cons: Stage)

  /** What the partitioner is given. `updates` has the number of update stages of every function, `rank` its
      position in the realization order; the cost model and the tile heuristics are arbitrary functions. */
  datatype Pipeline = Pipeline(
    updates: map<string, nat>,
    pure: set<string>,
    outputs: set<string>,
    bounded: set<string>,
    parents: Stage -> set<string>,
    rank: string -> nat,
    analyze: (Stage, set<Stage>, set<string>, Tiles) -> Analysis,
    tilings: Stage -> seq<Tiles>,
    unitTiles: Stage -> Tiles,
    parallelism: int)

  datatype Tables = Tables(groups: map<Stage, Group>, children: map<Stage, set<Stage>>, costs: map<Stage, Analysis>)

  const MAX_INT64 := 0x7FFF_FFFF_FFFF_FFFF

  predicate StageOf(p: Pipeline, x: Stage) {
    x.func in p.updates && x.num <= p.updates[x.func]
  }

  function Final(p: Pipeline, f: string): Stage
    requires f in p.updates
  {
    Stage(f, p.updates[f])
  }

  function StagesOf(p: Pipeline, f: string): set<Stage>
    requires f in p.updates
  {
    set s | 0 <= s <= p.updates[f] :: Stage(f, s)
  }

  function Members(g: Group): set<Stage> {
    set m | m in g.members
  }

  function Names(ms: set<Stage>): set<string> {
    set m | m in ms :: m.func
  }

  function Analyze(p: Pipeline, g: Group): Analysis {
    p.analyze(g.output, Members(g), g.inlined, g.tiles)
  }

  // ----- benefits -----

  /** estimate_benefit of one analysis over another. */
  function EstimateBenefit(p: Pipeline, older: Analysis, newer: Analysis, noRedundantWork: bool,
                           ensureParallelism: bool)
    : Option<int>
  {
    if ensureParallelism && (newer.parallelism.None? || newer.parallelism.value < p.parallelism) then None
    else if older.cost.None? || newer.cost.None? then None
    else
      var arith := older.cost.value.arith - newer.cost.value.arith;
      if noRedundantWork && arith < 0 then None
      else Some(older.cost.value.memory - newer.cost.value.memory + arith)
  }

  // ----- tile sizes -----

  /** find_best_tile_config: a better tiling replaces the best one so far. */
  function BestFrom(p: Pipeline, g: Group, best: Config, i: nat): Config
    requires i <= |p.tilings(g.output)|
    decreases |p.tilings(g.output)| - i
  {
    var tilings := p.tilings(g.output);
    if i == |tilings| then best
    else
      var analysis := Analyze(p, g.(tiles := tilings[i]));
      var benefit := EstimateBenefit(p, best.analysis, analysis, false, true);
      BestFrom(p, g, if benefit.Some? && benefit.value > 0 then Config(tilings[i], analysis) else best, i + 1)
  }

  function BestConfig(p: Pipeline, g: Group): Config {
    var none := Config(map[], Analyze(p, g.(tiles := map[])));
    if none.analysis.cost.None? then none else BestFrom(p, g, none, 0)
  }

  // ----- merging -----

  /** All stages of a function are groups. */
  predicate Live(p: Pipeline, groups: map<Stage, Group>, f: string) {
    f in p.updates && forall s | 0 <= s <= p.updates[f] :: Stage(f, s) in groups
  }

  /** The group of the first `n` stages of `f` and `cons`, in the order of merge_groups
      (AutoSchedule.cpp): producers in front. */
  function MergeStages(p: Pipeline, groups: map<Stage, Group>, f: string, n: nat, cons: Group): Group
    requires Live(p, groups, f) && n <= p.updates[f] + 1
  {
    if n == 0 then cons
    else
      var rest := MergeStages(p, groups, f, n - 1, cons);
      var prod := groups[Stage(f, n - 1)];
      Group(rest.output, prod.members + rest.members, prod.inlined + rest.inlined, map[])
  }

  function MemberNames(p: Pipeline, groups: map<Stage, Group>, f: string, n: nat): set<string>
    requires Live(p, groups, f) && n <= p.updates[f] + 1
  {
    if n == 0 then {} else MemberNames(p, groups, f, n - 1) + Names(Members(groups[Stage(f, n - 1)]))
  }

  /** evaluate_choice: the configuration and analysis of the group that a merge would give. */
  function Evaluate(p: Pipeline, groups: map<Stage, Group>, choice: Choice, level: Level): Config
    requires Live(p, groups, choice.prod) && choice.cons in groups
  {
    var cons := groups[choice.cons];
    var n := p.updates[choice.prod] + 1;
    var merged := MergeStages(p, groups, choice.prod, n, cons);
    match level
    case Inline =>
      var tiles := p.unitTiles(cons.output);
      var inlined := merged.inlined + MemberNames(p, groups, choice.prod, n) + cons.inlined;
      Config(tiles, Analyze(p, merged.(inlined := inlined, tiles := tiles)))
    case FastMem => BestConfig(p, merged)
  }

  /** merge_groups on the tables: the child's group takes in the first `n` stages of `f`. */
  function Absorb(p: Pipeline, groups: map<Stage, Group>, f: string, n: nat, child: Group, level: Level): Group
    requires Live(p, groups, f) && n <= p.updates[f] + 1
  {
    if n == 0 then child
    else
      var rest := Absorb(p, groups, f, n - 1, child, level);
      var prod := groups[Stage(f, n - 1)];
      Group(rest.output, rest.members + prod.members,
            rest.inlined + (if level.Inline? then Names(Members(prod)) else prod.inlined), rest.tiles)
  }

  /** A consumer set without the stages of `f`; who used them now has the children of `f`. */
  function Redirect(cons: set<Stage>, f: string, kids: set<Stage>): set<Stage> {
    (set x | x in cons && x.func != f) + if f in Names(cons) then kids else {}
  }

  function Kids(p: Pipeline, t: Tables, f: string): set<Stage>
    requires f in p.updates
  {
    if Final(p, f) in t.children then t.children[Final(p, f)] else {}
  }

  /** The tables after `f` has been merged into all its children with the configurations `configs`. */
  function Merged(p: Pipeline, t: Tables, f: string, configs: map<Stage, Config>, level: Level): Tables
    requires Live(p, t.groups, f) && Kids(p, t, f) <= configs.Keys
  {
    var kids := Kids(p, t, f);
    Tables(
      map x | x in t.groups && x.func != f ::
        if x in kids then Absorb(p, t.groups, f, p.updates[f] + 1, t.groups[x], level).(tiles := configs[x].tiles)
        else t.groups[x],
      map x | x in t.children && x.func != f :: Redirect(t.children[x], f, kids),
      map x | x in t.costs && x.func != f :: if x in kids then configs[x].analysis else t.costs[x])
  }

  type Cache = map<Choice, Config>

  predicate Stale(c: Choice, kids: set<Stage>) {
    c.prod in Names(kids) || c.cons in kids
  }

  /** Only entries that name a merged child are dropped. */
  function Invalidate(cache: Cache, kids: set<Stage>): Cache {
    map c | c in cache && !Stale(c, kids) :: cache[c]
  }

  // ----- choosing -----

  /** A function whose last stage is a group, that is not an output and has children; for tiling, children
      of one function. */
  predicate Candidate(p: Pipeline, t: Tables, f: string, level: Level) {
    && f in p.updates && f !in p.outputs
    && Final(p, f) in t.groups && Final(p, f) in t.children
    && (level.FastMem? ==> |Names(Kids(p, t, f))| == 1)
    && (level.Inline? ==> f in p.pure)
  }

  /** What merging `f` into each of its children evaluates to. */
  function Configs(p: Pipeline, t: Tables, f: string, level: Level): map<Stage, Config>
    requires Live(p, t.groups, f) && Kids(p, t, f) <= t.groups.Keys
  {
    map c | c in Kids(p, t, f) :: Evaluate(p, t.groups, Choice(f, c), level)
  }

  function Analyses(configs: map<Stage, Config>): map<Stage, Analysis> {
    map c | c in configs :: configs[c].analysis
  }

  predicate CostsDefined(s: set<Stage>, costs: map<Stage, Analysis>) {
    forall x | x in s :: x in costs && costs[x].cost.Some?
  }

  ghost function SumCost(s: set<Stage>, costs: map<Stage, Analysis>): Cost
    requires CostsDefined(s, costs)
  {
    if s == {} then Cost(0, 0)
    else
      var x :| x in s;
      costs[x].cost.value.Plus(SumCost(s - {x}, costs))
  }

  /** The groups that a merge into `kids` replaces. */
  function Replaced(p: Pipeline, f: string, kids: set<Stage>): set<Stage>
    requires f in p.updates
  {
    if kids == {} then {} else StagesOf(p, f) + kids
  }

  predicate AllDefined(stages: set<Stage>, costs: map<Stage, Analysis>) {
    forall x | x in stages :: x in costs && costs[x].Defined()
  }

  function Least(m: int, n: int): int {
    if n < m then n else m
  }

  ghost function LeastParallelism(s: set<Stage>, costs: map<Stage, Analysis>): int
    requires AllDefined(s, costs)
  {
    if s == {} then MAX_INT64
    else
      var x :| x in s;
      Least(LeastParallelism(s - {x}, costs), costs[x].parallelism.value)
  }

  /** Several analyses as one: undefined as soon as one of them is, otherwise the sum of the costs and the
      least parallelism. */
  ghost function Together(s: set<Stage>, costs: map<Stage, Analysis>): Analysis {
    if AllDefined(s, costs) then Analysis(Some(SumCost(s, costs)), Some(LeastParallelism(s, costs)))
    else Analysis(None, None)
  }

  /** estimate_benefit of replacing the groups of `f` and of its children by the merged groups. */
  ghost function Benefit(p: Pipeline, t: Tables, f: string, configs: map<Stage, Config>): Option<int>
    requires f in p.updates
  {
    EstimateBenefit(p, Together(Replaced(p, f, configs.Keys), t.costs), Together(configs.Keys, Analyses(configs)),
        false, true)
  }

  ghost function PipelineCost(t: Tables): Option<Cost> {
    if CostsDefined(t.groups.Keys, t.costs) then Some(SumCost(t.groups.Keys, t.costs)) else None
  }

  // ----- invariants -----

  /** What the pipeline has to provide: a realization order, bounds for every function, outputs among the
      functions, and pure functions have no updates. */
  ghost predicate WellFormed(p: Pipeline) {
    && p.outputs != {} && p.outputs <= p.updates.Keys <= p.bounded
    && (forall f | f in p.pure && f in p.updates :: p.updates[f] == 0)
    && (forall f, s: nat | f in p.updates && s <= p.updates[f] ::
          forall g | g in p.parents(Stage(f, s)) :: g in p.updates && g != f ==> p.rank(g) < p.rank(f))
  }

  predicate Before(p: Pipeline, x: Stage, y: Stage) {
    if x.func == y.func then y.num == x.num + 1
    else p.rank(x.func) < p.rank(y.func) && x.func in p.updates && x == Final(p, x.func)
  }

  /** Groups come as whole functions. */
  ghost predicate WholeFunctions(p: Pipeline, groups: map<Stage, Group>) {
    forall x {:trigger StageOf(p, x)} | x in groups :: StageOf(p, x) && Live(p, groups, x.func)
  }

  /** Links join groups and go forward: from one stage of a function to the next, and from the last stage
      of a function to a later function. */
  ghost predicate Forward(p: Pipeline, t: Tables) {
    && t.children.Keys <= t.groups.Keys
    && (forall x, y {:trigger Before(p, x, y)} | x in t.children && y in t.children[x] ::
          y in t.groups && Before(p, x, y))
  }

  predicate HasNext(p: Pipeline, t: Tables, x: Stage) {
    x.func in p.updates && x.num < p.updates[x.func] ==>
      x in t.children && Stage(x.func, x.num + 1) in t.children[x]
  }

  ghost predicate Chained(p: Pipeline, t: Tables) {
    forall x {:trigger HasNext(p, t, x)} | x in t.groups :: HasNext(p, t, x)
  }

  ghost predicate Linked(p: Pipeline, t: Tables) {
    WholeFunctions(p, t.groups) && Forward(p, t) && Chained(p, t)
  }

  predicate Holds(g: Group, f: string) {
    f in Names(Members(g))
  }

  /** A group holds its output, inlines only what it holds, and a live stage is in its own group only. */
  ghost predicate OwnGroups(p: Pipeline, groups: map<Stage, Group>) {
    && (forall x | x in groups :: groups[x].output == x && x in Members(groups[x])
                                  && groups[x].inlined <= Names(Members(groups[x])))
    && (forall x, m | x in groups && m in Members(groups[x]) :: StageOf(p, m) && (m in groups ==> m == x))
  }

  /** Nothing that is inlined is live, and a function is inlined in all groups that hold it or in none. */
  ghost predicate InlinedAlike(p: Pipeline, groups: map<Stage, Group>) {
    && (forall x, f | x in groups && f in groups[x].inlined :: !Live(p, groups, f))
    && (forall x, y, f | x in groups && y in groups && f in groups[x].inlined && Holds(groups[y], f) ::
          f in groups[y].inlined)
  }

  /** The groups that hold a function without inlining it belong to one function. */
  ghost predicate OneHome(groups: map<Stage, Group>) {
    forall x, y, f | x in groups && y in groups && Holds(groups[x], f) && Holds(groups[y], f)
                     && f !in groups[x].inlined :: x.func == y.func
  }

  /** A group that takes in a stage takes in its whole function. */
  ghost predicate Whole(p: Pipeline, groups: map<Stage, Group>) {
    forall x, m | x in groups && m in Members(groups[x]) && m !in groups && m.func in p.updates ::
      StagesOf(p, m.func) <= Members(groups[x])
  }

  predicate Held(groups: map<Stage, Group>, m: Stage) {
    exists x :: x in groups && m in Members(groups[x])
  }

  /** No stage is lost. */
  ghost predicate NoneLost(p: Pipeline, groups: map<Stage, Group>) {
    forall m {:trigger Held(groups, m)} | StageOf(p, m) :: Held(groups, m)
  }

  ghost predicate Grouped(p: Pipeline, t: Tables) {
    && OwnGroups(p, t.groups) && InlinedAlike(p, t.groups) && OneHome(t.groups)
    && Whole(p, t.groups) && NoneLost(p, t.groups)
  }

  /** Every cost is the analysis of the current group. */
  ghost predicate Costed(p: Pipeline, t: Tables) {
    t.costs.Keys == t.groups.Keys && forall x | x in t.groups :: t.costs[x] == Analyze(p, t.groups[x])
  }

  /** Every cached evaluation of two live groups is what evaluating it now would give. */
  ghost predicate Fresh(p: Pipeline, t: Tables, cache: Cache, level: Level) {
    forall c | c in cache && Live(p, t.groups, c.prod) && c.cons in t.groups ::
      cache[c] == Evaluate(p, t.groups, c, level)
  }

  ghost predicate Sound(p: Pipeline, t: Tables) {
    WellFormed(p) && Linked(p, t) && Grouped(p, t) && Costed(p, t) && OutputsLive(p, t)
  }

  ghost predicate OutputsLive(p: Pipeline, t: Tables) {
    forall f | f in p.outputs :: Live(p, t.groups, f)
  }
}
