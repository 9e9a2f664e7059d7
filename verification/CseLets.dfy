/** Counting uses and rebuilding the canonical expression around lets (CSE.cpp). */
module CseLets {
  import opened VarNames
  import opened CseIR
  import opened CseGVN
  import opened CseSound

  // ----- use counts -----

  /** `uses[i]` counts how often entry `i` was included; `visited` are the objects gone into, in order. */
  datatype Counts = Counts(visited: seq<Expr>, uses: seq<nat>)

  function Bump(uses: seq<nat>, n: nat): (r: seq<nat>)
    ensures |r| == |uses|
  {
    if n < |uses| then uses[n := uses[n] + 1] else uses
  }

  /** ComputeUseCounts::include: what is not worth a let is always gone into, the rest once. */
  function Include(c: Counts, e: Expr, shallow: map<Expr, nat>, liftAll: bool): (r: Counts)
    ensures |r.uses| == |c.uses|
    decreases e, 1
  {
    if !ShouldExtract(e, liftAll) then Accept(c, e, shallow, liftAll)
    else
      var c1 := if e in shallow then c.(uses := Bump(c.uses, shallow[e])) else c;
      if e in c1.visited then c1 else Accept(c1.(visited := c1.visited + [e]), e, shallow, liftAll)
  }

  /** Visiting a node includes its children. */
  function Accept(c: Counts, e: Expr, shallow: map<Expr, nat>, liftAll: bool): (r: Counts)
    ensures |r.uses| == |c.uses|
    decreases e, 0
  {
    match e
    case Imm(_) => c
    case Var(_) => c
    case Node(_, _, ks) => IncludeAll(c, ks, shallow, liftAll)
    case Let(_, _, x, b) => Include(Include(c, x, shallow, liftAll), b, shallow, liftAll)
  }

  function IncludeAll(c: Counts, es: Exprs, shallow: map<Expr, nat>, liftAll: bool): (r: Counts)
    ensures |r.uses| == |c.uses|
    decreases es
  {
    match es
    case Nil => c
    case Cons(e, rest) => IncludeAll(Include(c, e, shallow, liftAll), rest, shallow, liftAll)
  }

  // ----- replacing -----

  type Names = nat -> Name

  /** What an expression is rewritten to when every object of `lets` has become the variable of its
      position: outermost occurrences first. */
  function Repl(e: Expr, lets: seq<Expr>, nm: Names): Expr
    decreases e, 1
  {
    if e in lets then Var(nm(Index(lets, e))) else ReplBody(e, lets, nm)
  }

  function ReplBody(e: Expr, lets: seq<Expr>, nm: Names): Expr
    decreases e, 0
  {
    match e
    case Imm(_) => e
    case Var(_) => e
    case Node(t, op, ks) => Node(t, op, ReplAll(ks, lets, nm))
    case Let(t, v, x, b) => Let(t, v, Repl(x, lets, nm), Repl(b, lets, nm))
  }

  function ReplAll(es: Exprs, lets: seq<Expr>, nm: Names): Exprs {
    match es
    case Nil => Nil
    case Cons(e, rest) => Cons(Repl(e, lets, nm), ReplAll(rest, lets, nm))
  }

  function Index(lets: seq<Expr>, e: Expr): nat
    requires e in lets
  {
    if lets[|lets| - 1] == e then |lets| - 1 else Index(lets[..|lets| - 1], e)
  }

  lemma {:induction false} IndexAt(lets: seq<Expr>, e: Expr)
    requires e in lets
    ensures Index(lets, e) < |lets| && lets[Index(lets, e)] == e
    decreases |lets|
  {
    if lets[|lets| - 1] != e {
      IndexAt(lets[..|lets| - 1], e);
    }
  }

  /** Replacer::mutate: `memo` holds the variables of the lets and everything rewritten so far. */
  function Replace(memo: map<Expr, Expr>, e: Expr): (map<Expr, Expr>, Expr)
    decreases e, 1
  {
    if e in memo then (memo, memo[e])
    else
      var (memo1, e1) := ReplaceKids(memo, e);
      (memo1[e := e1], e1)
  }

  function ReplaceKids(memo: map<Expr, Expr>, e: Expr): (map<Expr, Expr>, Expr)
    decreases e, 0
  {
    match e
    case Imm(_) => (memo, e)
    case Var(_) => (memo, e)
    case Node(t, op, ks) =>
      var (memo1, ks1) := ReplaceAll(memo, ks);
      (memo1, Node(t, op, ks1))
    case Let(t, v, x, b) =>
      var (memo1, x1) := Replace(memo, x);
      var (memo2, b1) := Replace(memo1, b);
      (memo2, Let(t, v, x1, b1))
  }

  function ReplaceAll(memo: map<Expr, Expr>, es: Exprs): (map<Expr, Expr>, Exprs)
    decreases es
  {
    match es
    case Nil => (memo, Nil)
    case Cons(e, rest) =>
      var (memo1, e1) := Replace(memo, e);
      var (memo2, rest1) := ReplaceAll(memo1, rest);
      (memo2, Cons(e1, rest1))
  }

  /** Every let inside an expression, other than the expression itself, is one of `live`. */
  predicate Inside(e: Expr, lets: seq<Expr>, live: set<Expr>)
    decreases e, 0
  {
    match e
    case Imm(_) => true
    case Var(_) => true
    case Node(_, _, ks) => InsideAll(ks, lets, live)
    case Let(_, _, x, b) => Deep(x, lets, live) && Deep(b, lets, live)
  }

  predicate Deep(e: Expr, lets: seq<Expr>, live: set<Expr>)
    decreases e, 1
  {
    (e in lets ==> e in live) && Inside(e, lets, live)
  }

  predicate InsideAll(es: Exprs, lets: seq<Expr>, live: set<Expr>) {
    es.Cons? ==> Deep(es.hd, lets, live) && InsideAll(es.tl, lets, live)
  }

  /** The memo agrees with replacing: live lets are their variables, everything else is rebuilt. */
  ghost predicate MemoOk(memo: map<Expr, Expr>, lets: seq<Expr>, nm: Names, live: set<Expr>) {
    && (forall e | e in live :: e in lets && e in memo && memo[e] == Var(nm(Index(lets, e))))
    && (forall e | e in memo && e !in live :: memo[e] == ReplBody(e, lets, nm))
  }

  /** With an agreeing memo the replacer computes the replacement. */
  lemma {:induction false} ReplaceIsRepl(memo: map<Expr, Expr>, e: Expr, lets: seq<Expr>, nm: Names, live: set<Expr>)
    requires MemoOk(memo, lets, nm, live) && Inside(e, lets, live)
    ensures var (memo', r) := Replace(memo, e);
            && MemoOk(memo', lets, nm, live)
            && r == if e in live then Var(nm(Index(lets, e))) else ReplBody(e, lets, nm)
    decreases e, 1
  {
    if e !in memo {
      ReplaceKidsIsRepl(memo, e, lets, nm, live);
    }
  }

  lemma {:induction false} ReplaceKidsIsRepl(memo: map<Expr, Expr>, e: Expr, lets: seq<Expr>, nm: Names,
                                             live: set<Expr>)
    requires MemoOk(memo, lets, nm, live) && Inside(e, lets, live)
    ensures var (memo', r) := ReplaceKids(memo, e);
            MemoOk(memo', lets, nm, live) && r == ReplBody(e, lets, nm)
    decreases e, 0
  {
    match e
    case Imm(_) =>
    case Var(_) =>
    case Node(t, op, ks) => ReplaceAllIsRepl(memo, ks, lets, nm, live);
    case Let(t, v, x, b) =>
      ReplaceIsRepl(memo, x, lets, nm, live);
      ReplaceIsRepl(Replace(memo, x).0, b, lets, nm, live);
  }

  lemma {:induction false} ReplaceAllIsRepl(memo: map<Expr, Expr>, es: Exprs, lets: seq<Expr>, nm: Names,
                                            live: set<Expr>)
    requires MemoOk(memo, lets, nm, live) && InsideAll(es, lets, live)
    ensures var (memo', rs) := ReplaceAll(memo, es);
            MemoOk(memo', lets, nm, live) && rs == ReplAll(es, lets, nm)
    decreases es
  {
    if es.Cons? {
      ReplaceIsRepl(memo, es.hd, lets, nm, live);
      ReplaceAllIsRepl(Replace(memo, es.hd).0, es.tl, lets, nm, live);
    }
  }

  // ----- picking the lets, wrapping the result -----

  /** The entries used more than once, in order. */
  function Pick(entries: seq<Expr>, uses: seq<nat>): seq<Expr>
    requires |entries| == |uses|
  {
    if entries == [] then []
    else
      var n := |entries| - 1;
      Pick(entries[..n], uses[..n]) + if uses[n] > 1 then [entries[n]] else []
  }

  function Variables(lets: seq<Expr>, nm: Names): map<Expr, Expr> {
    if lets == [] then map[]
    else Variables(lets[..|lets| - 1], nm)[lets[|lets| - 1] := Var(nm(|lets| - 1))]
  }

  /** `body` under the first `n` lets, the first one outermost. */
  function Wrap(lets: seq<Expr>, n: nat, nm: Names, body: Expr): Expr
    requires n <= |lets|
    decreases n
  {
    if n == 0 then body
    else Wrap(lets, n - 1, nm, Let(0, nm(n - 1), ReplBody(lets[n - 1], lets, nm), body))
  }

  /** The parts of the result: the canonical form, and the lets in entry order. */
  function Canonical(e: Expr): (State, Expr) {
    Mutate(Begin(e), e)
  }

  function CountAll(g: State, r: Expr, liftAll: bool): (c: Counts)
    ensures |c.uses| == |g.entries|
  {
    Include(Counts([], seq(|g.entries|, i => 0)), r, g.shallow, liftAll)
  }

  function CountUses(e: Expr, liftAll: bool): (r: seq<nat>)
    ensures |r| == |Canonical(e).0.entries|
  {
    var (g, r) := Canonical(e);
    CountAll(g, r, liftAll).uses
  }

  function ChosenLets(e: Expr, liftAll: bool): seq<Expr> {
    Pick(Canonical(e).0.entries, CountUses(e, liftAll))
  }

  /** What common_subexpression_elimination returns. */
  function Eliminate(e: Expr, liftAll: bool, nm: Names): Expr {
    if IsConst(e) || e.Var? then e
    else
      var lets := ChosenLets(e, liftAll);
      Wrap(lets, |lets|, nm, Repl(Canonical(e).1, lets, nm))
  }

  // ----- lets in order -----

  predicate Distinct(es: seq<Expr>) {
    forall i, j | 0 <= i < j < |es| :: es[i] != es[j]
  }

  /** Inside a let there are only earlier lets. */
  predicate LetsOrdered(lets: seq<Expr>) {
    && Distinct(lets)
    && forall k | 0 <= k < |lets| :: Inside(lets[k], lets, (set e | e in lets[..k]))
  }

  lemma {:induction false} IndexDistinct(lets: seq<Expr>, k: nat)
    requires Distinct(lets) && k < |lets|
    ensures Index(lets, lets[k]) == k
    decreases |lets|
  {
    if k < |lets| - 1 {
      assert lets[..|lets| - 1][k] == lets[k];
      IndexDistinct(lets[..|lets| - 1], k);
    }
  }

  lemma {:induction false} PickedFrom(entries: seq<Expr>, uses: seq<nat>)
    requires |entries| == |uses| && Distinct(entries)
    ensures forall e | e in Pick(entries, uses) :: e in entries
    ensures forall i | 0 <= i < |entries| :: entries[i] in Pick(entries, uses) <==> uses[i] > 1
    ensures Distinct(Pick(entries, uses))
    decreases |entries|
  {
    if entries != [] {
      var n := |entries| - 1;
      var init, iuses := entries[..n], uses[..n];
      PickedFrom(init, iuses);
      var lets := Pick(entries, uses);
      assert entries[n] !in init;
      forall i | 0 <= i < |entries| ensures entries[i] in lets <==> uses[i] > 1 {
        if i < n {
          assert entries[i] == init[i] && uses[i] == iuses[i];
        }
      }
    }
  }

  /** In an ordered list of entries everything inside an entry is an earlier entry. */
  lemma {:induction false} InsideEarlier(es: Exprs, entries: seq<Expr>, n: nat, lets: seq<Expr>)
    requires n <= |entries| && Ordered(entries) && KidsAmong(es, entries[..n])
    requires forall i | 0 <= i < |entries| :: !entries[i].Let?
    ensures InsideAll(es, lets, (set e | e in lets && e in entries[..n]))
    decreases es, n
  {
    if es.Cons? {
      InsideEarlier(es.tl, entries, n, lets);
      var k :| 0 <= k < n && entries[k] == es.hd;
      if es.hd.Node? {
        KidsAmongMore(es.hd.kids, entries[..k], entries[..n]);
        InsideEarlier(es.hd.kids, entries, n, lets);
      }
    }
  }

  lemma {:induction false} PickPrefix(entries: seq<Expr>, uses: seq<nat>, k: nat) returns (n: nat)
    requires |entries| == |uses| && k < |Pick(entries, uses)|
    ensures n < |entries| && entries[n] == Pick(entries, uses)[k]
    ensures Pick(entries[..n], uses[..n]) == Pick(entries, uses)[..k]
    decreases |entries|
  {
    var m := |entries| - 1;
    var init, iuses := entries[..m], uses[..m];
    if k < |Pick(init, iuses)| {
      n := PickPrefix(init, iuses, k);
      assert init[..n] == entries[..n] && iuses[..n] == uses[..n];
    } else {
      n := m;
    }
  }

  /** The picked lets are ordered because the entries are. */
  lemma PickOrdered(g: State, uses: seq<nat>)
    requires Shaped(g) && |uses| == |g.entries|
    ensures LetsOrdered(Pick(g.entries, uses))
  {
    var lets := Pick(g.entries, uses);
    EntriesDistinct(g);
    EntriesLetFree(g);
    PickedFrom(g.entries, uses);
    forall k | 0 <= k < |lets| ensures Inside(lets[k], lets, (set e | e in lets[..k])) {
      PickedInside(g.entries, uses, lets, k);
    }
  }

  lemma EntriesLetFree(g: State)
    requires Shaped(g)
    ensures forall i | 0 <= i < |g.entries| :: !g.entries[i].Let?
  {
    forall i | 0 <= i < |g.entries| ensures !g.entries[i].Let? {
      assert Closed(g.entries[i], {});
    }
  }

  lemma PickedInside(entries: seq<Expr>, uses: seq<nat>, lets: seq<Expr>, k: nat)
    requires |entries| == |uses| && Distinct(entries) && Ordered(entries)
    requires forall i | 0 <= i < |entries| :: !entries[i].Let?
    requires lets == Pick(entries, uses) && k < |lets|
    ensures Inside(lets[k], lets, (set e | e in lets[..k]))
  {
    var n := PickPrefix(entries, uses, k);
    if lets[k].Node? {
      InsideEarlier(lets[k].kids, entries, n, lets);
      var before, earlier := (set e | e in lets && e in entries[..n]), (set e | e in lets[..k]);
      EarlierPicked(entries, uses, n);
      forall e | e in before ensures e in earlier {
        assert e in Pick(entries[..n], uses[..n]);
      }
      InsideMore(lets[k].kids, lets, before, earlier);
    }
  }

  lemma EarlierPicked(entries: seq<Expr>, uses: seq<nat>, n: nat)
    requires |entries| == |uses| && Distinct(entries) && n <= |entries|
    ensures forall e | e in Pick(entries, uses) && e in entries[..n] :: e in Pick(entries[..n], uses[..n])
  {
    PickedFrom(entries, uses);
    PickedFrom(entries[..n], uses[..n]);
    forall e | e in Pick(entries, uses) && e in entries[..n] ensures e in Pick(entries[..n], uses[..n]) {
      var i :| 0 <= i < n && entries[..n][i] == e;
      assert entries[i] == e && uses[..n][i] == uses[i];
    }
  }

  lemma EntriesDistinct(g: State)
    requires Shaped(g)
    ensures Distinct(g.entries)
  {
    forall i, j | 0 <= i < j < |g.entries| ensures g.entries[i] != g.entries[j] {
      assert g.shallow[g.entries[i]] == i && g.shallow[g.entries[j]] == j;
    }
  }

  lemma {:induction false} InsideMore(es: Exprs, lets: seq<Expr>, live: set<Expr>, live': set<Expr>)
    requires InsideAll(es, lets, live) && live <= live'
    ensures InsideAll(es, lets, live')
    decreases es
  {
    if es.Cons? {
      InsideMore(es.tl, lets, live, live');
      InsideMore1(es.hd, lets, live, live');
    }
  }

  lemma {:induction false} InsideMore1(e: Expr, lets: seq<Expr>, live: set<Expr>, live': set<Expr>)
    requires Inside(e, lets, live) && live <= live'
    ensures Inside(e, lets, live')
    decreases e
  {
    match e
    case Imm(_) =>
    case Var(_) =>
    case Node(_, _, ks) => InsideMore(ks, lets, live, live');
    case Let(_, _, x, b) => InsideMore1(x, lets, live, live'); InsideMore1(b, lets, live, live');
  }

  // ----- meaning -----

  /** The environment in which the first `n` lets are bound. */
  function LetEnv(lets: seq<Expr>, n: nat, nm: Names, env: Env, I: Meaning): Env
    requires n <= |lets|
  {
    if n == 0 then env else LetEnv(lets, n - 1, nm, env, I)[nm(n - 1) := Eval(lets[n - 1], env, I)]
  }

  /** The contract of unique_name: names that nothing else uses, and never twice. */
  ghost predicate FreshNames(nm: Names, used: set<Name>) {
    && (forall i: nat :: nm(i) !in used)
    && (forall i: nat, j: nat | nm(i) == nm(j) :: i == j)
  }

  lemma {:induction false} LetEnvBinds(lets: seq<Expr>, n: nat, nm: Names, env: Env, I: Meaning, used: set<Name>)
    requires n <= |lets| && FreshNames(nm, used)
    ensures forall k: nat | k < n :: nm(k) in LetEnv(lets, n, nm, env, I)
                                     && LetEnv(lets, n, nm, env, I)[nm(k)] == Eval(lets[k], env, I)
    ensures forall v | v in used :: (v in LetEnv(lets, n, nm, env, I) <==> v in env)
                                    && (v in env ==> LetEnv(lets, n, nm, env, I)[v] == env[v])
    decreases n
  {
    if n > 0 {
      LetEnvBinds(lets, n - 1, nm, env, I, used);
    }
  }

  /** A rewritten expression, where the lets inside it are bound, means what it meant. */
  lemma {:induction false} ReplMeans(e: Expr, lets: seq<Expr>, n: nat, nm: Names, env: Env, I: Meaning,
                                     names: set<Name>)
    requires LetsOrdered(lets) && n <= |lets| && FreshNames(nm, FreeVars(e))
    requires Closed(e, names) && Inside(e, lets, (set x | x in lets[..n]))
    ensures Eval(ReplBody(e, lets, nm), LetEnv(lets, n, nm, env, I), I) == Eval(e, env, I)
    ensures e in lets[..n] ==> Eval(Repl(e, lets, nm), LetEnv(lets, n, nm, env, I), I) == Eval(e, env, I)
    decreases e
  {
    LetEnvBinds(lets, n, nm, env, I, FreeVars(e));
    if e in lets[..n] {
      var k :| 0 <= k < n && lets[k] == e;
      IndexDistinct(lets, k);
    }
    match e
    case Imm(_) =>
    case Var(_) =>
    case Node(_, op, ks) => ReplMeansAll(ks, lets, n, nm, env, I, names);
  }

  lemma {:induction false} ReplMeansAll(es: Exprs, lets: seq<Expr>, n: nat, nm: Names, env: Env, I: Meaning,
                                        names: set<Name>)
    requires LetsOrdered(lets) && n <= |lets| && FreshNames(nm, FreeVarsAll(es))
    requires ClosedAll(es, names) && InsideAll(es, lets, (set x | x in lets[..n]))
    ensures EvalAll(ReplAll(es, lets, nm), LetEnv(lets, n, nm, env, I), I) == EvalAll(es, env, I)
    decreases es
  {
    if es.Cons? {
      ReplMeans(es.hd, lets, n, nm, env, I, names);
      ReplMeansAll(es.tl, lets, n, nm, env, I, names);
    }
  }

  /** Going under the lets one by one ends in the environment that binds them all. */
  lemma {:induction false} WrapMeans(lets: seq<Expr>, n: nat, nm: Names, body: Expr, env: Env, I: Meaning,
                                     names: set<Name>, used: set<Name>)
    requires LetsOrdered(lets) && n <= |lets| && FreshNames(nm, used)
    requires forall k | 0 <= k < |lets| :: Closed(lets[k], names) && FreeVars(lets[k]) <= used
    ensures Eval(Wrap(lets, n, nm, body), env, I) == Eval(body, LetEnv(lets, n, nm, env, I), I)
    decreases n
  {
    if n > 0 {
      var value := ReplBody(lets[n - 1], lets, nm);
      WrapMeans(lets, n - 1, nm, Let(0, nm(n - 1), value, body), env, I, names, used);
      ReplMeans(lets[n - 1], lets, n - 1, nm, env, I, names);
    }
  }

  // ----- names in the numbering -----

  /** All variables that occur in an expression, bound or free. */
  function Occurring(e: Expr): set<Name> {
    match e
    case Imm(_) => {}
    case Var(v) => {v}
    case Node(_, _, ks) => OccurringAll(ks)
    case Let(_, _, x, b) => Occurring(x) + Occurring(b)
  }

  function OccurringAll(es: Exprs): set<Name> {
    match es
    case Nil => {}
    case Cons(e, rest) => Occurring(e) + OccurringAll(rest)
  }

  predicate EntryVars(g: State, used: set<Name>) {
    forall i | 0 <= i < |g.entries| :: FreeVars(g.entries[i]) <= used
  }

  lemma {:induction false} MutateVars(g: State, e: Expr, used: set<Name>)
    requires Valid(g) && EntryVars(g, used) && Occurring(e) <= used
    ensures EntryVars(Mutate(g, e).0, used)
    decreases e, 1
  {
    if e in g.shallow || (e.Var? && InScope(g.lets, e.name)) || Strip(e) in g.numbering {
    } else {
      RebuildVars(g, e, used);
    }
  }

  lemma {:induction false} RebuildVars(g: State, e: Expr, used: set<Name>)
    requires Valid(g) && EntryVars(g, used) && Occurring(e) <= used
    ensures EntryVars(Rebuild(g, e).0, used) && FreeVars(Rebuild(g, e).1) <= used
    decreases e, 0
  {
    match e
    case Imm(_) =>
    case Var(_) =>
    case Node(_, _, ks) => MutateAllVars(g, ks, used);
    case Let(_, v, x, b) =>
      MutateVars(g, x, used);
      var g1 := Mutate(g, x).0;
      MutateVars(g1.(lets := g1.lets + [(v, g1.number)]), b, used);
  }

  lemma {:induction false} MutateAllVars(g: State, es: Exprs, used: set<Name>)
    requires Valid(g) && EntryVars(g, used) && OccurringAll(es) <= used
    ensures EntryVars(MutateAll(g, es).0, used) && FreeVarsAll(MutateAll(g, es).1) <= used
    decreases es
  {
    if es.Cons? {
      MutateVars(g, es.hd, used);
      MutateAllVars(Mutate(g, es.hd).0, es.tl, used);
    }
  }

  // ----- the theorems -----

  lemma {:induction false} InsideWhole(e: Expr, lets: seq<Expr>)
    ensures Inside(e, lets, (set x | x in lets))
  {
    match e
    case Imm(_) =>
    case Var(_) =>
    case Node(_, _, ks) => InsideWholeAll(ks, lets);
    case Let(_, _, x, b) => InsideWhole(x, lets); InsideWhole(b, lets);
  }

  lemma {:induction false} InsideWholeAll(es: Exprs, lets: seq<Expr>)
    ensures InsideAll(es, lets, (set x | x in lets))
  {
    if es.Cons? {
      InsideWhole(es.hd, lets);
      InsideWholeAll(es.tl, lets);
    }
  }

  /** Whatever the input, the chosen lets are in order and let-free. */
  lemma ChosenOrdered(e: Expr, liftAll: bool)
    ensures Shaped(Canonical(e).0) && LetsOrdered(ChosenLets(e, liftAll))
    ensures forall k | 0 <= k < |ChosenLets(e, liftAll)| ::
              ChosenLets(e, liftAll)[k] in Canonical(e).0.entries && Closed(ChosenLets(e, liftAll)[k], {})
              && FreeVars(ChosenLets(e, liftAll)[k]) <= Occurring(e)
    ensures Canonical(e).1 in Canonical(e).0.entries
    ensures Closed(Canonical(e).1, {}) && FreeVars(Canonical(e).1) <= Occurring(e)
  {
    MutateShaped(Begin(e), e, TagBound(e));
    MutateVars(Begin(e), e, Occurring(e));
    var (g, uses) := (Canonical(e).0, CountUses(e, liftAll));
    PickOrdered(g, uses);
    EntriesDistinct(g);
    PickedFrom(g.entries, uses);
    var lets := ChosenLets(e, liftAll);
    forall k | 0 <= k < |lets|
      ensures lets[k] in g.entries && Closed(lets[k], {}) && FreeVars(lets[k]) <= Occurring(e)
    {
      assert lets[k] in g.entries;
    }
  }

  /** Whatever the input, picking lets and wrapping them keeps the meaning of the canonical form. */
  lemma LettingMeans(e: Expr, liftAll: bool, nm: Names, env: Env, I: Meaning)
    requires !IsConst(e) && !e.Var? && FreshNames(nm, Occurring(e))
    ensures Eval(Eliminate(e, liftAll, nm), env, I) == Eval(Canonical(e).1, env, I)
  {
    ChosenOrdered(e, liftAll);
    LetsMean(Canonical(e).1, ChosenLets(e, liftAll), nm, env, I, {}, Occurring(e));
  }

  /** common_subexpression_elimination preserves meaning: whatever the operators and functions compute,
      the result has the value of the input in every environment, if no let name is free and no object
      that depends on lets occurs under two bindings that tell it apart. */
  lemma EliminateMeans(e: Expr, liftAll: bool, nm: Names, env: Env, I: Meaning)
    requires Distinguishable(e) && FreshNames(nm, Occurring(e))
    ensures Eval(Eliminate(e, liftAll, nm), env, I) == Eval(e, env, I)
  {
    DistinguishableIsCoherent(e);
    CoherentMeans(e, ReadingOf(e), liftAll, nm, env, I);
  }

  lemma CoherentMeans(e: Expr, K: Reading, liftAll: bool, nm: Names, env: Env, I: Meaning)
    requires Coherent(e, K, map[]) && Honest(K) && FreshNames(nm, Occurring(e))
    ensures Eval(Eliminate(e, liftAll, nm), env, I) == Eval(e, env, I)
  {
    if !(IsConst(e) || e.Var?) {
      CanonicalMeans(e, K, env, I);
      LettingMeans(e, liftAll, nm, env, I);
    }
  }

  lemma LetsMean(r: Expr, lets: seq<Expr>, nm: Names, env: Env, I: Meaning, names: set<Name>, used: set<Name>)
    requires LetsOrdered(lets) && FreshNames(nm, used)
    requires forall k | 0 <= k < |lets| :: Closed(lets[k], names) && FreeVars(lets[k]) <= used
    requires Closed(r, names) && FreeVars(r) <= used
    ensures Eval(Wrap(lets, |lets|, nm, Repl(r, lets, nm)), env, I) == Eval(r, env, I)
  {
    WrapMeans(lets, |lets|, nm, Repl(r, lets, nm), env, I, names, used);
    InsideWhole(r, lets);
    assert lets[..|lets|] == lets;
    ReplMeans(r, lets, |lets|, nm, env, I, names);
  }

  /** In particular when let names are unique. */
  lemma EliminateMeansUnique(e: Expr, liftAll: bool, nm: Names, env: Env, I: Meaning)
    requires UniqueNames(e) && FreshNames(nm, Occurring(e))
    ensures Eval(Eliminate(e, liftAll, nm), env, I) == Eval(e, env, I)
  {
    UniqueIsCoherent(e);
    CoherentMeans(e, TableReading(LetTable(e, map[])), liftAll, nm, env, I);
  }

  /** The names of the first `k` lets. */
  predicate EarlierName(nm: Names, k: nat, v: Name) {
    exists j: nat :: j < k && nm(j) == v
  }

  lemma {:induction false} ReplVars(e: Expr, lets: seq<Expr>, k: nat, nm: Names, names: set<Name>)
    requires LetsOrdered(lets) && k <= |lets| && Closed(e, names) && Inside(e, lets, (set x | x in lets[..k]))
    ensures forall v | v in FreeVars(ReplBody(e, lets, nm)) :: v in FreeVars(e) || EarlierName(nm, k, v)
    ensures e in lets[..k] ==> forall v | v in FreeVars(Repl(e, lets, nm)) :: EarlierName(nm, k, v)
    decreases e
  {
    if e in lets[..k] {
      var j :| 0 <= j < k && lets[j] == e;
      IndexDistinct(lets, j);
      assert EarlierName(nm, k, nm(j));
    }
    match e
    case Imm(_) =>
    case Var(_) =>
    case Node(_, _, ks) => ReplVarsAll(ks, lets, k, nm, names);
  }

  lemma {:induction false} ReplVarsAll(es: Exprs, lets: seq<Expr>, k: nat, nm: Names, names: set<Name>)
    requires LetsOrdered(lets) && k <= |lets| && ClosedAll(es, names) && InsideAll(es, lets, (set x | x in lets[..k]))
    ensures forall v | v in FreeVarsAll(ReplAll(es, lets, nm)) :: v in FreeVarsAll(es) || EarlierName(nm, k, v)
    decreases es
  {
    if es.Cons? {
      ReplVars(es.hd, lets, k, nm, names);
      ReplVarsAll(es.tl, lets, k, nm, names);
    }
  }

  /** The result is a chain of lets around a body, and the value of each let mentions, besides the
      variables of the input, only lets introduced before it. */
  lemma LetsReferBackwards(e: Expr, liftAll: bool, nm: Names)
    requires !IsConst(e) && !e.Var?
    ensures var lets, r := ChosenLets(e, liftAll), Canonical(e).1;
            && Eliminate(e, liftAll, nm) == Wrap(lets, |lets|, nm, Repl(r, lets, nm))
            && forall k, v | 0 <= k < |lets| && v in FreeVars(ReplBody(lets[k], lets, nm)) ::
                 v in Occurring(e) || EarlierName(nm, k, v)
  {
    var lets := ChosenLets(e, liftAll);
    ChosenOrdered(e, liftAll);
    forall k, v | 0 <= k < |lets| && v in FreeVars(ReplBody(lets[k], lets, nm))
      ensures v in Occurring(e) || EarlierName(nm, k, v)
    {
      ReplVars(lets[k], lets, k, nm, {});
    }
  }

  // ----- a name both free and bound -----

  /** f(y, let x = 2 in y), where y = g(x) is one object: the first y means the x outside. */
  ghost predicate Captured(e: Expr, y: Expr, inner: Expr) {
    && y.Node? && y.op == Call("g", Pure) && y.kids == Cons(Var(Plain("x")), Nil)
    && inner.Let? && inner.name == Plain("x") && inner.value == Imm(2) && inner.body == y
    && e.Node? && e.op == Call("f", Pure) && e.kids == Cons(y, Cons(inner, Nil))
  }

  lemma NewLeaf(g: State, e: Expr)
    requires Valid(g) && (e.Var? || e.Imm?) && e !in g.shallow && Strip(e) !in g.numbering && g.lets == []
    ensures Mutate(g, e) == (AddEntry(g, e), e)
  {
  }

  /** A call on a variable, met for the first time. */
  lemma NewCall(g: State, y: Expr, x: Expr)
    requires y.Node? && x.Var? && y.kids == Cons(x, Nil) && y !in g.shallow && Strip(y) !in g.numbering
    requires Valid(g) && x !in g.shallow && x !in g.numbering && g.lets == []
    ensures Mutate(g, y) == (AddEntry(AddEntry(g, x), y), y)
  {
    NewLeaf(g, x);
    var g1 := AddEntry(g, x);
    assert MutateAll(g1, Nil) == (g1, Nil);
    assert MutateAll(g, y.kids) == (g1, y.kids);
    assert Rebuild(g, y) == (g1, y);
    StripCall(y, x);
  }

  /** The numbering finds the y under the let by its address, and answers with the y outside. */
  lemma InnerIsLost(g: State, y: Expr, inner: Expr)
    requires Valid(g) && y.Node? && y in g.shallow && g.entries[g.shallow[y]] == y && g.lets == []
    requires inner.Let? && inner.value == Imm(2) && inner.body == y && Imm(2) !in g.shallow && Imm(2) !in g.numbering
    requires inner !in g.shallow && Strip(inner) !in g.numbering && Strip(y) in g.numbering
    requires g.entries[g.numbering[Strip(y)]] == y
    ensures Mutate(g, inner).1 == y
    ensures Mutate(g, inner).0.numbering.Keys == g.numbering.Keys + {Imm(2)}
  {
    hide Mutate, Rebuild, Strip, InScope, Number;
    StripImm(2);
    NewLeaf(g, Imm(2));
    var g1 := AddEntry(g, Imm(2));
    var g2 := g1.(lets := g1.lets + [(inner.name, g1.number)]);
    MutateSteps(g, inner);
    LetSteps(g, inner);
    MutateSteps(g2, y);
    assert Mutate(g2, y) == (g2.(number := g.shallow[y]), y);
  }

  lemma StripImm(n: int)
    ensures Strip(Imm(n)) == Imm(n)
  {
  }

  /** A call on two arguments of which one at least comes back changed. */
  lemma CallOfTwo(g: State, g1: State, g2: State, e: Expr, x: Expr, y: Expr, x': Expr, y': Expr, r: Expr)
    requires Valid(g) && Valid(g1) && e.Node? && e.kids == Cons(x, Cons(y, Nil)) && (x' != x || y' != y)
    requires e !in g.shallow && Strip(e) !in g.numbering
    requires Mutate(g, x) == (g1, x') && Mutate(g1, y) == (g2, y')
    requires r == Node(g2.nextTag, e.op, Cons(x', Cons(y', Nil))) && Strip(r) !in g2.numbering
    ensures Mutate(g, e).1 == r
  {
    hide *;
    TwoKids(g, g1, g2, x, y, x', y');
    NewNode(g, e, g2, r);
  }

  lemma TwoKids(g: State, g1: State, g2: State, x: Expr, y: Expr, x': Expr, y': Expr)
    requires Valid(g) && Valid(g1) && Mutate(g, x) == (g1, x') && Mutate(g1, y) == (g2, y')
    ensures MutateAll(g, Cons(x, Cons(y, Nil))) == (g2, Cons(x', Cons(y', Nil)))
  {
    hide Mutate;
    assert MutateAll(g2, Nil) == (g2, Nil);
    assert MutateAll(g1, Cons(y, Nil)) == (g2, Cons(y', Nil));
  }

  lemma NewNode(g: State, e: Expr, g2: State, r: Expr)
    requires Valid(g) && e.Node? && r.Node? && MutateAll(g, e.kids) == (g2, r.kids) && r.kids != e.kids
    requires e !in g.shallow && Strip(e) !in g.numbering
    requires r == Node(g2.nextTag, e.op, r.kids) && Strip(r) !in g2.numbering
    ensures Mutate(g, e).1 == r
  {
    MutateSteps(g, e);
    assert Rebuild(g, e) == (g2.(nextTag := g2.nextTag + 1), r);
    hide *;
  }

  lemma StripCall(y: Expr, x: Expr)
    requires y.Node? && x.Var? && y.kids == Cons(x, Nil)
    ensures Strip(y) == Node(0, y.op, Cons(x, Nil))
  {
    var none: Exprs := Nil;
    assert StripAll(none) == none;
    assert StripAll(y.kids) == Cons(Strip(x), none);
  }

  lemma EmptyIsValid(g: State)
    requires g == State([], map[], map[], [], 0, g.nextTag)
    ensures Valid(g)
  {
  }

  lemma StripLet(e: Expr)
    requires e.Let?
    ensures Strip(e).Let?
  {
  }

  lemma StripBoth(r: Expr, y: Expr, z: Expr)
    requires r.Node? && r.kids == Cons(y, Cons(z, Nil))
    ensures Strip(r) == Node(0, r.op, Cons(Strip(y), Cons(Strip(z), Nil)))
  {
    var none: Exprs := Nil;
    assert StripAll(none) == none;
    assert StripAll(Cons(z, none)) == Cons(Strip(z), none);
  }

  /** After y = g(x) is numbered both numberings hold x and y only. */
  lemma AfterCall(g: State, y: Expr, x: Expr) returns (g1: State)
    requires g == State([], map[], map[], [], 0, g.nextTag)
    requires y.Node? && x.Var? && y.kids == Cons(x, Nil)
    ensures Valid(g1) && Mutate(g, y) == (g1, y) && g1.lets == []
    ensures g1.numbering.Keys == {x, Strip(y)} && g1.shallow.Keys == {x, y}
    ensures g1.entries[g1.shallow[y]] == y && g1.entries[g1.numbering[Strip(y)]] == y
    ensures Strip(y) == Node(0, y.op, Cons(x, Nil))
  {
    NewCall(g, y, x);
    StripCall(y, x);
    g1 := AddEntry(AddEntry(g, x), y);
  }

  lemma CapturedIsLost(g: State, e: Expr, y: Expr, inner: Expr, x: Expr) returns (tag: nat)
    requires g == State([], map[], map[], [], 0, g.nextTag)
    requires y.Node? && x.Var? && y.kids == Cons(x, Nil)
    requires inner.Let? && inner.value == Imm(2) && inner.body == y
    requires e.Node? && e.kids == Cons(y, Cons(inner, Nil)) && e.op != y.op
    ensures Mutate(g, e).1 == Node(tag, e.op, Cons(y, Cons(y, Nil)))
  {
    hide *;
    EmptyIsValid(g);
    var g1 := AfterCall(g, y, x);
    StripLet(inner);
    InnerIsLost(g1, y, inner);
    var g2 := Mutate(g1, inner).0;
    tag := g2.nextTag;
    var r := Node(tag, e.op, Cons(y, Cons(y, Nil)));
    StripBoth(r, y, y);
    CallOfTwo(g, g1, g2, e, y, inner, y, y, r);
  }

  lemma CapturedDiffers(r: Expr, e: Expr, y: Expr, inner: Expr, env: Env, env': Env, I: Meaning)
    requires e.Node? && e.kids == Cons(y, Cons(inner, Nil)) && r.Node? && r.kids == Cons(y, Cons(y, Nil))
    requires inner.Let? && inner.name == Plain("x") && inner.value == Imm(2) && inner.body == y
    requires y.Node? && y.kids == Cons(Var(Plain("x")), Nil)
    requires Plain("x") in env && env[Plain("x")] == 5 && env' == env[Plain("x") := 2]
    requires forall op: Op, args: seq<int> :: I(op, args) == if args == [] then 0 else args[|args| - 1]
    ensures Eval(r, env, I) == 5 && Eval(e, env, I) == 2
  {
    var none: Exprs := Nil;
    assert EvalAll(none, env, I) == [] && EvalAll(none, env', I) == [];
    assert EvalAll(y.kids, env, I) == [5] && EvalAll(y.kids, env', I) == [2];
    assert EvalAll(Cons(y, none), env, I) == [5];
    assert EvalAll(r.kids, env, I) == [5, 5];
    assert Eval(inner, env, I) == Eval(y, env', I);
    assert EvalAll(Cons(inner, none), env, I) == [2];
    assert EvalAll(e.kids, env, I) == [5, 2];
  }

  lemma CapturedNames(e: Expr, y: Expr, inner: Expr, x: Expr)
    requires y.Node? && x.Var? && y.kids == Cons(x, Nil)
    requires inner.Let? && inner.value == Imm(2) && inner.body == y && inner.name == x.name
    requires e.Node? && e.kids == Cons(y, Cons(inner, Nil))
    ensures LetNames(e) == {x.name} && x.name in FreeVars(e)
  {
    var none: Exprs := Nil;
    assert LetNamesAll(none) == {} && FreeVarsAll(none) == {};
    assert LetNamesAll(y.kids) == LetNames(x) + LetNamesAll(none);
    assert FreeVarsAll(y.kids) == FreeVars(x) + FreeVarsAll(none);
    assert FreeVars(y) == {x.name} && LetNames(inner) == {x.name};
    assert LetNamesAll(Cons(inner, none)) == {x.name};
  }

  /** When a let name is also free in the input, the result can mean something else: the numberings tell
      expressions apart by address and by text, but not by the lets around them. */
  lemma CapturedNamesConfuse(e: Expr, y: Expr, inner: Expr, liftAll: bool, nm: Names)
    requires Captured(e, y, inner) && FreshNames(nm, Occurring(e))
    ensures LetNames(e) == {Plain("x")} && Plain("x") in FreeVars(e)
    ensures exists env: Env, I: Meaning :: Eval(Eliminate(e, liftAll, nm), env, I) != Eval(e, env, I)
  {
    var x := Var(Plain("x"));
    CapturedNames(e, y, inner, x);
    var tag := CapturedIsLost(Begin(e), e, y, inner, x);
    hide Mutate, Eliminate, Eval, Occurring, FreeVars, LetNames, FreshNames;
    var env: Env, I: Meaning := map[Plain("x") := 5], (op: Op, args: seq<int>) => if args == [] then 0
        else args[|args| - 1];
    CapturedDiffers(Canonical(e).1, e, y, inner, env, env[Plain("x") := 2], I);
    LettingMeans(e, liftAll, nm, env, I);
  }
}
