/** The passes of CSE.cpp as they run, over fields that every visit updates. */
module CseMethods {
  import opened VarNames
  import opened CseIR
  import opened CseGVN
  import opened CseLets

  class GVN {
    var entries: seq<Expr>
    var numbering: map<Expr, nat>
    var shallow: map<Expr, nat>
    var lets: seq<(Name, nat)>
    var number: nat
    var nextTag: nat

    ghost function Now(): State
      reads this
    {
      State(entries, numbering, shallow, lets, number, nextTag)
    }

    constructor (firstTag: nat)
      ensures Now() == State([], map[], map[], [], 0, firstTag)
    {
      entries, numbering, shallow, lets, number, nextTag := [], map[], map[], [], 0, firstTag;
    }

    method Mutate(e: Expr) returns (r: Expr)
      requires Valid(Now())
      modifies this
      ensures (Now(), r) == CseGVN.Mutate(old(Now()), e)
      decreases e, 1
    {
      if e in shallow {
        number := shallow[e];
        return entries[number];
      }
      if e.Var? && InScope(lets, e.name) {
        NumberValid(lets, e.name, |entries|);
        number := Number(lets, e.name);
        return entries[number];
      }
      if Strip(e) in numbering {
        number := numbering[Strip(e)];
        shallow := shallow[e := number];
        return entries[number];
      }
      var rebuilt := Rebuild(e);
      if Strip(rebuilt) in numbering {
        number := numbering[Strip(rebuilt)];
        shallow := shallow[e := number];
        return entries[number];
      }
      number := |entries|;
      numbering := numbering[Strip(rebuilt) := number];
      shallow := shallow[rebuilt := number];
      entries := entries + [rebuilt];
      return rebuilt;
    }

    method Rebuild(e: Expr) returns (r: Expr)
      requires Valid(Now())
      modifies this
      ensures (Now(), r) == CseGVN.Rebuild(old(Now()), e)
      decreases e, 0
    {
      match e
      case Imm(_) => r := e;
      case Var(_) => r := e;
      case Node(_, op, kids) =>
        var kids' := MutateAll(kids);
        if kids' == kids {
          r := e;
        } else {
          r := Node(nextTag, op, kids');
          nextTag := nextTag + 1;
        }
      case Let(_, v, x, b) =>
        var _ := Mutate(x);
        lets := lets + [(v, number)];
        r := Mutate(b);
        lets := lets[..|lets| - 1];
    }

    method MutateAll(es: Exprs) returns (rs: Exprs)
      requires Valid(Now())
      modifies this
      ensures (Now(), rs) == CseGVN.MutateAll(old(Now()), es)
      decreases es
    {
      if es.Nil? {
        return Nil;
      }
      var hd := Mutate(es.hd);
      var tl := MutateAll(es.tl);
      return Cons(hd, tl);
    }
  }

  class ComputeUseCounts {
    const shallow: map<Expr, nat>
    const liftAll: bool
    var visited: seq<Expr>
    var uses: seq<nat>

    ghost function Now(): Counts
      reads this
    {
      Counts(visited, uses)
    }

    constructor (shallow: map<Expr, nat>, liftAll: bool, entries: nat)
      ensures this.shallow == shallow && this.liftAll == liftAll
      ensures Now() == Counts([], seq(entries, i => 0))
    {
      this.shallow, this.liftAll := shallow, liftAll;
      visited, uses := [], seq(entries, i => 0);
    }

    method Include(e: Expr)
      modifies this
      ensures Now() == CseLets.Include(old(Now()), e, shallow, liftAll)
      decreases e, 1
    {
      if !ShouldExtract(e, liftAll) {
        Accept(e);
        return;
      }
      if e in shallow {
        var n := shallow[e];
        if n < |uses| {
          uses := uses[n := uses[n] + 1];
        }
      }
      if e in visited {
        return;
      }
      visited := visited + [e];
      Accept(e);
    }

    method Accept(e: Expr)
      modifies this
      ensures Now() == CseLets.Accept(old(Now()), e, shallow, liftAll)
      decreases e, 0
    {
      match e
      case Imm(_) =>
      case Var(_) =>
      case Node(_, _, kids) => IncludeAll(kids);
      case Let(_, _, x, b) =>
        Include(x);
        Include(b);
    }

    method IncludeAll(es: Exprs)
      modifies this
      ensures Now() == CseLets.IncludeAll(old(Now()), es, shallow, liftAll)
      decreases es
    {
      if es.Cons? {
        Include(es.hd);
        IncludeAll(es.tl);
      }
    }
  }

  class Replacer {
    var replacements: map<Expr, Expr>

    constructor (replacements: map<Expr, Expr>)
      ensures this.replacements == replacements
    {
      this.replacements := replacements;
    }

    method Mutate(e: Expr) returns (r: Expr)
      modifies this
      ensures (replacements, r) == Replace(old(replacements), e)
      decreases e, 1
    {
      if e in replacements {
        return replacements[e];
      }
      r := Rebuild(e);
      replacements := replacements[e := r];
    }

    method Rebuild(e: Expr) returns (r: Expr)
      modifies this
      ensures (replacements, r) == ReplaceKids(old(replacements), e)
      decreases e, 0
    {
      match e
      case Imm(_) => r := e;
      case Var(_) => r := e;
      case Node(t, op, kids) =>
        var kids' := MutateAll(kids);
        r := Node(t, op, kids');
      case Let(t, v, x, b) =>
        var x' := Mutate(x);
        var b' := Mutate(b);
        r := Let(t, v, x', b');
    }

    method MutateAll(es: Exprs) returns (rs: Exprs)
      modifies this
      ensures (replacements, rs) == ReplaceAll(old(replacements), es)
      decreases es
    {
      if es.Nil? {
        return Nil;
      }
      var hd := Mutate(es.hd);
      var tl := MutateAll(es.tl);
      return Cons(hd, tl);
    }
  }

  /** The members of the first `k` lets. */
  ghost function Live(lets: seq<Expr>, k: nat): set<Expr>
    requires k <= |lets|
  {
    set e | e in lets[..k]
  }

  /** Every let is mapped to the variable of its place. */
  ghost predicate AreVariables(memo: map<Expr, Expr>, lets: seq<Expr>, nm: Names) {
    && memo.Keys == Live(lets, |lets|)
    && forall k | 0 <= k < |lets| :: memo[lets[k]] == Var(nm(k))
  }

  lemma {:induction false} VariablesAre(lets: seq<Expr>, nm: Names)
    requires Distinct(lets)
    ensures AreVariables(Variables(lets, nm), lets, nm)
    decreases |lets|
  {
    if lets != [] {
      var n := |lets| - 1;
      VariablesAre(lets[..n], nm);
      OneMoreVariable(Variables(lets[..n], nm), lets, n, nm);
    }
  }

  lemma OneMoreVariable(before: map<Expr, Expr>, lets: seq<Expr>, n: nat, nm: Names)
    requires |lets| == n + 1 && Distinct(lets) && AreVariables(before, lets[..n], nm)
    ensures AreVariables(before[lets[n] := Var(nm(n))], lets, nm)
  {
    LiveMore(lets, n);
    var init := lets[..n];
    assert init[..n] == init;
    hide Live;
    forall k | 0 <= k < n ensures before[lets[k]] == Var(nm(k)) && lets[k] != lets[n] {
      assert init[k] == lets[k];
    }
  }

  lemma LiveMore(lets: seq<Expr>, k: nat)
    requires k < |lets|
    ensures Live(lets, k + 1) == Live(lets, k) + {lets[k]} && Live(lets, k) == Live(lets[..k], k)
  {
    assert lets[..k + 1] == lets[..k] + [lets[k]] && lets[..k][..k] == lets[..k];
  }

  /** The replacer starts from the variables of all lets. */
  lemma StartMemo(lets: seq<Expr>, nm: Names)
    requires Distinct(lets)
    ensures MemoOk(Variables(lets, nm), lets, nm, Live(lets, |lets|))
  {
    VariablesAre(lets, nm);
    assert AreVariables(Variables(lets, nm), lets, nm);
    var memo, live := Variables(lets, nm), Live(lets, |lets|);
    forall e | e in live ensures e in lets && e in memo && memo[e] == Var(nm(Index(lets, e))) {
      var k :| 0 <= k < |lets| && lets[k] == e;
      IndexDistinct(lets, k);
    }
  }

  /** Dropping the variable of the last live let leaves a memo for the lets before it. */
  lemma DropMemo(memo: map<Expr, Expr>, lets: seq<Expr>, nm: Names, k: nat)
    requires k < |lets| && Distinct(lets) && MemoOk(memo, lets, nm, Live(lets, k + 1))
    ensures MemoOk(memo - {lets[k]}, lets, nm, Live(lets, k)) && lets[k] !in Live(lets, k)
    ensures forall e | e in memo - {lets[k]} :: e !in Live(lets, k + 1) || e in Live(lets, k)
  {
    assert lets[..k + 1] == lets[..k] + [lets[k]];
    forall e | e in Live(lets, k) ensures e in Live(lets, k + 1) && e != lets[k] {
      var j :| 0 <= j < k && lets[j] == e;
    }
  }

  /** The entries used more than once become lets, and references to them variables. */
  method PickLets(entries: seq<Expr>, uses: seq<nat>, nm: Names)
    returns (lets: seq<Expr>, names: seq<Name>, replacements: map<Expr, Expr>)
    requires |entries| == |uses|
    ensures lets == Pick(entries, uses) && replacements == Variables(lets, nm)
    ensures names == seq(|lets|, (k: nat) => nm(k))
  {
    lets, names, replacements := [], [], map[];
    for i := 0 to |entries|
      invariant lets == Pick(entries[..i], uses[..i])
      invariant names == seq(|lets|, (k: nat) => nm(k))
      invariant replacements == Variables(lets, nm)
    {
      assert entries[..i + 1][..i] == entries[..i] && uses[..i + 1][..i] == uses[..i];
      if uses[i] > 1 {
        var name := nm(|lets|);
        assert (lets + [entries[i]])[..|lets|] == lets;
        lets, names := lets + [entries[i]], names + [name];
        replacements := replacements[entries[i] := Var(name)];
      }
    }
    assert entries[..|entries|] == entries && uses[..|entries|] == uses;
  }

  /** The expression in terms of the variables, under its lets. The memo of the replacer is kept from one
      value to the next, with the variable of the current let dropped. */
  method WrapInLets(e: Expr, lets: seq<Expr>, names: seq<Name>, replacements: map<Expr, Expr>, nm: Names)
    returns (r: Expr)
    requires LetsOrdered(lets) && replacements == Variables(lets, nm) && names == seq(|lets|, (k: nat) => nm(k))
    ensures r == Wrap(lets, |lets|, nm, Repl(e, lets, nm))
  {
    var replacer := new Replacer(replacements);
    StartMemo(lets, nm);
    InsideWhole(e, lets);
    assert lets[..|lets|] == lets;
    ReplaceIsRepl(replacer.replacements, e, lets, nm, Live(lets, |lets|));
    r := replacer.Mutate(e);
    ghost var result := Wrap(lets, |lets|, nm, r);
    var i := |lets|;
    while i > 0
      invariant 0 <= i <= |lets|
      invariant MemoOk(replacer.replacements, lets, nm, Live(lets, i))
      invariant Wrap(lets, i, nm, r) == result
    {
      i := i - 1;
      DropMemo(replacer.replacements, lets, nm, i);
      replacer.replacements := replacer.replacements - {lets[i]};
      ReplaceIsRepl(replacer.replacements, lets[i], lets, nm, Live(lets, i));
      var value := replacer.Mutate(lets[i]);
      r := Let(0, names[i], value, r);
    }
  }

  /** common_subexpression_elimination as it runs; `nm` lists the answers of unique_name. */
  method CommonSubexpressionElimination(e: Expr, liftAll: bool, nm: Names) returns (r: Expr)
    ensures r == Eliminate(e, liftAll, nm)
  {
    if IsConst(e) || e.Var? {
      return e;
    }
    var gvn := new GVN(TagBound(e));
    r := gvn.Mutate(e);
    var counts := new ComputeUseCounts(gvn.shallow, liftAll, |gvn.entries|);
    counts.Include(r);
    var lets, names, replacements := PickLets(gvn.entries, counts.uses, nm);
    ChosenOrdered(e, liftAll);
    r := WrapInLets(r, lets, names, replacements, nm);
  }
}
