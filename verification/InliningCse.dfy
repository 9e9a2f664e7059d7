/** The elimination that inlining runs is common_subexpression_elimination, and it keeps what the loop needs. An
    expression is handed over as a tree of distinct objects. */
module InliningCse {
  import opened VarNames
  import opened Inlining
  import opened InliningProof
  import C = CseIR
  import G = CseGVN
  import S = CseSound
  import L = CseLets

  // ----- trees of distinct objects -----

  /** Every node gets a tag of its own, from `t` on. */
  function Tag(e: Expr, t: nat): (r: (C.Expr, nat))
    ensures t <= r.1
    decreases e, 0
  {
    match e
    case Const(n) => (C.Imm(n), t)
    case Param(p) => (C.Node(t, C.Param(p), C.Nil), t + 1)
    case Var(n) => (C.Var(n), t)
    case Op(op, args) => var (ks, t1) := TagAll(args, t); (C.Node(t1, op, ks), t1 + 1)
    case Call(f, args) => var (ks, t1) := TagAll(args, t); (C.Node(t1, C.Call(f, C.HalideCall), ks), t1 + 1)
    case Let(n, x, b) =>
      var (x1, t1) := Tag(x, t);
      var (b1, t2) := Tag(b, t1);
      (C.Let(t2, n, x1, b1), t2 + 1)
  }

  function TagAll(es: seq<Expr>, t: nat): (r: (C.Exprs, nat))
    ensures t <= r.1
    decreases es, 1
  {
    if es == [] then (C.Nil, t)
    else
      var (k, t1) := Tag(es[0], t);
      var (ks, t2) := TagAll(es[1..], t1);
      (C.Cons(k, ks), t2)
  }

  function Untag(x: C.Expr): Expr {
    match x
    case Imm(n) => Const(n)
    case Var(n) => Var(n)
    case Node(_, op, ks) =>
      if op.Param? then Param(op.name)
      else if op.Call? && op.kind.HalideCall? then Call(op.name, UntagAll(ks))
      else Op(op, UntagAll(ks))
    case Let(_, n, x, b) => Let(n, Untag(x), Untag(b))
  }

  function UntagAll(xs: C.Exprs): seq<Expr> {
    match xs
    case Nil => []
    case Cons(x, rest) => [Untag(x)] + UntagAll(rest)
  }

  // ----- meaning -----

  function MeaningOf(w: World): C.Meaning {
    (op: C.Op, xs: seq<int>) =>
      if op.Param? then w.params(op.name)
      else if op.Call? && op.kind.HalideCall? then w.calls(op.name, xs)
      else w.ops(op, xs)
  }

  lemma {:induction false} TagMeans(e: Expr, t: nat, w: World, env: Env)
    ensures C.Eval(Tag(e, t).0, env, MeaningOf(w)) == Eval(e, w, env)
    decreases e, 0
  {
    match e
    case Const(_) =>
    case Param(_) =>
    case Var(_) =>
    case Op(_, args) => TagMeansAll(args, t, w, env);
    case Call(_, args) => TagMeansAll(args, t, w, env);
    case Let(n, x, b) =>
      TagMeans(x, t, w, env);
      TagMeans(b, Tag(x, t).1, w, env[n := Eval(x, w, env)]);
  }

  lemma {:induction false} TagMeansAll(es: seq<Expr>, t: nat, w: World, env: Env)
    ensures C.EvalAll(TagAll(es, t).0, env, MeaningOf(w)) == EvalAll(es, w, env)
    decreases es, 1
  {
    if es != [] {
      TagMeans(es[0], t, w, env);
      TagMeansAll(es[1..], Tag(es[0], t).1, w, env);
    }
  }

  lemma {:induction false} UntagMeans(x: C.Expr, w: World, env: Env)
    ensures Eval(Untag(x), w, env) == C.Eval(x, env, MeaningOf(w))
    decreases x
  {
    match x
    case Imm(_) =>
    case Var(_) =>
    case Node(_, _, ks) => UntagMeansAll(ks, w, env);
    case Let(_, n, v, b) =>
      UntagMeans(v, w, env);
      UntagMeans(b, w, env[n := C.Eval(v, env, MeaningOf(w))]);
  }

  lemma {:induction false} UntagMeansAll(xs: C.Exprs, w: World, env: Env)
    ensures EvalAll(UntagAll(xs), w, env) == C.EvalAll(xs, env, MeaningOf(w))
    decreases xs
  {
    if xs.Cons? {
      UntagMeans(xs.hd, w, env);
      UntagMeansAll(xs.tl, w, env);
      assert UntagAll(xs)[1..] == UntagAll(xs.tl);
    }
  }

  // ----- names -----

  lemma {:induction false} TagNames(e: Expr, t: nat)
    ensures S.LetNames(Tag(e, t).0) == LetNames(e) && S.FreeVars(Tag(e, t).0) == Free(e)
    ensures L.Occurring(Tag(e, t).0) <= Names(e)
    decreases e, 0
  {
    match e
    case Const(_) =>
    case Param(_) =>
    case Var(_) =>
    case Op(_, args) => TagNamesAll(args, t);
    case Call(_, args) => TagNamesAll(args, t);
    case Let(_, x, b) =>
      TagNames(x, t);
      TagNames(b, Tag(x, t).1);
  }

  lemma {:induction false} TagNamesAll(es: seq<Expr>, t: nat)
    ensures S.LetNamesAll(TagAll(es, t).0) == LetNamesAll(es) && S.FreeVarsAll(TagAll(es, t).0) == FreeAll(es)
    ensures L.OccurringAll(TagAll(es, t).0) <= NamesAll(es)
    decreases es, 1
  {
    if es != [] {
      TagNames(es[0], t);
      TagNamesAll(es[1..], Tag(es[0], t).1);
    }
  }

  /** Every name of what comes back is a variable or a let name. */
  lemma {:induction false} UntagNames(x: C.Expr)
    ensures Free(Untag(x)) <= S.FreeVars(x) && LetNames(Untag(x)) <= S.LetNames(x)
    ensures Names(Untag(x)) <= S.FreeVars(x) + S.LetNames(x)
    decreases x
  {
    match x
    case Imm(_) =>
    case Var(_) =>
    case Node(_, _, ks) => UntagNamesAll(ks);
    case Let(_, n, v, b) =>
      UntagNames(v);
      UntagNames(b);
  }

  lemma {:induction false} UntagNamesAll(xs: C.Exprs)
    ensures FreeAll(UntagAll(xs)) <= S.FreeVarsAll(xs) && LetNamesAll(UntagAll(xs)) <= S.LetNamesAll(xs)
    ensures NamesAll(UntagAll(xs)) <= S.FreeVarsAll(xs) + S.LetNamesAll(xs)
    decreases xs
  {
    if xs.Cons? {
      UntagNames(xs.hd);
      UntagNamesAll(xs.tl);
      assert UntagAll(xs)[1..] == UntagAll(xs.tl);
    }
  }

  // ----- each object occurs once -----

  lemma {:induction false} TagRange(e: Expr, t: nat, p: C.Expr, at: C.Subst, th: C.Subst)
    requires (p.Node? || p.Let?) && S.Occurs(p, at, Tag(e, t).0, th)
    ensures t <= p.tag < Tag(e, t).1
    decreases e, 0
  {
    match e
    case Const(_) =>
    case Param(_) =>
    case Var(_) =>
    case Op(_, args) => if p != Tag(e, t).0 { TagRangeAll(args, t, p, at, th); }
    case Call(_, args) => if p != Tag(e, t).0 { TagRangeAll(args, t, p, at, th); }
    case Let(n, x, b) =>
      var (x1, t1) := Tag(x, t);
      if p != Tag(e, t).0 {
        if S.Occurs(p, at, x1, th) {
          TagRange(x, t, p, at, th);
        } else {
          TagRange(b, t1, p, at, th[n := C.Expand(x1, th)]);
        }
      }
  }

  lemma {:induction false} TagRangeAll(es: seq<Expr>, t: nat, p: C.Expr, at: C.Subst, th: C.Subst)
    requires (p.Node? || p.Let?) && S.OccursIn(p, at, TagAll(es, t).0, th)
    ensures t <= p.tag < TagAll(es, t).1
    decreases es, 1
  {
    var (k, t1) := Tag(es[0], t);
    if S.Occurs(p, at, k, th) {
      TagRange(es[0], t, p, at, th);
    } else {
      TagRangeAll(es[1..], t1, p, at, th);
    }
  }

  lemma {:induction false} TaggedOnce(e: Expr, t: nat, p: C.Expr, at: C.Subst, at': C.Subst, th: C.Subst)
    requires (p.Node? || p.Let?) && S.Occurs(p, at, Tag(e, t).0, th) && S.Occurs(p, at', Tag(e, t).0, th)
    ensures at == at'
    decreases e, 1
  {
    match e
    case Const(_) =>
    case Param(_) =>
    case Var(_) =>
    case Op(_, args) => TaggedOnceHere(e, args, t, p, at, at', th);
    case Call(_, args) => TaggedOnceHere(e, args, t, p, at, at', th);
    case Let(_, _, _) => TaggedOnceLet(e, t, p, at, at', th);
  }

  lemma {:induction false} TaggedOnceHere(e: Expr, args: seq<Expr>, t: nat, p: C.Expr, at: C.Subst, at': C.Subst,
                                          th: C.Subst)
    requires (e.Op? || e.Call?) && e.args == args
    requires (p.Node? || p.Let?) && S.Occurs(p, at, Tag(e, t).0, th) && S.Occurs(p, at', Tag(e, t).0, th)
    ensures at == at'
    decreases e, 0
  {
    var (ks, t1) := TagAll(args, t);
    if S.OccursIn(p, at, ks, th) {
      TagRangeAll(args, t, p, at, th);
      TaggedOnceAll(args, t, p, at, at', th);
    } else if S.OccursIn(p, at', ks, th) {
      TagRangeAll(args, t, p, at', th);
    }
  }

  lemma {:induction false} TaggedOnceLet(e: Expr, t: nat, p: C.Expr, at: C.Subst, at': C.Subst, th: C.Subst)
    requires e.Let? && (p.Node? || p.Let?) && S.Occurs(p, at, Tag(e, t).0, th) && S.Occurs(p, at', Tag(e, t).0, th)
    ensures at == at'
    decreases e, 0
  {
    var (x1, t1) := Tag(e.value, t);
    var (b1, t2) := Tag(e.body, t1);
    var inner := th[e.name := C.Expand(x1, th)];
    assert Tag(e, t).0 == C.Let(t2, e.name, x1, b1);
    LetOccurs(p, at, t2, e.name, x1, b1, th);
    LetOccurs(p, at', t2, e.name, x1, b1, th);
    hide S.Occurs, Tag;
    if S.Occurs(p, at, x1, th) { TagRange(e.value, t, p, at, th); }
    if S.Occurs(p, at', x1, th) { TagRange(e.value, t, p, at', th); }
    if S.Occurs(p, at, b1, inner) { TagRange(e.body, t1, p, at, inner); }
    if S.Occurs(p, at', b1, inner) { TagRange(e.body, t1, p, at', inner); }
    if p.tag < t1 {
      TaggedOnce(e.value, t, p, at, at', th);
    } else if p.tag < t2 {
      TaggedOnce(e.body, t1, p, at, at', inner);
    }
  }

  lemma LetOccurs(p: C.Expr, at: C.Subst, t: nat, n: Name, x: C.Expr, b: C.Expr, th: C.Subst)
    requires S.Occurs(p, at, C.Let(t, n, x, b), th)
    ensures (p == C.Let(t, n, x, b) && at == th) || S.Occurs(p, at, x, th)
            || S.Occurs(p, at, b, th[n := C.Expand(x, th)])
  {
  }

  lemma {:induction false} TaggedOnceAll(es: seq<Expr>, t: nat, p: C.Expr, at: C.Subst, at': C.Subst, th: C.Subst)
    requires (p.Node? || p.Let?) && S.OccursIn(p, at, TagAll(es, t).0, th) && S.OccursIn(p, at', TagAll(es, t).0, th)
    ensures at == at'
    decreases es, 0
  {
    var (k, t1) := Tag(es[0], t);
    var (ks, t2) := TagAll(es[1..], t1);
    if S.Occurs(p, at, k, th) { TagRange(es[0], t, p, at, th); }
    if S.Occurs(p, at', k, th) { TagRange(es[0], t, p, at', th); }
    if S.OccursIn(p, at, ks, th) { TagRangeAll(es[1..], t1, p, at, th); }
    if S.OccursIn(p, at', ks, th) { TagRangeAll(es[1..], t1, p, at', th); }
    if p.tag < t1 {
      TaggedOnce(es[0], t, p, at, at', th);
    } else {
      TaggedOnceAll(es[1..], t1, p, at, at', th);
    }
  }

  /** A tree whose let names are not free meets the condition of EliminateMeans: the same name may be bound
      to different values in different places. */
  lemma TreesAreDistinguishable(e: Expr)
    requires Separate(e)
    ensures S.Distinguishable(Tag(e, 0).0)
  {
    TagNames(e, 0);
    var x := Tag(e, 0).0;
    forall p: C.Expr, at: C.Subst, at': C.Subst | (p.Node? || p.Let?) && S.Occurs(p, at, x, map[])
        && S.Occurs(p, at', x, map[])
      ensures C.Expand(p, at) == C.Expand(p, at')
    {
      TaggedOnce(e, 0, p, at, at', map[]);
    }
  }

  // ----- the nodes of the result come from the input -----

  predicate NodesOk(x: C.Expr, P: (C.Op, nat) -> bool) {
    match x
    case Imm(_) => true
    case Var(_) => true
    case Node(_, op, ks) => P(op, Count(ks)) && NodesOkAll(ks, P)
    case Let(_, _, v, b) => NodesOk(v, P) && NodesOk(b, P)
  }

  predicate NodesOkAll(xs: C.Exprs, P: (C.Op, nat) -> bool) {
    xs.Cons? ==> NodesOk(xs.hd, P) && NodesOkAll(xs.tl, P)
  }

  function Count(xs: C.Exprs): nat {
    if xs.Nil? then 0 else 1 + Count(xs.tl)
  }

  predicate EntryNodes(g: G.State, P: (C.Op, nat) -> bool) {
    forall i | 0 <= i < |g.entries| :: NodesOk(g.entries[i], P)
  }

  lemma {:induction false} MutateNodes(g: G.State, x: C.Expr, P: (C.Op, nat) -> bool)
    requires G.Valid(g) && EntryNodes(g, P) && NodesOk(x, P)
    ensures EntryNodes(G.Mutate(g, x).0, P) && NodesOk(G.Mutate(g, x).1, P)
    decreases x, 1
  {
    G.MutateSteps(g, x);
    hide G.Mutate, G.Rebuild, C.Strip, NodesOk;
    if !(x in g.shallow || (x.Var? && G.InScope(g.lets, x.name)) || C.Strip(x) in g.numbering) {
      RebuildNodes(g, x, P);
    }
  }

  lemma {:induction false} RebuildNodes(g: G.State, x: C.Expr, P: (C.Op, nat) -> bool)
    requires G.Valid(g) && EntryNodes(g, P) && NodesOk(x, P)
    ensures EntryNodes(G.Rebuild(g, x).0, P) && NodesOk(G.Rebuild(g, x).1, P)
    decreases x, 0
  {
    match x
    case Imm(_) =>
    case Var(_) =>
    case Node(_, _, ks) => MutateAllNodes(g, ks, P);
    case Let(_, v, y, b) =>
      G.LetSteps(g, x);
      MutateNodes(g, y, P);
      MutateNodes(G.LetScope(g, x), b, P);
      hide G.Mutate, G.Rebuild;
  }

  lemma {:induction false} MutateAllNodes(g: G.State, xs: C.Exprs, P: (C.Op, nat) -> bool)
    requires G.Valid(g) && EntryNodes(g, P) && NodesOkAll(xs, P)
    ensures EntryNodes(G.MutateAll(g, xs).0, P) && NodesOkAll(G.MutateAll(g, xs).1, P)
    ensures Count(G.MutateAll(g, xs).1) == Count(xs)
    decreases xs
  {
    if xs.Cons? {
      MutateNodes(g, xs.hd, P);
      MutateAllNodes(G.Mutate(g, xs.hd).0, xs.tl, P);
    }
  }

  lemma {:induction false} ReplNodes(x: C.Expr, lets: seq<C.Expr>, nm: L.Names, P: (C.Op, nat) -> bool)
    requires NodesOk(x, P)
    ensures NodesOk(L.ReplBody(x, lets, nm), P) && NodesOk(L.Repl(x, lets, nm), P)
    decreases x
  {
    match x
    case Imm(_) =>
    case Var(_) =>
    case Node(_, _, ks) => ReplNodesAll(ks, lets, nm, P);
    case Let(_, _, v, b) => ReplNodes(v, lets, nm, P); ReplNodes(b, lets, nm, P);
  }

  lemma {:induction false} ReplNodesAll(xs: C.Exprs, lets: seq<C.Expr>, nm: L.Names, P: (C.Op, nat) -> bool)
    requires NodesOkAll(xs, P)
    ensures NodesOkAll(L.ReplAll(xs, lets, nm), P) && Count(L.ReplAll(xs, lets, nm)) == Count(xs)
    decreases xs
  {
    if xs.Cons? {
      ReplNodes(xs.hd, lets, nm, P);
      ReplNodesAll(xs.tl, lets, nm, P);
    }
  }

  lemma {:induction false} WrapNodes(lets: seq<C.Expr>, n: nat, nm: L.Names, body: C.Expr, P: (C.Op, nat) -> bool)
    requires n <= |lets| && NodesOk(body, P) && forall k | 0 <= k < |lets| :: NodesOk(lets[k], P)
    ensures NodesOk(L.Wrap(lets, n, nm, body), P)
    decreases n
  {
    if n > 0 {
      ReplNodes(lets[n - 1], lets, nm, P);
      WrapNodes(lets, n - 1, nm, C.Let(0, nm(n - 1), L.ReplBody(lets[n - 1], lets, nm), body), P);
    }
  }

  lemma EliminateNodes(x: C.Expr, liftAll: bool, nm: L.Names, P: (C.Op, nat) -> bool)
    requires NodesOk(x, P)
    ensures NodesOk(L.Eliminate(x, liftAll, nm), P)
  {
    if !(C.IsConst(x) || x.Var?) {
      L.ChosenOrdered(x, liftAll);
      MutateNodes(G.Begin(x), x, P);
      var lets, r := L.ChosenLets(x, liftAll), L.Canonical(x).1;
      forall k | 0 <= k < |lets| ensures NodesOk(lets[k], P) {
        assert lets[k] in L.Canonical(x).0.entries;
      }
      ReplNodes(r, lets, nm, P);
      WrapNodes(lets, |lets|, nm, L.Repl(r, lets, nm), P);
    }
  }

  // ----- calls and arities -----

  function CallsIn(cs: set<string>): (C.Op, nat) -> bool {
    (op: C.Op, n: nat) => op.Call? && op.kind.HalideCall? ==> op.name in cs
  }

  function ArityOf(f: string, k: nat): (C.Op, nat) -> bool {
    (op: C.Op, n: nat) => op == C.Call(f, C.HalideCall) ==> n == k
  }

  lemma {:induction false} TagNodes(e: Expr, t: nat, cs: set<string>)
    requires Calls(e) <= cs
    ensures NodesOk(Tag(e, t).0, CallsIn(cs))
    decreases e, 0
  {
    match e
    case Const(_) =>
    case Param(_) =>
    case Var(_) =>
    case Op(_, args) => TagNodesAll(args, t, cs);
    case Call(_, args) => TagNodesAll(args, t, cs);
    case Let(_, x, b) =>
      TagNodes(x, t, cs);
      TagNodes(b, Tag(x, t).1, cs);
  }

  lemma {:induction false} TagNodesAll(es: seq<Expr>, t: nat, cs: set<string>)
    requires CallsAll(es) <= cs
    ensures NodesOkAll(TagAll(es, t).0, CallsIn(cs))
    decreases es, 1
  {
    if es != [] {
      TagNodes(es[0], t, cs);
      TagNodesAll(es[1..], Tag(es[0], t).1, cs);
    }
  }

  lemma {:induction false} UntagCalls(x: C.Expr, cs: set<string>)
    requires NodesOk(x, CallsIn(cs))
    ensures Calls(Untag(x)) <= cs
    decreases x
  {
    match x
    case Imm(_) =>
    case Var(_) =>
    case Node(_, _, ks) => UntagCallsAll(ks, cs);
    case Let(_, _, v, b) => UntagCalls(v, cs); UntagCalls(b, cs);
  }

  lemma {:induction false} UntagCallsAll(xs: C.Exprs, cs: set<string>)
    requires NodesOkAll(xs, CallsIn(cs))
    ensures CallsAll(UntagAll(xs)) <= cs
    decreases xs
  {
    if xs.Cons? {
      UntagCalls(xs.hd, cs);
      UntagCallsAll(xs.tl, cs);
      assert UntagAll(xs)[1..] == UntagAll(xs.tl);
    }
  }

  lemma {:induction false} TagArity(e: Expr, t: nat, f: string, k: nat)
    requires ArityOk(f, k, e)
    ensures NodesOk(Tag(e, t).0, ArityOf(f, k))
    decreases e, 0
  {
    match e
    case Const(_) =>
    case Param(_) =>
    case Var(_) =>
    case Op(_, args) => TagArityAll(args, t, f, k);
    case Call(_, args) => TagArityAll(args, t, f, k);
    case Let(_, x, b) =>
      TagArity(x, t, f, k);
      TagArity(b, Tag(x, t).1, f, k);
  }

  lemma {:induction false} TagArityAll(es: seq<Expr>, t: nat, f: string, k: nat)
    requires ArityOkAll(f, k, es)
    ensures NodesOkAll(TagAll(es, t).0, ArityOf(f, k)) && Count(TagAll(es, t).0) == |es|
    decreases es, 1
  {
    if es != [] {
      TagArity(es[0], t, f, k);
      TagArityAll(es[1..], Tag(es[0], t).1, f, k);
    }
  }

  lemma {:induction false} UntagArity(x: C.Expr, f: string, k: nat)
    requires NodesOk(x, ArityOf(f, k))
    ensures ArityOk(f, k, Untag(x))
    decreases x
  {
    match x
    case Imm(_) =>
    case Var(_) =>
    case Node(_, _, ks) => UntagArityAll(ks, f, k);
    case Let(_, _, v, b) => UntagArity(v, f, k); UntagArity(b, f, k);
  }

  lemma {:induction false} UntagArityAll(xs: C.Exprs, f: string, k: nat)
    requires NodesOkAll(xs, ArityOf(f, k))
    ensures ArityOkAll(f, k, UntagAll(xs)) && |UntagAll(xs)| == Count(xs)
    decreases xs
  {
    if xs.Cons? {
      UntagArity(xs.hd, f, k);
      UntagArityAll(xs.tl, f, k);
      assert UntagAll(xs)[1..] == UntagAll(xs.tl);
    }
  }

  // ----- free names and let names of the result -----

  /** What occurs is free or bound. */
  lemma {:induction false} OccurringIs(x: C.Expr)
    ensures L.Occurring(x) <= S.FreeVars(x) + S.LetNames(x)
    decreases x
  {
    match x
    case Imm(_) =>
    case Var(_) =>
    case Node(_, _, ks) => OccurringIsAll(ks);
    case Let(_, _, v, b) => OccurringIs(v); OccurringIs(b);
  }

  lemma {:induction false} OccurringIsAll(xs: C.Exprs)
    ensures L.OccurringAll(xs) <= S.FreeVarsAll(xs) + S.LetNamesAll(xs)
    decreases xs
  {
    if xs.Cons? {
      OccurringIs(xs.hd);
      OccurringIsAll(xs.tl);
    }
  }

  lemma {:induction false} ClosedVars(x: C.Expr, names: set<Name>)
    requires C.Closed(x, names)
    ensures S.FreeVars(x) !! names && S.LetNames(x) == {}
    decreases x
  {
    if x.Node? {
      ClosedVarsAll(x.kids, names);
    }
  }

  lemma {:induction false} ClosedVarsAll(xs: C.Exprs, names: set<Name>)
    requires C.ClosedAll(xs, names)
    ensures S.FreeVarsAll(xs) !! names && S.LetNamesAll(xs) == {}
    decreases xs
  {
    if xs.Cons? {
      ClosedVars(xs.hd, names);
      ClosedVarsAll(xs.tl, names);
    }
  }

  lemma {:induction false} ReplNoLets(x: C.Expr, lets: seq<C.Expr>, nm: L.Names)
    requires C.Closed(x, {})
    ensures S.LetNames(L.ReplBody(x, lets, nm)) == {} && S.LetNames(L.Repl(x, lets, nm)) == {}
    decreases x
  {
    if x.Node? {
      ReplNoLetsAll(x.kids, lets, nm);
    }
  }

  lemma {:induction false} ReplNoLetsAll(xs: C.Exprs, lets: seq<C.Expr>, nm: L.Names)
    requires C.ClosedAll(xs, {})
    ensures S.LetNamesAll(L.ReplAll(xs, lets, nm)) == {}
    decreases xs
  {
    if xs.Cons? {
      ReplNoLets(xs.hd, lets, nm);
      ReplNoLetsAll(xs.tl, lets, nm);
    }
  }

  /** The variables of an expression, besides the first `n` introduced names. */
  ghost predicate Bounded(x: C.Expr, free: set<Name>, nm: L.Names, n: nat) {
    forall v | v in S.FreeVars(x) :: v in free || L.EarlierName(nm, n, v)
  }

  ghost predicate Introduced(x: C.Expr, nm: L.Names, n: nat) {
    forall v | v in S.LetNames(x) :: L.EarlierName(nm, n, v)
  }

  lemma {:induction false} WrapNames(lets: seq<C.Expr>, n: nat, nm: L.Names, body: C.Expr, free: set<Name>)
    requires n <= |lets| && L.LetsOrdered(lets) && (forall k | 0 <= k < |lets| :: C.Closed(lets[k], {}))
    requires forall k | 0 <= k < |lets| :: Bounded(L.ReplBody(lets[k], lets, nm), free, nm, k)
    requires Bounded(body, free, nm, n) && Introduced(body, nm, |lets|)
    ensures S.FreeVars(L.Wrap(lets, n, nm, body)) <= free && Introduced(L.Wrap(lets, n, nm, body), nm, |lets|)
    decreases n
  {
    if n == 0 {
      assert forall v | v in S.FreeVars(body) :: v in free || L.EarlierName(nm, 0, v);
    } else {
      var value := L.ReplBody(lets[n - 1], lets, nm);
      var body1 := C.Let(0, nm(n - 1), value, body);
      ReplNoLets(lets[n - 1], lets, nm);
      assert L.EarlierName(nm, |lets|, nm(n - 1));
      forall v | v in S.FreeVars(body1) ensures v in free || L.EarlierName(nm, n - 1, v) {
        if v in S.FreeVars(value) {
          assert Bounded(value, free, nm, n - 1);
        } else {
          assert v in S.FreeVars(body) && v != nm(n - 1);
          if v !in free {
            var j: nat :| j < n && nm(j) == v;
            assert j < n - 1;
          }
        }
      }
      WrapNames(lets, n - 1, nm, body1, free);
    }
  }

  lemma EntriesAreClosed(x: C.Expr)
    requires S.Distinguishable(x)
    ensures forall p | p in L.Canonical(x).0.entries :: C.Closed(p, S.LetNames(x))
  {
    S.DistinguishableIsCoherent(x);
    S.CanonicalMeans(x, S.ReadingOf(x), map[], (op, xs) => 0);
    hide G.Mutate, S.Coherent, S.LetNames, S.Honest, G.Shaped, C.Closed;
  }

  lemma EntryIsFree(x: C.Expr, p: C.Expr)
    requires C.Closed(p, S.LetNames(x)) && S.FreeVars(p) <= L.Occurring(x)
    ensures S.FreeVars(p) <= S.FreeVars(x)
  {
    ClosedVars(p, S.LetNames(x));
    OccurringIs(x);
  }

  /** The canonical form and the lets have no variables but those free in the input. */
  lemma ChosenAreFree(x: C.Expr, liftAll: bool)
    requires S.Distinguishable(x)
    ensures S.FreeVars(L.Canonical(x).1) <= S.FreeVars(x)
    ensures forall k | 0 <= k < |L.ChosenLets(x, liftAll)| :: S.FreeVars(L.ChosenLets(x, liftAll)[k]) <= S.FreeVars(x)
  {
    hide *;
    EntriesAreClosed(x);
    L.ChosenOrdered(x, liftAll);
    EntryIsFree(x, L.Canonical(x).1);
    var lets := L.ChosenLets(x, liftAll);
    forall k | 0 <= k < |lets| ensures S.FreeVars(lets[k]) <= S.FreeVars(x) {
      EntryIsFree(x, lets[k]);
    }
  }

  lemma ReplBounded(y: C.Expr, lets: seq<C.Expr>, k: nat, nm: L.Names, free: set<Name>)
    requires L.LetsOrdered(lets) && k <= |lets| && C.Closed(y, {}) && L.Inside(y, lets, (set e | e in lets[..k]))
    requires S.FreeVars(y) <= free
    ensures Bounded(L.ReplBody(y, lets, nm), free, nm, k)
    ensures y in lets[..k] ==> Bounded(L.Repl(y, lets, nm), free, nm, k)
  {
    L.ReplVars(y, lets, k, nm, {});
  }

  lemma BodyBounded(y: C.Expr, lets: seq<C.Expr>, nm: L.Names, free: set<Name>)
    requires L.LetsOrdered(lets) && C.Closed(y, {}) && S.FreeVars(y) <= free
    ensures Bounded(L.Repl(y, lets, nm), free, nm, |lets|) && Introduced(L.Repl(y, lets, nm), nm, |lets|)
  {
    assert lets[..|lets|] == lets;
    L.InsideWhole(y, lets);
    ReplBounded(y, lets, |lets|, nm, free);
    ReplNoLets(y, lets, nm);
  }

  /** Nothing is free in the result that was not free in the input, and its lets are the ones introduced. */
  lemma EliminateNames(x: C.Expr, liftAll: bool, nm: L.Names)
    requires S.Distinguishable(x) && !C.IsConst(x) && !x.Var?
    ensures var r := L.Eliminate(x, liftAll, nm);
            S.FreeVars(r) <= S.FreeVars(x) && exists n :: Introduced(r, nm, n)
  {
    var r, lets, free := L.Canonical(x).1, L.ChosenLets(x, liftAll), S.FreeVars(x);
    assert L.Eliminate(x, liftAll, nm) == L.Wrap(lets, |lets|, nm, L.Repl(r, lets, nm));
    ChosenAreFree(x, liftAll);
    L.ChosenOrdered(x, liftAll);
    LetsAreInside(lets);
    hide *;
    forall k | 0 <= k < |lets| ensures Bounded(L.ReplBody(lets[k], lets, nm), free, nm, k) {
      ReplBounded(lets[k], lets, k, nm, free);
    }
    BodyBounded(r, lets, nm, free);
    WrapNames(lets, |lets|, nm, L.Repl(r, lets, nm), free);
  }

  lemma LetsAreInside(lets: seq<C.Expr>)
    requires L.LetsOrdered(lets)
    ensures forall k | 0 <= k < |lets| :: L.Inside(lets[k], lets, (set e | e in lets[..k]))
  {
  }

  // ----- the elimination of the loop -----

  /** One more than the largest number of a made-up name. */
  ghost function Unused(ns: set<Name>): (m: nat)
    ensures forall n | n in ns && n.Temp? :: n.n < m
  {
    if ns == {} then 0
    else
      var n :| n in ns;
      var m := Unused(ns - {n});
      if n.Temp? && m <= n.n then n.n + 1 else m
  }

  /** unique_name. */
  ghost function Fresh(e: Expr): L.Names {
    (i: nat) => Temp(Unused(Names(e)) + i)
  }

  ghost function Cse(liftAll: bool, e: Expr): Expr {
    Untag(L.Eliminate(Tag(e, 0).0, liftAll, Fresh(e)))
  }

  lemma CseKeeps(liftAll: bool, e: Expr)
    requires Separate(e)
    ensures Separate(Cse(liftAll, e)) && Kept(e, Cse(liftAll, e))
  {
    var x, nm := Tag(e, 0).0, Fresh(e);
    var r := L.Eliminate(x, liftAll, nm);
    TagNames(e, 0);
    TreesAreDistinguishable(e);
    assert L.FreshNames(nm, L.Occurring(x));
    forall w, env: Env ensures Eval(Untag(r), w, env) == Eval(e, w, env) {
      L.EliminateMeans(x, liftAll, nm, env, MeaningOf(w));
      TagMeans(e, 0, w, env);
      UntagMeans(r, w, env);
    }
    TagNodes(e, 0, Calls(e));
    EliminateNodes(x, liftAll, nm, CallsIn(Calls(e)));
    UntagCalls(r, Calls(e));
    forall f, k: nat | ArityOk(f, k, e) ensures ArityOk(f, k, Untag(r)) {
      TagArity(e, 0, f, k);
      EliminateNodes(x, liftAll, nm, ArityOf(f, k));
      UntagArity(r, f, k);
    }
    CseNames(liftAll, e, x, nm, r);
  }

  lemma CseNames(liftAll: bool, e: Expr, x: C.Expr, nm: L.Names, r: C.Expr)
    requires x == Tag(e, 0).0 && nm == Fresh(e) && r == L.Eliminate(x, liftAll, nm)
    requires Separate(e) && S.Distinguishable(x) && L.FreshNames(nm, L.Occurring(x))
    ensures Separate(Untag(r)) && forall n | n in Names(Untag(r)) :: n in Names(e) || n.Temp?
  {
    TagNames(e, 0);
    UntagNames(r);
    FreeAreNames(e);
    LetNamesAreNames(e);
    if !(C.IsConst(x) || x.Var?) {
      EliminateNames(x, liftAll, nm);
      var n :| Introduced(r, nm, n);
      forall v | v in S.LetNames(r) ensures v.Temp? && v !in Names(e) {
        var j: nat :| j < n && nm(j) == v;
      }
    }
  }

  /** Inlining may run common_subexpression_elimination: it is good in the sense the loop needs. */
  lemma CseIsGood(liftAll: bool)
    ensures GoodCse(e => Cse(liftAll, e))
  {
    forall e | Separate(e) ensures Separate(Cse(liftAll, e)) && Kept(e, Cse(liftAll, e)) {
      CseKeeps(liftAll, e);
    }
  }

  /** perform_inline with common_subexpression_elimination itself. */
  method PerformInlineWithCse(cse: Expr -> Expr, e: Expr, env: map<string, Def>, inlines: set<string>,
                              order: seq<string>)
    returns (inlined: Expr, ghost picks: seq<string>)
    requires forall x :: cse(x) == Cse(false, x)
    requires Inlinable(env, inlines, order) && Ready(env, inlines, order, e, |order|)
    ensures SameValue(env, inlines, inlined, e)
    ensures Calls(inlined) !! inlines
    ensures Distinct(picks) && forall f | f in picks :: f in inlines
  {
    forall x | Separate(x) ensures Separate(cse(x)) && Kept(x, cse(x)) {
      CseKeeps(false, x);
    }
    inlined, picks := PerformInline(cse, e, env, inlines, order);
  }
}
