/** Expression graphs for common subexpression elimination. A node carries a tag for its address: two
    tagged trees are equal exactly when they are the same object of the graph, while deep equality is
    equality with the tags stripped. */
module CseIR {
  import opened VarNames

  datatype CallKind = Pure | HalideCall | Impure

  datatype Op =
    | Add | Sub | Mul | Div | Mod | Min | Max
    | LT | EQ | Select
    | Cast(bits: nat) | Broadcast(lanes: nat) | Ramp(lanes: nat)
    | Call(name: string, kind: CallKind)
    | Param(name: string)

  datatype Expr =
    | Imm(n: int)
    | Var(name: Name)
    | Node(tag: nat, op: Op, kids: Exprs)
    | Let(tag: nat, name: Name, value: Expr, body: Expr)

  datatype Exprs = Nil | Cons(hd: Expr, tl: Exprs)

  type Env = map<Name, int>

  /** What the operators compute: any fixed meaning will do, so calls to functions have one value
      throughout an expression. */
  type Meaning = (Op, seq<int>) -> int

  function Eval(e: Expr, env: Env, I: Meaning): int {
    match e
    case Imm(n) => n
    case Var(v) => if v in env then env[v] else 0
    case Node(_, op, ks) => I(op, EvalAll(ks, env, I))
    case Let(_, v, x, b) => Eval(b, env[v := Eval(x, env, I)], I)
  }

  function EvalAll(es: Exprs, env: Env, I: Meaning): seq<int> {
    match es
    case Nil => []
    case Cons(e, rest) => [Eval(e, env, I)] + EvalAll(rest, env, I)
  }

  function Strip(e: Expr): Expr {
    match e
    case Imm(_) => e
    case Var(_) => e
    case Node(_, op, ks) => Node(0, op, StripAll(ks))
    case Let(_, v, x, b) => Let(0, v, Strip(x), Strip(b))
  }

  function StripAll(es: Exprs): Exprs {
    match es
    case Nil => Nil
    case Cons(e, rest) => Cons(Strip(e), StripAll(rest))
  }

  /** The elements of a list of children. */
  predicate Elem(e: Expr, es: Exprs) {
    es.Cons? && (e == es.hd || Elem(e, es.tl))
  }

  // ----- what is worth a let (CSE.cpp, should_extract) -----

  predicate IsConst(e: Expr) {
    match e
    case Imm(_) => true
    case Var(_) => false
    case Let(_, _, _, _) => false
    case Node(_, op, ks) => (op.Cast? || op.Ramp? || op.Broadcast?) && AllConst(ks)
  }

  predicate AllConst(es: Exprs) {
    es.Cons? ==> IsConst(es.hd) && AllConst(es.tl)
  }

  predicate SomeConst(es: Exprs) {
    es.Cons? && (IsConst(es.hd) || SomeConst(es.tl))
  }

  predicate ShouldExtract(e: Expr, liftAll: bool) {
    match e
    case Imm(_) => false
    case Var(_) => false
    case Let(_, _, _, _) => true
    case Node(_, op, ks) =>
      if IsConst(e) then false
      else if op.Param? then false
      else if op.Call? && op.kind.Impure? then false
      else if liftAll then true
      else
        match op
        case Broadcast(_) => ks.Cons? && ShouldExtract(ks.hd, false)
        case Cast(_) => ks.Cons? && ShouldExtract(ks.hd, false)
        case Add => !SomeConst(ks)
        case Sub => !SomeConst(ks)
        case Mul => !SomeConst(ks)
        case Div => !SomeConst(ks)
        case Ramp(_) => ks.Cons? && ks.tl.Cons? && !IsConst(ks.tl.hd)
        case _ => true
  }

  lemma {:induction false} StripConst(e: Expr)
    ensures IsConst(Strip(e)) == IsConst(e)
  {
    if e.Node? {
      StripConsts(e.kids);
    }
  }

  lemma {:induction false} StripConsts(es: Exprs)
    ensures AllConst(StripAll(es)) == AllConst(es) && SomeConst(StripAll(es)) == SomeConst(es)
  {
    if es.Cons? {
      StripConst(es.hd);
      StripConsts(es.tl);
    }
  }

  /** Whether a subexpression is extracted does not depend on where it is stored. */
  lemma {:induction false} StripExtract(e: Expr, liftAll: bool)
    ensures ShouldExtract(Strip(e), liftAll) == ShouldExtract(e, liftAll)
  {
    StripConst(e);
    if e.Node? {
      StripConsts(e.kids);
      if e.kids.Cons? {
        StripExtract(e.kids.hd, false);
        if e.kids.tl.Cons? {
          StripConst(e.kids.tl.hd);
        }
      }
    }
  }

  lemma {:induction false} StripMeans(e: Expr, env: Env, I: Meaning)
    ensures Eval(Strip(e), env, I) == Eval(e, env, I)
    decreases e
  {
    match e
    case Imm(_) =>
    case Var(_) =>
    case Node(_, op, ks) => StripMeansAll(ks, env, I);
    case Let(_, v, x, b) =>
      StripMeans(x, env, I);
      StripMeans(b, env[v := Eval(x, env, I)], I);
  }

  lemma {:induction false} StripMeansAll(es: Exprs, env: Env, I: Meaning)
    ensures EvalAll(StripAll(es), env, I) == EvalAll(es, env, I)
    decreases es
  {
    if es.Cons? {
      StripMeans(es.hd, env, I);
      StripMeansAll(es.tl, env, I);
    }
  }

  // ----- substituting lets away -----

  type Subst = map<Name, Expr>

  /** The tree with its lets substituted, without tags. */
  function Expand(e: Expr, th: Subst): Expr {
    match e
    case Imm(_) => e
    case Var(v) => if v in th then th[v] else e
    case Node(_, op, ks) => Node(0, op, ExpandAll(ks, th))
    case Let(_, v, x, b) => Expand(b, th[v := Expand(x, th)])
  }

  function ExpandAll(es: Exprs, th: Subst): Exprs {
    match es
    case Nil => Nil
    case Cons(e, rest) => Cons(Expand(e, th), ExpandAll(rest, th))
  }

  ghost predicate Bound(th: Subst, env: Env, env': Env, I: Meaning) {
    && (forall v | v in th :: v in env' && env'[v] == Eval(th[v], env, I))
    && (forall v | v !in th :: (v in env' <==> v in env) && (v in env ==> env'[v] == env[v]))
  }

  /** Substitution means binding. */
  lemma {:induction false} ExpandMeans(e: Expr, th: Subst, env: Env, env': Env, I: Meaning)
    requires Bound(th, env, env', I)
    ensures Eval(Expand(e, th), env, I) == Eval(e, env', I)
    decreases e
  {
    match e
    case Imm(_) =>
    case Var(_) =>
    case Node(_, op, ks) => ExpandMeansAll(ks, th, env, env', I);
    case Let(_, v, x, b) =>
      ExpandMeans(x, th, env, env', I);
      ExpandMeans(b, th[v := Expand(x, th)], env, env'[v := Eval(x, env', I)], I);
  }

  lemma {:induction false} ExpandMeansAll(es: Exprs, th: Subst, env: Env, env': Env, I: Meaning)
    requires Bound(th, env, env', I)
    ensures EvalAll(ExpandAll(es, th), env, I) == EvalAll(es, env', I)
    decreases es
  {
    if es.Cons? {
      ExpandMeans(es.hd, th, env, env', I);
      ExpandMeansAll(es.tl, th, env, env', I);
    }
  }

  /** No let, and no variable of a set. */
  predicate Closed(e: Expr, names: set<Name>) {
    match e
    case Imm(_) => true
    case Var(v) => v !in names
    case Node(_, _, ks) => ClosedAll(ks, names)
    case Let(_, _, _, _) => false
  }

  predicate ClosedAll(es: Exprs, names: set<Name>) {
    es.Cons? ==> Closed(es.hd, names) && ClosedAll(es.tl, names)
  }

  lemma {:induction false} ExpandClosed(e: Expr, th: Subst)
    requires Closed(e, th.Keys)
    ensures Expand(e, th) == Strip(e)
  {
    if e.Node? {
      ExpandClosedAll(e.kids, th);
    }
  }

  lemma {:induction false} ExpandClosedAll(es: Exprs, th: Subst)
    requires ClosedAll(es, th.Keys)
    ensures ExpandAll(es, th) == StripAll(es)
  {
    if es.Cons? {
      ExpandClosed(es.hd, th);
      ExpandClosedAll(es.tl, th);
    }
  }

  lemma {:induction false} StripClosed(e: Expr, names: set<Name>)
    ensures Closed(Strip(e), names) == Closed(e, names)
  {
    if e.Node? {
      StripClosedAll(e.kids, names);
    }
  }

  lemma {:induction false} StripClosedAll(es: Exprs, names: set<Name>)
    ensures ClosedAll(StripAll(es), names) == ClosedAll(es, names)
  {
    if es.Cons? {
      StripClosed(es.hd, names);
      StripClosedAll(es.tl, names);
    }
  }

  lemma {:induction false} ExpandStrip(e: Expr, th: Subst)
    ensures Expand(Strip(e), th) == Expand(e, th)
    decreases e
  {
    match e
    case Imm(_) =>
    case Var(_) =>
    case Node(_, _, ks) => ExpandStripAll(ks, th);
    case Let(_, v, x, b) => ExpandStrip(x, th); ExpandStrip(b, th[v := Expand(x, th)]);
  }

  lemma {:induction false} ExpandStripAll(es: Exprs, th: Subst)
    ensures ExpandAll(StripAll(es), th) == ExpandAll(es, th)
    decreases es
  {
    if es.Cons? {
      ExpandStrip(es.hd, th);
      ExpandStripAll(es.tl, th);
    }
  }
}
