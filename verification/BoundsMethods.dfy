/** The visitor as Bounds.cpp runs it: visiting a node overwrites the interval, and lets push and pop the
    scope. Also: which let names are safe. */
module BoundsMethods {
  import opened BoundsIR
  import opened Intervals
  import opened BoundsExpr
  import opened BoundsSound
  import opened BoundsTheorem

  class Bounds {
    const o: Oracle
    var interval: Interval
    var scope: Scope
    var names: nat

    constructor (o: Oracle, scope: Scope, names: nat)
      ensures this.o == o && this.scope == scope && this.names == names
    {
      this.o, this.scope, this.names, this.interval := o, scope, names, EVERYTHING;
    }

    method Accept(e: Expr)
      modifies this
      ensures scope == old(scope) && (interval, names) == BoundsOf(o, e, old(scope), old(names))
      decreases e, 1
    {
      match e
      case Imm(_, _) => interval := Point(e);
      case Var(v, _) => interval := if v in scope then scope[v] else Point(e);
      case Abs(_) => interval := EVERYTHING;
      case Not(x) =>
        Accept(x);
        interval := if Finite(interval) then NotBounds(o, e, interval) else EVERYTHING;
      case Bin(_, _, _) => VisitBinary(e);
      case Select(_, _, _) => VisitSelect(e);
      case Let(_, _, _) => VisitLet(e);
    }

    method VisitBinary(e: Expr)
      requires e.Bin?
      modifies this
      ensures scope == old(scope) && (interval, names) == BoundsOf(o, e, old(scope), old(names))
      decreases e, 0
    {
      if e.op == GT || e.op == GE {
        Accept(e.b);
        if !interval.IsBounded() {
          interval := OfType(Bool);
          return;
        }
        var b := interval;
        Accept(e.a);
        interval := Operate(o, e, interval, b);
      } else {
        Accept(e.a);
        if (e.op == LT || e.op == LE) && !interval.IsBounded() {
          interval := OfType(Bool);
          return;
        }
        var a := interval;
        Accept(e.b);
        interval := Operate(o, e, a, interval);
      }
    }

    method VisitSelect(e: Expr)
      requires e.Select?
      modifies this
      ensures scope == old(scope) && (interval, names) == BoundsOf(o, e, old(scope), old(names))
      decreases e, 0
    {
      Accept(e.t);
      if !(interval.IsBounded() && Finite(interval)) {
        return;
      }
      var a := interval;
      Accept(e.f);
      if !(interval.IsBounded() && Finite(interval)) {
        return;
      }
      var b := interval;
      Accept(e.cond);
      if !Finite(interval) {
        interval := EVERYTHING;
        return;
      }
      var (i, n) := SelectBounds(o, TypeOf(e), a, b, interval, names);
      interval, names := i, n;
    }

    method VisitLet(e: Expr)
      requires e.Let?
      modifies this
      ensures scope == old(scope) && (interval, names) == BoundsOf(o, e, old(scope), old(names))
      decreases e, 0
    {
      Accept(e.value);
      var value := interval;
      var outer := scope;
      scope := scope[e.name := Shown(e, value)];
      Accept(e.body);
      scope := outer;
      interval := Interval(WrapBoth(interval.min, e.name, value), WrapBoth(interval.max, e.name, value));
    }
  }

  /** bounds_of_expr_in_scope. */
  method BoundsOfExprInScope(o: Oracle, e: Expr, scope: Scope, names: nat) returns (interval: Interval, used: nat)
    ensures (interval, used) == BoundsOf(o, e, scope, names)
  {
    var b := new Bounds(o, scope, names);
    b.Accept(e);
    return b.interval, b.names;
  }

  // ----- let names -----

  function LetNames(e: Expr): set<string> {
    match e
    case Imm(_, _) => {}
    case Var(_, _) => {}
    case Bin(_, a, b) => LetNames(a) + LetNames(b)
    case Not(a) => LetNames(a)
    case Abs(a) => LetNames(a)
    case Select(c, t, f) => LetNames(c) + LetNames(t) + LetNames(f)
    case Let(v, x, b) => {v} + LetNames(x) + LetNames(b)
  }

  /** No let rebinds a name inside its body. */
  predicate NotRebound(e: Expr) {
    match e
    case Imm(_, _) => true
    case Var(_, _) => true
    case Bin(_, a, b) => NotRebound(a) && NotRebound(b)
    case Not(a) => NotRebound(a)
    case Abs(a) => NotRebound(a)
    case Select(c, t, f) => NotRebound(c) && NotRebound(t) && NotRebound(f)
    case Let(v, x, b) => NotRebound(x) && NotRebound(b) && v !in LetNames(b)
  }

  lemma BoundNamesDiffer(u: string, v: string)
    ensures MinName(u) != MaxName(v)
    ensures MinName(u) == MinName(v) ==> u == v
    ensures MaxName(u) == MaxName(v) ==> u == v
  {
    assert MinName(u)[|MinName(u)| - 1] == 'n' && MaxName(v)[|MaxName(v)| - 1] == 'x';
    assert MinName(u)[..|MinName(u)| - 4] == u && MinName(v)[..|MinName(v)| - 4] == v;
    assert MaxName(u)[..|MaxName(u)| - 4] == u && MaxName(v)[..|MaxName(v)| - 4] == v;
  }

  /** The names that lets give to bounds are those of let names. */
  predicate BoundName(e: Expr, name: string) {
    exists v :: v in LetNames(e) && (name == MinName(v) || name == MaxName(v))
  }

  /** Lets that do not rebind a name are hygienic, if nothing uses the names they give to bounds. */
  lemma {:induction false} UniqueIsHygienic(e: Expr, used: set<string>)
    requires NotRebound(e) && forall name | name in used :: !BoundName(e, name)
    ensures Hygienic(e, used)
    decreases e
  {
    match e
    case Imm(_, _) =>
    case Var(_, _) =>
    case Bin(_, a, b) => PartNames(e, a, used); PartNames(e, b, used); UniqueIsHygienic(a, used);
        UniqueIsHygienic(b, used);
    case Not(a) => PartNames(e, a, used); UniqueIsHygienic(a, used);
    case Abs(a) => PartNames(e, a, used); UniqueIsHygienic(a, used);
    case Select(c, t, f) =>
      PartNames(e, c, used);
      PartNames(e, t, used);
      PartNames(e, f, used);
      UniqueIsHygienic(c, used);
      UniqueIsHygienic(t, used);
      UniqueIsHygienic(f, used);
    case Let(v, x, b) =>
      PartNames(e, x, used);
      PartNames(e, b, used);
      UniqueIsHygienic(x, used);
      assert BoundName(e, MinName(v)) && BoundName(e, MaxName(v));
      forall name | name in used + {MinName(v), MaxName(v)} ensures !BoundName(b, name) {
        forall u | u in LetNames(b) ensures name != MinName(u) && name != MaxName(u) {
          BoundNamesDiffer(u, v);
          BoundNamesDiffer(v, u);
          assert BoundName(e, MinName(u)) && BoundName(e, MaxName(u));
        }
      }
      UniqueIsHygienic(b, used + {MinName(v), MaxName(v)});
  }

  lemma PartNames(e: Expr, part: Expr, used: set<string>)
    requires LetNames(part) <= LetNames(e) && forall name | name in used :: !BoundName(e, name)
    ensures forall name | name in used :: !BoundName(part, name)
  {
    forall name | name in used ensures !BoundName(part, name) {
      assert !BoundName(e, name);
    }
  }

  /** let x = y in let x = 0 - x in x, with y somewhere between p and q. */
  const NEGATED := Bin(Sub, Imm(0, Int), Var("x", Int))
  const INNER := Let("x", NEGATED, Var("x", Int))
  const REBOUND := Let("x", Var("y", Int), INNER)
  const BETWEEN := Interval(Fin(Var("p", Int)), Fin(Var("q", Int)))

  const LOW := Var("x.min", Int)
  const HIGH := Var("x.max", Int)
  const SEEN := Interval(Fin(LOW), Fin(HIGH))
  const NEGATED_LOW := Bin(Sub, Imm(0, Int), HIGH)
  const NEGATED_HIGH := Bin(Sub, Imm(0, Int), LOW)

  /** The inner lower bound: x.max is bound around x.min, which needs the x.max of outside. */
  const CAPTURED := Let("x.max", NEGATED_HIGH, Let("x.min", NEGATED_LOW, LOW))

  lemma InnerBounds(o: Oracle, scope: Scope, n: nat)
    requires (forall a, b :: !o.same(a, b)) && "x" in scope && scope["x"] == SEEN
    ensures BoundsOf(o, INNER, scope, n).0.min == Fin(CAPTURED)
  {
    var x := Var("x", Int);
    var value := Interval(Fin(NEGATED_LOW), Fin(NEGATED_HIGH));
    assert BoundsOf(o, Imm(0, Int), scope, n) == (Point(Imm(0, Int)), n);
    assert BoundsOf(o, NEGATED, scope, n) == (value, n);
    assert MinName("x") == "x.min" && MaxName("x") == "x.max";
    assert BoundsOf(o, x, scope["x" := SEEN], n) == (SEEN, n);
    InnerWrap(value);
  }

  lemma InnerWrap(value: Interval)
    requires value == Interval(Fin(NEGATED_LOW), Fin(NEGATED_HIGH))
    ensures WrapBoth(Fin(LOW), "x", value) == Fin(CAPTURED)
  {
    assert MinName("x") == "x.min" && MaxName("x") == "x.max";
    assert "x.min" in Names(LOW);
    assert "x.max" in Names(NEGATED_LOW);
  }

  lemma OuterWrap()
    ensures WrapBoth(Fin(CAPTURED), "x", BETWEEN)
            == Fin(Let("x.max", Var("q", Int), Let("x.min", Var("p", Int), CAPTURED)))
  {
    assert MinName("x") == "x.min" && MaxName("x") == "x.max";
    assert "x.min" in Names(CAPTURED) && "x.max" in Names(CAPTURED);
    hide Names;
  }

  lemma CapturedMeans(env: Env, m: int)
    requires Get(env, "x.min") == m
    ensures Eval(CAPTURED, env) == m
  {
    var env1 := env["x.max" := 0 - m];
    EvalLet("x.max", NEGATED_HIGH, Let("x.min", NEGATED_LOW, LOW), env);
    assert Eval(NEGATED_HIGH, env) == 0 - m;
    assert Eval(NEGATED_LOW, env1) == m;
    EvalLet("x.min", NEGATED_LOW, LOW, env1);
  }

  /** Rebinding a name captures a bound: the lower bound comes out as p, although the value is -y. */
  lemma ReboundIsUnsound(o: Oracle, scope: Scope, env: Env, val: Env)
    requires (forall a, b :: !o.same(a, b)) && scope == map["y" := BETWEEN]
    requires env == map["p" := 1, "q" := 1] && val == map["y" := 1]
    ensures Contains(scope["y"], env, Eval(Var("y", Int), val))
    ensures !Contains(BoundsOf(o, REBOUND, scope, 0).0, env, Eval(REBOUND, val))
  {
    ReboundBounds(o, scope);
    ReboundMeans(env);
    ReboundValue(val);
    hide BoundsOf, WrapBoth;
  }

  lemma ReboundBounds(o: Oracle, scope: Scope)
    requires (forall a, b :: !o.same(a, b)) && scope == map["y" := BETWEEN]
    ensures BoundsOf(o, REBOUND, scope, 0).0.min
            == Fin(Let("x.max", Var("q", Int), Let("x.min", Var("p", Int), CAPTURED)))
  {
    var scope' := scope["x" := SEEN];
    assert BoundsOf(o, Var("y", Int), scope, 0) == (BETWEEN, 0);
    assert MinName("x") == "x.min" && MaxName("x") == "x.max";
    InnerBounds(o, scope', 0);
    OuterWrap();
    assert BoundsOf(o, REBOUND, scope, 0).0.min == WrapBoth(Fin(CAPTURED), "x", BETWEEN) by { hide WrapBoth; }
  }

  lemma ReboundMeans(env: Env)
    requires env == map["p" := 1, "q" := 1]
    ensures Eval(Let("x.max", Var("q", Int), Let("x.min", Var("p", Int), CAPTURED)), env) > -1
  {
    var env1 := env["x.max" := 1];
    var env2 := env1["x.min" := 1];
    EvalLet("x.max", Var("q", Int), Let("x.min", Var("p", Int), CAPTURED), env);
    EvalLet("x.min", Var("p", Int), CAPTURED, env1);
    CapturedMeans(env2, 1);
  }

  lemma ReboundValue(val: Env)
    requires Get(val, "y") == 1
    ensures Eval(REBOUND, val) == -1
  {
    EvalLet("x", Var("y", Int), INNER, val);
    var val1 := val["x" := 1];
    EvalLet("x", NEGATED, Var("x", Int), val1);
    assert Eval(NEGATED, val1) == -1;
  }
}
