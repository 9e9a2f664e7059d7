/** bounds_of_expr_in_scope is sound (Bounds.cpp), for every expression, scope and environment. */
module BoundsTheorem {
  import opened BoundsIR
  import opened Intervals
  import opened BoundsExpr
  import opened BoundsSound

  // ----- names -----

  /** The names that the lets of an expression give to bounds. */
  function Derived(e: Expr): set<string> {
    match e
    case Imm(_, _) => {}
    case Var(_, _) => {}
    case Bin(_, a, b) => Derived(a) + Derived(b)
    case Not(a) => Derived(a)
    case Abs(a) => Derived(a)
    case Select(c, t, f) => Derived(c) + Derived(t) + Derived(f)
    case Let(v, x, b) => {MinName(v), MaxName(v)} + Derived(x) + Derived(b)
  }

  /** The names a let gives to its bounds are not in use where it stands. Holds when no let rebinds a name
      inside its value or body. */
  predicate Hygienic(e: Expr, used: set<string>) {
    match e
    case Imm(_, _) => true
    case Var(_, _) => true
    case Bin(_, a, b) => Hygienic(a, used) && Hygienic(b, used)
    case Not(a) => Hygienic(a, used)
    case Abs(a) => Hygienic(a, used)
    case Select(c, t, f) => Hygienic(c, used) && Hygienic(t, used) && Hygienic(f, used)
    case Let(v, x, b) =>
      Hygienic(x, used) && Hygienic(b, used + {MinName(v), MaxName(v)}) && {MinName(v), MaxName(v)} !! used
  }

  /** From the n-th on new names are new. */
  ghost predicate NewNames(o: Oracle, n: nat, used: set<string>) {
    && (forall i: nat | n <= i :: o.newName(i) !in used)
    && (forall i: nat, j: nat | o.newName(i) == o.newName(j) :: i == j)
  }

  /** Only names of `k` are free. */
  predicate Uses(e: Expr, k: set<string>) {
    Free(e) <= k
  }

  predicate BoundUses(b: Bound, k: set<string>) {
    b.Fin? ==> Uses(b.e, k)
  }

  predicate IntervalUses(i: Interval, k: set<string>) {
    BoundUses(i.min, k) && BoundUses(i.max, k)
  }

  lemma UsesBin(op: BinOp, a: Expr, b: Expr, k: set<string>)
    requires Uses(a, k) && Uses(b, k)
    ensures Uses(Bin(op, a, b), k)
  {
  }

  lemma UsesSelect(c: Expr, t: Expr, f: Expr, k: set<string>)
    requires Uses(c, k) && Uses(t, k) && Uses(f, k)
    ensures Uses(Select(c, t, f), k)
  {
  }

  lemma UsesConstants(k: set<string>)
    ensures forall n, ty :: Uses(Imm(n, ty), k)
  {
  }

  lemma UsesCombine(o: Oracle, op: BinOp, a: Expr, b: Expr, k: set<string>)
    requires (op == Min || op == Max) && Uses(a, k) && Uses(b, k)
    ensures Uses(Combine(o, op, a, b), k)
  {
    CombineFree(o, op, a, b);
  }

  lemma SelectSideUses(o: Oracle, pick: BinOp, ty: Type, cond: Interval, x: Expr, y: Expr, n: nat, k: set<string>)
    requires (pick == Min || pick == Max) && Finite(cond)
    requires Uses(x, k) && Uses(y, k) && IntervalUses(cond, k)
    ensures var (side, n') := SelectSide(o, pick, ty, cond, x, y, n); n <= n' && Uses(side, k)
  {
    var v, w := Var(o.newName(n), ty), Var(o.newName(n + 1), ty);
    var k1, k2 := k + {v.name}, k + {v.name, w.name};
    assert Uses(v, k1) && Uses(v, k2) && Uses(w, k2);
    MoreUses(cond, k, k1);
    MoreUses(cond, k, k2);
    MoreUses(Interval(Fin(x), Fin(y)), k, k1);
    MoreUses(Interval(Fin(x), Fin(y)), k, k2);
    hide Uses;
    UsesCombine(o, pick, x, y, k);
    UsesSelect(cond.min.e, x, y, k);
    OneNameUses(o, pick, cond.min.e, v, y, v, x, k, k1);
    OneNameUses(o, pick, cond.max.e, x, v, v, y, k, k1);
    UsesSelect(cond.min.e, v, w, k2);
    UsesSelect(cond.max.e, v, w, k2);
    var both := Combine(o, pick, Select(cond.min.e, v, w), Select(cond.max.e, v, w));
    UsesCombine(o, pick, Select(cond.min.e, v, w), Select(cond.max.e, v, w), k2);
    var k3 := k + {w.name};
    assert k2 == k3 + {v.name};
    MoreUses(Interval(Fin(x), Fin(y)), k, k3);
    UsesLet(v, x, both, k3, k2);
    UsesLet(w, y, Let(v.name, x, both), k, k3);
  }

  lemma OneNameUses(o: Oracle, pick: BinOp, c: Expr, t: Expr, f: Expr, v: Expr, shared: Expr, k: set<string>,
                    more: set<string>)
    requires (pick == Min || pick == Max) && v.Var? && more == k + {v.name} && Uses(shared, k)
    requires Uses(c, more) && Uses(t, more) && Uses(f, more) && Uses(v, more)
    ensures Uses(Let(v.name, shared, Combine(o, pick, Select(c, t, f), v)), k)
  {
    UsesSelect(c, t, f, more);
    UsesCombine(o, pick, Select(c, t, f), v, more);
  }

  lemma UsesLet(v: Expr, x: Expr, b: Expr, k: set<string>, more: set<string>)
    requires v.Var? && more == k + {v.name} && Uses(x, k) && Uses(b, more)
    ensures Uses(Let(v.name, x, b), k)
  {
  }

  lemma MoreUses(i: Interval, k: set<string>, more: set<string>)
    requires IntervalUses(i, k) && k <= more
    ensures IntervalUses(i, more)
  {
  }

  lemma IncludeUses(o: Oracle, i: Interval, e: Expr, k: set<string>)
    requires IntervalUses(i, k) && Uses(e, k)
    ensures IntervalUses(Include(o, i, e), k)
  {
    if i.min.Fin? {
      UsesCombine(o, Min, i.min.e, e, k);
    }
    if i.max.Fin? {
      UsesCombine(o, Max, i.max.e, e, k);
    }
    hide Uses;
  }

  lemma CornersUse(o: Oracle, op: BinOp, a1: Expr, a2: Expr, b1: Expr, b2: Expr, k: set<string>)
    requires Uses(a1, k) && Uses(a2, k) && Uses(b1, k) && Uses(b2, k)
    ensures IntervalUses(Corners(o, op, a1, a2, b1, b2), k)
  {
    hide Uses;
    UsesBin(op, a1, b1, k);
    UsesBin(op, a1, b2, k);
    UsesBin(op, a2, b1, k);
    UsesBin(op, a2, b2, k);
    var e2, e3 := if op == Div then Bin(op, a2, b1) else Bin(op, a1, b2), if op == Div then Bin(op, a1, b2)
        else Bin(op, a2, b1);
    var i1 := Include(o, NOTHING, Bin(op, a1, b1));
    var i2 := Include(o, i1, e2);
    var i3 := Include(o, i2, e3);
    IncludeUses(o, NOTHING, Bin(op, a1, b1), k);
    IncludeUses(o, i1, e2, k);
    IncludeUses(o, i2, e3, k);
    IncludeUses(o, i3, Bin(op, a2, b2), k);
    hide Include;
  }

  lemma ScaleUses(op: BinOp, a: Interval, low: Expr, high: Expr, cmp: BinOp, k: set<string>)
    requires IntervalUses(a, k) && Uses(low, k) && Uses(high, k)
    ensures IntervalUses(ScaleBounds(op, a, low, high, cmp), k)
  {
    UsesConstants(k);
    hide Uses;
    UsesBin(cmp, low, Zero(Int), k);
    if a.min.Fin? {
      UsesBin(op, a.min.e, low, k);
    }
    if a.max.Fin? {
      UsesBin(op, a.max.e, high, k);
    }
    if a.min.Fin? && a.max.Fin? {
      var c, e1, e2 := Bin(cmp, low, Zero(Int)), Bin(op, a.min.e, low), Bin(op, a.max.e, high);
      UsesSelect(c, e1, e2, k);
      UsesSelect(c, e2, e1, k);
    }
  }

  /** Every pair of ends can be put under every operator. */
  lemma EndsUse(op: BinOp, a: Interval, b: Interval, k: set<string>)
    requires IntervalUses(a, k) && IntervalUses(b, k)
    ensures a.min.Fin? && b.min.Fin? ==> Uses(Bin(op, a.min.e, b.min.e), k)
    ensures a.min.Fin? && b.max.Fin? ==> Uses(Bin(op, a.min.e, b.max.e), k)
    ensures a.max.Fin? && b.min.Fin? ==> Uses(Bin(op, a.max.e, b.min.e), k)
    ensures a.max.Fin? && b.max.Fin? ==> Uses(Bin(op, a.max.e, b.max.e), k)
  {
  }

  /** A node that stands for itself mentions only what its operands' intervals mention. */
  lemma PointUses(o: Oracle, e: Expr, a: Interval, b: Interval, k: set<string>)
    requires Honest(o) && e.Bin? && IntervalUses(a, k) && IntervalUses(b, k)
    ensures a.IsPointOf(o, e.a) && b.IsPointOf(o, e.b) ==> Uses(e, k)
    ensures b.IsPointOf(o, e.a) && a.IsPointOf(o, e.b) ==> Uses(e, k)
  {
  }

  lemma TimesUses(o: Oracle, e: Expr, a: Interval, b: Interval, k: set<string>)
    requires Honest(o) && e.Bin? && IntervalUses(a, k) && IntervalUses(b, k)
    ensures IntervalUses(TimesBounds(o, e, a, b), k) && IntervalUses(DivideBounds(o, e, a, b), k)
  {
    PointUses(o, e, a, b, k);
    hide Uses;
    EndsUse(Mul, a, b, k);
    EndsUse(Mul, b, a, k);
    if Finite(a) && Finite(b) {
      CornersUse(o, Mul, a.min.e, a.max.e, b.min.e, b.max.e, k);
      CornersUse(o, Mul, b.min.e, b.max.e, a.min.e, a.max.e, k);
      CornersUse(o, Div, a.min.e, a.max.e, b.min.e, b.max.e, k);
    }
    if b.min.Fin? {
      ScaleUses(Mul, a, b.min.e, b.min.e, GE, k);
      if b.max.Fin? {
        ScaleUses(Div, a, b.min.e, b.max.e, GT, k);
      }
    }
    if a.min.Fin? {
      ScaleUses(Mul, b, a.min.e, a.min.e, GE, k);
    }
    hide Corners, ScaleBounds, Honest, SameBound;
  }

  lemma RemainderUses(o: Oracle, e: Expr, a: Interval, b: Interval, k: set<string>)
    requires Honest(o) && e.Bin? && IntervalUses(a, k) && IntervalUses(b, k)
    ensures IntervalUses(RemainderBounds(o, e, a, b), k)
  {
    PointUses(o, e, a, b, k);
    UsesConstants(k);
    EndsUse(Mod, a, b, k);
    if Finite(b) {
      var p, q := Abs(b.min.e), Abs(b.max.e);
      assert Uses(p, k) && Uses(q, k);
      hide Uses;
      UsesBin(Max, p, q, k);
      UsesBin(Sub, Bin(Max, p, q), One(Int), k);
      UsesBin(Sub, b.max.e, One(Int), k);
    }
    hide Uses;
  }

  lemma ExtremeUses(o: Oracle, e: Expr, a: Interval, b: Interval, k: set<string>)
    requires e.Bin? && (e.op == Min || e.op == Max) && Honest(o) && IntervalUses(a, k) && IntervalUses(b, k)
    ensures IntervalUses(ExtremeBounds(o, e, a, b), k)
  {
    PointUses(o, e, a, b, k);
    hide Uses;
    if a.min.Fin? && b.min.Fin? {
      UsesCombine(o, e.op, a.min.e, b.min.e, k);
    }
    if a.max.Fin? && b.max.Fin? {
      UsesCombine(o, e.op, a.max.e, b.max.e, k);
    }
  }

  lemma EqualUses(o: Oracle, e: Expr, a: Interval, b: Interval, k: set<string>)
    requires e.Bin? && (e.op == EQ || e.op == NE) && Honest(o) && IntervalUses(a, k) && IntervalUses(b, k)
    ensures IntervalUses(EqualBounds(o, e, a, b), k)
  {
    PointUses(o, e, a, b, k);
    UsesConstants(k);
    hide Uses;
    EndsUse(e.op, a, b, k);
    EndsUse(LE, a, b, k);
    EndsUse(LE, b, a, k);
    EndsUse(GT, a, b, k);
    EndsUse(GT, b, a, k);
    if Finite(a) && Finite(b) {
      UsesBin(And, Bin(LE, a.min.e, b.max.e), Bin(LE, b.min.e, a.max.e), k);
      UsesBin(Or, Bin(GT, a.min.e, b.max.e), Bin(GT, b.min.e, a.max.e), k);
    }
  }

  lemma SumUses(o: Oracle, e: Expr, a: Interval, b: Interval, k: set<string>)
    requires Honest(o) && e.Bin? && IntervalUses(a, k) && IntervalUses(b, k)
    ensures IntervalUses(PlusBounds(o, e, a, b), k) && IntervalUses(MinusBounds(o, e, a, b), k)
  {
    PointUses(o, e, a, b, k);
    EndsUse(Add, a, b, k);
    EndsUse(Sub, a, b, k);
    hide Uses, Honest, SameBound;
  }

  lemma CompareUses(cmp: BinOp, a: Interval, b: Interval, k: set<string>)
    requires IntervalUses(a, k) && IntervalUses(b, k)
    ensures IntervalUses(CompareBounds(cmp, a, b), k)
  {
    UsesConstants(k);
    EndsUse(cmp, a, b, k);
    hide Uses;
  }

  lemma LogicUses(o: Oracle, e: Expr, a: Interval, b: Interval, k: set<string>)
    requires Honest(o) && e.Bin? && (e.op == And || e.op == Or) && Finite(a) && Finite(b) && IntervalUses(a, k)
             && IntervalUses(b, k)
    ensures IntervalUses(LogicBounds(o, e, a, b), k)
  {
    PointUses(o, e, a, b, k);
    EndsUse(And, a, b, k);
    EndsUse(Or, a, b, k);
    hide Uses, Honest, SameBound;
  }

  /** The interval of a node mentions what its operands and their intervals mention. */
  lemma OperateUses(o: Oracle, e: Expr, a: Interval, b: Interval, k: set<string>)
    requires Honest(o) && e.Bin? && IntervalUses(a, k) && IntervalUses(b, k)
    ensures IntervalUses(Operate(o, e, a, b), k)
  {
    hide Uses, Honest, PlusBounds, MinusBounds, TimesBounds, DivideBounds, RemainderBounds, ExtremeBounds, EqualBounds,
      LogicBounds, CompareBounds;
    match e.op
    case Add => SumUses(o, e, a, b, k);
    case Sub => SumUses(o, e, a, b, k);
    case Mul => TimesUses(o, e, a, b, k);
    case Div => TimesUses(o, e, a, b, k);
    case Mod => RemainderUses(o, e, a, b, k);
    case Min => ExtremeUses(o, e, a, b, k);
    case Max => ExtremeUses(o, e, a, b, k);
    case EQ => EqualUses(o, e, a, b, k);
    case NE => EqualUses(o, e, a, b, k);
    case And => if Finite(a) && Finite(b) { LogicUses(o, e, a, b, k); }
    case Or => if Finite(a) && Finite(b) { LogicUses(o, e, a, b, k); }
    case LT => CompareUses(LT, a, b, k);
    case LE => CompareUses(LE, a, b, k);
    case GT => CompareUses(LT, b, a, k);
    case GE => CompareUses(LE, b, a, k);
  }

  predicate ScopeUses(scope: Scope, k: set<string>) {
    forall v | v in scope :: IntervalUses(scope[v], k)
  }

  lemma WrapUses(side: Bound, name: string, value: Bound, k: set<string>)
    requires BoundUses(side, k + {name}) && BoundUses(value, k)
    requires (value.Fin? && !IsConst(value.e)) || BoundUses(side, k)
    ensures BoundUses(Wrap(side, name, value), k)
  {
    if side.Fin? {
      FreeAreNames(side.e);
    }
  }

  lemma SelectUses(o: Oracle, ty: Type, a: Interval, b: Interval, cond: Interval, n: nat, k: set<string>)
    requires Finite(a) && Finite(b) && Finite(cond) && IntervalUses(a, k) && IntervalUses(b, k) && IntervalUses(cond, k)
    ensures var (i, n') := SelectBounds(o, ty, a, b, cond, n); n <= n' && IntervalUses(i, k)
  {
    hide Uses;
    var (low, n1) := SelectSide(o, Min, ty, cond, a.min.e, b.min.e, n);
    SelectSideUses(o, Min, ty, cond, a.min.e, b.min.e, n, k);
    SelectSideUses(o, Max, ty, cond, a.max.e, b.max.e, n1, k);
    hide SelectSide;
  }

  /** The names outside the scope that an expression refers to. */
  function Outside(e: Expr, scope: Scope): set<string> {
    Free(e) - scope.Keys
  }

  /** The analysis brings in no free names but those of the scope and those of the expression that are not
      in scope. */
  lemma {:induction false} BoundsUse(o: Oracle, e: Expr, scope: Scope, n: nat, used: set<string>)
    requires Honest(o) && Outside(e, scope) <= used && ScopeUses(scope, used)
    ensures var (i, n') := BoundsOf(o, e, scope, n); n <= n' && IntervalUses(i, used)
    decreases e, 1
  {
    match e
    case Imm(_, _) =>
    case Var(v, _) =>
    case Abs(_) =>
    case Not(x) => BoundsUse(o, x, scope, n, used);
    case Bin(op, _, _) =>
      var (x, y) := if op == GT || op == GE then (e.b, e.a) else (e.a, e.b);
      BoundsUse(o, x, scope, n, used);
      BoundsUse(o, y, scope, BoundsOf(o, x, scope, n).1, used);
      BinUses(o, e, scope, n, used);
    case Select(c, x, y) =>
      var (a, n1) := BoundsOf(o, x, scope, n);
      var (b, n2) := BoundsOf(o, y, scope, n1);
      var (i, n3) := BoundsOf(o, c, scope, n2);
      BoundsUse(o, x, scope, n, used);
      BoundsUse(o, y, scope, n1, used);
      BoundsUse(o, c, scope, n2, used);
      hide Uses, SelectBounds;
      if Finite(a) && Finite(b) && Finite(i) {
        SelectUses(o, TypeOf(e), a, b, i, n3, used);
      }
    case Let(_, _, _) => LetUse(o, e, scope, n, used);
  }

  lemma BinUses(o: Oracle, e: Expr, scope: Scope, n: nat, used: set<string>)
    requires Honest(o) && e.Bin?
    requires var (x, y) := if e.op == GT || e.op == GE then (e.b, e.a) else (e.a, e.b);
             var (a, n1) := BoundsOf(o, x, scope, n);
             var (b, n2) := BoundsOf(o, y, scope, n1);
             n <= n1 <= n2 && IntervalUses(a, used) && IntervalUses(b, used)
    ensures var (i, n') := BoundsOf(o, e, scope, n); n <= n' && IntervalUses(i, used)
  {
    var (x, y) := if e.op == GT || e.op == GE then (e.b, e.a) else (e.a, e.b);
    var (a, n1) := BoundsOf(o, x, scope, n);
    var (b, n2) := BoundsOf(o, y, scope, n1);
    UsesConstants(used);
    hide Uses, Honest;
    OperateUses(o, e, a, b, used);
    OperateUses(o, e, b, a, used);
    hide Operate;
  }

  function Shown(e: Expr, value: Interval): Interval
    requires e.Let?
  {
    Interval(ByName(value.min, MinName(e.name), TypeOf(e.value)), ByName(value.max, MaxName(e.name), TypeOf(e.value)))
  }

  /** The names that stand for the bounds of a let variable in its body. */
  function ShownNames(e: Expr, value: Interval): set<string>
    requires e.Let?
  {
    (if value.min.Fin? && !IsConst(value.min.e) then {MinName(e.name)} else {})
    + (if value.max.Fin? && !IsConst(value.max.e) then {MaxName(e.name)} else {})
  }

  lemma {:induction false} LetUse(o: Oracle, e: Expr, scope: Scope, n: nat, used: set<string>)
    requires e.Let? && Honest(o) && Outside(e, scope) <= used && ScopeUses(scope, used)
    ensures var (i, n') := BoundsOf(o, e, scope, n); n <= n' && IntervalUses(i, used)
    decreases e, 0
  {
    var (value, n1) := BoundsOf(o, e.value, scope, n);
    BoundsUse(o, e.value, scope, n, used);
    var scope', used' := scope[e.name := Shown(e, value)], used + ShownNames(e, value);
    BodyScopeUses(e, scope, used, value);
    var (r, n2) := BoundsOf(o, e.body, scope', n1);
    BoundsUse(o, e.body, scope', n1, used');
    hide Uses, ScopeUses, Outside;
    WrapBothUses(r.min, e, value, used);
    WrapBothUses(r.max, e, value, used);
    hide WrapBoth;
  }

  lemma BodyScopeUses(e: Expr, scope: Scope, used: set<string>, value: Interval)
    requires e.Let? && Outside(e, scope) <= used && ScopeUses(scope, used)
    ensures var scope', used' := scope[e.name := Shown(e, value)], used + ShownNames(e, value);
            ScopeUses(scope', used') && Outside(e.body, scope') <= used'
  {
    var scope', used' := scope[e.name := Shown(e, value)], used + ShownNames(e, value);
    forall v | v in scope' ensures IntervalUses(scope'[v], used') {
      if v != e.name {
        MoreUses(scope[v], used, used');
      }
    }
  }

  lemma WrapBothUses(side: Bound, e: Expr, value: Interval, k: set<string>)
    requires e.Let? && BoundUses(side, k + ShownNames(e, value)) && IntervalUses(value, k)
    ensures BoundUses(WrapBoth(side, e.name, value), k)
  {
    var max := if value.max.Fin? && !IsConst(value.max.e) then {MaxName(e.name)} else {};
    MoreUses(Interval(value.min, value.min), k, k + max);
    WrapUses(side, MinName(e.name), value.min, k + max);
    WrapUses(Wrap(side, MinName(e.name), value.min), MaxName(e.name), value.max, k);
  }

  // ----- soundness -----

  /** The interval of every variable in scope covers its value, and the other variables of the expression
      mean in the bounds what they mean in the expression. */
  ghost predicate Fits(e: Expr, scope: Scope, types: Types, val: Env, env: Env) {
    && scope.Keys == types.Keys
    && (forall v | v in scope :: Covers(scope[v], types[v], env, Eval(Var(v, types[v]), val)))
    && (forall v | v in Free(e) && v !in scope :: Get(val, v) == Get(env, v))
  }

  /** The other branch is within a branch whose interval is returned unchanged. */
  ghost predicate BranchFits(half: Interval, other: Interval, env: Env) {
    && (half.min.NegInf? || (half.min.Fin? && other.min.Fin? && Eval(half.min.e, env) <= Eval(other.min.e, env)))
    && (half.max.PosInf? || (half.max.Fin? && other.max.Fin? && Eval(other.max.e, env) <= Eval(half.max.e, env)))
  }

  /** Where the two early exits of the analysis are right, and no divisor of a remainder is zero. */
  ghost predicate Guarded(o: Oracle, e: Expr, scope: Scope, n: nat, val: Env, env: Env) {
    match e
    case Imm(_, _) => true
    case Var(_, _) => true
    case Abs(_) => true
    case Not(x) => Guarded(o, x, scope, n, val, env)
    case Bin(op, x, y) =>
      if op == GT || op == GE then
        Guarded(o, y, scope, n, val, env) && Guarded(o, x, scope, BoundsOf(o, y, scope, n).1, val, env)
      else
        var n1 := BoundsOf(o, x, scope, n).1;
        && Guarded(o, x, scope, n, val, env) && Guarded(o, y, scope, n1, val, env)
        && (op == Mod ==> Eval(y, val) != 0 && DivisorFits(BoundsOf(o, y, scope, n1).0, env))
    case Select(c, x, y) =>
      var (a, n1) := BoundsOf(o, x, scope, n);
      var (b, n2) := BoundsOf(o, y, scope, n1);
      && Guarded(o, x, scope, n, val, env) && Guarded(o, y, scope, n1, val, env)
      && if !Finite(a) then BranchFits(a, b, env)
         else if !Finite(b) then BranchFits(b, a, env)
         else Guarded(o, c, scope, n2, val, env)
    case Let(v, x, body) =>
      var (value, n1) := BoundsOf(o, x, scope, n);
      && Guarded(o, x, scope, n, val, env)
      && Guarded(o, body, scope[v := Shown(e, value)], n1, val[v := Eval(x, val)], BindBounds(env, v, value))
  }

  /** The environment in which the bounds of a let variable have their names. */
  ghost function BindBounds(env: Env, v: string, value: Interval): Env {
    var env1 := if value.min.Fin? && !IsConst(value.min.e) then env[MinName(v) := Eval(value.min.e, env)] else env;
    if value.max.Fin? && !IsConst(value.max.e) then env1[MaxName(v) := Eval(value.max.e, env)] else env1
  }

  lemma NamesDiffer(v: string)
    ensures MinName(v) != MaxName(v)
  {
    assert MinName(v)[|v| + 2] == 'i' && MaxName(v)[|v| + 2] == 'a';
  }

  /** Wrapping is binding. */
  lemma WrapMeans(side: Expr, v: string, value: Interval, env: Env)
    requires value.min.Fin? ==> MaxName(v) !in Free(value.min.e)
    ensures var w := WrapBoth(Fin(side), v, value);
            w.Fin? && Eval(w.e, env) == Eval(side, BindBounds(env, v, value))
  {
    NamesDiffer(v);
    var s1 := Wrap(Fin(side), MinName(v), value.min).e;
    if value.max.Fin? && !IsConst(value.max.e) {
      var m := Eval(value.max.e, env);
      var env1 := env[MaxName(v) := m];
      WrapOneMeans(s1, MaxName(v), value.max.e, env);
      if value.min.Fin? {
        EvalUpdate(value.min.e, env, MaxName(v), m);
      }
      WrapOneValue(side, v, value.min, env, env1);
      if value.min.Fin? && !IsConst(value.min.e) {
        assert env1[MinName(v) := Eval(value.min.e, env)] == BindBounds(env, v, value);
      }
    } else {
      WrapOneValue(side, v, value.min, env, env);
    }
    hide Eval;
  }

  /** What wrapping comes to, whatever the names: the upper bound is bound first, and the lower bound is
      evaluated under it. */
  ghost function WrapBinds(env: Env, v: string, value: Interval): Env {
    var env1 := if value.max.Fin? && !IsConst(value.max.e) then env[MaxName(v) := Eval(value.max.e, env)] else env;
    if value.min.Fin? && !IsConst(value.min.e) then env1[MinName(v) := Eval(value.min.e, env1)] else env1
  }

  lemma WrapMeansAlways(side: Expr, v: string, value: Interval, env: Env)
    ensures var w := WrapBoth(Fin(side), v, value); w.Fin? && Eval(w.e, env) == Eval(side, WrapBinds(env, v, value))
  {
    var s1 := Wrap(Fin(side), MinName(v), value.min).e;
    var env1 := env;
    if value.max.Fin? && !IsConst(value.max.e) {
      env1 := env[MaxName(v) := Eval(value.max.e, env)];
      WrapOneMeans(s1, MaxName(v), value.max.e, env);
    }
    if value.min.Fin? && !IsConst(value.min.e) {
      WrapOneMeans(side, MinName(v), value.min.e, env1);
    }
    hide Eval;
  }

  /** Binding the name to the value changes nothing. */
  ghost predicate Indifferent(e: Expr, name: string, value: Expr) {
    forall env: Env :: Eval(e, Rebind(env, name, value)) == Eval(e, env)
  }

  ghost function Rebind(env: Env, name: string, value: Expr): Env {
    env[name := Eval(value, env)]
  }

  /** A bound of the body, wrapped, means what it means where the bounds of the value have their names. */
  ghost predicate WrapsRight(side: Expr, v: string, value: Interval, env: Env) {
    var w := WrapBoth(Fin(side), v, value);
    w.Fin? && Eval(w.e, env) == Eval(side, BindBounds(env, v, value))
  }

  /** Wrapping any bound `side` of the body goes wrong exactly where the bound tells the lower bound of the value from
      what that lower bound becomes when the name of the upper bound is bound around it. */
  lemma CapturedExactly(side: Expr, v: string, value: Interval, env: Env)
    requires Finite(value) && !IsConst(value.min.e) && !IsConst(value.max.e)
    ensures var bound := Rebind(env, MaxName(v), value.max.e);
            WrapsRight(side, v, value, env) <==>
            Eval(side, bound[MinName(v) := Eval(value.min.e, bound)])
            == Eval(side, bound[MinName(v) := Eval(value.min.e, env)])
  {
    var bound := Rebind(env, MaxName(v), value.max.e);
    var low := Eval(value.min.e, env);
    WrapMeansAlways(side, v, value, env);
    NamesDiffer(v);
    assert BindBounds(env, v, value) == bound[MinName(v) := low];
    hide Eval, WrapBoth;
  }

  /** Every bound of every body is wrapped right if and only if the lower bound of the value does not depend on what
      the name of the upper bound already stood for; it does not if it does not mention that name. */
  lemma NeverCapturedExactly(v: string, value: Interval)
    requires Finite(value) && !IsConst(value.min.e) && !IsConst(value.max.e)
    ensures (forall side, env: Env :: WrapsRight(side, v, value, env))
            <==> Indifferent(value.min.e, MaxName(v), value.max.e)
    ensures MaxName(v) !in Free(value.min.e) ==> Indifferent(value.min.e, MaxName(v), value.max.e)
  {
    var low, name, high := value.min.e, MaxName(v), value.max.e;
    if Indifferent(low, name, high) {
      forall side, env: Env ensures WrapsRight(side, v, value, env) {
        CapturedExactly(side, v, value, env);
        assert Eval(low, Rebind(env, name, high)) == Eval(low, env);
      }
    }
    if forall side, env: Env :: WrapsRight(side, v, value, env) {
      forall env: Env ensures Eval(low, Rebind(env, name, high)) == Eval(low, env) {
        var bound := Rebind(env, name, high);
        assert WrapsRight(Var(MinName(v), Int), v, value, env);
        CapturedExactly(Var(MinName(v), Int), v, value, env);
        EvalVar(MinName(v), Int, bound, Eval(low, bound));
        EvalVar(MinName(v), Int, bound, Eval(low, env));
      }
    }
    if name !in Free(low) {
      forall env: Env ensures Eval(low, Rebind(env, name, high)) == Eval(low, env) {
        EvalUpdate(low, env, name, Eval(high, env));
      }
    }
    hide Eval, WrapsRight, Free, Rebind;
  }

  lemma WrapOneMeans(side: Expr, name: string, value: Expr, env: Env)
    requires !IsConst(value)
    ensures var w := Wrap(Fin(side), name, Fin(value));
            w.Fin? && Eval(w.e, env) == Eval(side, env[name := Eval(value, env)])
  {
    EvalLet(name, value, side, env);
    FreeAreNames(side);
    if name !in Free(side) {
      EvalUpdate(side, env, name, Eval(value, env));
    }
    hide Eval, Names, Free;
  }

  lemma WrapOneValue(side: Expr, v: string, value: Bound, env: Env, env1: Env)
    requires value.Fin? ==> Eval(value.e, env1) == Eval(value.e, env)
    ensures var w := Wrap(Fin(side), MinName(v), value);
            w.Fin? && Eval(w.e, env1)
                      == Eval(side, if value.Fin? && !IsConst(value.e) then env1[MinName(v) := Eval(value.e, env)]
                          else env1)
  {
    if value.Fin? && !IsConst(value.e) {
      WrapOneMeans(side, MinName(v), value.e, env1);
    }
    hide Eval;
  }

  lemma OperateSound(o: Oracle, e: Expr, a: Interval, b: Interval, env: Env, x: int, y: int)
    requires Honest(o) && e.Bin? && Covers(a, TypeOf(e.a), env, x) && Covers(b, TypeOf(e.b), env, y)
    requires e.op == Mod ==> y != 0 && DivisorFits(b, env)
    requires e.op == And || e.op == Or ==> TypeOf(e.a) == Bool && TypeOf(e.b) == Bool && IsBit(x) && IsBit(y)
    ensures Covers(Operate(o, e, a, b), TypeOf(e), env, Apply(e.op, x, y))
  {
    hide Eval, BitValued, Contains, PlusBounds, MinusBounds, TimesBounds, DivideBounds, RemainderBounds, ExtremeBounds,
      EqualBounds, LogicBounds, CompareBounds, Honest;
    match e.op
    case Add => PlusSound(o, e, a, b, env, x, y);
    case Sub => MinusSound(o, e, a, b, env, x, y);
    case Mul => TimesSound(o, e, a, b, env, x, y);
    case Div => DivideSound(o, e, a, b, env, x, y);
    case Mod => RemainderSound(o, e, a, b, env, x, y);
    case Min => ExtremeSound(o, e, a, b, env, x, y);
    case Max => ExtremeSound(o, e, a, b, env, x, y);
    case EQ => EqualSound(o, e, a, b, env, x, y);
    case NE => EqualSound(o, e, a, b, env, x, y);
    case And => LogicSound(o, e, a, b, env, x, y);
    case Or => LogicSound(o, e, a, b, env, x, y);
    case LT => CompareSound(LT, a, b, env, x, y);
    case LE => CompareSound(LE, a, b, env, x, y);
    case GT => CompareSound(LT, b, a, env, y, x);
    case GE => CompareSound(LE, b, a, env, y, x);
  }

  /** What a comparison of an unbounded operand falls back on. */
  lemma AnyCondition(op: BinOp, x: int, y: int, env: Env)
    requires !Arithmetic(op)
    ensures Covers(OfType(Bool), Bool, env, Apply(op, x, y))
  {
    ConditionBits(op, x, y);
    EvalImm(Zero(Bool), env);
    EvalImm(One(Bool), env);
    ConstantBits();
    hide Eval, Apply, BitValued;
  }

  function Taken(first: bool, x: int, y: int): int {
    if first then x else y
  }

  lemma BranchSound(half: Interval, other: Interval, ty: Type, env: Env, x: int, y: int, first: bool)
    requires Covers(half, ty, env, x) && Covers(other, ty, env, y) && BranchFits(half, other, env)
    ensures Covers(half, ty, env, Taken(first, x, y))
  {
  }

  /** Returning a half-bounded branch unchanged is right for all values of the branches exactly when the
      other branch, if it can have a value at all, is bounded on that side at least as tightly. */
  lemma HalfBranchExactly(half: Interval, other: Interval, env: Env, some: int)
    requires NonEmpty(half) && !Finite(half) && NonEmpty(other) && Contains(other, env, some)
    ensures (forall first, x, y | Contains(half, env, x) && Contains(other, env, y) ::
            Contains(half, env, Taken(first, x, y)))
            <==> BranchFits(half, other, env)
  {
    if forall first, x, y | Contains(half, env, x) && Contains(other, env, y) ::
        Contains(half, env, Taken(first, x, y)) {
      var x := if half.min.Fin? then Eval(half.min.e, env) else if half.max.Fin? then Eval(half.max.e, env) else 0;
      assert Contains(half, env, x);
      forall y | Contains(other, env, y) ensures Contains(half, env, y) {
        assert Contains(half, env, Taken(false, x, y));
      }
      WithinFits(half, other, env, some);
    }
  }

  lemma WithinFits(half: Interval, other: Interval, env: Env, some: int)
    requires NonEmpty(half) && NonEmpty(other) && Contains(other, env, some)
    requires forall y | Contains(other, env, y) :: Contains(half, env, y)
    ensures BranchFits(half, other, env)
  {
    if half.min.Fin? {
      var low := if other.min.Fin? then Eval(other.min.e, env) else Lesser(some, Eval(half.min.e, env) - 1);
      assert Contains(other, env, low);
    }
    if half.max.Fin? {
      var high := if other.max.Fin? then Eval(other.max.e, env) else Greater(some, Eval(half.max.e, env) + 1);
      assert Contains(other, env, high);
    }
  }

  lemma SelectSound(o: Oracle, ty: Type, a: Interval, b: Interval, cond: Interval, n: nat, used: set<string>, env: Env,
                    c: int, x: int, y: int)
    requires Honest(o) && NewNames(o, n, used) && Finite(a) && Finite(b) && Finite(cond)
    requires IntervalUses(a, used) && IntervalUses(b, used) && IntervalUses(cond, used)
    requires Covers(a, ty, env, x) && Covers(b, ty, env, y) && Covers(cond, Bool, env, c) && IsBit(c)
    ensures Covers(SelectBounds(o, ty, a, b, cond, n).0, ty, env, if c != 0 then x else y)
  {
    hide Eval, SelectSide, BitValued;
    NamesClear(o, a, used, n);
    NamesClear(o, b, used, n);
    NamesClear(o, cond, used, n);
    NewNamesDiffer(o, n, used);
    hide IntervalUses, NewNames;
    var (low, n1) := SelectSide(o, Min, ty, cond, a.min.e, b.min.e, n);
    SelectSideSound(o, Min, ty, cond, a.min.e, b.min.e, n, env, c);
    var (high, n2) := SelectSide(o, Max, ty, cond, a.max.e, b.max.e, n1);
    SelectSideSound(o, Max, ty, cond, a.max.e, b.max.e, n1, env, c);
    if IsOne(cond.min.e) || IsZero(cond.min.e) {
      EvalImm(cond.min.e, env);
    }
    hide Free;
  }

  lemma NewNamesDiffer(o: Oracle, n: nat, used: set<string>)
    requires NewNames(o, n, used)
    ensures forall i: nat :: o.newName(i) != o.newName(i + 1)
  {
  }

  lemma NamesClear(o: Oracle, i: Interval, used: set<string>, n: nat)
    requires NewNames(o, n, used) && Finite(i) && IntervalUses(i, used)
    ensures forall j: nat | j >= n :: o.newName(j) !in Free(i.min.e) && o.newName(j) !in Free(i.max.e)
  {
  }

  lemma SelectSideSound(o: Oracle, pick: BinOp, ty: Type, cond: Interval, x: Expr, y: Expr, n: nat, env: Env, c: int)
    requires Honest(o) && (pick == Min || pick == Max) && Finite(cond) && Covers(cond, Bool, env, c) && IsBit(c)
    requires o.newName(n) != o.newName(n + 1)
    requires forall i | n <= i <= n + 1 :: o.newName(i) !in Free(x) + Free(y) + Free(cond.min.e) + Free(cond.max.e)
    requires ty.Bool? ==> BitValued(x) && BitValued(y)
    ensures var (side, n') := SelectSide(o, pick, ty, cond, x, y, n);
            && n <= n' && SideFits(pick, Eval(side, env), c, Eval(x, env), Eval(y, env))
            && (ty.Bool? ==> BitValued(side))
  {
    assert IsBit(Eval(cond.min.e, env)) && IsBit(Eval(cond.max.e, env));
    SelectSideMeans(o, pick, ty, cond, x, y, n, env, c);
    if ty.Bool? {
      var side := SelectSide(o, pick, ty, cond, x, y, n).0;
      forall env': Env ensures IsBit(Eval(side, env')) {
        SelectSideMeans(o, pick, ty, cond, x, y, n, env', c);
      }
    }
    hide Eval, SelectSide;
  }

  /** Everything the soundness of one expression needs. */
  ghost predicate Ready(o: Oracle, e: Expr, scope: Scope, types: Types, n: nat, used: set<string>, val: Env, env: Env) {
    && Honest(o) && NewNames(o, n, used + Derived(e)) && Hygienic(e, used) && WellTyped(e, types)
    && Outside(e, scope) <= used && ScopeUses(scope, used)
    && Fits(e, scope, types, val, env)
  }

  /** Readiness passes to the operands, with more names handed out. */
  lemma ReadyPart(o: Oracle, e: Expr, part: Expr, scope: Scope, types: Types, n: nat, m: nat, used: set<string>,
                  val: Env, env: Env)
    requires Ready(o, e, scope, types, n, used, val, env) && n <= m
    requires Free(part) <= Free(e) && Derived(part) <= Derived(e) && Hygienic(part, used) && WellTyped(part, types)
    ensures Ready(o, part, scope, types, m, used, val, env)
  {
    hide Hygienic, WellTyped, Covers, ScopeUses, Derived, Free;
  }

  /** bounds_of_expr_in_scope is sound: in every environment that respects the scope the value of the
      expression lies between the evaluated minimum and maximum, and conditions get bounds that are
      conditions. */
  lemma {:induction false} BoundsAreSound(o: Oracle, e: Expr, scope: Scope, types: Types, n: nat, used: set<string>,
                                          val: Env, env: Env)
    requires Ready(o, e, scope, types, n, used, val, env) && Guarded(o, e, scope, n, val, env)
    ensures Covers(BoundsOf(o, e, scope, n).0, TypeOf(e), env, Eval(e, val))
    decreases e, 1
  {
    match e
    case Imm(_, _) =>
    case Var(v, ty) => VarSound(o, e, scope, types, n, used, val, env);
    case Not(x) =>
      ReadyPart(o, e, x, scope, types, n, n, used, val, env);
      BoundsAreSound(o, x, scope, types, n, used, val, env);
      BoolIsBit(x, types, val);
      NotSound(o, e, BoundsOf(o, x, scope, n).0, env, Eval(x, val));
    case Bin(op, _, _) =>
      if op == GT || op == GE {
        ReverseSound(o, e, scope, types, n, used, val, env);
      } else {
        BinSound(o, e, scope, types, n, used, val, env);
      }
    case Select(_, _, _) => ChoiceSound(o, e, scope, types, n, used, val, env);
    case Let(_, _, _) => LetSound(o, e, scope, types, n, used, val, env);
  }

  lemma VarSound(o: Oracle, e: Expr, scope: Scope, types: Types, n: nat, used: set<string>, val: Env, env: Env)
    requires e.Var? && Ready(o, e, scope, types, n, used, val, env)
    ensures Covers(BoundsOf(o, e, scope, n).0, TypeOf(e), env, Eval(e, val))
  {
    if e.name !in scope {
      assert e.name in Free(e);
    }
    hide Honest;
  }

  lemma {:induction false} BinSound(o: Oracle, e: Expr, scope: Scope, types: Types, n: nat, used: set<string>,
                                    val: Env, env: Env)
    requires e.Bin? && e.op != GT && e.op != GE
    requires Ready(o, e, scope, types, n, used, val, env) && Guarded(o, e, scope, n, val, env)
    ensures Covers(BoundsOf(o, e, scope, n).0, TypeOf(e), env, Eval(e, val))
    decreases e, 0
  {
    BinReady(o, e, scope, types, n, used, val, env);
    hide *;
    BoundsAreSound(o, e.a, scope, types, n, used, val, env);
    BoundsAreSound(o, e.b, scope, types, BoundsOf(o, e.a, scope, n).1, used, val, env);
    BinJoin(o, e, scope, types, n, used, val, env);
  }

  lemma BinReady(o: Oracle, e: Expr, scope: Scope, types: Types, n: nat, used: set<string>, val: Env, env: Env)
    requires e.Bin? && e.op != GT && e.op != GE
    requires Ready(o, e, scope, types, n, used, val, env) && Guarded(o, e, scope, n, val, env)
    ensures Ready(o, e.a, scope, types, n, used, val, env) && Guarded(o, e.a, scope, n, val, env)
    ensures var n1 := BoundsOf(o, e.a, scope, n).1;
            Ready(o, e.b, scope, types, n1, used, val, env) && Guarded(o, e.b, scope, n1, val, env)
  {
    hide Eval, Operate, Apply, Covers, NewNames, Fits, ScopeUses;
    ReadyPart(o, e, e.a, scope, types, n, n, used, val, env);
    BoundsUse(o, e.a, scope, n, used);
    ReadyPart(o, e, e.b, scope, types, n, BoundsOf(o, e.a, scope, n).1, used, val, env);
    hide Ready;
  }

  lemma BinJoin(o: Oracle, e: Expr, scope: Scope, types: Types, n: nat, used: set<string>, val: Env, env: Env)
    requires e.Bin? && e.op != GT && e.op != GE
    requires Ready(o, e, scope, types, n, used, val, env) && Guarded(o, e, scope, n, val, env)
    requires Covers(BoundsOf(o, e.a, scope, n).0, TypeOf(e.a), env, Eval(e.a, val))
    requires Covers(BoundsOf(o, e.b, scope, BoundsOf(o, e.a, scope, n).1).0, TypeOf(e.b), env, Eval(e.b, val))
    ensures Covers(BoundsOf(o, e, scope, n).0, TypeOf(e), env, Eval(e, val))
  {
    hide Eval, Operate, Apply, Covers, NewNames, Fits, ScopeUses;
    var (a, n1) := BoundsOf(o, e.a, scope, n);
    var b := BoundsOf(o, e.b, scope, n1).0;
    var x, y := Eval(e.a, val), Eval(e.b, val);
    EvalBin(e.op, e.a, e.b, val);
    if e.op == And || e.op == Or {
      BoolIsBit(e.a, types, val);
      BoolIsBit(e.b, types, val);
    }
    OperateSound(o, e, a, b, env, x, y);
    if !Arithmetic(e.op) {
      AnyCondition(e.op, x, y, env);
    }
  }

  lemma {:induction false} ReverseSound(o: Oracle, e: Expr, scope: Scope, types: Types, n: nat, used: set<string>,
                                        val: Env, env: Env)
    requires e.Bin? && (e.op == GT || e.op == GE)
    requires Ready(o, e, scope, types, n, used, val, env) && Guarded(o, e, scope, n, val, env)
    ensures Covers(BoundsOf(o, e, scope, n).0, TypeOf(e), env, Eval(e, val))
    decreases e, 0
  {
    var (b, n1) := BoundsOf(o, e.b, scope, n);
    var (a, n2) := BoundsOf(o, e.a, scope, n1);
    ReadyPart(o, e, e.b, scope, types, n, n, used, val, env);
    BoundsUse(o, e.b, scope, n, used);
    ReadyPart(o, e, e.a, scope, types, n, n1, used, val, env);
    BoundsAreSound(o, e.b, scope, types, n, used, val, env);
    BoundsAreSound(o, e.a, scope, types, n1, used, val, env);
    var x, y := Eval(e.a, val), Eval(e.b, val);
    EvalBin(e.op, e.a, e.b, val);
    hide Ready, Eval, Operate, Apply, Covers;
    OperateSound(o, e, a, b, env, x, y);
    AnyCondition(e.op, x, y, env);
  }

  lemma {:induction false} ChoiceSound(o: Oracle, e: Expr, scope: Scope, types: Types, n: nat, used: set<string>,
                                       val: Env, env: Env)
    requires e.Select? && Ready(o, e, scope, types, n, used, val, env) && Guarded(o, e, scope, n, val, env)
    ensures Covers(BoundsOf(o, e, scope, n).0, TypeOf(e), env, Eval(e, val))
    decreases e, 0
  {
    var (a, n1) := BoundsOf(o, e.t, scope, n);
    var (b, n2) := BoundsOf(o, e.f, scope, n1);
    ReadyPart(o, e, e.t, scope, types, n, n, used, val, env);
    BoundsUse(o, e.t, scope, n, used);
    ReadyPart(o, e, e.f, scope, types, n, n1, used, val, env);
    BoundsUse(o, e.f, scope, n1, used);
    BoundsAreSound(o, e.t, scope, types, n, used, val, env);
    BoundsAreSound(o, e.f, scope, types, n1, used, val, env);
    var x, y, c := Eval(e.t, val), Eval(e.f, val), Eval(e.cond, val);
    EvalSelect(e.cond, e.t, e.f, val);
    if Finite(a) && Finite(b) {
      ReadyPart(o, e, e.cond, scope, types, n, n2, used, val, env);
      BoundsAreSound(o, e.cond, scope, types, n2, used, val, env);
      BoolIsBit(e.cond, types, val);
    }
    BoundsUse(o, e.cond, scope, n2, used);
    hide Eval, BoundsOf, Covers, IntervalUses, Fits, Hygienic;
    ChoiceFromParts(o, e, scope, n, used, env, x, y, c);
  }

  lemma ChoiceFromParts(o: Oracle, e: Expr, scope: Scope, n: nat, used: set<string>, env: Env, x: int, y: int, c: int)
    requires e.Select? && Honest(o) && NewNames(o, n, used) && TypeOf(e.f) == TypeOf(e.t)
    requires var (a, n1) := BoundsOf(o, e.t, scope, n);
             var (b, n2) := BoundsOf(o, e.f, scope, n1);
             var (i, n3) := BoundsOf(o, e.cond, scope, n2);
             && n <= n1 <= n2 <= n3 && Covers(a, TypeOf(e), env, x) && Covers(b, TypeOf(e), env, y)
             && IntervalUses(a, used) && IntervalUses(b, used) && IntervalUses(i, used)
             && if !Finite(a) then BranchFits(a, b, env)
                else if !Finite(b) then BranchFits(b, a, env)
                else Covers(i, Bool, env, c) && IsBit(c)
    ensures Covers(BoundsOf(o, e, scope, n).0, TypeOf(e), env, if c != 0 then x else y)
  {
    hide Eval, IntervalUses, Honest, Contains, Derived, BitValued, SelectBounds;
    var (a, n1) := BoundsOf(o, e.t, scope, n);
    var (b, n2) := BoundsOf(o, e.f, scope, n1);
    var (i, n3) := BoundsOf(o, e.cond, scope, n2);
    if !Finite(a) {
      BranchSound(a, b, TypeOf(e), env, x, y, c != 0);
    } else if !Finite(b) {
      BranchSound(b, a, TypeOf(e), env, y, x, c == 0);
    } else {
      SelectSound(o, TypeOf(e), a, b, i, n3, used, env, c, x, y);
    }
  }

  lemma {:induction false} LetSound(o: Oracle, e: Expr, scope: Scope, types: Types, n: nat, used: set<string>,
                                    val: Env, env: Env)
    requires e.Let? && Ready(o, e, scope, types, n, used, val, env) && Guarded(o, e, scope, n, val, env)
    ensures Covers(BoundsOf(o, e, scope, n).0, TypeOf(e), env, Eval(e, val))
    decreases e, 0
  {
    var (value, n1) := BoundsOf(o, e.value, scope, n);
    ReadyPart(o, e, e.value, scope, types, n, n, used, val, env);
    BoundsUse(o, e.value, scope, n, used);
    BoundsAreSound(o, e.value, scope, types, n, used, val, env);
    var x := Eval(e.value, val);
    var scope', types', val' := scope[e.name := Shown(e, value)], types[e.name := TypeOf(e.value)], val[e.name := x];
    var env', used' := BindBounds(env, e.name, value), used + {MinName(e.name), MaxName(e.name)};
    ReadyBody(o, e, scope, types, n, n1, used, val, env, value, x);
    BoundsAreSound(o, e.body, scope', types', n1, used', val', env');
    EvalLet(e.name, e.value, e.body, val);
    var r := BoundsOf(o, e.body, scope', n1).0;
    ValueNames(e, used, value);
    hide Ready, Eval, Guarded, BindBounds, Hygienic;
    WrapCovers(r, e.name, value, TypeOf(e), env, env', Eval(e.body, val'));
  }

  /** The bounds of the value do not mention the names they are about to get. */
  lemma ValueNames(e: Expr, used: set<string>, value: Interval)
    requires e.Let? && Hygienic(e, used) && IntervalUses(value, used)
    ensures value.min.Fin? ==> MinName(e.name) !in Free(value.min.e) && MaxName(e.name) !in Free(value.min.e)
    ensures value.max.Fin? ==> MinName(e.name) !in Free(value.max.e) && MaxName(e.name) !in Free(value.max.e)
  {
  }

  lemma WrapCovers(r: Interval, v: string, value: Interval, ty: Type, env: Env, env': Env, x: int)
    requires Covers(r, ty, env', x) && env' == BindBounds(env, v, value)
    requires value.min.Fin? ==> MaxName(v) !in Free(value.min.e)
    ensures Covers(Interval(WrapBoth(r.min, v, value), WrapBoth(r.max, v, value)), ty, env, x)
  {
    if r.min.Fin? {
      WrapMeans(r.min.e, v, value, env);
      if ty.Bool? { WrapBits(r.min.e, v, value); }
    }
    if r.max.Fin? {
      WrapMeans(r.max.e, v, value, env);
      if ty.Bool? { WrapBits(r.max.e, v, value); }
    }
    hide Eval, BindBounds, Free;
  }

  lemma WrapBits(side: Expr, v: string, value: Interval)
    requires BitValued(side)
    ensures WrapBoth(Fin(side), v, value).Fin? && BitValued(WrapBoth(Fin(side), v, value).e)
  {
    WrapOneBits(side, MinName(v), value.min);
    WrapOneBits(Wrap(Fin(side), MinName(v), value.min).e, MaxName(v), value.max);
  }

  lemma WrapOneBits(side: Expr, name: string, value: Bound)
    requires BitValued(side)
    ensures Wrap(Fin(side), name, value).Fin? && BitValued(Wrap(Fin(side), name, value).e)
  {
    if value.Fin? {
      forall env: Env ensures IsBit(Eval(Let(name, value.e, side), env)) {
        EvalLet(name, value.e, side, env);
      }
    }
    hide Eval;
  }

  /** The body of a let is ready in the scope where its variable is seen by name. */
  lemma ReadyBody(o: Oracle, e: Expr, scope: Scope, types: Types, n: nat, n1: nat, used: set<string>, val: Env,
                  env: Env,
                  value: Interval, x: int)
    requires e.Let? && Ready(o, e, scope, types, n, used, val, env) && n <= n1
    requires IntervalUses(value, used) && Covers(value, TypeOf(e.value), env, x)
    ensures Ready(o, e.body, scope[e.name := Shown(e, value)], types[e.name := TypeOf(e.value)], n1,
                  used + {MinName(e.name), MaxName(e.name)}, val[e.name := x], BindBounds(env, e.name, value))
  {
    var scope', types', val' := scope[e.name := Shown(e, value)], types[e.name := TypeOf(e.value)], val[e.name := x];
    var env', used' := BindBounds(env, e.name, value), used + {MinName(e.name), MaxName(e.name)};
    BodyScopeUses(e, scope, used, value);
    MoreScope(scope', used + ShownNames(e, value), used');
    assert used' + Derived(e.body) <= used + Derived(e);
    ValueNames(e, used, value);
    ShownCovers(e, value, env, x, val);
    forall v | v in scope' ensures Covers(scope'[v], types'[v], env', Eval(Var(v, types'[v]), val')) {
      if v != e.name {
        OthersCovered(e, scope, types, used, val, env, value, x, v);
      }
    }
    forall v | v in Free(e.body) && v !in scope' ensures Get(val', v) == Get(env', v) {
      assert v in Outside(e, scope);
    }
    hide Covers, Eval, IntervalUses, WellTyped, Free;
  }

  lemma MoreScope(scope: Scope, k: set<string>, more: set<string>)
    requires ScopeUses(scope, k) && k <= more
    ensures ScopeUses(scope, more)
  {
    forall v | v in scope ensures IntervalUses(scope[v], more) {
      MoreUses(scope[v], k, more);
    }
  }

  lemma ShownCovers(e: Expr, value: Interval, env: Env, x: int, val: Env)
    requires e.Let? && Covers(value, TypeOf(e.value), env, x)
    requires value.min.Fin? ==> MinName(e.name) !in Free(value.min.e) && MaxName(e.name) !in Free(value.min.e)
    requires value.max.Fin? ==> MinName(e.name) !in Free(value.max.e)
    ensures Covers(Shown(e, value), TypeOf(e.value), BindBounds(env, e.name, value),
            Eval(Var(e.name, TypeOf(e.value)), val[e.name := x]))
  {
    NamesDiffer(e.name);
    var ty, env' := TypeOf(e.value), BindBounds(env, e.name, value);
    if ty.Bool? {
      assert IsBit(Eval(value.min.e, env)) && IsBit(Eval(value.max.e, env));
    }
    EvalVar(e.name, ty, val, x);
  }

  lemma OthersCovered(e: Expr, scope: Scope, types: Types, used: set<string>, val: Env, env: Env, value: Interval,
                      x: int, v: string)
    requires e.Let? && Hygienic(e, used) && ScopeUses(scope, used) && Fits(e, scope, types, val, env)
    requires v in scope && v != e.name
    ensures Covers(scope[v], types[v], BindBounds(env, e.name, value), Eval(Var(v, types[v]), val[e.name := x]))
  {
    var i, env' := scope[v], BindBounds(env, e.name, value);
    assert IntervalUses(i, used);
    if i.min.Fin? {
      EvalAgrees(i.min.e, env, env');
    }
    if i.max.Fin? {
      EvalAgrees(i.max.e, env, env');
    }
    EvalUpdate(Var(v, types[v]), val, e.name, x);
    hide Eval, Free, Hygienic;
  }
}
