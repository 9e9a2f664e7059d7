/** BoxesTouched (Bounds.cpp): the boxes of the functions that a statement provides. */
module BoxesTouched {
  import opened Wrappers
  import opened BoundsIR
  import opened Intervals
  import opened BoundsExpr
  import opened Boxes

  datatype Stmt =
    | NoOp
    | Provide(func: string, args: seq<Expr>)
    | Block(first: Stmt, rest: Stmt)
    | For(v: string, min: Expr, extent: Expr, body: Stmt)
    | LetStmt(v: string, value: Expr, body: Stmt)
    | IfThenElse(cond: Expr, thenCase: Stmt, elseCase: Stmt)

  type Map = map<string, Box>

  /** The boxes and the number of names used up, or nothing: the pass has stopped with an error. */
  type Outcome = Option<(Map, nat)>

  /** The let statements around the current position, outermost first. */
  type Lets = seq<(string, Expr)>

  // ----- what a statement does -----

  /** A run of the statement from `val` writes `func` at `at`. */
  ghost predicate Touches(s: Stmt, val: Env, func: string, at: seq<int>) {
    match s
    case NoOp => false
    case Provide(f, args) => f == func && |at| == |args| && forall i | 0 <= i < |args| :: at[i] == Eval(args[i], val)
    case Block(a, b) => Touches(a, val, func, at) || Touches(b, val, func, at)
    case For(v, lo, n, body) =>
      exists i {:trigger val[v := i]} ::
          Eval(lo, val) <= i < Eval(lo, val) + Eval(n, val) && Touches(body, val[v := i], func, at)
    case LetStmt(v, x, body) => Touches(body, val[v := Eval(x, val)], func, at)
    case IfThenElse(c, t, e) => if Eval(c, val) != 0 then Touches(t, val, func, at) else Touches(e, val, func, at)
  }

  // ----- the analysis -----

  /** CountVars: occurrences of variables; an infinity is a variable too. */
  function CountVars(e: Expr): nat {
    match e
    case Imm(_, _) => 0
    case Var(_, _) => 1
    case Bin(_, a, b) => CountVars(a) + CountVars(b)
    case Not(a) => CountVars(a)
    case Abs(a) => CountVars(a)
    case Select(c, t, f) => CountVars(c) + CountVars(t) + CountVars(f)
    case Let(_, x, b) => CountVars(x) + CountVars(b)
  }

  function VarNames(e: Expr): set<string> {
    match e
    case Imm(_, _) => {}
    case Var(v, _) => {v}
    case Bin(_, a, b) => VarNames(a) + VarNames(b)
    case Not(a) => VarNames(a)
    case Abs(a) => VarNames(a)
    case Select(c, t, f) => VarNames(c) + VarNames(t) + VarNames(f)
    case Let(_, x, b) => VarNames(x) + VarNames(b)
  }

  function Occurrences(e: Expr): seq<string> {
    match e
    case Imm(_, _) => []
    case Var(v, _) => [v]
    case Bin(_, a, b) => Occurrences(a) + Occurrences(b)
    case Not(a) => Occurrences(a)
    case Abs(a) => Occurrences(a)
    case Select(c, t, f) => Occurrences(c) + Occurrences(t) + Occurrences(f)
    case Let(_, x, b) => Occurrences(x) + Occurrences(b)
  }

  function IsSmall(b: Bound): bool {
    b.Fin? ==> CountVars(b.e) < 10
  }

  /** An infinity is a variable of handle type, which keeps it out of arithmetic. */
  function AsExpr(b: Bound): Expr {
    match b
    case NegInf => Var("neg_inf", Handle)
    case PosInf => Var("pos_inf", Handle)
    case Fin(e) => e
  }

  function SimplifyBound(t: Tools, b: Bound): Bound {
    if b.Fin? then Fin(t.simplify(b.e)) else b
  }

  function Simplified(t: Tools, i: Interval): Interval {
    var low := SimplifyBound(t, i.min);
    Interval(low, if SameBound(t.o, i.min, i.max) then low else SimplifyBound(t, i.max))
  }

  /** Binds the names of a value's bounds in one end of a box: the maximum inside, the minimum outside. */
  function NameEnd(b: Bound, minName: string, low: Expr, maxName: string, high: Expr): Bound {
    if b.Fin? then
      var e := if maxName in Names(b.e) then Let(maxName, high, b.e) else b.e;
      Fin(if minName in Names(e) then Let(minName, low, e) else e)
    else b
  }

  function NameBox(b: Box, minName: string, low: Expr, maxName: string, high: Expr): (r: Box)
    ensures |r.bounds| == |b.bounds|
  {
    b.(bounds := seq(|b.bounds|, i requires 0 <= i < |b.bounds| =>
         Interval(NameEnd(b.bounds[i].min, minName, low, maxName, high),
             NameEnd(b.bounds[i].max, minName, low, maxName, high))))
  }

  function NameAll(boxes: Map, minName: string, low: Expr, maxName: string, high: Expr): Map {
    map f | f in boxes :: NameBox(boxes[f], minName, low, maxName, high)
  }

  function Known(scope: Scope, u: string): Interval {
    if u in scope then scope[u] else EVERYTHING
  }

  /** The bounds that a trimmed scope gives to a dependent let, and no more than was known. */
  function TrimmedLow(t: Tools, i: Interval, known: Interval): Expr {
    t.simplify(Bin(Max, AsExpr(i.min), AsExpr(known.min)))
  }

  function TrimmedHigh(t: Tools, i: Interval, known: Interval): Expr {
    t.simplify(Bin(Min, AsExpr(i.max), AsExpr(known.max)))
  }

  /** The ends have types that the minimum and the maximum accept: comparing an infinity with a number is an
      error. */
  predicate Matching(i: Interval, known: Interval) {
    (i.min.Fin? <==> known.min.Fin?) && (i.max.Fin? <==> known.max.Fin?)
  }

  /** The interval of a variable whose bounds get new names: the maximum is named first. */
  function NamedFor(t: Tools, x: Expr, n: nat): Interval {
    Interval(Fin(Var(t.o.newName(n + 1), TypeOf(x))), Fin(Var(t.o.newName(n), TypeOf(x))))
  }

  function NameNew(t: Tools, boxes: Map, n: nat, low: Expr, high: Expr): Map {
    NameAll(boxes, t.o.newName(n + 1), low, t.o.newName(n), high)
  }

  /** A bound of some dimension uses the name. */
  predicate Mentions(boxes: Map, v: string) {
    exists f | f in boxes :: BoxMentions(boxes[f], v)
  }

  predicate BoxMentions(b: Box, v: string) {
    exists i | 0 <= i < |b.bounds| :: EndMentions(b.bounds[i].min, v) || EndMentions(b.bounds[i].max, v)
  }

  predicate EndMentions(b: Bound, v: string) {
    b.Fin? && v in Names(b.e)
  }

  /** A default box for a function that has none. */
  function At(boxes: Map, f: string): Box {
    if f in boxes then boxes[f] else NO_BOX
  }

  function MergeAt(t: Tools, boxes: Map, f: string, b: Box): Map {
    if At(boxes, f).IsEmpty() || b.IsEmpty() || |At(boxes, f).bounds| == |b.bounds| then
      boxes[f := MergeBoxes(t, At(boxes, f), b)]
    else boxes
  }

  function ArgBounds(o: Oracle, args: seq<Expr>, scope: Scope, n: nat): (seq<Interval>, nat) {
    if args == [] then ([], n)
    else
      var (i, n1) := BoundsOf(o, args[0], scope, n);
      var (rest, n2) := ArgBounds(o, args[1..], scope, n1);
      ([i] + rest, n2)
  }

  // ----- conditions on variables in scope -----

  /** What is pushed for a condition: a restricted variable with its interval, or a let (by position) whose
      value depends on one, under new names. */
  datatype Push = Given(v: string, i: Interval) | Dependent(k: nat)

  /** The lets from position `k` on that depend on `v`, each followed by what depends on it. */
  function Dependents(lets: Lets, v: string, k: nat): (r: seq<Push>)
    requires k <= |lets|
    ensures forall p | p in r :: p.Dependent? && k <= p.k < |lets|
    decreases |lets| - k
  {
    if k == |lets| then []
    else
      (if v in VarNames(lets[k].1) - {lets[k].0} then [Dependent(k)] + Dependents(lets, lets[k].0, k + 1) else [])
      + Dependents(lets, v, k + 1)
  }

  /** The range of a variable where the solved condition is true. */
  function Restrict(op: BinOp, i: Interval, rhs: Interval): Interval {
    Interval(
      if rhs.HasLower() && i.HasLower() && rhs.min.Fin? && i.min.Fin? && op in {GT, GE, EQ} then
        Fin(Bin(Max, i.min.e, if op == GT then Bin(Add, rhs.min.e, One(Int)) else rhs.min.e))
      else i.min,
      if rhs.HasUpper() && i.HasUpper() && rhs.max.Fin? && i.max.Fin? && op in {LT, LE, EQ} then
        Fin(Bin(Min, i.max.e, if op == LT then Bin(Sub, rhs.max.e, One(Int)) else rhs.max.e))
      else i.max)
  }

  /** The pushes for all occurrences of variables in scope; intervals are computed before any is pushed. */
  function Restrictions(t: Tools, cond: Expr, vars: seq<string>, scope: Scope, lets: Lets,
                        n: nat): (r: (seq<Push>, nat))
    ensures forall p | p in r.0 :: p.Dependent? ==> p.k < |lets|
    decreases |vars|
  {
    if vars == [] then ([], n)
    else
      var v := vars[0];
      if v in scope && t.solve(cond, v).Some? && Understood(t.solve(cond, v).value) then
        var solved := t.solve(cond, v).value;
        var (rhs, n1) := BoundsOf(t.o, solved.b, scope, n);
        var (rest, n2) := Restrictions(t, cond, vars[1..], scope, lets, n1);
        ([Given(v, Restrict(solved.op, scope[v], rhs))] + Dependents(lets, v, 0) + rest, n2)
      else Restrictions(t, cond, vars[1..], scope, lets, n)
  }

  predicate Understood(s: Expr) {
    s.Bin? && s.op in {LT, LE, GT, GE, EQ} && TypeOf(s.b) == Int
  }

  predicate UsesScope(e: Expr, scope: Scope) {
    exists v | v in Names(e) :: v in scope
  }

  /** The boxes of both branches of a condition on parameters, each under its condition. */
  function MergeBranches(t: Tools, boxes: Map, thenBoxes: Map, elseBoxes: Map, cond: Expr): Map {
    map f | f in boxes.Keys + thenBoxes.Keys + elseBoxes.Keys ::
      if f in thenBoxes || f in elseBoxes then
        var a, b := Under(At(thenBoxes, f), cond), Under(At(elseBoxes, f), Not(cond));
        MergeOr(t, At(boxes, f), MergeOr(t, a, b))
      else boxes[f]
  }

  function MergeOr(t: Tools, a: Box, b: Box): Box {
    if a.IsEmpty() || b.IsEmpty() || |a.bounds| == |b.bounds| then MergeBoxes(t, a, b) else a
  }

  function Under(b: Box, cond: Expr): Box {
    b.(used := Some(if b.MaybeUnused() then Bin(And, b.used.value, cond) else cond))
  }

  /** The computed end of a loop: adding an infinity to a number, or subtracting one from it, is an error. */
  function LoopEnd(extent: Bound, start: Bound): Option<Bound> {
    if extent.Fin? && start.Fin? then Some(Fin(Bin(Sub, Bin(Add, extent.e, start.e), One(Int)))) else None
  }

  /** The interval of a loop variable; a known range for the loop is preferred. */
  function LoopInterval(o: Oracle, s: Stmt, scope: Scope, n: nat): Option<(Interval, nat)>
    requires s.For?
  {
    var (low, n1) := LoopStart(o, s, scope, n);
    if s.v + ".loop_max" in scope then Some((Interval(low, scope[s.v + ".loop_max"].max), n1))
    else
      var (extent, n2) := BoundsOf(o, s.extent, scope, n1);
      var (start, n3) := BoundsOf(o, s.min, scope, n2);
      var end :- LoopEnd(extent.max, start.max);
      Some((Interval(low, end), n3))
  }

  function LoopStart(o: Oracle, s: Stmt, scope: Scope, n: nat): (Bound, nat)
    requires s.For?
  {
    if s.v + ".loop_min" in scope then (scope[s.v + ".loop_min"].min, n)
    else var (i, n') := BoundsOf(o, s.min, scope, n); (i.min, n')
  }

  /** A dependent let is left: its names are bound, if some box uses them. The bounds of its value are found once
      here; Bounds.cpp finds the same ones again for every dimension that uses a name. */
  function LeaveTrimmed(t: Tools, u: string, x: Expr, scope: Scope, boxes: Map, n: nat, n1: nat): Outcome {
    var (value, n2) := BoundsOf(t.o, x, scope, n1);
    var i, known := Simplified(t, value), Known(scope, u);
    if (Mentions(boxes, t.o.newName(n)) || Mentions(boxes, t.o.newName(n + 1))) && !Matching(i, known) then None
    else Some((NameNew(t, boxes, n, TrimmedLow(t, i, known), TrimmedHigh(t, i, known)), n2))
  }

  /** The boxes after a statement. */
  function BoxesOf(t: Tools, s: Stmt, scope: Scope, lets: Lets, boxes: Map, n: nat): Outcome
    decreases s, 1, 0
  {
    match s
    case NoOp => Some((boxes, n))
    case Provide(f, args) =>
      var (b, n1) := ArgBounds(t.o, args, scope, n);
      Some((MergeAt(t, boxes, f, Box(None, b)), n1))
    case Block(a, b) =>
      var (boxes1, n1) :- BoxesOf(t, a, scope, lets, boxes, n);
      BoxesOf(t, b, scope, lets, boxes1, n1)
    case For(v, _, _, body) =>
      var (i, n1) :- LoopInterval(t.o, s, scope, n);
      BoxesOf(t, body, scope[v := i], lets, boxes, n1)
    case LetStmt(v, x, body) =>
      var (value, n1) := BoundsOf(t.o, x, scope, n);
      var i := Simplified(t, value);
      var fixed := SameBound(t.o, value.min, value.max);
      if IsSmall(i.min) && (fixed || IsSmall(i.max)) then
        BoxesOf(t, body, scope[v := i], lets + [(v, x)], boxes, n1)
      else
        var (boxes1, n2) :- BoxesOf(t, body, scope[v := NamedFor(t, x, n1)], lets + [(v, x)], boxes, n1 + 2);
        Some((NameNew(t, boxes1, n1, AsExpr(i.min), AsExpr(i.max)), n2))
    case IfThenElse(c, a, b) =>
      if UsesScope(c, scope) then
        if b.NoOp? then
          var (pushes, n1) := Restrictions(t, c, Occurrences(c), scope, lets, n);
          Trimmed(t, a, pushes, scope, lets, boxes, n1)
        else
          var (boxes1, n1) :- BoxesOf(t, a, scope, lets, boxes, n);
          BoxesOf(t, b, scope, lets, boxes1, n1)
      else
        var (thenBoxes, n1) :- BoxesOf(t, a, scope, lets, map[], n);
        var (elseBoxes, n2) :- BoxesOf(t, b, scope, lets, map[], n1);
        Some((MergeBranches(t, boxes, thenBoxes, elseBoxes, c), n2))
  }

  /** trim_scope_push, the branch, and trim_scope_pop: the boxes of `s` under the pushes, with the names of
      dependent lets bound to what the trimmed scope says about them and no more than was known before. */
  function Trimmed(t: Tools, s: Stmt, pushes: seq<Push>, scope: Scope, lets: Lets, boxes: Map, n: nat): Outcome
    requires forall p | p in pushes :: p.Dependent? ==> p.k < |lets|
    decreases s, 2, |pushes|
  {
    if pushes == [] then BoxesOf(t, s, scope, lets, boxes, n)
    else
      match pushes[0]
      case Given(v, i) => Trimmed(t, s, pushes[1..], scope[v := i], lets, boxes, n)
      case Dependent(k) =>
        var (u, x) := lets[k];
        var (boxes1, n1) :- Trimmed(t, s, pushes[1..], scope[u := NamedFor(t, x, n)], lets, boxes, n + 2);
        LeaveTrimmed(t, u, x, scope, boxes1, n, n1)
  }
}
