/** Inlining until nothing is left to inline (perform_inline in AutoScheduleUtils.cpp, Inliner in Inline.cpp). */
module Inlining {
  import opened VarNames
  import C = CseIR

  // ----- expressions -----

  /** The operators of an expression other than calls of functions and reads of parameters. */
  type Prim = op: C.Op | !(op.Call? && op.kind.HalideCall?) && !op.Param? witness C.Add

  datatype Expr =
    | Const(n: int)
    | Param(p: string)
    | Var(name: Name)
    | Op(op: Prim, args: seq<Expr>)
    | Call(func: string, args: seq<Expr>)
    | Let(name: Name, value: Expr, body: Expr)

  /** A pure function. */
  datatype Def = Def(args: seq<string>, value: Expr)

  type Env = map<Name, int>

  function Get(env: Env, n: Name): int {
    if n in env then env[n] else 0
  }

  /** What parameters, operators and functions mean. */
  datatype World = World(params: string -> int, ops: (C.Op, seq<int>) -> int, calls: (string, seq<int>) -> int)

  function Eval(e: Expr, w: World, env: Env): int
    decreases e, 0
  {
    match e
    case Const(n) => n
    case Param(p) => w.params(p)
    case Var(n) => Get(env, n)
    case Op(op, args) => w.ops(op, EvalAll(args, w, env))
    case Call(f, args) => w.calls(f, EvalAll(args, w, env))
    case Let(n, x, b) => Eval(b, w, env[n := Eval(x, w, env)])
  }

  function EvalAll(es: seq<Expr>, w: World, env: Env): (r: seq<int>)
    ensures |r| == |es| && forall i | 0 <= i < |es| :: r[i] == Eval(es[i], w, env)
    decreases es, 1
  {
    if es == [] then [] else [Eval(es[0], w, env)] + EvalAll(es[1..], w, env)
  }

  function Calls(e: Expr): set<string>
    decreases e, 0
  {
    match e
    case Const(_) => {}
    case Param(_) => {}
    case Var(_) => {}
    case Op(_, args) => CallsAll(args)
    case Call(f, args) => {f} + CallsAll(args)
    case Let(_, x, b) => Calls(x) + Calls(b)
  }

  function CallsAll(es: seq<Expr>): set<string>
    decreases es, 1
  {
    if es == [] then {} else Calls(es[0]) + CallsAll(es[1..])
  }

  function Names(e: Expr): set<Name>
    decreases e, 0
  {
    match e
    case Const(_) => {}
    case Param(_) => {}
    case Var(n) => {n}
    case Op(_, args) => NamesAll(args)
    case Call(_, args) => NamesAll(args)
    case Let(n, x, b) => {n} + Names(x) + Names(b)
  }

  function NamesAll(es: seq<Expr>): set<Name>
    decreases es, 1
  {
    if es == [] then {} else Names(es[0]) + NamesAll(es[1..])
  }

  function Free(e: Expr): set<Name>
    decreases e, 0
  {
    match e
    case Const(_) => {}
    case Param(_) => {}
    case Var(n) => {n}
    case Op(_, args) => FreeAll(args)
    case Call(_, args) => FreeAll(args)
    case Let(n, x, b) => Free(x) + (Free(b) - {n})
  }

  function FreeAll(es: seq<Expr>): set<Name>
    decreases es, 1
  {
    if es == [] then {} else Free(es[0]) + FreeAll(es[1..])
  }

  /** The names that lets bind. */
  function LetNames(e: Expr): set<Name>
    decreases e, 0
  {
    match e
    case Const(_) => {}
    case Param(_) => {}
    case Var(_) => {}
    case Op(_, args) => LetNamesAll(args)
    case Call(_, args) => LetNamesAll(args)
    case Let(n, x, b) => {n} + LetNames(x) + LetNames(b)
  }

  function LetNamesAll(es: seq<Expr>): set<Name>
    decreases es, 1
  {
    if es == [] then {} else LetNames(es[0]) + LetNamesAll(es[1..])
  }

  // ----- inlining one function -----

  /** Prefixes the names of a body; parameters keep theirs. */
  function QualifyName(f: string, n: Name): Name {
    if n.Plain? then Qualified(f, n.s) else n
  }

  function Qualify(f: string, e: Expr): Expr
    decreases e, 0
  {
    match e
    case Const(_) => e
    case Param(_) => e
    case Var(n) => Var(QualifyName(f, n))
    case Op(op, args) => Op(op, QualifyAll(f, args))
    case Call(g, args) => Call(g, QualifyAll(f, args))
    case Let(n, x, b) => Let(QualifyName(f, n), Qualify(f, x), Qualify(f, b))
  }

  function QualifyAll(f: string, es: seq<Expr>): (r: seq<Expr>)
    ensures |r| == |es|
    decreases es, 1
  {
    if es == [] then [] else [Qualify(f, es[0])] + QualifyAll(f, es[1..])
  }

  /** Stops at a let that binds the name again. */
  function Substitute(n: Name, v: Expr, e: Expr): Expr
    decreases e, 0
  {
    match e
    case Const(_) => e
    case Param(_) => e
    case Var(m) => if m == n then v else e
    case Op(op, args) => Op(op, SubstituteAll(n, v, args))
    case Call(g, args) => Call(g, SubstituteAll(n, v, args))
    case Let(m, x, b) => Let(m, Substitute(n, v, x), if m == n then b else Substitute(n, v, b))
  }

  function SubstituteAll(n: Name, v: Expr, es: seq<Expr>): (r: seq<Expr>)
    ensures |r| == |es|
    decreases es, 1
  {
    if es == [] then [] else [Substitute(n, v, es[0])] + SubstituteAll(n, v, es[1..])
  }

  /** is_const (IROperator.cpp) looks through casts, broadcasts and ramps. */
  predicate IsConst(e: Expr)
    decreases e, 0
  {
    match e
    case Const(_) => true
    case Op(op, args) => (op.Cast? || op.Ramp? || op.Broadcast?) && AllConst(args)
    case _ => false
  }

  predicate AllConst(es: seq<Expr>)
    decreases es, 1
  {
    es != [] ==> IsConst(es[0]) && AllConst(es[1..])
  }

  /** Constants and variables are substituted, other arguments are bound by a let. */
  predicate IsSimple(e: Expr) {
    IsConst(e) || e.Param? || e.Var?
  }

  function BindOne(f: string, a: string, arg: Expr, body: Expr): Expr {
    if IsSimple(arg) then Substitute(Qualified(f, a), arg, body) else Let(Qualified(f, a), arg, body)
  }

  /** The first argument is bound innermost. */
  function Bind(f: string, names: seq<string>, args: seq<Expr>, body: Expr): Expr
    requires |names| == |args|
    decreases |names|
  {
    if names == [] then body else Bind(f, names[1..], args[1..], BindOne(f, names[0], args[0], body))
  }

  function Inline(f: string, def: Def, e: Expr): Expr
    decreases e, 0
  {
    match e
    case Const(_) => e
    case Param(_) => e
    case Var(_) => e
    case Op(op, args) => Op(op, InlineAll(f, def, args))
    case Call(g, args) =>
      var args' := InlineAll(f, def, args);
      if g == f && |args'| == |def.args| then Bind(f, def.args, args', Qualify(f, def.value)) else Call(g, args')
    case Let(n, x, b) => Let(n, Inline(f, def, x), Inline(f, def, b))
  }

  function InlineAll(f: string, def: Def, es: seq<Expr>): (r: seq<Expr>)
    ensures |r| == |es|
    decreases es, 1
  {
    if es == [] then [] else [Inline(f, def, es[0])] + InlineAll(f, def, es[1..])
  }

  // ----- hypotheses -----

  /** No name of the body of `f` occurs. */
  predicate NoneOf(f: string, e: Expr) {
    forall n | n in Names(e) :: !(n.Qualified? && n.func == f)
  }

  predicate AllPlain(e: Expr) {
    forall n | n in Names(e) :: n.Plain?
  }

  predicate Distinct<T(==)>(s: seq<T>) {
    forall i, j | 0 <= i < j < |s| :: s[i] != s[j]
  }

  /** Calls of `f` have as many arguments as `f`. */
  predicate ArityOk(f: string, n: nat, e: Expr)
    decreases e, 0
  {
    match e
    case Const(_) => true
    case Param(_) => true
    case Var(_) => true
    case Op(_, args) => ArityOkAll(f, n, args)
    case Call(g, args) => (g == f ==> |args| == n) && ArityOkAll(f, n, args)
    case Let(_, x, b) => ArityOk(f, n, x) && ArityOk(f, n, b)
  }

  predicate ArityOkAll(f: string, n: nat, es: seq<Expr>)
    decreases es, 1
  {
    es != [] ==> ArityOk(f, n, es[0]) && ArityOkAll(f, n, es[1..])
  }

  /** A definition uses only its arguments. */
  predicate DefOk(d: Def) {
    Distinct(d.args) && AllPlain(d.value) && forall n | n in Free(d.value) :: n.Plain? && n.s in d.args
  }

  function PlainEnv(names: seq<string>, xs: seq<int>): Env
    requires |names| == |xs|
    decreases |names|
  {
    if names == [] then map[] else PlainEnv(names[..|names| - 1],
        xs[..|xs| - 1])[Plain(names[|names| - 1]) := xs[|xs| - 1]]
  }

  /** The meaning of `f` is that of its definition. */
  ghost predicate Defines(w: World, f: string, d: Def) {
    forall xs: seq<int> | |xs| == |d.args| :: w.calls(f, xs) == Eval(d.value, w, PlainEnv(d.args, xs))
  }

  // ----- the loop -----

  function IndexOf(s: seq<string>, x: string): (i: nat)
    ensures x in s ==> i < |s| && s[i] == x
    ensures x !in s ==> i == |s|
  {
    if s == [] then 0 else if s[0] == x then 0 else 1 + IndexOf(s[1..], x)
  }

  /** inline_function: inlining, and then common subexpression elimination if anything was inlined. */
  function InlineFunction(cse: Expr -> Expr, f: string, d: Def, e: Expr): Expr {
    if f in Calls(e) then cse(Inline(f, d, e)) else Inline(f, d, e)
  }

  /** No let name is free. */
  predicate Separate(e: Expr) {
    LetNames(e) !! Free(e)
  }

  /** `r` has the meaning of `e`, and adds no calls and only names made up for it. */
  ghost predicate Kept(e: Expr, r: Expr) {
    && (forall w, env: Env :: Eval(r, w, env) == Eval(e, w, env))
    && Calls(r) <= Calls(e)
    && (forall n | n in Names(r) :: n in Names(e) || n.Temp?)
    && (forall f, n: nat | ArityOk(f, n, e) :: ArityOk(f, n, r))
  }

  /** What the loop needs of elimination, on expressions in which no let name is free. */
  ghost predicate GoodCse(cse: Expr -> Expr) {
    forall e | Separate(e) :: Separate(cse(e)) && Kept(e, cse(e))
  }

  /** Callees come first in the order, and the functions to inline are defined and pure. */
  ghost predicate Inlinable(env: map<string, Def>, inlines: set<string>, order: seq<string>) {
    && Distinct(order) && inlines <= env.Keys && (forall f | f in inlines :: f in order && DefOk(env[f]))
    && (forall f, g | f in inlines && g in inlines && g in Calls(env[f].value) :: IndexOf(order, g) < IndexOf(order, f))
    && (forall f, g | f in inlines && g in inlines :: ArityOk(g, |env[g].args|, env[f].value))
  }
}
