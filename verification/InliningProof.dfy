/** Inlining in realization order ends with every function inlined at most once, no calls left, and the same value. */
module InliningProof {
  import opened VarNames
  import opened Wrappers
  import opened Inlining

  // ----- evaluation depends on free names -----

  lemma {:induction false} FreeAreNames(e: Expr)
    ensures Free(e) <= Names(e)
    decreases e, 0
  {
    match e
    case Const(_) =>
    case Param(_) =>
    case Var(_) =>
    case Op(_, args) => FreeAreNamesAll(args);
    case Call(_, args) => FreeAreNamesAll(args);
    case Let(_, x, b) =>
      FreeAreNames(x);
      FreeAreNames(b);
  }

  lemma {:induction false} FreeAreNamesAll(es: seq<Expr>)
    ensures FreeAll(es) <= NamesAll(es)
    decreases es, 1
  {
    if es != [] {
      FreeAreNames(es[0]);
      FreeAreNamesAll(es[1..]);
    }
  }

  ghost predicate AgreeOn(k: set<Name>, a: Env, b: Env) {
    forall n | n in k :: Get(a, n) == Get(b, n)
  }

  lemma {:induction false} EvalAgrees(e: Expr, w: World, a: Env, b: Env)
    requires AgreeOn(Free(e), a, b)
    ensures Eval(e, w, a) == Eval(e, w, b)
    decreases e, 0
  {
    match e
    case Const(_) =>
    case Param(_) =>
    case Var(_) =>
    case Op(_, args) => EvalAgreesAll(args, w, a, b);
    case Call(_, args) => EvalAgreesAll(args, w, a, b);
    case Let(n, x, body) =>
      EvalAgrees(x, w, a, b);
      var y := Eval(x, w, a);
      assert AgreeOn(Free(body), a[n := y], b[n := y]) by {
        forall m | m in Free(body) ensures Get(a[n := y], m) == Get(b[n := y], m) {
          if m != n { assert m in Free(e); }
        }
      }
      EvalAgrees(body, w, a[n := y], b[n := y]);
  }

  lemma {:induction false} EvalAgreesAll(es: seq<Expr>, w: World, a: Env, b: Env)
    requires AgreeOn(FreeAll(es), a, b)
    ensures EvalAll(es, w, a) == EvalAll(es, w, b)
    decreases es, 1
  {
    if es != [] {
      EvalAgrees(es[0], w, a, b);
      EvalAgreesAll(es[1..], w, a, b);
    }
  }

  /** A name that is not free does not matter. */
  lemma EvalElsewhere(e: Expr, w: World, env: Env, n: Name, x: int)
    requires n !in Free(e)
    ensures Eval(e, w, env[n := x]) == Eval(e, w, env)
  {
    EvalAgrees(e, w, env[n := x], env);
  }

  // ----- constants -----

  lemma {:induction false} ConstIsClosed(e: Expr)
    requires IsConst(e)
    ensures Calls(e) == {} && Names(e) == {} && Free(e) == {} && LetNames(e) == {}
    ensures forall g, k: nat :: ArityOk(g, k, e)
    decreases e, 0
  {
    if e.Op? {
      ConstsAreClosed(e.args);
    }
  }

  lemma {:induction false} ConstsAreClosed(es: seq<Expr>)
    requires AllConst(es)
    ensures CallsAll(es) == {} && NamesAll(es) == {} && FreeAll(es) == {} && LetNamesAll(es) == {}
    ensures forall g, k: nat :: ArityOkAll(g, k, es)
    decreases es, 1
  {
    if es != [] {
      ConstIsClosed(es[0]);
      ConstsAreClosed(es[1..]);
    }
  }

  lemma SimpleHasNoCalls(e: Expr)
    requires IsSimple(e)
    ensures Calls(e) == {} && LetNames(e) == {} && forall g, k: nat :: ArityOk(g, k, e)
  {
    if IsConst(e) {
      ConstIsClosed(e);
    }
  }

  // ----- substituting an argument -----

  lemma {:induction false} SubstituteNothing(n: Name, v: Expr, e: Expr)
    requires n !in Free(e)
    ensures Substitute(n, v, e) == e
    decreases e, 0
  {
    match e
    case Const(_) =>
    case Param(_) =>
    case Var(_) =>
    case Op(_, args) => SubstituteNothingAll(n, v, args);
    case Call(_, args) => SubstituteNothingAll(n, v, args);
    case Let(m, x, b) =>
      SubstituteNothing(n, v, x);
      if m != n {
        SubstituteNothing(n, v, b);
      }
  }

  lemma {:induction false} SubstituteNothingAll(n: Name, v: Expr, es: seq<Expr>)
    requires n !in FreeAll(es)
    ensures SubstituteAll(n, v, es) == es
    decreases es, 1
  {
    if es != [] {
      SubstituteNothing(n, v, es[0]);
      SubstituteNothingAll(n, v, es[1..]);
    }
  }

  predicate IsOf(f: string, n: Name) {
    n.Qualified? && n.func == f
  }

  /** No name of the body of `f` is free. */
  predicate NoFree(f: string, e: Expr) {
    forall n | n in Free(e) :: !IsOf(f, n)
  }

  /** Names of the body of `f` and names from elsewhere are kept apart: a part either has none of the former free, or
      binds only them. */
  predicate Own(f: string, e: Expr)
    decreases e, 0
  {
    NoFree(f, e) ||
    match e
    case Const(_) => true
    case Param(_) => true
    case Var(_) => true
    case Op(_, args) => OwnAll(f, args)
    case Call(_, args) => OwnAll(f, args)
    case Let(n, x, b) => IsOf(f, n) && Own(f, x) && Own(f, b)
  }

  predicate OwnAll(f: string, es: seq<Expr>)
    decreases es, 1
  {
    es != [] ==> Own(f, es[0]) && OwnAll(f, es[1..])
  }

  lemma {:induction false} SubstituteMeans(f: string, a: string, v: Expr, e: Expr, w: World, env: Env)
    requires IsSimple(v) && NoFree(f, v) && Own(f, e)
    ensures Eval(Substitute(Qualified(f, a), v, e), w, env) == Eval(e, w, env[Qualified(f, a) := Eval(v, w, env)])
    ensures Own(f, Substitute(Qualified(f, a), v, e))
    decreases e, 0
  {
    var n, y := Qualified(f, a), Eval(v, w, env);
    if NoFree(f, e) {
      assert n !in Free(e);
      SubstituteNothing(n, v, e);
      EvalElsewhere(e, w, env, n, y);
    } else {
      match e
      case Const(_) =>
      case Param(_) =>
      case Var(_) =>
      case Op(_, args) => SubstituteMeansAll(f, a, v, args, w, env);
      case Call(_, args) => SubstituteMeansAll(f, a, v, args, w, env);
      case Let(m, x, b) =>
        SubstituteMeans(f, a, v, x, w, env);
        var z := Eval(x, w, env[n := y]);
        if m == n {
          assert env[n := y][n := z] == env[n := z];
        } else {
          assert m !in Free(v);
          EvalElsewhere(v, w, env, m, z);
          SubstituteMeans(f, a, v, b, w, env[m := z]);
          assert env[m := z][n := y] == env[n := y][m := z];
        }
    }
  }

  lemma {:induction false} SubstituteMeansAll(f: string, a: string, v: Expr, es: seq<Expr>, w: World, env: Env)
    requires IsSimple(v) && NoFree(f, v) && OwnAll(f, es)
    ensures EvalAll(SubstituteAll(Qualified(f, a), v, es), w, env)
            == EvalAll(es, w, env[Qualified(f, a) := Eval(v, w, env)])
    ensures OwnAll(f, SubstituteAll(Qualified(f, a), v, es))
    decreases es, 1
  {
    if es != [] {
      SubstituteMeans(f, a, v, es[0], w, env);
      SubstituteMeansAll(f, a, v, es[1..], w, env);
      assert SubstituteAll(Qualified(f, a), v, es)[1..] == SubstituteAll(Qualified(f, a), v, es[1..]);
    }
  }

  // ----- binding the arguments -----

  /** The arguments' values under the names of `f`'s body. */
  function Bound(f: string, names: seq<string>, xs: seq<int>, env: Env): Env
    requires |names| == |xs|
    decreases |names|
  {
    if names == [] then env else Bound(f, names[..|names| - 1], xs[..|xs| - 1],
        env)[Qualified(f, names[|names| - 1]) := xs[|xs| - 1]]
  }

  lemma BindOneMeans(f: string, a: string, arg: Expr, body: Expr, w: World, env: Env)
    requires NoFree(f, arg) && Own(f, body)
    ensures Eval(BindOne(f, a, arg, body), w, env) == Eval(body, w, env[Qualified(f, a) := Eval(arg, w, env)])
    ensures Own(f, BindOne(f, a, arg, body))
  {
    if IsSimple(arg) {
      SubstituteMeans(f, a, arg, body, w, env);
    }
  }

  /** Later arguments are bound outside, and do not disturb earlier ones. */
  lemma {:induction false} BoundFirst(f: string, names: seq<string>, xs: seq<int>, env: Env)
    requires |names| == |xs| > 0 && Distinct(names)
    ensures var n := Qualified(f, names[0]); Bound(f, names[1..], xs[1..], env)[n := xs[0]] == Bound(f, names, xs, env)
    decreases |names|
  {
    var k, n := |names| - 1, Qualified(f, names[0]);
    if k == 0 {
      assert names[1..] == [] && xs[1..] == [] && names[..0] == [] && xs[..0] == [];
    } else {
      BoundFirst(f, names[..k], xs[..k], env);
      assert names[1..][..k - 1] == names[..k][1..] && xs[1..][..k - 1] == xs[..k][1..];
      assert names[1..][k - 1] == names[k] && xs[1..][k - 1] == xs[k];
      var inner := Bound(f, names[..k][1..], xs[..k][1..], env);
      assert names[0] != names[k];
      assert inner[Qualified(f, names[k]) := xs[k]][n := xs[0]] == inner[n := xs[0]][Qualified(f, names[k]) := xs[k]];
    }
  }

  lemma {:induction false} BoundElsewhere(f: string, names: seq<string>, xs: seq<int>, env: Env, e: Expr, w: World)
    requires |names| == |xs| && NoFree(f, e)
    ensures Eval(e, w, Bound(f, names, xs, env)) == Eval(e, w, env)
    decreases |names|
  {
    if names != [] {
      var k := |names| - 1;
      BoundElsewhere(f, names[..k], xs[..k], env, e, w);
      assert Qualified(f, names[k]) !in Free(e);
      EvalElsewhere(e, w, Bound(f, names[..k], xs[..k], env), Qualified(f, names[k]), xs[k]);
    }
  }

  predicate NoFreeAll(f: string, es: seq<Expr>) {
    forall e | e in es :: NoFree(f, e)
  }

  lemma {:induction false} BindMeans(f: string, names: seq<string>, args: seq<Expr>, body: Expr, w: World, env: Env)
    requires |names| == |args| && Distinct(names) && NoFreeAll(f, args) && Own(f, body)
    ensures Eval(Bind(f, names, args, body), w, env) == Eval(body, w, Bound(f, names, EvalAll(args, w, env), env))
    decreases |names|
  {
    if names != [] {
      var rest, body1 := args[1..], BindOne(f, names[0], args[0], body);
      var xs := EvalAll(args, w, env);
      assert forall e | e in rest :: e in args;
      assert args[0] in args && xs[1..] == EvalAll(rest, w, env);
      var env1 := Bound(f, names[1..], xs[1..], env);
      BindOneMeans(f, names[0], args[0], body, w, env1);
      BindMeans(f, names[1..], rest, body1, w, env);
      BoundElsewhere(f, names[1..], xs[1..], env, args[0], w);
      BoundFirst(f, names, xs, env);
      hide Own, BindOne, Bound;
    }
  }

  // ----- the body -----

  /** The two environments agree on the free names of a body. */
  ghost predicate Qualifies(f: string, k: set<Name>, plain: Env, env: Env) {
    forall n | n in k :: Get(env, QualifyName(f, n)) == Get(plain, n)
  }

  lemma {:induction false} QualifyMeans(f: string, e: Expr, w: World, plain: Env, env: Env)
    requires AllPlain(e) && Qualifies(f, Free(e), plain, env)
    ensures Eval(Qualify(f, e), w, env) == Eval(e, w, plain)
    decreases e, 0
  {
    match e
    case Const(_) =>
    case Param(_) =>
    case Var(_) =>
    case Op(_, args) => QualifyMeansAll(f, args, w, plain, env);
    case Call(_, args) => QualifyMeansAll(f, args, w, plain, env);
    case Let(n, x, b) =>
      assert Names(x) <= Names(e) && Names(b) <= Names(e) && n in Names(e);
      QualifyMeans(f, x, w, plain, env);
      var y := Eval(x, w, plain);
      FreeAreNames(b);
      forall m | m in Free(b) ensures Get(env[QualifyName(f, n) := y], QualifyName(f, m)) == Get(plain[n := y], m) {
        assert m.Plain?;
        if m != n { assert m in Free(e); }
      }
      QualifyMeans(f, b, w, plain[n := y], env[QualifyName(f, n) := y]);
  }

  lemma {:induction false} QualifyMeansAll(f: string, es: seq<Expr>, w: World, plain: Env, env: Env)
    requires (forall n | n in NamesAll(es) :: n.Plain?) && Qualifies(f, FreeAll(es), plain, env)
    ensures EvalAll(QualifyAll(f, es), w, env) == EvalAll(es, w, plain)
    decreases es, 1
  {
    if es != [] {
      QualifyMeans(f, es[0], w, plain, env);
      QualifyMeansAll(f, es[1..], w, plain, env);
      assert QualifyAll(f, es)[1..] == QualifyAll(f, es[1..]);
    }
  }

  /** A qualified body has only names of `f`, and binds only such names. */
  lemma {:induction false} QualifiedIsOwn(f: string, e: Expr)
    requires AllPlain(e)
    ensures Own(f, Qualify(f, e)) && forall n | n in Names(Qualify(f, e)) :: IsOf(f, n)
    decreases e, 0
  {
    match e
    case Const(_) =>
    case Param(_) =>
    case Var(_) =>
    case Op(_, args) => QualifiedIsOwnAll(f, args);
    case Call(_, args) => QualifiedIsOwnAll(f, args);
    case Let(n, x, b) =>
      assert Names(x) <= Names(e) && Names(b) <= Names(e) && n in Names(e);
      QualifiedIsOwn(f, x);
      QualifiedIsOwn(f, b);
  }

  lemma {:induction false} QualifiedIsOwnAll(f: string, es: seq<Expr>)
    requires forall n | n in NamesAll(es) :: n.Plain?
    ensures OwnAll(f, QualifyAll(f, es)) && forall n | n in NamesAll(QualifyAll(f, es)) :: IsOf(f, n)
    decreases es, 1
  {
    if es != [] {
      QualifiedIsOwn(f, es[0]);
      QualifiedIsOwnAll(f, es[1..]);
      assert QualifyAll(f, es)[1..] == QualifyAll(f, es[1..]);
    }
  }

  lemma {:induction false} PlainIsBound(f: string, names: seq<string>, xs: seq<int>, env: Env, s: string)
    requires |names| == |xs| && s in names
    ensures Get(Bound(f, names, xs, env), Qualified(f, s)) == Get(PlainEnv(names, xs), Plain(s))
    decreases |names|
  {
    var k := |names| - 1;
    if s != names[k] {
      assert names == names[..k] + [names[k]];
      PlainIsBound(f, names[..k], xs[..k], env, s);
    }
  }

  /** The body of `f`, with its arguments bound, has the value of a call of `f`. */
  lemma BodyMeans(f: string, d: Def, args: seq<Expr>, w: World, env: Env)
    requires DefOk(d) && Defines(w, f, d) && |args| == |d.args| && NoFreeAll(f, args)
    ensures Eval(Bind(f, d.args, args, Qualify(f, d.value)), w, env) == w.calls(f, EvalAll(args, w, env))
  {
    var xs := EvalAll(args, w, env);
    var env1, plain := Bound(f, d.args, xs, env), PlainEnv(d.args, xs);
    QualifiedIsOwn(f, d.value);
    BindMeans(f, d.args, args, Qualify(f, d.value), w, env);
    forall n | n in Free(d.value) ensures Get(env1, QualifyName(f, n)) == Get(plain, n) {
      PlainIsBound(f, d.args, xs, env, n.s);
    }
    QualifyMeans(f, d.value, w, plain, env1);
    hide Bind, Own, Bound, PlainEnv, Qualify, Eval;
  }

  // ----- free names -----

  lemma {:induction false} SubstituteFree(n: Name, v: Expr, e: Expr)
    ensures forall m | m in Free(Substitute(n, v, e)) :: m in Free(v) || (m in Free(e) && m != n)
    decreases e, 0
  {
    match e
    case Const(_) =>
    case Param(_) =>
    case Var(_) =>
    case Op(_, args) => SubstituteFreeAll(n, v, args);
    case Call(_, args) => SubstituteFreeAll(n, v, args);
    case Let(_, x, b) =>
      SubstituteFree(n, v, x);
      SubstituteFree(n, v, b);
  }

  lemma {:induction false} SubstituteFreeAll(n: Name, v: Expr, es: seq<Expr>)
    ensures forall m | m in FreeAll(SubstituteAll(n, v, es)) :: m in Free(v) || (m in FreeAll(es) && m != n)
    decreases es, 1
  {
    if es != [] {
      SubstituteFree(n, v, es[0]);
      SubstituteFreeAll(n, v, es[1..]);
      assert SubstituteAll(n, v, es)[1..] == SubstituteAll(n, v, es[1..]);
    }
  }

  /** Binding the arguments leaves no name of `f` free. */
  lemma {:induction false} BindFree(f: string, names: seq<string>, args: seq<Expr>, body: Expr)
    requires |names| == |args| && NoFreeAll(f, args)
    requires forall n | n in Free(body) && IsOf(f, n) :: n.s in names
    ensures NoFree(f, Bind(f, names, args, body))
    decreases |names|
  {
    if names != [] {
      var body1 := BindOne(f, names[0], args[0], body);
      SubstituteFree(Qualified(f, names[0]), args[0], body);
      assert args[0] in args;
      forall n | n in Free(body1) && IsOf(f, n) ensures n.s in names[1..] {
        assert n in Free(body) && n != Qualified(f, names[0]);
        assert n.s in names && n.s != names[0];
      }
      assert forall e | e in args[1..] :: e in args;
      BindFree(f, names[1..], args[1..], body1);
    }
  }

  lemma {:induction false} QualifyFree(f: string, e: Expr)
    requires AllPlain(e)
    ensures forall n | n in Free(Qualify(f, e)) :: IsOf(f, n) && Plain(n.s) in Free(e)
    decreases e, 0
  {
    match e
    case Const(_) =>
    case Param(_) =>
    case Var(_) =>
    case Op(_, args) => QualifyFreeAll(f, args);
    case Call(_, args) => QualifyFreeAll(f, args);
    case Let(n, x, b) =>
      assert Names(x) <= Names(e) && Names(b) <= Names(e) && n in Names(e);
      QualifyFree(f, x);
      QualifyFree(f, b);
  }

  lemma {:induction false} QualifyFreeAll(f: string, es: seq<Expr>)
    requires forall n | n in NamesAll(es) :: n.Plain?
    ensures forall n | n in FreeAll(QualifyAll(f, es)) :: IsOf(f, n) && Plain(n.s) in FreeAll(es)
    decreases es, 1
  {
    if es != [] {
      QualifyFree(f, es[0]);
      QualifyFreeAll(f, es[1..]);
      assert QualifyAll(f, es)[1..] == QualifyAll(f, es[1..]);
    }
  }

  lemma BodyFree(f: string, d: Def, args: seq<Expr>)
    requires DefOk(d) && |args| == |d.args| && NoFreeAll(f, args)
    ensures NoFree(f, Bind(f, d.args, args, Qualify(f, d.value)))
  {
    QualifyFree(f, d.value);
    BindFree(f, d.args, args, Qualify(f, d.value));
    hide Bind, Qualify, Free;
  }

  /** After inlining `f` no name of its body is free. */
  lemma {:induction false} InlineFree(f: string, d: Def, e: Expr)
    requires DefOk(d) && NoneOf(f, e)
    ensures NoFree(f, Inline(f, d, e))
    decreases e, 0
  {
    hide DefOk, Bind, Qualify;
    match e
    case Const(_) =>
    case Param(_) =>
    case Var(_) =>
    case Op(_, args) =>
      InlineFreeAll(f, d, args);
      NoFreeList(f, InlineAll(f, d, args));
    case Call(g, args) =>
      InlineFreeAll(f, d, args);
      NoFreeList(f, InlineAll(f, d, args));
      if g == f && |args| == |d.args| {
        BodyFree(f, d, InlineAll(f, d, args));
      }
    case Let(_, x, b) =>
      assert Names(x) <= Names(e) && Names(b) <= Names(e);
      InlineFree(f, d, x);
      InlineFree(f, d, b);
  }

  lemma {:induction false} InlineFreeAll(f: string, d: Def, es: seq<Expr>)
    requires DefOk(d) && forall n | n in NamesAll(es) :: !IsOf(f, n)
    ensures NoFreeAll(f, InlineAll(f, d, es))
    decreases es, 1
  {
    if es != [] {
      assert forall n | n in Names(es[0]) :: n in NamesAll(es) && !IsOf(f, n);
      InlineFree(f, d, es[0]);
      InlineFreeAll(f, d, es[1..]);
      hide NoFree, Inline;
    }
  }

  lemma {:induction false} NoFreeList(f: string, es: seq<Expr>)
    requires NoFreeAll(f, es)
    ensures forall n | n in FreeAll(es) :: !IsOf(f, n)
    decreases es, 1
  {
    if es != [] {
      assert es[0] in es && forall e | e in es[1..] :: e in es;
      NoFreeList(f, es[1..]);
    }
  }

  // ----- inlining one function -----

  /** Inlining keeps the value. */
  lemma {:induction false} InlineMeans(f: string, d: Def, e: Expr, w: World, env: Env)
    requires DefOk(d) && Defines(w, f, d) && f !in Calls(d.value) && NoneOf(f, e)
    ensures Eval(Inline(f, d, e), w, env) == Eval(e, w, env)
    decreases e, 0
  {
    hide DefOk, Defines, Bind, Qualify;
    match e
    case Const(_) =>
    case Param(_) =>
    case Var(_) =>
    case Op(_, args) => InlineMeansAll(f, d, args, w, env);
    case Call(g, args) =>
      InlineMeansAll(f, d, args, w, env);
      var args' := InlineAll(f, d, args);
      if g == f && |args'| == |d.args| {
        InlineFreeAll(f, d, args);
        BodyMeans(f, d, args', w, env);
      }
    case Let(n, x, b) =>
      assert Names(x) <= Names(e) && Names(b) <= Names(e);
      InlineMeans(f, d, x, w, env);
      InlineMeans(f, d, b, w, env[n := Eval(x, w, env)]);
  }

  lemma {:induction false} InlineMeansAll(f: string, d: Def, es: seq<Expr>, w: World, env: Env)
    requires DefOk(d) && Defines(w, f, d) && f !in Calls(d.value) && forall n | n in NamesAll(es) :: !IsOf(f, n)
    ensures EvalAll(InlineAll(f, d, es), w, env) == EvalAll(es, w, env)
    decreases es, 1
  {
    if es != [] {
      assert forall n | n in Names(es[0]) :: n in NamesAll(es) && !IsOf(f, n);
      InlineMeans(f, d, es[0], w, env);
      InlineMeansAll(f, d, es[1..], w, env);
      assert InlineAll(f, d, es)[1..] == InlineAll(f, d, es[1..]);
    }
  }

  // ----- calls, names and arities after inlining -----

  lemma {:induction false} SubstituteCalls(n: Name, v: Expr, e: Expr)
    requires Calls(v) == {}
    ensures Calls(Substitute(n, v, e)) == Calls(e)
    decreases e, 0
  {
    match e
    case Const(_) =>
    case Param(_) =>
    case Var(_) =>
    case Op(_, args) => SubstituteCallsAll(n, v, args);
    case Call(_, args) => SubstituteCallsAll(n, v, args);
    case Let(_, x, b) =>
      SubstituteCalls(n, v, x);
      SubstituteCalls(n, v, b);
  }

  lemma {:induction false} SubstituteCallsAll(n: Name, v: Expr, es: seq<Expr>)
    requires Calls(v) == {}
    ensures CallsAll(SubstituteAll(n, v, es)) == CallsAll(es)
    decreases es, 1
  {
    if es != [] {
      SubstituteCalls(n, v, es[0]);
      SubstituteCallsAll(n, v, es[1..]);
      assert SubstituteAll(n, v, es)[1..] == SubstituteAll(n, v, es[1..]);
    }
  }

  lemma {:induction false} SubstituteArity(n: Name, v: Expr, e: Expr, g: string, k: nat)
    requires ArityOk(g, k, v) && ArityOk(g, k, e)
    ensures ArityOk(g, k, Substitute(n, v, e))
    decreases e, 0
  {
    match e
    case Const(_) =>
    case Param(_) =>
    case Var(_) =>
    case Op(_, args) => SubstituteArityAll(n, v, args, g, k);
    case Call(_, args) => SubstituteArityAll(n, v, args, g, k);
    case Let(m, x, b) =>
      SubstituteArity(n, v, x, g, k);
      SubstituteArity(n, v, b, g, k);
  }

  lemma {:induction false} SubstituteArityAll(n: Name, v: Expr, es: seq<Expr>, g: string, k: nat)
    requires ArityOk(g, k, v) && ArityOkAll(g, k, es)
    ensures ArityOkAll(g, k, SubstituteAll(n, v, es))
    decreases es, 1
  {
    if es != [] {
      SubstituteArity(n, v, es[0], g, k);
      SubstituteArityAll(n, v, es[1..], g, k);
      assert SubstituteAll(n, v, es)[1..] == SubstituteAll(n, v, es[1..]);
    }
  }

  lemma {:induction false} SubstituteNames(n: Name, v: Expr, e: Expr)
    ensures Names(Substitute(n, v, e)) <= Names(e) + Names(v)
    decreases e, 0
  {
    match e
    case Const(_) =>
    case Param(_) =>
    case Var(_) =>
    case Op(_, args) => SubstituteNamesAll(n, v, args);
    case Call(_, args) => SubstituteNamesAll(n, v, args);
    case Let(_, x, b) =>
      SubstituteNames(n, v, x);
      SubstituteNames(n, v, b);
  }

  lemma {:induction false} SubstituteNamesAll(n: Name, v: Expr, es: seq<Expr>)
    ensures NamesAll(SubstituteAll(n, v, es)) <= NamesAll(es) + Names(v)
    decreases es, 1
  {
    if es != [] {
      SubstituteNames(n, v, es[0]);
      SubstituteNamesAll(n, v, es[1..]);
      assert SubstituteAll(n, v, es)[1..] == SubstituteAll(n, v, es[1..]);
    }
  }

  /** One argument bound: calls, arities and names come from the argument and the body. */
  lemma BindOneKeeps(f: string, a: string, arg: Expr, body: Expr, g: string, k: nat)
    ensures Calls(BindOne(f, a, arg, body)) <= Calls(arg) + Calls(body)
    ensures ArityOk(g, k, body) && ArityOk(g, k, arg) ==> ArityOk(g, k, BindOne(f, a, arg, body))
    ensures forall n | n in Names(BindOne(f, a, arg, body)) :: IsOf(f, n) || n in Names(arg) || n in Names(body)
  {
    if IsSimple(arg) {
      SimpleHasNoCalls(arg);
      SubstituteCalls(Qualified(f, a), arg, body);
      if ArityOk(g, k, body) {
        SubstituteArity(Qualified(f, a), arg, body, g, k);
      }
      SubstituteNames(Qualified(f, a), arg, body);
      hide Substitute;
    }
  }

  lemma {:induction false} BindKeeps(f: string, names: seq<string>, args: seq<Expr>, body: Expr, g: string, k: nat)
    requires |names| == |args|
    ensures Calls(Bind(f, names, args, body)) <= CallsAll(args) + Calls(body)
    ensures ArityOk(g, k, body) && ArityOkAll(g, k, args) ==> ArityOk(g, k, Bind(f, names, args, body))
    ensures forall n | n in Names(Bind(f, names, args, body)) :: IsOf(f, n) || n in NamesAll(args) || n in Names(body)
    decreases |names|
  {
    if names != [] {
      BindOneKeeps(f, names[0], args[0], body, g, k);
      BindKeeps(f, names[1..], args[1..], BindOne(f, names[0], args[0], body), g, k);
      hide BindOne;
    }
  }

  lemma {:induction false} QualifyKeeps(f: string, e: Expr, g: string, k: nat)
    ensures Calls(Qualify(f, e)) == Calls(e) && (ArityOk(g, k, e) ==> ArityOk(g, k, Qualify(f, e)))
    decreases e, 0
  {
    match e
    case Const(_) =>
    case Param(_) =>
    case Var(_) =>
    case Op(_, args) => QualifyKeepsAll(f, args, g, k);
    case Call(_, args) => QualifyKeepsAll(f, args, g, k);
    case Let(_, x, b) =>
      QualifyKeeps(f, x, g, k);
      QualifyKeeps(f, b, g, k);
  }

  lemma {:induction false} QualifyKeepsAll(f: string, es: seq<Expr>, g: string, k: nat)
    ensures CallsAll(QualifyAll(f, es)) == CallsAll(es)
            && (ArityOkAll(g, k, es) ==> ArityOkAll(g, k, QualifyAll(f, es)))
    decreases es, 1
  {
    if es != [] {
      QualifyKeeps(f, es[0], g, k);
      QualifyKeepsAll(f, es[1..], g, k);
      assert QualifyAll(f, es)[1..] == QualifyAll(f, es[1..]);
    }
  }

  /** Inlining leaves no call of `f`, and brings only the calls and names of its body. */
  lemma {:induction false} InlineKeeps(f: string, d: Def, e: Expr, g: string, k: nat)
    requires AllPlain(d.value) && ArityOk(f, |d.args|, e)
    ensures Calls(Inline(f, d, e)) <= Calls(e) - {f} + Calls(d.value)
    ensures ArityOk(g, k, e) && ArityOk(g, k, d.value) ==> ArityOk(g, k, Inline(f, d, e))
    ensures forall n | n in Names(Inline(f, d, e)) :: IsOf(f, n) || n in Names(e)
    decreases e, 0
  {
    match e
    case Const(_) =>
    case Param(_) =>
    case Var(_) =>
    case Op(_, args) => InlineKeepsAll(f, d, args, g, k);
    case Call(h, args) =>
      InlineKeepsAll(f, d, args, g, k);
      if h == f {
        QualifyKeeps(f, d.value, g, k);
        QualifiedIsOwn(f, d.value);
        BindKeeps(f, d.args, InlineAll(f, d, args), Qualify(f, d.value), g, k);
      }
      hide Bind, Qualify;
    case Let(_, x, b) =>
      InlineKeeps(f, d, x, g, k);
      InlineKeeps(f, d, b, g, k);
  }

  lemma {:induction false} InlineKeepsAll(f: string, d: Def, es: seq<Expr>, g: string, k: nat)
    requires AllPlain(d.value) && ArityOkAll(f, |d.args|, es)
    ensures CallsAll(InlineAll(f, d, es)) <= CallsAll(es) - {f} + Calls(d.value)
    ensures ArityOkAll(g, k, es) && ArityOk(g, k, d.value) ==> ArityOkAll(g, k, InlineAll(f, d, es))
    ensures forall n | n in NamesAll(InlineAll(f, d, es)) :: IsOf(f, n) || n in NamesAll(es)
    decreases es, 1
  {
    if es != [] {
      InlineKeeps(f, d, es[0], g, k);
      InlineKeepsAll(f, d, es[1..], g, k);
      assert InlineAll(f, d, es)[1..] == InlineAll(f, d, es[1..]);
    }
  }

  // ----- let names stay apart from free names -----

  lemma {:induction false} SubstituteLetNames(n: Name, v: Expr, e: Expr)
    requires LetNames(v) == {}
    ensures LetNames(Substitute(n, v, e)) == LetNames(e)
    decreases e, 0
  {
    match e
    case Const(_) =>
    case Param(_) =>
    case Var(_) =>
    case Op(_, args) => SubstituteLetNamesAll(n, v, args);
    case Call(_, args) => SubstituteLetNamesAll(n, v, args);
    case Let(_, x, b) =>
      SubstituteLetNames(n, v, x);
      SubstituteLetNames(n, v, b);
  }

  lemma {:induction false} SubstituteLetNamesAll(n: Name, v: Expr, es: seq<Expr>)
    requires LetNames(v) == {}
    ensures LetNamesAll(SubstituteAll(n, v, es)) == LetNamesAll(es)
    decreases es, 1
  {
    if es != [] {
      SubstituteLetNames(n, v, es[0]);
      SubstituteLetNamesAll(n, v, es[1..]);
      assert SubstituteAll(n, v, es)[1..] == SubstituteAll(n, v, es[1..]);
    }
  }

  lemma {:induction false} LetNamesAreNames(e: Expr)
    ensures LetNames(e) <= Names(e)
    decreases e, 0
  {
    match e
    case Const(_) =>
    case Param(_) =>
    case Var(_) =>
    case Op(_, args) => LetNamesAreNamesAll(args);
    case Call(_, args) => LetNamesAreNamesAll(args);
    case Let(_, x, b) =>
      LetNamesAreNames(x);
      LetNamesAreNames(b);
  }

  lemma {:induction false} LetNamesAreNamesAll(es: seq<Expr>)
    ensures LetNamesAll(es) <= NamesAll(es)
    decreases es, 1
  {
    if es != [] {
      LetNamesAreNames(es[0]);
      LetNamesAreNamesAll(es[1..]);
    }
  }

  /** Binding adds lets of names of `f` only, and nothing free but what is free in the arguments and the body. */
  lemma {:induction false} BindSeparates(f: string, names: seq<string>, args: seq<Expr>, body: Expr)
    requires |names| == |args|
    ensures forall n | n in LetNames(Bind(f, names, args, body)) ::
            IsOf(f, n) || n in LetNamesAll(args) || n in LetNames(body)
    ensures Free(Bind(f, names, args, body)) <= FreeAll(args) + Free(body)
    decreases |names|
  {
    if names != [] {
      var body1 := BindOne(f, names[0], args[0], body);
      if IsSimple(args[0]) {
        SimpleHasNoCalls(args[0]);
        SubstituteLetNames(Qualified(f, names[0]), args[0], body);
        SubstituteFree(Qualified(f, names[0]), args[0], body);
      }
      BindSeparates(f, names[1..], args[1..], body1);
    }
  }

  lemma BodySeparates(f: string, d: Def, args: seq<Expr>)
    requires DefOk(d) && |args| == |d.args| && NoFreeAll(f, args)
    ensures forall n | n in LetNames(Bind(f, d.args, args, Qualify(f, d.value))) :: IsOf(f, n) || n in LetNamesAll(args)
    ensures Free(Bind(f, d.args, args, Qualify(f, d.value))) <= FreeAll(args)
  {
    var body := Qualify(f, d.value);
    QualifiedIsOwn(f, d.value);
    LetNamesAreNames(body);
    QualifyFree(f, d.value);
    BindSeparates(f, d.args, args, body);
    BodyFree(f, d, args);
    hide Bind, Qualify, DefOk;
  }

  /** Inlining binds names of the body only, and leaves nothing free that was not. */
  lemma {:induction false} InlineSeparates(f: string, d: Def, e: Expr)
    requires DefOk(d) && NoneOf(f, e)
    ensures forall n | n in LetNames(Inline(f, d, e)) :: IsOf(f, n) || n in LetNames(e)
    ensures Free(Inline(f, d, e)) <= Free(e)
    decreases e, 0
  {
    hide DefOk, Bind, Qualify;
    match e
    case Const(_) =>
    case Param(_) =>
    case Var(_) =>
    case Op(_, args) => InlineSeparatesAll(f, d, args);
    case Call(g, args) =>
      InlineSeparatesAll(f, d, args);
      if g == f && |args| == |d.args| {
        InlineFreeAll(f, d, args);
        BodySeparates(f, d, InlineAll(f, d, args));
      }
    case Let(_, x, b) =>
      assert Names(x) <= Names(e) && Names(b) <= Names(e);
      InlineSeparates(f, d, x);
      InlineSeparates(f, d, b);
  }

  lemma {:induction false} InlineSeparatesAll(f: string, d: Def, es: seq<Expr>)
    requires DefOk(d) && forall n | n in NamesAll(es) :: !IsOf(f, n)
    ensures forall n | n in LetNamesAll(InlineAll(f, d, es)) :: IsOf(f, n) || n in LetNamesAll(es)
    ensures FreeAll(InlineAll(f, d, es)) <= FreeAll(es)
    decreases es, 1
  {
    if es != [] {
      assert forall n | n in Names(es[0]) :: n in NamesAll(es) && !IsOf(f, n);
      InlineSeparates(f, d, es[0]);
      InlineSeparatesAll(f, d, es[1..]);
      assert InlineAll(f, d, es)[1..] == InlineAll(f, d, es[1..]);
    }
  }

  /** What inlining hands to elimination has no free let name if what it was given has none. */
  lemma InlineKeepsSeparate(f: string, d: Def, e: Expr)
    requires DefOk(d) && NoneOf(f, e) && Separate(e)
    ensures Separate(Inline(f, d, e))
  {
    InlineSeparates(f, d, e);
    InlineFree(f, d, e);
    hide Inline, Free, LetNames;
  }

  // ----- one round -----

  ghost predicate AllDefine(w: World, env: map<string, Def>, inlines: set<string>) {
    inlines <= env.Keys && forall f | f in inlines :: Defines(w, f, env[f])
  }

  /** The two expressions have the same value in every world that has the defined functions. */
  ghost predicate SameValue(env: map<string, Def>, inlines: set<string>, a: Expr, b: Expr) {
    forall w, v: Env | AllDefine(w, env, inlines) :: Eval(a, w, v) == Eval(b, w, v)
  }

  /** Only functions before place `k` are still to be inlined, their bodies have not been used, and no let name is
      free. */
  ghost predicate Ready(env: map<string, Def>, inlines: set<string>, order: seq<string>, e: Expr, k: nat) {
    && (forall f | f in inlines && f in Calls(e) :: IndexOf(order, f) < k)
    && (forall f | f in inlines && IndexOf(order, f) < k :: NoneOf(f, e))
    && (forall f | f in inlines && f in env :: ArityOk(f, |env[f].args|, e))
    && Separate(e)
  }

  /** Inlining the last function leaves only functions before it, and the value as it was. */
  lemma RoundKeeps(cse: Expr -> Expr, env: map<string, Def>, inlines: set<string>, order: seq<string>, e: Expr, k: nat,
                   f: string)
    requires GoodCse(cse) && Inlinable(env, inlines, order) && Ready(env, inlines, order, e, k)
    requires f in inlines && f in Calls(e) && forall g | g in inlines && g in Calls(e) ::
             IndexOf(order, g) <= IndexOf(order, f)
    ensures var e' := InlineFunction(cse, f, env[f], e);
            SameValue(env, inlines, e', e) && Ready(env, inlines, order, e', IndexOf(order, f))
  {
    var d, i := env[f], IndexOf(order, f);
    var inlined := Inline(f, d, e);
    assert DefOk(d) && f !in Calls(d.value) && NoneOf(f, e);
    InlinedReady(env, inlines, order, e, k, f);
    assert Separate(inlined) && Kept(inlined, cse(inlined));
    forall w, v: Env | AllDefine(w, env, inlines) ensures Eval(cse(inlined), w, v) == Eval(e, w, v) {
      InlineMeans(f, d, e, w, v);
    }
    CseReady(cse, env, inlines, order, inlined, i);
    hide Inline, Eval, Ready, Inlinable, DefOk, Defines;
  }

  lemma InlinedReady(env: map<string, Def>, inlines: set<string>, order: seq<string>, e: Expr, k: nat, f: string)
    requires Inlinable(env, inlines, order) && Ready(env, inlines, order, e, k)
    requires f in inlines && f in Calls(e) && forall g | g in inlines && g in Calls(e) ::
             IndexOf(order, g) <= IndexOf(order, f)
    ensures Ready(env, inlines, order, Inline(f, env[f], e), IndexOf(order, f))
  {
    var d, e' := env[f], Inline(f, env[f], e);
    TwoFuncs(env, inlines, order, f, f);
    assert ArityOk(f, |d.args|, e) && DefOk(d) && NoneOf(f, e);
    InlineKeepsSeparate(f, d, e);
    hide Inline, DefOk, IndexOf, Names, Calls, Inlinable, ArityOk, NoneOf, Separate;
    forall g | g in inlines && g in Calls(e') ensures IndexOf(order, g) < IndexOf(order, f) {
      InlinedCalls(env, inlines, order, e, f, g);
    }
    forall g | g in inlines && IndexOf(order, g) < IndexOf(order, f) ensures NoneOf(g, e') {
      NoneOfInlined(f, g, d, e);
    }
    forall g | g in inlines && g in env ensures ArityOk(g, |env[g].args|, e') {
      TwoFuncs(env, inlines, order, f, g);
      InlineKeeps(f, d, e, g, |env[g].args|);
    }
  }

  /** What is known of two functions to inline. */
  lemma TwoFuncs(env: map<string, Def>, inlines: set<string>, order: seq<string>, f: string, g: string)
    requires Inlinable(env, inlines, order) && f in inlines && g in inlines
    ensures f in env && g in env && f in order && g in order && AllPlain(env[f].value)
            && ArityOk(g, |env[g].args|, env[f].value)
    ensures g in Calls(env[f].value) ==> IndexOf(order, g) < IndexOf(order, f)
  {
    assert DefOk(env[f]);
    hide ArityOk, Calls, IndexOf;
  }

  lemma InlinedCalls(env: map<string, Def>, inlines: set<string>, order: seq<string>, e: Expr, f: string, g: string)
    requires Inlinable(env, inlines, order) && f in inlines && g in inlines && ArityOk(f, |env[f].args|, e)
    requires g in Calls(Inline(f, env[f], e)) && (g in Calls(e) ==> IndexOf(order, g) <= IndexOf(order, f))
    ensures IndexOf(order, g) < IndexOf(order, f)
  {
    TwoFuncs(env, inlines, order, f, g);
    hide Inlinable, IndexOf;
    InlineKeeps(f, env[f], e, g, 0);
    if g !in Calls(env[f].value) && IndexOf(order, f) == IndexOf(order, g) {
      SamePlace(order, f, g);
    }
    hide Inline, Calls;
  }

  lemma NoneOfInlined(f: string, g: string, d: Def, e: Expr)
    requires AllPlain(d.value) && ArityOk(f, |d.args|, e) && f != g && NoneOf(g, e)
    ensures NoneOf(g, Inline(f, d, e))
  {
    InlineKeeps(f, d, e, g, 0);
    hide Inline, Names;
  }

  lemma SamePlace(order: seq<string>, f: string, g: string)
    requires f in order && g in order && IndexOf(order, f) == IndexOf(order, g)
    ensures f == g
  {
    assert order[IndexOf(order, f)] == f && order[IndexOf(order, g)] == g;
  }

  lemma CseReady(cse: Expr -> Expr, env: map<string, Def>, inlines: set<string>, order: seq<string>, e: Expr, k: nat)
    requires GoodCse(cse) && Ready(env, inlines, order, e, k)
    ensures Ready(env, inlines, order, cse(e), k)
  {
    assert Separate(cse(e)) && Kept(e, cse(e));
    forall f | f in inlines && IndexOf(order, f) < k ensures NoneOf(f, cse(e)) {
      assert NoneOf(f, e);
      forall n | n in Names(cse(e)) ensures !(n.Qualified? && n.func == f) {
        assert n in Names(e) || n.Temp?;
      }
    }
    hide Calls, Names, ArityOk, Eval;
  }

  // ----- the loop -----

  predicate Before(order: seq<string>, a: string, b: string) {
    IndexOf(order, a) > IndexOf(order, b)
  }

  ghost predicate SortedBy(order: seq<string>, r: seq<string>) {
    forall i, j | 0 <= i < j < |r| :: !Before(order, r[j], r[i])
  }

  /** Inserting before the first smaller element keeps a list sorted. */
  lemma Inserted(order: seq<string>, r: seq<string>, k: nat, x: string)
    requires SortedBy(order, r) && k <= |r| && (forall i | 0 <= i < k :: !Before(order, x, r[i]))
             && (k < |r| ==> Before(order, x, r[k]))
    ensures SortedBy(order, r[..k] + [x] + r[k..]) && multiset(r[..k] + [x] + r[k..]) == multiset(r) + multiset{x}
  {
    InsertedSorted(order, r, k, x);
    InsertedCount(r, k, x);
    hide *;
  }

  lemma InsertedCount(r: seq<string>, k: nat, x: string)
    requires k <= |r|
    ensures multiset(r[..k] + [x] + r[k..]) == multiset(r) + multiset{x}
  {
    assert r == r[..k] + r[k..];
  }

  lemma InsertedSorted(order: seq<string>, r: seq<string>, k: nat, x: string)
    requires SortedBy(order, r) && k <= |r| && (forall i | 0 <= i < k :: !Before(order, x, r[i]))
             && (k < |r| ==> Before(order, x, r[k]))
    ensures SortedBy(order, r[..k] + [x] + r[k..])
  {
    var s := r[..k] + [x] + r[k..];
    assert |s| == |r| + 1 && forall i | 0 <= i < |s| :: s[i] == if i < k then r[i] else if i == k then x else r[i - 1];
    forall i, j | 0 <= i < j < |s| ensures !Before(order, s[j], s[i]) {
      if j < k {
        assert !Before(order, r[j], r[i]);
      } else if j == k {
        assert !Before(order, x, r[i]);
      } else if i < k {
        assert !Before(order, r[j - 1], r[i]);
      } else if i == k {
        assert k == j - 1 || !Before(order, r[j - 1], r[k]);
      } else {
        assert !Before(order, r[j - 1], r[i - 1]);
      }
    }
  }

  /** Sorts calls by their places in the order, the last one first. */
  method SortDescending(calls: seq<string>, order: seq<string>) returns (r: seq<string>)
    ensures multiset(r) == multiset(calls) && SortedBy(order, r)
  {
    r := [];
    for n := 0 to |calls|
      invariant multiset(r) == multiset(calls[..n]) && SortedBy(order, r)
    {
      var k := 0;
      while k < |r| && !Before(order, calls[n], r[k])
        invariant 0 <= k <= |r| && forall i | 0 <= i < k :: !Before(order, calls[n], r[i])
      {
        k := k + 1;
      }
      assert calls[..n + 1] == calls[..n] + [calls[n]];
      Inserted(order, r, k, calls[n]);
      r := r[..k] + [calls[n]] + r[k..];
    }
    assert calls[..|calls|] == calls;
  }

  /** The calls of an expression, in some sequence. */
  method FindAllCalls(e: Expr) returns (calls: seq<string>)
    ensures forall f :: f in calls <==> f in Calls(e)
  {
    calls := [];
    var rest := Calls(e);
    while rest != {}
      invariant forall f :: f in calls || f in rest <==> f in Calls(e)
      decreases |rest|
    {
      var f :| f in rest;
      calls := calls + [f];
      rest := rest - {f};
    }
  }

  ghost predicate Descending(order: seq<string>, picks: seq<string>) {
    forall i, j | 0 <= i < j < |picks| :: IndexOf(order, picks[i]) > IndexOf(order, picks[j])
  }

  /** perform_inline: rounds of inlining end; no function is inlined twice; no call of a function to inline is left;
      and the value is the same. */
  method PerformInline(cse: Expr -> Expr, e: Expr, env: map<string, Def>, inlines: set<string>, order: seq<string>)
    returns (inlined: Expr, ghost picks: seq<string>)
    requires GoodCse(cse) && Inlinable(env, inlines, order) && Ready(env, inlines, order, e, |order|)
    ensures SameValue(env, inlines, inlined, e)
    ensures Calls(inlined) !! inlines
    ensures Distinct(picks) && forall f | f in picks :: f in inlines
  {
    inlined, picks := e, [];
    if inlines == {} {
      return;
    }
    var funcsToInline := true;
    ghost var k: nat := |order|;
    while funcsToInline
      invariant Ready(env, inlines, order, inlined, k) && SameValue(env, inlines, inlined, e)
      invariant Descending(order, picks) && forall f | f in picks ::
                f in inlines && f in order && IndexOf(order, f) >= k
      invariant !funcsToInline ==> Calls(inlined) !! inlines
      decreases if funcsToInline then k + 1 else 0
    {
      funcsToInline := false;
      var calls := FindAllCalls(inlined);
      var sorted := SortDescending(calls, order);
      SortedHas(calls, sorted);
      var call := FirstToInline(sorted, inlines);
      if call.Some? {
        ghost var before := inlined;
        LastOfAll(order, sorted, inlines, call.value, inlined);
        RoundKeeps(cse, env, inlines, order, inlined, k, call.value);
        inlined := InlineFunction(cse, call.value, env[call.value], inlined);
        SameTrans(env, inlines, inlined, before, e);
        PickMore(order, picks, call.value, k);
        picks := picks + [call.value];
        k := IndexOf(order, call.value);
        funcsToInline := true;
      }
    }
    DescendingDistinct(order, picks);
  }

  /** The first call in the list that is to be inlined. */
  method FirstToInline(calls: seq<string>, inlines: set<string>) returns (r: Option<string>)
    ensures if r.Some? then exists i ::
            0 <= i < |calls| && calls[i] == r.value && r.value in inlines && forall j | 0 <= j < i ::
            calls[j] !in inlines
            else forall f | f in calls :: f !in inlines
  {
    for i := 0 to |calls|
      invariant forall j | 0 <= j < i :: calls[j] !in inlines
    {
      if calls[i] in inlines {
        return Some(calls[i]);
      }
    }
    return None;
  }

  lemma SortedHas(calls: seq<string>, sorted: seq<string>)
    requires multiset(sorted) == multiset(calls)
    ensures forall f :: f in sorted <==> f in calls
  {
    forall f ensures f in sorted <==> f in calls {
      assert f in sorted <==> f in multiset(sorted);
      assert f in calls <==> f in multiset(calls);
    }
  }

  lemma LastOfAll(order: seq<string>, sorted: seq<string>, inlines: set<string>, f: string, e: Expr)
    requires SortedBy(order, sorted)
    requires exists i :: 0 <= i < |sorted| && sorted[i] == f && f in inlines && forall j | 0 <= j < i ::
             sorted[j] !in inlines
    requires forall g :: g in sorted <==> g in Calls(e)
    ensures f in Calls(e) && forall g | g in inlines && g in Calls(e) :: IndexOf(order, g) <= IndexOf(order, f)
  {
    var i :| 0 <= i < |sorted| && sorted[i] == f && f in inlines && forall j | 0 <= j < i :: sorted[j] !in inlines;
    assert sorted[i] in sorted;
    forall g | g in inlines && g in Calls(e) ensures IndexOf(order, g) <= IndexOf(order, f) {
      var j: nat :| j < |sorted| && sorted[j] == g;
      if j > i {
        assert !Before(order, sorted[j], sorted[i]);
      }
    }
    hide Calls, IndexOf;
  }

  lemma SameTrans(env: map<string, Def>, inlines: set<string>, a: Expr, b: Expr, c: Expr)
    requires SameValue(env, inlines, a, b) && SameValue(env, inlines, b, c)
    ensures SameValue(env, inlines, a, c)
  {
    forall w, v: Env | AllDefine(w, env, inlines) ensures Eval(a, w, v) == Eval(c, w, v) {
      assert Eval(a, w, v) == Eval(b, w, v);
    }
    hide Eval, AllDefine;
  }

  lemma PickMore(order: seq<string>, picks: seq<string>, f: string, k: nat)
    requires Descending(order, picks) && (forall g | g in picks :: IndexOf(order, g) >= k) && IndexOf(order, f) < k
    ensures Descending(order, picks + [f])
  {
    hide IndexOf;
    forall i, j | 0 <= i < j < |picks + [f]|
        ensures IndexOf(order, (picks + [f])[i]) > IndexOf(order, (picks + [f])[j]) {
      assert picks[i] in picks;
    }
  }

  lemma DescendingDistinct(order: seq<string>, picks: seq<string>)
    requires Descending(order, picks)
    ensures Distinct(picks)
  {
    forall i, j | 0 <= i < j < |picks| ensures picks[i] != picks[j] {
      assert IndexOf(order, picks[i]) > IndexOf(order, picks[j]);
    }
    hide IndexOf;
  }
}
