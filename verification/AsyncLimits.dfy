/** Why control around the produce node must be steady: the producer copy has lost the stores of everything
    else, so it can take another branch than the consumer copy and leave it waiting for ever. */
module AsyncLimits {
  import opened StmtIR
  import opened AsyncFork
  import opened AsyncShape
  import opened AsyncMachine
  import opened AsyncProof
  import opened AsyncTheorem
  import opened AsyncGuards

  const ZERO := Const(0)

  const FLAG := Provide("g", ZERO, Const(1))
  const PRODUCE := ProducerConsumer("f", true, Provide("f", ZERO, Const(7)))
  const USE := Provide("h", ZERO, Load("f", ZERO))
  const CONSUME := ProducerConsumer("f", false, USE)
  const ROUND := Block(PRODUCE, CONSUME)

  /** g(0) = 1; if (g(0)) { produce f { f(0) = 7 } consume f { h(0) = f(0) } } */
  const GUARDED := IfThenElse(Load("g", ZERO), ROUND, NoOp)
  const BODY := Block(FLAG, GUARDED)

  const THE_GUARD := Guarded("f", [FLAG], Load("g", ZERO), Provide("f", ZERO, Const(7)), USE)

  // ----- every other hypothesis holds -----

  lemma BodyShape()
    ensures Plain(BODY) && Synced(BODY, "f") && Separated(BODY, "f", Provided(BODY), false)
    ensures !SpineSteady(BODY, "f", Provided(BODY))
  {
    assert Free(Provide("f", ZERO, Const(7)), "f") && Free(USE, "f");
    assert !Free(PRODUCE, "f") && !Free(ROUND, "f") && !Free(GUARDED, "f") && Free(FLAG, "f");
    assert IsRound(ROUND, "f") && OnceEach(CONSUME, "f") && Synced(ROUND, "f");
    assert Synced(GUARDED, "f") && !IsRound(BODY, "f") && !Free(BODY, "f");
    assert Provided(PRODUCE) == {"f"} && Provided(CONSUME) == {"h"} && Provided(ROUND) == {"f", "h"};
    var w := Provided(BODY);
    assert Loads(Load("g", ZERO)) == {"g"} && Loads(Load("f", ZERO)) == {"f"};
    assert LeafLoads(Provide("f", ZERO, Const(7))) == {} && ControlLoads(Provide("f", ZERO, Const(7))) == {};
    assert Separated(PRODUCE, "f", w, false) && Separated(CONSUME, "f", w, false);
    assert Separated(ROUND, "f", w, false) && Separated(GUARDED, "f", w, false) && Separated(FLAG, "f", w, false);
    assert "g" in Loads(Load("g", ZERO)) * w;
    assert !SpineSteady(GUARDED, "f", w);
  }

  const WRITE_G := Write("g", ZERO, Const(1))
  const TEST_G := Test(false, Load("g", ZERO), ZERO, 1, 0)
  const WRITE_F := Write("f", ZERO, Const(7))
  const WRITE_H := Write("h", ZERO, Load("f", ZERO))

  lemma BodyTraceIs(k: Watch, store: Store)
    requires k == Watch("f", {"f", "g", "h"})
    ensures Trace(k, BODY, false, map[], store) == [WRITE_G, TEST_G, WRITE_F, WRITE_H]
  {
    var env: Env := map[];
    var store1 := Run(FLAG, env, store);
    assert Eval(ZERO, env, store) == 0 && Eval(Const(1), env, store) == 1;
    assert store1 == store[("g", 0) := 1];
    assert Eval(ZERO, env, store1) == 0 && Eval(Load("g", ZERO), env, store1) == 1;
    assert Trace(k, FLAG, false, env, store) == [WRITE_G];
    assert Trace(k, PRODUCE, false, env, store1) == [WRITE_F];
    assert Close(Load("f", ZERO), env) == Load("f", ZERO) && Close(Load("g", ZERO), env) == Load("g", ZERO);
    var store2 := Run(PRODUCE, env, store1);
    assert Trace(k, USE, false, env, store2) == [WRITE_H];
    assert Trace(k, CONSUME, false, env, store2) == [WRITE_H];
    assert Trace(k, ROUND, false, env, store1) == [WRITE_F] + [WRITE_H];
    assert Loads(Load("g", ZERO)) == {"g"} && Loads(ZERO) == {};
    assert "g" in (Loads(Load("g", ZERO)) + Loads(ZERO)) * k.w;
    assert Tests(k, false, Load("g", ZERO), ZERO, env, store1) == [TEST_G];
    assert Trace(k, GUARDED, false, env, store1) == [TEST_G] + ([WRITE_F] + [WRITE_H]);
    assert Trace(k, BODY, false, env, store) == [WRITE_G] + ([TEST_G] + ([WRITE_F] + [WRITE_H]));
  }

  lemma BodyUndisturbed(t: seq<Act>, store: Store)
    requires t == [WRITE_G, TEST_G, WRITE_F, WRITE_H]
    ensures Undisturbed(t, "f", store)
  {
    forall m, c | 0 <= m < |t| && IsItem(t[m], "f", false) && c in ActReads(t[m], At(t, m, store)) && c.0 == "f"
      ensures exists p :: 0 <= p < m && t[p].Write? && t[p].func == "f" && Target(t[p], At(t, p, store)) == c
    {
      var s := At(t, m, store);
      assert Eval(ZERO, map[], s) == 0 && Reads(ZERO, map[], s) == {};
      assert Reads(Load("g", ZERO), map[], s) == {("g", 0)} && Reads(Load("f", ZERO), map[], s) == {("f", 0)};
      assert m == 3 && c == ("f", 0);
      assert Eval(ZERO, map[], At(t, 2, store)) == 0;
      assert t[2].Write? && t[2].func == "f" && Target(t[2], At(t, 2, store)) == c;
    }
    forall p, q | 0 <= p < q < |t| && t[p].Write? && t[q].Write? && t[p].func == "f" && t[q].func == "f" ensures false {
    }
    DisjointIsUndisturbed(t, "f", store);
  }

  lemma BodyIsUndisturbed()
    ensures Undisturbed(SequentialTrace(BODY, "f", map[], map[]), "f", map[])
  {
    assert Provided(PRODUCE) == {"f"} && Provided(CONSUME) == {"h"} && Provided(ROUND) == {"f", "h"};
    assert Provided(GUARDED) == {"f", "h"} && Provided(BODY) == {"f", "g", "h"};
    BodyTraceIs(Watch("f", Provided(BODY)), map[]);
    BodyUndisturbed(SequentialTrace(BODY, "f", map[], map[]), map[]);
  }

  /** A condition around the produce node that reads a store of the body: everything else that the forking
      theorems ask for holds, and a run of the forked body stops before the end with nothing able to move. */
  lemma UnsteadySpineDeadlocks()
    ensures Plain(BODY) && Synced(BODY, "f") && Separated(BODY, "f", Provided(BODY), false)
    ensures !SpineSteady(BODY, "f", Provided(BODY))
    ensures ForkSides(BODY, "f").Sides? && Undisturbed(SequentialTrace(BODY, "f", map[], map[]), "f", map[])
    ensures exists run :: IsRun(run, Forked(BODY, "f", map[], map[])) && DeadEnd(Last(run))
  {
    hide *;
    BodyShape();
    BodyIsUndisturbed();
    BodyIsGuarded();
    GuardDeadlocksExactly(THE_GUARD, map[], map[]);
  }

  /** Before the store the condition does not hold, and after it does. */
  lemma BodyIsGuarded()
    ensures Proper(THE_GUARD) && Body(THE_GUARD) == BODY && THE_GUARD.func == "f" && Wavers(THE_GUARD, map[], map[])
  {
    var g, env: Env, store: Store := THE_GUARD, map[], map[];
    assert Loads(Load("g", ZERO)) == {"g"} && Provided(g.produce) == {"f"};
    assert g.before[0] == FLAG && g.before[1..] == [];
    assert Chain(g.before[1..], GUARDED) == GUARDED;
    assert Eval(ZERO, env, store) == 0 && Eval(Const(1), env, store) == 1;
    assert Moment(g, 0, env, store) == store && !Taken(g, 0, env, store);
    var after := Moment(g, 1, env, store);
    assert after == store[("g", 0) := 1] && Eval(ZERO, env, after) == 0;
    assert Taken(g, 1, env, store);
  }
}
