/** Closures that read the variable the chain is assigned to: what the loop computes instead. */
module FusedAssignLimits {
  import opened Wrappers
  import opened LuaIr
  import opened Lowering
  import LoweringScope
  import opened LoweringMarks
  import opened LoweringState
  import opened LoweringSteps
  import opened LoweringDropped
  import opened FusedLoop
  import opened FusedRounds
  import opened FusedChains
  import opened FusedAssign
  import opened LuaFrame
  import opened RuaFrame
  import I = IterChains
  import R = RuaLang
  import L = LuaRun
  import P = PatternTests
  import E = Encoding

  // ---- one round that changes nothing ----

  lemma {:induction false} UpdateSame(s: L.Store, z: string, v: L.Value)
    requires L.Lookup(s, z) == Some(v)
    ensures L.Update(s, z, v) == s
  {
    if s[|s| - 1].name != z {
      UpdateSame(s[..|s| - 1], z, v);
    }
  }

  /** Code that, as long as z holds v, runs through and changes nothing. */
  ghost predicate Idle(code: Code, z: string, v: L.Value, w: World, fuel: nat) {
    forall s: L.Store :: L.Lookup(s, z) == Some(v) ==> L.Run(code, s, w.lf, fuel) == L.Normal(s)
  }

  /** The same for code that may also give the item, the last local declared, another value. */
  ghost predicate Harmless(code: Code, item: string, z: string, v: L.Value, w: World, fuel: nat) {
    hide *;
    forall s: L.Store :: s != [] && s[|s| - 1].name == item && L.Lookup(s, z) == Some(v) ==> ChangesItemOnly(L.Run(code, s, w.lf, fuel), s)
  }

  ghost predicate ChangesItemOnly(o: L.Outcome, s: L.Store)
    requires s != []
  {
    o.Normal? && |o.store| == |s| && o.store[..|s| - 1] == s[..|s| - 1]
  }

  lemma IdleIsHarmless(code: Code, item: string, z: string, v: L.Value, w: World, fuel: nat)
    requires Idle(code, z, v, w, fuel)
    ensures Harmless(code, item, z, v, w, fuel)
  {
    hide L.Run, L.Lookup;
  }

  /** Giving the item a value that a guard then rejects. */
  lemma SetAndRejectHarmless(e: Expr, item: string, body: Code, z: string, v: L.Value, w: World, fuel: nat)
    requires item != z && forall s: L.Store :: L.Lookup(s, z) == Some(v) ==> L.Eval(e, s, w.lf) == Some(L.BoolV(false))
    ensures Harmless([L.Assign(Name(item), e)] + [When(Name(item), body)], item, z, v, w, fuel)
  {
    hide L.Eval, L.Lookup, L.Run, L.Update;
    forall s: L.Store | s != [] && s[|s| - 1].name == item && L.Lookup(s, z) == Some(v)
      ensures ChangesItemOnly(L.Run([L.Assign(Name(item), e)] + [When(Name(item), body)], s, w.lf, fuel), s)
    {
      var s1 := L.Update(s, item, L.BoolV(false));
      RunAppend([L.Assign(Name(item), e)], [When(Name(item), body)], s, w.lf, fuel);
      AssignRun(item, e, s, w.lf, fuel);
      LookupUpdate(s, item, L.BoolV(false), item);
      NameEval(item, s1, w.lf);
      WhenRun(Name(item), body, s1, w.lf, fuel);
      UpdateLast(s, item, L.BoolV(false));
    }
  }

  lemma UpdateLast(s: L.Store, item: string, v: L.Value)
    requires s != [] && s[|s| - 1].name == item
    ensures L.Update(s, item, v) == s[..|s| - 1] + [L.Binding(item, v)]
  {
  }

  lemma IdleRound(z: string, v: L.Value, item: string, index: string, code: Code, s: L.Store, w: World, fuel: nat)
    requires z != item && z != index && L.Lookup(s, z) == Some(v) && Harmless(code, item, z, v, w, fuel)
    ensures L.RunFor(index, [0], [L.Local(item, Some(Name(index)))] + code, s, w.lf, fuel) == L.Normal(s)
  {
    hide L.Eval, L.Lookup, L.Run;
    var zero := L.IntV(0);
    var s1 := s + [L.Binding(index, zero)];
    var s2 := s1 + [L.Binding(item, zero)];
    var body := [L.Local(item, Some(Name(index)))] + code;
    RunAppend([L.Local(item, Some(Name(index)))], code, s1, w.lf, fuel);
    LookupAppend(s, L.Binding(index, zero), index);
    LookupAppend(s, L.Binding(index, zero), z);
    LookupAppend(s1, L.Binding(item, zero), z);
    NameEval(index, s1, w.lf);
    LocalRun(item, Some(Name(index)), s1, w.lf, fuel);
    var o := L.Run(code, s2, w.lf, fuel);
    assert ChangesItemOnly(o, s2) && s2[..|s| + 1] == s1;
    assert o.store[..|s|] == o.store[..|s| + 1][..|s|] == s;
    assert L.Leave(L.Run(body, s1, w.lf, fuel), |s|) == L.Normal(s);
    assert [0][1..] == [] && L.RunFor(index, [], body, s, w.lf, fuel) == L.Normal(s);
  }

  /** A constant, the same wherever it is evaluated. */
  ghost predicate Constant(e: Expr, v: L.Value, w: World) {
    forall s: L.Store :: L.Eval(e, s, w.lf) == Some(v)
  }

  /** The code of `t = (0..=0)...`, whose body is the given code. */
  function OneRound(t: string, start: Expr, code: Code, c: Ctx): Code {
    [L.Local(c.tmp(1), Some(Integer(0)))] + ([L.Local(c.tmp(2), Some(Integer(0)))] + ([L.Assign(Name(t), start)]
      + [L.For(c.tmp(4), Name(c.tmp(1)), Name(c.tmp(2)), 1, [L.Local(c.tmp(3), Some(Name(c.tmp(4))))] + code)]))
  }

  /** When its only round changes nothing, the loop leaves the starting value. */
  lemma StartStays(x: string, old_: L.Value, start: Expr, v: L.Value, code: Code, c: Ctx, w: World, fuel: nat)
    requires hide *; NamesApart(c) && Constant(start, v, w) && Harmless(code, c.tmp(3), c.loc(x), v, w, fuel)
    ensures var o := L.Run(OneRound(c.loc(x), start, code, c), [L.Binding(c.loc(x), old_)], w.lf, fuel);
            o.Normal? && L.Lookup(o.store, c.loc(x)) == Some(v)
  {
    hide L.Run, L.Eval, L.Lookup, L.Update, Harmless, L.RunFor;
    var t, t1, t2, t3, t4 := c.loc(x), c.tmp(1), c.tmp(2), c.tmp(3), c.tmp(4);
    var zero := L.IntV(0);
    var b1, b2 := L.Binding(t1, zero), L.Binding(t2, zero);
    var s0 := [L.Binding(t, old_)];
    var s1 := s0 + [b1];
    var s2 := s1 + [b2];
    var s3 := L.Update(s2, t, v);
    var body := [L.Local(t3, Some(Name(t4)))] + code;
    var loop := L.For(t4, Name(t1), Name(t2), 1, body);
    RunAppend([L.Local(t1, Some(Integer(0)))], [L.Local(t2, Some(Integer(0)))] + ([L.Assign(Name(t), start)] + [loop]), s0, w.lf, fuel);
    RunAppend([L.Local(t2, Some(Integer(0)))], [L.Assign(Name(t), start)] + [loop], s1, w.lf, fuel);
    RunAppend([L.Assign(Name(t), start)], [loop], s2, w.lf, fuel);
    ZeroIs(s0, w.lf);
    ZeroIs(s1, w.lf);
    LocalRun(t1, Some(Integer(0)), s0, w.lf, fuel);
    LocalRun(t2, Some(Integer(0)), s1, w.lf, fuel);
    assert s2[0].name == t;
    AssignRun(t, start, s2, w.lf, fuel);
    forall z ensures L.Lookup(s3, z) == if z == t then Some(v) else if z == t1 || z == t2 then Some(zero) else L.Lookup(s0, z) {
      LookupAppend(s0, b1, z);
      LookupAppend(s1, b2, z);
      LookupUpdate(s2, t, v, z);
    }
    NameEval(t1, s3, w.lf);
    NameEval(t2, s3, w.lf);
    ForRun(t4, Name(t1), Name(t2), 1, body, 0, 0, s3, w.lf, fuel);
    assert L.ForValues(1, 0, 1) == [] && L.ForValues(0, 0, 1) == [0];
    IdleRound(t, v, t3, t4, code, s3, w, fuel);
  }

  lemma GuardIdle(cond: Expr, body: Code, z: string, v: L.Value, w: World, fuel: nat)
    requires forall s: L.Store :: L.Lookup(s, z) == Some(v) ==> L.Eval(cond, s, w.lf) == Some(L.BoolV(false))
    ensures Idle([When(cond, body)], z, v, w, fuel)
  {
    hide L.Eval, L.Lookup, L.Run;
    forall s: L.Store | L.Lookup(s, z) == Some(v) ensures L.Run([When(cond, body)], s, w.lf, fuel) == L.Normal(s) {
      WhenRun(cond, body, s, w.lf, fuel);
    }
  }

  lemma SelfIdle(z: string, v: L.Value, w: World, fuel: nat)
    ensures Idle([L.Assign(Name(z), Name(z))], z, v, w, fuel)
  {
    hide L.Eval, L.Lookup, L.Run, L.Update;
    forall s: L.Store | L.Lookup(s, z) == Some(v) ensures L.Run([L.Assign(Name(z), Name(z))], s, w.lf, fuel) == L.Normal(s) {
      NameEval(z, s, w.lf);
      assert L.Bound(s, z);
      AssignRun(z, Name(z), s, w.lf, fuel);
      UpdateSame(s, z, v);
    }
  }

  // ---- the chains ----

  const ZERO: R.Expr := R.Lit(R.IntVal(0))

  function Once(ads: seq<Adapter>, cons: Consumer): IterChain {
    IterChain(RangeOf(ZERO, ZERO, true), ads, cons)
  }

  /** `g(t)` */
  function Test(g: string): R.Expr {
    R.Call(g, [R.Path("t")])
  }

  /** The program can tell the old value of t from the starting value of the chain. */
  ghost predicate Tells(g: string, old_: R.Val, start: R.Val, answer: bool, w: World) {
    && g != "ok" && g != "err" && g != "error" && Compiled(w) && E.Expressible(old_) && E.Expressible(start)
    && w.rf(g, [old_]) == Some(R.BoolVal(answer)) && w.rf(g, [start]) == Some(R.BoolVal(!answer))
  }

  function Before(old_: R.Val): R.Env {
    [R.Slot("t", old_)]
  }

  lemma OnceEvaluates(ads: seq<Adapter>, cons: Consumer, old_: R.Val, w: World, fuel: nat)
    requires hide *; forall i :: 0 <= i < |ads| ==> ads[i].Filter?
    ensures EvalSource(Once(ads, cons).source, Before(old_), w, fuel) == Some((RangeVal(0, 0, true), Before(old_)))
    ensures RangeVal(0, 0, true).Items() == [R.IntVal(0)]
    ensures EvalLimits([], Before(old_), w, fuel) == Some(([], Before(old_)))
  {
    assert R.Eval(ZERO, Before(old_), w.rf, fuel) == R.Done(R.IntVal(0), Before(old_));
    assert I.Ints(1, 1) == [] && I.Ints(0, 1) == [0];
  }

  /** In a closure's scope t still has its old value, and the call of it gives what the function says. */
  lemma CallValue(g: string, old_: R.Val, answer: R.Val, inner: R.Env, w: World, fuel: nat)
    requires R.Get(inner, "t") == Some(old_) && w.rf(g, [old_]) == Some(answer)
    ensures R.Eval(Test(g), inner, w.rf, fuel) == R.Done(answer, inner)
  {
    hide R.EvalElse, R.Set, R.Get, R.RootFits, R.EvalStmt, R.EvalArms, R.MatchPattern;
    assert R.Eval(R.Path("t"), inner, w.rf, fuel) == R.Done(old_, inner);
    assert [R.Path("t")][1..] == [];
    assert R.EvalArgs([], inner, w.rf, fuel) == R.Values([], inner);
    assert R.EvalArgs([R.Path("t")], inner, w.rf, fuel) == R.Values([old_], inner);
  }

  lemma OldValueInside(old_: R.Val, x: string, v: R.Val)
    requires x != "t"
    ensures R.Get(Before(old_) + [R.Slot(x, v)], "t") == Some(old_)
  {
    GetAppend(Before(old_), R.Slot(x, v), "t");
    GetAppend([], R.Slot("t", old_), "t");
    assert [] + [R.Slot("t", old_)] == Before(old_);
  }

  lemma TestClosure(g: string, old_: R.Val, answer: bool, w: World, fuel: nat)
    requires w.rf(g, [old_]) == Some(R.BoolVal(answer))
    ensures FnOf(Closure("y", Test(g)), Before(old_), w, fuel)(R.IntVal(0)) == Some(R.BoolVal(answer))
  {
    hide R.Eval;
    OldValueInside(old_, "y", R.IntVal(0));
    CallValue(g, old_, R.BoolVal(answer), Before(old_) + [R.Slot("y", R.IntVal(0))], w, fuel);
  }

  /** The Lua test reads the variable the result is built in. */
  lemma TestCode(g: string, item: string, c: Ctx, n: nat)
    requires c.sub == map[]
    ensures Inline(Test(g), FusedLoop.Call(Closure("y", Test(g)), item, c), n) == GenE([], LuaIr.Call(Name(g), [Name(c.loc("t"))]), n)
  {
    hide GenArms, EmitBindings, GenStmts, GenElse, GenTo, P.ElementTests, P.AndAll, P.FieldTests, GenReturnMatch, GenLoop;
    var inner := FusedLoop.Call(Closure("y", Test(g)), item, c);
    assert inner.Res("t") == c.loc("t");
    assert Inline(R.Path("t"), inner, n) == GenE([], Name(c.loc("t")), n);
    assert [R.Path("t")][1..] == [] && InlineArgs([], inner, n) == GenArgs([], [], n);
    assert InlineArgs([R.Path("t")], inner, n) == GenArgs([], [Name(c.loc("t"))], n);
  }

  lemma CallRuns(g: string, z: string, v: R.Val, answer: R.Val, w: World)
    requires g != "error" && Compiled(w) && E.Expressible(v) && w.rf(g, [v]) == Some(answer)
    ensures forall s: L.Store :: L.Lookup(s, z) == Some(E.Enc(v)) ==> L.Eval(LuaIr.Call(Name(g), [Name(z)]), s, w.lf) == Some(E.Enc(answer))
  {
    hide L.Lookup, R.FieldOf, E.Enc, E.Expressible;
    forall s: L.Store | L.Lookup(s, z) == Some(E.Enc(v))
      ensures L.Eval(LuaIr.Call(Name(g), [Name(z)]), s, w.lf) == Some(E.Enc(answer))
    {
      assert [v][0] == v;
      assert E.EncAll([v]) == [E.Enc(v)];
      assert [Name(z)][1..] == [] && L.EvalAll([], s, w.lf) == Some([]);
      assert L.EvalAll([Name(z)], s, w.lf) == Some([E.Enc(v)]);
    }
  }

  lemma TestRuns(g: string, z: string, v: R.Val, answer: bool, w: World)
    requires g != "error" && Compiled(w) && E.Expressible(v) && w.rf(g, [v]) == Some(R.BoolVal(answer))
    ensures forall s: L.Store :: L.Lookup(s, z) == Some(E.Enc(v)) ==> L.Eval(LuaIr.Call(Name(g), [Name(z)]), s, w.lf) == Some(L.BoolV(answer))
  {
    hide L.Lookup, L.Eval, E.Expressible, Compiled;
    CallRuns(g, z, v, R.BoolVal(answer), w);
  }

  // ---- their code ----

  lemma ZeroKept(c: Ctx, n: nat)
    ensures hide *; Keep(ZERO, c, n) == Gen([L.Local(c.tmp(n + 1), Some(Integer(0)))], n + 1)
  {
    hide GenControl;
    assert Inline(ZERO, c, n) == GenE([], Integer(0), n);
  }

  lemma OnceCode(ads: seq<Adapter>, cons: Consumer, start: Expr, cells: seq<Cell>, c: Ctx)
    requires hide *; StartCode(cons, c, 2) == GenE([], start, 2) && CellsCode(ads, c, 2) == GenCells([], cells, 2) && !OddRevs(ads)
    ensures ChainCode(Once(ads, cons), Existing(c.loc("t")), c, 0).code
         == OneRound(c.loc("t"), start, BodyCode(ads, cells, cons, c.tmp(3), c.loc("t"), c, 4).code + PostCode(ads, cells), c)
  {
    hide BodyCode, PostCode, StartCode, CellsCode, Keep, OddRevs, Inline;
    ZeroKept(c, 0);
    ZeroKept(c, 1);
    var t := c.loc("t");
    assert SourceCode(Once(ads, cons).source, c, 0)
        == GenSource([L.Local(c.tmp(1), Some(Integer(0)))] + [L.Local(c.tmp(2), Some(Integer(0)))], RangeVars(c.tmp(1), c.tmp(2), true), 2);
    var loop := LoopStmt(RangeVars(c.tmp(1), c.tmp(2), true), cons, LoopVars(ads, cells, [], t, c, 2), c.tmp(4), c, 4);
    assert [] + ([L.Assign(Name(t), start)] + [loop]) == [L.Assign(Name(t), start)] + [loop];
  }

  lemma NoAdapters(cons: Consumer, item: string, res: string, c: Ctx, n: nat)
    ensures hide *; CellsCode([], c, 2) == GenCells([], [], 2) && !OddRevs([])
    ensures BodyCode([], [], cons, item, res, c, n).code + PostCode([], []) == SinkCode(cons, item, res, c, n).code
  {
    hide Inline;
  }

  lemma OneFilter(g: string, cons: Consumer, item: string, res: string, c: Ctx, n: nat)
    requires hide *; c.sub == map[]
    ensures var ads, cells := [Filter(Closure("y", Test(g)))], [Cell("", "")];
            && CellsCode(ads, c, 2) == GenCells([], cells, 2) && !OddRevs(ads)
            && BodyCode(ads, cells, cons, item, res, c, n).code + PostCode(ads, cells)
               == [When(LuaIr.Call(Name(g), [Name(c.loc("t"))]), SinkCode(cons, item, res, c, n).code)]
  {
    hide SinkCode, Inline;
    var ads, cells := [Filter(Closure("y", Test(g)))], [Cell("", "")];
    TestCode(g, item, c, n);
    assert ads[1..] == [] && cells[1..] == [];
    assert CellsCode([], c, 2) == GenCells([], [], 2);
    assert BodyCode([], [], cons, item, res, c, n) == SinkCode(cons, item, res, c, n);
    assert PostCode([], []) == [];
  }

  /** A fold starts from a literal; for the other consumers there is nothing to evaluate. */
  predicate Starts(cons: Consumer, init: R.Val) {
    if cons.Fold? then cons.init == R.Lit(init) && LoweringScope.PlainLiteral(init) else init == R.UnitVal
  }

  /** Every consumer but a fold starts from a constant; so does a fold over a literal. */
  lemma StartIsConstant(cons: Consumer, c: Ctx, init: R.Val, env: R.Env, w: World, fuel: nat)
    requires hide *; Starts(cons, init)
    ensures var e := StartCode(cons, c, 2).e;
            var start := I.Init(SinkOf(cons, init, env, w, fuel));
            && StartCode(cons, c, 2) == GenE([], e, 2) && Constant(e, E.Enc(start), w)
            && EvalStart(cons, env, w, fuel) == Some((init, env))
  {
    hide GenElse, R.EvalBlock, L.EvalFields, L.EvalAll, L.EvalBinary, R.EvalElse, R.MatchFields, GenTo, E.EncFields, R.MatchAny, P.ElementTests,
      R.EvalGuard, L.Lookup, E.EncAll, R.Set, R.MatchAll, P.AndAll, P.FieldTests, R.Get, R.RootFits, GenBlock, InlineArgs, GenArms, EmitBindings,
      GenReturnMatch, GenLoop;
    var e := StartCode(cons, c, 2).e;
    var start := I.Init(SinkOf(cons, init, env, w, fuel));
    forall s: L.Store ensures L.Eval(e, s, w.lf) == Some(E.Enc(start)) {
      ConstantStart(cons, e, start, init, c, env, s, w, fuel);
    }
    if cons.Fold? {
      assert R.Eval(cons.init, env, w.rf, fuel) == R.Done(init, env);
    }
  }

  lemma ConstantStart(cons: Consumer, e: Expr, start: R.Val, init: R.Val, c: Ctx, env: R.Env, s: L.Store, w: World, fuel: nat)
    requires hide *; Starts(cons, init)
    requires e == StartCode(cons, c, 2).e && start == I.Init(SinkOf(cons, init, env, w, fuel))
    ensures L.Eval(e, s, w.lf) == Some(E.Enc(start)) && StartCode(cons, c, 2) == GenE([], e, 2)
  {
    if cons.Fold? {
      assert Inline(cons.init, c, 2) == GenE([], P.LiteralExpr(init), 2);
    } else if cons.Collect? {
      EmptyVec(s, w);
    }
  }

  lemma EmptyVec(s: L.Store, w: World)
    ensures L.Eval(Table([Named("n", Integer(0))]), s, w.lf) == Some(E.Enc(R.VecVal([])))
  {
    var f := Named("n", Integer(0));
    assert [f][..0] == [];
    assert L.EvalFields([], s, w.lf) == Some(L.TableV([], map[]));
    assert L.EvalFields([f], s, w.lf) == L.AddField(L.TableV([], map[]), f, s, w.lf);
  }

  // ---- what goes wrong ----

  /** The assignment, run where t holds its old value. */
  ghost function Outcome(chain: IterChain, old_: R.Val, c: Ctx, w: World, fuel: nat): L.Outcome {
    hide *;
    L.Run(ChainCode(chain, Existing(c.loc("t")), c, 0).code, [L.Binding(c.loc("t"), E.Enc(old_))], w.lf, fuel)
  }

  /**
   * `t = (0..=0).filter(|y| g(t))...`: the filter lets 0 through, whatever the consumer makes of it, but
   * the loop asks about the starting value, drops the item, and leaves the starting value in t.
   */
  lemma FilterReadsTooLate(g: string, cons: Consumer, init: R.Val, old_: R.Val, c: Ctx, w: World, fuel: nat)
    requires hide *; c.sub == map[] && NamesApart(c) && Starts(cons, init)
    requires Tells(g, old_, I.Init(SinkOf(cons, init, Before(old_), w, fuel)), true, w)
    requires I.Consume(SinkOf(cons, init, Before(old_), w, fuel), [R.IntVal(0)]).Some?
    ensures var chain := Once([Filter(Closure("y", Test(g)))], cons);
            var sink := SinkOf(cons, init, Before(old_), w, fuel);
            var o := Outcome(chain, old_, c, w, fuel);
            && ReadInLoop("t", chain)
            && EvalChain(chain, Before(old_), w, fuel) == Some((I.Consume(sink, [R.IntVal(0)]).value, Before(old_)))
            && o.Normal? && L.Lookup(o.store, c.loc("t")) == Some(E.Enc(I.Init(sink)))
  {
    hide L.Run, L.Eval, L.Lookup, ChainCode, BodyCode, SinkCode, StartCode, CellsCode, Constant, Idle, Harmless, Compiled, EvalSource,
      E.Enc, E.Expressible, FnOf, R.Eval;
    var k := Closure("y", Test(g));
    var ads := [Filter(k)];
    var env := Before(old_);
    OnceEvaluates(ads, cons, old_, w, fuel);
    StartIsConstant(cons, c, init, env, w, fuel);
    TestClosure(g, old_, true, w, fuel);
    FilterKeeps(k, env, w, fuel);
    var start := I.Init(SinkOf(cons, init, env, w, fuel));
    TestRuns(g, c.loc("t"), start, false, w);
    var sinkCode := SinkCode(cons, c.tmp(3), c.loc("t"), c, 4).code;
    GuardIdle(LuaIr.Call(Name(g), [Name(c.loc("t"))]), sinkCode, c.loc("t"), E.Enc(start), w, fuel);
    OneFilter(g, cons, c.tmp(3), c.loc("t"), c, 4);
    OnceCode(ads, cons, StartCode(cons, c, 2).e, [Cell("", "")], c);
    IdleIsHarmless([When(LuaIr.Call(Name(g), [Name(c.loc("t"))]), sinkCode)], c.tmp(3), c.loc("t"), E.Enc(start), w, fuel);
    StartStays("t", E.Enc(old_), StartCode(cons, c, 2).e, E.Enc(start), [When(LuaIr.Call(Name(g), [Name(c.loc("t"))]), sinkCode)], c, w, fuel);
    assert ReadByAdapter("t", Once(ads, cons).ads[0]) by { assert Occurs("t", Test(g)); }
  }

  lemma FilterKeeps(k: Closure, env: R.Env, w: World, fuel: nat)
    requires hide *; FnOf(k, env, w, fuel)(R.IntVal(0)) == Some(R.BoolVal(true))
    ensures I.ApplyAll(StagesOf([Filter(k)], [0], env, w, fuel), [R.IntVal(0)]) == Some([R.IntVal(0)])
    ensures EvalLimits([Filter(k)], env, w, fuel) == Some(([0], env))
  {
    hide FnOf, R.Eval;
    var zero := R.IntVal(0);
    assert [Filter(k)][1..] == [] && [0][1..] == [] && [zero][1..] == [] && [zero] + [] == [zero] && [0] + [] == [0];
    assert StagesOf([], [], env, w, fuel) == [];
    var f := FnOf(k, env, w, fuel);
    assert StagesOf([Filter(k)], [0], env, w, fuel) == [I.Filter(f)];
    assert [I.Filter(f)][1..] == [];
    assert f(zero) == Some(R.BoolVal(true));
    assert I.FilterAll(f, []) == Some([]);
    assert I.FilterAll(f, [zero]) == Some([zero]);
    assert I.ApplyAll([], [R.IntVal(0)]) == Some([R.IntVal(0)]);
    assert EvalLimits([], env, w, fuel) == Some(([], env));
    assert EvalLimit(Filter(k), env, w, fuel) == Some((0, env));
  }

  /** What the chain without adapters means. */
  lemma PlainOnce(cons: Consumer, init: R.Val, old_: R.Val, w: World, fuel: nat)
    requires hide *; EvalStart(cons, Before(old_), w, fuel) == Some((init, Before(old_)))
    requires I.Consume(SinkOf(cons, init, Before(old_), w, fuel), [R.IntVal(0)]).Some?
    ensures EvalChain(Once([], cons), Before(old_), w, fuel)
         == Some((I.Consume(SinkOf(cons, init, Before(old_), w, fuel), [R.IntVal(0)]).value, Before(old_)))
  {
    hide I.Consume, SinkOf, EvalStart, R.Eval;
    OnceEvaluates([], cons, old_, w, fuel);
    assert StagesOf([], [], Before(old_), w, fuel) == [];
  }

  /** `t = (0..=0).any(|y| g(t))`, and the same with `all` and `find`. */
  lemma ConsumerReadsTooLate(g: string, cons: Consumer, old_: R.Val, c: Ctx, w: World, fuel: nat)
    requires c.sub == map[] && NamesApart(c) && (cons.Any? || cons.All? || cons.Find?) && cons.k == Closure("y", Test(g))
    requires Tells(g, old_, I.Init(SinkOf(cons, R.UnitVal, Before(old_), w, fuel)), !cons.All?, w)
    ensures var start := I.Init(SinkOf(cons, R.UnitVal, Before(old_), w, fuel));
            var right := Decided(cons);
            var o := Outcome(Once([], cons), old_, c, w, fuel);
            && ReadInLoop("t", Once([], cons))
            && EvalChain(Once([], cons), Before(old_), w, fuel) == Some((right, Before(old_)))
            && o.Normal? && L.Lookup(o.store, c.loc("t")) == Some(E.Enc(start)) && E.Enc(start) != E.Enc(right)
  {
    hide L.Lookup, Compiled, EvalChain, E.Expressible, FnOf, Outcome, Occurs, R.Eval;
    var env := Before(old_);
    TestClosure(g, old_, !cons.All?, w, fuel);
    OneItem(cons, env, w, fuel);
    PlainOnce(cons, R.UnitVal, old_, w, fuel);
    ConsumerStays(g, cons, old_, c, w, fuel);
    assert Occurs("t", Test(g)) by { TestMentions(g); }
  }

  /** The result for the one item when its closure holds, or fails for `all`. */
  function Decided(cons: Consumer): R.Val {
    if cons.Any? then R.BoolVal(true) else if cons.All? then R.BoolVal(false) else R.SomeVal(R.IntVal(0))
  }

  lemma TestMentions(g: string)
    ensures Occurs("t", Test(g))
  {
  }

  lemma ConsumerStays(g: string, cons: Consumer, old_: R.Val, c: Ctx, w: World, fuel: nat)
    requires c.sub == map[] && NamesApart(c) && (cons.Any? || cons.All? || cons.Find?) && cons.k == Closure("y", Test(g))
    requires Tells(g, old_, I.Init(SinkOf(cons, R.UnitVal, Before(old_), w, fuel)), !cons.All?, w)
    ensures var o := Outcome(Once([], cons), old_, c, w, fuel);
            o.Normal? && L.Lookup(o.store, c.loc("t")) == Some(E.Enc(I.Init(SinkOf(cons, R.UnitVal, Before(old_), w, fuel))))
  {
    hide L.Run, L.Eval, L.Lookup, ChainCode, BodyCode, StartCode, CellsCode, Constant, Idle, Harmless, Compiled, E.Expressible, SinkOf, R.Eval,
      Inline;
    var t := c.loc("t");
    var e := StartCode(cons, c, 2).e;
    var start := I.Init(SinkOf(cons, R.UnitVal, Before(old_), w, fuel));
    StartIsConstant(cons, c, R.UnitVal, Before(old_), w, fuel);
    TestCode(g, c.tmp(3), c, 4);
    var call := LuaIr.Call(Name(g), [Name(t)]);
    TestRuns(g, t, start, cons.All?, w);
    var cond := if cons.All? then Unary(Not, call) else call;
    if cons.All? { NotRuns(call, t, E.Enc(start), w); }
    var code := SinkCode(cons, c.tmp(3), t, c, 4).code;
    var body := if cons.Find? then [L.Assign(Name(t), Name(c.tmp(3)))] + [L.Break] else [L.Assign(Name(t), Bool(cons.Any?))] + [L.Break];
    assert code == [When(cond, body)];
    GuardIdle(cond, body, t, E.Enc(start), w, fuel);
    NoAdapters(cons, c.tmp(3), t, c, 4);
    OnceCode([], cons, e, [], c);
    IdleIsHarmless(code, c.tmp(3), t, E.Enc(start), w, fuel);
    StartStays("t", E.Enc(old_), e, E.Enc(start), code, c, w, fuel);
  }

  lemma OneItem(cons: Consumer, env: R.Env, w: World, fuel: nat)
    requires hide *; (cons.Any? || cons.All? || cons.Find?) && FnOf(cons.k, env, w, fuel)(R.IntVal(0)) == Some(R.BoolVal(!cons.All?))
    ensures I.Consume(SinkOf(cons, R.UnitVal, env, w, fuel), [R.IntVal(0)])
         == Some(if cons.Any? then R.BoolVal(true) else if cons.All? then R.BoolVal(false) else R.SomeVal(R.IntVal(0)))
  {
    hide R.Eval;
  }

  lemma NotRuns(e: Expr, z: string, v: L.Value, w: World)
    requires forall s: L.Store :: L.Lookup(s, z) == Some(v) ==> L.Eval(e, s, w.lf) == Some(L.BoolV(true))
    ensures forall s: L.Store :: L.Lookup(s, z) == Some(v) ==> L.Eval(Unary(Not, e), s, w.lf) == Some(L.BoolV(false))
  {
    hide L.Lookup;
    forall s: L.Store | L.Lookup(s, z) == Some(v) ensures L.Eval(Unary(Not, e), s, w.lf) == Some(L.BoolV(false)) {
      assert L.Eval(e, s, w.lf) == Some(L.BoolV(true));
    }
  }

  /** `t = (0..=0).fold(init, |acc, y| t)` should keep t, and is right if and only if t was init already. */
  lemma FoldReadsTooLate(init: R.Val, old_: R.Val, c: Ctx, w: World, fuel: nat)
    requires hide *; c.sub == map[] && NamesApart(c) && LoweringScope.PlainLiteral(init)
    ensures var chain := Once([], Fold(R.Lit(init), "acc", "y", R.Path("t")));
            var o := Outcome(chain, old_, c, w, fuel);
            && ReadInLoop("t", chain)
            && EvalChain(chain, Before(old_), w, fuel) == Some((old_, Before(old_)))
            && o.Normal? && L.Lookup(o.store, c.loc("t")) == Some(E.Enc(init))
            && (L.Lookup(o.store, c.loc("t")) == Some(E.Enc(old_)) <==> E.Enc(old_) == E.Enc(init))
  {
    hide L.Run, L.Lookup, ChainCode, BodyCode, StartCode, CellsCode, Constant, Idle, Harmless, EvalChain, E.Enc, P.PatTest, P.AndAll, GenArm,
      GenChain, GenLoop, GenBlock, InlineArgs, OccursInStmt;
    var cons := Fold(R.Lit(init), "acc", "y", R.Path("t"));
    var env := Before(old_);
    var t := c.loc("t");
    var e := StartCode(cons, c, 2).e;
    StartIsConstant(cons, c, init, env, w, fuel);
    FoldOnce(init, old_, w, fuel);
    PlainOnce(cons, init, old_, w, fuel);
    var inner := c.(sub := c.sub["acc" := t]["y" := c.tmp(3)]);
    assert inner.Res("t") == t;
    assert Inline(R.Path("t"), inner, 4) == GenE([], Name(t), 4);
    var code := SinkCode(cons, c.tmp(3), t, c, 4).code;
    assert code == [L.Assign(Name(t), Name(t))];
    SelfIdle(t, E.Enc(init), w, fuel);
    NoAdapters(cons, c.tmp(3), t, c, 4);
    OnceCode([], cons, e, [], c);
    IdleIsHarmless(code, c.tmp(3), c.loc("t"), E.Enc(init), w, fuel);
    StartStays("t", E.Enc(old_), e, E.Enc(init), code, c, w, fuel);
    assert Occurs("t", R.Path("t"));
  }

  lemma FoldOnce(init: R.Val, old_: R.Val, w: World, fuel: nat)
    ensures var cons := Fold(R.Lit(init), "acc", "y", R.Path("t"));
            I.Consume(SinkOf(cons, init, Before(old_), w, fuel), [R.IntVal(0)]) == Some(old_)
  {
    hide R.EvalElse, R.MatchFields, R.MatchAny, R.EvalGuard, R.Set, R.MatchAll, R.Get, R.RootFits, R.EvalArgs, R.EvalLoop, R.EvalBlock;
    var cons := Fold(R.Lit(init), "acc", "y", R.Path("t"));
    OldValueInside(old_, "acc", init);
    var inner := Before(old_) + [R.Slot("acc", init)] + [R.Slot("y", R.IntVal(0))];
    GetAppend(Before(old_) + [R.Slot("acc", init)], R.Slot("y", R.IntVal(0)), "t");
    assert R.Eval(R.Path("t"), inner, w.rf, fuel) == R.Done(old_, inner);
    assert FoldOf(cons, Before(old_), w, fuel)(init, R.IntVal(0)) == Some(old_);
    assert [R.IntVal(0)][1..] == [];
    assert I.FoldAll(FoldOf(cons, Before(old_), w, fuel), old_, []) == Some(old_);
  }

  // ---- `map` and `filter_map` ----

  /** What `map(|y| g(t)).any(|b| b)` does with an item. */
  lemma OneMap(g: string, item: string, c: Ctx, n: nat)
    requires hide *; c.sub == map[]
    ensures var ads, cells, cons := [Map(Closure("y", Test(g)))], [Cell("", "")], Any(Closure("b", R.Path("b")));
            var t := c.loc("t");
            && CellsCode(ads, c, 2) == GenCells([], cells, 2) && !OddRevs(ads)
            && BodyCode(ads, cells, cons, item, t, c, n).code + PostCode(ads, cells)
               == [L.Assign(Name(item), LuaIr.Call(Name(g), [Name(t)]))] + [When(Name(item), [L.Assign(Name(t), Bool(true))] + [L.Break])]
  {
    hide GenBlock, InlineArgs, GenArms, EmitBindings, GenElse, GenTo, GenChain, GenLoop;
    var ads, cells, cons := [Map(Closure("y", Test(g)))], [Cell("", "")], Any(Closure("b", R.Path("b")));
    var t := c.loc("t");
    TestCode(g, item, c, n);
    assert ads[1..] == [] && cells[1..] == [];
    assert CellsCode([], c, 2) == GenCells([], [], 2);
    var inner := FusedLoop.Call(cons.k, item, c);
    assert inner.Res("b") == item && Inline(R.Path("b"), inner, n) == GenE([], Name(item), n);
    assert BodyCode([], [], cons, item, t, c, n) == SinkCode(cons, item, t, c, n);
    assert PostCode([], []) == [];
  }

  /** `t = (0..=0).map(|y| g(t)).any(|b| b)` */
  lemma MapReadsTooLate(g: string, old_: R.Val, c: Ctx, w: World, fuel: nat)
    requires hide *; c.sub == map[] && NamesApart(c) && Tells(g, old_, R.BoolVal(false), true, w)
    ensures var chain := Once([Map(Closure("y", Test(g)))], Any(Closure("b", R.Path("b"))));
            var o := Outcome(chain, old_, c, w, fuel);
            && ReadInLoop("t", chain)
            && EvalChain(chain, Before(old_), w, fuel) == Some((R.BoolVal(true), Before(old_)))
            && o.Normal? && L.Lookup(o.store, c.loc("t")) == Some(L.BoolV(false))
  {
    hide L.Run, L.Eval, L.Lookup, ChainCode, BodyCode, StartCode, CellsCode, Constant, Harmless, Compiled, E.Enc, E.Expressible, FnOf, EvalChain,
      OccursInStmt, OccursInElse;
    var k := Closure("y", Test(g));
    var ads, cons := [Map(k)], Any(Closure("b", R.Path("b")));
    var env, t := Before(old_), c.loc("t");
    StartIsConstant(cons, c, R.UnitVal, env, w, fuel);
    TestClosure(g, old_, true, w, fuel);
    MapGives(k, cons.k, old_, w, fuel);
    FalseIs();
    TestRuns(g, t, R.BoolVal(false), false, w);
    var call := LuaIr.Call(Name(g), [Name(t)]);
    var body := [L.Assign(Name(t), Bool(true))] + [L.Break];
    SetAndRejectHarmless(call, c.tmp(3), body, t, L.BoolV(false), w, fuel);
    OneMap(g, c.tmp(3), c, 4);
    OnceCode(ads, cons, StartCode(cons, c, 2).e, [Cell("", "")], c);
    StartStays("t", E.Enc(old_), StartCode(cons, c, 2).e, L.BoolV(false), [L.Assign(Name(c.tmp(3)), call)] + [When(Name(c.tmp(3)), body)], c, w, fuel);
    assert ReadByAdapter("t", Once(ads, cons).ads[0]) by { assert Occurs("t", Test(g)); }
  }

  lemma FalseIs()
    ensures E.Enc(R.BoolVal(false)) == L.BoolV(false) && E.Enc(R.NoneVal) == L.NilV
  {
  }

  lemma MapGives(k: Closure, same: Closure, old_: R.Val, w: World, fuel: nat)
    requires FnOf(k, Before(old_), w, fuel)(R.IntVal(0)) == Some(R.BoolVal(true)) && same == Closure("b", R.Path("b"))
    ensures EvalChain(Once([Map(k)], Any(same)), Before(old_), w, fuel) == Some((R.BoolVal(true), Before(old_)))
  {
    hide StagesOf, R.EvalElse, R.MatchFields, R.MatchAny, R.EvalGuard, R.Set, R.MatchAll, R.Get, R.RootFits, IntVals, EvalSource;
    var env, zero, yes := Before(old_), R.IntVal(0), R.BoolVal(true);
    SourceOnce([Map(k)], Any(same), old_, w, fuel);
    assert FnOf(same, env, w, fuel)(yes) == Some(yes) by {
      GetAppend(env, R.Slot("b", yes), "b");
      assert R.Eval(R.Path("b"), env + [R.Slot("b", yes)], w.rf, fuel) == R.Done(yes, env + [R.Slot("b", yes)]);
    }
    hide FnOf, EvalSource;
    var f := FnOf(k, env, w, fuel);
    assert [zero][1..] == [] && [yes] + [] == [yes] && [yes][1..] == [];
    assert I.MapAll(f, []) == Some([]) && I.MapAll(f, [zero]) == Some([yes]);
    OneStage(Map(k), env, w, fuel);
    assert I.ApplyAll([], [yes]) == Some([yes]);
    assert I.ApplyAll([I.Map(f)], [zero]) == Some([yes]) by { assert [I.Map(f)][1..] == []; }
  }

  lemma SourceOnce(ads: seq<Adapter>, cons: Consumer, old_: R.Val, w: World, fuel: nat)
    ensures EvalSource(Once(ads, cons).source, Before(old_), w, fuel) == Some((RangeVal(0, 0, true), Before(old_)))
    ensures RangeVal(0, 0, true).Items() == [R.IntVal(0)]
  {
    hide R.Eval;
    OnceEvaluates([], cons, old_, w, fuel);
  }

  /** A single adapter without a limit. */
  lemma OneStage(ad: Adapter, env: R.Env, w: World, fuel: nat)
    requires hide *; !ad.Skip? && !ad.Take?
    ensures EvalLimits([ad], env, w, fuel) == Some(([0], env)) && StagesOf([ad], [0], env, w, fuel) == [StageOf(ad, 0, env, w, fuel)]
  {
    hide R.Eval;
    assert [ad][1..] == [] && [0][1..] == [] && [0] + [] == [0];
    assert StagesOf([], [], env, w, fuel) == [] && EvalLimits([], env, w, fuel) == Some(([], env));
    assert EvalLimit(ad, env, w, fuel) == Some((0, env));
  }

  /** The same as `FilterReadsTooLate` for `filter_map(|y| h(t))`, where h gives an option. */
  lemma FilterMapReadsTooLate(h: string, cons: Consumer, init: R.Val, old_: R.Val, x: R.Val, c: Ctx, w: World, fuel: nat)
    requires hide *; c.sub == map[] && NamesApart(c) && Starts(cons, init) && h != "ok" && h != "err" && h != "error" && Compiled(w)
    requires E.Expressible(old_) && w.rf(h, [old_]) == Some(R.SomeVal(x))
    requires var start := I.Init(SinkOf(cons, init, Before(old_), w, fuel)); E.Expressible(start) && w.rf(h, [start]) == Some(R.NoneVal)
    requires I.Consume(SinkOf(cons, init, Before(old_), w, fuel), [x]).Some?
    ensures var chain := Once([FilterMap(Closure("y", Test(h)))], cons);
            var sink := SinkOf(cons, init, Before(old_), w, fuel);
            var o := Outcome(chain, old_, c, w, fuel);
            && ReadInLoop("t", chain)
            && EvalChain(chain, Before(old_), w, fuel) == Some((I.Consume(sink, [x]).value, Before(old_)))
            && o.Normal? && L.Lookup(o.store, c.loc("t")) == Some(E.Enc(I.Init(sink)))
  {
    hide L.Run, L.Eval, L.Lookup, ChainCode, BodyCode, SinkCode, StartCode, CellsCode, Constant, Idle, Harmless, Compiled, E.Enc, E.Expressible,
      FnOf, EvalChain, R.Eval;
    var ads, cells := [FilterMap(Closure("y", Test(h)))], [Cell("", "")];
    var env, t := Before(old_), c.loc("t");
    StartIsConstant(cons, c, init, env, w, fuel);
    FilterMapGives(h, cons, init, old_, x, w, fuel);
    var start := I.Init(SinkOf(cons, init, env, w, fuel));
    CallRuns(h, t, start, R.NoneVal, w);
    FalseIs();
    var call := LuaIr.Call(Name(h), [Name(t)]);
    NilRejects(call, t, E.Enc(start), w);
    var body := [L.Assign(Name(c.tmp(3)), call)] + SinkCode(cons, c.tmp(3), t, c, 4).code;
    var guard := When(Binary(call, Ne, Nil), body);
    GuardIdle(Binary(call, Ne, Nil), body, t, E.Enc(start), w, fuel);
    OneFilterMap(h, cons, c.tmp(3), t, c, 4);
    OnceCode(ads, cons, StartCode(cons, c, 2).e, cells, c);
    IdleIsHarmless([guard], c.tmp(3), t, E.Enc(start), w, fuel);
    StartStays("t", E.Enc(old_), StartCode(cons, c, 2).e, E.Enc(start), [guard], c, w, fuel);
    assert ReadByAdapter("t", Once(ads, cons).ads[0]) by { assert Occurs("t", Test(h)); }
  }

  lemma NilRejects(e: Expr, z: string, v: L.Value, w: World)
    requires forall s: L.Store :: L.Lookup(s, z) == Some(v) ==> L.Eval(e, s, w.lf) == Some(L.NilV)
    ensures forall s: L.Store :: L.Lookup(s, z) == Some(v) ==> L.Eval(Binary(e, Ne, Nil), s, w.lf) == Some(L.BoolV(false))
  {
    hide L.Lookup, L.EvalAll;
    forall s: L.Store | L.Lookup(s, z) == Some(v) ensures L.Eval(Binary(e, Ne, Nil), s, w.lf) == Some(L.BoolV(false)) {
      assert L.Eval(e, s, w.lf) == Some(L.NilV);
    }
  }

  lemma OneFilterMap(h: string, cons: Consumer, item: string, res: string, c: Ctx, n: nat)
    requires hide *; c.sub == map[]
    ensures var ads, cells, call := [FilterMap(Closure("y", Test(h)))], [Cell("", "")], LuaIr.Call(Name(h), [Name(c.loc("t"))]);
            && CellsCode(ads, c, 2) == GenCells([], cells, 2) && !OddRevs(ads)
            && BodyCode(ads, cells, cons, item, res, c, n).code + PostCode(ads, cells)
               == [When(Binary(call, Ne, Nil), [L.Assign(Name(item), call)] + SinkCode(cons, item, res, c, n).code)]
  {
    hide SinkCode, Inline;
    var ads, cells := [FilterMap(Closure("y", Test(h)))], [Cell("", "")];
    TestCode(h, item, c, n);
    assert ads[1..] == [] && cells[1..] == [];
    assert CellsCode([], c, 2) == GenCells([], [], 2);
    assert BodyCode([], [], cons, item, res, c, n) == SinkCode(cons, item, res, c, n);
    assert PostCode([], []) == [];
  }

  lemma FilterMapGives(h: string, cons: Consumer, init: R.Val, old_: R.Val, x: R.Val, w: World, fuel: nat)
    requires hide *; w.rf(h, [old_]) == Some(R.SomeVal(x)) && EvalStart(cons, Before(old_), w, fuel) == Some((init, Before(old_)))
    requires I.Consume(SinkOf(cons, init, Before(old_), w, fuel), [x]).Some?
    ensures EvalChain(Once([FilterMap(Closure("y", Test(h)))], cons), Before(old_), w, fuel)
         == Some((I.Consume(SinkOf(cons, init, Before(old_), w, fuel), [x]).value, Before(old_)))
  {
    hide R.Eval;
    var env, zero := Before(old_), R.IntVal(0);
    var ad := FilterMap(Closure("y", Test(h)));
    SourceOnce([ad], cons, old_, w, fuel);
    OldValueInside(old_, "y", zero);
    CallValue(h, old_, R.SomeVal(x), env + [R.Slot("y", zero)], w, fuel);
    var f := FnOf(ad.k, env, w, fuel);
    assert f(zero) == Some(R.SomeVal(x));
    hide FnOf, EvalSource, EvalStart, I.Consume, SinkOf;
    assert [zero][1..] == [] && [x] + [] == [x];
    assert I.FilterMapAll(f, []) == Some([]) && I.FilterMapAll(f, [zero]) == Some([x]);
    OneStage(ad, env, w, fuel);
    assert I.ApplyAll([], [x]) == Some([x]);
    assert I.ApplyAll([I.FilterMap(f)], [zero]) == Some([x]) by { assert [I.FilterMap(f)][1..] == []; }
  }
}
