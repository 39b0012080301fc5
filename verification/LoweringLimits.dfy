/** Programs outside the fragment on which the lowered code does something else. */
module LoweringLimits {
  import opened Wrappers
  import opened LuaIr
  import opened Lowering
  import opened LoweringScope
  import opened LoweringMarks
  import opened LoweringState
  import opened LoweringSteps
  import opened LoweringControl
  import opened LoweringProof
  import opened LuaFrame
  import R = RuaLang
  import L = LuaRun
  import P = PatternTests
  import M = MatchSelection
  import E = Encoding

  /** A context at the start of a function. */
  ghost predicate Fresh(c: Ctx, mentioned: set<string>, mutable: set<string>) {
    NamesApart(c) && c.sub == map[] && c.brk == None && c.mentioned == mentioned && c.mutable == mutable
  }

  function One(b: bool): R.Block {
    R.Block([], Some(R.Lit(R.BoolVal(b))))
  }

  function Int(n: int): R.Expr {
    R.Lit(R.IntVal(n))
  }

  // ---- declaring a variable first ----

  /** `let mut x = v; b`, with a literal. */
  function Declaring(x: string, v: R.Val, b: R.Block): R.Block {
    R.Block([R.Let(x, R.Lit(v))] + b.stmts, b.tail)
  }

  lemma DeclaringCode(x: string, v: R.Val, b: R.Block, c: Ctx)
    requires x in c.mentioned
    ensures GenFunction(Declaring(x, v, b), c) == [L.Local(c.loc(x), Some(P.LiteralExpr(v)))] + GenFunction(b, c)
  {
    var st := R.Let(x, R.Lit(v));
    var all := [st] + b.stmts;
    var first := [L.Local(c.loc(x), Some(P.LiteralExpr(v)))];
    assert c.(sub := c.sub) == c && all[0] == st && all[1..] == b.stmts;
    assert Inline(R.Lit(v), c, 0) == GenE([], P.LiteralExpr(v), 0);
    assert [] + first == first;
    assert GenStmt(st, c, 0) == GenS(first, 0, c.sub);
    hide GenTo, Inline, GenStmt;
    var rest := GenStmts(b.stmts, c, 0);
    assert GenStmts(all, c, 0) == GenS(first + rest.code, rest.next, rest.sub);
    if b.tail.Some? {
      var t := GenTo(b.tail.value, ToReturn, c.(sub := rest.sub), rest.next).code;
      assert first + rest.code + t == first + (rest.code + t);
    } else {
      assert rest.code + [] == rest.code && first + rest.code + [] == first + rest.code;
    }
  }

  lemma DeclaringEval(x: string, v: R.Val, b: R.Block, w: World, fuel: nat)
    requires R.EvalFunction(b, [R.Slot(x, v)], w.rf, fuel).Ret?
    ensures R.EvalFunction(Declaring(x, v, b), [], w.rf, fuel) == R.EvalFunction(b, [R.Slot(x, v)], w.rf, fuel)
  {
    var st := R.Let(x, R.Lit(v));
    var all := [st] + b.stmts;
    var env := [R.Slot(x, v)];
    assert all[0] == st && all[1..] == b.stmts && [] + env == env;
    assert R.Eval(R.Lit(v), [], w.rf, fuel) == R.Done(v, []);
    assert R.EvalStmt(st, [], w.rf, fuel) == R.Done(R.UnitVal, env);
    hide R.EvalStmt, R.Eval;
    assert R.EvalStmts(all, [], w.rf, fuel) == R.EvalStmts(b.stmts, env, w.rf, fuel);
  }

  lemma DeclaringRun(x: string, v: R.Val, b: R.Block, c: Ctx, w: World, fuel: nat)
    requires x in c.mentioned && (v.IntVal? || v.BoolVal?)
    ensures L.Run(GenFunction(Declaring(x, v, b), c), [], w.lf, fuel) == L.Run(GenFunction(b, c), [L.Binding(c.loc(x), E.Enc(v))], w.lf, fuel)
  {
    hide GenFunction, L.Run;
    DeclaringCode(x, v, b, c);
    var first := L.Local(c.loc(x), Some(P.LiteralExpr(v)));
    RunAppend([first], GenFunction(b, c), [], w.lf, fuel);
    LocalRun(c.loc(x), Some(P.LiteralExpr(v)), [], w.lf, fuel);
    assert [] + [L.Binding(c.loc(x), E.Enc(v))] == [L.Binding(c.loc(x), E.Enc(v))];
  }

  lemma DeclaringOutside(x: string, v: R.Val, b: R.Block, q: Scope)
    requires forall q: Scope :: !FitsBlock(b, q, true)
    ensures !FitsBlock(Declaring(x, v, b), q, true)
  {
    hide Fits, FitsStmt;
    var st := R.Let(x, R.Lit(v));
    var all := [st] + b.stmts;
    assert all[0] == st && all[1..] == b.stmts;
    assert !FitsBlock(b, AfterOne(st, q), true);
  }

  // ---- `return` of an `if` without an else ----

  /** `return if false {}; loop {}`. */
  function ReturnIf(): R.Block {
    R.Block([R.Return(Some(R.If(R.Lit(R.BoolVal(false)), R.Block([], None), None))), R.LoopStmt(R.Block([], None))], None)
  }

  lemma {:induction false} EmptyLoopRunsForever(s: L.Store, f: L.Functions, fuel: nat)
    ensures L.RunWhile(Bool(true), [], s, f, fuel) == L.OutOfFuel
  {
    if fuel > 0 {
      RunNothing(s, f, fuel - 1);
      TrueEval(s, f);
      assert s[..|s|] == s;
      EmptyLoopRunsForever(s, f, fuel - 1);
    }
  }

  lemma ReturnIfCode(c: Ctx)
    ensures GenFunction(ReturnIf(), c) == [L.Do([L.If([L.Branch(Bool(false), [])], [])])] + [L.While(Bool(true), [])]
  {
    var b := ReturnIf();
    var e := b.stmts[0].result.value;
    assert GenBlock(R.Block([], None), ToReturn, c, 0).code == [];
    assert GenBlock(R.Block([], None), Discard, c.(brk := None), 0).code == [];
    assert Inline(e.cond, c, 0) == GenE([], Bool(false), 0);
    assert GenControl(e, ToReturn, c, 0) == Gen([L.If([L.Branch(Bool(false), [])], [])], 0);
    assert GenStmt(b.stmts[0], c, 0) == GenS([L.Do([L.If([L.Branch(Bool(false), [])], [])])], 0, c.sub);
    assert c.(sub := c.sub) == c;
    assert GenStmt(b.stmts[1], c, 0) == GenS([L.While(Bool(true), [])], 0, c.sub);
    assert b.stmts[1..][1..] == [];
  }

  lemma ReturnIfEval(w: World, fuel: nat)
    ensures R.EvalFunction(ReturnIf(), [], w.rf, fuel) == R.Ret(R.UnitVal)
  {
    var st := ReturnIf().stmts[0];
    assert R.Eval(st.result.value, [], w.rf, fuel) == R.Done(R.UnitVal, []);
    assert R.EvalStmt(st, [], w.rf, fuel) == R.Ret(R.UnitVal);
    assert R.EvalStmts(ReturnIf().stmts, [], w.rf, fuel) == R.Ret(R.UnitVal);
  }

  /** The source returns; the Lua code falls out of the `if` and into the loop. */
  lemma ReturnFallsThrough(c: Ctx, s: L.Store, w: World, fuel: nat)
    requires hide GenBlock, FitsBlock, R.EvalBlock, L.Run; fuel > 0
    ensures R.EvalFunction(ReturnIf(), [], w.rf, fuel) == R.Ret(R.UnitVal)
    ensures L.Run(GenFunction(ReturnIf(), c), s, w.lf, fuel) == L.OutOfFuel
    ensures Falls(ReturnIf().stmts[0].result.value)
    ensures forall q: Scope :: !FitsBlock(ReturnIf(), q, true)
  {
    hide GenBlock, R.EvalFunction, FitsBlock, L.Run;
    forall q: Scope ensures !FitsBlock(ReturnIf(), q, true) { ReturnIfOutside(q); }
    ReturnIfEval(w, fuel);
    var first := [L.If([L.Branch(Bool(false), [])], [])];
    ReturnIfCode(c);
    RunAppend([L.Do(first)], [L.While(Bool(true), [])], s, w.lf, fuel);
    RunOne(L.Do(first), s, w.lf, fuel);
    IfRun(Bool(false), [], [], s, w.lf, fuel);
    ConstantEvals(s, w.lf);
    RunNothing(s, w.lf, fuel);
    assert s[..|s|] == s;
    WhileRun(Bool(true), [], s, w.lf, fuel);
    EmptyLoopRunsForever(s, w.lf, fuel);
  }

  // ---- statements under `&&` ----

  /** `false && { return true }`. */
  function AndReturn(): R.Block {
    R.Block([], Some(R.Binary(R.And, R.Lit(R.BoolVal(false)), R.BlockExpr(R.Block([R.Return(Some(R.Lit(R.BoolVal(true))))], None)))))
  }

  lemma AndReturnRight(c: Ctx)
    ensures hide Inline; Inline(AndReturn().tail.value.rhs, c, 0).code ==
              [L.Local(c.tmp(1), None)] + ([L.Do([L.Return(Some(Bool(true)))])] + [L.Assign(Name(c.tmp(1)), Nil)])
  {
    var rhs := AndReturn().tail.value.rhs;
    var b := rhs.block;
    var ret := [L.Do([L.Return(Some(Bool(true)))])];
    assert c.(sub := c.sub) == c;
    assert GenTo(R.Lit(R.BoolVal(true)), ToReturn, c, 1) == Gen([L.Return(Some(Bool(true)))], 1);
    assert GenStmt(b.stmts[0], c, 1) == GenS(ret, 1, c.sub);
    assert b.stmts[1..] == [];
    assert GenStmts(b.stmts, c, 1) == GenS(ret, 1, c.sub);
    assert GenBlock(b, Var(c.tmp(1)), c, 1).code == ret + [L.Assign(Name(c.tmp(1)), Nil)];
  }

  lemma AndInline(e: R.Expr, c: Ctx)
    requires hide *; e.Binary? && e.bop == R.And && e.lhs == R.Lit(R.BoolVal(false))
    ensures Inline(e, c, 0).code == Inline(e.rhs, c, 0).code
  {
    hide EmitBindings, GenStmts, GenElse, GenTo, P.ElementTests, P.AndAll, P.FieldTests, GenReturnMatch, GenArm, GenLoop;
    assert Inline(e.lhs, c, 0) == GenE([], Bool(false), 0);
  }

  lemma AndReturnCode(c: Ctx)
    ensures exists e :: GenFunction(AndReturn(), c) ==
              [L.Local(c.tmp(1), None)] + ([L.Do([L.Return(Some(Bool(true)))])] + [L.Assign(Name(c.tmp(1)), Nil)]) + [L.Return(Some(e))]
  {
    hide Inline, GenBlock, GenTo;
    var e := AndReturn().tail.value;
    AndReturnRight(c);
    AndInline(e, c);
    InlineTo(e, c, 0);
    TailCode(e, ToReturn, c);
    assert AndReturn() == R.Block([], Some(e));
  }

  /** The right side is not reached in the source, but its statements run in Lua. */
  lemma AndRunsItsRightSide(c: Ctx, s: L.Store, w: World, fuel: nat)
    ensures R.EvalFunction(AndReturn(), [], w.rf, fuel) == R.Ret(R.BoolVal(false))
    ensures L.Run(GenFunction(AndReturn(), c), s, w.lf, fuel) == L.Returned(L.BoolV(true))
    ensures forall q: Scope :: !FitsBlock(AndReturn(), q, true)
  {
    hide GenBlock, FitsBlock, L.Run;
    forall q: Scope ensures !FitsBlock(AndReturn(), q, true) { AndReturnOutside(q); }
    assert R.Eval(AndReturn().tail.value, [], w.rf, fuel) == R.Done(R.BoolVal(false), []);
    assert R.EvalStmts([], [], w.rf, fuel) == R.Done(R.UnitVal, []);
    AndReturnCode(c);
    var e :| GenFunction(AndReturn(), c) ==
               [L.Local(c.tmp(1), None)] + ([L.Do([L.Return(Some(Bool(true)))])] + [L.Assign(Name(c.tmp(1)), Nil)]) + [L.Return(Some(e))];
    var head, ret := [L.Local(c.tmp(1), None)], [L.Do([L.Return(Some(Bool(true)))])];
    var s1 := s + [L.Binding(c.tmp(1), L.NilV)];
    RunAppend(head + (ret + [L.Assign(Name(c.tmp(1)), Nil)]), [L.Return(Some(e))], s, w.lf, fuel);
    RunAppend(head, ret + [L.Assign(Name(c.tmp(1)), Nil)], s, w.lf, fuel);
    RunAppend(ret, [L.Assign(Name(c.tmp(1)), Nil)], s1, w.lf, fuel);
    LocalRun(c.tmp(1), None, s, w.lf, fuel);
    ReturnRun(Bool(true), s1, w.lf, fuel);
    ConstantEvals(s1, w.lf);
    RunOne(L.Do([L.Return(Some(Bool(true)))]), s1, w.lf, fuel);
  }

  // ---- a condition with statements ----

  /** `while { b } { b = false }`, where b is true at first. */
  function WhileBlock(): R.Block {
    R.Block([R.While(R.BlockExpr(R.Block([], Some(R.Path("b")))), R.Block([R.ExprStmt(R.Assign(None, "b", R.Lit(R.BoolVal(false))))], None))], None)
  }

  lemma WhileCondition(c: Ctx)
    requires hide Inline; Fresh(c, {"b"}, {"b"})
    ensures Inline(WhileBlock().stmts[0].cond, c, 0) == GenE([L.Local(c.tmp(1), None)] + [L.Assign(Name(c.tmp(1)), Name(c.loc("b")))], Name(c.tmp(1)), 1)
  {
    var cond := WhileBlock().stmts[0].cond;
    assert c.(sub := c.sub) == c;
    var d := Var(c.tmp(1));
    assert GenTo(R.Path("b"), d, c, 1) == Gen([L.Assign(Name(c.tmp(1)), Name(c.loc("b")))], 1);
    assert GenBlock(cond.block, d, c, 1) == Gen([L.Assign(Name(c.tmp(1)), Name(c.loc("b")))], 1);
  }

  lemma WhileBody(c: Ctx)
    requires hide GenBlock; Fresh(c, {"b"}, {"b"})
    ensures GenBlock(WhileBlock().stmts[0].body, Discard, c, 1) == Gen([L.Assign(Name(c.loc("b")), Bool(false))], 1)
  {
    hide P.ElementTests, P.AndAll, P.FieldTests, GenReturnMatch, GenArm, GenLoop;
    var body := WhileBlock().stmts[0].body;
    var a := body.stmts[0].e;
    assert GenTo(a.rhs, Var(c.loc("b")), c, 1) == Gen([L.Assign(Name(c.loc("b")), Bool(false))], 1);
    assert GenControl(a, Discard, c, 1) == Gen([L.Assign(Name(c.loc("b")), Bool(false))] + [], 1);
    assert GenStmt(body.stmts[0], c, 1) == GenS([L.Assign(Name(c.loc("b")), Bool(false))], 1, c.sub);
    assert body.stmts[1..] == [];
    assert GenStmts(body.stmts, c, 1) == GenS([L.Assign(Name(c.loc("b")), Bool(false))], 1, c.sub);
  }

  lemma WhileBlockCode(c: Ctx)
    requires hide *; Fresh(c, {"b"}, {"b"})
    ensures GenFunction(WhileBlock(), c) ==
              [L.Local(c.tmp(1), None)] + [L.Assign(Name(c.tmp(1)), Name(c.loc("b")))]
              + [L.While(Name(c.tmp(1)), [L.Assign(Name(c.loc("b")), Bool(false))])]
  {
    var st := WhileBlock().stmts[0];
    WhileCondition(c);
    WhileBody(c);
    assert c.(sub := c.sub) == c && c.(brk := None) == c;
    assert WhileBlock().stmts[1..] == [];
    assert GenStmt(st, c, 0).code == Inline(st.cond, c, 0).code + [L.While(Name(c.tmp(1)), [L.Assign(Name(c.loc("b")), Bool(false))])];
  }

  lemma {:induction false} WhileRunsForever(t: string, b: string, s: L.Store, f: L.Functions, fuel: nat)
    requires t != b && L.Lookup(s, t) == Some(L.BoolV(true)) && L.Bound(s, b)
    ensures L.RunWhile(Name(t), [L.Assign(Name(b), Bool(false))], s, f, fuel) == L.OutOfFuel
    decreases fuel
  {
    hide L.Lookup, L.Update, L.Bound, L.Run, L.Eval;
    if fuel > 0 {
      NameEval(t, s, f);
      ConstantEvals(s, f);
      AssignRun(b, Bool(false), s, f, fuel - 1);
      LookupUpdate(s, b, L.BoolV(false), t);
      LookupUpdate(s, b, L.BoolV(false), b);
      var s1 := L.Update(s, b, L.BoolV(false));
      assert s1[..|s|] == s1;
      WhileRunsForever(t, b, s1, f, fuel - 1);
    }
  }

  /** The condition is computed once, before the loop. */
  lemma ConditionIsComputedOnce(c: Ctx, w: World, fuel: nat)
    requires Fresh(c, {"b"}, {"b"}) && fuel >= 2
    ensures var b := Declaring("b", R.BoolVal(true), WhileBlock());
            && R.EvalFunction(b, [], w.rf, fuel) == R.Ret(R.UnitVal)
            && L.Run(GenFunction(b, c), [], w.lf, fuel) == L.OutOfFuel
            && forall q: Scope :: !FitsBlock(b, q, true)
  {
    hide R.EvalFunction, GenFunction, L.Run, FitsBlock, Declaring;
    forall q: Scope ensures !FitsBlock(WhileBlock(), q, true) { WhileBlockOutside(q); }
    WhileBlockEval(w, fuel);
    WhileBlockRun(c, w, fuel);
    Declared("b", R.BoolVal(true), WhileBlock(), c, w, fuel);
  }

  /** What a variable declared first changes: nothing. */
  lemma Declared(x: string, v: R.Val, b: R.Block, c: Ctx, w: World, fuel: nat)
    requires x in c.mentioned && (v.IntVal? || v.BoolVal?) && R.EvalFunction(b, [R.Slot(x, v)], w.rf, fuel).Ret?
    requires forall q: Scope :: !FitsBlock(b, q, true)
    ensures R.EvalFunction(Declaring(x, v, b), [], w.rf, fuel) == R.EvalFunction(b, [R.Slot(x, v)], w.rf, fuel)
    ensures L.Run(GenFunction(Declaring(x, v, b), c), [], w.lf, fuel) == L.Run(GenFunction(b, c), [L.Binding(c.loc(x), E.Enc(v))], w.lf, fuel)
    ensures forall q: Scope :: !FitsBlock(Declaring(x, v, b), q, true)
  {
    hide R.EvalFunction, GenFunction, L.Run, FitsBlock, Declaring, E.Enc;
    DeclaringEval(x, v, b, w, fuel);
    DeclaringRun(x, v, b, c, w, fuel);
    forall q: Scope ensures !FitsBlock(Declaring(x, v, b), q, true) { DeclaringOutside(x, v, b, q); }
  }

  lemma WhileConditionEval(value: bool, w: World, fuel: nat)
    ensures hide R.Eval; var env := [R.Slot("b", R.BoolVal(value))];
            R.Eval(WhileBlock().stmts[0].cond, env, w.rf, fuel) == R.Done(R.BoolVal(value), env)
  {
    hide R.EvalWhile, R.EvalArgs, R.EvalLoop, R.EvalBlock, R.EvalStmts, R.MatchPattern;
    var env := [R.Slot("b", R.BoolVal(value))];
    assert R.Eval(R.Path("b"), env, w.rf, fuel) == R.Done(R.BoolVal(value), env);
    TailEval(R.Path("b"), env, w, fuel);
    assert env[..1] == env;
  }

  lemma WhileBodyEval(w: World, fuel: nat)
    ensures hide R.EvalBlock; R.EvalBlock(WhileBlock().stmts[0].body, [R.Slot("b", R.BoolVal(true))], w.rf, fuel)
         == R.Done(R.UnitVal, [R.Slot("b", R.BoolVal(false))])
  {
    var body := WhileBlock().stmts[0].body;
    var e1, e2 := [R.Slot("b", R.BoolVal(true))], [R.Slot("b", R.BoolVal(false))];
    assert R.Get(e1, "b") == Some(R.BoolVal(true)) && R.Set(e1, "b", R.BoolVal(false)) == e2;
    assert R.Eval(R.Lit(R.BoolVal(false)), e1, w.rf, fuel) == R.Done(R.BoolVal(false), e1);
    assert R.EvalStmt(body.stmts[0], e1, w.rf, fuel) == R.Done(R.UnitVal, e2);
    assert body.stmts[1..] == [] && e2[..1] == e2;
    assert R.EvalStmts(body.stmts, e1, w.rf, fuel) == R.Done(R.UnitVal, e2);
  }

  lemma WhileBlockEval(w: World, fuel: nat)
    requires fuel >= 2
    ensures R.EvalFunction(WhileBlock(), [R.Slot("b", R.BoolVal(true))], w.rf, fuel) == R.Ret(R.UnitVal)
  {
    hide R.Eval, R.EvalBlock, R.EvalStmts, R.EvalStmt;
    var st := WhileBlock().stmts[0];
    var e1, e2 := [R.Slot("b", R.BoolVal(true))], [R.Slot("b", R.BoolVal(false))];
    WhileConditionEval(true, w, fuel);
    WhileConditionEval(false, w, fuel - 1);
    WhileBodyEval(w, fuel - 1);
    assert R.EvalWhile(st.cond, st.body, e2, w.rf, fuel - 1) == R.Done(R.UnitVal, e2);
    assert R.EvalWhile(st.cond, st.body, e1, w.rf, fuel) == R.Done(R.UnitVal, e2);
    OneWhileBlock(st, e1, e2, w, fuel);
  }

  lemma OneWhileBlock(st: R.Stmt, e1: R.Env, e2: R.Env, w: World, fuel: nat)
    requires hide *; st.While? && |e1| == |e2| && R.EvalWhile(st.cond, st.body, e1, w.rf, fuel) == R.Done(R.UnitVal, e2)
    ensures R.EvalFunction(R.Block([st], None), e1, w.rf, fuel) == R.Ret(R.UnitVal)
  {
    hide R.EvalWhile, R.Eval;
    assert [st][1..] == [];
    assert R.EvalStmt(st, e1, w.rf, fuel) == R.Done(R.UnitVal, e2);
    assert R.EvalStmts([st], e1, w.rf, fuel) == R.Done(R.UnitVal, e2);
  }

  lemma WhileBlockRun(c: Ctx, w: World, fuel: nat)
    requires Fresh(c, {"b"}, {"b"})
    ensures L.Run(GenFunction(WhileBlock(), c), [L.Binding(c.loc("b"), L.BoolV(true))], w.lf, fuel) == L.OutOfFuel
  {
    hide GenBlock, L.Lookup, L.Update, L.Eval, L.Run;
    WhileBlockCode(c);
    var t, b := c.tmp(1), c.loc("b");
    var s := [L.Binding(b, L.BoolV(true))];
    var s1 := s + [L.Binding(t, L.NilV)];
    assert s == [] + [L.Binding(b, L.BoolV(true))];
    LookupAppend([], L.Binding(b, L.BoolV(true)), b);
    LookupAppend(s, L.Binding(t, L.NilV), b);
    assert s1[0].name == b && s1[1].name == t;
    RunAppend([L.Local(t, None)] + [L.Assign(Name(t), Name(b))], [L.While(Name(t), [L.Assign(Name(b), Bool(false))])], s, w.lf, fuel);
    RunAppend([L.Local(t, None)], [L.Assign(Name(t), Name(b))], s, w.lf, fuel);
    LocalRun(t, None, s, w.lf, fuel);
    NameEval(b, s1, w.lf);
    AssignRun(t, Name(b), s1, w.lf, fuel);
    LookupUpdate(s1, t, L.BoolV(true), t);
    var s2 := L.Update(s1, t, L.BoolV(true));
    assert s2[0].name == b;
    WhileRun(Name(t), [L.Assign(Name(b), Bool(false))], s2, w.lf, fuel);
    WhileRunsForever(t, b, s2, w.lf, fuel);
  }

  // ---- two locals of one Lua name ----

  /** `let x = 1; { let x = 2; x }; x`. */
  function Shadow(): R.Block {
    R.Block([R.Let("x", Int(1)), R.ExprStmt(R.BlockExpr(R.Block([R.Let("x", Int(2))], Some(R.Path("x")))))], Some(R.Path("x")))
  }

  lemma ShadowCode(c: Ctx)
    requires Fresh(c, {"x"}, {})
    ensures GenFunction(Shadow(), c) == [L.Local(c.loc("x"), Some(Integer(1))), L.Local(c.loc("x"), Some(Integer(2))), L.Return(Some(Name(c.loc("x"))))]
  {
    var b := Shadow();
    var inner := b.stmts[1].e.block;
    assert c.(sub := c.sub) == c;
    assert forall n :: Inline(Int(n), c, 0) == GenE([], Integer(n), 0);
    assert GenStmt(b.stmts[0], c, 0) == GenS([L.Local(c.loc("x"), Some(Integer(1)))], 0, c.sub);
    assert GenStmt(inner.stmts[0], c, 0) == GenS([L.Local(c.loc("x"), Some(Integer(2)))], 0, c.sub);
    assert inner.stmts[1..] == [];
    assert GenStmts(inner.stmts, c, 0) == GenS([L.Local(c.loc("x"), Some(Integer(2)))], 0, c.sub);
    assert GenTo(R.Path("x"), Discard, c, 0) == Gen([], 0);
    assert GenBlock(inner, Discard, c, 0) == Gen([L.Local(c.loc("x"), Some(Integer(2)))], 0);
    assert GenStmt(b.stmts[1], c, 0) == GenS([L.Local(c.loc("x"), Some(Integer(2)))], 0, c.sub);
    assert b.stmts[1..][1..] == [];
    assert GenStmts(b.stmts[1..], c, 0) == GenS([L.Local(c.loc("x"), Some(Integer(2)))], 0, c.sub);
    assert GenStmts(b.stmts, c, 0) == GenS([L.Local(c.loc("x"), Some(Integer(1))), L.Local(c.loc("x"), Some(Integer(2)))], 0, c.sub);
    assert GenTo(R.Path("x"), ToReturn, c, 0) == Gen([L.Return(Some(Name(c.loc("x"))))], 0);
  }

  lemma ShadowEval(w: World, fuel: nat)
    ensures R.EvalFunction(Shadow(), [], w.rf, fuel) == R.Ret(R.IntVal(1))
  {
    var b := Shadow();
    var inner := b.stmts[1].e.block;
    var e1 := [R.Slot("x", R.IntVal(1))];
    var e2 := e1 + [R.Slot("x", R.IntVal(2))];
    assert [] + e1 == e1;
    assert R.EvalStmt(b.stmts[0], [], w.rf, fuel) == R.Done(R.UnitVal, e1);
    assert R.EvalStmt(inner.stmts[0], e1, w.rf, fuel) == R.Done(R.UnitVal, e2);
    assert inner.stmts[1..] == [] && R.EvalStmts([], e2, w.rf, fuel) == R.Done(R.UnitVal, e2);
    assert R.EvalStmts(inner.stmts, e1, w.rf, fuel) == R.Done(R.UnitVal, e2);
    assert e2[..1] == e1;
    assert R.EvalBlock(inner, e1, w.rf, fuel) == R.Done(R.IntVal(2), e1);
    assert R.EvalStmt(b.stmts[1], e1, w.rf, fuel) == R.Done(R.UnitVal, e1);
    assert b.stmts[1..][1..] == [] && R.EvalStmts([], e1, w.rf, fuel) == R.Done(R.UnitVal, e1);
    assert R.EvalStmts(b.stmts[1..], e1, w.rf, fuel) == R.Done(R.UnitVal, e1);
    assert R.EvalStmts(b.stmts, [], w.rf, fuel) == R.Done(R.UnitVal, e1);
    assert R.Eval(R.Path("x"), e1, w.rf, fuel) == R.Done(R.IntVal(1), e1);
  }

  /** A block opens no Lua scope, so its local hides the outer one for good. */
  lemma BlockLocalLeaks(c: Ctx, w: World, fuel: nat)
    requires Fresh(c, {"x"}, {})
    ensures R.EvalFunction(Shadow(), [], w.rf, fuel) == R.Ret(R.IntVal(1))
    ensures L.Run(GenFunction(Shadow(), c), [], w.lf, fuel) == L.Returned(L.IntV(2))
    ensures forall q: Scope :: !FitsBlock(Shadow(), q, true)
  {
    hide GenBlock, R.EvalFunction, FitsBlock, L.Run;
    forall q: Scope ensures !FitsBlock(Shadow(), q, true) { ShadowOutside(q); }
    ShadowEval(w, fuel);
    ShadowCode(c);
    var x := c.loc("x");
    var a, b, r := L.Local(x, Some(Integer(1))), L.Local(x, Some(Integer(2))), L.Return(Some(Name(x)));
    var s1 := [] + [L.Binding(x, L.IntV(1))];
    var s2 := s1 + [L.Binding(x, L.IntV(2))];
    assert [a, b, r] == [a] + ([b] + [r]);
    RunAppend([a], [b] + [r], [], w.lf, fuel);
    RunAppend([b], [r], s1, w.lf, fuel);
    LocalRun(x, Some(Integer(1)), [], w.lf, fuel);
    LocalRun(x, Some(Integer(2)), s1, w.lf, fuel);
    LookupAppend(s1, L.Binding(x, L.IntV(2)), x);
    NameEval(x, s2, w.lf);
    ReturnRun(Name(x), s2, w.lf, fuel);
  }

  // ---- a `mut` variable that stands for another ----

  /** `let mut y = x?; y = 5; x`. */
  function MutableAlias(): R.Block {
    R.Block([R.Let("y", R.Try(false, R.Path("x"))), R.ExprStmt(R.Assign(None, "y", Int(5)))], Some(R.Path("x")))
  }

  lemma MutableAliasCode(c: Ctx)
    requires Fresh(c, {"x", "y"}, {"y"})
    ensures var x := c.loc("x");
            GenFunction(MutableAlias(), c) == [TryTest(x, false)] + ([L.Assign(Name(x), Integer(5))] + [L.Return(Some(Name(x)))])
  {
    hide P.PatTest, P.Alternatives, P.ElementTests, P.Retain, P.AndAll, P.FieldTests, P.OrAll;
    var b := MutableAlias();
    var x := c.loc("x");
    var c1 := c.(sub := map["y" := x]);
    assert c.sub["y" := x] == map["y" := x];
    assert Inline(R.Path("x"), c, 0) == GenE([], Name(x), 0);
    assert [] + [TryTest(x, false)] == [TryTest(x, false)];
    assert !Removable(b.stmts[0].init);
    assert GenStmt(b.stmts[0], c, 0) == GenS([TryTest(x, false)], 0, c1.sub);
    AliasAssigned(c1, x);
    assert GenStmts(b.stmts, c, 0) == GenS([TryTest(x, false)] + [L.Assign(Name(x), Integer(5))], 0, c1.sub);
    assert GenTo(R.Path("x"), ToReturn, c1, 0) == Gen([L.Return(Some(Name(x)))], 0);
  }

  /** The assignment to y, for which x stands. */
  lemma AliasAssigned(c: Ctx, x: string)
    requires c.sub == map["y" := x]
    ensures GenStmts(MutableAlias().stmts[1..], c, 0) == GenS([L.Assign(Name(x), Integer(5))], 0, c.sub)
  {
    hide GenChain, GenLoop, Removable, GenBlock, InlineArgs, GenArms, P.ElementTests, M.ProvenExhaustive, P.AndAll, P.FieldTests, M.RootOf;
    var stmts := MutableAlias().stmts[1..];
    assert Inline(Int(5), c, 0) == GenE([], Integer(5), 0);
    assert GenTo(Int(5), Var(x), c, 0) == Gen([L.Assign(Name(x), Integer(5))], 0);
    assert GenControl(stmts[0].e, Discard, c, 0) == Gen([L.Assign(Name(x), Integer(5))], 0);
    assert GenStmt(stmts[0], c, 0) == GenS([L.Assign(Name(x), Integer(5))], 0, c.sub);
    assert stmts[1..] == [] && c.(sub := c.sub) == c;
  }

  lemma MutableAliasEval(w: World, fuel: nat)
    ensures R.EvalFunction(MutableAlias(), [R.Slot("x", R.SomeVal(R.IntVal(1)))], w.rf, fuel) == R.Ret(R.SomeVal(R.IntVal(1)))
  {
    var b := MutableAlias();
    var v := R.SomeVal(R.IntVal(1));
    var e0 := [R.Slot("x", v)];
    var e1, e2 := e0 + [R.Slot("y", R.IntVal(1))], e0 + [R.Slot("y", R.IntVal(5))];
    assert R.Eval(R.Path("x"), e0, w.rf, fuel) == R.Done(v, e0);
    assert R.Eval(b.stmts[0].init, e0, w.rf, fuel) == R.Done(R.IntVal(1), e0);
    assert R.EvalStmt(b.stmts[0], e0, w.rf, fuel) == R.Done(R.UnitVal, e1);
    assert e1[..1] == e0 && R.Set(e1, "y", R.IntVal(5)) == e2;
    assert R.Eval(b.stmts[1].e, e1, w.rf, fuel) == R.Done(R.UnitVal, e2);
    assert R.EvalStmt(b.stmts[1], e1, w.rf, fuel) == R.Done(R.UnitVal, e2);
    assert b.stmts[1..][1..] == [] && R.EvalStmts([], e2, w.rf, fuel) == R.Done(R.UnitVal, e2);
    assert R.EvalStmts(b.stmts[1..], e1, w.rf, fuel) == R.Done(R.UnitVal, e2);
    assert R.EvalStmts(b.stmts, e0, w.rf, fuel) == R.Done(R.UnitVal, e2);
    assert e2[..1] == e0;
    assert R.Get(e2, "x") == Some(v);
    assert R.Eval(R.Path("x"), e2, w.rf, fuel) == R.Done(v, e2);
  }

  /** Assigning to y changes x, which is not even `mut`. */
  lemma AssigningTheAliasChangesTheOriginal(c: Ctx, w: World, fuel: nat)
    requires Fresh(c, {"x", "y"}, {"y"})
    ensures R.EvalFunction(MutableAlias(), [R.Slot("x", R.SomeVal(R.IntVal(1)))], w.rf, fuel) == R.Ret(R.SomeVal(R.IntVal(1)))
    ensures L.Run(GenFunction(MutableAlias(), c), [L.Binding(c.loc("x"), L.IntV(1))], w.lf, fuel) == L.Returned(L.IntV(5))
    ensures L.IntV(5) != E.Enc(R.SomeVal(R.IntVal(1)))
    ensures forall q: Scope :: "y" in q.mentioned && "y" in q.mutable && "x" !in q.mutable ==> !FitsBlock(MutableAlias(), q, true)
  {
    hide GenBlock, R.EvalFunction, L.Update, L.Lookup, L.Eval, TryTest, FitsBlock, L.Run, E.Enc;
    forall q: Scope | "y" in q.mentioned && "y" in q.mutable && "x" !in q.mutable ensures !FitsBlock(MutableAlias(), q, true) { MutableAliasOutside(q); }
    MutableAliasEval(w, fuel);
    MutableAliasCode(c);
    var x := c.loc("x");
    var s := [L.Binding(x, L.IntV(1))];
    var rest := [L.Assign(Name(x), Integer(5))] + [L.Return(Some(Name(x)))];
    assert s == [] + [L.Binding(x, L.IntV(1))] && s[0].name == x;
    LookupAppend([], L.Binding(x, L.IntV(1)), x);
    SomeOneIsOne();
    TryTestRun(x, false, R.SomeVal(R.IntVal(1)), [], s, w, fuel);
    RunAppend([TryTest(x, false)], rest, s, w.lf, fuel);
    RunAppend([L.Assign(Name(x), Integer(5))], [L.Return(Some(Name(x)))], s, w.lf, fuel);
    FiveEval(s, w.lf);
    AssignRun(x, Integer(5), s, w.lf, fuel);
    LookupUpdate(s, x, L.IntV(5), x);
    NameEval(x, L.Update(s, x, L.IntV(5)), w.lf);
    ReturnRun(Name(x), L.Update(s, x, L.IntV(5)), w.lf, fuel);
  }

  lemma SomeOneIsOne()
    ensures E.Enc(R.SomeVal(R.IntVal(1))) == L.IntV(1) && E.Expressible(R.SomeVal(R.IntVal(1)))
  {
  }

  lemma FiveEval(s: L.Store, f: L.Functions)
    ensures L.Eval(Integer(5), s, f) == Some(L.IntV(5))
  {
  }

  // ---- an operand that is read late ----

  /** `x + { x = 5; 1 }`, where x is 1 at first. */
  function LateOperand(): R.Block {
    R.Block([], Some(R.Binary(R.Add, R.Path("x"), R.BlockExpr(FiveThen(Int(1))))))
  }

  /** `{ x = 5; tail }`. */
  function FiveThen(tail: R.Expr): R.Block {
    R.Block([R.ExprStmt(R.Assign(None, "x", Int(5)))], Some(tail))
  }

  lemma FiveThenCode(tail: R.Expr, d: Dest, c: Ctx, n: nat)
    requires "x" !in c.sub
    ensures var t := GenTo(tail, d, c, n);
            GenBlock(FiveThen(tail), d, c, n) == Gen([L.Assign(Name(c.loc("x")), Integer(5))] + t.code, t.next)
  {
    var b := FiveThen(tail);
    var x := c.loc("x");
    assert c.(sub := c.sub) == c;
    assert Inline(Int(5), c, n) == GenE([], Integer(5), n);
    assert GenTo(Int(5), Var(x), c, n) == Gen([L.Assign(Name(x), Integer(5))], n);
    assert GenControl(b.stmts[0].e, Discard, c, n) == Gen([L.Assign(Name(x), Integer(5))], n);
    assert GenStmt(b.stmts[0], c, n) == GenS([L.Assign(Name(x), Integer(5))], n, c.sub);
    assert b.stmts[1..] == [];
    assert GenStmts(b.stmts, c, n) == GenS([L.Assign(Name(x), Integer(5))], n, c.sub);
  }

  lemma TailCode(e: R.Expr, d: Dest, c: Ctx)
    ensures hide *; GenBlock(R.Block([], Some(e)), d, c, 0).code == GenTo(e, d, c, 0).code
  {
    hide GenTo, GenStmt;
    assert c.(sub := c.sub) == c;
    assert [] + GenTo(e, d, c, 0).code == GenTo(e, d, c, 0).code;
  }

  lemma LateOperandCode(c: Ctx)
    requires hide *; Fresh(c, {"x"}, {"x"})
    ensures var x, t := c.loc("x"), c.tmp(1);
            GenFunction(LateOperand(), c) ==
            [L.Local(t, None)] + ([L.Assign(Name(x), Integer(5))] + ([L.Assign(Name(t), Integer(1))] + [L.Return(Some(Binary(Name(x), Add, Name(t))))]))
  {
    hide GenBlock, Inline, GenTo, GenControl;
    var e := LateOperand().tail.value;
    var b := e.rhs.block;
    var x, t := c.loc("x"), c.tmp(1);
    var one := [L.Assign(Name(t), Integer(1))];
    ConstantTo(1, t, c, 1);
    FiveThenCode(Int(1), Var(t), c, 1);
    BlockInline(b, c, 0);
    InlinePath("x", c, 0);
    InlineStrict(e, c, 0);
    var code := [L.Local(t, None)] + ([L.Assign(Name(x), Integer(5))] + one);
    assert Inline(e, c, 0) == GenE(code, BinaryExpr(R.Add, Name(x), Name(t)), 1);
    InlineTo(e, c, 0);
    TailCode(e, ToReturn, c);
  }

  lemma ConstantTo(k: int, t: string, c: Ctx, n: nat)
    ensures GenTo(Int(k), Var(t), c, n) == Gen([L.Assign(Name(t), Integer(k))], n)
  {
    hide GenChain, GenLoop, GenBlock, InlineArgs, GenArms, P.ElementTests, M.ProvenExhaustive, P.AndAll, P.FieldTests, M.RootOf;
    assert Inline(Int(k), c, n) == GenE([], Integer(k), n);
  }

  lemma BlockInline(b: R.Block, c: Ctx, n: nat)
    ensures hide *; var g := GenBlock(b, Var(c.tmp(n + 1)), c, n + 1);
            Inline(R.BlockExpr(b), c, n) == GenE([L.Local(c.tmp(n + 1), None)] + g.code, Name(c.tmp(n + 1)), g.next)
  {
    hide GenBlock, P.PatTest, P.AndAll, GenElse, GenTo, GenLoop, InlineArgs, GenArms, EmitBindings, GenReturnMatch;
  }

  lemma InlineTo(e: R.Expr, c: Ctx, n: nat)
    requires !IsControl(e)
    ensures GenTo(e, ToReturn, c, n).code == Inline(e, c, n).code + [L.Return(Some(Inline(e, c, n).e))]
  {
    hide Inline, GenControl;
  }

  lemma LateOperandEval(w: World, fuel: nat)
    ensures R.EvalFunction(LateOperand(), [R.Slot("x", R.IntVal(1))], w.rf, fuel) == R.Ret(R.IntVal(2))
  {
    var e := LateOperand().tail.value;
    var b := e.rhs.block;
    var e1, e2 := [R.Slot("x", R.IntVal(1))], [R.Slot("x", R.IntVal(5))];
    assert R.EvalStmts([], e1, w.rf, fuel) == R.Done(R.UnitVal, e1);
    assert R.Eval(R.Path("x"), e1, w.rf, fuel) == R.Done(R.IntVal(1), e1);
    assert R.Set(e1, "x", R.IntVal(5)) == e2;
    assert R.Eval(b.stmts[0].e, e1, w.rf, fuel) == R.Done(R.UnitVal, e2);
    assert R.EvalStmt(b.stmts[0], e1, w.rf, fuel) == R.Done(R.UnitVal, e2);
    assert b.stmts[1..] == [] && R.EvalStmts([], e2, w.rf, fuel) == R.Done(R.UnitVal, e2);
    assert R.EvalStmts(b.stmts, e1, w.rf, fuel) == R.Done(R.UnitVal, e2);
    assert e2[..1] == e2;
    assert R.EvalBlock(b, e1, w.rf, fuel) == R.Done(R.IntVal(1), e2);
    assert R.Eval(e.rhs, e1, w.rf, fuel) == R.Done(R.IntVal(1), e2);
    assert R.Wrap(2) == 2;
    assert R.Eval(e, e1, w.rf, fuel) == R.Done(R.IntVal(2), e2);
  }

  /** The left operand is read after the statements of the right one. */
  lemma LateOperandSeesTheAssignment(c: Ctx, w: World, fuel: nat)
    requires Fresh(c, {"x"}, {"x"})
    ensures var b := Declaring("x", R.IntVal(1), LateOperand());
            && R.EvalFunction(b, [], w.rf, fuel) == R.Ret(R.IntVal(2))
            && L.Run(GenFunction(b, c), [], w.lf, fuel) == L.Returned(L.IntV(6))
            && forall q: Scope :: !FitsBlock(b, q, true)
  {
    hide R.EvalFunction, GenFunction, L.Run, FitsBlock, Declaring;
    forall q: Scope ensures !FitsBlock(LateOperand(), q, true) { LateOperandOutside(q); }
    LateOperandEval(w, fuel);
    LateOperandRun(c, w, fuel);
    Declared("x", R.IntVal(1), LateOperand(), c, w, fuel);
  }

  lemma LateOperandRun(c: Ctx, w: World, fuel: nat)
    requires Fresh(c, {"x"}, {"x"})
    ensures L.Run(GenFunction(LateOperand(), c), [L.Binding(c.loc("x"), L.IntV(1))], w.lf, fuel) == L.Returned(L.IntV(6))
  {
    hide GenBlock, L.Update, L.Lookup, L.Eval, L.Run;
    LateOperandCode(c);
    var x, t := c.loc("x"), c.tmp(1);
    assert x != t;
    var s := [L.Binding(x, L.IntV(1))];
    var s1 := s + [L.Binding(t, L.NilV)];
    var s2 := L.Update(s1, x, L.IntV(5));
    var s3 := L.Update(s2, t, L.IntV(1));
    assert s1[0].name == x && s1[1].name == t && s2[1].name == t;
    var last := [L.Return(Some(Binary(Name(x), Add, Name(t))))];
    RunAppend([L.Local(t, None)], [L.Assign(Name(x), Integer(5))] + ([L.Assign(Name(t), Integer(1))] + last), s, w.lf, fuel);
    RunAppend([L.Assign(Name(x), Integer(5))], [L.Assign(Name(t), Integer(1))] + last, s1, w.lf, fuel);
    RunAppend([L.Assign(Name(t), Integer(1))], last, s2, w.lf, fuel);
    LocalRun(t, None, s, w.lf, fuel);
    FiveEval(s1, w.lf);
    AssignRun(x, Integer(5), s1, w.lf, fuel);
    OneEval(s2, w.lf);
    AssignRun(t, Integer(1), s2, w.lf, fuel);
    LookupUpdate(s1, x, L.IntV(5), x);
    LookupUpdate(s2, t, L.IntV(1), x);
    LookupUpdate(s2, t, L.IntV(1), t);
    SumEval(x, t, s3, w.lf);
    ReturnRun(Binary(Name(x), Add, Name(t)), s3, w.lf, fuel);
  }

  lemma OneEval(s: L.Store, f: L.Functions)
    ensures L.Eval(Integer(1), s, f) == Some(L.IntV(1))
  {
  }

  lemma SumEval(x: string, t: string, s: L.Store, f: L.Functions)
    requires L.Lookup(s, x) == Some(L.IntV(5)) && L.Lookup(s, t) == Some(L.IntV(1))
    ensures L.Eval(Binary(Name(x), Add, Name(t)), s, f) == Some(L.IntV(6))
  {
    hide L.Lookup;
    NameEval(x, s, f);
    NameEval(t, s, f);
    assert L.Wrap(6) == 6;
  }

  // ---- matching on a variable that an arm assigns ----

  /** `match x { y => { x = 5; y } }` as the value of the function, where x is 1 at first. */
  function MatchAlias(): R.Block {
    R.Block([], Some(R.Match(R.Path("x"), [R.Arm([R.Binding("y")], None, R.BlockExpr(FiveThen(R.Path("y"))))])))
  }

  lemma MatchAliasCode(c: Ctx)
    requires Fresh(c, {"x", "y"}, {"x"})
    ensures var x := c.loc("x"); GenFunction(MatchAlias(), c) == [L.Assign(Name(x), Integer(5))] + [L.Return(Some(Name(x)))]
  {
    hide M.ProvenExhaustive, GenBlock, GenTo, Inline, GenControl, GenChain, GenReturnMatch;
    var e := MatchAlias().tail.value;
    var x := c.loc("x");
    var code := [L.Assign(Name(x), Integer(5))] + [L.Return(Some(Name(x)))];
    MatchAliasChain(c, M.ProvenExhaustive(M.Flatten(ArmPatterns(e.arms))));
    InlinePath("x", c, 0);
    ReturnMatchCode(GenE([], Name(x), 0), e.arms, c);
    assert !CachesTag(e.arms);
    ReturnMatchParts(e, c, 0);
    assert [] + [] + code == code;
    MatchTo(e, c);
    TailCode(e, ToReturn, c);
  }

  lemma MatchTo(e: R.Expr, c: Ctx)
    requires hide *; IsControl(e)
    ensures GenTo(e, ToReturn, c, 0) == GenControl(e, ToReturn, c, 0)
  {
    hide GenControl;
  }

  lemma MatchAliasChain(c: Ctx, proven: bool)
    requires hide GenChain; Fresh(c, {"x", "y"}, {"x"})
    ensures var x := c.loc("x");
            GenChain(MatchAlias().tail.value.arms, Name(x), None, proven, c, 0)
            == Chain([], Some([L.Assign(Name(x), Integer(5))] + [L.Return(Some(Name(x)))]), 0)
  {
    hide GenBlock, GenTo, P.PatTest, P.Alternatives, P.Retain, P.AndAll, P.OrAll, EmitBindings;
    var arm := MatchAlias().tail.value.arms[0];
    var x := c.loc("x");
    var c1 := c.(sub := map["y" := x]);
    var code := [L.Assign(Name(x), Integer(5))] + [L.Return(Some(Name(x)))];
    MatchAliasBindings(c);
    PathTo("y", c1);
    FiveThenCode(R.Path("y"), ToReturn, c1, 0);
    BlockTo(FiveThen(R.Path("y")), c1);
    assert [] + code == code;
    assert GenReturnBody(arm, Binds([], c1.sub), c, 0) == Gen(code, 0);
    ChainOfOne(arm, Name(x), proven, c);
  }

  lemma ChainOfOne(arm: R.Arm, subject: Expr, proven: bool, c: Ctx)
    requires hide *; P.ArmTests(arm.pats, subject, None, c.mentioned).tests == []
    ensures var body := GenReturnBody(arm, EmitBindings(P.ArmTests(arm.pats, subject, None, c.mentioned).binds, c), c, 0);
            GenChain([arm], subject, None, proven, c, 0) == Chain([], Some(body.code), body.next)
  {
    hide GenReturnBody, P.ArmTests, EmitBindings;
  }

  lemma PathTo(x: string, c: Ctx)
    ensures hide *; GenTo(R.Path(x), ToReturn, c, 0) == Gen([L.Return(Some(Name(c.Res(x))))], 0)
  {
    hide Inline, GenControl;
    InlinePath(x, c, 0);
  }

  lemma BlockTo(b: R.Block, c: Ctx)
    ensures hide *; GenTo(R.BlockExpr(b), ToReturn, c, 0) == GenBlock(b, ToReturn, c, 0)
  {
    hide GenBlock, P.PatTest, P.AndAll, GenLoop, InlineArgs, GenArms, EmitBindings, GenReturnMatch;
  }

  lemma MatchAliasBindings(c: Ctx)
    requires Fresh(c, {"x", "y"}, {"x"})
    ensures var t := P.ArmTests([R.Binding("y")], Name(c.loc("x")), None, c.mentioned);
            t.tests == [] && EmitBindings(t.binds, c) == Binds([], map["y" := c.loc("x")])
  {
    var binds := [P.PatternBinding("y", Name(c.loc("x")))];
    assert P.Retain([], c.mentioned) == [] && binds[1..] == [];
    assert P.Retain(binds, c.mentioned) == binds;
    assert binds[..0] == [] && EmitBindings([], c) == Binds([], c.sub);
    assert c.sub["y" := c.loc("x")] == map["y" := c.loc("x")];
  }

  lemma FiveThenEval(tail: R.Expr, env: R.Env, w: World, fuel: nat)
    requires hide *; R.Get(env, "x").Some?
    ensures R.EvalBlock(FiveThen(tail), env, w.rf, fuel) == R.Leave(R.Eval(tail, R.Set(env, "x", R.IntVal(5)), w.rf, fuel), |env|)
  {
    hide R.EvalElse, R.MatchAny, R.EvalGuard, R.Set, R.Get, R.RootFits, R.MatchPattern;
    var st := FiveThen(tail).stmts[0];
    var next := R.Set(env, "x", R.IntVal(5));
    assert R.Eval(st.e, env, w.rf, fuel) == R.Done(R.UnitVal, next);
    assert R.EvalStmt(st, env, w.rf, fuel) == R.Done(R.UnitVal, next);
    assert FiveThen(tail).stmts[1..] == [] && R.EvalStmts([], next, w.rf, fuel) == R.Done(R.UnitVal, next);
    assert R.EvalStmts(FiveThen(tail).stmts, env, w.rf, fuel) == R.Done(R.UnitVal, next);
  }

  lemma TailEval(e: R.Expr, env: R.Env, w: World, fuel: nat)
    ensures hide *; R.EvalBlock(R.Block([], Some(e)), env, w.rf, fuel) == R.Leave(R.Eval(e, env, w.rf, fuel), |env|)
  {
    hide R.Eval, R.EvalStmt;
    assert R.EvalStmts([], env, w.rf, fuel) == R.Done(R.UnitVal, env);
  }

  lemma MatchAliasEval(w: World, fuel: nat)
    ensures R.EvalFunction(MatchAlias(), [R.Slot("x", R.IntVal(1))], w.rf, fuel) == R.Ret(R.IntVal(1))
  {
    hide R.EvalBlock, R.EvalArms, R.Set;
    var e := MatchAlias().tail.value;
    var arm := e.arms[0];
    var e0, e9 := [R.Slot("x", R.IntVal(1))], [R.Slot("x", R.IntVal(5))];
    var y := [R.Slot("y", R.IntVal(1))];
    var e1, e2 := e0 + y, e9 + y;
    SetBelow(y[0]);
    FiveThenEval(R.Path("y"), e1, w, fuel);
    assert R.Eval(R.Path("y"), e2, w.rf, fuel) == R.Done(R.IntVal(1), e2);
    assert e2[..2] == e2 && e2[..1] == e9;
    assert R.EvalBody(arm, e1, w.rf, fuel) == R.Done(R.IntVal(1), e2);
    assert R.MatchArm(arm.pats, R.IntVal(1)) == R.Yes(y);
    UnguardedEval(e.arms, R.IntVal(1), e0, w, fuel);
    assert R.ArmsFit(e.arms, R.IntVal(1));
    assert R.Eval(R.Path("x"), e0, w.rf, fuel) == R.Done(R.IntVal(1), e0);
    MatchEval(e, e0, w, fuel);
    TailEval(e, e0, w, fuel);
  }

  lemma SetBelow(y: R.Slot)
    requires y.name == "y"
    ensures var e1 := [R.Slot("x", R.IntVal(1))] + [y];
            R.Get(e1, "x").Some? && R.Set(e1, "x", R.IntVal(5)) == [R.Slot("x", R.IntVal(5))] + [y]
  {
    var e0 := [R.Slot("x", R.IntVal(1))];
    assert (e0 + [y])[..1] == e0;
    assert R.Set(e0, "x", R.IntVal(5)) == [R.Slot("x", R.IntVal(5))];
  }

  /** The pattern variable stands for x itself, so it sees the assignment. */
  lemma MatchOnAnAssignedVariable(c: Ctx, w: World, fuel: nat)
    requires Fresh(c, {"x", "y"}, {"x"})
    ensures var b := Declaring("x", R.IntVal(1), MatchAlias());
            && R.EvalFunction(b, [], w.rf, fuel) == R.Ret(R.IntVal(1))
            && L.Run(GenFunction(b, c), [], w.lf, fuel) == L.Returned(L.IntV(5))
            && forall q: Scope :: !FitsBlock(b, q, true)
  {
    hide R.EvalFunction, GenFunction, L.Run, FitsBlock, Declaring;
    forall q: Scope ensures !FitsBlock(MatchAlias(), q, true) { MatchAliasOutside(q); }
    MatchAliasEval(w, fuel);
    MatchAliasRun(c, w, fuel);
    Declared("x", R.IntVal(1), MatchAlias(), c, w, fuel);
  }

  lemma MatchAliasRun(c: Ctx, w: World, fuel: nat)
    requires Fresh(c, {"x", "y"}, {"x"})
    ensures L.Run(GenFunction(MatchAlias(), c), [L.Binding(c.loc("x"), L.IntV(1))], w.lf, fuel) == L.Returned(L.IntV(5))
  {
    hide GenBlock, L.Update, L.Lookup, L.Eval, L.Run;
    MatchAliasCode(c);
    var x := c.loc("x");
    var s := [L.Binding(x, L.IntV(1))];
    assert s[0].name == x;
    RunAppend([L.Assign(Name(x), Integer(5))], [L.Return(Some(Name(x)))], s, w.lf, fuel);
    FiveEval(s, w.lf);
    AssignRun(x, Integer(5), s, w.lf, fuel);
    LookupUpdate(s, x, L.IntV(5), x);
    NameEval(x, L.Update(s, x, L.IntV(5)), w.lf);
    ReturnRun(Name(x), L.Update(s, x, L.IntV(5)), w.lf, fuel);
  }

  // ---- a hoisted local and an inner one of the same name ----

  /** `let x = if true { let x = 1; x } else { 0 }; x`. */
  function HoistShadow(): R.Block {
    R.Block([R.Let("x", R.If(R.Lit(R.BoolVal(true)), InnerLet(), Some(R.ElseBlock(R.Block([], Some(Int(0)))))))], Some(R.Path("x")))
  }

  function InnerLet(): R.Block {
    R.Block([R.Let("x", Int(1))], Some(R.Path("x")))
  }

  lemma InnerLetCode(c: Ctx, z: string)
    requires hide *; Fresh(c, {"x"}, {}) && z == c.loc("x")
    ensures GenBlock(InnerLet(), Var(z), c, 0) == Gen([L.Local(z, Some(Integer(1)))] + [L.Assign(Name(z), Name(z))], 0)
  {
    hide P.ElementTests, P.Retain, M.ProvenExhaustive, P.AndAll, P.FieldTests, P.OrAll, M.RootOf;
    var b := InnerLet();
    assert c.(sub := c.sub) == c;
    assert Inline(Int(1), c, 0) == GenE([], Integer(1), 0);
    assert [] + [L.Local(z, Some(Integer(1)))] == [L.Local(z, Some(Integer(1)))];
    assert GenStmt(b.stmts[0], c, 0) == GenS([L.Local(z, Some(Integer(1)))], 0, c.sub);
    assert b.stmts[1..] == [];
    assert GenStmts(b.stmts, c, 0) == GenS([L.Local(z, Some(Integer(1)))], 0, c.sub);
    assert GenTo(R.Path("x"), Var(z), c, 0) == Gen([L.Assign(Name(z), Name(z))], 0);
  }

  lemma HoistShadowCode(c: Ctx)
    requires Fresh(c, {"x"}, {})
    ensures var z := c.loc("x");
            GenFunction(HoistShadow(), c) ==
            [L.Local(z, None)] + ([L.If([L.Branch(Bool(true), [L.Local(z, Some(Integer(1)))] + [L.Assign(Name(z), Name(z))])], [L.Assign(Name(z), Integer(0))])]
            + [L.Return(Some(Name(z)))])
  {
    hide GenLoop, Removable, GenBlock, InlineArgs, GenArms, GenReturnMatch;
    var b := HoistShadow();
    var z := c.loc("x");
    var init := b.stmts[0].init;
    var branch := [L.If([L.Branch(Bool(true), [L.Local(z, Some(Integer(1)))] + [L.Assign(Name(z), Name(z))])], [L.Assign(Name(z), Integer(0))])];
    hide GenBlock, Inline;
    InnerLetCode(c, z);
    ConstantTo(0, z, c, 0);
    ElseCode(c, z);
    TrueInline(c);
    assert GenControl(init, Var(z), c, 0) == Gen([] + branch, 0);
    assert [] + branch == branch;
    assert GenStmt(b.stmts[0], c, 0) == GenS([L.Local(z, None)] + branch, 0, c.sub);
    assert b.stmts[1..] == [] && c.(sub := c.sub) == c;
    assert GenStmts(b.stmts, c, 0) == GenS([L.Local(z, None)] + branch, 0, c.sub);
    PathTo("x", c);
    BlockParts(b, c);
  }

  lemma BlockParts(b: R.Block, c: Ctx)
    requires hide *; b.tail.Some? && GenStmts(b.stmts, c, 0).sub == c.sub && GenStmts(b.stmts, c, 0).next == 0
    ensures GenFunction(b, c) == GenStmts(b.stmts, c, 0).code + GenTo(b.tail.value, ToReturn, c, 0).code
  {
    hide GenStmts, GenTo;
    assert c.(sub := c.sub) == c;
  }

  lemma TrueInline(c: Ctx)
    ensures hide *; Inline(R.Lit(R.BoolVal(true)), c, 0) == GenE([], Bool(true), 0)
  {
    hide EmitBindings, GenElse, GenTo, P.ElementTests, P.AndAll, P.FieldTests, GenLoop, GenBlock, InlineArgs, GenArms, GenReturnMatch;
  }

  lemma ElseCode(c: Ctx, z: string)
    ensures hide *; GenBlock(R.Block([], Some(Int(0))), Var(z), c, 0) == Gen([L.Assign(Name(z), Integer(0))], 0)
  {
    hide GenStmt, GenTo;
    ConstantTo(0, z, c, 0);
    assert c.(sub := c.sub) == c;
  }

  lemma HoistShadowEval(w: World, fuel: nat)
    ensures R.EvalFunction(HoistShadow(), [], w.rf, fuel) == R.Ret(R.IntVal(1))
  {
    var b := HoistShadow();
    var e1 := [R.Slot("x", R.IntVal(1))];
    assert [] + e1 == e1 && e1[..0] == [];
    assert R.EvalStmt(InnerLet().stmts[0], [], w.rf, fuel) == R.Done(R.UnitVal, e1);
    assert InnerLet().stmts[1..] == [] && R.EvalStmts([], e1, w.rf, fuel) == R.Done(R.UnitVal, e1);
    assert R.EvalStmts(InnerLet().stmts, [], w.rf, fuel) == R.Done(R.UnitVal, e1);
    assert R.Eval(R.Path("x"), e1, w.rf, fuel) == R.Done(R.IntVal(1), e1);
    assert R.EvalBlock(InnerLet(), [], w.rf, fuel) == R.Done(R.IntVal(1), []);
    assert R.Eval(b.stmts[0].init, [], w.rf, fuel) == R.Done(R.IntVal(1), []);
    assert R.EvalStmt(b.stmts[0], [], w.rf, fuel) == R.Done(R.UnitVal, e1);
    assert b.stmts[1..] == [];
    assert R.EvalStmts(b.stmts, [], w.rf, fuel) == R.Done(R.UnitVal, e1);
  }

  /** The inner local receives the value that was meant for the outer one, which stays nil. */
  lemma HoistedLocalStaysNil(c: Ctx, w: World, fuel: nat)
    requires Fresh(c, {"x"}, {})
    ensures R.EvalFunction(HoistShadow(), [], w.rf, fuel) == R.Ret(R.IntVal(1))
    ensures L.Run(GenFunction(HoistShadow(), c), [], w.lf, fuel) == L.Returned(L.NilV)
    ensures forall q: Scope :: "x" in q.mentioned ==> !FitsBlock(HoistShadow(), q, true)
  {
    hide GenBlock, R.EvalFunction, L.Update, L.Lookup, L.Eval, FitsBlock, L.Run;
    forall q: Scope | "x" in q.mentioned ensures !FitsBlock(HoistShadow(), q, true) { HoistShadowOutside(q); }
    HoistShadowEval(w, fuel);
    HoistShadowCode(c);
    var z := c.loc("x");
    var inner := [L.Local(z, Some(Integer(1)))] + [L.Assign(Name(z), Name(z))];
    var branch := L.If([L.Branch(Bool(true), inner)], [L.Assign(Name(z), Integer(0))]);
    var s1 := [] + [L.Binding(z, L.NilV)];
    var s2 := s1 + [L.Binding(z, L.IntV(1))];
    RunAppend([L.Local(z, None)], [branch] + [L.Return(Some(Name(z)))], [], w.lf, fuel);
    RunAppend([branch], [L.Return(Some(Name(z)))], s1, w.lf, fuel);
    LocalRun(z, None, [], w.lf, fuel);
    ConstantEvals(s1, w.lf);
    OneEval(s1, w.lf);
    IfRun(Bool(true), inner, [L.Assign(Name(z), Integer(0))], s1, w.lf, fuel);
    RunAppend([L.Local(z, Some(Integer(1)))], [L.Assign(Name(z), Name(z))], s1, w.lf, fuel);
    LocalRun(z, Some(Integer(1)), s1, w.lf, fuel);
    LookupAppend(s1, L.Binding(z, L.IntV(1)), z);
    LookupAppend([], L.Binding(z, L.NilV), z);
    NameEval(z, s2, w.lf);
    NameEval(z, s1, w.lf);
    assert s2[1].name == z;
    AssignRun(z, Name(z), s2, w.lf, fuel);
    UpdateTop(s1, z);
    ReturnRun(Name(z), s1, w.lf, fuel);
  }

  lemma UpdateTop(s: L.Store, z: string)
    ensures var s2 := s + [L.Binding(z, L.IntV(1))]; L.Update(s2, z, L.IntV(1))[..|s|] == s
  {
    assert (s + [L.Binding(z, L.IntV(1))])[..|s|] == s;
  }

  // ---- all of them are outside the fragment ----

  lemma ReturnIfOutside(q: Scope)
    ensures !FitsBlock(ReturnIf(), q, true)
  {
    hide InlineOnly, Fits;
    var st := ReturnIf().stmts[0];
    assert FallsElse(None) && Falls(st.result.value);
    assert !FitsStmt(st, q);
  }

  lemma AndReturnOutside(q: Scope)
    ensures !FitsBlock(AndReturn(), q, true)
  {
    hide R.MatchPattern, R.MatchAny, R.RootFits, M.ProvenExhaustive;
    var e := AndReturn().tail.value;
    assert !InlineOnly(e.rhs);
    assert !Fits(e, q, true);
    assert After([], q) == q;
  }

  lemma WhileBlockOutside(q: Scope)
    ensures !FitsBlock(WhileBlock(), q, true)
  {
    hide R.MatchPattern, R.MatchAny, R.RootFits, M.ProvenExhaustive;
    assert !InlineOnly(WhileBlock().stmts[0].cond);
    assert !FitsStmt(WhileBlock().stmts[0], q);
  }

  /** A second `let x` where x is live. */
  lemma LetAgain(b: R.Block, q: Scope, ret: bool)
    requires hide *; b.stmts != [] && b.stmts[0].Let? && b.stmts[0].name in q.live
    ensures !FitsBlock(b, q, ret)
  {
    hide InlineOnly, Fits;
    assert !FitsStmt(b.stmts[0], q);
  }

  lemma ShadowOutside(q: Scope)
    ensures !FitsBlock(Shadow(), q, true)
  {
    hide R.MatchPattern, R.MatchAny, R.RootFits, M.ProvenExhaustive, InlineReads, InlineOnly, Binders, FitsArm;
    var b := Shadow();
    var q1 := AfterOne(b.stmts[0], q);
    var inner := b.stmts[1].e;
    LetAgain(inner.block, q1, false);
    assert !Fits(inner, q1, false);
    assert !FitsStmt(b.stmts[1], q1);
    assert b.stmts[1..][0] == b.stmts[1];
    assert !FitsStmts(b.stmts[1..], q1);
  }

  lemma HoistShadowOutside(q: Scope)
    requires "x" in q.mentioned
    ensures !FitsBlock(HoistShadow(), q, true)
  {
    hide R.MatchPattern, R.MatchAny, R.RootFits, M.ProvenExhaustive, InlineReads, InlineOnly, Binders, FitsArm;
    var st := HoistShadow().stmts[0];
    LetAgain(st.init.thn, q.Bind({"x"}), false);
    assert !Fits(st.init, q.Bind({"x"}), false);
    assert !FitsStmt(st, q);
  }

  lemma MutableAliasOutside(q: Scope)
    requires "y" in q.mentioned && "y" in q.mutable && "x" !in q.mutable
    ensures !FitsBlock(MutableAlias(), q, true)
  {
    hide InlineOnly, Fits;
    var st := MutableAlias().stmts[0];
    assert Aliases(st.init, q.mutable);
    assert !FitsStmt(st, q);
  }

  /** `x = 5` where x may no longer be assigned. */
  lemma AssignsFive(tail: R.Expr, q: Scope, ret: bool)
    requires "x" !in q.may
    ensures !Fits(R.BlockExpr(FiveThen(tail)), q, ret)
  {
    hide R.MatchPattern, R.MatchAny, R.RootFits, M.ProvenExhaustive, InlineReads, InlineOnly, Binders, FitsArm;
    var st := FiveThen(tail).stmts[0];
    assert !Fits(st.e, q, false);
    assert !FitsStmt(st, q);
    assert !FitsBlock(FiveThen(tail), q, ret);
  }

  lemma LateOperandOutside(q: Scope)
    ensures !FitsBlock(LateOperand(), q, true)
  {
    var e := LateOperand().tail.value;
    AssignsFive(Int(1), q.Without({"x"}), false);
    assert InlineReads(e.lhs) == {"x"};
    assert !Fits(e, q, true);
    assert After([], q) == q;
  }

  lemma MatchAliasOutside(q: Scope)
    ensures !FitsBlock(MatchAlias(), q, true)
  {
    hide R.MatchPattern, R.MatchAny, R.RootFits, M.ProvenExhaustive;
    var e := MatchAlias().tail.value;
    var arm := e.arms[0];
    var q1 := q.Without({"x"}).Bind(Elements(ArmBinders(arm.pats)));
    AssignsFive(R.Path("y"), q1, true);
    assert !FitsArm(arm, q.Without({"x"}), true);
    assert !FitsArms(e.arms, q.Without({"x"}), true);
    assert !Fits(e, q, true);
    assert After([], q) == q;
  }

  // ---- a program inside the fragment ----

  /** `let mut s = 0; let mut i = n; while i > 0 { s = s + i; i = i - 1; } if s > 10 { Some(s) } else { None }`. */
  function Sum(): R.Block {
    var step := R.Block([
      R.ExprStmt(R.Assign(None, "s", R.Binary(R.Add, R.Path("s"), R.Path("i")))),
      R.ExprStmt(R.Assign(None, "i", R.Binary(R.Sub, R.Path("i"), Int(1))))], None);
    R.Block([R.Let("s", Int(0)), R.Let("i", R.Path("n")), R.While(R.Binary(R.Gt, R.Path("i"), Int(0)), step)],
            Some(R.If(R.Binary(R.Gt, R.Path("s"), Int(10)), R.Block([], Some(R.SomeCall(R.Path("s")))),
                      Some(R.ElseBlock(R.Block([], Some(R.Lit(R.NoneVal))))))))
  }

  /** It fits the scope of a function with the parameter n. */
  lemma SumFits()
    ensures FitsBlock(Sum(), Scope({"s", "i", "n"}, {"s", "i"}, {"n"}, {}), true)
  {
    var q := Scope({"s", "i", "n"}, {"s", "i"}, {"n"}, {});
    var q1, q2 := AfterOne(Sum().stmts[0], q), AfterOne(Sum().stmts[1], AfterOne(Sum().stmts[0], q));
    assert q1 == Scope({"s", "i", "n"}, {"s", "i"}, {"n", "s"}, {"s"});
    assert q2 == Scope({"s", "i", "n"}, {"s", "i"}, {"n", "s", "i"}, {"s", "i"});
    var stmts := Sum().stmts;
    assert FitsStmt(stmts[0], q) && FitsStmt(stmts[1], q1);
    StepFits(stmts[2].body, q2);
    Compares("i", 0, q2);
    Compares("s", 10, q2);
    assert FitsStmt(stmts[2], q2);
    hide Fits;
    assert AfterOne(stmts[2], q2) == q2;
    TailFits(Sum().tail.value, q2);
    ThreeFit(stmts, q, q1, q2);
  }

  lemma ThreeFit(stmts: seq<R.Stmt>, q: Scope, q1: Scope, q2: Scope)
    requires |stmts| == 3 && FitsStmt(stmts[0], q) && q1 == AfterOne(stmts[0], q) && FitsStmt(stmts[1], q1) && q2 == AfterOne(stmts[1], q1)
    requires FitsStmt(stmts[2], q2) && AfterOne(stmts[2], q2) == q2
    ensures FitsStmts(stmts, q) && After(stmts, q) == q2
  {
    hide FitsStmt, AfterOne;
    var b, c := stmts[1..], stmts[1..][1..];
    assert b[0] == stmts[1] && c[0] == stmts[2] && c[1..] == [];
    assert FitsStmts(c, q2) && After(c, q2) == q2;
    assert FitsStmts(b, q1) && After(b, q1) == q2;
  }

  lemma Compares(x: string, n: int, q: Scope)
    requires x in q.live && x in q.mentioned
    ensures Fits(R.Binary(R.Gt, R.Path(x), Int(n)), q, false) && InlineOnly(R.Binary(R.Gt, R.Path(x), Int(n)))
  {
  }

  lemma StepFits(b: R.Block, q: Scope)
    requires b == Sum().stmts[2].body && {"s", "i"} <= q.live && {"s", "i"} <= q.may && {"s", "i"} <= q.mentioned
    ensures FitsBlock(b, q, false)
  {
    assert Fits(b.stmts[0].e, q, false) by { assert Fits(b.stmts[0].e.rhs, q, false); }
    assert Fits(b.stmts[1].e, q, false) by { assert Fits(b.stmts[1].e.rhs, q, false); }
    hide Fits;
    assert AfterOne(b.stmts[0], q) == q && FitsStmt(b.stmts[0], q) && FitsStmt(b.stmts[1], q);
    assert b.stmts[1..][1..] == [] && FitsStmts(b.stmts[1..], q);
  }

  lemma TailFits(e: R.Expr, q: Scope)
    requires e == Sum().tail.value && "s" in q.live && "s" in q.mentioned && Fits(e.cond, q, false)
    ensures Fits(e, q, true)
  {
    assert FitsBlock(e.thn, q, true) by { assert Fits(e.thn.tail.value, q, true); }
    assert FitsElse(e.els, q, true) by { assert Fits(e.els.value.block.tail.value, q, true); }
  }
}
