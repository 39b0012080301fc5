/** Both forms of a lowered match run the arm that the source match selects. */
module LoweringMatch {
  import opened Wrappers
  import opened LuaIr
  import opened Lowering
  import opened LoweringScope
  import opened LoweringMarks
  import opened LoweringState
  import opened LoweringValues
  import opened LoweringPatterns
  import opened LoweringSteps
  import opened LoweringControl
  import opened LuaFrame
  import opened RuaFrame
  import R = RuaLang
  import L = LuaRun
  import P = PatternTests
  import M = MatchSelection
  import E = Encoding

  // ---- the flag ----

  function ArmCondition(flag: string, tests: seq<Expr>): Expr {
    var unmatched := Unary(Not, Name(flag));
    if tests == [] then unmatched else Binary(unmatched, And, Parenthesized(P.AndAll(tests)))
  }

  lemma FlagSet(flag: string, tests: seq<Expr>, s: L.Store, f: L.Functions)
    requires L.Lookup(s, flag) == Some(L.BoolV(true))
    ensures L.Eval(ArmCondition(flag, tests), s, f) == Some(L.BoolV(false))
  {
    hide L.Lookup, P.AndAll;
    SimpleEvals(flag, s, f);
    assert L.Eval(Unary(Not, Name(flag)), s, f) == Some(L.BoolV(false));
  }

  /** While no arm has run, the condition is that of the arm. */
  lemma FlagClear(flag: string, tests: seq<Expr>, s: L.Store, f: L.Functions)
    requires L.Lookup(s, flag) == Some(L.BoolV(false))
    ensures P.Passes(P.AndAll(tests), s, f) ==> P.Passes(ArmCondition(flag, tests), s, f)
    ensures P.Rejects(P.AndAll(tests), s, f) ==> P.Rejects(ArmCondition(flag, tests), s, f)
  {
    hide L.Lookup, L.Eval;
    SimpleEvals(flag, s, f);
    var unmatched := Unary(Not, Name(flag));
    assert P.Passes(unmatched, s, f);
    if tests == [] {
      P.TrueIsTrue(s, f);
    } else {
      P.ParenEvaluates(P.AndAll(tests), s, f);
      P.AndEvaluates(unmatched, Parenthesized(P.AndAll(tests)), s, f);
    }
  }

  /** The body of the Lua block of an arm. */
  ghost function ArmInside(arm: R.Arm, m: string, flag: string, d: Dest, c: Ctx, n: nat): Code {
    hide *;
    var t := P.ArmTests(arm.pats, Name(m), None, c.mentioned);
    var b := EmitBindings(t.binds, c);
    var inner := c.(sub := b.sub);
    var set_ := [L.Assign(Name(flag), Bool(true))];
    if arm.guard.None? then b.code + (set_ + GenTo(arm.body, d, inner, n).code)
    else
      var g := Inline(arm.guard.value, inner, n);
      b.code + (g.code + [When(g.e, set_ + GenTo(arm.body, d, inner, g.next).code)])
  }

  lemma ArmCode(arm: R.Arm, m: string, flag: string, d: Dest, c: Ctx, n: nat)
    ensures var t := P.ArmTests(arm.pats, Name(m), None, c.mentioned);
            GenArm(arm, m, flag, d, c, n).code == [When(ArmCondition(flag, t.tests), ArmInside(arm, m, flag, d, c, n))]
  {
    hide P.ArmTests, EmitBindings, GenTo, Inline;
  }

  /** After an arm has run, the others are skipped. */
  lemma {:induction false} SkipArms(arms: seq<R.Arm>, m: string, flag: string, d: Dest, c: Ctx, n: nat, s: L.Store, f: L.Functions, fuel: nat)
    requires L.Lookup(s, flag) == Some(L.BoolV(true))
    ensures L.Run(GenArms(arms, m, flag, d, c, n).code, s, f, fuel) == L.Normal(s)
    decreases arms
  {
    hide L.Lookup, L.Run, L.Eval, GenArm, ArmInside, ArmCondition, P.ArmTests;
    if arms == [] {
      RunNothing(s, f, fuel);
    } else {
      var a := GenArm(arms[0], m, flag, d, c, n);
      var rest := GenArms(arms[1..], m, flag, d, c, a.next);
      var tests := P.ArmTests(arms[0].pats, Name(m), None, c.mentioned).tests;
      ArmCode(arms[0], m, flag, d, c, n);
      FlagSet(flag, tests, s, f);
      WhenRun(ArmCondition(flag, tests), ArmInside(arms[0], m, flag, d, c, n), s, f, fuel);
      RunAppend(a.code, rest.code, s, f, fuel);
      SkipArms(arms[1..], m, flag, d, c, a.next, s, f, fuel);
    }
  }

  /** The statement after the arms raises the error if none of them ran. */
  function LastTest(flag: string): Code {
    [When(Unary(Not, Name(flag)), [L.Expression(ERROR_CALL)])]
  }

  lemma LastTestRun(flag: string, b: bool, s: L.Store, f: L.Functions, fuel: nat)
    requires L.Lookup(s, flag) == Some(L.BoolV(b))
    ensures L.Run(LastTest(flag), s, f, fuel) == if b then L.Normal(s) else L.Failed
  {
    hide L.Lookup, L.Run, L.Eval;
    SimpleEvals(flag, s, f);
    WhenRun(Unary(Not, Name(flag)), [L.Expression(ERROR_CALL)], s, f, fuel);
    ErrorRun(s, f, fuel);
  }

  lemma ErrorRun(s: L.Store, f: L.Functions, fuel: nat)
    ensures L.Run([L.Expression(ERROR_CALL)], s, f, fuel) == L.Failed
  {
    hide L.Run;
    ExpressionRun(ERROR_CALL, s, f, fuel);
  }

  /** The arm that ran decides the match: nothing later does anything. */
  lemma ArmDecides(arm: R.Arm, rest: seq<R.Arm>, m: string, flag: string, d: Dest, c: Ctx, n: nat, s: L.Store,
                   r: R.Result, falls: bool, w: World, fuel: nat)
    requires hide *; P.Passes(ArmCondition(flag, P.ArmTests(arm.pats, Name(m), None, c.mentioned).tests), s, w.lf)
    requires var l := L.Leave(L.Run(ArmInside(arm, m, flag, d, c, n), s, w.lf, fuel), |s|);
             && Sim(r, l, c, d, falls)
             && (l.Normal? && !r.Stuck? ==> L.Lookup(l.store, flag) == Some(L.BoolV(true)))
    ensures Sim(r, L.Run(GenArms([arm] + rest, m, flag, d, c, n).code + LastTest(flag), s, w.lf, fuel), c, d, falls)
  {
    hide L.Lookup, L.Run, L.Eval, GenArm, ArmInside, ArmCondition, LastTest, Sim, P.ArmTests;
    var tests := P.ArmTests(arm.pats, Name(m), None, c.mentioned).tests;
    var a := GenArm(arm, m, flag, d, c, n);
    var others := GenArms(rest, m, flag, d, c, a.next).code;
    assert ([arm] + rest)[0] == arm && ([arm] + rest)[1..] == rest;
    var l := L.Leave(L.Run(ArmInside(arm, m, flag, d, c, n), s, w.lf, fuel), |s|);
    ArmCode(arm, m, flag, d, c, n);
    WhenRun(ArmCondition(flag, tests), ArmInside(arm, m, flag, d, c, n), s, w.lf, fuel);
    RunAppend(a.code, others, s, w.lf, fuel);
    RunAppend(a.code + others, LastTest(flag), s, w.lf, fuel);
    if r.Stuck? {
      StuckSim(L.Run(a.code + others + LastTest(flag), s, w.lf, fuel), c, d, falls);
    } else if l.Normal? {
      SkipArms(rest, m, flag, d, c, a.next, l.store, w.lf, fuel);
      LastTestRun(flag, true, l.store, w.lf, fuel);
    }
  }

  /** An arm that did not run leaves the decision to the others. */
  lemma ArmPassesOn(arm: R.Arm, rest: seq<R.Arm>, m: string, flag: string, d: Dest, c: Ctx, n: nat, s: L.Store, s1: L.Store, w: World, fuel: nat)
    requires L.Run(GenArm(arm, m, flag, d, c, n).code, s, w.lf, fuel) == L.Normal(s1)
    ensures var n1 := GenArm(arm, m, flag, d, c, n).next;
            L.Run(GenArms([arm] + rest, m, flag, d, c, n).code + LastTest(flag), s, w.lf, fuel) ==
            L.Run(GenArms(rest, m, flag, d, c, n1).code + LastTest(flag), s1, w.lf, fuel)
  {
    hide L.Run, GenArm, LastTest;
    var a := GenArm(arm, m, flag, d, c, n);
    var others := GenArms(rest, m, flag, d, c, a.next).code;
    assert ([arm] + rest)[0] == arm && ([arm] + rest)[1..] == rest;
    assert a.code + others + LastTest(flag) == a.code + (others + LastTest(flag));
    RunAppend(a.code, others + LastTest(flag), s, w.lf, fuel);
  }

  lemma ArmRejected(arm: R.Arm, m: string, flag: string, d: Dest, c: Ctx, n: nat, s: L.Store, w: World, fuel: nat)
    requires P.Rejects(ArmCondition(flag, P.ArmTests(arm.pats, Name(m), None, c.mentioned).tests), s, w.lf)
    ensures L.Run(GenArm(arm, m, flag, d, c, n).code, s, w.lf, fuel) == L.Normal(s)
  {
    hide L.Run, L.Eval, GenArm, ArmInside, ArmCondition, P.ArmTests;
    var tests := P.ArmTests(arm.pats, Name(m), None, c.mentioned).tests;
    ArmCode(arm, m, flag, d, c, n);
    WhenRun(ArmCondition(flag, tests), ArmInside(arm, m, flag, d, c, n), s, w.lf, fuel);
  }

  // ---- inside an arm ----

  /** Storing into a temporary that nothing in scope uses. */
  lemma ReadyUpdate(a: State, i: nat, v: L.Value)
    requires Ready(a) && a.n < i && L.Bound(a.s, a.c.tmp(i))
    ensures Ready(a.(s := L.Update(a.s, a.c.tmp(i), v)))
    ensures L.Lookup(L.Update(a.s, a.c.tmp(i), v), a.c.tmp(i)) == Some(v)
  {
    hide Ready, Agree, L.Lookup, NamesApart, SubClear, SubFixed, Old;
    ReadyIsLive(a);
    var z := a.c.tmp(i);
    assert SameNames(a.env, a.env);
    AgreeUpdate(a.c, a.env, a.s, z, v, None);
    AgreeForget(a, a.env, L.Update(a.s, z, v), i);
    ReadyNext(a, a.n, a.env, L.Update(a.s, z, v));
  }

  /** The code of an arm leaves the flag and the matched value alone. */
  lemma FlagKept(code: Code, c: Ctx, q: Scope, n: nat, m: nat, d: Dest, i: nat, s: L.Store, f: L.Functions, fuel: nat)
    requires hide *; NamesApart(c) && 1 <= i <= n && d != Var(c.tmp(i)) && Bounded(code, c, q, n, m, d, c.tmp(i), Written)
    ensures var o := L.Run(code, s, f, fuel); o.Normal? ==> L.Lookup(o.store, c.tmp(i)) == L.Lookup(s, c.tmp(i))
  {
    hide NamesApart, L.Run, L.Lookup, Fixed, Old, Marks, Own;
    OldTmp(c, q, n, i);
    FixedNotOwn(c, q, n, m, c.tmp(i), Written);
    RunKeeps(code, s, f, fuel, c.tmp(i));
  }

  /** Setting the flag, then the body of the arm. */
  lemma TakenStep(s: L.Store, c: Ctx, i: nat, body: Code, r: R.Result, d: Dest, falls: bool, w: World, fuel: nat)
    requires hide *; L.Bound(s, c.tmp(i))
    requires var o := L.Run(body, L.Update(s, c.tmp(i), L.BoolV(true)), w.lf, fuel);
             Sim(r, o, c, d, falls) && (o.Normal? ==> L.Lookup(o.store, c.tmp(i)) == Some(L.BoolV(true)))
    ensures var o := L.Run([L.Assign(Name(c.tmp(i)), Bool(true))] + body, s, w.lf, fuel);
            Sim(r, o, c, d, falls) && (o.Normal? ==> L.Lookup(o.store, c.tmp(i)) == Some(L.BoolV(true)))
  {
    hide L.Run, L.Update, L.Lookup, Sim, L.Eval;
    SimpleEvals("", s, w.lf);
    AssignRun(c.tmp(i), Bool(true), s, w.lf, fuel);
    RunAppend([L.Assign(Name(c.tmp(i)), Bool(true))], body, s, w.lf, fuel);
  }

  /** What an arm that was taken has achieved when its Lua block ends. */
  lemma LeaveArm(a: State, code: Code, r: R.Result, d: Dest, falls: bool, i: nat, w: World, fuel: nat)
    requires hide *; Ready(a) && DestReady(a, d) && DeclaresNew(code, a.c, a.q, a.n) && Shape(a.env, r) && 1 <= i <= a.n
    requires var o := L.Run(code, a.s, w.lf, fuel);
             Sim(r, o, a.c, d, falls) && (o.Normal? && !r.Stuck? ==> L.Lookup(o.store, a.c.tmp(i)) == Some(L.BoolV(true)))
    ensures var l := L.Leave(L.Run(code, a.s, w.lf, fuel), |a.s|);
            Sim(r, l, a.c, d, falls) && (l.Normal? && !r.Stuck? ==> L.Lookup(l.store, a.c.tmp(i)) == Some(L.BoolV(true)))
  {
    hide L.Run, L.Lookup, Sim, Ready, DestReady, DeclaresNew, Old, Fixed;
    LeaveSim(a, code, w.lf, fuel, r, d, falls);
    OldTmp(a.c, a.q, a.n, i);
    LeaveLookup(code, a.c, a.q, a.n, a.s, w.lf, fuel, a.c.tmp(i));
  }

  // ---- entering a match ----

  /** The value and the flag get temporaries; numbering went on while the value was computed. */
  lemma MatchEntry(a: State, g: GenE, r: R.Result, w: World, fuel: nat)
    requires hide *; Ready(a) && r.Done? && Shape(a.env, r) && a.n < g.next
    requires Computes(r, L.Run(g.code, a.s, w.lf, fuel), g.e, a.c, w)
    ensures var m, flag := a.c.tmp(a.n + 1), a.c.tmp(g.next + 1);
            var o := L.Run(g.code + [L.Local(m, Some(g.e)), L.Local(flag, Some(Bool(false)))], a.s, w.lf, fuel);
            && o.Normal? && Extends(a.s, o.store)
            && Ready(a.(n := a.n + 1, env := r.env, s := o.store)) && E.Expressible(r.v)
            && L.Lookup(o.store, m) == Some(E.Enc(r.v)) && L.Lookup(o.store, flag) == Some(L.BoolV(false))
  {
    hide Ready, L.Run, L.Eval, Agree, E.Enc, E.Expressible, L.Lookup, SubClear, SubFixed, Old;
    var m, flag := a.c.tmp(a.n + 1), a.c.tmp(g.next + 1);
    var s1 := L.Run(g.code, a.s, w.lf, fuel).store;
    var s2 := s1 + [L.Binding(m, E.Enc(r.v))];
    var s3 := s2 + [L.Binding(flag, L.BoolV(false))];
    ReadyIsLive(a);
    RunAppend(g.code, [L.Local(m, Some(g.e)), L.Local(flag, Some(Bool(false)))], a.s, w.lf, fuel);
    assert [L.Local(m, Some(g.e)), L.Local(flag, Some(Bool(false)))] == [L.Local(m, Some(g.e))] + [L.Local(flag, Some(Bool(false)))];
    RunAppend([L.Local(m, Some(g.e))], [L.Local(flag, Some(Bool(false)))], s1, w.lf, fuel);
    LocalRun(m, Some(g.e), s1, w.lf, fuel);
    LocalRun(flag, Some(Bool(false)), s2, w.lf, fuel);
    SimpleEvals("", s2, w.lf);
    RunExtends(g.code, a.s, w.lf, fuel);
    AgreeWithTmp(a.c, a.q, a.n, r.env, s1, a.n + 1, E.Enc(r.v));
    AgreeWithTmp(a.c, a.q, a.n, r.env, s2, g.next + 1, L.BoolV(false));
    LookupAppend(s1, L.Binding(m, E.Enc(r.v)), m);
    LookupAppend(s2, L.Binding(flag, L.BoolV(false)), m);
    LookupAppend(s2, L.Binding(flag, L.BoolV(false)), flag);
    assert Extends(a.s, s3);
    assert SameNames(a.env, r.env) by { RShapeDone(a.env, r); }
    ReadyNext(a, a.n + 1, r.env, s3);
  }

  lemma RShapeDone(env: R.Env, r: R.Result)
    requires Shape(env, r)
    ensures r.Done? ==> SameNames(env, r.env)
  {
  }

  // ---- the chain ----

  lemma {:induction false} PatternsOf(arms: seq<R.Arm>)
    ensures |ArmPatterns(arms)| == |arms| && forall i :: 0 <= i < |arms| ==> ArmPatterns(arms)[i] == arms[i].pats
  {
    if arms != [] {
      PatternsOf(arms[1..]);
    }
  }

  lemma FitsEach(arms: seq<R.Arm>, v: R.Val, p: R.Pattern)
    requires R.ArmsFit(arms, v) && p in M.Flatten(ArmPatterns(arms))
    ensures R.RootFits(p, v)
  {
    PatternsOf(arms);
    var k := M.FlattenComesFrom(ArmPatterns(arms), p);
    var j :| 0 <= j < |arms[k].pats| && arms[k].pats[j] == p;
    assert R.RootFits(arms[k].pats[j], v);
  }

  /** A match that names a variant or a result at its root is on a value that has a tag. */
  lemma TagToCache(arms: seq<R.Arm>, v: R.Val, e: Expr, s: L.Store, f: L.Functions)
    requires R.ArmsFit(arms, v) && UsesRootTag(M.Flatten(ArmPatterns(arms)))
    requires E.Expressible(v) && L.Eval(e, s, f) == Some(E.Enc(v))
    ensures P.LuaTagOf(v).Some?
    ensures L.Eval(if UsesResultTag(M.Flatten(ArmPatterns(arms))) then P.ResultIsOk(e) else Field(e, "tag"), s, f) == P.LuaTagOf(v)
  {
    hide R.ArmsFit, E.Expressible, E.Enc, ArmPatterns, M.Flatten, L.Eval;
    var pats := M.Flatten(ArmPatterns(arms));
    if UsesResultTag(pats) {
      var i :| 0 <= i < |pats| && pats[i].ResultPat?;
      FitsEach(arms, v, pats[i]);
      P.PayloadReads(e, v, s, f);
    } else {
      var i :| 0 <= i < |pats| && M.RootOf(pats[i]).TagRoot?;
      FitsEach(arms, v, pats[i]);
      P.NoCachedTag(v, s, f);
      P.TagReads(e, None, v, s, f);
    }
  }

  lemma CacheReads(v: R.Val, tag: string, s: L.Store, f: L.Functions)
    requires P.LuaTagOf(v).Some? && L.Lookup(s, tag) == P.LuaTagOf(v)
    ensures P.CachedOk(Some(Name(tag)), v, s, f)
  {
    hide L.Eval, L.Lookup;
    NameEval(tag, s, f);
  }

  /** The chain up to its k-th branch has been passed over; the rest decides. */
  lemma ChainTake(st: L.Stmt, k: nat, s: L.Store, f: L.Functions, fuel: nat)
    requires hide *; st.If? && k <= |st.branches|
    ensures k == |st.branches| ==> L.RunIf(st, k, s, f, fuel) == L.Leave(L.Run(st.els, s, f, fuel), |s|)
    ensures k < |st.branches| && P.Passes(st.branches[k].cond, s, f) ==>
              L.RunIf(st, k, s, f, fuel) == L.Leave(L.Run(st.branches[k].body, s, f, fuel), |s|)
    ensures k < |st.branches| && P.Rejects(st.branches[k].cond, s, f) ==> L.RunIf(st, k, s, f, fuel) == L.RunIf(st, k + 1, s, f, fuel)
  {
    hide L.Eval;
    if k < |st.branches| {
      assert L.RunBranch(st.branches[k], s, f, fuel) == L.Leave(L.Run(st.branches[k].body, s, f, fuel), |s|);
    }
  }

  lemma ChainRun(branches: seq<L.Branch>, els: Code, s: L.Store, f: L.Functions, fuel: nat)
    ensures hide *; L.Run([L.If(branches, els)], s, f, fuel) == L.RunIf(L.If(branches, els), 0, s, f, fuel)
  {
    RunOne(L.If(branches, els), s, f, fuel);
  }

  // ---- an accepted match is covered ----

  lemma {:induction false} AnyNo(ps: seq<R.Pattern>, v: R.Val)
    requires R.MatchAny(ps, v).No?
    ensures forall i :: 0 <= i < |ps| ==> R.MatchPattern(ps[i], v).No?
  {
    if ps != [] {
      AnyNo(ps[1..], v);
      forall i | 0 <= i < |ps| ensures R.MatchPattern(ps[i], v).No? {
        assert i > 0 ==> ps[i] == ps[1..][i - 1];
      }
    }
  }

  /** Irrefutable payloads are enough for the arms of an accepted match to cover every value. */
  lemma IrrefutablePayloadsCover(arms: seq<R.Arm>)
    requires var pats := M.Flatten(ArmPatterns(arms));
             M.ProvenExhaustive(pats) && forall p :: p in pats ==> M.IrrefutablePayload(p)
    ensures Covers(arms)
  {
    hide M.ProvenExhaustive, M.IrrefutablePayload, M.Flatten, ArmPatterns, R.MatchPattern, R.MatchAny;
    var pats := M.Flatten(ArmPatterns(arms));
    PatternsOf(arms);
    forall v | R.ArmsFit(arms, v) && forall j :: 0 <= j < |arms| ==> R.MatchArm(arms[j].pats, v).No?
      ensures false
    {
      forall i | 0 <= i < |pats| ensures R.MatchPattern(pats[i], v).No? {
        var k := M.FlattenComesFrom(ArmPatterns(arms), pats[i]);
        var j :| 0 <= j < |arms[k].pats| && arms[k].pats[j] == pats[i];
        assert R.MatchArm(arms[k].pats, v).No?;
        if |arms[k].pats| != 1 {
          AnyNo(arms[k].pats, v);
        }
      }
      M.ExhaustiveIsSound(pats, v);
    }
  }
}
