/** Statements and blocks: what each leaves for the code after it. */
module LoweringBlocks {
  import opened Wrappers
  import opened LuaIr
  import opened Lowering
  import opened LoweringScope
  import opened LoweringMarks
  import opened LoweringState
  import opened LoweringValues
  import opened LoweringPatterns
  import opened LoweringSteps
  import opened LoweringControl
  import opened LuaFrame
  import opened RuaFrame
  import R = RuaLang
  import L = LuaRun
  import P = PatternTests
  import E = Encoding

  /** Statements leave a state that is ready for what follows, or exit. */
  ghost predicate Advances(a: State, r: R.Result, o: L.Outcome, c1: Ctx, q1: Scope, n1: nat) {
    hide *;
    if r.Done? then
      && o.Normal? && Extends(a.s, o.store) && a.n <= n1
      && Ready(State(c1, q1, n1, r.env, o.store))
      && Opens(a.env, r.env, a.q.live) && SameBelow(a.c, c1, a.q.live) && a.q.live <= q1.live
    else Exits(R.Leave(r, |a.env|), o, a.c)
  }

  lemma AdvanceNothing(a: State, w: World, fuel: nat)
    requires Ready(a)
    ensures Advances(a, R.Done(R.UnitVal, a.env), L.Run([], a.s, w.lf, fuel), a.c, a.q, a.n)
  {
    hide L.Lookup, L.Run, E.Enc, E.Expressible, Agree, Ready;
    RunNothing(a.s, w.lf, fuel);
    ReadyIsLive(a);
    hide Ready;
  }

  lemma AdvanceThen(a: State, a1: State, x: Code, y: Code, rx: R.Result, ry: R.Result, c2: Ctx, q2: Scope, n2: nat, w: World, fuel: nat)
    requires hide *; rx.Done? && Advances(a, rx, L.Run(x, a.s, w.lf, fuel), a1.c, a1.q, a1.n)
    requires a1.env == rx.env && L.Run(x, a.s, w.lf, fuel) == L.Normal(a1.s)
    requires Advances(a1, ry, L.Run(y, a1.s, w.lf, fuel), c2, q2, n2)
    requires ry.Brk? ==> Grows(rx.env, ry.env)
    ensures Advances(a, ry, L.Run(x + y, a.s, w.lf, fuel), c2, q2, n2)
  {
    hide L.Run, Ready, Agree, E.Expressible, E.Enc, L.Lookup;
    RunAppend(x, y, a.s, w.lf, fuel);
    var o := L.Run(y, a1.s, w.lf, fuel);
    if ry.Brk? {
      AgreeOut(a.env, a1.env, a.c, a1.c, a.q.live, ry.env[..|a1.env|], o.store, a1.c.brk);
      assert ry.env[..|a1.env|][..|a.env|] == ry.env[..|a.env|];
    }
  }

  lemma AdvanceExit(a: State, x: Code, y: Code, r: R.Result, c1: Ctx, q1: Scope, n1: nat, c2: Ctx, q2: Scope, n2: nat, w: World, fuel: nat)
    requires !r.Done? && Advances(a, r, L.Run(x, a.s, w.lf, fuel), c1, q1, n1)
    ensures Advances(a, r, L.Run(x + y, a.s, w.lf, fuel), c2, q2, n2)
  {
    hide L.Run, Exits, Ready;
    ExitFirst(x, y, a.s, w.lf, fuel, R.Leave(r, |a.env|), a.c);
  }

  /** An expression that exits leaves the variables alone, so nothing has to be forgotten. */
  lemma LeaveSame(env: R.Env, r: R.Result)
    requires Shape(env, r) && !r.Done?
    ensures R.Leave(r, |env|) == r
  {
    if r.Brk? {
      assert r.env[..|env|] == r.env;
    }
  }

  lemma ExitAdvances(a: State, r: R.Result, o: L.Outcome, c1: Ctx, q1: Scope, n1: nat)
    requires Shape(a.env, r) && Exits(r, o, a.c)
    ensures Advances(a, r, o, c1, q1, n1)
  {
    hide Agree, Ready, L.Lookup, E.Enc, E.Expressible;
    ExitsNotDone(r, o, a.c);
    LeaveSame(a.env, r);
  }

  // ---- blocks ----

  /** The statements, then the tail in the scope they opened. */
  lemma TailStep(a: State, x: Code, t: Code, rx: R.Result, rt: R.Result, c1: Ctx, q1: Scope, n1: nat, d: Dest, falls: bool, w: World, fuel: nat)
    requires hide L.Lookup, L.Run, E.Enc, E.Expressible, Agree, Ready; Advances(a, rx, L.Run(x, a.s, w.lf, fuel), c1, q1, n1)
    requires rx.Done? ==>
               Sim(rt, L.Run(t, L.Run(x, a.s, w.lf, fuel).store, w.lf, fuel), c1, d, falls) && Shape(rx.env, rt)
    ensures Sim(R.Leave(if rx.Done? then rt else rx, |a.env|), L.Run(x + t, a.s, w.lf, fuel), a.c, d, falls)
  {
    hide L.Run, Ready, Sim, Exits;
    if rx.Done? {
      RunAppend(x, t, a.s, w.lf, fuel);
      SimOut(a.env, rx.env, a.c, c1, a.q.live, rt, L.Run(x + t, a.s, w.lf, fuel), d, falls);
    } else {
      ExitFirst(x, t, a.s, w.lf, fuel, R.Leave(rx, |a.env|), a.c);
      ExitSim(R.Leave(rx, |a.env|), L.Run(x + t, a.s, w.lf, fuel), a.c, d, falls);
    }
  }

  /** A block without a tail has the value unit, which is nil. */
  lemma NoTail(a: State, d: Dest, w: World, fuel: nat)
    requires hide *; Ready(a) && DestReady(a, d)
    ensures Sim(R.Done(R.UnitVal, a.env), L.Run(if d.Var? then [L.Assign(Name(d.x), Nil)] else [], a.s, w.lf, fuel), a.c, d, true)
  {
    hide Ready, L.Run, Agree, L.Update, L.Lookup, L.Eval, NamesApart, SubClear, SubFixed, Old;
    ReadyIsLive(a);
    RunNothing(a.s, w.lf, fuel);
    if d.Var? {
      SimpleEvals("", a.s, w.lf);
      AssignRun(d.x, Nil, a.s, w.lf, fuel);
      AgreeUpdate(a.c, a.env, a.s, d.x, L.NilV, None);
    }
  }

  // ---- let ----

  /** The scope after `let x`. */
  function LetScopeOf(x: string, q: Scope): Scope {
    AfterOne(R.Let(x, R.Lit(R.UnitVal)), q)
  }

  lemma LetContext(a: State, x: string)
    requires hide *; Ready(a) && x !in a.q.live
    ensures var q1 := LetScopeOf(x, a.q);
            && NamesApart(a.c) && SubClear(a.c, q1) && SubFixed(a.c, q1, a.n)
            && (a.c.brk.Some? ==> Old(a.c, q1, a.n, a.c.brk.value))
            && (forall z :: Fixed(a.c, a.q, a.n, z) ==> Fixed(a.c, q1, a.n, z))
  {
    hide NamesApart, Agree, Fixed, Old;
    var q1 := LetScopeOf(x, a.q);
    forall z ensures Fixed(a.c, a.q, a.n, z) ==> Fixed(a.c, q1, a.n, z)
      ensures Old(a.c, a.q, a.n, z) ==> Old(a.c, q1, a.n, z)
    {
      FixedMonotone(a.c, a.q, a.n, q1, a.n, z);
    }
  }

  lemma OpensOne(a: State, env: R.Env, x: string, v: R.Val)
    requires Ready(a) && SameNames(a.env, env) && x !in a.q.live
    ensures Opens(a.env, env + [R.Slot(x, v)], a.q.live) && EnvLive(env + [R.Slot(x, v)], LetScopeOf(x, a.q).live)
    ensures MayBound(env + [R.Slot(x, v)], LetScopeOf(x, a.q).may)
  {
    hide Ready, Agree, R.Get;
    ReadyIsLive(a);
    hide Ready;
    var more := env + [R.Slot(x, v)];
    MayBoundSame(a.env, env, a.q.may);
    forall y | y in LetScopeOf(x, a.q).may ensures R.Get(more, y).Some? {
      GetAppend(env, R.Slot(x, v), y);
    }
    forall i | 0 <= i < |env| ensures more[i].name == a.env[i].name {
    }
  }

  /** Every live name but x is apart from x's local. */
  lemma LetApart(a: State, x: string, y: string)
    requires Ready(a) && x !in a.q.live && y in a.q.live
    ensures a.c.Res(y) != a.c.loc(x)
  {
    ResOld(a, y);
    ReadyIsLive(a);
    hide Ready;
    OldNotDeclared(a.c, a.q, a.n, a.n, a.c.Res(y));
    OwnLoc(a.c, a.q, a.n, a.n, x, a.c.loc(x), Declared);
  }

  /** The new variable's local holds its value. */
  lemma LetDelivered(a: State, x: string, v: R.Val, env: R.Env, s: L.Store)
    requires Ready(a) && x !in a.q.live && SameNames(a.env, env) && Extends(a.s, s)
    requires Agree(a.c, env, s, Some(a.c.loc(x))) && L.Lookup(s, a.c.loc(x)) == Some(E.Enc(v)) && E.Expressible(v)
    ensures Ready(State(a.c, LetScopeOf(x, a.q), a.n, env + [R.Slot(x, v)], s))
    ensures Opens(a.env, env + [R.Slot(x, v)], a.q.live)
  {
    hide E.Enc, E.Expressible, E.EncFields, E.EncAll;
    LetContext(a, x);
    OpensOne(a, env, x, v);
    ReadyIsLive(a);
    var more := env + [R.Slot(x, v)];
    assert Agree(a.c, more, s, None) by {
      hide Ready, E.Enc, E.Expressible, L.Lookup, Fixed, NamesApart, SubFixed;
      forall y | R.Get(more, y).Some? && y in a.c.mentioned
        ensures Holds(a.c, more, s, y)
      {
        GetAppend(env, R.Slot(x, v), y);
        if y != x {
          LiveName(env, a.env, a.q.live, y);
          LetApart(a, x, y);
          assert Holds(a.c, env, s, y);
        } else {
          assert x !in a.c.sub;
        }
      }
    }
    if a.c.brk.Some? {
      ExtendsBound(a.s, s, a.c.brk.value);
    }
  }

  /** `local x = e` after e's own statements. */
  lemma LetLocal(a: State, x: string, v: R.Val)
    requires Ready(a) && x !in a.q.live && E.Expressible(v)
    ensures Ready(State(a.c, LetScopeOf(x, a.q), a.n, a.env + [R.Slot(x, v)], a.s + [L.Binding(a.c.loc(x), E.Enc(v))]))
    ensures Opens(a.env, a.env + [R.Slot(x, v)], a.q.live)
  {
    hide L.Lookup, E.Enc, E.Expressible, Ready;
    var new_ := L.Binding(a.c.loc(x), E.Enc(v));
    var s := a.s + [new_];
    LookupAppend(a.s, new_, a.c.loc(x));
    ReadyIsLive(a);
    assert Agree(a.c, a.env, s, Some(a.c.loc(x))) by {
      hide Ready, E.Enc, E.Expressible, L.Lookup, Fixed, NamesApart, SubFixed;
      forall y | R.Get(a.env, y).Some? && y in a.c.mentioned && a.c.Res(y) != a.c.loc(x)
        ensures Holds(a.c, a.env, s, y)
      {
        assert Holds(a.c, a.env, a.s, y);
        LookupAppend(a.s, new_, a.c.Res(y));
      }
    }
    hide Ready, L.Lookup;
    assert Extends(a.s, s) && SameNames(a.env, a.env);
    LetDelivered(a, x, v, a.env, s);
  }

  /** A variable nothing mentions needs no local. */
  lemma LetUnused(a: State, x: string, v: R.Val)
    requires Ready(a) && x !in a.q.live && x !in a.c.mentioned
    ensures Ready(State(a.c, LetScopeOf(x, a.q), a.n, a.env + [R.Slot(x, v)], a.s))
    ensures Opens(a.env, a.env + [R.Slot(x, v)], a.q.live)
  {
    LetContext(a, x);
    assert SameNames(a.env, a.env);
    OpensOne(a, a.env, x, v);
    ReadyIsLive(a);
    var more := a.env + [R.Slot(x, v)];
    assert Agree(a.c, more, a.s, None) by {
      hide Ready, E.Enc, E.Expressible, L.Lookup, Fixed, NamesApart, SubFixed;
      forall y | R.Get(more, y).Some? && y in a.c.mentioned
        ensures Holds(a.c, more, a.s, y)
      {
        GetAppend(a.env, R.Slot(x, v), y);
        assert Holds(a.c, a.env, a.s, y);
      }
    }
  }

  /** A variable that stands for another Lua name. */
  lemma LetAlias(a: State, x: string, z: string, v: R.Val)
    requires Ready(a) && x !in a.q.live && x !in a.q.mutable && Fixed(a.c, a.q, a.n, z)
    requires L.Lookup(a.s, z) == Some(E.Enc(v)) && E.Expressible(v)
    ensures var c1 := a.c.(sub := a.c.sub[x := z]);
            && Ready(State(c1, LetScopeOf(x, a.q), a.n, a.env + [R.Slot(x, v)], a.s))
            && Opens(a.env, a.env + [R.Slot(x, v)], a.q.live) && SameBelow(a.c, c1, a.q.live)
  {
    hide E.Enc, E.Expressible, E.EncFields, E.EncAll;
    var c1, q1 := a.c.(sub := a.c.sub[x := z]), LetScopeOf(x, a.q);
    LetContext(a, x);
    assert SameNames(a.env, a.env);
    OpensOne(a, a.env, x, v);
    ReadyIsLive(a);
    SameNaming(a.c, c1);
    assert SubFixed(c1, q1, a.n) by {
      hide Ready, Agree, NamesApart, Old, Fixed;
      forall y | y in c1.sub ensures Fixed(c1, q1, a.n, c1.sub[y]) {
        OldSameNaming(a.c, c1, q1, a.n, c1.sub[y]);
      }
    }
    var more := a.env + [R.Slot(x, v)];
    assert Agree(c1, more, a.s, None) by {
      hide Ready, E.Enc, E.Expressible, L.Lookup, Fixed, NamesApart, SubFixed, SubClear;
      forall y | R.Get(more, y).Some? && y in a.c.mentioned
        ensures Holds(c1, more, a.s, y)
      {
        GetAppend(a.env, R.Slot(x, v), y);
        if y != x {
          assert Holds(a.c, a.env, a.s, y);
        }
      }
    }
    if a.c.brk.Some? {
      OldSameNaming(a.c, c1, q1, a.n, a.c.brk.value);
    }
  }

  lemma SameBelowSelf(c: Ctx, live: set<string>)
    ensures SameBelow(c, c, live)
  {
  }

  lemma LetGrows(x: string, q: Scope)
    ensures q.live <= LetScopeOf(x, q).live
  {
  }

  /** The plain `let`: the initializer's value goes into a new local. */
  lemma LetStep(a: State, x: string, g: GenE, r: R.Result, w: World, fuel: nat)
    requires hide *; Ready(a) && x !in a.q.live && Shape(a.env, r) && a.n <= g.next
    requires Computes(r, L.Run(g.code, a.s, w.lf, fuel), g.e, a.c, w)
    ensures Advances(a, if r.Done? then R.Done(R.UnitVal, r.env + [R.Slot(x, r.v)]) else r,
                     L.Run(g.code + [L.Local(a.c.loc(x), Some(g.e))], a.s, w.lf, fuel), a.c, LetScopeOf(x, a.q), g.next)
  {
    hide Ready, L.Run, L.Eval, Agree, E.Enc, E.Expressible, Opens, SameBelow, Exits, Shape;
    var st := [L.Local(a.c.loc(x), Some(g.e))];
    RunAppend(g.code, st, a.s, w.lf, fuel);
    if r.Done? {
      var s1 := L.Run(g.code, a.s, w.lf, fuel).store;
      NextOperand(a, r, g, w, fuel);
      var a1 := a.(n := g.next, env := r.env, s := s1);
      LocalRun(a.c.loc(x), Some(g.e), s1, w.lf, fuel);
      LetLocal(a1, x, r.v);
      OpensFrom(a, r, x);
      SameBelowSelf(a.c, a.q.live);
      LetGrows(x, a.q);
    } else {
      ExitFirst(g.code, st, a.s, w.lf, fuel, r, a.c);
      ExitAdvances(a, r, L.Run(g.code + st, a.s, w.lf, fuel), a.c, LetScopeOf(x, a.q), g.next);
    }
  }

  lemma OpensFrom(a: State, r: R.Result, x: string)
    requires hide *; Ready(a) && r.Done? && Shape(a.env, r) && x !in a.q.live
    ensures Opens(a.env, r.env + [R.Slot(x, r.v)], a.q.live)
  {
    hide Ready;
    OpensOne(a, r.env, x, r.v);
  }

  /** The hoisted `let`: the local is declared first and then delivered to. */
  lemma ReadyHoisted(a: State, x: string)
    requires Ready(a) && x !in a.q.live
    ensures var a0 := State(a.c, a.q.Bind({x}), a.n, a.env, a.s + [L.Binding(a.c.loc(x), L.NilV)]);
            Ready(a0) && DestReady(a0, Var(a.c.loc(x)))
  {
    hide E.Enc, E.Expressible, E.EncFields, E.EncAll;
    ReadyIsLive(a);
    var new_ := L.Binding(a.c.loc(x), L.NilV);
    var s0, q0 := a.s + [new_], a.q.Bind({x});
    assert s0[|a.s|].name == a.c.loc(x);
    OldLoc(a.c, q0, a.n, x);
    assert Extends(a.s, s0);
    forall z ensures Fixed(a.c, a.q, a.n, z) ==> Fixed(a.c, q0, a.n, z)
      ensures Old(a.c, a.q, a.n, z) ==> Old(a.c, q0, a.n, z)
    {
      FixedMonotone(a.c, a.q, a.n, q0, a.n, z);
    }
    if a.c.brk.Some? {
      ExtendsBound(a.s, s0, a.c.brk.value);
    }
    assert Agree(a.c, a.env, s0, None) by {
      hide Ready, E.Enc, E.Expressible, L.Lookup, Fixed, NamesApart, SubFixed, SubClear, Old;
      forall y | R.Get(a.env, y).Some? && y in a.c.mentioned
        ensures Holds(a.c, a.env, s0, y)
      {
        assert Holds(a.c, a.env, a.s, y);
        assert SameNames(a.env, a.env);
        LiveName(a.env, a.env, a.q.live, y);
        LetApart(a, x, y);
        LookupAppend(a.s, new_, a.c.Res(y));
      }
    }
  }

  lemma HoistedLet(a: State, x: string, code: Code, n1: nat, r: R.Result, falls: bool, w: World, fuel: nat)
    requires hide *; Ready(a) && x !in a.q.live && Shape(a.env, r) && a.n <= n1
    requires Sim(r, L.Run(code, a.s + [L.Binding(a.c.loc(x), L.NilV)], w.lf, fuel), a.c, Var(a.c.loc(x)), falls)
    ensures Advances(a, if r.Done? then R.Done(R.UnitVal, r.env + [R.Slot(x, r.v)]) else r,
                     L.Run([L.Local(a.c.loc(x), None)] + code, a.s, w.lf, fuel), a.c, LetScopeOf(x, a.q), n1)
  {
    hide Ready, L.Run, L.Eval, Agree, E.Enc, E.Expressible, L.Lookup, Opens, SameBelow, Exits;
    var s0 := a.s + [L.Binding(a.c.loc(x), L.NilV)];
    RunAppend([L.Local(a.c.loc(x), None)], code, a.s, w.lf, fuel);
    LocalRun(a.c.loc(x), None, a.s, w.lf, fuel);
    var o := L.Run(code, s0, w.lf, fuel);
    if r.Done? {
      RunExtends(code, s0, w.lf, fuel);
      assert Extends(a.s, s0);
      assert Extends(a.s, o.store);
      ReadyMore(a, n1);
      LetDelivered(a.(n := n1), x, r.v, r.env, o.store);
      SameBelowSelf(a.c, a.q.live);
      LetGrows(x, a.q);
    } else {
      ExitAdvances(a, r, o, a.c, LetScopeOf(x, a.q), n1);
    }
  }

  /** Temporaries may be skipped. */
  lemma ReadyMore(a: State, n1: nat)
    requires Ready(a) && a.n <= n1
    ensures Ready(a.(n := n1))
  {
    ReadyIsLive(a);
    hide Ready;
    assert SameNames(a.env, a.env) && Extends(a.s, a.s);
    ReadyNext(a, n1, a.env, a.s);
  }

  /** A dropped or discarded initializer of a variable nothing mentions. */
  lemma DiscardedLet(a: State, x: string, code: Code, n1: nat, r: R.Result, falls: bool, w: World, fuel: nat)
    requires hide *; Ready(a) && x !in a.q.live && x !in a.c.mentioned && Shape(a.env, r) && a.n <= n1
    requires Sim(r, L.Run(code, a.s, w.lf, fuel), a.c, Discard, falls)
    ensures Advances(a, if r.Done? then R.Done(R.UnitVal, r.env + [R.Slot(x, r.v)]) else r,
                     L.Run(code, a.s, w.lf, fuel), a.c, LetScopeOf(x, a.q), n1)
  {
    hide Ready, L.Run, Agree, E.Enc, E.Expressible, L.Lookup, Opens, SameBelow, Exits, Shape;
    var o := L.Run(code, a.s, w.lf, fuel);
    if r.Done? {
      RunExtends(code, a.s, w.lf, fuel);
      assert SameNames(a.env, r.env) by { ShapeDone(a.env, r); }
      ReadyNext(a, n1, r.env, o.store);
      LetUnused(a.(n := n1, env := r.env, s := o.store), x, r.v);
      OpensFrom(a, r, x);
      SameBelowSelf(a.c, a.q.live);
      LetGrows(x, a.q);
    } else {
      ExitAdvances(a, r, o, a.c, LetScopeOf(x, a.q), n1);
    }
  }

  lemma ShapeDone(env: R.Env, r: R.Result)
    requires Shape(env, r)
    ensures r.Done? ==> SameNames(env, r.env)
  {
  }

  // ---- `let x = e?` ----

  function LetResult(r: R.Result, x: string): R.Result {
    if r.Done? then R.Done(R.UnitVal, r.env + [R.Slot(x, r.v)]) else r
  }

  /** On a result: a temporary keeps it, and the payload becomes the local. */
  lemma LetTryResult(a: State, x: string, g: GenE, r: R.Result, w: World, fuel: nat)
    requires hide *; Ready(a) && x !in a.q.live && Shape(a.env, r) && a.n <= g.next
    requires Computes(r, L.Run(g.code, a.s, w.lf, fuel), g.e, a.c, w)
    ensures var t := a.c.tmp(g.next + 1);
            var code := g.code + [L.Local(t, Some(g.e))] + [TryTest(t, true)] + [L.Local(a.c.loc(x), Some(TryPayload(t, true)))];
            Advances(a, LetResult(TryResult(r, true), x), L.Run(code, a.s, w.lf, fuel), a.c, LetScopeOf(x, a.q), g.next + 1)
  {
    hide Ready, L.Run, TryTest, TryPayload, Computes, Advances, Shape;
    var t := a.c.tmp(g.next + 1);
    var code := g.code + [L.Local(t, Some(g.e))] + [TryTest(t, true)];
    TryStep(a, g, r, true, w, fuel);
    assert Shape(a.env, TryResult(r, true)) by { TryShape(a.env, r, true); }
    LetStep(a, x, GenE(code, TryPayload(t, true), g.next + 1), TryResult(r, true), w, fuel);
  }

  lemma TryShape(env: R.Env, r: R.Result, isResult: bool)
    requires Shape(env, r)
    ensures Shape(env, TryResult(r, isResult))
  {
  }

  /** On an option: the local itself is tested, since `Some(v)` and v look the same. */
  lemma LetTryOption(a: State, x: string, g: GenE, r: R.Result, w: World, fuel: nat)
    requires Ready(a) && x !in a.q.live && Shape(a.env, r) && a.n <= g.next
    requires Computes(r, L.Run(g.code, a.s, w.lf, fuel), g.e, a.c, w)
    ensures var z := a.c.loc(x);
            var code := g.code + [L.Local(z, Some(g.e))] + [TryTest(z, false)];
            Advances(a, LetResult(TryResult(r, false), x), L.Run(code, a.s, w.lf, fuel), a.c, LetScopeOf(x, a.q), g.next)
  {
    hide Ready, L.Run, L.Eval, Agree, E.Enc, E.Expressible, L.Lookup, Opens, SameBelow, TryTest, Exits;
    var z := a.c.loc(x);
    var first := g.code + [L.Local(z, Some(g.e))];
    var all := L.Run(first + [TryTest(z, false)], a.s, w.lf, fuel);
    RunAppend(g.code, [L.Local(z, Some(g.e))], a.s, w.lf, fuel);
    RunAppend(first, [TryTest(z, false)], a.s, w.lf, fuel);
    if r.Done? {
      NextOperand(a, r, g, w, fuel);
      var s1 := L.Run(g.code, a.s, w.lf, fuel).store;
      var a1 := a.(n := g.next, env := r.env, s := s1);
      LocalRun(z, Some(g.e), s1, w.lf, fuel);
      var s2 := s1 + [L.Binding(z, E.Enc(r.v))];
      LookupAppend(s1, L.Binding(z, E.Enc(r.v)), z);
      TryTestRun(z, false, r.v, r.env, s2, w, fuel);
      if r.v.SomeVal? {
        SomePayload(r.v);
        LetLocal(a1, x, r.v.payload);
        OpensOne(a, r.env, x, r.v.payload);
        SameBelowSelf(a.c, a.q.live);
        LetGrows(x, a.q);
        assert Extends(a.s, s2);
      } else if r.v.NoneVal? {
        ReturnExits(r.v, all, a.c);
        ExitAdvances(a, R.Ret(r.v), all, a.c, LetScopeOf(x, a.q), g.next);
      } else {
        StuckExits(all, a.c);
      }
    } else {
      ComputesExits(r, L.Run(g.code, a.s, w.lf, fuel), g.e, a.c, w);
      ExitFirst(g.code, [L.Local(z, Some(g.e))], a.s, w.lf, fuel, r, a.c);
      ExitFirst(first, [TryTest(z, false)], a.s, w.lf, fuel, r, a.c);
      ExitAdvances(a, r, all, a.c, LetScopeOf(x, a.q), g.next);
    }
  }

  lemma ReturnExits(v: R.Val, o: L.Outcome, c: Ctx)
    requires o == L.Returned(E.Enc(v)) && E.Expressible(v)
    ensures Exits(R.Ret(v), o, c)
  {
    hide L.Lookup, E.Enc, E.Expressible, Agree;
  }

  lemma StuckExits(o: L.Outcome, c: Ctx)
    ensures Exits(R.Stuck, o, c)
  {
    hide L.Lookup, E.Enc, E.Expressible, Agree;
  }

  /** On an immutable variable: after the test, x simply stands for it. */
  lemma LetTryAlias(a: State, x: string, p: string, w: World, fuel: nat)
    requires Ready(a) && x !in a.q.live && x !in a.q.mutable && p in a.q.live && p in a.c.mentioned && p !in a.q.may
    ensures var z := a.c.Res(p);
            Advances(a, LetResult(TryResult(R.FromOption(R.Get(a.env, p), a.env), false), x),
                     L.Run([] + [When(Binary(Name(z), Eq, Nil), [L.Return(Some(Nil))])], a.s, w.lf, fuel),
                     a.c.(sub := a.c.sub[x := z]), LetScopeOf(x, a.q), a.n)
  {
    hide Ready, L.Run, L.Eval, E.Enc, E.Expressible, L.Lookup, Opens, SameBelow, Fixed, Exits;
    var z := a.c.Res(p);
    var r := R.FromOption(R.Get(a.env, p), a.env);
    var code := [When(Binary(Name(z), Eq, Nil), [L.Return(Some(Nil))])];
    assert [] + code == code && code == [TryTest(z, false)];
    var all := L.Run(code, a.s, w.lf, fuel);
    if r.Done? {
      VariableHolds(a, p);
      ResOld(a, p);
      TryTestRun(z, false, r.v, a.env, a.s, w, fuel);
      if r.v.SomeVal? {
        SomePayload(r.v);
        LetAlias(a, x, z, r.v.payload);
        LetGrows(x, a.q);
        assert Extends(a.s, a.s);
      } else if r.v.NoneVal? {
        ReturnExits(r.v, all, a.c);
        ExitAdvances(a, R.Ret(r.v), all, a.c, LetScopeOf(x, a.q), a.n);
      } else {
        StuckExits(all, a.c);
      }
    } else {
      StuckExits(all, a.c);
    }
  }

  // ---- the other statements ----

  lemma DiscardAdvances(a: State, code: Code, n1: nat, r: R.Result, falls: bool, w: World, fuel: nat)
    requires hide *; Ready(a) && Shape(a.env, r) && a.n <= n1
    requires Sim(r, L.Run(code, a.s, w.lf, fuel), a.c, Discard, falls)
    ensures Advances(a, if r.Done? then R.Done(R.UnitVal, r.env) else r, L.Run(code, a.s, w.lf, fuel), a.c, a.q, n1)
  {
    hide L.Run, Agree, E.Enc, E.Expressible, L.Lookup, Exits, NamesApart, SubClear, SubFixed, Old;
    var o := L.Run(code, a.s, w.lf, fuel);
    if r.Done? {
      RunExtends(code, a.s, w.lf, fuel);
      ReadyNext(a, n1, r.env, o.store);
    } else {
      ExitAdvances(a, r, o, a.c, a.q, n1);
    }
  }

  lemma DoRun(body: Code, s: L.Store, f: L.Functions, fuel: nat)
    ensures hide *; L.Run([L.Do(body)], s, f, fuel) == L.Leave(L.Run(body, s, f, fuel), |s|)
  {
    RunOne(L.Do(body), s, f, fuel);
  }

  /** `return e` where e has a value on every path. */
  lemma ReturnStep(a: State, code: Code, n1: nat, r: R.Result, w: World, fuel: nat)
    requires hide *; Ready(a) && Shape(a.env, r) && DeclaresNew(code, a.c, a.q, a.n)
    requires Sim(r, L.Run(code, a.s, w.lf, fuel), a.c, ToReturn, false)
    ensures Advances(a, if r.Done? then R.Ret(r.v) else r, L.Run([L.Do(code)], a.s, w.lf, fuel), a.c, a.q, n1)
  {
    hide L.Run, Agree, Ready, DeclaresNew, L.Lookup, E.Enc, E.Expressible;
    DoRun(code, a.s, w.lf, fuel);
    if !r.Done? {
      LeaveExits(a, code, w.lf, fuel, r);
      ExitAdvances(a, r, L.Run([L.Do(code)], a.s, w.lf, fuel), a.c, a.q, n1);
    }
  }

  lemma ReturnUnit(a: State, n1: nat, w: World, fuel: nat)
    ensures Advances(a, R.Ret(R.UnitVal), L.Run([L.Do([L.Return(None)])], a.s, w.lf, fuel), a.c, a.q, n1)
  {
    hide Ready, Agree, L.EvalBinary, L.ForValues, L.Run, E.EncFields, L.Store1, R.FieldOf, L.Lookup, E.EncAll;
    DoRun([L.Return(None)], a.s, w.lf, fuel);
    RunOne(L.Return(None), a.s, w.lf, fuel);
    hide L.Run;
  }

  /** `break`: the value has gone to the loop's variable, if the loop has one. */
  lemma BreakStep(a: State, code: Code, n1: nat, r: R.Result, w: World, fuel: nat)
    requires hide *; Ready(a) && Shape(a.env, r)
    requires Sim(r, L.Run(code, a.s, w.lf, fuel), a.c, if a.c.brk.Some? then Var(a.c.brk.value) else Discard, true)
    ensures Advances(a, if r.Done? then R.Brk(r.v, r.env) else r, L.Run(code + [L.Break], a.s, w.lf, fuel), a.c, a.q, n1)
  {
    hide L.Run, Agree, Ready, E.Enc, E.Expressible, L.Lookup;
    RunAppend(code, [L.Break], a.s, w.lf, fuel);
    if r.Done? {
      BreakRun(L.Run(code, a.s, w.lf, fuel).store, w.lf, fuel);
      assert r.env[..|a.env|] == r.env;
    } else {
      ExitAdvances(a, r, L.Run(code + [L.Break], a.s, w.lf, fuel), a.c, a.q, n1);
    }
  }

  lemma BreakRun(s: L.Store, f: L.Functions, fuel: nat)
    ensures L.Run([L.Break], s, f, fuel) == L.Broke(s)
  {
    RunOne(L.Break, s, f, fuel);
  }
}
