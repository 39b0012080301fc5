/** Branches, scopes, assignments and loops: from correct parts to a correct whole. */
module LoweringControl {
  import opened Wrappers
  import opened LuaIr
  import opened Lowering
  import opened LoweringScope
  import opened LoweringMarks
  import opened LoweringState
  import opened LoweringValues
  import opened LoweringPatterns
  import opened LoweringSteps
  import opened LuaFrame
  import opened RuaFrame
  import R = RuaLang
  import L = LuaRun
  import P = PatternTests
  import E = Encoding

  // ---- leaving a source scope ----

  /** The names of c2 that were live before its scope mean the same in c. */
  ghost predicate SameBelow(c: Ctx, c2: Ctx, live: set<string>) {
    && c2.mentioned == c.mentioned && c2.brk == c.brk
    && forall y :: y in live ==> c2.Res(y) == c.Res(y)
  }

  /** `more` is env and then variables that were not live. */
  ghost predicate Opens(env: R.Env, more: R.Env, live: set<string>) {
    EnvLive(env, live) && Grows(env, more) && forall i :: |env| <= i < |more| ==> more[i].name !in live
  }

  lemma AgreeOut(env: R.Env, more: R.Env, c: Ctx, c2: Ctx, live: set<string>, after: R.Env, s: L.Store, except: Option<string>)
    requires hide Agree; Opens(env, more, live) && SameBelow(c, c2, live) && SameNames(more, after)
    requires Agree(c2, after, s, except)
    ensures Agree(c, after[..|env|], s, except) && SameNames(env, after[..|env|])
  {
    hide E.Enc, E.Expressible, L.Lookup;
    var out := after[..|env|];
    forall x | R.Get(out, x).Some? && x in c.mentioned && except != Some(c.Res(x))
      ensures Holds(c, out, s, x)
    {
      assert SameNames(env, out);
      LiveName(out, env, live, x);
      forall i | |env| <= i < |after| ensures after[i].name != x {
        assert after[i].name == more[i].name;
      }
      GetPrefix(after, |env|, x);
      assert Holds(c2, after, s, x);
    }
  }

  lemma SimOut(env: R.Env, more: R.Env, c: Ctx, c2: Ctx, live: set<string>, r: R.Result, o: L.Outcome, d: Dest, falls: bool)
    requires hide *; Opens(env, more, live) && SameBelow(c, c2, live) && Shape(more, r)
    requires Sim(r, o, c2, d, falls)
    ensures Sim(R.Leave(r, |env|), o, c, d, falls)
  {
    hide Agree, E.Enc, E.Expressible, L.Lookup, Opens, SameBelow;
    if r.Done? && (d.Discard? || d.Var?) {
      AgreeOut(env, more, c, c2, live, r.env, o.store, if d.Var? then Some(d.x) else None);
    } else if r.Brk? {
      SameBrk(c, c2, live);
      AgreeOut(env, more, c, c2, live, r.env, o.store, c.brk);
    }
    OpensLength(env, more, live);
  }

  lemma OpensLength(env: R.Env, more: R.Env, live: set<string>)
    requires Opens(env, more, live)
    ensures |env| <= |more|
  {
  }

  lemma SameBrk(c: Ctx, c2: Ctx, live: set<string>)
    requires SameBelow(c, c2, live)
    ensures c2.brk == c.brk
  {
  }

  // ---- if ----

  lemma IfStep(a: State, g: GenE, t: Code, e: Code, d: Dest, rc: R.Result, rt: R.Result, re: R.Result, falls: bool, w: World, fuel: nat)
    requires hide L.Eval, L.Lookup, L.Run, E.Enc, E.Expressible, SomeMarks, Agree, Ready;
             Ready(a) && DestReady(a, d) && a.n <= g.next && Shape(a.env, rc)
    requires Computes(rc, L.Run(g.code, a.s, w.lf, fuel), g.e, a.c, w)
    requires rc.Done? && rc.v.BoolVal? ==>
               var s1 := L.Run(g.code, a.s, w.lf, fuel).store;
               && (rc.v.b ==> Sim(rt, L.Run(t, s1, w.lf, fuel), a.c, d, falls) && Shape(rc.env, rt))
               && (!rc.v.b ==> Sim(re, L.Run(e, s1, w.lf, fuel), a.c, d, falls) && Shape(rc.env, re))
    requires DeclaresNew(t, a.c, a.q, g.next) && DeclaresNew(e, a.c, a.q, g.next)
    ensures Sim(if !rc.Done? then rc else if !rc.v.BoolVal? then R.Stuck else if rc.v.b then rt else re,
                L.Run(g.code + [L.If([L.Branch(g.e, t)], e)], a.s, w.lf, fuel), a.c, d, falls)
  {
    hide Ready, L.Run, L.Eval, Agree, E.Expressible, L.Lookup, DeclaresNew, DestReady, Sim;
    var st := L.If([L.Branch(g.e, t)], e);
    RunAppend(g.code, [st], a.s, w.lf, fuel);
    if rc.Done? {
      if rc.v.BoolVal? {
        NextOperand(a, rc, g, w, fuel);
        var s1 := L.Run(g.code, a.s, w.lf, fuel).store;
        var a1 := a.(n := g.next, env := rc.env, s := s1);
        DestNext(a, g.next, rc.env, s1, d);
        IfRun(g.e, t, e, s1, w.lf, fuel);
        LeaveSim(a1, if rc.v.b then t else e, w.lf, fuel, if rc.v.b then rt else re, d, falls);
      } else {
        StuckSim(L.Run(g.code + [st], a.s, w.lf, fuel), a.c, d, falls);
      }
    } else {
      ComputesExits(rc, L.Run(g.code, a.s, w.lf, fuel), g.e, a.c, w);
      ExitFirst(g.code, [st], a.s, w.lf, fuel, rc, a.c);
      ExitSim(rc, L.Run(g.code + [st], a.s, w.lf, fuel), a.c, d, falls);
    }
  }

  lemma StuckSim(o: L.Outcome, c: Ctx, d: Dest, falls: bool)
    ensures Sim(R.Stuck, o, c, d, falls)
  {
    hide L.Lookup, E.Enc, E.Expressible, Agree;
  }

  lemma ExitSim(r: R.Result, o: L.Outcome, c: Ctx, d: Dest, falls: bool)
    requires Exits(r, o, c)
    ensures Sim(r, o, c, d, falls)
  {
    hide L.Lookup, E.Enc, E.Expressible, Agree;
  }

  // ---- the subject of patterns ----

  /** The Lua variable that patterns are tested on holds the value, and nothing changes it. */
  ghost predicate SubjectReady(a: State, s: GenE, r: R.Result, w: World, fuel: nat) {
    hide *;
    var o := L.Run(s.code, a.s, w.lf, fuel);
    if r.Done? then
      && o.Normal? && Extends(a.s, o.store) && a.n <= s.next
      && s.e.Name? && Fixed(a.c, a.q, s.next, s.e.id) && E.Expressible(r.v)
      && L.Eval(s.e, o.store, w.lf) == Some(E.Enc(r.v))
      && Ready(a.(n := s.next, env := r.env, s := o.store))
    else Exits(r, o, a.c)
  }

  lemma SubjectStep(a: State, e: R.Expr, asIs: bool, r: R.Result, w: World, fuel: nat)
    requires hide *; Ready(a) && Shape(a.env, r) && (asIs ==> e.Path? && e.name in a.q.live && e.name !in a.q.may)
    requires var g := Inline(e, a.c, a.n); Computes(r, L.Run(g.code, a.s, w.lf, fuel), g.e, a.c, w)
    ensures SubjectReady(a, Subject(Inline(e, a.c, a.n), asIs, a.c), r, w, fuel)
  {
    hide Ready, L.Run, L.Eval, Agree, E.Enc, E.Expressible, L.Lookup, Fixed, Exits, GenArms, GenStmts, EmitBindings, GenElse, GenTo,
      GenReturnBody, P.Alternatives, P.ElementTests, P.Retain, P.AndAll, P.FieldTests, P.OrAll;
    var g := Inline(e, a.c, a.n);
    if r.Done? {
      if asIs {
        ResOld(a, e.name);
        NextOperand(a, r, g, w, fuel);
      } else {
        KeepStep(a, g, r, w, fuel);
        var t := a.c.tmp(g.next + 1);
        OldTmp(a.c, a.q, g.next + 1, g.next + 1);
        NameEval(t, L.Run(g.code + [L.Local(t, Some(g.e))], a.s, w.lf, fuel).store, w.lf);
      }
    } else if !asIs {
      KeepExits(a, g, a.c.tmp(g.next + 1), r, w, fuel);
    }
  }

  // ---- if let ----

  /** The branch of a pattern that matched: bindings, then the body, in a scope of its own. */
  lemma BoundBody(a: State, names: seq<string>, slots: seq<R.Slot>, b: Binds, body: Code, d: Dest, r: R.Result, falls: bool, w: World, fuel: nat)
    requires hide *; Ready(a) && NewBinders(names, a.q) && SlotNames(slots) == names
    requires var o := L.Run(b.code, a.s, w.lf, fuel);
             && o.Normal?
             && Sim(r, L.Run(body, o.store, w.lf, fuel), a.c.(sub := b.sub), d, falls)
             && SameBelow(a.c, a.c.(sub := b.sub), a.q.live)
    requires Shape(a.env + slots, r)
    ensures Sim(R.Leave(r, |a.env|), L.Run(b.code + body, a.s, w.lf, fuel), a.c, d, falls)
  {
    hide L.Run, Ready, Sim, SameBelow;
    RunAppend(b.code, body, a.s, w.lf, fuel);
    OpensSlots(a, names, slots);
    SimOut(a.env, a.env + slots, a.c, a.c.(sub := b.sub), a.q.live, r, L.Run(b.code + body, a.s, w.lf, fuel), d, falls);
  }

  lemma OpensSlots(a: State, names: seq<string>, slots: seq<R.Slot>)
    requires Ready(a) && NewBinders(names, a.q) && SlotNames(slots) == names
    ensures Opens(a.env, a.env + slots, a.q.live)
  {
    ReadyIsLive(a);
    hide Ready;
    forall i | |a.env| <= i < |a.env + slots| ensures (a.env + slots)[i].name !in a.q.live {
      assert SlotNames(slots)[i - |a.env|] == (a.env + slots)[i].name;
    }
  }

  lemma {:induction false} EmitKeepsLive(binds: seq<P.PatternBinding>, names: seq<string>, c: Ctx, q: Scope)
    requires BindsOf(binds, names) && NewBinders(names, q)
    ensures SameBelow(c, c.(sub := EmitBindings(binds, c).sub), q.live)
  {
    if binds != [] {
      EmitKeepsLive(binds[..|binds| - 1], names, c, q);
      assert binds[|binds| - 1].name in names;
    }
  }

  lemma DeclaresConcat(x: Code, y: Code, c: Ctx, q: Scope, n: nat)
    requires DeclaresNew(x, c, q, n) && DeclaresNew(y, c, q, n)
    ensures DeclaresNew(x + y, c, q, n)
  {
    hide Old, SomeMarks, Marks;
    forall z | Old(c, q, n, z) ensures !SomeMarks(x + y, z, Declared) {
      SomeMarksConcat(x, y, z, Declared);
    }
  }

  // ---- assignment ----

  /** Setting a variable whose local already holds the new value. */
  lemma AgreeSet(a: State, env: R.Env, s: L.Store, x: string, v: R.Val)
    requires Ready(a) && SameNames(a.env, env) && x in a.q.may && x in a.q.live && R.Get(env, x).Some?
    requires Agree(a.c, env, s, Some(a.c.loc(x))) && L.Lookup(s, a.c.loc(x)) == Some(E.Enc(v)) && E.Expressible(v)
    ensures a.c.Res(x) == a.c.loc(x) && Agree(a.c, R.Set(env, x, v), s, None)
  {
    hide Ready, L.Lookup, E.Enc, E.Expressible, Fixed, Old, NamesApart;
    NotSubstituted(a, x);
    forall y | R.Get(R.Set(env, x, v), y).Some? && y in a.c.mentioned
      ensures Holds(a.c, R.Set(env, x, v), s, y)
    {
      GetSet(env, x, v, y);
      if y != x {
        assert EnvLive(a.env, a.q.live) by { ReadyIsLive(a); }
        LiveName(env, a.env, a.q.live, y);
        ResApart(a, x, y);
        assert Holds(a.c, env, s, y);
      }
    }
  }

  lemma NotSubstituted(a: State, x: string)
    requires Ready(a) && x in a.q.may
    ensures x !in a.c.sub
  {
    hide NamesApart, Fixed, Old, Agree;
  }

  lemma ResApart(a: State, x: string, y: string)
    requires Ready(a) && x in a.q.may && y in a.q.live && x != y
    ensures a.c.Res(y) != a.c.loc(x)
  {
    hide Agree, Old;
    if y in a.c.sub {
      OwnLoc(a.c, a.q, a.n, a.n, x, a.c.loc(x), Written);
      FixedNotOwn(a.c, a.q, a.n, a.n, a.c.sub[y], Written);
    }
  }

  function AssignOutcome(r: R.Result, op: Option<R.BinOp>, x: string): R.Result {
    if !r.Done? then r
    else
      var old_ := R.Get(r.env, x);
      if old_.None? then R.Stuck
      else if op.None? then R.Done(R.UnitVal, R.Set(r.env, x, r.v))
      else
        var v := R.ApplyBinary(op.value, old_.value, r.v);
        if v.None? then R.Stuck else R.Done(R.UnitVal, R.Set(r.env, x, v.value))
  }

  /** An assignment's own value is nil. */
  lemma UnitResult(a: State, env: R.Env, code: Code, s1: L.Store, d: Dest, falls: bool, w: World, fuel: nat)
    requires L.Run(code, a.s, w.lf, fuel) == L.Normal(s1) && Agree(a.c, env, s1, None) && DestReady(a, d)
    ensures Sim(R.Done(R.UnitVal, env), L.Run(code + AssignResult(d), a.s, w.lf, fuel), a.c, d, falls)
  {
    hide L.Run, Agree, L.Lookup, L.Update, L.Eval;
    RunAppend(code, AssignResult(d), a.s, w.lf, fuel);
    RunNothing(s1, w.lf, fuel);
    SimpleEvals("", s1, w.lf);
    match d {
      case Discard =>
      case Var(z) =>
        RunExtends(code, a.s, w.lf, fuel);
        ExtendsBound(a.s, s1, z);
        AssignRun(z, Nil, s1, w.lf, fuel);
        AgreeUpdate(a.c, env, s1, z, L.NilV, None);
      case ToReturn => ReturnRun(Nil, s1, w.lf, fuel);
    }
  }

  lemma AssignStep(a: State, x: string, code: Code, r: R.Result, d: Dest, falls: bool, w: World, fuel: nat)
    requires Ready(a) && DestReady(a, d) && x in a.q.may && x in a.q.live && Shape(a.env, r)
    requires Sim(r, L.Run(code, a.s, w.lf, fuel), a.c, Var(a.c.loc(x)), false)
    ensures Sim(AssignOutcome(r, None, x), L.Run(code + AssignResult(d), a.s, w.lf, fuel), a.c, d, falls)
  {
    hide Ready, L.Run, Agree, L.Lookup, E.Enc, E.Expressible, DestReady, Exits;
    var o := L.Run(code, a.s, w.lf, fuel);
    var all := L.Run(code + AssignResult(d), a.s, w.lf, fuel);
    if r.Done? {
      if R.Get(r.env, x).Some? {
        AgreeSet(a, r.env, o.store, x, r.v);
        UnitResult(a, R.Set(r.env, x, r.v), code, o.store, d, falls, w, fuel);
      } else {
        StuckSim(all, a.c, d, falls);
      }
    } else {
      ExitFirst(code, AssignResult(d), a.s, w.lf, fuel, r, a.c);
      ExitSim(r, all, a.c, d, falls);
    }
  }

  lemma CompoundStep(a: State, x: string, op: R.BinOp, g: GenE, r: R.Result, d: Dest, falls: bool, w: World, fuel: nat)
    requires Ready(a) && DestReady(a, d) && x in a.q.may && x in a.q.live && x in a.c.mentioned && Shape(a.env, r) && a.n <= g.next
    requires Computes(r, L.Run(g.code, a.s, w.lf, fuel), g.e, a.c, w)
    ensures var z := a.c.Res(x);
            Sim(AssignOutcome(r, Some(op), x),
                L.Run(g.code + [L.Assign(Name(z), BinaryExpr(op, Name(z), g.e))] + AssignResult(d), a.s, w.lf, fuel), a.c, d, falls)
  {
    hide Ready, L.Run, Agree, L.Lookup, L.Eval, L.Update, E.Enc, E.Expressible, DestReady, BinaryExpr, R.ApplyBinary;
    var z := a.c.Res(x);
    var st := L.Assign(Name(z), BinaryExpr(op, Name(z), g.e));
    var all := L.Run(g.code + [st] + AssignResult(d), a.s, w.lf, fuel);
    NotSubstituted(a, x);
    RunAppend(g.code, [st], a.s, w.lf, fuel);
    if r.Done? {
      var s1 := L.Run(g.code, a.s, w.lf, fuel).store;
      NextOperand(a, r, g, w, fuel);
      var a1 := a.(n := g.next, env := r.env, s := s1);
      var old_ := R.Get(r.env, x);
      if old_.Some? && R.ApplyBinary(op, old_.value, r.v).Some? {
        var v := R.ApplyBinary(op, old_.value, r.v).value;
        VariableHolds(a1, x);
        NameEval(z, s1, w.lf);
        StrictEval(op, Name(z), g.e, old_.value, r.v, s1, w.lf);
        AssignRun(z, BinaryExpr(op, Name(z), g.e), s1, w.lf, fuel);
        ReadyIsLive(a1);
        AgreeUpdate(a.c, r.env, s1, z, E.Enc(v), None);
        var s2 := L.Update(s1, z, E.Enc(v));
        AgreeSet(a, r.env, s2, x, v);
        UnitResult(a, R.Set(r.env, x, v), g.code + [st], s2, d, falls, w, fuel);
      } else {
        StuckSim(all, a.c, d, falls);
      }
    } else {
      ComputesExits(r, L.Run(g.code, a.s, w.lf, fuel), g.e, a.c, w);
      ExitFirst(g.code, [st], a.s, w.lf, fuel, r, a.c);
      ExitFirst(g.code + [st], AssignResult(d), a.s, w.lf, fuel, r, a.c);
      ExitSim(r, all, a.c, d, falls);
    }
  }

  lemma VariableHolds(a: State, x: string)
    requires hide *; Ready(a) && R.Get(a.env, x).Some? && x in a.c.mentioned
    ensures E.Expressible(R.Get(a.env, x).value) && L.Lookup(a.s, a.c.Res(x)) == Some(E.Enc(R.Get(a.env, x).value))
    ensures L.Bound(a.s, a.c.Res(x))
  {
    hide NamesApart, SubClear, SubFixed, Old, L.Lookup, E.Enc, E.Expressible;
    assert Holds(a.c, a.env, a.s, x);
  }

  // ---- loops ----

  lemma WhileRun(cond: Expr, body: Code, s: L.Store, f: L.Functions, fuel: nat)
    ensures L.Run([L.While(cond, body)], s, f, fuel) == L.RunWhile(cond, body, s, f, fuel)
  {
    hide L.RunWhile;
    RunOne(L.While(cond, body), s, f, fuel);
  }

  /** What a finished loop has delivered: its value is in the variable for it, if there is one. */
  ghost predicate LoopDelivers(r: R.Result, o: L.Outcome, c: Ctx, brk: Option<string>) {
    hide *;
    if r.Done? then
      && E.Expressible(r.v) && o.Normal? && Agree(c, r.env, o.store, brk)
      && (brk.Some? ==> L.Lookup(o.store, brk.value) == Some(E.Enc(r.v)))
    else Exits(r, o, c)
  }

  lemma ReadyInLoop(a: State, brk: Option<string>)
    requires hide *; Ready(a) && (brk.Some? ==> Old(a.c, a.q, a.n, brk.value) && L.Bound(a.s, brk.value))
    ensures Ready(a.(c := a.c.(brk := brk)))
  {
    hide L.Lookup, E.Enc, E.Expressible, R.Get;
    var c1 := a.c.(brk := brk);
    SameNaming(a.c, c1);
    forall z ensures Old(a.c, a.q, a.n, z) ==> Old(c1, a.q, a.n, z)
      ensures Fixed(a.c, a.q, a.n, z) ==> Fixed(c1, a.q, a.n, z)
    {
      OldSameNaming(a.c, c1, a.q, a.n, z);
    }
    hide NamesApart, Old, Fixed, E.Enc, E.Expressible, L.Lookup;
    forall x | R.Get(a.env, x).Some? && x in c1.mentioned
      ensures Holds(c1, a.env, a.s, x)
    {
      assert Holds(a.c, a.env, a.s, x);
    }
  }

  /** Agreement does not depend on where a `break` delivers. */
  lemma AgreeAnyBrk(c: Ctx, brk: Option<string>, env: R.Env, s: L.Store, except: Option<string>)
    requires Agree(c.(brk := brk), env, s, except)
    ensures Agree(c, env, s, except)
  {
    hide E.Enc, E.Expressible, L.Lookup;
    forall x | R.Get(env, x).Some? && x in c.mentioned && except != Some(c.Res(x))
      ensures Holds(c, env, s, x)
    {
      assert Holds(c.(brk := brk), env, s, x);
    }
  }

  /** One more round: the body has run, and if it finished, the rest of the loop delivers. */
  lemma LoopRound(a: State, c: Ctx, cond: Expr, body: Code, rb: R.Result, rest: R.Result, w: World, fuel: nat)
    requires hide *; fuel > 0 && Ready(a) && a.c == c.(brk := a.c.brk) && DeclaresNew(body, a.c, a.q, a.n) && Shape(a.env, rb)
    requires L.Eval(cond, a.s, w.lf) == Some(L.BoolV(true))
    requires Sim(rb, L.Run(body, a.s, w.lf, fuel - 1), a.c, Discard, true)
    requires rb.Done? ==>
               var l := L.Leave(L.Run(body, a.s, w.lf, fuel - 1), |a.s|);
               l.Normal? ==> LoopDelivers(rest, L.RunWhile(cond, body, l.store, w.lf, fuel - 1), c, a.c.brk)
    ensures LoopDelivers(match rb case Done(_, _) => rest case Brk(v, env) => R.Done(v, env) case _ => rb,
                         L.RunWhile(cond, body, a.s, w.lf, fuel), c, a.c.brk)
  {
    hide L.Run, Ready, Agree, E.Enc, E.Expressible, L.Lookup, DeclaresNew, L.Eval;
    LeaveSim(a, body, w.lf, fuel - 1, rb, Discard, true);
    var l := L.Leave(L.Run(body, a.s, w.lf, fuel - 1), |a.s|);
    if rb.Brk? {
      AgreeAnyBrk(c, a.c.brk, rb.env, l.store, a.c.brk);
    }
  }

  /** The state in which the next round starts. */
  lemma NextRound(a: State, body: Code, rb: R.Result, w: World, fuel: nat)
    requires hide *; Ready(a) && DeclaresNew(body, a.c, a.q, a.n) && Shape(a.env, rb) && rb.Done?
    requires Sim(rb, L.Run(body, a.s, w.lf, fuel), a.c, Discard, true)
    ensures var l := L.Leave(L.Run(body, a.s, w.lf, fuel), |a.s|);
            l.Normal? && Ready(a.(env := rb.env, s := l.store)) && Extends(a.s, l.store)
  {
    hide L.Run, Ready, Agree, E.Enc, E.Expressible, L.Lookup, DeclaresNew;
    LeaveSim(a, body, w.lf, fuel, rb, Discard, true);
    RunExtends(body, a.s, w.lf, fuel);
    ReadyNext(a, a.n, rb.env, L.Leave(L.Run(body, a.s, w.lf, fuel), |a.s|).store);
  }

  /** A loop in return position: a temporary takes the value, which is then returned. */
  lemma ReturnLoop(a: State, code: Code, r: R.Result, w: World, fuel: nat, falls: bool)
    requires hide *; Ready(a) && Shape(a.env, r)
    requires var t := a.c.tmp(a.n + 1);
             LoopDelivers(r, L.Run(code, a.s + [L.Binding(t, L.NilV)], w.lf, fuel), a.c, Some(t))
    ensures var t := a.c.tmp(a.n + 1);
            Sim(r, L.Run([L.Local(t, None)] + (code + [L.Return(Some(Name(t)))]), a.s, w.lf, fuel), a.c, ToReturn, falls)
  {
    hide L.Run, Ready, Agree, E.Enc, E.Expressible, L.Lookup, L.Eval;
    var t := a.c.tmp(a.n + 1);
    var s1 := a.s + [L.Binding(t, L.NilV)];
    RunAppend([L.Local(t, None)], code + [L.Return(Some(Name(t)))], a.s, w.lf, fuel);
    LocalRun(t, None, a.s, w.lf, fuel);
    RunAppend(code, [L.Return(Some(Name(t)))], s1, w.lf, fuel);
    if r.Done? {
      var s2 := L.Run(code, s1, w.lf, fuel).store;
      ReturnRun(Name(t), s2, w.lf, fuel);
      NameEval(t, s2, w.lf);
    }
  }
}
