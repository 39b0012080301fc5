/** How the correctness of lowered parts gives the correctness of lowered expressions. */
module LoweringSteps {
  import opened Wrappers
  import opened LuaIr
  import opened Lowering
  import opened LoweringScope
  import opened LoweringMarks
  import opened LoweringState
  import opened LoweringValues
  import opened LuaFrame
  import opened RuaFrame
  import R = RuaLang
  import L = LuaRun
  import P = PatternTests
  import E = Encoding

  // ---- Lua conditionals ----

  lemma IfRun(cond: Expr, body: Code, els: Code, s: L.Store, f: L.Functions, fuel: nat)
    ensures hide *; var v := L.Eval(cond, s, f);
            L.Run([L.If([L.Branch(cond, body)], els)], s, f, fuel) ==
            if v.None? then L.Failed
            else if L.Truthy(v.value) then L.Leave(L.Run(body, s, f, fuel), |s|)
            else L.Leave(L.Run(els, s, f, fuel), |s|)
  {
    hide L.Eval;
    var st := L.If([L.Branch(cond, body)], els);
    RunOne(st, s, f, fuel);
    assert L.Step(st, s, f, fuel) == L.RunIf(st, 0, s, f, fuel);
    assert L.RunIf(st, 1, s, f, fuel) == L.Leave(L.Run(els, s, f, fuel), |s|);
    assert st.branches[0] == L.Branch(cond, body);
    assert L.RunBranch(st.branches[0], s, f, fuel) == L.Leave(L.Run(body, s, f, fuel), |s|);
  }

  lemma WhenRun(cond: Expr, body: Code, s: L.Store, f: L.Functions, fuel: nat)
    ensures hide *; var v := L.Eval(cond, s, f);
            L.Run([When(cond, body)], s, f, fuel) ==
            if v.None? then L.Failed else if L.Truthy(v.value) then L.Leave(L.Run(body, s, f, fuel), |s|) else L.Normal(s)
  {
    hide L.Eval;
    IfRun(cond, body, [], s, f, fuel);
    assert L.Run([], s, f, fuel) == L.Normal(s) && s[..|s|] == s;
  }

  lemma LocalRun(x: string, e: Option<Expr>, s: L.Store, f: L.Functions, fuel: nat)
    ensures hide *; L.Run([L.Local(x, e)], s, f, fuel) ==
            if e.None? then L.Normal(s + [L.Binding(x, L.NilV)])
            else if L.Eval(e.value, s, f).None? then L.Failed
            else L.Normal(s + [L.Binding(x, L.Eval(e.value, s, f).value)])
  {
    hide L.Eval;
    RunOne(L.Local(x, e), s, f, fuel);
  }

  lemma AssignRun(x: string, e: Expr, s: L.Store, f: L.Functions, fuel: nat)
    requires hide *; L.Bound(s, x)
    ensures L.Run([L.Assign(Name(x), e)], s, f, fuel) ==
            if L.Eval(e, s, f).None? then L.Failed else L.Normal(L.Update(s, x, L.Eval(e, s, f).value))
  {
    hide L.Eval, L.Update;
    RunOne(L.Assign(Name(x), e), s, f, fuel);
  }

  lemma ReturnRun(e: Expr, s: L.Store, f: L.Functions, fuel: nat)
    ensures hide *; L.Run([L.Return(Some(e))], s, f, fuel) ==
            if L.Eval(e, s, f).None? then L.Failed else L.Returned(L.Eval(e, s, f).value)
  {
    hide L.Eval;
    RunOne(L.Return(Some(e)), s, f, fuel);
  }

  lemma ConstantEvals(s: L.Store, f: L.Functions)
    ensures L.Eval(Nil, s, f) == Some(L.NilV)
    ensures forall b :: L.Eval(Bool(b), s, f) == Some(L.BoolV(b))
  {
  }

  lemma NotEval(e: Expr, s: L.Store, f: L.Functions)
    ensures hide *; var v := L.Eval(e, s, f); v.Some? ==> L.Eval(Unary(Not, e), s, f) == Some(L.BoolV(!L.Truthy(v.value)))
  {
  }

  lemma IsNilEval(e: Expr, s: L.Store, f: L.Functions)
    ensures hide *; var v := L.Eval(e, s, f); v.Some? ==> L.Eval(Binary(e, Eq, Nil), s, f) == Some(L.BoolV(v.value == L.NilV))
  {
    ConstantEvals(s, f);
  }

  lemma SimpleEvals(x: string, s: L.Store, f: L.Functions)
    ensures hide *; L.Eval(Name(x), s, f) == L.Lookup(s, x)
    ensures L.Eval(Nil, s, f) == Some(L.NilV)
    ensures forall b :: L.Eval(Bool(b), s, f) == Some(L.BoolV(b))
    ensures var v := L.Lookup(s, x); v.Some? ==> L.Eval(Unary(Not, Name(x)), s, f) == Some(L.BoolV(!L.Truthy(v.value)))
    ensures var v := L.Lookup(s, x); v.Some? ==> L.Eval(Binary(Name(x), Eq, Nil), s, f) == Some(L.BoolV(v.value == L.NilV))
  {
    hide L.Eval, L.Lookup;
    NameEval(x, s, f);
    ConstantEvals(s, f);
    NotEval(Name(x), s, f);
    IsNilEval(Name(x), s, f);
  }

  lemma NameEval(x: string, s: L.Store, f: L.Functions)
    ensures L.Eval(Name(x), s, f) == L.Lookup(s, x)
  {
  }

  // ---- operands ----

  /** After an operand has been computed the next one can be. */
  lemma NextOperand(a: State, r: R.Result, g: GenE, w: World, fuel: nat)
    requires hide *; Ready(a) && r.Done? && Shape(a.env, r) && a.n <= g.next
    requires Computes(r, L.Run(g.code, a.s, w.lf, fuel), g.e, a.c, w)
    ensures var o := L.Run(g.code, a.s, w.lf, fuel);
            o.Normal? && Ready(a.(n := g.next, env := r.env, s := o.store)) && Extends(a.s, o.store)
  {
    hide Ready, L.Run, L.Eval, Agree, L.Lookup, E.Enc, E.Expressible;
    var o := L.Run(g.code, a.s, w.lf, fuel);
    RunExtends(g.code, a.s, w.lf, fuel);
    ReadyNext(a, g.next, r.env, o.store);
  }

  lemma ComputesExits(r: R.Result, o: L.Outcome, e: Expr, c: Ctx, w: World)
    requires !r.Done?
    ensures Computes(r, o, e, c, w) <==> Exits(r, o, c)
  {
    hide L.Eval, L.Lookup, E.Enc, E.Expressible, Agree;
  }

  /** Operands of an operator that needs both. */
  lemma StrictStep(op: R.BinOp, a: State, x: GenE, y: GenE, rx: R.Result, ry: R.Result, w: World, fuel: nat)
    requires hide L.Eval, L.Lookup, L.Run, E.Enc, E.Expressible, Agree; op != R.And && op != R.Or && op != R.Coalesce
    requires Computes(rx, L.Run(x.code, a.s, w.lf, fuel), x.e, a.c, w)
    requires rx.Done? ==>
               var s1 := L.Run(x.code, a.s, w.lf, fuel).store;
               var o := L.Run(y.code, s1, w.lf, fuel);
               && Computes(ry, o, y.e, a.c, w)
               && (o.Normal? ==> L.Eval(x.e, o.store, w.lf) == L.Eval(x.e, s1, w.lf))
    ensures Computes(if !rx.Done? then rx else if !ry.Done? then ry else R.FromOption(R.ApplyBinary(op, rx.v, ry.v), ry.env),
                     L.Run(x.code + y.code, a.s, w.lf, fuel), BinaryExpr(op, x.e, y.e), a.c, w)
  {
    hide L.Run, L.Eval, Agree, R.ApplyBinary, E.Enc, E.Expressible, BinaryExpr;
    RunAppend(x.code, y.code, a.s, w.lf, fuel);
    if rx.Done? && ry.Done? {
      var s1 := L.Run(x.code, a.s, w.lf, fuel).store;
      StrictEval(op, x.e, y.e, rx.v, ry.v, L.Run(y.code, s1, w.lf, fuel).store, w.lf);
    }
  }

  /** The right operand of `&&` and `||` runs no statement and is read only when it is needed. */
  lemma LazyStep(op: R.BinOp, a: State, x: GenE, y: GenE, rx: R.Result, ry: R.Result, w: World, fuel: nat)
    requires hide L.Eval, L.Lookup, L.Run, E.Enc, E.Expressible, Agree; (op == R.And || op == R.Or) && y.code == []
    requires Computes(rx, L.Run(x.code, a.s, w.lf, fuel), x.e, a.c, w)
    requires rx.Done? ==> Computes(ry, L.Run(y.code, L.Run(x.code, a.s, w.lf, fuel).store, w.lf, fuel), y.e, a.c, w)
    ensures Computes(if !rx.Done? then rx else if !rx.v.BoolVal? then R.Stuck else if rx.v.b == (op == R.Or) then rx
                     else if ry.Done? && !ry.v.BoolVal? then R.Stuck else ry,
                     L.Run(x.code + y.code, a.s, w.lf, fuel), BinaryExpr(op, x.e, y.e), a.c, w)
  {
    hide L.Run, L.Eval, Agree, E.Expressible, BinaryExpr;
    assert x.code + y.code == x.code;
    if rx.Done? && rx.v.BoolVal? {
      var s1 := L.Run(x.code, a.s, w.lf, fuel).store;
      assert L.Run([], s1, w.lf, fuel) == L.Normal(s1) by { RunNothing(s1, w.lf, fuel); }
      ShortCircuit(op, x.e, y.e, rx.v.b, s1, w.lf);
    }
  }

  lemma RunNothing(s: L.Store, f: L.Functions, fuel: nat)
    ensures L.Run([], s, f, fuel) == L.Normal(s)
  {
  }

  /** Control flow in operand position goes through a temporary. */
  lemma HoistStep(a: State, code: Code, m: nat, r: R.Result, falls: bool, w: World, fuel: nat)
    requires hide *; Ready(a) && Shape(a.env, r) && a.n < m
    requires var t := a.c.tmp(a.n + 1);
             Sim(r, L.Run(code, a.s + [L.Binding(t, L.NilV)], w.lf, fuel), a.c, Var(t), falls)
    ensures var t := a.c.tmp(a.n + 1);
            Computes(r, L.Run([L.Local(t, None)] + code, a.s, w.lf, fuel), Name(t), a.c, w)
  {
    hide L.Run, L.Eval, Agree, E.Enc, E.Expressible, Ready, L.Lookup;
    var t := a.c.tmp(a.n + 1);
    RunAppend([L.Local(t, None)], code, a.s, w.lf, fuel);
    LocalRun(t, None, a.s, w.lf, fuel);
    if r.Done? {
      var o := L.Run(code, a.s + [L.Binding(t, L.NilV)], w.lf, fuel);
      SimpleEvals(t, o.store, w.lf);
      AgreeForget(a, r.env, o.store, a.n + 1);
    }
  }

  /** A computed value is delivered. */
  lemma FinishStep(a: State, g: GenE, d: Dest, r: R.Result, falls: bool, w: World, fuel: nat)
    requires Ready(a) && DestReady(a, d)
    requires Computes(r, L.Run(g.code, a.s, w.lf, fuel), g.e, a.c, w)
    ensures Sim(r, L.Run(g.code + Finish(g.e, d), a.s, w.lf, fuel), a.c, d, falls)
  {
    hide L.Run, L.Eval, Agree, E.Enc, E.Expressible, Ready, L.Lookup, L.Update;
    RunAppend(g.code, Finish(g.e, d), a.s, w.lf, fuel);
    if r.Done? {
      var s1 := L.Run(g.code, a.s, w.lf, fuel).store;
      match d {
        case Discard =>
          RunNothing(s1, w.lf, fuel);
          ExpressionRun(g.e, s1, w.lf, fuel);
        case Var(z) =>
          RunExtends(g.code, a.s, w.lf, fuel);
          ExtendsBound(a.s, s1, z);
          AssignRun(z, g.e, s1, w.lf, fuel);
          AgreeUpdate(a.c, r.env, s1, z, E.Enc(r.v), None);
        case ToReturn => ReturnRun(g.e, s1, w.lf, fuel);
      }
    }
  }

  lemma ExpressionRun(e: Expr, s: L.Store, f: L.Functions, fuel: nat)
    ensures L.Run([L.Expression(e)], s, f, fuel) == if L.Eval(e, s, f).None? then L.Failed else L.Normal(s)
  {
    hide L.Eval;
    RunOne(L.Expression(e), s, f, fuel);
  }

  // ---- `??` and `?` ----

  /** Keeping an operand's value in the next temporary. */
  lemma KeepStep(a: State, g: GenE, r: R.Result, w: World, fuel: nat)
    requires hide *; Ready(a) && r.Done? && Shape(a.env, r) && a.n <= g.next
    requires Computes(r, L.Run(g.code, a.s, w.lf, fuel), g.e, a.c, w)
    ensures var t := a.c.tmp(g.next + 1);
            var o := L.Run(g.code + [L.Local(t, Some(g.e))], a.s, w.lf, fuel);
            && o.Normal? && Extends(a.s, o.store)
            && Ready(a.(n := g.next + 1, env := r.env, s := o.store))
            && L.Lookup(o.store, t) == Some(E.Enc(r.v)) && E.Expressible(r.v)
  {
    hide Ready, L.Run, L.Eval, Agree, E.Enc, E.Expressible, L.Lookup;
    var t := a.c.tmp(g.next + 1);
    var s1 := L.Run(g.code, a.s, w.lf, fuel).store;
    NextOperand(a, r, g, w, fuel);
    RunAppend(g.code, [L.Local(t, Some(g.e))], a.s, w.lf, fuel);
    LocalRun(t, Some(g.e), s1, w.lf, fuel);
    ReadyWithTmp(a.(n := g.next, env := r.env, s := s1), E.Enc(r.v));
  }

  lemma KeepExits(a: State, g: GenE, t: string, r: R.Result, w: World, fuel: nat)
    requires !r.Done? && Computes(r, L.Run(g.code, a.s, w.lf, fuel), g.e, a.c, w)
    ensures Exits(r, L.Run(g.code + [L.Local(t, Some(g.e))], a.s, w.lf, fuel), a.c)
  {
    hide L.Run, Exits, L.Eval, E.Enc, E.Expressible, Agree;
    ExitFirst(g.code, [L.Local(t, Some(g.e))], a.s, w.lf, fuel, r, a.c);
  }

  function TryResult(r: R.Result, isResult: bool): R.Result {
    if !r.Done? then r
    else if isResult then
      if !r.v.ResultVal? then R.Stuck else if r.v.ok then R.Done(r.v.payload, r.env) else R.Ret(r.v)
    else
      match r.v case SomeVal(w) => R.Done(w, r.env) case NoneVal => R.Ret(R.NoneVal) case _ => R.Stuck
  }

  /** The test of `?` on a kept value: return it, or go on with the payload. */
  function TryTest(t: string, isResult: bool): L.Stmt {
    if isResult then When(Unary(Not, P.ResultIsOk(Name(t))), [L.Return(Some(Name(t)))])
    else When(Binary(Name(t), Eq, Nil), [L.Return(Some(Nil))])
  }

  function TryPayload(t: string, isResult: bool): Expr {
    if isResult then P.ResultPayload(Name(t)) else Name(t)
  }

  lemma TryTestRun(t: string, isResult: bool, v: R.Val, env: R.Env, s: L.Store, w: World, fuel: nat)
    requires L.Lookup(s, t) == Some(E.Enc(v)) && E.Expressible(v)
    ensures var o := L.Run([TryTest(t, isResult)], s, w.lf, fuel);
            match TryResult(R.Done(v, env), isResult)
            case Done(p, _) => o == L.Normal(s) && E.Expressible(p) && L.Eval(TryPayload(t, isResult), s, w.lf) == Some(E.Enc(p))
            case Ret(x) => E.Expressible(x) && o == L.Returned(E.Enc(x))
            case _ => true
  {
    hide L.Run, L.Lookup, L.Eval, E.Enc, E.Expressible;
    SimpleEvals(t, s, w.lf);
    if isResult {
      if v.ResultVal? {
        ResultParts(v);
        P.PayloadReads(Name(t), v, s, w.lf);
        NotEval(P.ResultIsOk(Name(t)), s, w.lf);
        WhenRun(Unary(Not, P.ResultIsOk(Name(t))), [L.Return(Some(Name(t)))], s, w.lf, fuel);
        ReturnRun(Name(t), s, w.lf, fuel);
      }
    } else {
      E.NilOnlyForNilLike(v);
      if v.SomeVal? { SomePayload(v); }
      WhenRun(Binary(Name(t), Eq, Nil), [L.Return(Some(Nil))], s, w.lf, fuel);
      ReturnRun(Nil, s, w.lf, fuel);
    }
  }

  lemma ResultParts(v: R.Val)
    requires v.ResultVal? && E.Expressible(v)
    ensures E.Expressible(v.payload)
  {
  }

  lemma TryStep(a: State, g: GenE, r: R.Result, isResult: bool, w: World, fuel: nat)
    requires hide *; Ready(a) && Shape(a.env, r) && a.n <= g.next
    requires Computes(r, L.Run(g.code, a.s, w.lf, fuel), g.e, a.c, w)
    ensures var t := a.c.tmp(g.next + 1);
            Computes(TryResult(r, isResult), L.Run(g.code + [L.Local(t, Some(g.e))] + [TryTest(t, isResult)], a.s, w.lf, fuel),
                     TryPayload(t, isResult), a.c, w)
  {
    hide Ready, L.Run, L.Eval, Agree, E.Enc, E.Expressible, L.Lookup, TryTest, TryPayload;
    var t := a.c.tmp(g.next + 1);
    var first := g.code + [L.Local(t, Some(g.e))];
    RunAppend(first, [TryTest(t, isResult)], a.s, w.lf, fuel);
    if r.Done? {
      KeepStep(a, g, r, w, fuel);
      var s1 := L.Run(first, a.s, w.lf, fuel).store;
      TryTestRun(t, isResult, r.v, r.env, s1, w, fuel);
      ReadyIsLive(a.(n := g.next + 1, env := r.env, s := s1));
    } else {
      KeepExits(a, g, t, r, w, fuel);
    }
  }

  function CoalesceResult(rx: R.Result, ry: R.Result): R.Result {
    if !rx.Done? then rx
    else match rx.v
      case NoneVal => ry
      case SomeVal(w) => R.Done(w, rx.env)
      case _ => R.Stuck
  }

  lemma CoalesceStep(a: State, x: GenE, y: GenE, rx: R.Result, ry: R.Result, w: World, fuel: nat)
    requires hide *; Ready(a) && Shape(a.env, rx) && a.n <= x.next < y.next
    requires Computes(rx, L.Run(x.code, a.s, w.lf, fuel), x.e, a.c, w)
    requires rx.Done? ==>
               var o1 := L.Run(x.code + [L.Local(a.c.tmp(x.next + 1), Some(x.e))], a.s, w.lf, fuel);
               && o1.Normal?
               && Computes(ry, L.Run(y.code, o1.store, w.lf, fuel), y.e, a.c, w) && Shape(rx.env, ry)
               && DeclaresNew(y.code, a.c, a.q, x.next + 1)
    ensures var t := a.c.tmp(x.next + 1);
            Computes(CoalesceResult(rx, ry), L.Run(CoalesceCode(x, t, y), a.s, w.lf, fuel), Name(t), a.c, w)
  {
    hide Ready, L.Run, L.Eval, Agree, E.Enc, E.Expressible, L.Lookup, DeclaresNew;
    var t := a.c.tmp(x.next + 1);
    var first := x.code + [L.Local(t, Some(x.e))];
    var cond := Binary(Name(t), Eq, Nil);
    var body := y.code + [L.Assign(Name(t), y.e)];
    RunAppend(first, [When(cond, body)], a.s, w.lf, fuel);
    if rx.Done? {
      KeepStep(a, x, rx, w, fuel);
      var s1 := L.Run(first, a.s, w.lf, fuel).store;
      var a1 := a.(n := x.next + 1, env := rx.env, s := s1);
      ReadyIsLive(a1);
      SimpleEvals(t, s1, w.lf);
      E.NilOnlyForNilLike(rx.v);
      WhenRun(cond, body, s1, w.lf, fuel);
      if rx.v.NoneVal? {
        FallbackStep(a, x, y, a1, t, ry, w, fuel);
      } else if rx.v.SomeVal? {
        SomePayload(rx.v);
      }
    } else {
      KeepExits(a, x, t, rx, w, fuel);
    }
  }

  lemma SomePayload(v: R.Val)
    requires v.SomeVal? && E.Expressible(v)
    ensures E.Expressible(v.payload) && E.Enc(v) == E.Enc(v.payload) && E.Enc(v) != L.NilV
  {
    E.NilOnlyForNilLike(v.payload);
  }

  /** The fallback of `??` runs inside a Lua block and ends in an assignment. */
  lemma FallbackStep(a: State, x: GenE, y: GenE, a1: State, t: string, r: R.Result, w: World, fuel: nat)
    requires hide *; Ready(a) && Ready(a1) && a1.c == a.c && a1.q == a.q && a1.n == x.next + 1 && a.n <= x.next && t == a.c.tmp(x.next + 1)
    requires SameNames(a.env, a1.env)
    requires Computes(r, L.Run(y.code, a1.s, w.lf, fuel), y.e, a.c, w) && Shape(a1.env, r)
    requires DeclaresNew(y.code, a1.c, a1.q, a1.n) && L.Lookup(a1.s, t).Some?
    ensures Computes(r, L.Leave(L.Run(y.code + [L.Assign(Name(t), y.e)], a1.s, w.lf, fuel), |a1.s|), Name(t), a.c, w)
  {
    hide Ready, L.Run, L.Eval, Agree, E.Enc, E.Expressible, L.Lookup, DeclaresNew;
    var body := y.code + [L.Assign(Name(t), y.e)];
    OldTmp(a1.c, a1.q, a1.n, x.next + 1);
    assert DestReady(a1, Var(t));
    FinishStep(a1, y, Var(t), r, false, w, fuel);
    assert Finish(y.e, Var(t)) == [L.Assign(Name(t), y.e)];
    DeclaresStill(y.code, t, y.e, a1.c, a1.q, a1.n);
    LeaveSim(a1, body, w.lf, fuel, r, Var(t), false);
    if r.Done? {
      var o := L.Leave(L.Run(body, a1.s, w.lf, fuel), |a1.s|);
      SimpleEvals(t, o.store, w.lf);
      AgreeForget(a, r.env, o.store, x.next + 1);
    }
  }

  lemma DeclaresStill(code: Code, x: string, e: Expr, c: Ctx, q: Scope, n: nat)
    requires DeclaresNew(code, c, q, n)
    ensures DeclaresNew(code + [L.Assign(Name(x), e)], c, q, n)
  {
    hide Old, SomeMarks, Marks;
    forall z | Old(c, q, n, z) ensures !SomeMarks(code + [L.Assign(Name(x), e)], z, Declared) {
      SomeMarksConcat(code, [L.Assign(Name(x), e)], z, Declared);
      AssignMarks(x, e, z, Declared);
      MarksBreaking([L.Assign(Name(x), e)], z);
    }
  }
}
