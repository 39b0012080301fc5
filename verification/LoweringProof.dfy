/** Lowered code computes what the source means: the induction over the program. */
module LoweringProof {
  import opened Wrappers
  import opened LuaIr
  import opened Lowering
  import opened LoweringScope
  import opened LoweringMarks
  import opened LoweringState
  import opened LoweringValues
  import opened LoweringPatterns
  import opened LoweringSteps
  import opened LoweringControl
  import opened LoweringBlocks
  import opened LoweringMatch
  import opened LuaFrame
  import opened RuaFrame
  import R = RuaLang
  import L = LuaRun
  import P = PatternTests
  import M = MatchSelection
  import E = Encoding

  // ---- what the generated code declares ----

  lemma ToDeclares(e: R.Expr, d: Dest, c: Ctx, n: nat, q: Scope, ret: bool)
    requires Fits(e, q, ret) && SubClear(c, q) && NamesApart(c)
    ensures DeclaresNew(GenTo(e, d, c, n).code, c, q, n)
  {
    hide Fits, GenTo, NamesApart, SubClear, Bounded, Old, SomeMarks;
    forall z ensures Bounded(GenTo(e, d, c, n).code, c, q, n, GenTo(e, d, c, n).next, d, z, Declared) {
      ToMarks(e, d, c, n, q, ret, z, Declared);
    }
    BoundedDeclaresNew(GenTo(e, d, c, n).code, c, q, n, GenTo(e, d, c, n).next, d);
  }

  lemma InlineDeclares(e: R.Expr, c: Ctx, n: nat, q: Scope)
    requires Fits(e, q, false) && SubClear(c, q) && NamesApart(c)
    ensures DeclaresNew(Inline(e, c, n).code, c, q, n)
  {
    hide Fits, Inline, NamesApart, SubClear, Bounded, Old, SomeMarks;
    forall z ensures Bounded(Inline(e, c, n).code, c, q, n, Inline(e, c, n).next, Discard, z, Declared) {
      InlineMarks(e, c, n, q, z, Declared);
    }
    BoundedDeclaresNew(Inline(e, c, n).code, c, q, n, Inline(e, c, n).next, Discard);
  }

  lemma BlockDeclares(b: R.Block, d: Dest, c: Ctx, n: nat, q: Scope, ret: bool)
    requires FitsBlock(b, q, ret) && SubClear(c, q) && NamesApart(c)
    ensures DeclaresNew(GenBlock(b, d, c, n).code, c, q, n)
  {
    hide FitsBlock, GenBlock, NamesApart, SubClear, Bounded, Old, SomeMarks;
    forall z ensures Bounded(GenBlock(b, d, c, n).code, c, q, n, GenBlock(b, d, c, n).next, d, z, Declared) {
      BlockMarks(b, d, c, n, q, ret, z, Declared);
    }
    BoundedDeclaresNew(GenBlock(b, d, c, n).code, c, q, n, GenBlock(b, d, c, n).next, d);
  }

  lemma ElseDeclares(els: Option<R.Else>, d: Dest, c: Ctx, n: nat, q: Scope, ret: bool)
    requires FitsElse(els, q, ret) && SubClear(c, q) && NamesApart(c)
    ensures DeclaresNew(GenElse(els, d, c, n).code, c, q, n)
  {
    hide FitsElse, GenElse, NamesApart, SubClear, Bounded, Old, SomeMarks;
    forall z ensures Bounded(GenElse(els, d, c, n).code, c, q, n, GenElse(els, d, c, n).next, d, z, Declared) {
      ElseMarks(els, d, c, n, q, ret, z, Declared);
    }
    BoundedDeclaresNew(GenElse(els, d, c, n).code, c, q, n, GenElse(els, d, c, n).next, d);
  }

  /** Fewer names were in use earlier. */
  lemma DeclaresEarlier(code: Code, c: Ctx, q: Scope, n: nat, n1: nat)
    requires DeclaresNew(code, c, q, n1) && n <= n1
    ensures DeclaresNew(code, c, q, n)
  {
    hide SomeMarks, Old;
    forall z | Old(c, q, n, z) ensures !SomeMarks(code, z, Declared) {
      FixedMonotone(c, q, n, q, n1, z);
    }
  }

  /** Code of an inner scope, seen from outside. */
  lemma DeclaresOutside(code: Code, c: Ctx, q: Scope, c1: Ctx, q1: Scope, n: nat)
    requires DeclaresNew(code, c1, q1, n) && c1.loc == c.loc && c1.tmp == c.tmp && q.live <= q1.live
    ensures DeclaresNew(code, c, q, n)
  {
    hide SomeMarks;
    forall z | Old(c, q, n, z) ensures !SomeMarks(code, z, Declared) {
      assert Old(c1, q1, n, z);
    }
  }

  lemma {:induction false} InlineOnlyCode(e: R.Expr, c: Ctx, n: nat)
    requires InlineOnly(e)
    ensures Inline(e, c, n).code == []
    decreases e
  {
    match e {
      case Unary(_, operand) => InlineOnlyCode(operand, c, n);
      case Binary(op, lhs, rhs) =>
        InlineOnlyCode(lhs, c, n);
        InlineOnlyCode(rhs, c, Inline(lhs, c, n).next);
        InlineStrict(e, c, n);
      case Call(_, args) => ArgsInlineOnlyCode(args, c, n);
      case VariantCall(_, args) => ArgsInlineOnlyCode(args, c, n);
      case SomeCall(payload) => InlineOnlyCode(payload, c, n);
      case ResultCall(_, payload) => InlineOnlyCode(payload, c, n);
      case _ =>
    }
  }

  lemma {:induction false} ArgsInlineOnlyCode(args: seq<R.Expr>, c: Ctx, n: nat)
    requires AllInlineOnly(args)
    ensures InlineArgs(args, c, n).code == []
    decreases args
  {
    hide Inline, InlineOnly;
    if args != [] {
      InlineOnlyCode(args[0], c, n);
      ArgsInlineOnlyCode(args[1..], c, Inline(args[0], c, n).next);
    }
  }

  // ---- expressions ----

  /** Inlining: the statements run first, and then the Lua expression has the value. */
  lemma {:induction false} InlineCorrect(e: R.Expr, a: State, w: World, fuel: nat)
    requires Ready(a) && Fits(e, a.q, false) && Compiled(w)
    ensures var g := Inline(e, a.c, a.n);
            Computes(R.Eval(e, a.env, w.rf, fuel), L.Run(g.code, a.s, w.lf, fuel), g.e, a.c, w)
    decreases fuel, e, 4
  {
    hide Ready, Compiled, L.Run, GenControl, Computes, R.MatchFields, R.EvalElse, FitsArm, R.MatchAny, FitsElse, M.ProvenExhaustive, R.EvalGuard,
      R.Set, R.MatchAll, R.Get, FitsArgs, R.RootFits, FitsBlock, InlineReads, InlineOnly, Binders, R.EvalArgs, InlineArgs, R.EvalLoop, R.EvalBlock;
    match e {
      case Lit(v) => LiteralCorrect(v, a, w, fuel);
      case Path(x) => PathCorrect(x, a, w, fuel);
      case Unary(op, operand) =>
        InlineCorrect(operand, a, w, fuel);
        UnaryCorrect(op, Inline(operand, a.c, a.n), a, R.Eval(operand, a.env, w.rf, fuel), w, fuel);
      case Binary(op, lhs, rhs) => BinaryCorrect(e, a, w, fuel);
      case Call(_, _) => CallCorrect(e, a, w, fuel);
      case VariantCall(_, _) => CallCorrect(e, a, w, fuel);
      case SomeCall(payload) =>
        InlineCorrect(payload, a, w, fuel);
        SomeCorrect(Inline(payload, a.c, a.n), a, R.Eval(payload, a.env, w.rf, fuel), w, fuel);
      case ResultCall(ok, payload) =>
        InlineCorrect(payload, a, w, fuel);
        ResultCorrect(ok, Inline(payload, a.c, a.n), a, R.Eval(payload, a.env, w.rf, fuel), w, fuel);
      case Try(isResult, inner) => TryCorrect(e, a, w, fuel);
      case _ => HoistCorrect(e, a, w, fuel);
    }
  }

  lemma LiteralCorrect(v: R.Val, a: State, w: World, fuel: nat)
    requires Ready(a) && PlainLiteral(v)
    ensures Computes(R.Done(v, a.env), L.Run([], a.s, w.lf, fuel), P.LiteralExpr(v), a.c, w)
  {
    hide Ready, L.Eval, Agree, P.LiteralExpr, E.Enc, E.Expressible, L.Lookup, L.Run;
    ReadyIsLive(a);
    RunNothing(a.s, w.lf, fuel);
    LiteralEval(v, a.s, w.lf);
  }

  lemma PathCorrect(x: string, a: State, w: World, fuel: nat)
    requires Ready(a) && x in a.q.mentioned
    ensures Computes(R.FromOption(R.Get(a.env, x), a.env), L.Run([], a.s, w.lf, fuel), Name(a.c.Res(x)), a.c, w)
  {
    hide Ready, L.Eval, Agree, E.Enc, E.Expressible, L.Lookup, L.Run;
    ReadyIsLive(a);
    RunNothing(a.s, w.lf, fuel);
    if R.Get(a.env, x).Some? {
      VariableHolds(a, x);
      NameEval(a.c.Res(x), a.s, w.lf);
    }
  }

  lemma UnaryCorrect(op: R.UnOp, g: GenE, a: State, r: R.Result, w: World, fuel: nat)
    requires hide *; Computes(r, L.Run(g.code, a.s, w.lf, fuel), g.e, a.c, w)
    ensures Computes(if r.Done? then R.FromOption(R.ApplyUnary(op, r.v), r.env) else r,
                     L.Run(g.code, a.s, w.lf, fuel), UnaryExpr(op, g.e), a.c, w)
  {
    hide L.Run, L.Eval, Agree, R.ApplyUnary, UnaryExpr, E.Enc, E.Expressible;
    if r.Done? {
      UnaryEval(op, g.e, r.v, L.Run(g.code, a.s, w.lf, fuel).store, w.lf);
    }
  }

  lemma SomeCorrect(g: GenE, a: State, r: R.Result, w: World, fuel: nat)
    requires hide *; Computes(r, L.Run(g.code, a.s, w.lf, fuel), g.e, a.c, w)
    ensures Computes(if r.Done? then (if R.NilLike(r.v) then R.Stuck else R.Done(R.SomeVal(r.v), r.env)) else r,
                     L.Run(g.code, a.s, w.lf, fuel), g.e, a.c, w)
  {
    hide L.Run, L.Eval, Agree;
  }

  lemma ResultCorrect(ok: bool, g: GenE, a: State, r: R.Result, w: World, fuel: nat)
    requires hide *; Compiled(w) && Computes(r, L.Run(g.code, a.s, w.lf, fuel), g.e, a.c, w)
    ensures Computes(if r.Done? then R.Done(R.ResultVal(ok, r.v), r.env) else r,
                     L.Run(g.code, a.s, w.lf, fuel), Call(Name(if ok then "ok" else "err"), [g.e]), a.c, w)
  {
    hide L.Run, L.Eval, Agree, Compiled, E.Enc, E.Expressible;
    if r.Done? {
      ResultEval(ok, g.e, r.v, w, L.Run(g.code, a.s, w.lf, fuel).store);
    }
  }

  lemma {:induction false} BinaryCorrect(e: R.Expr, a: State, w: World, fuel: nat)
    requires e.Binary? && Ready(a) && Fits(e, a.q, false) && Compiled(w)
    ensures var g := Inline(e, a.c, a.n);
            Computes(R.Eval(e, a.env, w.rf, fuel), L.Run(g.code, a.s, w.lf, fuel), g.e, a.c, w)
    decreases fuel, e, 2
  {
    hide Inline, Fits, R.Eval, L.Eval, L.Lookup, L.Run, E.Enc, E.Expressible, Agree, Compiled, Ready;
    if e.bop == R.Coalesce {
      CoalesceCorrect(e, a, w, fuel);
    } else {
      OperandsCorrect(e, a, w, fuel);
    }
  }

  lemma BinaryFits(e: R.Expr, q: Scope)
    requires hide *; e.Binary? && Fits(e, q, false)
    ensures Fits(e.lhs, q, false)
    ensures Fits(e.rhs, if e.bop == R.Coalesce then q else q.Without(InlineReads(e.lhs)), false)
    ensures e.bop == R.And || e.bop == R.Or ==> InlineOnly(e.rhs)
  {
    hide R.MatchPattern, R.MatchAny, R.RootFits, M.ProvenExhaustive, FitsElse, FitsArgs, FitsBlock, InlineReads, InlineOnly, Binders,
      FitsArm;
  }

  lemma {:induction false} CoalesceCorrect(e: R.Expr, a: State, w: World, fuel: nat)
    requires hide *; e.Binary? && e.bop == R.Coalesce && Ready(a) && Fits(e, a.q, false) && Compiled(w)
    ensures var g := Inline(e, a.c, a.n);
            Computes(R.Eval(e, a.env, w.rf, fuel), L.Run(g.code, a.s, w.lf, fuel), g.e, a.c, w)
    decreases fuel, e, 0
  {
    hide Ready, Compiled, L.Run, Inline, Computes, Fits, DeclaresNew, Extends, NamesApart, SubClear, R.Eval;
    BinaryFits(e, a.q);
    ReadyIsLive(a);
    var x := Inline(e.lhs, a.c, a.n);
    var y := Inline(e.rhs, a.c, x.next + 1);
    var rx := R.Eval(e.lhs, a.env, w.rf, fuel);
    InlineCoalesce(e, a.c, a.n);
    InlineCorrect(e.lhs, a, w, fuel);
    EvalShape(e.lhs, a.env, w.rf, fuel);
    InlineDeclares(e.rhs, a.c, x.next + 1, a.q);
    if rx.Done? {
      KeepStep(a, x, rx, w, fuel);
      var s1 := L.Run(x.code + [L.Local(a.c.tmp(x.next + 1), Some(x.e))], a.s, w.lf, fuel).store;
      var a1 := a.(n := x.next + 1, env := rx.env, s := s1);
      InlineCorrect(e.rhs, a1, w, fuel);
      EvalShape(e.rhs, rx.env, w.rf, fuel);
      CoalesceStep(a, x, y, rx, R.Eval(e.rhs, rx.env, w.rf, fuel), w, fuel);
    } else {
      CoalesceStep(a, x, y, rx, R.Stuck, w, fuel);
    }
    CoalesceEval(e, a.env, w, fuel);
  }

  lemma CoalesceEval(e: R.Expr, env: R.Env, w: World, fuel: nat)
    requires hide *; e.Binary? && e.bop == R.Coalesce
    ensures var rx := R.Eval(e.lhs, env, w.rf, fuel);
            R.Eval(e, env, w.rf, fuel) == CoalesceResult(rx, if rx.Done? then R.Eval(e.rhs, rx.env, w.rf, fuel) else R.Stuck)
  {
    hide R.MatchFields, R.EvalElse, R.MatchAny, R.Set, R.EvalGuard, R.MatchAll, R.Get, R.RootFits;
  }

  lemma {:induction false} OperandsCorrect(e: R.Expr, a: State, w: World, fuel: nat)
    requires hide *; e.Binary? && e.bop != R.Coalesce && Ready(a) && Fits(e, a.q, false) && Compiled(w)
    ensures var g := Inline(e, a.c, a.n);
            Computes(R.Eval(e, a.env, w.rf, fuel), L.Run(g.code, a.s, w.lf, fuel), g.e, a.c, w)
    decreases fuel, e, 0
  {
    hide Ready, Compiled, L.Run, L.Eval, Inline, Computes, Fits, Extends, NamesApart, SubClear, Bounded, InlineOnly, R.Eval;
    BinaryFits(e, a.q);
    var x := Inline(e.lhs, a.c, a.n);
    var y := Inline(e.rhs, a.c, x.next);
    var q1 := a.q.Without(InlineReads(e.lhs));
    var rx := R.Eval(e.lhs, a.env, w.rf, fuel);
    var ry := if rx.Done? then R.Eval(e.rhs, rx.env, w.rf, fuel) else R.Stuck;
    InlineStrict(e, a.c, a.n);
    InlineCorrect(e.lhs, a, w, fuel);
    EvalShape(e.lhs, a.env, w.rf, fuel);
    if rx.Done? {
      NextOperand(a, rx, x, w, fuel);
      var s1 := L.Run(x.code, a.s, w.lf, fuel).store;
      var a1 := a.(n := x.next, env := rx.env, s := s1);
      ReadyWithout(a1, InlineReads(e.lhs));
      InlineCorrect(e.rhs, a1.(q := q1), w, fuel);
      ReadyIsLive(a1.(q := q1));
      forall z ensures Bounded(y.code, a.c, q1, x.next, y.next, Discard, z, Written) {
        InlineMarks(e.rhs, a.c, x.next, q1, z, Written);
      }
      WaitKeepsValue(e.lhs, a, y.code, y.next, s1, w.lf, fuel);
    }
    if e.bop == R.And || e.bop == R.Or {
      InlineOnlyCode(e.rhs, a.c, x.next);
      LazyStep(e.bop, a, x, y, rx, ry, w, fuel);
    } else {
      StrictStep(e.bop, a, x, y, rx, ry, w, fuel);
    }
    OperandsEval(e, a.env, w, fuel);
  }

  lemma OperandsEval(e: R.Expr, env: R.Env, w: World, fuel: nat)
    requires hide *; e.Binary? && e.bop != R.Coalesce
    ensures var rx := R.Eval(e.lhs, env, w.rf, fuel);
            var ry := if rx.Done? then R.Eval(e.rhs, rx.env, w.rf, fuel) else R.Stuck;
            R.Eval(e, env, w.rf, fuel) ==
            if e.bop == R.And || e.bop == R.Or then
              if !rx.Done? then rx else if !rx.v.BoolVal? then R.Stuck else if rx.v.b == (e.bop == R.Or) then rx
              else if ry.Done? && !ry.v.BoolVal? then R.Stuck else ry
            else
              if !rx.Done? then rx else if !ry.Done? then ry else R.FromOption(R.ApplyBinary(e.bop, rx.v, ry.v), ry.env)
  {
    hide R.ApplyBinary, R.EvalElse, R.MatchAny, R.Set, R.EvalGuard, R.Get, R.RootFits, R.EvalArgs, R.EvalLoop, R.EvalBlock, R.MatchPattern;
  }

  /** Arguments: each is computed in turn, and all of them can still be read at the end. */
  ghost predicate ComputesAll(r: R.ArgsResult, o: L.Outcome, es: seq<Expr>, c: Ctx, w: World) {
    hide *;
    match r
    case Values(vs, env) =>
      && o.Normal? && Agree(c, env, o.store, None)
      && (forall i :: 0 <= i < |vs| ==> E.Expressible(vs[i]))
      && L.EvalAll(es, o.store, w.lf) == Some(E.EncAll(vs))
    case Other(x) => Exits(x, o, c)
  }

  lemma {:induction false} ArgsCorrect(args: seq<R.Expr>, a: State, w: World, fuel: nat)
    requires Ready(a) && FitsArgs(args, a.q) && Compiled(w)
    ensures var g := InlineArgs(args, a.c, a.n);
            ComputesAll(R.EvalArgs(args, a.env, w.rf, fuel), L.Run(g.code, a.s, w.lf, fuel), g.es, a.c, w)
    decreases fuel, args, 1
  {
    hide Ready, Compiled, L.Run, L.Eval, L.EvalAll, Inline, Computes, ComputesAll, Fits, Extends, NamesApart, SubClear, Bounded,
      InlineReads, R.Eval;
    if args == [] {
      NoArgs(a, w, fuel);
    } else {
      var x := Inline(args[0], a.c, a.n);
      var y := InlineArgs(args[1..], a.c, x.next);
      var q1 := a.q.Without(InlineReads(args[0]));
      var rx := R.Eval(args[0], a.env, w.rf, fuel);
      InlineCorrect(args[0], a, w, fuel);
      EvalShape(args[0], a.env, w.rf, fuel);
      if rx.Done? {
        NextOperand(a, rx, x, w, fuel);
        var s1 := L.Run(x.code, a.s, w.lf, fuel).store;
        var a1 := a.(n := x.next, env := rx.env, s := s1);
        ReadyWithout(a1, InlineReads(args[0]));
        ArgsCorrect(args[1..], a1.(q := q1), w, fuel);
        ReadyIsLive(a1.(q := q1));
        forall z ensures Bounded(y.code, a.c, q1, x.next, y.next, Discard, z, Written) {
          ArgsMarks(args[1..], a.c, x.next, q1, z, Written);
        }
        WaitKeepsValue(args[0], a, y.code, y.next, s1, w.lf, fuel);
        ArgsStep(a, x, y, rx, R.EvalArgs(args[1..], rx.env, w.rf, fuel), w, fuel);
      } else {
        ArgsExit(a, x, y, rx, w, fuel);
      }
    }
  }

  lemma NoArgs(a: State, w: World, fuel: nat)
    requires Ready(a)
    ensures ComputesAll(R.Values([], a.env), L.Run([], a.s, w.lf, fuel), [], a.c, w)
  {
    hide Ready, Agree, L.EvalAll, L.Lookup, L.Run, E.Enc, E.EncAll, E.Expressible;
    ReadyIsLive(a);
    RunNothing(a.s, w.lf, fuel);
    EvalNone(a.s, w.lf);
  }

  lemma ArgsStep(a: State, x: GenE, y: GenArgs, rx: R.Result, rest: R.ArgsResult, w: World, fuel: nat)
    requires hide L.Eval, L.EvalAll, L.Lookup, L.Run, E.Enc, E.EncAll, E.Expressible, Agree;
             rx.Done? && Computes(rx, L.Run(x.code, a.s, w.lf, fuel), x.e, a.c, w)
    requires var s1 := L.Run(x.code, a.s, w.lf, fuel).store;
             var o := L.Run(y.code, s1, w.lf, fuel);
             && ComputesAll(rest, o, y.es, a.c, w)
             && (o.Normal? ==> L.Eval(x.e, o.store, w.lf) == L.Eval(x.e, s1, w.lf))
    ensures ComputesAll(if rest.Values? then R.Values([rx.v] + rest.vs, rest.env) else rest,
                        L.Run(x.code + y.code, a.s, w.lf, fuel), [x.e] + y.es, a.c, w)
  {
    hide L.Run, Agree, E.Expressible, E.Enc, Exits, L.Eval;
    RunAppend(x.code, y.code, a.s, w.lf, fuel);
    if rest.Values? {
      var es := [x.e] + y.es;
      assert es[0] == x.e && es[1..] == y.es;
      var vs := [rx.v] + rest.vs;
      assert vs[0] == rx.v && vs[1..] == rest.vs;
    }
  }

  lemma ArgsExit(a: State, x: GenE, y: GenArgs, rx: R.Result, w: World, fuel: nat)
    requires !rx.Done? && Computes(rx, L.Run(x.code, a.s, w.lf, fuel), x.e, a.c, w)
    ensures ComputesAll(R.Other(rx), L.Run(x.code + y.code, a.s, w.lf, fuel), [x.e] + y.es, a.c, w)
  {
    hide L.Run, Exits, L.Eval, L.EvalAll, E.Enc, E.EncAll, E.Expressible, Agree;
    ExitFirst(x.code, y.code, a.s, w.lf, fuel, rx, a.c);
  }

  lemma {:induction false} CallCorrect(e: R.Expr, a: State, w: World, fuel: nat)
    requires (e.Call? || e.VariantCall?) && Ready(a) && Fits(e, a.q, false) && Compiled(w)
    ensures var g := Inline(e, a.c, a.n);
            Computes(R.Eval(e, a.env, w.rf, fuel), L.Run(g.code, a.s, w.lf, fuel), g.e, a.c, w)
    decreases fuel, e, 0
  {
    hide Ready, Compiled, L.Run, ComputesAll, InlineArgs, R.EvalArgs, Computes, R.EvalBlock, R.MatchFields, R.EvalElse, GenTo, FitsArm,
      P.Alternatives, R.MatchAny, P.ElementTests, GenReturnBody, FitsElse, P.Retain, M.ProvenExhaustive, R.EvalGuard, R.Set, R.MatchAll, P.AndAll,
      P.FieldTests, P.OrAll, R.Get, FitsArgs, R.RootFits, FitsBlock, M.RootOf, GenBlock, EmitBindings, GenArms, GenElse;
    ArgsCorrect(e.args, a, w, fuel);
    var g := InlineArgs(e.args, a.c, a.n);
    CallValue(e, g, a, R.EvalArgs(e.args, a.env, w.rf, fuel), w, fuel);
  }

  lemma CallValue(e: R.Expr, g: GenArgs, a: State, r: R.ArgsResult, w: World, fuel: nat)
    requires hide *; e.VariantCall? || (e.Call? && e.function_ != "error")
    requires Compiled(w) && ComputesAll(r, L.Run(g.code, a.s, w.lf, fuel), g.es, a.c, w)
    ensures Computes(if r.Other? then r.other else if e.Call? then R.FromOption(w.rf(e.function_, r.vs), r.env) else R.Done(R.VariantVal(e.tag, r.vs), r.env),
                     L.Run(g.code, a.s, w.lf, fuel),
                     if e.Call? then Call(Name(e.function_), g.es) else Table([Named("tag", Str(e.tag.name))] + Positional(g.es)), a.c, w)
  {
    hide Compiled, L.Run, L.Eval, L.EvalAll, Agree, E.Expressible, E.Enc, E.EncAll, Exits, Positional;
    if r.Values? {
      var s := L.Run(g.code, a.s, w.lf, fuel).store;
      if e.Call? {
        CallEval(e.function_, g.es, r.vs, w, s);
        assert w.rf(e.function_, r.vs).Some? ==> L.Eval(Call(Name(e.function_), g.es), s, w.lf) == Some(E.Enc(w.rf(e.function_, r.vs).value));
        CallStuck(L.Run(g.code, a.s, w.lf, fuel), Call(Name(e.function_), g.es), a.c, w);
      } else {
        VariantEval(e.tag, g.es, r.vs, s, w.lf);
      }
    } else {
      OtherExits(r.other, L.Run(g.code, a.s, w.lf, fuel), a.c);
    }
  }

  lemma CallStuck(o: L.Outcome, e: Expr, c: Ctx, w: World)
    ensures Computes(R.Stuck, o, e, c, w)
  {
    hide L.Eval, L.Lookup, E.Enc, E.Expressible, Agree;
  }

  lemma OtherExits(r: R.Result, o: L.Outcome, c: Ctx)
    requires Exits(r, o, c)
    ensures !r.Done?
  {
    hide L.Lookup, E.Enc, E.Expressible, Agree;
  }

  lemma {:induction false} TryCorrect(e: R.Expr, a: State, w: World, fuel: nat)
    requires e.Try? && Ready(a) && Fits(e, a.q, false) && Compiled(w)
    ensures var g := Inline(e, a.c, a.n);
            Computes(R.Eval(e, a.env, w.rf, fuel), L.Run(g.code, a.s, w.lf, fuel), g.e, a.c, w)
    decreases fuel, e, 0
  {
    hide Ready, Compiled, L.Run, Computes, GenElse, R.EvalBlock, R.MatchFields, R.EvalElse, GenTo, FitsArm, P.Alternatives, R.MatchAny,
      P.ElementTests, GenReturnBody, FitsElse, P.Retain, M.ProvenExhaustive, R.EvalGuard, R.Set, R.MatchAll, P.AndAll, P.FieldTests, P.OrAll, R.Get,
      FitsArgs, R.RootFits, FitsBlock, M.RootOf, GenBlock, EmitBindings, InlineArgs, GenArms;
    var g := Inline(e.inner, a.c, a.n);
    InlineCorrect(e.inner, a, w, fuel);
    EvalShape(e.inner, a.env, w.rf, fuel);
    TryStep(a, g, R.Eval(e.inner, a.env, w.rf, fuel), e.isResult, w, fuel);
  }

  lemma {:induction false} HoistCorrect(e: R.Expr, a: State, w: World, fuel: nat)
    requires IsControl(e) && Ready(a) && Fits(e, a.q, false) && Compiled(w)
    ensures var g := Inline(e, a.c, a.n);
            Computes(R.Eval(e, a.env, w.rf, fuel), L.Run(g.code, a.s, w.lf, fuel), g.e, a.c, w)
    decreases fuel, e, 3
  {
    hide Ready, Compiled, L.Run, Computes, GenControl, R.Eval, Fits, Sim, Old;
    var t := a.c.tmp(a.n + 1);
    var s1 := a.s + [L.Binding(t, L.NilV)];
    var a1 := a.(n := a.n + 1, s := s1);
    ReadyWithTmp(a, L.NilV);
    OldTmp(a.c, a.q, a.n + 1, a.n + 1);
    assert s1[|a.s|].name == t;
    assert DestReady(a1, Var(t));
    assert Fits(e, a1.q, Var(t).ToReturn?);
    ControlCorrect(e, Var(t), a1, w, fuel);
    EvalShape(e, a.env, w.rf, fuel);
    var g := GenControl(e, Var(t), a.c, a.n + 1);
    HoistStep(a, g.code, g.next, R.Eval(e, a.env, w.rf, fuel), Falls(e), w, fuel);
  }

  // ---- expressions with a destination ----

  /** Destination passing: the value arrives where it was to go. */
  lemma {:induction false} ToCorrect(e: R.Expr, d: Dest, a: State, w: World, fuel: nat)
    requires Ready(a) && DestReady(a, d) && Fits(e, a.q, d.ToReturn?) && Compiled(w)
    ensures Sim(R.Eval(e, a.env, w.rf, fuel), L.Run(GenTo(e, d, a.c, a.n).code, a.s, w.lf, fuel), a.c, d, Falls(e))
    decreases fuel, e, 5
  {
    hide Ready, DestReady, Compiled, L.Run, Inline, GenControl, R.Eval, Sim, Computes, Falls, Fits;
    if IsControl(e) {
      ControlCorrect(e, d, a, w, fuel);
    } else {
      PlainFits(e, a.q, d.ToReturn?);
      InlineCorrect(e, a, w, fuel);
      FinishStep(a, Inline(e, a.c, a.n), d, R.Eval(e, a.env, w.rf, fuel), Falls(e), w, fuel);
    }
  }

  lemma PlainFits(e: R.Expr, q: Scope, ret: bool)
    requires Fits(e, q, ret) && !IsControl(e)
    ensures Fits(e, q, false)
  {
    hide R.MatchPattern, R.MatchAny, R.RootFits, M.ProvenExhaustive, FitsElse, FitsArgs, FitsBlock, InlineReads, InlineOnly, Binders,
      FitsArm;
  }

  lemma {:induction false} ControlCorrect(e: R.Expr, d: Dest, a: State, w: World, fuel: nat)
    requires IsControl(e) && Ready(a) && DestReady(a, d) && Fits(e, a.q, d.ToReturn?) && Compiled(w)
    ensures Sim(R.Eval(e, a.env, w.rf, fuel), L.Run(GenControl(e, d, a.c, a.n).code, a.s, w.lf, fuel), a.c, d, Falls(e))
    decreases fuel, e, 2
  {
    hide Ready, DestReady, Compiled, L.Run, Sim, GenElse, R.EvalBlock, R.MatchFields, R.EvalElse, GenTo, FitsArm, P.Alternatives, R.MatchAny,
      P.ElementTests, GenReturnBody, FitsElse, P.Retain, M.ProvenExhaustive, R.EvalGuard, R.Set, R.MatchAll, P.AndAll, P.FieldTests, P.OrAll, R.Get,
      FitsArgs, R.RootFits, FitsBlock, M.RootOf, GenBlock, EmitBindings, InlineArgs, GenArms;
    match e {
      case If(_, _, _) => IfCorrect(e, d, a, w, fuel);
      case IfLet(_, _, _, _) => IfLetCorrect(e, d, a, w, fuel);
      case BlockExpr(b) => BlockCorrect(b, d, a, w, fuel);
      case Match(_, _) => MatchCorrect(e, d, a, w, fuel);
      case Loop(body) => LoopCorrect(body, d, a, w, fuel);
      case Assign(_, _, _) => AssignCorrect(e, d, a, w, fuel);
    }
  }

  lemma SimFalls(r: R.Result, o: L.Outcome, c: Ctx, d: Dest, f1: bool, f2: bool)
    requires Sim(r, o, c, d, f1) && (f1 ==> f2)
    ensures Sim(r, o, c, d, f2)
  {
    hide L.Lookup, E.Enc, E.Expressible, Agree;
  }

  lemma {:induction false} IfCorrect(e: R.Expr, d: Dest, a: State, w: World, fuel: nat)
    requires e.If? && Ready(a) && DestReady(a, d) && Fits(e, a.q, d.ToReturn?) && Compiled(w)
    ensures Sim(R.Eval(e, a.env, w.rf, fuel), L.Run(GenControl(e, d, a.c, a.n).code, a.s, w.lf, fuel), a.c, d, Falls(e))
    decreases fuel, e, 0
  {
    hide Ready, DestReady, Compiled, L.Run, Sim, Computes, Inline, GenBlock, GenElse, DeclaresNew, SubClear, NamesApart, R.EvalBlock,
      R.EvalElse, FitsBlock, FitsElse, Shape;
    var g := Inline(e.cond, a.c, a.n);
    var t := GenBlock(e.thn, d, a.c, g.next);
    var o := GenElse(e.els, d, a.c, t.next);
    var rc := R.Eval(e.cond, a.env, w.rf, fuel);
    InlineCorrect(e.cond, a, w, fuel);
    EvalShape(e.cond, a.env, w.rf, fuel);
    ReadyIsLive(a);
    BlockDeclares(e.thn, d, a.c, g.next, a.q, d.ToReturn?);
    ElseDeclares(e.els, d, a.c, t.next, a.q, d.ToReturn?);
    DeclaresEarlier(o.code, a.c, a.q, g.next, t.next);
    var rt, re := R.Stuck, R.Stuck;
    if rc.Done? && rc.v.BoolVal? {
      NextOperand(a, rc, g, w, fuel);
      var s1 := L.Run(g.code, a.s, w.lf, fuel).store;
      var a1 := a.(n := g.next, env := rc.env, s := s1);
      DestNext(a, g.next, rc.env, s1, d);
      if rc.v.b {
        rt := R.EvalBlock(e.thn, rc.env, w.rf, fuel);
        BlockCorrect(e.thn, d, a1, w, fuel);
        BlockShape(e.thn, rc.env, w.rf, fuel);
        SimFalls(rt, L.Run(t.code, s1, w.lf, fuel), a.c, d, FallsBlock(e.thn), Falls(e));
      } else {
        re := R.EvalElse(e.els, rc.env, w.rf, fuel);
        var a2 := a1.(n := t.next);
        ReadyMore(a1, t.next);
        DestMore(a1, t.next, d);
        ElseCorrect(e.els, d, a2, w, fuel);
        ElseShape(e.els, rc.env, w.rf, fuel);
        SimFalls(re, L.Run(o.code, s1, w.lf, fuel), a.c, d, FallsElse(e.els), Falls(e));
      }
    }
    IfStep(a, g, t.code, o.code, d, rc, rt, re, Falls(e), w, fuel);
  }

  lemma DestMore(a: State, n1: nat, d: Dest)
    requires DestReady(a, d) && a.n <= n1
    ensures DestReady(a.(n := n1), d)
  {
    hide Old;
    assert Extends(a.s, a.s);
    DestNext(a, n1, a.env, a.s, d);
  }

  lemma {:induction false} ElseCorrect(els: Option<R.Else>, d: Dest, a: State, w: World, fuel: nat)
    requires Ready(a) && DestReady(a, d) && FitsElse(els, a.q, d.ToReturn?) && Compiled(w)
    ensures Sim(R.EvalElse(els, a.env, w.rf, fuel), L.Run(GenElse(els, d, a.c, a.n).code, a.s, w.lf, fuel), a.c, d, FallsElse(els))
    decreases fuel, els, 0
  {
    hide Ready, DestReady, Compiled, L.Run, Sim, GenTo, GenBlock, R.Eval, R.EvalBlock, Fits, FitsBlock;
    match els {
      case None => NoTail(a, d, w, fuel);
      case Some(ElseBlock(b)) => BlockCorrect(b, d, a, w, fuel);
      case Some(ElseIf(e)) => ToCorrect(e, d, a, w, fuel);
    }
  }

  // ---- patterns ----

  lemma {:induction false} IfLetCorrect(e: R.Expr, d: Dest, a: State, w: World, fuel: nat)
    requires e.IfLet? && Ready(a) && DestReady(a, d) && Fits(e, a.q, d.ToReturn?) && Compiled(w)
    ensures Sim(R.Eval(e, a.env, w.rf, fuel), L.Run(GenControl(e, d, a.c, a.n).code, a.s, w.lf, fuel), a.c, d, Falls(e))
    decreases fuel, e, 0
  {
    hide Ready, DestReady, Compiled, L.Run, L.Eval, Sim, Computes, Inline, GenBlock, GenElse, EmitBindings, P.PatTest, P.AndAll, SubClear,
      R.EvalBlock, R.EvalElse, FitsBlock, FitsElse, Shape, Exits, E.Enc, E.Expressible, Fixed, NewBinders, R.MatchPattern;
    var asIs := ImmutablePath(e.subject, a.c);
    var g := Inline(e.subject, a.c, a.n);
    var s := Subject(g, asIs, a.c);
    var r := R.Eval(e.subject, a.env, w.rf, fuel);
    var test := P.PatTest(e.pat, s.e, None);
    var b := EmitBindings(test.binds, a.c);
    var t := GenBlock(e.thn, d, a.c.(sub := b.sub), s.next);
    var o := GenElse(e.els, d, a.c, t.next);
    var st := L.If([L.Branch(P.AndAll(test.tests), b.code + t.code)], o.code);
    var all := L.Run(s.code + [st], a.s, w.lf, fuel);
    InlineCorrect(e.subject, a, w, fuel);
    EvalShape(e.subject, a.env, w.rf, fuel);
    ImmutableIsFixed(e.subject, a);
    SubjectStep(a, e.subject, asIs, r, w, fuel);
    RunAppend(s.code, [st], a.s, w.lf, fuel);
    if !r.Done? {
      ExitFirst(s.code, [st], a.s, w.lf, fuel, r, a.c);
      ExitSim(r, all, a.c, d, Falls(e));
    } else {
      var a1 := a.(n := s.next, env := r.env, s := L.Run(s.code, a.s, w.lf, fuel).store);
      DestNext(a, s.next, r.env, a1.s, d);
      var m := R.MatchPattern(e.pat, r.v);
      IfRun(P.AndAll(test.tests), b.code + t.code, o.code, a1.s, w.lf, fuel);
      TestRuns(e.pat, r.v, s.e, a1.s, w.lf);
      match m {
        case IllTyped => StuckSim(all, a.c, d, Falls(e));
        case Yes(_) =>
          IfLetTaken(e, d, a1, r.v, s.e.id, w, fuel);
        case No =>
          ReadyMore(a1, t.next);
          DestMore(a1, t.next, d);
          var a2 := a1.(n := t.next);
          ElseCorrect(e.els, d, a2, w, fuel);
          ElseShape(e.els, r.env, w.rf, fuel);
          SimFalls(R.EvalElse(e.els, r.env, w.rf, fuel), L.Run(o.code, a2.s, w.lf, fuel), a.c, d, FallsElse(e.els), Falls(e));
          ReadyIsLive(a2);
          ElseDeclares(e.els, d, a.c, t.next, a.q, d.ToReturn?);
          LeaveSim(a2, o.code, w.lf, fuel, R.EvalElse(e.els, r.env, w.rf, fuel), d, Falls(e));
      }
    }
  }

  lemma ImmutableIsFixed(e: R.Expr, a: State)
    requires hide *; Ready(a) && Fits(e, a.q, false)
    ensures ImmutablePath(e, a.c) ==> e.Path? && e.name in a.q.live && e.name !in a.q.may
  {
    hide NamesApart, Agree, Fixed, Old, R.MatchPattern, R.MatchAny, R.Get, R.RootFits, M.ProvenExhaustive, FitsElse, FitsArgs, FitsBlock,
      InlineReads, InlineOnly, Binders;
  }

  lemma TestRuns(p: R.Pattern, v: R.Val, e: Expr, s: L.Store, f: L.Functions)
    requires hide *; E.Expressible(v) && L.Eval(e, s, f) == Some(E.Enc(v))
    ensures var test := L.Eval(P.AndAll(P.PatTest(p, e, None).tests), s, f);
            match R.MatchPattern(p, v)
            case Yes(_) => test.Some? && L.Truthy(test.value)
            case No => test.Some? && !L.Truthy(test.value)
            case IllTyped => true
  {
    hide L.Eval, E.Expressible, E.Enc, P.PatTest, R.MatchPattern, P.AndAll;
    P.NoCachedTag(v, s, f);
    P.PatTestDecides(p, v, e, None, s, f);
    P.AndAllEvaluates(P.PatTest(p, e, None).tests, s, f);
  }

  lemma EmitDeclares(binds: seq<P.PatternBinding>, names: seq<string>, c: Ctx, q: Scope, n: nat)
    requires BindsOf(binds, names) && NewBinders(names, q) && SubClear(c, q) && NamesApart(c)
    ensures DeclaresNew(EmitBindings(binds, c).code, c, q, n)
  {
    hide SubClear, NamesApart, NewBinders, Old, Marks, Allowed, EmitBindings, BindsOf, SomeMarks;
    var code := EmitBindings(binds, c).code;
    forall z ensures Bounded(code, c, q, n, n, Discard, z, Declared) {
      EmitMarks(binds, names, c, q, n, n, Discard, z, Declared);
    }
    BoundedDeclaresNew(code, c, q, n, n, Discard);
  }

  /** The pattern matched: bindings and then-block, inside the Lua block. */
  lemma {:induction false} IfLetTaken(e: R.Expr, d: Dest, a: State, v: R.Val, root: string, w: World, fuel: nat)
    requires hide *; e.IfLet? && Ready(a) && DestReady(a, d) && Fits(e, a.q, d.ToReturn?) && Compiled(w)
    requires Fixed(a.c, a.q, a.n, root) && E.Expressible(v) && L.Eval(Name(root), a.s, w.lf) == Some(E.Enc(v))
    requires R.MatchPattern(e.pat, v).Yes?
    ensures var b := EmitBindings(P.PatTest(e.pat, Name(root), None).binds, a.c);
            var t := GenBlock(e.thn, d, a.c.(sub := b.sub), a.n);
            Sim(R.Leave(R.EvalBlock(e.thn, a.env + R.MatchPattern(e.pat, v).binds, w.rf, fuel), |a.env|),
                L.Leave(L.Run(b.code + t.code, a.s, w.lf, fuel), |a.s|), a.c, d, Falls(e))
    decreases fuel, e.thn, 9
  {
    hide Ready, DestReady, Compiled, L.Run, L.Eval, Sim, GenBlock, EmitBindings, P.PatTest, SubClear, NamesApart, R.EvalBlock, FitsBlock,
      FitsElse, E.Enc, E.Expressible, Fixed, Old, NewBinders, R.MatchPattern, DeclaresNew, BindsOf, SameBelow;
    var names, slots := Binders(e.pat), R.MatchPattern(e.pat, v).binds;
    var binds := P.PatTest(e.pat, Name(root), None).binds;
    var b := EmitBindings(binds, a.c);
    var c1, q1 := a.c.(sub := b.sub), a.q.Bind(Elements(names));
    var t := GenBlock(e.thn, d, c1, a.n);
    var r := R.EvalBlock(e.thn, a.env + slots, w.rf, fuel);
    ReadyIsLive(a);
    PatternReady(a, e.pat, v, root, w, fuel);
    var a1 := State(c1, q1, a.n, a.env + slots, L.Run(b.code, a.s, w.lf, fuel).store);
    DestInside(a, a1, d);
    BlockCorrect(e.thn, d, a1, w, fuel);
    BlockShape(e.thn, a1.env, w.rf, fuel);
    SimFalls(r, L.Run(t.code, a1.s, w.lf, fuel), c1, d, FallsBlock(e.thn), Falls(e));
    MatchBinders(e.pat, v);
    PatBindsOf(e.pat, Name(root), None);
    EmitKeepsLive(binds, names, a.c, a.q);
    BoundBody(a, names, slots, b, t.code, d, r, Falls(e), w, fuel);
    EmitDeclares(binds, names, a.c, a.q, a.n);
    ReadyIsLive(a1);
    BlockDeclares(e.thn, d, c1, a.n, q1, d.ToReturn?);
    DeclaresOutside(t.code, a.c, a.q, c1, q1, a.n);
    DeclaresConcat(b.code, t.code, a.c, a.q, a.n);
    SlotsShape(a.env, slots, r);
    LeaveSim(a, b.code + t.code, w.lf, fuel, R.Leave(r, |a.env|), d, Falls(e));
  }

  lemma SlotsShape(env: R.Env, slots: seq<R.Slot>, r: R.Result)
    requires Shape(env + slots, r)
    ensures Shape(env, R.Leave(r, |env|))
  {
    LeaveShape(env, env + slots, r);
  }

  /** A destination outside a scope is one inside it. */
  lemma DestInside(a: State, a1: State, d: Dest)
    requires DestReady(a, d) && a1.c.loc == a.c.loc && a1.c.tmp == a.c.tmp && a.n <= a1.n && a.q.live <= a1.q.live && Extends(a.s, a1.s)
    ensures DestReady(a1, d)
  {
    if d.Var? {
      OldSameNaming(a.c, a1.c, a.q, a.n, d.x);
      assert Old(a1.c, a1.q, a1.n, d.x) by {
        if x :| x in a.q.live && d.x == a.c.loc(x) {
          assert x in a1.q.live;
        }
      }
      ExtendsBound(a.s, a1.s, d.x);
    }
  }

  // ---- assignments and loops ----

  lemma AssignFits(e: R.Expr, q: Scope, ret: bool)
    requires hide *; e.Assign? && Fits(e, q, ret)
    ensures e.target in q.live && e.target in q.may && e.target in q.mentioned && Fits(e.rhs, q, false)
  {
    hide R.MatchPattern, R.MatchAny, R.RootFits, M.ProvenExhaustive, FitsElse, FitsArgs, FitsBlock, InlineReads, InlineOnly, Binders,
      FitsArm;
  }

  lemma AssignEval(e: R.Expr, env: R.Env, w: World, fuel: nat)
    requires hide *; e.Assign?
    ensures R.Eval(e, env, w.rf, fuel) == AssignOutcome(R.Eval(e.rhs, env, w.rf, fuel), e.aop, e.target)
  {
    hide R.ApplyBinary, R.EvalElse, R.MatchAny, R.Set, R.EvalGuard, R.Get, R.RootFits, R.EvalArgs, R.EvalLoop, R.EvalBlock, R.MatchPattern;
  }

  lemma {:induction false} AssignCorrect(e: R.Expr, d: Dest, a: State, w: World, fuel: nat)
    requires e.Assign? && Ready(a) && DestReady(a, d) && Fits(e, a.q, d.ToReturn?) && Compiled(w)
    ensures Sim(R.Eval(e, a.env, w.rf, fuel), L.Run(GenControl(e, d, a.c, a.n).code, a.s, w.lf, fuel), a.c, d, Falls(e))
    decreases fuel, e, 0
  {
    hide Ready, DestReady, Compiled, L.Run, Sim, Computes, Inline, GenTo, R.Eval, Fits, AssignOutcome, GenArms, GenStmts, GenElse, P.AndAll,
      GenReturnMatch, GenLoop, P.PatTest;
    AssignFits(e, a.q, d.ToReturn?);
    AssignEval(e, a.env, w, fuel);
    EvalShape(e.rhs, a.env, w.rf, fuel);
    ReadyMentions(a);
    var x := e.target;
    var r := R.Eval(e.rhs, a.env, w.rf, fuel);
    if e.aop.Some? {
      InlineCorrect(e.rhs, a, w, fuel);
      CompoundStep(a, x, e.aop.value, Inline(e.rhs, a.c, a.n), r, d, Falls(e), w, fuel);
    } else {
      var z := a.c.loc(x);
      TargetReady(a, x);
      assert Fits(e.rhs, a.q, Var(z).ToReturn?);
      ToCorrect(e.rhs, Var(z), a, w, fuel);
      var g := GenTo(e.rhs, Var(z), a.c, a.n);
      SimNoFall(r, L.Run(g.code, a.s, w.lf, fuel), a.c, z, Falls(e.rhs));
      AssignStep(a, x, g.code, r, d, Falls(e), w, fuel);
    }
  }

  lemma ReadyMentions(a: State)
    requires Ready(a)
    ensures a.c.mentioned == a.q.mentioned && a.c.mutable == a.q.mutable && a.q.may <= a.q.mutable
  {
    hide NamesApart, Agree, SubFixed, Old;
  }

  lemma TargetReady(a: State, x: string)
    requires Ready(a) && x in a.q.may && x in a.q.live && x in a.c.mentioned
    ensures a.c.Res(x) == a.c.loc(x) && DestReady(a, Var(a.c.loc(x)))
  {
    NotSubstituted(a, x);
    ReadyIsLive(a);
    hide Ready;
    VariableHolds(a, x);
    OldLoc(a.c, a.q, a.n, x);
  }

  /** Falling through only concerns return position. */
  lemma SimNoFall(r: R.Result, o: L.Outcome, c: Ctx, z: string, falls: bool)
    requires Sim(r, o, c, Var(z), falls)
    ensures Sim(r, o, c, Var(z), false)
  {
    hide L.Lookup, E.Enc, E.Expressible, Agree;
  }

  lemma {:induction false} LoopRuns(body: R.Block, c: Ctx, a: State, w: World, fuel: nat)
    requires Ready(a) && a.c == c.(brk := a.c.brk) && FitsBlock(body, a.q, false) && Compiled(w)
    ensures LoopDelivers(R.EvalLoop(body, a.env, w.rf, fuel),
                         L.RunWhile(Bool(true), GenBlock(body, Discard, a.c, a.n).code, a.s, w.lf, fuel), c, a.c.brk)
    decreases fuel, body, 6
  {
    hide Ready, Compiled, L.Run, Sim, GenBlock, R.EvalBlock, FitsBlock, LoopDelivers, SubClear, NamesApart, DeclaresNew, L.Eval;
    var code := GenBlock(body, Discard, a.c, a.n).code;
    if fuel == 0 {
      assert LoopDelivers(R.OutOfFuel, L.OutOfFuel, c, a.c.brk) by { OutOfFuelDelivers(c, a.c.brk); }
    } else {
      var rb := R.EvalBlock(body, a.env, w.rf, fuel - 1);
      assert DestReady(a, Discard);
      BlockCorrect(body, Discard, a, w, fuel - 1);
      SimFalls(rb, L.Run(code, a.s, w.lf, fuel - 1), a.c, Discard, FallsBlock(body), true);
      BlockShape(body, a.env, w.rf, fuel - 1);
      ReadyIsLive(a);
      BlockDeclares(body, Discard, a.c, a.n, a.q, false);
      TrueEval(a.s, w.lf);
      var rest := R.Stuck;
      if rb.Done? {
        NextRound(a, code, rb, w, fuel - 1);
        var l := L.Leave(L.Run(code, a.s, w.lf, fuel - 1), |a.s|);
        LoopRuns(body, c, a.(env := rb.env, s := l.store), w, fuel - 1);
        rest := R.EvalLoop(body, rb.env, w.rf, fuel - 1);
      }
      LoopRound(a, c, Bool(true), code, rb, rest, w, fuel);
    }
  }

  lemma OutOfFuelDelivers(c: Ctx, brk: Option<string>)
    ensures LoopDelivers(R.OutOfFuel, L.OutOfFuel, c, brk)
  {
    hide L.Lookup, E.Enc, E.Expressible, Agree;
  }

  lemma TrueEval(s: L.Store, f: L.Functions)
    ensures L.Eval(Bool(true), s, f) == Some(L.BoolV(true))
  {
  }

  lemma {:induction false} LoopCorrect(body: R.Block, d: Dest, a: State, w: World, fuel: nat)
    requires Ready(a) && DestReady(a, d) && FitsBlock(body, a.q, false) && Compiled(w)
    ensures Sim(R.EvalLoop(body, a.env, w.rf, fuel), L.Run(GenLoop(body, d, a.c, a.n).code, a.s, w.lf, fuel), a.c, d, false)
    decreases fuel, body, 8
  {
    hide Ready, Compiled, L.Run, L.RunWhile, GenBlock, R.EvalLoop, FitsBlock, Old, L.Bound, L.Lookup, E.Enc, E.Expressible, Agree;
    var r := R.EvalLoop(body, a.env, w.rf, fuel);
    match d {
      case Discard =>
        var c1 := a.c.(brk := None);
        ReadyInLoop(a, None);
        LoopRuns(body, a.c, a.(c := c1), w, fuel);
        WhileRun(Bool(true), GenBlock(body, Discard, c1, a.n).code, a.s, w.lf, fuel);
        DeliversSim(r, L.Run(GenLoop(body, d, a.c, a.n).code, a.s, w.lf, fuel), a.c, d);
      case Var(x) =>
        var c1 := a.c.(brk := Some(x));
        ReadyInLoop(a, Some(x));
        LoopRuns(body, a.c, a.(c := c1), w, fuel);
        WhileRun(Bool(true), GenBlock(body, Discard, c1, a.n).code, a.s, w.lf, fuel);
        DeliversSim(r, L.Run(GenLoop(body, d, a.c, a.n).code, a.s, w.lf, fuel), a.c, d);
      case ToReturn => ReturnLoopCorrect(body, a, w, fuel);
    }
  }

  lemma DeliversSim(r: R.Result, o: L.Outcome, c: Ctx, d: Dest)
    requires hide *; !d.ToReturn? && LoopDelivers(r, o, c, if d.Var? then Some(d.x) else None)
    ensures Sim(r, o, c, d, false)
  {
    hide Agree, L.Lookup, E.Enc, E.Expressible;
  }

  lemma {:induction false} ReturnLoopCorrect(body: R.Block, a: State, w: World, fuel: nat)
    requires Ready(a) && FitsBlock(body, a.q, false) && Compiled(w)
    ensures Sim(R.EvalLoop(body, a.env, w.rf, fuel), L.Run(GenLoop(body, ToReturn, a.c, a.n).code, a.s, w.lf, fuel), a.c, ToReturn, false)
    decreases fuel, body, 7
  {
    hide Ready, Compiled, L.Run, L.RunWhile, GenBlock, R.EvalLoop, FitsBlock, Old, Sim, LoopDelivers;
    var t := a.c.tmp(a.n + 1);
    var c1 := a.c.(brk := Some(t));
    var s1 := a.s + [L.Binding(t, L.NilV)];
    var a1 := a.(n := a.n + 1, s := s1);
    ReadyWithTmp(a, L.NilV);
    OldTmp(a.c, a.q, a.n + 1, a.n + 1);
    assert s1[|a.s|].name == t;
    ReadyInLoop(a1, Some(t));
    LoopRuns(body, a.c, a1.(c := c1), w, fuel);
    LoopShape(body, a.env, w.rf, fuel);
    var code := GenBlock(body, Discard, c1, a.n + 1).code;
    WhileRun(Bool(true), code, s1, w.lf, fuel);
    ReturnLoop(a, [L.While(Bool(true), code)], R.EvalLoop(body, a.env, w.rf, fuel), w, fuel, false);
    assert [L.Local(t, None)] + ([L.While(Bool(true), code)] + [L.Return(Some(Name(t)))]) == GenLoop(body, ToReturn, a.c, a.n).code;
  }

  /** `while`: the condition is computed afresh before every round. */
  lemma {:induction false} WhileRuns(cond: R.Expr, body: R.Block, a: State, w: World, fuel: nat)
    requires Ready(a) && InlineOnly(cond) && Fits(cond, a.q, false) && FitsBlock(body, a.q, false) && Compiled(w)
    ensures var g := Inline(cond, a.c, a.n);
            LoopDelivers(R.EvalWhile(cond, body, a.env, w.rf, fuel),
                         L.RunWhile(g.e, GenBlock(body, Discard, a.c.(brk := None), g.next).code, a.s, w.lf, fuel), a.c, None)
    decreases fuel, cond, 6
  {
    hide Ready, Compiled, L.Run, L.Eval, Sim, GenBlock, Inline, InlineOnly, R.EvalBlock, R.Eval, FitsBlock, Fits, LoopDelivers, SubClear, NamesApart,
      DeclaresNew, Computes, E.Enc, E.Expressible;
    var g := Inline(cond, a.c, a.n);
    var c1 := a.c.(brk := None);
    var code := GenBlock(body, Discard, c1, g.next).code;
    if fuel == 0 {
      assert LoopDelivers(R.OutOfFuel, L.OutOfFuel, a.c, None) by { OutOfFuelDelivers(a.c, None); }
    } else {
      var rc := R.Eval(cond, a.env, w.rf, fuel);
      InlineCorrect(cond, a, w, fuel);
      InlineOnlyCode(cond, a.c, a.n);
      InlineOnlyIsPure(cond, a.env, w.rf, fuel);
      RunNothing(a.s, w.lf, fuel);
      if rc.Done? && rc.v.BoolVal? {
        ConditionEval(rc, g.e, a, w);
        if rc.v.b {
          ReadyInLoop(a, None);
          var a1 := a.(c := c1);
          ReadyMore(a1, g.next);
          var a2 := a1.(n := g.next);
          var rb := R.EvalBlock(body, a.env, w.rf, fuel - 1);
          assert DestReady(a2, Discard);
          BlockCorrect(body, Discard, a2, w, fuel - 1);
          SimFalls(rb, L.Run(code, a.s, w.lf, fuel - 1), c1, Discard, FallsBlock(body), true);
          BlockShape(body, a.env, w.rf, fuel - 1);
          ReadyIsLive(a2);
          BlockDeclares(body, Discard, c1, g.next, a.q, false);
          var rest := R.Stuck;
          if rb.Done? {
            NextRound(a2, code, rb, w, fuel - 1);
            var l := L.Leave(L.Run(code, a.s, w.lf, fuel - 1), |a.s|);
            BlockRoundReady(a, a2, rb, l.store);
            WhileRuns(cond, body, a.(env := rb.env, s := l.store), w, fuel - 1);
            rest := R.EvalWhile(cond, body, rb.env, w.rf, fuel - 1);
          }
          LoopRound(a2, a.c, g.e, code, rb, rest, w, fuel);
          WhileTurn(rb, rest, L.RunWhile(g.e, code, a.s, w.lf, fuel), a.c);
        } else {
          ReadyIsLive(a);
          UnitDelivers(a);
        }
      } else {
        StuckDelivers(L.RunWhile(g.e, code, a.s, w.lf, fuel), a.c);
      }
    }
  }

  lemma ConditionEval(r: R.Result, e: Expr, a: State, w: World)
    requires hide *; r.Done? && r.v.BoolVal? && Computes(r, L.Normal(a.s), e, a.c, w)
    ensures L.Eval(e, a.s, w.lf) == Some(L.BoolV(r.v.b))
  {
    hide L.Eval, Agree;
  }

  lemma UnitDelivers(a: State)
    requires Agree(a.c, a.env, a.s, None)
    ensures LoopDelivers(R.Done(R.UnitVal, a.env), L.Normal(a.s), a.c, None)
  {
    hide Agree;
  }

  lemma StuckDelivers(o: L.Outcome, c: Ctx)
    ensures LoopDelivers(R.Stuck, o, c, None)
  {
    hide L.Lookup, E.Enc, E.Expressible, Agree;
  }

  lemma WhileTurn(rb: R.Result, rest: R.Result, o: L.Outcome, c: Ctx)
    requires LoopDelivers(match rb case Done(_, _) => rest case Brk(v, env) => R.Done(v, env) case _ => rb, o, c, None)
    ensures LoopDelivers(match rb case Done(_, _) => rest case Brk(_, env) => R.Done(R.UnitVal, env) case _ => rb, o, c, None)
  {
    hide Agree, Exits;
  }

  /** The next round's state, seen with the outer loop's context again. */
  lemma BlockRoundReady(a: State, a2: State, rb: R.Result, s: L.Store)
    requires hide *; Ready(a) && a2.c == a.c.(brk := None) && a2.q == a.q && a2.env == a.env && a2.s == a.s && a.n <= a2.n
    requires rb.Done? && Shape(a.env, rb) && Ready(a2.(env := rb.env, s := s)) && Extends(a.s, s)
    ensures Ready(a.(env := rb.env, s := s))
  {
    hide Ready, NamesApart, SubClear, SubFixed, Old, Agree;
    ReadyIsLive(a2.(env := rb.env, s := s));
    AgreeAnyBrk(a.c, None, rb.env, s, None);
    ReadyNext(a, a.n, rb.env, s);
  }

  // ---- blocks and statements ----

  lemma {:induction false} BlockCorrect(b: R.Block, d: Dest, a: State, w: World, fuel: nat)
    requires Ready(a) && DestReady(a, d) && FitsBlock(b, a.q, d.ToReturn?) && Compiled(w)
    ensures Sim(R.EvalBlock(b, a.env, w.rf, fuel), L.Run(GenBlock(b, d, a.c, a.n).code, a.s, w.lf, fuel), a.c, d, FallsBlock(b))
    decreases fuel, b, 5
  {
    hide Ready, DestReady, Compiled, L.Run, Sim, GenTo, GenStmts, R.Eval, R.EvalStmts, Fits, FitsStmts, Opens, SameBelow, Exits, Falls,
      Shape, After;
    var x := GenStmts(b.stmts, a.c, a.n);
    var c1, q1 := a.c.(sub := x.sub), After(b.stmts, a.q);
    var rx := R.EvalStmts(b.stmts, a.env, w.rf, fuel);
    StmtsCorrect(b.stmts, a, w, fuel);
    var rt := R.Stuck;
    var t := if b.tail.Some? then GenTo(b.tail.value, d, c1, x.next).code else if d.Var? then [L.Assign(Name(d.x), Nil)] else [];
    if rx.Done? {
      var a1 := State(c1, q1, x.next, rx.env, L.Run(x.code, a.s, w.lf, fuel).store);
      DestInside(a, a1, d);
      if b.tail.Some? {
        ToCorrect(b.tail.value, d, a1, w, fuel);
        EvalShape(b.tail.value, rx.env, w.rf, fuel);
        rt := R.Eval(b.tail.value, rx.env, w.rf, fuel);
      } else {
        NoTail(a1, d, w, fuel);
        DoneShape(rx.env);
        rt := R.Done(R.UnitVal, rx.env);
      }
    }
    TailStep(a, x.code, t, rx, rt, c1, q1, x.next, d, FallsBlock(b), w, fuel);
  }

  lemma DoneShape(env: R.Env)
    ensures Shape(env, R.Done(R.UnitVal, env))
  {
  }

  lemma {:induction false} StmtsCorrect(stmts: seq<R.Stmt>, a: State, w: World, fuel: nat)
    requires Ready(a) && FitsStmts(stmts, a.q) && Compiled(w)
    ensures var g := GenStmts(stmts, a.c, a.n);
            Advances(a, R.EvalStmts(stmts, a.env, w.rf, fuel), L.Run(g.code, a.s, w.lf, fuel), a.c.(sub := g.sub), After(stmts, a.q), g.next)
    decreases fuel, stmts, 1
  {
    hide Ready, Compiled, L.Run, GenStmt, R.EvalStmt, FitsStmt, Opens, SameBelow, Exits, StmtShape;
    if stmts == [] {
      AdvanceNothing(a, w, fuel);
    } else {
      var x := GenStmt(stmts[0], a.c, a.n);
      var c1, q1 := a.c.(sub := x.sub), AfterOne(stmts[0], a.q);
      var y := GenStmts(stmts[1..], c1, x.next);
      var rx := R.EvalStmt(stmts[0], a.env, w.rf, fuel);
      StmtCorrect(stmts[0], a, w, fuel);
      if rx.Done? {
        var a1 := State(c1, q1, x.next, rx.env, L.Run(x.code, a.s, w.lf, fuel).store);
        StmtsCorrect(stmts[1..], a1, w, fuel);
        StmtsShape(stmts[1..], rx.env, w.rf, fuel);
        var ry := R.EvalStmts(stmts[1..], rx.env, w.rf, fuel);
        BreakGrows(rx.env, ry, LetNames(stmts[1..]));
        AdvanceThen(a, a1, x.code, y.code, rx, ry, c1.(sub := y.sub), After(stmts[1..], q1), y.next, w, fuel);
      } else {
        AdvanceExit(a, x.code, y.code, rx, c1, q1, x.next, c1.(sub := y.sub), After(stmts[1..], q1), y.next, w, fuel);
      }
    }
  }

  lemma BreakGrows(env: R.Env, r: R.Result, added: set<string>)
    requires StmtShape(env, r, added)
    ensures r.Brk? ==> Grows(env, r.env)
  {
  }

  lemma {:induction false} StmtCorrect(s: R.Stmt, a: State, w: World, fuel: nat)
    requires Ready(a) && FitsStmt(s, a.q) && Compiled(w)
    ensures var g := GenStmt(s, a.c, a.n);
            Advances(a, R.EvalStmt(s, a.env, w.rf, fuel), L.Run(g.code, a.s, w.lf, fuel), a.c.(sub := g.sub), AfterOne(s, a.q), g.next)
    decreases fuel, s, 1
  {
    hide Ready, DestReady, Compiled, L.Run, Sim, GenTo, GenLet, GenLoop, GenBlock, Inline, R.Eval, R.EvalLoop, R.EvalWhile, Fits, FitsBlock,
      InlineOnly, Falls, Advances;
    assert a.c.(sub := a.c.sub) == a.c;
    match s {
      case Let(_, _) => LetCorrect(s, a, w, fuel);
      case ExprStmt(e) =>
        DestNone(a);
        ToCorrect(e, Discard, a, w, fuel);
        EvalShape(e, a.env, w.rf, fuel);
        DiscardAdvances(a, GenTo(e, Discard, a.c, a.n).code, GenTo(e, Discard, a.c, a.n).next, R.Eval(e, a.env, w.rf, fuel), Falls(e), w, fuel);
      case Return(result) =>
        if result.None? {
          ReturnUnit(a, a.n, w, fuel);
        } else {
          ReturnCorrect(result.value, a, w, fuel);
        }
      case While(cond, body) => WhileCorrect(cond, body, a, w, fuel);
      case LoopStmt(body) =>
        DestNone(a);
        LoopCorrect(body, Discard, a, w, fuel);
        LoopShape(body, a.env, w.rf, fuel);
        DiscardAdvances(a, GenLoop(body, Discard, a.c, a.n).code, GenLoop(body, Discard, a.c, a.n).next, R.EvalLoop(body, a.env, w.rf, fuel), false, w, fuel);
      case Break(result) => BreakCorrect(result, a, w, fuel);
    }
  }

  lemma DestNone(a: State)
    ensures DestReady(a, Discard) && DestReady(a, ToReturn)
  {
  }

  lemma {:induction false} ReturnCorrect(e: R.Expr, a: State, w: World, fuel: nat)
    requires hide *; Ready(a) && Fits(e, a.q, true) && !Falls(e) && Compiled(w)
    ensures var g := GenTo(e, ToReturn, a.c, a.n);
            var r := R.Eval(e, a.env, w.rf, fuel);
            Advances(a, if r.Done? then R.Ret(r.v) else r, L.Run([L.Do(g.code)], a.s, w.lf, fuel), a.c, a.q, g.next)
    decreases fuel, e, 6
  {
    hide Ready, Compiled, L.Run, Sim, GenTo, R.Eval, Fits, Falls, Advances, DeclaresNew, NamesApart, SubClear;
    var g := GenTo(e, ToReturn, a.c, a.n);
    DestNone(a);
    ToCorrect(e, ToReturn, a, w, fuel);
    EvalShape(e, a.env, w.rf, fuel);
    ReadyIsLive(a);
    ToDeclares(e, ToReturn, a.c, a.n, a.q, true);
    ReturnStep(a, g.code, g.next, R.Eval(e, a.env, w.rf, fuel), w, fuel);
  }

  lemma {:induction false} WhileCorrect(cond: R.Expr, body: R.Block, a: State, w: World, fuel: nat)
    requires Ready(a) && InlineOnly(cond) && Fits(cond, a.q, false) && FitsBlock(body, a.q, false) && Compiled(w)
    ensures var g := Inline(cond, a.c, a.n);
            var b := GenBlock(body, Discard, a.c.(brk := None), g.next);
            Advances(a, R.EvalWhile(cond, body, a.env, w.rf, fuel), L.Run(g.code + [L.While(g.e, b.code)], a.s, w.lf, fuel), a.c, a.q, b.next)
    decreases fuel, cond, 7
  {
    hide Ready, Compiled, L.Run, L.RunWhile, GenBlock, Inline, R.EvalWhile, Fits, FitsBlock, InlineOnly, Advances;
    var g := Inline(cond, a.c, a.n);
    var b := GenBlock(body, Discard, a.c.(brk := None), g.next);
    var r := R.EvalWhile(cond, body, a.env, w.rf, fuel);
    InlineOnlyCode(cond, a.c, a.n);
    assert g.code + [L.While(g.e, b.code)] == [L.While(g.e, b.code)];
    WhileRuns(cond, body, a, w, fuel);
    WhileRun(g.e, b.code, a.s, w.lf, fuel);
    WhileShape(cond, body, a.env, w.rf, fuel);
    DeliversSim(r, L.Run([L.While(g.e, b.code)], a.s, w.lf, fuel), a.c, Discard);
    WhileIsUnit(cond, body, a.env, w, fuel);
    DiscardAdvances(a, [L.While(g.e, b.code)], b.next, r, false, w, fuel);
  }

  lemma {:induction false} WhileIsUnit(cond: R.Expr, body: R.Block, env: R.Env, w: World, fuel: nat)
    ensures hide *; var r := R.EvalWhile(cond, body, env, w.rf, fuel); r.Done? ==> r.v == R.UnitVal
    decreases fuel
  {
    hide R.Eval, R.EvalBlock;
    if fuel > 0 {
      var c := R.Eval(cond, env, w.rf, fuel);
      if c.Done? && c.v == R.BoolVal(true) {
        var r := R.EvalBlock(body, c.env, w.rf, fuel - 1);
        if r.Done? {
          WhileIsUnit(cond, body, r.env, w, fuel - 1);
        }
      }
    }
  }

  lemma BrkDest(a: State)
    requires hide *; Ready(a)
    ensures DestReady(a, if a.c.brk.Some? then Var(a.c.brk.value) else Discard)
  {
    hide NamesApart, SubClear, SubFixed, Old, Agree;
  }

  lemma {:induction false} BreakCorrect(result: Option<R.Expr>, a: State, w: World, fuel: nat)
    requires Ready(a) && FitsStmt(R.Break(result), a.q) && Compiled(w)
    ensures var g := GenStmt(R.Break(result), a.c, a.n);
            Advances(a, R.EvalStmt(R.Break(result), a.env, w.rf, fuel), L.Run(g.code, a.s, w.lf, fuel), a.c, a.q, g.next)
    decreases fuel, result, 1
  {
    hide Ready, DestReady, Compiled, L.Run, Sim, GenTo, R.Eval, Fits, Falls, Advances;
    var d := if a.c.brk.Some? then Var(a.c.brk.value) else Discard;
    BrkDest(a);
    if result.None? {
      NoTail(a, d, w, fuel);
      DoneShape(a.env);
      BreakStep(a, if d.Var? then [L.Assign(Name(d.x), Nil)] else [], a.n, R.Done(R.UnitVal, a.env), w, fuel);
    } else {
      var e := result.value;
      var r := R.Eval(e, a.env, w.rf, fuel);
      var g := GenTo(e, d, a.c, a.n);
      ToCorrect(e, d, a, w, fuel);
      EvalShape(e, a.env, w.rf, fuel);
      SimFalls(r, L.Run(g.code, a.s, w.lf, fuel), a.c, d, Falls(e), true);
      BreakStep(a, g.code, g.next, r, w, fuel);
    }
  }

  // ---- let ----

  lemma {:induction false} LetCorrect(s: R.Stmt, a: State, w: World, fuel: nat)
    requires hide *; s.Let? && Ready(a) && FitsStmt(s, a.q) && Compiled(w)
    ensures var g := GenLet(s.name, s.init, a.c, a.n);
            Advances(a, LetResult(R.Eval(s.init, a.env, w.rf, fuel), s.name), L.Run(g.code, a.s, w.lf, fuel),
                     a.c.(sub := g.sub), LetScopeOf(s.name, a.q), g.next)
    decreases fuel, s, 0
  {
    hide Ready, DestReady, Compiled, L.Run, Sim, Computes, GenTo, Inline, R.Eval, Fits, Falls, Advances, Removable, SubClear, NamesApart;
    var x, init := s.name, s.init;
    var r := R.Eval(init, a.env, w.rf, fuel);
    assert a.c.(sub := a.c.sub) == a.c;
    LetIsFresh(s, a.q);
    EvalShape(init, a.env, w.rf, fuel);
    DestNone(a);
    if x !in a.c.mentioned && Removable(init) {
      RemovableIsSilent(init, a.env, w.rf, fuel);
      DroppedLet(a, x, r, w, fuel);
    } else {
      ReadyIsLive(a);
      LetScope(s, a.c, a.q);
      if x !in a.c.mentioned && Discardable(init) {
        if NeedsHoist(init) {
          HoistedReady(a, x);
          DestNone(a.(q := a.q.Bind({x})));
          ToCorrect(init, Discard, a.(q := a.q.Bind({x})), w, fuel);
        } else {
          ToCorrect(init, Discard, a, w, fuel);
        }
        DiscardedLet(a, x, GenTo(init, Discard, a.c, a.n).code, GenTo(init, Discard, a.c, a.n).next, r, Falls(init), w, fuel);
      } else if init.Try? {
        LetTryCorrect(s, a, w, fuel);
      } else if NeedsHoist(init) {
        var z := a.c.loc(x);
        ReadyHoisted(a, x);
        var a0 := State(a.c, a.q.Bind({x}), a.n, a.env, a.s + [L.Binding(z, L.NilV)]);
        assert Fits(init, a0.q, Var(z).ToReturn?);
        ToCorrect(init, Var(z), a0, w, fuel);
        var g := GenTo(init, Var(z), a.c, a.n);
        HoistedLet(a, x, g.code, g.next, r, Falls(init), w, fuel);
      } else {
        InlineCorrect(init, a, w, fuel);
        LetStep(a, x, Inline(init, a.c, a.n), r, w, fuel);
      }
    }
  }

  lemma LetIsFresh(s: R.Stmt, q: Scope)
    requires hide *; s.Let? && FitsStmt(s, q)
    ensures s.name !in q.live
  {
    hide FitsBlock, InlineOnly, Fits;
  }

  /** More live variables, none of them assignable. */
  lemma HoistedReady(a: State, x: string)
    requires Ready(a) && x !in a.q.live
    ensures Ready(a.(q := a.q.Bind({x})))
  {
    ReadyIsLive(a);
    forall z ensures Fixed(a.c, a.q, a.n, z) ==> Fixed(a.c, a.q.Bind({x}), a.n, z)
      ensures Old(a.c, a.q, a.n, z) ==> Old(a.c, a.q.Bind({x}), a.n, z)
    {
      FixedMonotone(a.c, a.q, a.n, a.q.Bind({x}), a.n, z);
    }
    hide Fixed, Old, NamesApart, Agree;
  }

  /** Dropping an initializer: it would only have produced a value nobody reads. */
  lemma DroppedLet(a: State, x: string, r: R.Result, w: World, fuel: nat)
    requires hide *; Ready(a) && x !in a.q.live && x !in a.c.mentioned
    requires r.Stuck? || (r.Done? && r.env == a.env)
    ensures Advances(a, LetResult(r, x), L.Run([], a.s, w.lf, fuel), a.c, LetScopeOf(x, a.q), a.n)
  {
    hide Ready, L.Run, Opens, SameBelow, L.Lookup, E.Enc, E.Expressible, Agree;
    RunNothing(a.s, w.lf, fuel);
    if r.Done? {
      LetUnused(a, x, r.v);
      SameBelowSelf(a.c, a.q.live);
      LetGrows(x, a.q);
    }
  }

  lemma {:induction false} LetTryCorrect(s: R.Stmt, a: State, w: World, fuel: nat)
    requires hide *; s.Let? && s.init.Try? && Ready(a) && FitsStmt(s, a.q) && Compiled(w)
    requires !(s.name !in a.c.mentioned && (Removable(s.init) || Discardable(s.init)))
    ensures var g := GenLet(s.name, s.init, a.c, a.n);
            Advances(a, LetResult(R.Eval(s.init, a.env, w.rf, fuel), s.name), L.Run(g.code, a.s, w.lf, fuel),
                     a.c.(sub := g.sub), LetScopeOf(s.name, a.q), g.next)
    decreases fuel, s.init, 8
  {
    hide Ready, Compiled, L.Run, Computes, Inline, Advances, Removable, SubClear, NamesApart, TryResult, Falls, R.EvalBlock, R.MatchFields,
      R.EvalElse, GenTo, FitsArm, R.MatchAny, R.FieldOf, FitsElse, M.ProvenExhaustive, R.EvalGuard, R.Set, R.MatchAll, R.Get, FitsArgs, R.RootFits,
      FitsBlock;
    var x, inner := s.name, s.init.inner;
    var r := R.Eval(inner, a.env, w.rf, fuel);
    var g := Inline(inner, a.c, a.n);
    assert a.c.(sub := a.c.sub) == a.c;
    LetIsFresh(s, a.q);
    ReadyIsLive(a);
    LetScope(s, a.c, a.q);
    ReadyMentions(a);
    assert Fits(inner, a.q, false);
    InlineCorrect(inner, a, w, fuel);
    EvalShape(inner, a.env, w.rf, fuel);
    TryEval(s.init, a.env, w, fuel);
    if s.init.isResult {
      LetTryResult(a, x, g, r, w, fuel);
    } else if ImmutablePath(inner, a.c) {
      assert r == R.FromOption(R.Get(a.env, inner.name), a.env);
      InlinePath(inner.name, a.c, a.n);
      LetTryAlias(a, x, inner.name, w, fuel);
    } else {
      LetTryOption(a, x, g, r, w, fuel);
    }
  }

  lemma InlinePath(x: string, c: Ctx, n: nat)
    ensures Inline(R.Path(x), c, n) == GenE([], Name(c.Res(x)), n)
  {
    hide GenArms, GenElse, GenTo, P.ElementTests, P.AndAll, P.FieldTests, GenLoop, GenBlock, EmitBindings, InlineArgs, GenReturnMatch;
  }

  lemma TryEval(e: R.Expr, env: R.Env, w: World, fuel: nat)
    requires hide *; e.Try?
    ensures R.Eval(e, env, w.rf, fuel) == TryResult(R.Eval(e.inner, env, w.rf, fuel), e.isResult)
  {
    hide R.MatchFields, R.EvalElse, R.MatchAny, R.Set, R.EvalGuard, R.MatchAll, R.Get, R.RootFits, R.EvalArgs, R.EvalLoop, R.EvalBlock;
  }

  // ---- match with a flag ----

  /** The state at a position among the arms: the value in one temporary, the flag, not yet set, in a later one. */
  ghost predicate AtArms(a: State, v: R.Val, flag: nat, n1: nat) {
    && Ready(a) && 1 <= a.n < flag <= n1 && E.Expressible(v)
    && L.Lookup(a.s, a.c.tmp(a.n)) == Some(E.Enc(v))
    && L.Lookup(a.s, a.c.tmp(flag)) == Some(L.BoolV(false))
  }

  lemma {:induction false} ArmsCorrect(arms: seq<R.Arm>, v: R.Val, d: Dest, a: State, flag: nat, n1: nat, w: World, fuel: nat)
    requires AtArms(a, v, flag, n1) && DestReady(a, d) && FitsArms(arms, a.q, d.ToReturn?) && Compiled(w)
    ensures var code := GenArms(arms, a.c.tmp(a.n), a.c.tmp(flag), d, a.c, n1).code + LastTest(a.c.tmp(flag));
            Sim(R.EvalArms(arms, v, a.env, w.rf, fuel), L.Run(code, a.s, w.lf, fuel), a.c, d, FallsArms(arms))
    decreases fuel, arms, 1
  {
    hide Ready, DestReady, Compiled, L.Run, L.Eval, L.Lookup, Sim, GenArm, ArmInside, ArmCondition, LastTest, FitsArm, FallsArm, R.EvalBody,
      R.EvalGuard, R.MatchArm, P.ArmTests, E.Enc, E.Expressible, AtArms;
    var m, z := a.c.tmp(a.n), a.c.tmp(flag);
    var code := GenArms(arms, m, z, d, a.c, n1).code + LastTest(z);
    assert L.Lookup(a.s, z) == Some(L.BoolV(false)) by { ArmsState(a, v, flag, n1); }
    if arms == [] {
      assert code == LastTest(z);
      LastTestRun(z, false, a.s, w.lf, fuel);
      PanicSim(L.Run(code, a.s, w.lf, fuel), a.c, d, false);
    } else {
      var arm := arms[0];
      assert arms == [arm] + arms[1..];
      var x := R.MatchArm(arm.pats, v);
      ArmConditionDecides(arm, v, a, flag, n1, w);
      if x.IllTyped? {
        StuckSim(L.Run(code, a.s, w.lf, fuel), a.c, d, FallsArms(arms));
      } else if x.No? {
        var n2 := GenArm(arm, m, z, d, a.c, n1).next;
        ArmRejected(arm, m, z, d, a.c, n1, a.s, w, fuel);
        ArmPassesOn(arm, arms[1..], m, z, d, a.c, n1, a.s, a.s, w, fuel);
        ArmsLater(a, v, flag, n1, n2);
        ArmsCorrect(arms[1..], v, d, a, flag, n2, w, fuel);
        SimFalls(R.EvalArms(arms[1..], v, a.env, w.rf, fuel), L.Run(code, a.s, w.lf, fuel), a.c, d, FallsArms(arms[1..]), FallsArms(arms));
      } else if arm.guard.None? {
        NoGuard(arm, a.env + x.binds, w, fuel);
        PlainArm(arm, v, d, a, flag, n1, w, fuel);
        var r := R.Leave(R.EvalBody(arm, a.env + x.binds, w.rf, fuel), |a.env|);
        SimFalls(r, L.Leave(L.Run(ArmInside(arm, m, z, d, a.c, n1), a.s, w.lf, fuel), |a.s|), a.c, d, FallsArm(arm), FallsArms(arms));
        ArmDecides(arm, arms[1..], m, z, d, a.c, n1, a.s, r, FallsArms(arms), w, fuel);
      } else {
        GuardedArmCorrect(arms, v, d, a, flag, n1, w, fuel);
      }
    }
  }

  lemma ArmsState(a: State, v: R.Val, flag: nat, n1: nat)
    requires AtArms(a, v, flag, n1)
    ensures Ready(a) && 1 <= a.n < flag <= n1 && E.Expressible(v)
    ensures L.Lookup(a.s, a.c.tmp(a.n)) == Some(E.Enc(v)) && L.Lookup(a.s, a.c.tmp(flag)) == Some(L.BoolV(false))
  {
    hide L.Lookup, E.Enc, E.Expressible, Ready;
  }

  lemma ArmsLater(a: State, v: R.Val, flag: nat, n1: nat, n2: nat)
    requires AtArms(a, v, flag, n1) && n1 <= n2
    ensures AtArms(a, v, flag, n2)
  {
    hide Ready, L.Lookup, E.Enc, E.Expressible;
  }

  lemma NoGuard(arm: R.Arm, env: R.Env, w: World, fuel: nat)
    requires arm.guard.None?
    ensures R.EvalGuard(arm.guard, env, w.rf, fuel) == R.Done(R.BoolVal(true), env)
  {
  }

  lemma PanicSim(o: L.Outcome, c: Ctx, d: Dest, falls: bool)
    requires o == L.Failed
    ensures Sim(R.Panic, o, c, d, falls)
  {
    hide L.Lookup, E.Enc, E.Expressible, Agree;
  }

  lemma ArmConditionDecides(arm: R.Arm, v: R.Val, a: State, flag: nat, n1: nat, w: World)
    requires AtArms(a, v, flag, n1)
    ensures var cond := ArmCondition(a.c.tmp(flag), P.ArmTests(arm.pats, Name(a.c.tmp(a.n)), None, a.c.mentioned).tests);
            match R.MatchArm(arm.pats, v)
            case Yes(_) => P.Passes(cond, a.s, w.lf)
            case No => P.Rejects(cond, a.s, w.lf)
            case IllTyped => true
  {
    hide Ready, L.Eval, L.Lookup, ArmCondition, P.ArmTests, P.AndAll, R.MatchArm, E.Enc, E.Expressible, P.CachedOk, P.Passes, P.Rejects;
    var m := Name(a.c.tmp(a.n));
    NameEval(a.c.tmp(a.n), a.s, w.lf);
    P.NoCachedTag(v, a.s, w.lf);
    P.ArmTestsDecide(arm.pats, v, m, None, a.c.mentioned, a.s, w.lf);
    FlagClear(a.c.tmp(flag), P.ArmTests(arm.pats, m, None, a.c.mentioned).tests, a.s, w.lf);
  }

  /** The state after the bindings of an arm that matched, with the value's temporary the last one in use. */
  function ArmState(arm: R.Arm, v: R.Val, a: State, w: World, fuel: nat): State
    requires hide *; R.MatchArm(arm.pats, v).Yes?
  {
    hide *;
    var b := EmitBindings(P.ArmTests(arm.pats, Name(a.c.tmp(a.n)), None, a.c.mentioned).binds, a.c);
    var o := L.Run(b.code, a.s, w.lf, fuel);
    State(a.c.(sub := b.sub), a.q.Bind(Elements(ArmBinders(arm.pats))), a.n, a.env + R.MatchArm(arm.pats, v).binds,
          if o.Normal? then o.store else a.s)
  }

  lemma ArmEntered(arm: R.Arm, v: R.Val, d: Dest, a: State, flag: nat, n1: nat, w: World, fuel: nat)
    requires hide *; AtArms(a, v, flag, n1) && DestReady(a, d) && NewBinders(ArmBinders(arm.pats), a.q) && R.MatchArm(arm.pats, v).Yes?
    ensures var b := EmitBindings(P.ArmTests(arm.pats, Name(a.c.tmp(a.n)), None, a.c.mentioned).binds, a.c);
            var a2 := ArmState(arm, v, a, w, fuel);
            && L.Run(b.code, a.s, w.lf, fuel) == L.Normal(a2.s) && Extends(a.s, a2.s)
            && Ready(a2) && DestReady(a2, d) && DestReady(a2.(n := n1), d)
            && L.Bound(a2.s, a2.c.tmp(flag))
            && SameBelow(a.c, a2.c, a.q.live)
            && DeclaresNew(b.code, a.c, a.q, n1)
            && SlotNames(R.MatchArm(arm.pats, v).binds) == ArmBinders(arm.pats)
            && 1 <= a.n < flag <= n1
  {
    hide Ready, DestReady, L.Run, L.Eval, L.Lookup, EmitBindings, P.ArmTests, R.MatchArm, E.Enc, E.Expressible, P.CachedOk, NewBinders,
      Fixed, Old, SameBelow, DeclaresNew, SubClear, NamesApart, BindsOf;
    var root := a.c.tmp(a.n);
    var binds := P.ArmTests(arm.pats, Name(root), None, a.c.mentioned).binds;
    var names := ArmBinders(arm.pats);
    var a2 := ArmState(arm, v, a, w, fuel);
    ReadyIsLive(a);
    OldTmp(a.c, a.q, a.n, a.n);
    NameEval(root, a.s, w.lf);
    P.NoCachedTag(v, a.s, w.lf);
    ArmReady(a, arm.pats, v, root, None, w, fuel);
    DestInside(a, a2, d);
    DestMore(a2, n1, d);
    ExtendsBound(a.s, a2.s, a.c.tmp(flag));
    ArmBindsOf(arm.pats, Name(root), None, a.c.mentioned);
    EmitKeepsLive(binds, names, a.c, a.q);
    EmitDeclares(binds, names, a.c, a.q, n1);
    ArmMatchBinders(arm.pats, v);
  }

  /** Setting the flag and running the body, from a state inside the arm. */
  lemma {:induction false} TakenArm(arm: R.Arm, d: Dest, a: State, flag: nat, n1: nat, w: World, fuel: nat)
    requires hide *; Ready(a) && a.n < flag <= n1 && L.Bound(a.s, a.c.tmp(flag)) && DestReady(a, d)
    requires Fits(arm.body, a.q, d.ToReturn?) && Compiled(w)
    ensures var r := R.EvalBody(arm, a.env, w.rf, fuel);
            var code := [L.Assign(Name(a.c.tmp(flag)), Bool(true))] + GenTo(arm.body, d, a.c, n1).code;
            var o := L.Run(code, a.s, w.lf, fuel);
            && Sim(r, o, a.c, d, FallsArm(arm)) && Shape(a.env, r)
            && (o.Normal? ==> L.Lookup(o.store, a.c.tmp(flag)) == Some(L.BoolV(true)))
            && DeclaresNew(code, a.c, a.q, n1)
    decreases fuel, arm, 1
  {
    hide Ready, DestReady, Compiled, L.Run, L.Lookup, L.Update, Sim, GenTo, R.Eval, Fits, Falls, Shape, Old, DeclaresNew, NamesApart,
      SubClear, Bounded;
    var z := a.c.tmp(flag);
    var s1 := L.Update(a.s, z, L.BoolV(true));
    var body := GenTo(arm.body, d, a.c, n1);
    ReadyUpdate(a, flag, L.BoolV(true));
    var a1 := a.(s := s1);
    ReadyMore(a1, n1);
    var a2 := a1.(n := n1);
    UpdateDest(a, d, z, n1);
    ToCorrect(arm.body, d, a2, w, fuel);
    EvalShape(arm.body, a.env, w.rf, fuel);
    ReadyIsLive(a2);
    ToMarks(arm.body, d, a.c, n1, a.q, d.ToReturn?, z, Written);
    FlagNotDest(a, d, flag);
    FlagKept(body.code, a.c, a.q, n1, body.next, d, flag, s1, w.lf, fuel);
    TakenStep(a.s, a.c, flag, body.code, R.EvalBody(arm, a.env, w.rf, fuel), d, FallsArm(arm), w, fuel);
    ToDeclares(arm.body, d, a.c, n1, a.q, d.ToReturn?);
    AssignDeclares(z, a.c, a.q, n1);
    DeclaresConcat([L.Assign(Name(z), Bool(true))], body.code, a.c, a.q, n1);
  }

  lemma UpdateDest(a: State, d: Dest, z: string, n1: nat)
    requires DestReady(a, d) && a.n <= n1
    ensures DestReady(a.(s := L.Update(a.s, z, L.BoolV(true)), n := n1), d)
  {
    hide Old, L.Update;
    assert Extends(a.s, L.Update(a.s, z, L.BoolV(true)));
    DestNext(a, n1, a.env, L.Update(a.s, z, L.BoolV(true)), d);
  }

  lemma FlagNotDest(a: State, d: Dest, flag: nat)
    requires Ready(a) && DestReady(a, d) && a.n < flag
    ensures d != Var(a.c.tmp(flag))
  {
    hide Agree, SubClear, SubFixed;
  }

  lemma AssignDeclares(z: string, c: Ctx, q: Scope, n: nat)
    ensures DeclaresNew([L.Assign(Name(z), Bool(true))], c, q, n)
  {
    hide Old, SomeMarks, Marks;
    forall x | Old(c, q, n, x) ensures !SomeMarks([L.Assign(Name(z), Bool(true))], x, Declared) {
      AssignMarks(z, Bool(true), x, Declared);
      MarksBreaking([L.Assign(Name(z), Bool(true))], x);
    }
  }

  lemma ArmFits(arm: R.Arm, q: Scope, ret: bool)
    requires hide *; FitsArm(arm, q, ret)
    ensures NewBinders(ArmBinders(arm.pats), q)
    ensures Fits(arm.body, q.Bind(Elements(ArmBinders(arm.pats))), ret)
    ensures arm.guard.Some? ==> Fits(arm.guard.value, q.Bind(Elements(ArmBinders(arm.pats))), false)
  {
    hide Fits, Binders;
  }

  /** From inside the arm's scope to outside it, and out of the Lua block. */
  lemma ArmOut(arm: R.Arm, v: R.Val, d: Dest, a: State, a2: State, b: Code, inside: Code, flag: nat, n1: nat, r: R.Result, falls: bool, w: World, fuel: nat)
    requires hide *;
             Ready(a) && DestReady(a, d) && 1 <= a.n < flag <= n1 && NewBinders(ArmBinders(arm.pats), a.q) && R.MatchArm(arm.pats, v).Yes?
    requires SlotNames(R.MatchArm(arm.pats, v).binds) == ArmBinders(arm.pats)
    requires L.Run(b, a.s, w.lf, fuel) == L.Normal(a2.s) && SameBelow(a.c, a2.c, a.q.live) && a2.c.tmp == a.c.tmp
    requires a2.c == a.c.(sub := a2.c.sub) && Shape(a.env + R.MatchArm(arm.pats, v).binds, r)
    requires var o := L.Run(inside, a2.s, w.lf, fuel);
             Sim(r, o, a2.c, d, falls) && (o.Normal? && !r.Stuck? ==> L.Lookup(o.store, a.c.tmp(flag)) == Some(L.BoolV(true)))
    requires DeclaresNew(b, a.c, a.q, n1) && DeclaresNew(inside, a.c, a.q, n1)
    ensures var l := L.Leave(L.Run(b + inside, a.s, w.lf, fuel), |a.s|);
            var out := R.Leave(r, |a.env|);
            Sim(out, l, a.c, d, falls) && (l.Normal? && !out.Stuck? ==> L.Lookup(l.store, a.c.tmp(flag)) == Some(L.BoolV(true)))
  {
    hide Ready, DestReady, L.Run, L.Lookup, Sim, R.MatchArm, NewBinders, SameBelow, DeclaresNew;
    var slots := R.MatchArm(arm.pats, v).binds;
    RunAppend(b, inside, a.s, w.lf, fuel);
    BoundBody(a, ArmBinders(arm.pats), slots, Binds(b, a2.c.sub), inside, d, r, falls, w, fuel);
    DeclaresConcat(b, inside, a.c, a.q, n1);
    SlotsShape(a.env, slots, r);
    ReadyMore(a, n1);
    DestMore(a, n1, d);
    LeaveArm(a.(n := n1), b + inside, R.Leave(r, |a.env|), d, falls, flag, w, fuel);
  }

  lemma {:induction false} PlainArm(arm: R.Arm, v: R.Val, d: Dest, a: State, flag: nat, n1: nat, w: World, fuel: nat)
    requires hide *; AtArms(a, v, flag, n1) && DestReady(a, d) && FitsArm(arm, a.q, d.ToReturn?) && Compiled(w)
    requires R.MatchArm(arm.pats, v).Yes? && arm.guard.None?
    ensures var l := L.Leave(L.Run(ArmInside(arm, a.c.tmp(a.n), a.c.tmp(flag), d, a.c, n1), a.s, w.lf, fuel), |a.s|);
            var r := R.Leave(R.EvalBody(arm, a.env + R.MatchArm(arm.pats, v).binds, w.rf, fuel), |a.env|);
            && Sim(r, l, a.c, d, FallsArm(arm))
            && (l.Normal? && !r.Stuck? ==> L.Lookup(l.store, a.c.tmp(flag)) == Some(L.BoolV(true)))
    decreases fuel, arm, 2
  {
    hide Ready, DestReady, Compiled, L.Run, L.Lookup, Sim, GenTo, EmitBindings, P.ArmTests, Fits, FallsArm, R.EvalBody, R.MatchArm, Shape,
      NewBinders, DeclaresNew, SameBelow, AtArms, FitsArm, Inline;
    ArmsState(a, v, flag, n1);
    ArmFits(arm, a.q, d.ToReturn?);
    ArmEntered(arm, v, d, a, flag, n1, w, fuel);
    var a2 := ArmState(arm, v, a, w, fuel);
    var b := EmitBindings(P.ArmTests(arm.pats, Name(a.c.tmp(a.n)), None, a.c.mentioned).binds, a.c);
    var inside := [L.Assign(Name(a.c.tmp(flag)), Bool(true))] + GenTo(arm.body, d, a2.c, n1).code;
    TakenArm(arm, d, a2, flag, n1, w, fuel);
    DeclaresOutside(inside, a.c, a.q, a2.c, a2.q, n1);
    ArmOut(arm, v, d, a, a2, b.code, inside, flag, n1, R.EvalBody(arm, a2.env, w.rf, fuel), FallsArm(arm), w, fuel);
  }

  // guarded arms

  lemma WhenDeclares(cond: Expr, body: Code, c: Ctx, q: Scope, n: nat)
    ensures DeclaresNew([When(cond, body)], c, q, n)
  {
    hide Old, SomeMarks, Marks;
    forall x | Old(c, q, n, x) ensures !SomeMarks([When(cond, body)], x, Declared) {
      WhenMarks(cond, body, x, Declared);
      MarksBreaking([When(cond, body)], x);
    }
  }

  /** The guard and what follows it, inside the arm's Lua block. */
  ghost function AfterBindings(arm: R.Arm, flag: string, d: Dest, c: Ctx, n: nat): Code
    requires hide *; arm.guard.Some?
  {
    hide *;
    var g := Inline(arm.guard.value, c, n);
    g.code + [When(g.e, [L.Assign(Name(flag), Bool(true))] + GenTo(arm.body, d, c, g.next).code)]
  }

  lemma ArmInsideGuarded(arm: R.Arm, v: R.Val, d: Dest, a: State, flag: string, n1: nat, w: World, fuel: nat)
    requires hide *; arm.guard.Some? && R.MatchArm(arm.pats, v).Yes?
    ensures var a2 := ArmState(arm, v, a, w, fuel);
            var b := EmitBindings(P.ArmTests(arm.pats, Name(a.c.tmp(a.n)), None, a.c.mentioned).binds, a.c);
            ArmInside(arm, a.c.tmp(a.n), flag, d, a.c, n1) == b.code + AfterBindings(arm, flag, d, a2.c, n1)
            && a2.c == a.c.(sub := b.sub)
  {
    hide P.ArmTests, EmitBindings, GenTo, Inline, R.MatchArm, L.Run;
  }

  lemma AfterDeclares(arm: R.Arm, flag: string, d: Dest, c: Ctx, q: Scope, c2: Ctx, q2: Scope, n1: nat)
    requires hide *; arm.guard.Some? && Fits(arm.guard.value, q2, false) && SubClear(c2, q2) && NamesApart(c2)
    requires c2.loc == c.loc && c2.tmp == c.tmp && q.live <= q2.live
    ensures DeclaresNew(AfterBindings(arm, flag, d, c2, n1), c, q, n1)
  {
    hide Inline, GenTo, Fits, SubClear, NamesApart, DeclaresNew;
    var g := Inline(arm.guard.value, c2, n1);
    InlineDeclares(arm.guard.value, c2, n1, q2);
    DeclaresOutside(g.code, c, q, c2, q2, n1);
    var body := [L.Assign(Name(flag), Bool(true))] + GenTo(arm.body, d, c2, g.next).code;
    WhenDeclares(g.e, body, c, q, n1);
    DeclaresConcat(g.code, [When(g.e, body)], c, q, n1);
  }

  lemma GuardEval(guard: R.Expr, env: R.Env, w: World, fuel: nat)
    ensures R.EvalGuard(Some(guard), env, w.rf, fuel) == R.Eval(guard, env, w.rf, fuel)
  {
    hide R.Eval;
  }

  /** The guard exits or holds: what the arm has done when control leaves its bindings' scope. */
  lemma {:induction false} GuardHolds(arm: R.Arm, d: Dest, a: State, flag: nat, n1: nat, w: World, fuel: nat)
    requires hide *; Ready(a) && DestReady(a, d) && 1 <= a.n < flag <= n1 && L.Bound(a.s, a.c.tmp(flag)) && Compiled(w)
    requires arm.guard.Some? && Fits(arm.guard.value, a.q, false) && Fits(arm.body, a.q, d.ToReturn?)
    requires var rg := R.Eval(arm.guard.value, a.env, w.rf, fuel); rg.Done? ==> rg.v == R.BoolVal(true)
    ensures var rg := R.Eval(arm.guard.value, a.env, w.rf, fuel);
            var r := if rg.Done? then R.EvalBody(arm, rg.env, w.rf, fuel) else rg;
            var o := L.Run(AfterBindings(arm, a.c.tmp(flag), d, a.c, n1), a.s, w.lf, fuel);
            && Sim(r, o, a.c, d, FallsArm(arm)) && Shape(a.env, r)
            && (o.Normal? && !r.Stuck? ==> L.Lookup(o.store, a.c.tmp(flag)) == Some(L.BoolV(true)))
    decreases fuel, arm, 3
  {
    hide Ready, DestReady, Compiled, L.Run, L.Eval, L.Lookup, Sim, Computes, GenTo, Inline, Fits, FallsArm, R.EvalBody, R.Eval, Shape, DeclaresNew,
      Agree;
    var z := a.c.tmp(flag);
    var guard := arm.guard.value;
    var an := a.(n := n1);
    var g := Inline(guard, a.c, n1);
    var body := [L.Assign(Name(z), Bool(true))] + GenTo(arm.body, d, a.c, g.next).code;
    var rg := R.Eval(guard, a.env, w.rf, fuel);
    ReadyMore(a, n1);
    InlineCorrect(guard, an, w, fuel);
    EvalShape(guard, a.env, w.rf, fuel);
    RunAppend(g.code, [When(g.e, body)], a.s, w.lf, fuel);
    if rg.Done? {
      NextOperand(an, rg, g, w, fuel);
      var s3 := L.Run(g.code, a.s, w.lf, fuel).store;
      var a3 := a.(env := rg.env, s := s3);
      GuardState(a, an, g, rg, w, fuel);
      DestNext(a, a.n, rg.env, s3, d);
      ExtendsBound(a.s, s3, z);
      TakenArm(arm, d, a3, flag, g.next, w, fuel);
      GuardValue(rg, g, an, w, fuel);
      WhenRun(g.e, body, s3, w.lf, fuel);
      ReadyMore(a3, g.next);
      DestMore(a3, g.next, d);
      var r := R.EvalBody(arm, rg.env, w.rf, fuel);
      LeaveArm(a3.(n := g.next), body, r, d, FallsArm(arm), flag, w, fuel);
      SameShape(a.env, rg, r);
    } else {
      ComputesExits(rg, L.Run(g.code, a.s, w.lf, fuel), g.e, a.c, w);
      ExitFirst(g.code, [When(g.e, body)], a.s, w.lf, fuel, rg, a.c);
      ExitSim(rg, L.Run(g.code + [When(g.e, body)], a.s, w.lf, fuel), a.c, d, FallsArm(arm));
      ExitsNotDone(rg, L.Run(g.code + [When(g.e, body)], a.s, w.lf, fuel), a.c);
    }
  }

  lemma SameShape(env: R.Env, mid: R.Result, r: R.Result)
    requires Shape(env, mid) && mid.Done? && Shape(mid.env, r)
    ensures Shape(env, r)
  {
    ShapeThen(env, mid.env, r);
  }

  lemma GuardState(a: State, an: State, g: GenE, r: R.Result, w: World, fuel: nat)
    requires hide *; Ready(a) && an == a.(n := an.n) && a.n <= an.n && r.Done? && Shape(a.env, r)
    requires Computes(r, L.Run(g.code, a.s, w.lf, fuel), g.e, a.c, w)
    ensures var o := L.Run(g.code, a.s, w.lf, fuel);
            o.Normal? && Ready(a.(env := r.env, s := o.store)) && Extends(a.s, o.store)
  {
    hide Ready, L.Run, L.Eval, Agree, L.Lookup, E.Enc, E.Expressible;
    RunExtends(g.code, a.s, w.lf, fuel);
    ReadyNext(a, a.n, r.env, L.Run(g.code, a.s, w.lf, fuel).store);
  }

  lemma GuardValue(r: R.Result, g: GenE, a: State, w: World, fuel: nat)
    requires hide *; r.Done? && r.v.BoolVal? && Computes(r, L.Run(g.code, a.s, w.lf, fuel), g.e, a.c, w)
    ensures var o := L.Run(g.code, a.s, w.lf, fuel);
            o.Normal? && L.Eval(g.e, o.store, w.lf) == Some(L.BoolV(r.v.b)) && Agree(a.c, r.env, o.store, None)
  {
    hide L.Run, L.Eval, Agree;
  }

  /** The guard is false: the arm has changed only what the guard changed. */
  lemma {:induction false} GuardFails(arm: R.Arm, v: R.Val, d: Dest, a: State, flag: nat, n1: nat, w: World, fuel: nat)
    requires hide *; AtArms(a, v, flag, n1) && DestReady(a, d) && FitsArm(arm, a.q, d.ToReturn?) && Compiled(w)
    requires R.MatchArm(arm.pats, v).Yes? && arm.guard.Some?
    requires var rg := R.Eval(arm.guard.value, a.env + R.MatchArm(arm.pats, v).binds, w.rf, fuel); rg.Done? && rg.v == R.BoolVal(false)
    ensures var rg := R.Eval(arm.guard.value, a.env + R.MatchArm(arm.pats, v).binds, w.rf, fuel);
            var x := GenArm(arm, a.c.tmp(a.n), a.c.tmp(flag), d, a.c, n1);
            var o := L.Run(x.code, a.s, w.lf, fuel);
            && o.Normal? && |a.env| <= |rg.env| && Extends(a.s, o.store)
            && AtArms(a.(env := rg.env[..|a.env|], s := o.store), v, flag, x.next)
            && SameNames(a.env, rg.env[..|a.env|])
    decreases fuel, arm, 4
  {
    hide Ready, DestReady, Compiled, L.Run, L.Eval, L.Lookup, Computes, GenTo, Inline, Fits, R.Eval, R.MatchArm, Shape, Old, DeclaresNew, Agree,
      ArmCondition, P.ArmTests, EmitBindings, AtArms, FitsArm, NewBinders, SameBelow, E.Enc, E.Expressible, NamesApart, SubClear, GenArm;
    ArmsState(a, v, flag, n1);
    ArmFits(arm, a.q, d.ToReturn?);
    ArmEntered(arm, v, d, a, flag, n1, w, fuel);
    var m, z := a.c.tmp(a.n), a.c.tmp(flag);
    var a2 := ArmState(arm, v, a, w, fuel);
    var slots := R.MatchArm(arm.pats, v).binds;
    var tests := P.ArmTests(arm.pats, Name(m), None, a.c.mentioned);
    var b := EmitBindings(tests.binds, a.c);
    var inside := AfterBindings(arm, z, d, a2.c, n1);
    var all := b.code + inside;
    var g := Inline(arm.guard.value, a2.c, n1);
    var body := [L.Assign(Name(z), Bool(true))] + GenTo(arm.body, d, a2.c, g.next).code;
    var rg := R.Eval(arm.guard.value, a2.env, w.rf, fuel);
    var an := a2.(n := n1);
    ReadyMore(a2, n1);
    InlineCorrect(arm.guard.value, an, w, fuel);
    EvalShape(arm.guard.value, a2.env, w.rf, fuel);
    GuardValue(rg, g, an, w, fuel);
    var s3 := L.Run(g.code, a2.s, w.lf, fuel).store;
    RunAppend(g.code, [When(g.e, body)], a2.s, w.lf, fuel);
    WhenRun(g.e, body, s3, w.lf, fuel);
    assert L.Run(inside, a2.s, w.lf, fuel) == L.Normal(s3);
    ArmInsideGuarded(arm, v, d, a, z, n1, w, fuel);
    ArmCode(arm, m, z, d, a.c, n1);
    ArmConditionDecides(arm, v, a, flag, n1, w);
    WhenRun(ArmCondition(z, tests.tests), ArmInside(arm, m, z, d, a.c, n1), a.s, w.lf, fuel);
    ReadyIsLive(a2);
    AfterDeclares(arm, z, d, a.c, a.q, a2.c, a2.q, n1);
    DeclaresConcat(b.code, inside, a.c, a.q, n1);
    FailedOut(arm, v, a, a2, b, inside, rg, s3, n1, w, fuel);
    RunAppend(b.code, inside, a.s, w.lf, fuel);
    ReadyIsLive(a);
    ArmKeeps(arm, a, a2, b, g, n1, a.n, w, fuel);
    ArmKeeps(arm, a, a2, b, g, n1, flag, w, fuel);
    OldTmp(a.c, a.q, n1, a.n);
    OldTmp(a.c, a.q, n1, flag);
    LeaveLookup(all, a.c, a.q, n1, a.s, w.lf, fuel, m);
    LeaveLookup(all, a.c, a.q, n1, a.s, w.lf, fuel, z);
    AtArmsAgain(a, v, flag, n1, GenArm(arm, m, z, d, a.c, n1).next, rg.env[..|a.env|], s3[..|a.s|]);
  }

  lemma AtArmsAgain(a: State, v: R.Val, flag: nat, n1: nat, n2: nat, env: R.Env, s: L.Store)
    requires AtArms(a, v, flag, n1) && n1 <= n2 && Ready(a.(env := env, s := s))
    requires L.Lookup(s, a.c.tmp(a.n)) == L.Lookup(a.s, a.c.tmp(a.n)) && L.Lookup(s, a.c.tmp(flag)) == L.Lookup(a.s, a.c.tmp(flag))
    ensures AtArms(a.(env := env, s := s), v, flag, n2)
  {
    hide Ready, L.Lookup, E.Enc, E.Expressible;
  }

  /** Bindings and guard do not touch the temporaries of the match. */
  lemma ArmKeeps(arm: R.Arm, a: State, a2: State, b: Binds, g: GenE, n1: nat, i: nat, w: World, fuel: nat)
    requires hide *; Ready(a) && Ready(a2) && 1 <= i <= n1 && arm.guard.Some?
    requires NewBinders(ArmBinders(arm.pats), a.q) && a2.q == a.q.Bind(Elements(ArmBinders(arm.pats)))
    requires b == EmitBindings(P.ArmTests(arm.pats, Name(a.c.tmp(a.n)), None, a.c.mentioned).binds, a.c) && a2.c == a.c.(sub := b.sub)
    requires g == Inline(arm.guard.value, a2.c, n1) && Fits(arm.guard.value, a2.q, false)
    requires L.Run(b.code, a.s, w.lf, fuel) == L.Normal(a2.s)
    ensures var o := L.Run(g.code, a2.s, w.lf, fuel); o.Normal? ==> L.Lookup(o.store, a.c.tmp(i)) == L.Lookup(a.s, a.c.tmp(i))
  {
    hide Ready, L.Run, L.Lookup, Inline, Fits, EmitBindings, P.ArmTests, NewBinders, NamesApart, SubClear, Bounded, Allowed, Marks, BindsOf;
    var z := a.c.tmp(i);
    var root := Name(a.c.tmp(a.n));
    var binds := P.ArmTests(arm.pats, root, None, a.c.mentioned).binds;
    ReadyIsLive(a);
    ReadyIsLive(a2);
    ArmBindsOf(arm.pats, root, None, a.c.mentioned);
    EmitMarks(binds, ArmBinders(arm.pats), a.c, a.q, n1, n1, Discard, z, Written);
    BoundedIs(b.code, a.c, a.q, n1, n1, Discard, z, Written);
    FlagKept(b.code, a.c, a.q, n1, n1, Discard, i, a.s, w.lf, fuel);
    InlineMarks(arm.guard.value, a2.c, n1, a2.q, z, Written);
    FlagKept(g.code, a2.c, a2.q, n1, g.next, Discard, i, a2.s, w.lf, fuel);
  }

  lemma FailedOut(arm: R.Arm, v: R.Val, a: State, a2: State, b: Binds, inside: Code, rg: R.Result, s3: L.Store, n1: nat, w: World, fuel: nat)
    requires hide *; Ready(a) && a.n <= n1 && R.MatchArm(arm.pats, v).Yes? && NewBinders(ArmBinders(arm.pats), a.q)
    requires SlotNames(R.MatchArm(arm.pats, v).binds) == ArmBinders(arm.pats)
    requires a2.c == a.c.(sub := b.sub) && SameBelow(a.c, a2.c, a.q.live)
    requires L.Run(b.code, a.s, w.lf, fuel) == L.Normal(a2.s) && L.Run(inside, a2.s, w.lf, fuel) == L.Normal(s3)
    requires rg.Done? && Shape(a.env + R.MatchArm(arm.pats, v).binds, rg) && Agree(a2.c, rg.env, s3, None)
    requires DeclaresNew(b.code + inside, a.c, a.q, n1)
    ensures |a.env| <= |rg.env| && |a.s| <= |s3| && SameNames(a.env, rg.env[..|a.env|]) && Extends(a.s, s3[..|a.s|])
    ensures Ready(a.(env := rg.env[..|a.env|], s := s3[..|a.s|]))
  {
    hide Ready, L.Run, L.Lookup, R.MatchArm, NewBinders, SameBelow, DeclaresNew, Agree, Old;
    var slots := R.MatchArm(arm.pats, v).binds;
    var unit := R.Done(R.UnitVal, rg.env);
    RunAppend(b.code, inside, a.s, w.lf, fuel);
    BoundBody(a, ArmBinders(arm.pats), slots, b, inside, Discard, unit, false, w, fuel);
    SlotsShape(a.env, slots, unit);
    DeclaresEarlier(b.code + inside, a.c, a.q, a.n, n1);
    DestNone(a);
    LeaveSim(a, b.code + inside, w.lf, fuel, R.Leave(unit, |a.env|), Discard, false);
    RunExtends(b.code + inside, a.s, w.lf, fuel);
    ReadyNext(a, a.n, rg.env[..|a.env|], s3[..|a.s|]);
  }

  lemma {:induction false} GuardedArmCorrect(arms: seq<R.Arm>, v: R.Val, d: Dest, a: State, flag: nat, n1: nat, w: World, fuel: nat)
    requires hide *; AtArms(a, v, flag, n1) && DestReady(a, d) && FitsArms(arms, a.q, d.ToReturn?) && Compiled(w)
    requires arms != [] && arms[0].guard.Some? && R.MatchArm(arms[0].pats, v).Yes?
    ensures var code := GenArms(arms, a.c.tmp(a.n), a.c.tmp(flag), d, a.c, n1).code + LastTest(a.c.tmp(flag));
            Sim(R.EvalArms(arms, v, a.env, w.rf, fuel), L.Run(code, a.s, w.lf, fuel), a.c, d, FallsArms(arms))
    decreases fuel, arms, 0
  {
    hide Ready, DestReady, Compiled, L.Run, L.Eval, L.Lookup, Sim, GenArm, GenArms, ArmInside, ArmCondition, LastTest, FitsArm, FallsArm,
      Fits, R.EvalBody, R.Eval, R.MatchArm, P.ArmTests, EmitBindings, E.Enc, E.Expressible, AtArms, AfterBindings, DeclaresNew, SameBelow,
      NewBinders, NamesApart, SubClear, Binders;
    var arm := arms[0];
    assert arms == [arm] + arms[1..];
    var m, z := a.c.tmp(a.n), a.c.tmp(flag);
    var code := GenArms(arms, m, z, d, a.c, n1).code + LastTest(z);
    var slots := R.MatchArm(arm.pats, v).binds;
    var rg := R.Eval(arm.guard.value, a.env + slots, w.rf, fuel);
    GuardEval(arm.guard.value, a.env + slots, w, fuel);
    ArmsState(a, v, flag, n1);
    ArmFits(arm, a.q, d.ToReturn?);
    EvalShape(arm.guard.value, a.env + slots, w.rf, fuel);
    if rg.Done? && !rg.v.BoolVal? {
      StuckSim(L.Run(code, a.s, w.lf, fuel), a.c, d, FallsArms(arms));
    } else if rg.Done? && !rg.v.b {
      var x := GenArm(arm, m, z, d, a.c, n1);
      GuardFails(arm, v, d, a, flag, n1, w, fuel);
      var a1 := a.(env := rg.env[..|a.env|], s := L.Run(x.code, a.s, w.lf, fuel).store);
      ArmPassesOn(arm, arms[1..], m, z, d, a.c, n1, a.s, a1.s, w, fuel);
      DestNext(a, a.n, a1.env, a1.s, d);
      ArmsCorrect(arms[1..], v, d, a1, flag, x.next, w, fuel);
      SimFalls(R.EvalArms(arms[1..], v, a1.env, w.rf, fuel), L.Run(code, a.s, w.lf, fuel), a.c, d, FallsArms(arms[1..]), FallsArms(arms));
    } else {
      var a2 := ArmState(arm, v, a, w, fuel);
      var b := EmitBindings(P.ArmTests(arm.pats, Name(m), None, a.c.mentioned).binds, a.c);
      var inside := AfterBindings(arm, z, d, a2.c, n1);
      ArmEntered(arm, v, d, a, flag, n1, w, fuel);
      GuardHolds(arm, d, a2, flag, n1, w, fuel);
      ArmInsideGuarded(arm, v, d, a, z, n1, w, fuel);
      ReadyIsLive(a2);
      AfterDeclares(arm, z, d, a.c, a.q, a2.c, a2.q, n1);
      var r := if rg.Done? then R.EvalBody(arm, rg.env, w.rf, fuel) else rg;
      ArmOut(arm, v, d, a, a2, b.code, inside, flag, n1, r, FallsArm(arm), w, fuel);
      var out := R.Leave(r, |a.env|);
      SimFalls(out, L.Leave(L.Run(ArmInside(arm, m, z, d, a.c, n1), a.s, w.lf, fuel), |a.s|), a.c, d, FallsArm(arm), FallsArms(arms));
      ArmConditionDecides(arm, v, a, flag, n1, w);
      ArmDecides(arm, arms[1..], m, z, d, a.c, n1, a.s, out, FallsArms(arms), w, fuel);
      GuardedEval(arms, v, a.env, w, fuel);
    }
  }

  lemma GuardedEval(arms: seq<R.Arm>, v: R.Val, env: R.Env, w: World, fuel: nat)
    requires hide *; arms != [] && arms[0].guard.Some? && R.MatchArm(arms[0].pats, v).Yes?
    requires var rg := R.Eval(arms[0].guard.value, env + R.MatchArm(arms[0].pats, v).binds, w.rf, fuel);
             Shape(env + R.MatchArm(arms[0].pats, v).binds, rg) && (rg.Done? ==> rg.v == R.BoolVal(true))
    ensures var rg := R.Eval(arms[0].guard.value, env + R.MatchArm(arms[0].pats, v).binds, w.rf, fuel);
            R.EvalArms(arms, v, env, w.rf, fuel) ==
            R.Leave(if rg.Done? then R.EvalBody(arms[0], rg.env, w.rf, fuel) else rg, |env|)
  {
    hide R.Eval, R.MatchArm;
    GuardEval(arms[0].guard.value, env + R.MatchArm(arms[0].pats, v).binds, w, fuel);
  }

  // ---- match ----

  lemma MatchFits(e: R.Expr, q: Scope, ret: bool)
    requires hide *; e.Match? && Fits(e, q, ret)
    ensures Fits(e.scrut, q, false)
    ensures FitsArms(e.arms, if ret && NoGuards(e.arms) && e.scrut.Path? then q.Without({e.scrut.name}) else q, ret)
    ensures ret && NoGuards(e.arms) && M.ProvenExhaustive(M.Flatten(ArmPatterns(e.arms))) ==> Covers(e.arms)
  {
    hide R.MatchAny, R.MatchPattern, M.ProvenExhaustive;
  }

  lemma MatchEval(e: R.Expr, env: R.Env, w: World, fuel: nat)
    requires hide *; e.Match?
    ensures var r := R.Eval(e.scrut, env, w.rf, fuel);
            R.Eval(e, env, w.rf, fuel) ==
            if !r.Done? then r else if !R.ArmsFit(e.arms, r.v) then R.Stuck else R.EvalArms(e.arms, r.v, r.env, w.rf, fuel)
  {
    hide R.EvalArms, R.ArmsFit, R.EvalStmts, R.EvalElse, R.Set, R.Get, R.MatchPattern;
  }

  lemma {:induction false} MatchCorrect(e: R.Expr, d: Dest, a: State, w: World, fuel: nat)
    requires e.Match? && Ready(a) && DestReady(a, d) && Fits(e, a.q, d.ToReturn?) && Compiled(w)
    ensures Sim(R.Eval(e, a.env, w.rf, fuel), L.Run(GenControl(e, d, a.c, a.n).code, a.s, w.lf, fuel), a.c, d, Falls(e))
    decreases fuel, e, 1
  {
    hide Ready, DestReady, Compiled, L.Run, Sim, Inline, GenArms, Fits, FallsArms, R.Eval, GenControl;
    if d.ToReturn? && NoGuards(e.arms) {
      ReturnMatchCorrect(e, a, w, fuel);
    } else {
      FlagMatchCorrect(e, d, a, w, fuel);
      FlagMatchCode(e, d, a.c, a.n);
    }
  }

  ghost function FlagMatch(e: R.Expr, d: Dest, c: Ctx, n: nat): Code
    requires hide *; e.Match?
  {
    hide *;
    var g := Inline(e.scrut, c, n + 1);
    var m, z := c.tmp(n + 1), c.tmp(g.next + 1);
    g.code + [L.Local(m, Some(g.e)), L.Local(z, Some(Bool(false)))] + (GenArms(e.arms, m, z, d, c, g.next + 1).code + LastTest(z))
  }

  lemma FlagMatchCode(e: R.Expr, d: Dest, c: Ctx, n: nat)
    requires hide *; e.Match? && !(d.ToReturn? && NoGuards(e.arms))
    ensures GenControl(e, d, c, n).code == FlagMatch(e, d, c, n)
  {
    hide Inline, GenArms, GenReturnMatch, P.PatTest, P.AndAll, EmitBindings, GenStmts, GenElse, GenTo;
    var g := Inline(e.scrut, c, n + 1);
    var m, z := c.tmp(n + 1), c.tmp(g.next + 1);
    var x := g.code + [L.Local(m, Some(g.e)), L.Local(z, Some(Bool(false)))];
    assert x + GenArms(e.arms, m, z, d, c, g.next + 1).code + LastTest(z) == x + (GenArms(e.arms, m, z, d, c, g.next + 1).code + LastTest(z));
  }

  lemma {:induction false} FlagMatchCorrect(e: R.Expr, d: Dest, a: State, w: World, fuel: nat)
    requires hide *;
             e.Match? && Ready(a) && DestReady(a, d) && Fits(e, a.q, d.ToReturn?) && Compiled(w) && !(d.ToReturn? && NoGuards(e.arms))
    ensures Sim(R.Eval(e, a.env, w.rf, fuel), L.Run(FlagMatch(e, d, a.c, a.n), a.s, w.lf, fuel), a.c, d, Falls(e))
    decreases fuel, e, 0
  {
    hide Ready, DestReady, Compiled, L.Run, L.Lookup, Sim, Computes, Inline, GenArms, Fits, FitsArms, Covers, FallsArms, R.Eval,
      R.EvalArms, R.ArmsFit, LastTest, Shape, E.Enc, E.Expressible, Exits;
    MatchFits(e, a.q, d.ToReturn?);
    MatchEval(e, a.env, w, fuel);
    var a0 := a.(n := a.n + 1);
    var g := Inline(e.scrut, a.c, a.n + 1);
    var m, z := a.c.tmp(a.n + 1), a.c.tmp(g.next + 1);
    var r := R.Eval(e.scrut, a.env, w.rf, fuel);
    var locals := [L.Local(m, Some(g.e)), L.Local(z, Some(Bool(false)))];
    var rest := GenArms(e.arms, m, z, d, a.c, g.next + 1).code + LastTest(z);
    var all := L.Run(FlagMatch(e, d, a.c, a.n), a.s, w.lf, fuel);
    ReadyMore(a, a.n + 1);
    InlineCorrect(e.scrut, a0, w, fuel);
    EvalShape(e.scrut, a.env, w.rf, fuel);
    RunAppend(g.code + locals, rest, a.s, w.lf, fuel);
    if r.Done? {
      if R.ArmsFit(e.arms, r.v) {
        MatchEntry(a, g, r, w, fuel);
        var s2 := L.Run(g.code + locals, a.s, w.lf, fuel).store;
        var a1 := a.(n := a.n + 1, env := r.env, s := s2);
        assert AtArms(a1, r.v, g.next + 1, g.next + 1);
        DestNext(a, a.n + 1, r.env, s2, d);
        ArmsCorrect(e.arms, r.v, d, a1, g.next + 1, g.next + 1, w, fuel);
        FallsMatch(e);
      } else {
        StuckSim(all, a.c, d, Falls(e));
      }
    } else {
      ComputesExits(r, L.Run(g.code, a.s, w.lf, fuel), g.e, a.c, w);
      ExitFirst(g.code, locals, a.s, w.lf, fuel, r, a.c);
      ExitFirst(g.code + locals, rest, a.s, w.lf, fuel, r, a.c);
      ExitSim(r, all, a.c, d, Falls(e));
    }
  }

  lemma FallsMatch(e: R.Expr)
    requires e.Match?
    ensures Falls(e) == FallsArms(e.arms)
  {
  }

  // ---- match in return position ----

  /** One arm of the chain: bindings, then the body, whose value is returned. */
  lemma {:induction false} ReturnBodyCorrect(arm: R.Arm, v: R.Val, root: string, cached: Option<Expr>, a: State, w: World, fuel: nat)
    requires hide *; Ready(a) && FitsArm(arm, a.q, true) && Compiled(w)
    requires Fixed(a.c, a.q, a.n, root) && E.Expressible(v) && L.Eval(Name(root), a.s, w.lf) == Some(E.Enc(v)) && P.CachedOk(cached, v, a.s, w.lf)
    requires R.MatchArm(arm.pats, v).Yes?
    ensures var x := GenReturnBody(arm, EmitBindings(P.ArmTests(arm.pats, Name(root), cached, a.c.mentioned).binds, a.c), a.c, a.n);
            var r := R.Leave(R.EvalBody(arm, a.env + R.MatchArm(arm.pats, v).binds, w.rf, fuel), |a.env|);
            && Sim(r, L.Run(x.code, a.s, w.lf, fuel), a.c, ToReturn, FallsArm(arm)) && Shape(a.env, r)
            && DeclaresNew(x.code, a.c, a.q, a.n)
    decreases fuel, arm, 1
  {
    hide Ready, Compiled, L.Run, L.Eval, Sim, GenTo, EmitBindings, P.ArmTests, R.Eval, R.MatchArm, Fits, Falls, Shape, Fixed, Old,
      NewBinders, DeclaresNew, SameBelow, NamesApart, SubClear, BindsOf, E.Enc, E.Expressible, P.CachedOk, FitsArm;
    var names, slots := ArmBinders(arm.pats), R.MatchArm(arm.pats, v).binds;
    var binds := P.ArmTests(arm.pats, Name(root), cached, a.c.mentioned).binds;
    var b := EmitBindings(binds, a.c);
    var c1, q1 := a.c.(sub := b.sub), a.q.Bind(Elements(names));
    var body := GenTo(arm.body, ToReturn, c1, a.n);
    ArmFits(arm, a.q, true);
    ArmReady(a, arm.pats, v, root, cached, w, fuel);
    var a1 := State(c1, q1, a.n, a.env + slots, L.Run(b.code, a.s, w.lf, fuel).store);
    DestNone(a1);
    ToCorrect(arm.body, ToReturn, a1, w, fuel);
    EvalShape(arm.body, a1.env, w.rf, fuel);
    ArmMatchBinders(arm.pats, v);
    ArmBindsOf(arm.pats, Name(root), cached, a.c.mentioned);
    EmitKeepsLive(binds, names, a.c, a.q);
    BoundBody(a, names, slots, b, body.code, ToReturn, R.Eval(arm.body, a1.env, w.rf, fuel), FallsArm(arm), w, fuel);
    SlotsShape(a.env, slots, R.Eval(arm.body, a1.env, w.rf, fuel));
    ReadyIsLive(a);
    ReadyIsLive(a1);
    EmitDeclares(binds, names, a.c, a.q, a.n);
    ToDeclares(arm.body, ToReturn, c1, a.n, q1, true);
    DeclaresOutside(body.code, a.c, a.q, c1, q1, a.n);
    DeclaresConcat(b.code, body.code, a.c, a.q, a.n);
  }

  /** The value is there to be matched on, and a cached tag is its tag. */
  ghost predicate AtChain(a: State, v: R.Val, root: string, cached: Option<Expr>, w: World) {
    && Ready(a) && Fixed(a.c, a.q, a.n, root) && E.Expressible(v)
    && L.Eval(Name(root), a.s, w.lf) == Some(E.Enc(v)) && P.CachedOk(cached, v, a.s, w.lf)
  }

  lemma AtChainLater(a: State, v: R.Val, root: string, cached: Option<Expr>, w: World, n1: nat)
    requires AtChain(a, v, root, cached, w) && a.n <= n1
    ensures AtChain(a.(n := n1), v, root, cached, w)
  {
    hide Ready, L.Eval, P.CachedOk, Fixed, E.Enc, E.Expressible;
    ReadyMore(a, n1);
    FixedMonotone(a.c, a.q, a.n, a.q, n1, root);
  }

  function LastOf(chain: Chain): Code {
    if chain.tail.Some? then chain.tail.value else [L.Expression(ERROR_CALL)]
  }

  /** Some arm from here on does not reject the value. */
  ghost predicate SomeAccepts(arms: seq<R.Arm>, v: R.Val) {
    exists j :: 0 <= j < |arms| && !R.MatchArm(arms[j].pats, v).No?
  }

  /** From the k-th branch on, the chain runs the arm that the remaining arms select. */
  lemma {:induction false} ChainCorrect(arms: seq<R.Arm>, v: R.Val, root: string, cached: Option<Expr>, proven: bool, a: State, st: L.Stmt, k: nat, w: World, fuel: nat)
    requires hide *; AtChain(a, v, root, cached, w) && FitsArms(arms, a.q, true) && NoGuards(arms) && Compiled(w)
    requires proven ==> SomeAccepts(arms, v)
    requires var chain := GenChain(arms, Name(root), cached, proven, a.c, a.n);
             st.If? && k <= |st.branches| && st.branches[k..] == chain.branches && st.els == LastOf(chain)
    ensures var chain := GenChain(arms, Name(root), cached, proven, a.c, a.n);
            var r := R.EvalArms(arms, v, a.env, w.rf, fuel);
            && Sim(r, L.RunIf(st, k, a.s, w.lf, fuel), a.c, ToReturn, FallsArms(arms))
            && (chain.branches == [] ==> Sim(r, L.Run(st.els, a.s, w.lf, fuel), a.c, ToReturn, FallsArms(arms)))
    decreases fuel, arms, 1
  {
    hide Compiled, L.Run, L.RunIf, L.Eval, Sim, GenReturnBody, EmitBindings, P.ArmTests, P.AndAll, R.EvalBody, R.MatchArm, FitsArm, FallsArm,
      AtChain, R.EvalGuard;
    var chain := GenChain(arms, Name(root), cached, proven, a.c, a.n);
    ChainTake(st, k, a.s, w.lf, fuel);
    if arms == [] {
      assert !proven;
      ErrorRun(a.s, w.lf, fuel);
      PanicSim(L.Run(st.els, a.s, w.lf, fuel), a.c, ToReturn, false);
      PanicSim(L.RunIf(st, k, a.s, w.lf, fuel), a.c, ToReturn, false);
    } else {
      var arm := arms[0];
      var t := P.ArmTests(arm.pats, Name(root), cached, a.c.mentioned);
      var body := GenReturnBody(arm, EmitBindings(t.binds, a.c), a.c, a.n);
      var m := R.MatchArm(arm.pats, v);
      ChainTestDecides(arm, v, root, cached, a, w);
      if m.Yes? {
        ChainArmRuns(arm, v, root, cached, a, w, fuel, FallsArms(arms));
        NoGuard(arm, a.env + m.binds, w, fuel);
        UnguardedEval(arms, v, a.env, w, fuel);
      } else if m.IllTyped? {
        StuckSim(L.Run(st.els, a.s, w.lf, fuel), a.c, ToReturn, FallsArms(arms));
        StuckSim(L.RunIf(st, k, a.s, w.lf, fuel), a.c, ToReturn, FallsArms(arms));
      } else {
        assert t.tests != [] by { EmptyPasses(t.tests, a, w); }
        assert proven ==> SomeAccepts(arms[1..], v) by { AcceptsLater(arms, v); }
        var rest := GenChain(arms[1..], Name(root), cached, proven, a.c, body.next);
        assert chain.branches == [L.Branch(P.AndAll(t.tests), body.code)] + rest.branches;
        assert st.branches[k] == chain.branches[0] && st.branches[k + 1..] == rest.branches;
        AtChainLater(a, v, root, cached, w, body.next);
        ChainCorrect(arms[1..], v, root, cached, proven, a.(n := body.next), st, k + 1, w, fuel);
        SimFalls(R.EvalArms(arms[1..], v, a.env, w.rf, fuel), L.RunIf(st, k, a.s, w.lf, fuel), a.c, ToReturn, FallsArms(arms[1..]), FallsArms(arms));
      }
    }
  }

  lemma EmptyPasses(tests: seq<Expr>, a: State, w: World)
    requires P.Rejects(P.AndAll(tests), a.s, w.lf)
    ensures tests != []
  {
    hide L.Eval;
    P.TrueIsTrue(a.s, w.lf);
  }

  lemma AcceptsLater(arms: seq<R.Arm>, v: R.Val)
    requires arms != [] && R.MatchArm(arms[0].pats, v).No?
    ensures SomeAccepts(arms, v) ==> SomeAccepts(arms[1..], v) && |arms| > 1
  {
    hide R.MatchArm;
    if SomeAccepts(arms, v) {
      var j :| 0 <= j < |arms| && !R.MatchArm(arms[j].pats, v).No?;
      assert arms[1..][j - 1] == arms[j];
    }
  }

  lemma ChainTestDecides(arm: R.Arm, v: R.Val, root: string, cached: Option<Expr>, a: State, w: World)
    requires AtChain(a, v, root, cached, w)
    ensures var test := P.AndAll(P.ArmTests(arm.pats, Name(root), cached, a.c.mentioned).tests);
            match R.MatchArm(arm.pats, v)
            case Yes(_) => P.Passes(test, a.s, w.lf)
            case No => P.Rejects(test, a.s, w.lf)
            case IllTyped => true
  {
    hide Ready, L.Eval, P.ArmTests, P.AndAll, R.MatchArm, E.Enc, E.Expressible, P.CachedOk;
    P.ArmTestsDecide(arm.pats, v, Name(root), cached, a.c.mentioned, a.s, w.lf);
  }

  lemma UnguardedEval(arms: seq<R.Arm>, v: R.Val, env: R.Env, w: World, fuel: nat)
    requires hide *; arms != [] && arms[0].guard.None? && R.MatchArm(arms[0].pats, v).Yes?
    ensures R.EvalArms(arms, v, env, w.rf, fuel) == R.Leave(R.EvalBody(arms[0], env + R.MatchArm(arms[0].pats, v).binds, w.rf, fuel), |env|)
  {
    hide R.EvalBody, R.MatchArm;
    NoGuard(arms[0], env + R.MatchArm(arms[0].pats, v).binds, w, fuel);
  }

  /** A selected arm, run as a branch or, when it comes last without a test, as it is. */
  lemma {:induction false} ChainArmRuns(arm: R.Arm, v: R.Val, root: string, cached: Option<Expr>, a: State, w: World, fuel: nat, falls: bool)
    requires hide *; AtChain(a, v, root, cached, w) && FitsArm(arm, a.q, true) && Compiled(w) && R.MatchArm(arm.pats, v).Yes?
    requires FallsArm(arm) ==> falls
    ensures var code := GenReturnBody(arm, EmitBindings(P.ArmTests(arm.pats, Name(root), cached, a.c.mentioned).binds, a.c), a.c, a.n).code;
            var r := R.Leave(R.EvalBody(arm, a.env + R.MatchArm(arm.pats, v).binds, w.rf, fuel), |a.env|);
            && Sim(r, L.Run(code, a.s, w.lf, fuel), a.c, ToReturn, falls)
            && Sim(r, L.Leave(L.Run(code, a.s, w.lf, fuel), |a.s|), a.c, ToReturn, falls)
    decreases fuel, arm, 2
  {
    hide Ready, Compiled, L.Run, L.Eval, Sim, GenReturnBody, EmitBindings, P.ArmTests, R.EvalBody, R.MatchArm, FitsArm, FallsArm, Shape,
      DeclaresNew, Fixed, E.Enc, E.Expressible, P.CachedOk;
    var code := GenReturnBody(arm, EmitBindings(P.ArmTests(arm.pats, Name(root), cached, a.c.mentioned).binds, a.c), a.c, a.n).code;
    var r := R.Leave(R.EvalBody(arm, a.env + R.MatchArm(arm.pats, v).binds, w.rf, fuel), |a.env|);
    ReturnBodyCorrect(arm, v, root, cached, a, w, fuel);
    SimFalls(r, L.Run(code, a.s, w.lf, fuel), a.c, ToReturn, FallsArm(arm), falls);
    DestNone(a);
    LeaveSim(a, code, w.lf, fuel, r, ToReturn, falls);
  }

  /** The parts of a return match, named. */
  ghost function TagCode(s: GenE, arms: seq<R.Arm>, c: Ctx): Code {
    var pats := M.Flatten(ArmPatterns(arms));
    [L.Local(c.tmp(s.next + 1), Some(if UsesResultTag(pats) then P.ResultIsOk(s.e) else Field(s.e, "tag")))]
  }

  ghost predicate CachesTag(arms: seq<R.Arm>) {
    var pats := M.Flatten(ArmPatterns(arms));
    |arms| - (if M.ProvenExhaustive(pats) && arms != [] then 1 else 0) >= 2 && UsesRootTag(pats)
  }

  ghost function ChainCode(chain: Chain): Code {
    if chain.branches == [] then LastOf(chain) else [L.If(chain.branches, LastOf(chain))]
  }

  lemma ReturnMatchCode(s: GenE, arms: seq<R.Arm>, c: Ctx)
    ensures hide *; var proven := M.ProvenExhaustive(M.Flatten(ArmPatterns(arms)));
            var cached := CachesTag(arms);
            var chain := GenChain(arms, s.e, if cached then Some(Name(c.tmp(s.next + 1))) else None, proven, c, if cached then s.next + 1 else s.next);
            GenReturnMatch(s, arms, c).code == s.code + (if cached then TagCode(s, arms, c) else []) + ChainCode(chain)
  {
    hide GenChain, M.ProvenExhaustive, M.Flatten, ArmPatterns, UsesRootTag, UsesResultTag;
  }

  /** After the subject: the tag is cached when two tests or more could read it, then the chain runs. */
  lemma {:induction false} AfterSubject(arms: seq<R.Arm>, v: R.Val, s: GenE, a: State, w: World, fuel: nat)
    requires hide *; Ready(a) && a.n == s.next && s.e.Name? && Fixed(a.c, a.q, a.n, s.e.id) && Compiled(w)
    requires E.Expressible(v) && L.Eval(s.e, a.s, w.lf) == Some(E.Enc(v))
    requires FitsArms(arms, a.q, true) && NoGuards(arms) && R.ArmsFit(arms, v)
    requires M.ProvenExhaustive(M.Flatten(ArmPatterns(arms))) ==> SomeAccepts(arms, v)
    ensures var proven := M.ProvenExhaustive(M.Flatten(ArmPatterns(arms)));
            var cached := CachesTag(arms);
            var chain := GenChain(arms, s.e, if cached then Some(Name(a.c.tmp(s.next + 1))) else None, proven, a.c, if cached then s.next + 1 else s.next);
            Sim(R.EvalArms(arms, v, a.env, w.rf, fuel),
                L.Run((if cached then TagCode(s, arms, a.c) else []) + ChainCode(chain), a.s, w.lf, fuel), a.c, ToReturn, FallsArms(arms))
    decreases fuel, arms, 3
  {
    hide Ready, Compiled, L.Run, L.Eval, L.Lookup, Sim, GenChain, M.ProvenExhaustive, M.Flatten, ArmPatterns, UsesRootTag, UsesResultTag, FitsArms,
      FallsArms, R.EvalArms, R.ArmsFit, Fixed, Old, E.Enc, E.Expressible, P.LuaTagOf, P.CachedOk, AtChain, R.MatchAny, R.MatchPattern;
    var proven := M.ProvenExhaustive(M.Flatten(ArmPatterns(arms)));
    if CachesTag(arms) {
      var tag := a.c.tmp(s.next + 1);
      var read := if UsesResultTag(M.Flatten(ArmPatterns(arms))) then P.ResultIsOk(s.e) else Field(s.e, "tag");
      TagToCache(arms, v, s.e, a.s, w.lf);
      var tv := L.Eval(read, a.s, w.lf).value;
      LocalRun(tag, Some(read), a.s, w.lf, fuel);
      ReadyWithTmp(a, tv);
      var a1 := a.(n := a.n + 1, s := a.s + [L.Binding(tag, tv)]);
      TagApart(a, s.e.id, tv, w);
      CacheReads(v, tag, a1.s, w.lf);
      FixedMonotone(a.c, a.q, a.n, a.q, a1.n, s.e.id);
      assert AtChain(a1, v, s.e.id, Some(Name(tag)), w) by { MakeAtChain(a1, v, s.e.id, Some(Name(tag)), w); }
      var chain := GenChain(arms, s.e, Some(Name(tag)), proven, a.c, a1.n);
      ChainRuns(arms, v, s.e.id, Some(Name(tag)), proven, a1, w, fuel);
      RunAppend(TagCode(s, arms, a.c), ChainCode(chain), a.s, w.lf, fuel);
    } else {
      P.NoCachedTag(v, a.s, w.lf);
      assert AtChain(a, v, s.e.id, None, w) by { MakeAtChain(a, v, s.e.id, None, w); }
      var chain := GenChain(arms, s.e, None, proven, a.c, a.n);
      ChainRuns(arms, v, s.e.id, None, proven, a, w, fuel);
      assert [] + ChainCode(chain) == ChainCode(chain);
    }
  }

  lemma MakeAtChain(a: State, v: R.Val, root: string, cached: Option<Expr>, w: World)
    requires Ready(a) && Fixed(a.c, a.q, a.n, root) && E.Expressible(v)
    requires L.Eval(Name(root), a.s, w.lf) == Some(E.Enc(v)) && P.CachedOk(cached, v, a.s, w.lf)
    ensures AtChain(a, v, root, cached, w)
  {
    hide Ready, L.Eval, P.CachedOk, Fixed, E.Enc, E.Expressible;
  }

  lemma CoversAccepts(arms: seq<R.Arm>, v: R.Val)
    requires R.ArmsFit(arms, v)
    ensures Covers(arms) ==> SomeAccepts(arms, v)
  {
    hide R.ArmsFit, R.MatchArm;
  }

  /** A new temporary does not hide the subject. */
  lemma TagApart(a: State, root: string, tv: L.Value, w: World)
    requires hide *; Ready(a) && Fixed(a.c, a.q, a.n, root)
    ensures L.Eval(Name(root), a.s + [L.Binding(a.c.tmp(a.n + 1), tv)], w.lf) == L.Eval(Name(root), a.s, w.lf)
  {
    hide L.Lookup, Old, SubClear, SubFixed, Agree, L.Eval;
    var z := a.c.tmp(a.n + 1);
    LookupAppend(a.s, L.Binding(z, tv), root);
    NameEval(root, a.s, w.lf);
    NameEval(root, a.s + [L.Binding(z, tv)], w.lf);
  }

  lemma {:induction false} ChainRuns(arms: seq<R.Arm>, v: R.Val, root: string, cached: Option<Expr>, proven: bool, a: State, w: World, fuel: nat)
    requires AtChain(a, v, root, cached, w) && FitsArms(arms, a.q, true) && NoGuards(arms) && Compiled(w)
    requires proven ==> SomeAccepts(arms, v)
    ensures var chain := GenChain(arms, Name(root), cached, proven, a.c, a.n);
            Sim(R.EvalArms(arms, v, a.env, w.rf, fuel), L.Run(ChainCode(chain), a.s, w.lf, fuel), a.c, ToReturn, FallsArms(arms))
    decreases fuel, arms, 2
  {
    hide Compiled, L.Run, L.RunIf, Sim, GenChain, FitsArms, FallsArms, R.EvalArms, SomeAccepts, NoGuards, AtChain;
    var chain := GenChain(arms, Name(root), cached, proven, a.c, a.n);
    var st := L.If(chain.branches, LastOf(chain));
    assert st.branches[0..] == chain.branches;
    ChainCorrect(arms, v, root, cached, proven, a, st, 0, w, fuel);
    ChainRun(chain.branches, LastOf(chain), a.s, w.lf, fuel);
  }

  lemma {:induction false} ReturnMatchCorrect(e: R.Expr, a: State, w: World, fuel: nat)
    requires hide *; e.Match? && NoGuards(e.arms) && Ready(a) && Fits(e, a.q, true) && Compiled(w)
    ensures Sim(R.Eval(e, a.env, w.rf, fuel), L.Run(GenControl(e, ToReturn, a.c, a.n).code, a.s, w.lf, fuel), a.c, ToReturn, Falls(e))
    decreases fuel, e, 0
  {
    hide Ready, Compiled, L.Run, L.Eval, Sim, Computes, Inline, GenChain, GenReturnMatch, M.ProvenExhaustive, M.Flatten, ArmPatterns, Fits, FitsArms,
      Covers, FallsArms, R.Eval, R.EvalArms, R.ArmsFit, Exits, Shape, Fixed, E.Enc, E.Expressible, CachesTag, TagCode, ChainCode, NoGuards,
      GenControl, R.MatchAny, R.MatchPattern;
    MatchFits(e, a.q, true);
    MatchEval(e, a.env, w, fuel);
    FallsMatch(e);
    var g := Inline(e.scrut, a.c, a.n);
    var s := Subject(g, e.scrut.Path?, a.c);
    var q1 := if e.scrut.Path? then a.q.Without({e.scrut.name}) else a.q;
    var aq := a.(q := q1);
    var r := R.Eval(e.scrut, a.env, w.rf, fuel);
    var proven := M.ProvenExhaustive(M.Flatten(ArmPatterns(e.arms)));
    var cached := CachesTag(e.arms);
    var chain := GenChain(e.arms, s.e, if cached then Some(Name(a.c.tmp(s.next + 1))) else None, proven, a.c, if cached then s.next + 1 else s.next);
    var rest := (if cached then TagCode(s, e.arms, a.c) else []) + ChainCode(chain);
    InlineCorrect(e.scrut, a, w, fuel);
    EvalShape(e.scrut, a.env, w.rf, fuel);
    if e.scrut.Path? {
      ReadyWithout(a, {e.scrut.name});
      PathIsLive(e.scrut, a.q);
    }
    SubjectStep(aq, e.scrut, e.scrut.Path?, r, w, fuel);
    ReturnMatchParts(e, a.c, a.n);
    ReturnMatchCode(s, e.arms, a.c);
    assert GenControl(e, ToReturn, a.c, a.n).code == s.code + rest by {
      assert s.code + (if cached then TagCode(s, e.arms, a.c) else []) + ChainCode(chain) == s.code + rest;
    }
    RunAppend(s.code, rest, a.s, w.lf, fuel);
    var all := L.Run(s.code + rest, a.s, w.lf, fuel);
    if r.Done? {
      if R.ArmsFit(e.arms, r.v) {
        var a1 := aq.(n := s.next, env := r.env, s := L.Run(s.code, a.s, w.lf, fuel).store);
        assert proven ==> SomeAccepts(e.arms, r.v) by { CoversAccepts(e.arms, r.v); }
        AfterSubject(e.arms, r.v, s, a1, w, fuel);
      } else {
        StuckSim(all, a.c, ToReturn, Falls(e));
      }
    } else {
      ExitFirst(s.code, rest, a.s, w.lf, fuel, r, a.c);
      ExitSim(r, all, a.c, ToReturn, Falls(e));
    }
  }

  lemma ReturnMatchParts(e: R.Expr, c: Ctx, n: nat)
    requires hide *; e.Match? && NoGuards(e.arms)
    ensures GenControl(e, ToReturn, c, n).code == GenReturnMatch(Subject(Inline(e.scrut, c, n), e.scrut.Path?, c), e.arms, c).code
  {
    hide Inline, GenReturnMatch, GenArms, P.PatTest, P.AndAll, EmitBindings, GenElse, GenTo, GenLoop, GenBlock;
  }

  lemma PathIsLive(e: R.Expr, q: Scope)
    requires hide *; e.Path? && Fits(e, q, false)
    ensures e.name in q.live
  {
    hide R.MatchPattern, R.MatchAny, R.RootFits, M.ProvenExhaustive, FitsElse, FitsArgs, FitsBlock, InlineReads, InlineOnly, Binders,
      FitsArm;
  }

  // ---- whole functions ----

  /** What a caller of a Lua function sees: falling off the end returns nil. */
  function CallResult(o: L.Outcome): L.Outcome {
    match o
    case Normal(_) => L.Returned(L.NilV)
    case _ => o
  }

  ghost predicate Parameters(params: R.Env, c: Ctx, s: L.Store) {
    && |params| == |s| && Distinct(SlotNames(params))
    && forall i :: 0 <= i < |params| ==> E.Expressible(params[i].value) && s[i] == L.Binding(c.loc(params[i].name), E.Enc(params[i].value))
  }

  /**
   * The lowering is right: running the lowered body of a function on represented arguments returns the
   * represented result, fails exactly where the source panics, and diverges with it.
   */
  lemma FunctionCorrect(body: R.Block, params: R.Env, c: Ctx, q: Scope, s: L.Store, w: World, fuel: nat)
    requires NamesApart(c) && c.sub == map[] && c.brk == None && c.mentioned == q.mentioned && c.mutable == q.mutable
    requires Parameters(params, c, s) && q.live == Elements(SlotNames(params)) && q.may == q.live * q.mutable
    requires FitsBlock(body, q, true) && Compiled(w)
    ensures var o := CallResult(L.Run(GenFunction(body, c), s, w.lf, fuel));
            match R.EvalFunction(body, params, w.rf, fuel)
            case Ret(v) => o == L.Returned(E.Enc(v)) && E.Expressible(v)
            case Panic => o == L.Failed
            case OutOfFuel => o == L.OutOfFuel
            case _ => true
  {
    hide L.Run, GenBlock, R.EvalBlock, FitsBlock, Compiled, Ready, E.Enc, E.Expressible, SlotNames;
    var a := State(c, q, 0, params, s);
    EntryReady(params, c, q, s);
    DestNone(a);
    BlockCorrect(body, ToReturn, a, w, fuel);
  }

  lemma EntryReady(params: R.Env, c: Ctx, q: Scope, s: L.Store)
    requires hide *; NamesApart(c) && c.sub == map[] && c.brk == None && c.mentioned == q.mentioned && c.mutable == q.mutable
    requires Parameters(params, c, s) && q.live == Elements(SlotNames(params)) && q.may == q.live * q.mutable
    ensures Ready(State(c, q, 0, params, s))
  {
    hide L.Lookup, E.Enc, E.Expressible, R.Get, SlotNames;
    forall i | 0 <= i < |params| ensures params[i].name in q.live {
      assert SlotNames(params)[i] in Elements(SlotNames(params));
    }
    forall x | R.Get(params, x).Some? && x in c.mentioned ensures Holds(c, params, s, x) {
      ParameterHolds(params, c, s, x);
    }
    forall x | x in q.may ensures R.Get(params, x).Some? {
      var i :| 0 <= i < |params| && SlotNames(params)[i] == x;
      GetIsNamed(params, x);
      assert params[i].name == x;
    }
  }

  lemma {:induction false} ParameterHolds(params: R.Env, c: Ctx, s: L.Store, x: string)
    requires hide *; NamesApart(c) && c.sub == map[] && R.Get(params, x).Some?
    requires |params| == |s|
    requires forall i :: 0 <= i < |params| ==> E.Expressible(params[i].value) && s[i] == L.Binding(c.loc(params[i].name), E.Enc(params[i].value))
    ensures Holds(c, params, s, x)
  {
    hide E.Enc, E.Expressible;
    var n := |params| - 1;
    if params[n].name != x {
      ParameterHolds(params[..n], c, s[..n], x);
      assert c.loc(params[n].name) != c.loc(x);
    }
  }
}
