/** Forgetting one live variable: where code does not mention it, and why the generated code stays the same. */
module LoweringDropped {
  import opened Wrappers
  import opened LuaIr
  import opened Lowering
  import opened LoweringScope
  import opened LoweringMarks
  import opened LoweringState
  import opened LoweringPatterns
  import R = RuaLang
  import L = LuaRun
  import P = PatternTests
  import M = MatchSelection

  // ---- where a variable occurs ----

  predicate Occurs(x: string, e: R.Expr)
    decreases e
  {
    match e
    case Lit(_) => false
    case Path(y) => y == x
    case Unary(_, operand) => Occurs(x, operand)
    case Binary(_, lhs, rhs) => Occurs(x, lhs) || Occurs(x, rhs)
    case Call(_, args) => OccursInAll(x, args)
    case SomeCall(payload) => Occurs(x, payload)
    case ResultCall(_, payload) => Occurs(x, payload)
    case VariantCall(_, args) => OccursInAll(x, args)
    case If(cond, thn, els) => Occurs(x, cond) || OccursInBlock(x, thn) || OccursInElse(x, els)
    case IfLet(_, subject, thn, els) => Occurs(x, subject) || OccursInBlock(x, thn) || OccursInElse(x, els)
    case BlockExpr(b) => OccursInBlock(x, b)
    case Match(scrut, arms) => Occurs(x, scrut) || OccursInArms(x, arms)
    case Loop(body) => OccursInBlock(x, body)
    case Try(_, inner) => Occurs(x, inner)
    case Assign(_, y, rhs) => y == x || Occurs(x, rhs)
  }

  predicate OccursInAll(x: string, es: seq<R.Expr>)
    decreases es
  {
    es != [] && (Occurs(x, es[0]) || OccursInAll(x, es[1..]))
  }

  predicate OccursInElse(x: string, els: Option<R.Else>)
    decreases els
  {
    match els
    case None => false
    case Some(ElseBlock(b)) => OccursInBlock(x, b)
    case Some(ElseIf(e)) => Occurs(x, e)
  }

  predicate OccursInArms(x: string, arms: seq<R.Arm>)
    decreases arms
  {
    arms != [] && (OccursInArm(x, arms[0]) || OccursInArms(x, arms[1..]))
  }

  predicate OccursInArm(x: string, arm: R.Arm)
    decreases arm
  {
    OccursInGuard(x, arm.guard) || Occurs(x, arm.body)
  }

  predicate OccursInGuard(x: string, guard: Option<R.Expr>)
    decreases guard
  {
    guard.Some? && Occurs(x, guard.value)
  }

  predicate OccursInBlock(x: string, b: R.Block)
    decreases b
  {
    OccursInStmts(x, b.stmts) || (b.tail.Some? && Occurs(x, b.tail.value))
  }

  predicate OccursInStmts(x: string, stmts: seq<R.Stmt>)
    decreases stmts
  {
    stmts != [] && (OccursInStmt(x, stmts[0]) || OccursInStmts(x, stmts[1..]))
  }

  predicate OccursInStmt(x: string, s: R.Stmt)
    decreases s
  {
    match s
    case Let(_, init) => Occurs(x, init)
    case ExprStmt(e) => Occurs(x, e)
    case Return(result) => OccursInGuard(x, result)
    case While(cond, body) => Occurs(x, cond) || OccursInBlock(x, body)
    case LoopStmt(body) => OccursInBlock(x, body)
    case Break(result) => OccursInGuard(x, result)
  }

  // ---- forgetting it ----

  /** The scope in which x is neither mentioned nor assigned. */
  function Drop(q: Scope, x: string): Scope {
    q.(mentioned := q.mentioned - {x}, may := q.may - {x})
  }

  function DropC(c: Ctx, x: string): Ctx {
    c.(mentioned := c.mentioned - {x})
  }

  function DropState(a: State, x: string): State {
    a.(c := DropC(a.c, x), q := Drop(a.q, x))
  }

  lemma DropWithout(q: Scope, x: string, names: set<string>)
    ensures Drop(q.Without(names), x) == Drop(q, x).Without(names)
  {
    assert q.may - names - {x} == q.may - {x} - names;
  }

  lemma DropAfterOne(s: R.Stmt, q: Scope, x: string)
    requires s.Let? ==> s.name != x
    ensures Drop(AfterOne(s, q), x) == AfterOne(s, Drop(q, x))
  {
    if s.Let? && s.name in q.mutable {
      assert q.may + {s.name} - {x} == q.may - {x} + {s.name};
    }
  }

  /** Declarations in fitting statements are new, so none of them is x. */
  lemma {:induction false} DropAfter(stmts: seq<R.Stmt>, q: Scope, x: string)
    requires FitsStmts(stmts, q) && x in q.live
    ensures Drop(After(stmts, q), x) == After(stmts, Drop(q, x)) && x in After(stmts, q).live
  {
    hide FitsStmt, AfterOne;
    if stmts != [] {
      LetIsNew(stmts[0], q, x);
      DropAfterOne(stmts[0], q, x);
      DropAfter(stmts[1..], AfterOne(stmts[0], q), x);
    }
  }

  lemma LetIsNew(s: R.Stmt, q: Scope, x: string)
    requires hide *; FitsStmt(s, q) && x in q.live
    ensures (s.Let? ==> s.name != x) && x in AfterOne(s, q).live
    ensures AfterOne(s, q).mentioned == q.mentioned
  {
    hide InlineOnly, Fits;
  }

  // ---- code that does not mention x fits without it ----

  lemma {:induction false} FitsDropped(e: R.Expr, q: Scope, ret: bool, x: string)
    requires Fits(e, q, ret) && !Occurs(x, e) && x in q.live
    ensures Fits(e, Drop(q, x), ret)
    decreases e, 1
  {
    hide R.MatchPattern, R.MatchAny, R.RootFits, FitsElse, M.ProvenExhaustive, OccursInElse, FitsArgs, FitsBlock;
    match e {
      case Unary(_, operand) => FitsDropped(operand, q, false, x);
      case Binary(op, lhs, rhs) =>
        FitsDropped(lhs, q, false, x);
        FitsDropped(rhs, if op == R.Coalesce then q else q.Without(InlineReads(lhs)), false, x);
        DropWithout(q, x, InlineReads(lhs));
      case Call(_, args) => FitsArgsDropped(args, q, x);
      case VariantCall(_, args) => FitsArgsDropped(args, q, x);
      case SomeCall(payload) => FitsDropped(payload, q, false, x);
      case ResultCall(_, payload) => FitsDropped(payload, q, false, x);
      case If(cond, thn, els) =>
        FitsDropped(cond, q, false, x);
        FitsBlockDropped(thn, q, ret, x);
        FitsElseDropped(els, q, ret, x);
      case IfLet(pat, subject, thn, els) =>
        FitsDropped(subject, q, false, x);
        FitsBlockDropped(thn, q.Bind(Elements(Binders(pat))), ret, x);
        FitsElseDropped(els, q, ret, x);
      case BlockExpr(b) => FitsBlockDropped(b, q, ret, x);
      case Match(scrut, arms) =>
        FitsDropped(scrut, q, false, x);
        FitsArmsDropped(arms, if ret && NoGuards(arms) && scrut.Path? then q.Without({scrut.name}) else q, ret, x);
        if scrut.Path? { DropWithout(q, x, {scrut.name}); }
      case Loop(body) => FitsBlockDropped(body, q, false, x);
      case Try(_, inner) => FitsDropped(inner, q, false, x);
      case Assign(_, _, rhs) => FitsDropped(rhs, q, false, x);
      case _ =>
    }
  }

  lemma {:induction false} FitsArgsDropped(args: seq<R.Expr>, q: Scope, x: string)
    requires FitsArgs(args, q) && !OccursInAll(x, args) && x in q.live
    ensures FitsArgs(args, Drop(q, x))
    decreases args, 1
  {
    hide Occurs, Fits, InlineReads;
    if args != [] {
      FitsDropped(args[0], q, false, x);
      FitsArgsDropped(args[1..], q.Without(InlineReads(args[0])), x);
      DropWithout(q, x, InlineReads(args[0]));
    }
  }

  lemma {:induction false} FitsElseDropped(els: Option<R.Else>, q: Scope, ret: bool, x: string)
    requires FitsElse(els, q, ret) && !OccursInElse(x, els) && x in q.live
    ensures FitsElse(els, Drop(q, x), ret)
    decreases els, 1
  {
    hide Fits, Occurs, OccursInStmt, FitsBlock;
    match els {
      case None =>
      case Some(ElseBlock(b)) => FitsBlockDropped(b, q, ret, x);
      case Some(ElseIf(e)) => FitsDropped(e, q, ret, x);
    }
  }

  lemma {:induction false} FitsArmsDropped(arms: seq<R.Arm>, q: Scope, ret: bool, x: string)
    requires FitsArms(arms, q, ret) && !OccursInArms(x, arms) && x in q.live
    ensures FitsArms(arms, Drop(q, x), ret)
    decreases arms, 1
  {
    hide Occurs, FitsArm;
    if arms != [] {
      FitsArmDropped(arms[0], q, ret, x);
      FitsArmsDropped(arms[1..], q, ret, x);
    }
  }

  lemma {:induction false} FitsArmDropped(arm: R.Arm, q: Scope, ret: bool, x: string)
    requires FitsArm(arm, q, ret) && !OccursInArm(x, arm) && x in q.live
    ensures FitsArm(arm, Drop(q, x), ret)
    decreases arm, 1
  {
    hide Occurs, Fits, Binders;
    var inner := q.Bind(Elements(ArmBinders(arm.pats)));
    FitsGuardDropped(arm.guard, inner, x);
    FitsDropped(arm.body, inner, ret, x);
  }

  lemma {:induction false} FitsGuardDropped(guard: Option<R.Expr>, q: Scope, x: string)
    requires FitsGuard(guard, q) && !OccursInGuard(x, guard) && x in q.live
    ensures FitsGuard(guard, Drop(q, x))
    decreases guard, 1
  {
    hide Fits, Occurs;
    if guard.Some? {
      FitsDropped(guard.value, q, false, x);
    }
  }

  lemma {:induction false} FitsBlockDropped(b: R.Block, q: Scope, ret: bool, x: string)
    requires FitsBlock(b, q, ret) && !OccursInBlock(x, b) && x in q.live
    ensures FitsBlock(b, Drop(q, x), ret)
    decreases b, 1
  {
    hide Occurs, OccursInStmt, Fits, FitsStmt;
    FitsStmtsDropped(b.stmts, q, x);
    DropAfter(b.stmts, q, x);
    if b.tail.Some? {
      FitsDropped(b.tail.value, After(b.stmts, q), ret, x);
    }
  }

  lemma {:induction false} FitsStmtsDropped(stmts: seq<R.Stmt>, q: Scope, x: string)
    requires FitsStmts(stmts, q) && !OccursInStmts(x, stmts) && x in q.live
    ensures FitsStmts(stmts, Drop(q, x))
    decreases stmts, 1
  {
    hide OccursInStmt, FitsStmt;
    if stmts != [] {
      FitsStmtDropped(stmts[0], q, x);
      LetIsNew(stmts[0], q, x);
      DropAfterOne(stmts[0], q, x);
      FitsStmtsDropped(stmts[1..], AfterOne(stmts[0], q), x);
    }
  }

  lemma {:induction false} FitsStmtDropped(s: R.Stmt, q: Scope, x: string)
    requires FitsStmt(s, q) && !OccursInStmt(x, s) && x in q.live
    ensures FitsStmt(s, Drop(q, x))
    decreases s, 1
  {
    hide R.MatchPattern, R.MatchAny, R.RootFits, M.ProvenExhaustive, Occurs, InlineReads, InlineOnly, Binders;
    match s {
      case Let(y, init) =>
        if !(y !in q.mentioned && Removable(init)) {
          FitsDropped(init, if NeedsHoist(init) then q.Bind({y}) else q, false, x);
        }
      case ExprStmt(e) => FitsDropped(e, q, false, x);
      case Return(result) => if result.Some? { FitsDropped(result.value, q, true, x); }
      case While(cond, body) =>
        FitsDropped(cond, q, false, x);
        FitsBlockDropped(body, q, false, x);
      case LoopStmt(body) => FitsBlockDropped(body, q, false, x);
      case Break(result) => if result.Some? { FitsDropped(result.value, q, false, x); }
    }
  }

  // ---- the generated code does not depend on a live variable being mentioned ----

  lemma {:induction false} RetainSame(binds: seq<P.PatternBinding>, mentioned: set<string>, x: string)
    requires forall i :: 0 <= i < |binds| ==> binds[i].name != x
    ensures P.Retain(binds, mentioned - {x}) == P.Retain(binds, mentioned)
  {
    if binds != [] {
      RetainSame(binds[1..], mentioned, x);
    }
  }

  lemma ArmTestsSame(pats: seq<R.Pattern>, subject: Expr, cached: Option<Expr>, q: Scope, mentioned: set<string>, x: string)
    requires NewBinders(ArmBinders(pats), q) && x in q.live
    ensures P.ArmTests(pats, subject, cached, mentioned - {x}) == P.ArmTests(pats, subject, cached, mentioned)
  {
    hide P.PatTest;
    if |pats| == 1 {
      var binds := P.PatTest(pats[0], subject, cached).binds;
      PatBindNames(pats[0], subject, cached);
      forall i | 0 <= i < |binds| ensures binds[i].name != x {
        assert BindNames(binds)[i] !in q.live;
      }
      RetainSame(binds, mentioned, x);
    }
  }

  lemma {:induction false} EmitSame(binds: seq<P.PatternBinding>, c: Ctx, x: string)
    ensures EmitBindings(binds, DropC(c, x)) == EmitBindings(binds, c)
  {
    if binds != [] {
      EmitSame(binds[..|binds| - 1], c, x);
    }
  }

  lemma {:induction false} SameInline(e: R.Expr, c: Ctx, q: Scope, ret: bool, n: nat, x: string)
    requires Fits(e, q, ret) && x in q.live && c.mentioned == q.mentioned
    ensures Inline(e, DropC(c, x), n) == Inline(e, c, n)
    decreases e, 1
  {
    hide GenControl, InlineArgs;
    match e {
      case Lit(_) =>
      case Path(_) =>
      case Unary(_, operand) => SameInline(operand, c, q, false, n, x);
      case Binary(_, _, _) => SameBinary(e, c, q, n, x);
      case Call(_, args) => SameArgs(args, c, q, n, x);
      case VariantCall(_, args) => SameArgs(args, c, q, n, x);
      case SomeCall(payload) => SameInline(payload, c, q, false, n, x);
      case ResultCall(_, payload) => SameInline(payload, c, q, false, n, x);
      case Try(_, inner) => SameInline(inner, c, q, false, n, x);
      case _ => SameControl(e, Var(c.tmp(n + 1)), c, q, ret, n + 1, x);
    }
  }

  function JoinBinary(op: R.BinOp, a: GenE, b: GenE, t: string): GenE {
    if op == R.Coalesce then
      GenE(a.code + [L.Local(t, Some(a.e))] + [When(Binary(Name(t), Eq, Nil), b.code + [L.Assign(Name(t), b.e)])], Name(t), b.next)
    else GenE(a.code + b.code, BinaryExpr(op, a.e, b.e), b.next)
  }

  lemma BinaryParts(e: R.Expr, c: Ctx, n: nat)
    requires hide *; e.Binary?
    ensures var a := Inline(e.lhs, c, n);
            Inline(e, c, n) == JoinBinary(e.bop, a, Inline(e.rhs, c, if e.bop == R.Coalesce then a.next + 1 else a.next), c.tmp(a.next + 1))
  {
    hide BinaryExpr, When, GenArms, GenStmts, GenElse, GenTo, P.ElementTests, P.AndAll, P.FieldTests, GenReturnMatch, GenLoop;
  }

  lemma BinaryFits(e: R.Expr, q: Scope)
    requires hide *; e.Binary? && Fits(e, q, false)
    ensures Fits(e.lhs, q, false) && Fits(e.rhs, if e.bop == R.Coalesce then q else q.Without(InlineReads(e.lhs)), false)
  {
    hide InlineOnly, InlineReads, R.MatchPattern, R.MatchAny, R.RootFits, M.ProvenExhaustive, FitsElse, FitsArgs, FitsBlock, Binders,
      FitsArm;
  }

  lemma {:induction false} SameBinary(e: R.Expr, c: Ctx, q: Scope, n: nat, x: string)
    requires e.Binary? && Fits(e, q, false) && x in q.live && c.mentioned == q.mentioned
    ensures Inline(e, DropC(c, x), n) == Inline(e, c, n)
    decreases e, 0
  {
    hide Inline, JoinBinary, InlineReads, Fits;
    BinaryFits(e, q);
    SameInline(e.lhs, c, q, false, n, x);
    var a := Inline(e.lhs, c, n);
    SameInline(e.rhs, c, if e.bop == R.Coalesce then q else q.Without(InlineReads(e.lhs)), false, if e.bop == R.Coalesce then a.next + 1 else a.next, x);
    BinaryParts(e, c, n);
    BinaryParts(e, DropC(c, x), n);
  }

  lemma {:induction false} SameArgs(args: seq<R.Expr>, c: Ctx, q: Scope, n: nat, x: string)
    requires FitsArgs(args, q) && x in q.live && c.mentioned == q.mentioned
    ensures InlineArgs(args, DropC(c, x), n) == InlineArgs(args, c, n)
    decreases args, 0
  {
    hide Inline, Fits, InlineReads;
    if args != [] {
      SameInline(args[0], c, q, false, n, x);
      SameArgs(args[1..], c, q.Without(InlineReads(args[0])), Inline(args[0], c, n).next, x);
    }
  }

  lemma {:induction false} SameTo(e: R.Expr, d: Dest, c: Ctx, q: Scope, ret: bool, n: nat, x: string)
    requires Fits(e, q, ret) && x in q.live && c.mentioned == q.mentioned
    ensures GenTo(e, d, DropC(c, x), n) == GenTo(e, d, c, n)
    decreases e, 2
  {
    hide Fits, Inline, GenControl;
    if IsControl(e) {
      SameControl(e, d, c, q, ret, n, x);
    } else {
      SameInline(e, c, q, ret, n, x);
    }
  }

  lemma {:induction false} SameControl(e: R.Expr, d: Dest, c: Ctx, q: Scope, ret: bool, n: nat, x: string)
    requires Fits(e, q, ret) && x in q.live && c.mentioned == q.mentioned
    ensures GenControl(e, d, DropC(c, x), n) == GenControl(e, d, c, n)
    decreases e, 0
  {
    hide R.MatchPattern, R.MatchAny, R.RootFits, GenBlock, EmitBindings, InlineArgs, GenArms, GenElse, GenTo, GenReturnBody, FitsArm, FitsElse,
      FitsArgs, FitsBlock;
    match e {
      case Loop(body) => SameLoop(body, d, c, q, n, x);
      case If(cond, thn, els) =>
        SameInline(cond, c, q, false, n, x);
        var g := Inline(cond, c, n);
        SameBlock(thn, d, c, q, ret, g.next, x);
        SameElse(els, d, c, q, ret, GenBlock(thn, d, c, g.next).next, x);
      case IfLet(pat, subject, thn, els) => SameIfLet(e, d, c, q, ret, n, x);
      case BlockExpr(b) => SameBlock(b, d, c, q, ret, n, x);
      case Match(scrut, arms) => SameMatch(e, d, c, q, ret, n, x);
      case Assign(op, y, rhs) =>
        if op.Some? {
          SameInline(rhs, c, q, false, n, x);
        } else {
          SameTo(rhs, Var(c.Res(y)), c, q, false, n, x);
        }
      case _ =>
    }
  }

  lemma {:induction false} SameIfLet(e: R.Expr, d: Dest, c: Ctx, q: Scope, ret: bool, n: nat, x: string)
    requires e.IfLet? && Fits(e, q, ret) && x in q.live && c.mentioned == q.mentioned
    ensures GenControl(e, d, DropC(c, x), n) == GenControl(e, d, c, n)
    decreases e, 0, 0
  {
    hide P.PatTest, EmitBindings, Inline, GenBlock, GenElse, NewBinders, FitsBlock, FitsElse, R.MatchPattern, R.MatchAny, R.RootFits, FitsArm,
      P.Alternatives, GenReturnBody, P.Retain, M.ProvenExhaustive, P.AndAll, P.OrAll, FitsArgs, M.RootOf, GenLoop, InlineReads, InlineOnly, Binders,
      GenArms, GenTo;
    SameInline(e.subject, c, q, false, n, x);
    var s := Subject(Inline(e.subject, c, n), ImmutablePath(e.subject, c), c);
    var test := P.PatTest(e.pat, s.e, None);
    EmitSame(test.binds, c, x);
    var inner := c.(sub := EmitBindings(test.binds, c).sub);
    SameBlock(e.thn, d, inner, q.Bind(Elements(Binders(e.pat))), ret, s.next, x);
    SameElse(e.els, d, c, q, ret, GenBlock(e.thn, d, inner, s.next).next, x);
    assert DropC(inner, x) == DropC(c, x).(sub := inner.sub);
  }

  lemma {:induction false} SameMatch(e: R.Expr, d: Dest, c: Ctx, q: Scope, ret: bool, n: nat, x: string)
    requires e.Match? && Fits(e, q, ret) && x in q.live && c.mentioned == q.mentioned
    ensures GenControl(e, d, DropC(c, x), n) == GenControl(e, d, c, n)
    decreases e, 0, 0
  {
    hide Inline, GenArms, GenReturnMatch, FitsArms, GenElse, R.MatchFields, GenTo, R.MatchAny, P.ElementTests, FitsElse, M.ProvenExhaustive,
      R.MatchAll, P.AndAll, P.FieldTests, FitsArgs, R.RootFits, FitsBlock, GenBlock, EmitBindings;
    var q1 := if ret && NoGuards(e.arms) && e.scrut.Path? then q.Without({e.scrut.name}) else q;
    if d.ToReturn? && NoGuards(e.arms) {
      SameInline(e.scrut, c, q, false, n, x);
      var s := Subject(Inline(e.scrut, c, n), e.scrut.Path?, c);
      SameReturnMatch(s, e.arms, c, q1, ret, x);
    } else {
      SameInline(e.scrut, c, q, false, n + 1, x);
      var g := Inline(e.scrut, c, n + 1);
      SameArms(e.arms, c.tmp(n + 1), c.tmp(g.next + 1), d, c, q1, ret, g.next + 1, x);
    }
  }

  lemma {:induction false} SameElse(els: Option<R.Else>, d: Dest, c: Ctx, q: Scope, ret: bool, n: nat, x: string)
    requires FitsElse(els, q, ret) && x in q.live && c.mentioned == q.mentioned
    ensures GenElse(els, d, DropC(c, x), n) == GenElse(els, d, c, n)
    decreases els, 3
  {
    hide Fits, GenBlock, FitsBlock, GenTo;
    match els {
      case None =>
      case Some(ElseBlock(b)) => SameBlock(b, d, c, q, ret, n, x);
      case Some(ElseIf(e)) => SameTo(e, d, c, q, ret, n, x);
    }
  }

  lemma {:induction false} SameLoop(body: R.Block, d: Dest, c: Ctx, q: Scope, n: nat, x: string)
    requires FitsBlock(body, q, false) && x in q.live && c.mentioned == q.mentioned
    ensures GenLoop(body, d, DropC(c, x), n) == GenLoop(body, d, c, n)
    decreases body, 4
  {
    hide FitsBlock, GenBlock;
    match d {
      case Discard => SameBlock(body, Discard, c.(brk := None), q, false, n, x);
      case Var(z) => SameBlock(body, Discard, c.(brk := Some(z)), q, false, n, x);
      case ToReturn => SameBlock(body, Discard, c.(brk := Some(c.tmp(n + 1))), q, false, n + 1, x);
    }
  }

  lemma {:induction false} SameArms(arms: seq<R.Arm>, m: string, matched: string, d: Dest, c: Ctx, q: Scope, ret: bool, n: nat, x: string)
    requires FitsArms(arms, q, ret) && x in q.live && c.mentioned == q.mentioned
    ensures GenArms(arms, m, matched, d, DropC(c, x), n) == GenArms(arms, m, matched, d, c, n)
    decreases arms, 0
  {
    hide FitsArm, GenArm;
    if arms != [] {
      SameArm(arms[0], m, matched, d, c, q, ret, n, x);
      SameArms(arms[1..], m, matched, d, c, q, ret, GenArm(arms[0], m, matched, d, c, n).next, x);
    }
  }

  lemma {:induction false} SameArm(arm: R.Arm, m: string, matched: string, d: Dest, c: Ctx, q: Scope, ret: bool, n: nat, x: string)
    requires FitsArm(arm, q, ret) && x in q.live && c.mentioned == q.mentioned
    ensures GenArm(arm, m, matched, d, DropC(c, x), n) == GenArm(arm, m, matched, d, c, n)
    decreases arm, 0
  {
    hide P.ArmTests, EmitBindings, NewBinders, GenBlock, InlineArgs, GenArms, GenElse, GenTo, GenReturnBody, Fits, Binders, M.ProvenExhaustive,
      P.AndAll, P.FieldTests, M.RootOf;
    ArmTestsSame(arm.pats, Name(m), None, q, c.mentioned, x);
    var t := P.ArmTests(arm.pats, Name(m), None, c.mentioned);
    EmitSame(t.binds, c, x);
    var inner := c.(sub := EmitBindings(t.binds, c).sub);
    var q1 := q.Bind(Elements(ArmBinders(arm.pats)));
    assert DropC(inner, x) == DropC(c, x).(sub := inner.sub);
    if arm.guard.None? {
      SameTo(arm.body, d, inner, q1, ret, n, x);
    } else {
      SameInline(arm.guard.value, inner, q1, false, n, x);
      SameTo(arm.body, d, inner, q1, ret, Inline(arm.guard.value, inner, n).next, x);
    }
  }

  lemma {:induction false} SameReturnMatch(s: GenE, arms: seq<R.Arm>, c: Ctx, q: Scope, ret: bool, x: string)
    requires FitsArms(arms, q, ret) && x in q.live && c.mentioned == q.mentioned
    ensures GenReturnMatch(s, arms, DropC(c, x)) == GenReturnMatch(s, arms, c)
    decreases arms, 2
  {
    hide GenChain, FitsArms, M.ProvenExhaustive, UsesRootTag, UsesResultTag;
    var pats := M.Flatten(ArmPatterns(arms));
    var proven := M.ProvenExhaustive(pats);
    var cached := |arms| - (if proven && arms != [] then 1 else 0) >= 2 && UsesRootTag(pats);
    SameChain(arms, s.e, if cached then Some(Name(c.tmp(s.next + 1))) else None, proven, c, q, ret, if cached then s.next + 1 else s.next, x);
  }

  lemma {:induction false} SameChain(arms: seq<R.Arm>, subject: Expr, cached: Option<Expr>, proven: bool, c: Ctx, q: Scope, ret: bool, n: nat, x: string)
    requires FitsArms(arms, q, ret) && x in q.live && c.mentioned == q.mentioned
    ensures GenChain(arms, subject, cached, proven, DropC(c, x), n) == GenChain(arms, subject, cached, proven, c, n)
    decreases arms, 0
  {
    hide EmitBindings, GenReturnBody, Fits, Binders, P.AndAll, P.FieldTests, P.OrAll;
    if arms != [] {
      assert FitsArm(arms[0], q, ret);
      ArmTestsSame(arms[0].pats, subject, cached, q, c.mentioned, x);
      var t := P.ArmTests(arms[0].pats, subject, cached, c.mentioned);
      var b := EmitBindings(t.binds, c);
      EmitSame(t.binds, c, x);
      SameReturnBody(arms[0], b, c, q, ret, n, x);
      SameChain(arms[1..], subject, cached, proven, c, q, ret, GenReturnBody(arms[0], b, c, n).next, x);
    }
  }

  lemma {:induction false} SameReturnBody(arm: R.Arm, b: Binds, c: Ctx, q: Scope, ret: bool, n: nat, x: string)
    requires FitsArm(arm, q, ret) && x in q.live && c.mentioned == q.mentioned
    ensures GenReturnBody(arm, b, DropC(c, x), n) == GenReturnBody(arm, b, c, n)
    decreases arm, 0
  {
    hide Inline, GenControl, Fits, Binders;
    SameTo(arm.body, ToReturn, c.(sub := b.sub), q.Bind(Elements(ArmBinders(arm.pats))), ret, n, x);
  }

  lemma {:induction false} SameBlock(b: R.Block, d: Dest, c: Ctx, q: Scope, ret: bool, n: nat, x: string)
    requires FitsBlock(b, q, ret) && x in q.live && c.mentioned == q.mentioned
    ensures GenBlock(b, d, DropC(c, x), n) == GenBlock(b, d, c, n)
    decreases b, 3
  {
    hide GenStmt, Fits, FitsStmt, GenTo;
    SameStmts(b.stmts, c, q, n, x);
    if b.tail.Some? {
      var s := GenStmts(b.stmts, c, n);
      DropAfter(b.stmts, q, x);
      AfterMentions(b.stmts, q);
      SameTo(b.tail.value, d, c.(sub := s.sub), After(b.stmts, q), ret, s.next, x);
    }
  }

  lemma {:induction false} AfterMentions(stmts: seq<R.Stmt>, q: Scope)
    ensures After(stmts, q).mentioned == q.mentioned
  {
    if stmts != [] {
      AfterMentions(stmts[1..], AfterOne(stmts[0], q));
    }
  }

  lemma {:induction false} SameStmts(stmts: seq<R.Stmt>, c: Ctx, q: Scope, n: nat, x: string)
    requires FitsStmts(stmts, q) && x in q.live && c.mentioned == q.mentioned
    ensures GenStmts(stmts, DropC(c, x), n) == GenStmts(stmts, c, n)
    decreases stmts, 0
  {
    hide GenStmt, FitsStmt;
    if stmts != [] {
      SameStmt(stmts[0], c, q, n, x);
      LetIsNew(stmts[0], q, x);
      var first := GenStmt(stmts[0], c, n);
      SameStmts(stmts[1..], c.(sub := first.sub), AfterOne(stmts[0], q), first.next, x);
    }
  }

  lemma {:induction false} SameStmt(s: R.Stmt, c: Ctx, q: Scope, n: nat, x: string)
    requires FitsStmt(s, q) && x in q.live && c.mentioned == q.mentioned
    ensures GenStmt(s, DropC(c, x), n) == GenStmt(s, c, n)
    decreases s, 0
  {
    hide GenElse, R.MatchFields, GenTo, FitsArm, R.MatchAny, P.ElementTests, FitsElse, M.ProvenExhaustive, R.MatchAll, P.AndAll, P.FieldTests,
      FitsArgs, R.RootFits, FitsBlock, M.RootOf, GenChain, GenLoop, Removable, InlineReads, InlineOnly, Binders, GenBlock, EmitBindings, InlineArgs,
      GenArms;
    match s {
      case Let(y, init) => SameLet(y, init, c, q, n, x);
      case ExprStmt(e) => SameTo(e, Discard, c, q, false, n, x);
      case Return(result) => if result.Some? { SameTo(result.value, ToReturn, c, q, true, n, x); }
      case While(cond, body) =>
        SameInline(cond, c, q, false, n, x);
        SameBlock(body, Discard, c.(brk := None), q, false, Inline(cond, c, n).next, x);
      case LoopStmt(body) => SameLoop(body, Discard, c, q, n, x);
      case Break(result) =>
        if result.Some? { SameTo(result.value, if c.brk.Some? then Var(c.brk.value) else Discard, c, q, false, n, x); }
    }
  }

  lemma {:induction false} SameLet(y: string, init: R.Expr, c: Ctx, q: Scope, n: nat, x: string)
    requires FitsStmt(R.Let(y, init), q) && x in q.live && c.mentioned == q.mentioned
    ensures GenLet(y, init, DropC(c, x), n) == GenLet(y, init, c, n)
    decreases init, 3
  {
    hide R.MatchPattern, R.MatchAny, R.RootFits, GenElse, GenTo, FitsArm, P.Alternatives, P.ElementTests, GenReturnBody, FitsElse, P.Retain,
      M.ProvenExhaustive, P.AndAll, P.FieldTests, P.OrAll, FitsArgs, FitsBlock, M.RootOf;
    if !(y !in q.mentioned && Removable(init)) {
      var q1 := if NeedsHoist(init) then q.Bind({y}) else q;
      if y !in q.mentioned && Discardable(init) {
        SameTo(init, Discard, c, q1, false, n, x);
      } else if init.Try? {
        SameInline(init.inner, c, q, false, n, x);
      } else if NeedsHoist(init) {
        SameTo(init, Var(c.loc(y)), c, q1, false, n, x);
      } else {
        SameInline(init, c, q1, false, n, x);
      }
    }
  }
}
