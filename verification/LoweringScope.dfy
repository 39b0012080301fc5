/** Which source programs the lowering is right for. */
module LoweringScope {
  import opened Wrappers
  import opened RuaLang
  import G = Lowering
  import M = MatchSelection

  /**
   * What is known at a place in a body: the names mentioned anywhere and the ones declared `mut`,
   * which never change, the variables live here, and those that may still be assigned here.
   */
  datatype Scope = Scope(mentioned: set<string>, mutable: set<string>, live: set<string>, may: set<string>)
  {
    function Bind(names: set<string>): Scope {
      this.(live := live + names)
    }

    function Without(names: set<string>): Scope {
      this.(may := may - names)
    }
  }

  // ---- patterns ----

  function Binders(p: Pattern): seq<string>
    decreases p
  {
    match p
    case Binding(x) => [x]
    case OptionPat(some, payload) => if some && payload.Some? then Binders(payload.value) else []
    case ResultPat(_, payload) => if payload.Some? then Binders(payload.value) else []
    case TuplePat(_, elems) => ElementBinders(elems)
    case StructPat(_, fields) => FieldBinders(fields)
    case _ => []
  }

  function ElementBinders(ps: seq<Pattern>): seq<string>
    decreases ps
  {
    if ps == [] then [] else Binders(ps[0]) + ElementBinders(ps[1..])
  }

  function FieldBinders(ps: seq<FieldPat>): seq<string>
    decreases ps
  {
    if ps == [] then [] else FieldBinder(ps[0]) + FieldBinders(ps[1..])
  }

  function FieldBinder(p: FieldPat): seq<string>
    decreases p
  {
    Binders(p.pattern)
  }

  /** An or-pattern binds nothing. */
  function ArmBinders(pats: seq<Pattern>): seq<string> {
    if |pats| == 1 then Binders(pats[0]) else []
  }

  function Elements(names: seq<string>): set<string> {
    set i | 0 <= i < |names| :: names[i]
  }

  ghost predicate Distinct(names: seq<string>) {
    forall i, j :: 0 <= i < j < |names| ==> names[i] != names[j]
  }

  /** Pattern variables are new, different from each other, and not `mut`. */
  ghost predicate NewBinders(names: seq<string>, q: Scope) {
    Distinct(names) && forall i :: 0 <= i < |names| ==> names[i] !in q.live && names[i] !in q.mutable
  }

  /** Every value of the matched type is accepted by some arm. */
  ghost predicate Covers(arms: seq<Arm>) {
    forall v :: ArmsFit(arms, v) ==> exists j :: 0 <= j < |arms| && !MatchArm(arms[j].pats, v).No?
  }

  // ---- expressions ----

  /** Expressions that need no statement of their own. */
  predicate InlineOnly(e: Expr)
    decreases e
  {
    match e
    case Lit(_) => true
    case Path(_) => true
    case Unary(_, operand) => InlineOnly(operand)
    case Binary(op, lhs, rhs) => op != Coalesce && InlineOnly(lhs) && InlineOnly(rhs)
    case Call(_, args) => AllInlineOnly(args)
    case SomeCall(payload) => InlineOnly(payload)
    case ResultCall(_, payload) => InlineOnly(payload)
    case VariantCall(_, args) => AllInlineOnly(args)
    case _ => false
  }

  predicate AllInlineOnly(es: seq<Expr>)
    decreases es
  {
    es == [] || (InlineOnly(es[0]) && AllInlineOnly(es[1..]))
  }

  /** The variables the final Lua expression reads, after the statements that come first. */
  function InlineReads(e: Expr): set<string>
    decreases e
  {
    match e
    case Path(x) => {x}
    case Unary(_, operand) => InlineReads(operand)
    case Binary(op, lhs, rhs) => if op == Coalesce then {} else InlineReads(lhs) + InlineReads(rhs)
    case Call(_, args) => AllInlineReads(args)
    case SomeCall(payload) => InlineReads(payload)
    case ResultCall(_, payload) => InlineReads(payload)
    case VariantCall(_, args) => AllInlineReads(args)
    case _ => {}
  }

  function AllInlineReads(es: seq<Expr>): set<string>
    decreases es
  {
    if es == [] then {} else InlineReads(es[0]) + AllInlineReads(es[1..])
  }

  /** In return position some path ends without a value, so no `return` is emitted for it. */
  predicate Falls(e: Expr)
    decreases e, 0
  {
    match e
    case If(_, thn, els) => FallsBlock(thn) || FallsElse(els)
    case IfLet(_, _, thn, els) => FallsBlock(thn) || FallsElse(els)
    case BlockExpr(b) => FallsBlock(b)
    case Match(_, arms) => FallsArms(arms)
    case _ => false
  }

  predicate FallsElse(els: Option<Else>)
    decreases els, 0
  {
    match els
    case None => true
    case Some(ElseBlock(b)) => FallsBlock(b)
    case Some(ElseIf(e)) => Falls(e)
  }

  predicate FallsBlock(b: Block)
    decreases b, 0
  {
    b.tail.None? || Falls(b.tail.value)
  }

  predicate FallsArms(arms: seq<Arm>)
    decreases arms, 0
  {
    arms != [] && (FallsArm(arms[0]) || FallsArms(arms[1..]))
  }

  predicate FallsArm(arm: Arm)
    decreases arm, 0
  {
    Falls(arm.body)
  }

  predicate PlainLiteral(v: Val) {
    v.IntVal? || v.BoolVal? || v.StrVal? || v.NoneVal? || v.UnitVal?
  }

  /**
   * The expression is one the lowering is right for, when its value is returned (ret) or not.
   * Names are resolved locals, so no binding hides a live one. An operand that is still to be read may
   * not be assigned by a later operand, and the right side of `&&` or `||` needs no statements.
   */
  ghost predicate Fits(e: Expr, q: Scope, ret: bool)
    decreases e
  {
    hide *;
    match e
    case Lit(v) => PlainLiteral(v)
    case Path(x) => x in q.live && x in q.mentioned
    case Unary(_, operand) => Fits(operand, q, false)
    case Binary(op, lhs, rhs) =>
      && Fits(lhs, q, false)
      && (op == And || op == Or ==> InlineOnly(rhs))
      && Fits(rhs, if op == Coalesce then q else q.Without(InlineReads(lhs)), false)
    case Call(g, args) => g != "ok" && g != "err" && g != "error" && FitsArgs(args, q)
    case SomeCall(payload) => Fits(payload, q, false)
    case ResultCall(_, payload) => Fits(payload, q, false)
    case VariantCall(_, args) => FitsArgs(args, q)
    case If(cond, thn, els) => Fits(cond, q, false) && FitsBlock(thn, q, ret) && FitsElse(els, q, ret)
    case IfLet(pat, subject, thn, els) =>
      && Fits(subject, q, false)
      && NewBinders(Binders(pat), q)
      && FitsBlock(thn, q.Bind(Elements(Binders(pat))), ret)
      && FitsElse(els, q, ret)
    case BlockExpr(b) => FitsBlock(b, q, ret)
    case Match(scrut, arms) =>
      && Fits(scrut, q, false)
      && (ret && G.NoGuards(arms) && M.ProvenExhaustive(M.Flatten(G.ArmPatterns(arms))) ==> Covers(arms))
      && FitsArms(arms, if ret && G.NoGuards(arms) && scrut.Path? then q.Without({scrut.name}) else q, ret)
    case Loop(body) => FitsBlock(body, q, false)
    case Try(_, inner) => Fits(inner, q, false)
    case Assign(_, x, rhs) => x in q.live && x in q.may && x in q.mentioned && Fits(rhs, q, false)
  }

  ghost predicate FitsArgs(args: seq<Expr>, q: Scope)
    decreases args
  {
    hide *;
    args == [] || (Fits(args[0], q, false) && FitsArgs(args[1..], q.Without(InlineReads(args[0]))))
  }

  ghost predicate FitsElse(els: Option<Else>, q: Scope, ret: bool)
    decreases els
  {
    hide *;
    match els
    case None => true
    case Some(ElseBlock(b)) => FitsBlock(b, q, ret)
    case Some(ElseIf(e)) => Fits(e, q, ret)
  }

  ghost predicate FitsArms(arms: seq<Arm>, q: Scope, ret: bool)
    decreases arms
  {
    hide *;
    arms == [] || (FitsArm(arms[0], q, ret) && FitsArms(arms[1..], q, ret))
  }

  ghost predicate FitsArm(arm: Arm, q: Scope, ret: bool)
    decreases arm
  {
    hide *;
    var inner := q.Bind(Elements(ArmBinders(arm.pats)));
    && NewBinders(ArmBinders(arm.pats), q)
    && FitsGuard(arm.guard, inner)
    && Fits(arm.body, inner, ret)
  }

  ghost predicate FitsGuard(guard: Option<Expr>, q: Scope)
    decreases guard
  {
    hide *;
    guard.Some? ==> Fits(guard.value, q, false)
  }

  ghost predicate FitsBlock(b: Block, q: Scope, ret: bool)
    decreases b
  {
    hide *;
    FitsStmts(b.stmts, q) && (b.tail.Some? ==> Fits(b.tail.value, After(b.stmts, q), ret))
  }

  ghost predicate FitsStmts(stmts: seq<Stmt>, q: Scope)
    decreases stmts
  {
    hide *;
    stmts == [] || (FitsStmt(stmts[0], q) && FitsStmts(stmts[1..], AfterOne(stmts[0], q)))
  }

  function AfterOne(s: Stmt, q: Scope): Scope {
    if s.Let? then q.(live := q.live + {s.name}, may := if s.name in q.mutable then q.may + {s.name} else q.may) else q
  }

  function After(stmts: seq<Stmt>, q: Scope): Scope {
    if stmts == [] then q else After(stmts[1..], AfterOne(stmts[0], q))
  }

  /** The initializer of `let x = a?` with an immutable `a`: x will stand for a. */
  predicate Aliases(init: Expr, mutable: set<string>) {
    init.Try? && !init.isResult && init.inner.Path? && init.inner.name !in mutable
  }

  /**
   * A returned expression has a value on every path, a loop condition needs no statements, and a
   * hoisted initializer, whose variable is declared first, binds no variable of the same name.
   */
  ghost predicate FitsStmt(s: Stmt, q: Scope)
    decreases s
  {
    hide *;
    match s
    case Let(x, init) =>
      && x !in q.live
      && ((x !in q.mentioned && G.Removable(init))
          || (Fits(init, if G.NeedsHoist(init) then q.Bind({x}) else q, false) && (Aliases(init, q.mutable) ==> x !in q.mutable)))
    case ExprStmt(e) => Fits(e, q, false)
    case Return(result) => result.Some? ==> Fits(result.value, q, true) && !Falls(result.value)
    case While(cond, body) => InlineOnly(cond) && Fits(cond, q, false) && FitsBlock(body, q, false)
    case LoopStmt(body) => FitsBlock(body, q, false)
    case Break(result) => result.Some? ==> Fits(result.value, q, false)
  }

  // ---- what these say about evaluation ----

  /** An expression without statements has a value and changes nothing, or is ill-typed. */
  lemma {:induction false} InlineOnlyIsPure(e: Expr, env: Env, f: Functions, fuel: nat)
    requires hide *; InlineOnly(e)
    ensures var r := Eval(e, env, f, fuel); r.Stuck? || (r.Done? && r.env == env)
    decreases e
  {
    match e {
      case Unary(_, operand) => InlineOnlyIsPure(operand, env, f, fuel);
      case Binary(_, lhs, rhs) =>
        InlineOnlyIsPure(lhs, env, f, fuel);
        InlineOnlyIsPure(rhs, env, f, fuel);
      case Call(_, args) => ArgsArePure(args, env, f, fuel);
      case VariantCall(_, args) => ArgsArePure(args, env, f, fuel);
      case SomeCall(payload) => InlineOnlyIsPure(payload, env, f, fuel);
      case ResultCall(_, payload) => InlineOnlyIsPure(payload, env, f, fuel);
      case _ =>
    }
  }

  lemma {:induction false} ArgsArePure(args: seq<Expr>, env: Env, f: Functions, fuel: nat)
    requires AllInlineOnly(args)
    ensures match EvalArgs(args, env, f, fuel)
            case Values(_, after) => after == env
            case Other(r) => r.Stuck?
    decreases args
  {
    if args != [] {
      InlineOnlyIsPure(args[0], env, f, fuel);
      ArgsArePure(args[1..], env, f, fuel);
    }
  }

  // ---- expressions that may be dropped ----

  ghost predicate Silent(r: Result, env: Env) {
    r.Stuck? || (r.Done? && r.env == env)
  }

  /** Statements may have added variables, but changed none. */
  ghost predicate OnlyAdds(r: Result, env: Env) {
    r.Stuck? || (r.Done? && |env| <= |r.env| && r.env[..|env|] == env)
  }

  lemma LeaveSilent(r: Result, env: Env, more: Env)
    requires |env| <= |more| && more[..|env|] == env && Silent(r, more)
    ensures Silent(Leave(r, |env|), env)
  {
  }

  /**
   * A removable expression has a value and changes nothing: it does not fail, exit, loop or assign.
   * (Ill-typed expressions aside.)
   */
  lemma {:induction false} RemovableIsSilent(e: Expr, env: Env, f: Functions, fuel: nat)
    requires G.Removable(e)
    ensures Silent(Eval(e, env, f, fuel), env)
    decreases e, 1
  {
    match e {
      case Unary(_, operand) => RemovableIsSilent(operand, env, f, fuel);
      case Binary(_, lhs, rhs) =>
        RemovableIsSilent(lhs, env, f, fuel);
        RemovableIsSilent(rhs, env, f, fuel);
      case SomeCall(payload) => RemovableIsSilent(payload, env, f, fuel);
      case ResultCall(_, payload) => RemovableIsSilent(payload, env, f, fuel);
      case VariantCall(_, args) => RemovableArgs(args, env, f, fuel);
      case If(cond, thn, els) =>
        RemovableIsSilent(cond, env, f, fuel);
        RemovableBlockIsSilent(thn, env, f, fuel);
        RemovableElseIsSilent(els, env, f, fuel);
      case BlockExpr(b) => RemovableBlockIsSilent(b, env, f, fuel);
      case _ =>
    }
  }

  lemma {:induction false} RemovableArgs(args: seq<Expr>, env: Env, f: Functions, fuel: nat)
    requires G.AllRemovable(args)
    ensures match EvalArgs(args, env, f, fuel)
            case Values(_, after) => after == env
            case Other(r) => r.Stuck?
    decreases args, 1
  {
    if args != [] {
      RemovableIsSilent(args[0], env, f, fuel);
      RemovableArgs(args[1..], env, f, fuel);
    }
  }

  lemma {:induction false} RemovableElseIsSilent(els: Option<Else>, env: Env, f: Functions, fuel: nat)
    requires G.RemovableElse(els)
    ensures Silent(EvalElse(els, env, f, fuel), env)
    decreases els, 1
  {
    match els {
      case None =>
      case Some(ElseBlock(b)) => RemovableBlockIsSilent(b, env, f, fuel);
      case Some(ElseIf(e)) => RemovableIsSilent(e, env, f, fuel);
    }
  }

  lemma {:induction false} RemovableBlockIsSilent(b: Block, env: Env, f: Functions, fuel: nat)
    requires G.RemovableBlock(b)
    ensures Silent(EvalBlock(b, env, f, fuel), env)
    decreases b, 1
  {
    var r := EvalStmts(b.stmts, env, f, fuel);
    RemovableStmtsOnlyAdd(b.stmts, env, f, fuel);
    if r.Done? && b.tail.Some? {
      RemovableIsSilent(b.tail.value, r.env, f, fuel);
      LeaveSilent(Eval(b.tail.value, r.env, f, fuel), env, r.env);
    }
  }

  lemma {:induction false} RemovableStmtsOnlyAdd(stmts: seq<Stmt>, env: Env, f: Functions, fuel: nat)
    requires G.RemovableStmts(stmts)
    ensures OnlyAdds(EvalStmts(stmts, env, f, fuel), env)
    decreases stmts, 1
  {
    if stmts != [] {
      RemovableStmtOnlyAdds(stmts[0], env, f, fuel);
      var r := EvalStmt(stmts[0], env, f, fuel);
      if r.Done? {
        RemovableStmtsOnlyAdd(stmts[1..], r.env, f, fuel);
        var q := EvalStmts(stmts[1..], r.env, f, fuel);
        if q.Done? {
          assert q.env[..|r.env|][..|env|] == q.env[..|env|];
        }
      }
    }
  }

  lemma {:induction false} RemovableStmtOnlyAdds(s: Stmt, env: Env, f: Functions, fuel: nat)
    requires G.RemovableStmt(s)
    ensures OnlyAdds(EvalStmt(s, env, f, fuel), env)
    decreases s, 1
  {
    match s {
      case Let(_, init) => RemovableIsSilent(init, env, f, fuel);
      case ExprStmt(e) => RemovableIsSilent(e, env, f, fuel);
      case _ =>
    }
  }
}
