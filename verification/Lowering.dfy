/** Lowering expressions to Lua statements that leave the value in a destination. */
module Lowering {
  import opened Wrappers
  import opened LuaIr
  import R = RuaLang
  import L = LuaRun
  import P = PatternTests
  import M = MatchSelection

  /** Where a value goes: nowhere, into a variable, or out of the function. */
  datatype Dest = Discard | Var(x: string) | ToReturn

  /**
   * What surrounds an expression: the Lua names of locals and temporaries, the source names that are
   * mentioned anywhere, the ones declared `mut`, the bindings that stand for an existing Lua variable,
   * and the variable that takes the value of a `break`.
   */
  datatype Ctx = Ctx(
    loc: string -> string,
    tmp: nat -> string,
    mentioned: set<string>,
    mutable: set<string>,
    sub: map<string, string>,
    brk: Option<string>)
  {
    function Res(x: string): string {
      if x in sub then sub[x] else loc(x)
    }
  }

  type Code = seq<L.Stmt>

  /** Emitted statements and the number of temporaries used so far. */
  datatype Gen = Gen(code: Code, next: nat)
  datatype GenE = GenE(code: Code, e: Expr, next: nat)
  datatype GenArgs = GenArgs(code: Code, es: seq<Expr>, next: nat)
  datatype GenS = GenS(code: Code, next: nat, sub: map<string, string>)
  datatype Binds = Binds(code: Code, sub: map<string, string>)
  datatype Chain = Chain(branches: seq<L.Branch>, tail: Option<Code>, next: nat)

  // ---- small pieces ----

  function LuaOp(op: R.BinOp): BinaryOp {
    match op
    case Add => Add
    case Sub => Sub
    case Mul => Mul
    case Concat => Concat
    case Eq => Eq
    case Ne => Ne
    case Lt => Lt
    case Le => Le
    case Gt => Gt
    case Ge => Ge
    case And => And
    case Or => Or
    case Coalesce => Or
  }

  function BinaryExpr(op: R.BinOp, a: Expr, b: Expr): Expr {
    if op == R.Concat then Parenthesized(Binary(a, Concat, b)) else Binary(a, LuaOp(op), b)
  }

  function UnaryExpr(op: R.UnOp, a: Expr): Expr {
    Unary(if op == R.Neg then Neg else Not, a)
  }

  function ImmutablePath(e: R.Expr, c: Ctx): bool {
    e.Path? && e.name !in c.mutable
  }

  function NeedsHoist(e: R.Expr): bool {
    e.If? || e.IfLet? || e.BlockExpr? || e.Match?
  }

  const ERROR_CALL: Expr := Call(Name("error"), [Str("non-exhaustive match")])

  function When(cond: Expr, body: Code): L.Stmt {
    L.If([L.Branch(cond, body)], [])
  }

  /** Deliver a computed expression to its destination. */
  function Finish(e: Expr, d: Dest): Code {
    match d
    case Discard => if e.Call? || e.MethodCall? then [L.Expression(e)] else []
    case Var(x) => [L.Assign(Name(x), e)]
    case ToReturn => [L.Return(Some(e))]
  }

  /** A binding that reads a whole variable stands for it; any other becomes a local. */
  function EmitBindings(binds: seq<P.PatternBinding>, c: Ctx): Binds {
    if binds == [] then Binds([], c.sub)
    else
      var rest := EmitBindings(binds[..|binds| - 1], c);
      var b := binds[|binds| - 1];
      if b.value.Name? then Binds(rest.code, rest.sub[b.name := b.value.id])
      else Binds(rest.code + [L.Local(c.loc(b.name), Some(b.value))], rest.sub)
  }

  function ArmPatterns(arms: seq<R.Arm>): seq<seq<R.Pattern>> {
    if arms == [] then [] else [arms[0].pats] + ArmPatterns(arms[1..])
  }

  predicate NoGuards(arms: seq<R.Arm>) {
    forall i :: 0 <= i < |arms| ==> arms[i].guard.None?
  }

  predicate UsesResultTag(pats: seq<R.Pattern>) {
    exists i :: 0 <= i < |pats| && pats[i].ResultPat?
  }

  predicate UsesRootTag(pats: seq<R.Pattern>) {
    UsesResultTag(pats) || exists i :: 0 <= i < |pats| && M.RootOf(pats[i]).TagRoot?
  }

  // ---- what evaluating would not show: expressions an unused `let` may drop ----

  predicate Removable(e: R.Expr)
    decreases e
  {
    match e
    case Lit(_) => true
    case Path(_) => true
    case Unary(_, operand) => Removable(operand)
    case Binary(op, lhs, rhs) => op != R.Coalesce && Removable(lhs) && Removable(rhs)
    case SomeCall(payload) => Removable(payload)
    case ResultCall(_, payload) => Removable(payload)
    case VariantCall(_, args) => AllRemovable(args)
    case If(cond, thn, els) => Removable(cond) && RemovableBlock(thn) && RemovableElse(els)
    case BlockExpr(b) => RemovableBlock(b)
    case _ => false
  }

  predicate AllRemovable(es: seq<R.Expr>)
    decreases es
  {
    es == [] || (Removable(es[0]) && AllRemovable(es[1..]))
  }

  predicate RemovableElse(els: Option<R.Else>)
    decreases els
  {
    match els
    case None => true
    case Some(ElseBlock(b)) => RemovableBlock(b)
    case Some(ElseIf(e)) => Removable(e)
  }

  predicate RemovableBlock(b: R.Block)
    decreases b
  {
    RemovableStmts(b.stmts) && (b.tail.Some? ==> Removable(b.tail.value))
  }

  predicate RemovableStmts(stmts: seq<R.Stmt>)
    decreases stmts
  {
    stmts == [] || (RemovableStmt(stmts[0]) && RemovableStmts(stmts[1..]))
  }

  predicate RemovableStmt(s: R.Stmt)
    decreases s
  {
    match s
    case Let(_, init) => Removable(init)
    case ExprStmt(e) => Removable(e)
    case _ => false
  }

  predicate Discardable(e: R.Expr) {
    e.Call? || e.If? || e.IfLet? || e.Match? || e.BlockExpr? || e.Loop? || e.Assign? || e.Try?
  }

  // ---- expressions ----

  /** The statements to run first, then a Lua expression for the value. */
  ghost function Inline(e: R.Expr, c: Ctx, n: nat): (r: GenE)
    ensures hide *; r.next >= n
    decreases e, 1
  {
    hide *;
    match e
    case Lit(v) => GenE([], P.LiteralExpr(v), n)
    case Path(x) => GenE([], Name(c.Res(x)), n)
    case Unary(op, operand) =>
      var g := Inline(operand, c, n);
      GenE(g.code, UnaryExpr(op, g.e), g.next)
    case Binary(Coalesce, lhs, rhs) =>
      var a := Inline(lhs, c, n);
      var t := c.tmp(a.next + 1);
      var b := Inline(rhs, c, a.next + 1);
      GenE(a.code + [L.Local(t, Some(a.e))] + [When(Binary(Name(t), Eq, Nil), b.code + [L.Assign(Name(t), b.e)])], Name(t), b.next)
    case Binary(op, lhs, rhs) =>
      var a := Inline(lhs, c, n);
      var b := Inline(rhs, c, a.next);
      GenE(a.code + b.code, BinaryExpr(op, a.e, b.e), b.next)
    case Call(f, args) =>
      var g := InlineArgs(args, c, n);
      GenE(g.code, Call(Name(f), g.es), g.next)
    case SomeCall(payload) => Inline(payload, c, n)
    case ResultCall(ok, payload) =>
      var g := Inline(payload, c, n);
      GenE(g.code, Call(Name(if ok then "ok" else "err"), [g.e]), g.next)
    case VariantCall(tag, args) =>
      var g := InlineArgs(args, c, n);
      GenE(g.code, Table([Named("tag", Str(tag.name))] + Positional(g.es)), g.next)
    case Try(isResult, inner) =>
      var g := Inline(inner, c, n);
      var t := c.tmp(g.next + 1);
      if isResult then
        GenE(g.code + [L.Local(t, Some(g.e))] + [When(Unary(Not, P.ResultIsOk(Name(t))), [L.Return(Some(Name(t)))])],
             P.ResultPayload(Name(t)), g.next + 1)
      else
        GenE(g.code + [L.Local(t, Some(g.e))] + [When(Binary(Name(t), Eq, Nil), [L.Return(Some(Nil))])], Name(t), g.next + 1)
    case _ =>
      var t := c.tmp(n + 1);
      var g := GenControl(e, Var(t), c, n + 1);
      GenE([L.Local(t, None)] + g.code, Name(t), g.next)
  }

  function Positional(es: seq<Expr>): seq<TableField> {
    if es == [] then [] else Positional(es[..|es| - 1]) + [Value(es[|es| - 1])]
  }

  ghost function InlineArgs(args: seq<R.Expr>, c: Ctx, n: nat): (r: GenArgs)
    ensures hide *; r.next >= n && |r.es| == |args|
    decreases args, 0
  {
    hide *;
    if args == [] then GenArgs([], [], n)
    else
      var first := Inline(args[0], c, n);
      var rest := InlineArgs(args[1..], c, first.next);
      GenArgs(first.code + rest.code, [first.e] + rest.es, rest.next)
  }

  predicate IsControl(e: R.Expr) {
    e.If? || e.IfLet? || e.BlockExpr? || e.Match? || e.Loop? || e.Assign?
  }

  ghost function GenTo(e: R.Expr, d: Dest, c: Ctx, n: nat): (r: Gen)
    ensures hide *; r.next >= n
    decreases e, 2
  {
    hide *;
    if IsControl(e) then GenControl(e, d, c, n)
    else
      var g := Inline(e, c, n);
      Gen(g.code + Finish(g.e, d), g.next)
  }

  /** Control flow is emitted as statements. */
  ghost function GenControl(e: R.Expr, d: Dest, c: Ctx, n: nat): (r: Gen)
    ensures r.next >= n
    decreases e, 0
  {
    match e
    case Loop(body) => GenLoop(body, d, c, n)
    case If(cond, thn, els) =>
      var g := Inline(cond, c, n);
      var t := GenBlock(thn, d, c, g.next);
      var o := GenElse(els, d, c, t.next);
      Gen(g.code + [L.If([L.Branch(g.e, t.code)], o.code)], o.next)
    case IfLet(pat, subject, thn, els) =>
      var g := Inline(subject, c, n);
      var s := Subject(g, ImmutablePath(subject, c), c);
      var test := P.PatTest(pat, s.e, None);
      var b := EmitBindings(test.binds, c);
      var t := GenBlock(thn, d, c.(sub := b.sub), s.next);
      var o := GenElse(els, d, c, t.next);
      Gen(s.code + [L.If([L.Branch(P.AndAll(test.tests), b.code + t.code)], o.code)], o.next)
    case BlockExpr(b) => GenBlock(b, d, c, n)
    case Match(scrut, arms) =>
      if d.ToReturn? && NoGuards(arms) then
        var g := Inline(scrut, c, n);
        var s := Subject(g, scrut.Path?, c);
        GenReturnMatch(s, arms, c)
      else
        var m := c.tmp(n + 1);
        var g := Inline(scrut, c, n + 1);
        var matched := c.tmp(g.next + 1);
        var a := GenArms(arms, m, matched, d, c, g.next + 1);
        Gen(g.code + [L.Local(m, Some(g.e)), L.Local(matched, Some(Bool(false)))] + a.code
            + [When(Unary(Not, Name(matched)), [L.Expression(ERROR_CALL)])], a.next)
    case Assign(op, x, rhs) =>
      if op.Some? then
        var g := Inline(rhs, c, n);
        Gen(g.code + [L.Assign(Name(c.Res(x)), BinaryExpr(op.value, Name(c.Res(x)), g.e))] + AssignResult(d), g.next)
      else
        var g := GenTo(rhs, Var(c.Res(x)), c, n);
        Gen(g.code + AssignResult(d), g.next)
    case _ => Gen([], n)
  }

  /** An assignment has the value nil. */
  function AssignResult(d: Dest): Code {
    match d
    case Discard => []
    case Var(x) => [L.Assign(Name(x), Nil)]
    case ToReturn => [L.Return(Some(Nil))]
  }

  /** The subject of pattern tests: the expression itself when it may be read repeatedly, else a temporary. */
  function Subject(g: GenE, asIs: bool, c: Ctx): GenE {
    if asIs then g
    else GenE(g.code + [L.Local(c.tmp(g.next + 1), Some(g.e))], Name(c.tmp(g.next + 1)), g.next + 1)
  }

  ghost function GenElse(els: Option<R.Else>, d: Dest, c: Ctx, n: nat): (r: Gen)
    ensures hide *; r.next >= n
    decreases els, 3
  {
    hide *;
    match els
    case None => Gen(if d.Var? then [L.Assign(Name(d.x), Nil)] else [], n)
    case Some(ElseBlock(b)) => GenBlock(b, d, c, n)
    case Some(ElseIf(e)) => GenTo(e, d, c, n)
  }

  ghost function GenLoop(body: R.Block, d: Dest, c: Ctx, n: nat): (r: Gen)
    ensures hide *; r.next >= n
    decreases body, 4
  {
    hide *;
    match d
    case Discard =>
      var g := GenBlock(body, Discard, c.(brk := None), n);
      Gen([L.While(Bool(true), g.code)], g.next)
    case Var(x) =>
      var g := GenBlock(body, Discard, c.(brk := Some(x)), n);
      Gen([L.While(Bool(true), g.code)], g.next)
    case ToReturn =>
      var t := c.tmp(n + 1);
      var g := GenBlock(body, Discard, c.(brk := Some(t)), n + 1);
      Gen([L.Local(t, None), L.While(Bool(true), g.code), L.Return(Some(Name(t)))], g.next)
  }

  // ---- match ----

  ghost function GenArms(arms: seq<R.Arm>, m: string, matched: string, d: Dest, c: Ctx, n: nat): (r: Gen)
    ensures hide *; r.next >= n
    decreases arms, 0
  {
    hide *;
    if arms == [] then Gen([], n)
    else
      var a := GenArm(arms[0], m, matched, d, c, n);
      var rest := GenArms(arms[1..], m, matched, d, c, a.next);
      Gen(a.code + rest.code, rest.next)
  }

  /** One arm of a match that keeps a flag: it runs only while no arm has run. */
  ghost function GenArm(arm: R.Arm, m: string, matched: string, d: Dest, c: Ctx, n: nat): (r: Gen)
    ensures hide *; r.next >= n
    decreases arm, 0
  {
    hide *;
    var t := P.ArmTests(arm.pats, Name(m), None, c.mentioned);
    var b := EmitBindings(t.binds, c);
    var inner := c.(sub := b.sub);
    var unmatched := Unary(Not, Name(matched));
    var cond := if t.tests == [] then unmatched else Binary(unmatched, And, Parenthesized(P.AndAll(t.tests)));
    if arm.guard.None? then
      var body := GenTo(arm.body, d, inner, n);
      Gen([When(cond, b.code + ([L.Assign(Name(matched), Bool(true))] + body.code))], body.next)
    else
      var g := Inline(arm.guard.value, inner, n);
      var body := GenTo(arm.body, d, inner, g.next);
      Gen([When(cond, b.code + (g.code + [When(g.e, [L.Assign(Name(matched), Bool(true))] + body.code)]))], body.next)
  }

  /** A match in return position: an if/elseif chain. */
  ghost function GenReturnMatch(s: GenE, arms: seq<R.Arm>, c: Ctx): (r: Gen)
    ensures hide *; r.next >= s.next
    decreases arms, 2
  {
    hide *;
    var pats := M.Flatten(ArmPatterns(arms));
    var proven := M.ProvenExhaustive(pats);
    var conditional := |arms| - (if proven && arms != [] then 1 else 0);
    var cached := conditional >= 2 && UsesRootTag(pats);
    var tag := c.tmp(s.next + 1);
    var tagCode :=
      if cached then [L.Local(tag, Some(if UsesResultTag(pats) then P.ResultIsOk(s.e) else Field(s.e, "tag")))] else [];
    var chain := GenChain(arms, s.e, if cached then Some(Name(tag)) else None, proven, c, if cached then s.next + 1 else s.next);
    var last := if chain.tail.Some? then chain.tail.value else [L.Expression(ERROR_CALL)];
    Gen(s.code + tagCode + (if chain.branches == [] then last else [L.If(chain.branches, last)]), chain.next)
  }

  ghost function GenChain(arms: seq<R.Arm>, subject: Expr, cached: Option<Expr>, proven: bool, c: Ctx, n: nat): (r: Chain)
    ensures hide *; r.next >= n
    decreases arms, 0
  {
    hide *;
    if arms == [] then Chain([], None, n)
    else
      var t := P.ArmTests(arms[0].pats, subject, cached, c.mentioned);
      var body := GenReturnBody(arms[0], EmitBindings(t.binds, c), c, n);
      if t.tests == [] || (proven && |arms| == 1) then Chain([], Some(body.code), body.next)
      else
        var rest := GenChain(arms[1..], subject, cached, proven, c, body.next);
        Chain([L.Branch(P.AndAll(t.tests), body.code)] + rest.branches, rest.tail, rest.next)
  }

  ghost function GenReturnBody(arm: R.Arm, b: Binds, c: Ctx, n: nat): (r: Gen)
    ensures hide *; r.next >= n
    decreases arm, 0
  {
    hide *;
    var body := GenTo(arm.body, ToReturn, c.(sub := b.sub), n);
    Gen(b.code + body.code, body.next)
  }

  // ---- blocks and statements ----

  ghost function GenBlock(b: R.Block, d: Dest, c: Ctx, n: nat): (r: Gen)
    ensures hide *; r.next >= n
    decreases b, 3
  {
    hide *;
    var s := GenStmts(b.stmts, c, n);
    if b.tail.Some? then
      var t := GenTo(b.tail.value, d, c.(sub := s.sub), s.next);
      Gen(s.code + t.code, t.next)
    else
      Gen(s.code + if d.Var? then [L.Assign(Name(d.x), Nil)] else [], s.next)
  }

  ghost function GenStmts(stmts: seq<R.Stmt>, c: Ctx, n: nat): (r: GenS)
    ensures hide *; r.next >= n
    decreases stmts, 0
  {
    hide *;
    if stmts == [] then GenS([], n, c.sub)
    else
      var first := GenStmt(stmts[0], c, n);
      var rest := GenStmts(stmts[1..], c.(sub := first.sub), first.next);
      GenS(first.code + rest.code, rest.next, rest.sub)
  }

  ghost function GenStmt(s: R.Stmt, c: Ctx, n: nat): (r: GenS)
    ensures hide *; r.next >= n
    decreases s, 0
  {
    hide *;
    match s
    case Let(x, init) => GenLet(x, init, c, n)
    case ExprStmt(e) =>
      var g := GenTo(e, Discard, c, n);
      GenS(g.code, g.next, c.sub)
    case Return(result) =>
      if result.None? then GenS([L.Do([L.Return(None)])], n, c.sub)
      else
        var g := GenTo(result.value, ToReturn, c, n);
        GenS([L.Do(g.code)], g.next, c.sub)
    case While(cond, body) =>
      var g := Inline(cond, c, n);
      var b := GenBlock(body, Discard, c.(brk := None), g.next);
      GenS(g.code + [L.While(g.e, b.code)], b.next, c.sub)
    case LoopStmt(body) =>
      var g := GenLoop(body, Discard, c, n);
      GenS(g.code, g.next, c.sub)
    case Break(result) =>
      if result.None? then
        GenS((if c.brk.Some? then [L.Assign(Name(c.brk.value), Nil)] else []) + [L.Break], n, c.sub)
      else
        var g := GenTo(result.value, if c.brk.Some? then Var(c.brk.value) else Discard, c, n);
        GenS(g.code + [L.Break], g.next, c.sub)
  }

  ghost function GenLet(x: string, init: R.Expr, c: Ctx, n: nat): (r: GenS)
    ensures r.next >= n
    decreases init, 3
  {
    if x !in c.mentioned && Removable(init) then GenS([], n, c.sub)
    else if x !in c.mentioned && Discardable(init) then
      var g := GenTo(init, Discard, c, n);
      GenS(g.code, g.next, c.sub)
    else if init.Try? then
      var g := Inline(init.inner, c, n);
      if init.isResult then
        var t := c.tmp(g.next + 1);
        GenS(g.code + [L.Local(t, Some(g.e))] + [When(Unary(Not, P.ResultIsOk(Name(t))), [L.Return(Some(Name(t)))])]
             + [L.Local(c.loc(x), Some(P.ResultPayload(Name(t))))], g.next + 1, c.sub)
      else if ImmutablePath(init.inner, c) then
        GenS(g.code + [When(Binary(g.e, Eq, Nil), [L.Return(Some(Nil))])], g.next, c.sub[x := c.Res(init.inner.name)])
      else
        GenS(g.code + [L.Local(c.loc(x), Some(g.e))] + [When(Binary(Name(c.loc(x)), Eq, Nil), [L.Return(Some(Nil))])], g.next, c.sub)
    else if NeedsHoist(init) then
      var g := GenTo(init, Var(c.loc(x)), c, n);
      GenS([L.Local(c.loc(x), None)] + g.code, g.next, c.sub)
    else
      var g := Inline(init, c, n);
      GenS(g.code + [L.Local(c.loc(x), Some(g.e))], g.next, c.sub)
  }

  /** A whole function body. */
  ghost function GenFunction(body: R.Block, c: Ctx): Code {
    hide *;
    GenBlock(body, ToReturn, c, 0).code
  }
}
