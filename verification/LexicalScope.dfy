/** Which local a name means, by the place where it stands in the text, and the proof that bodies are resolved like that. */
module LexicalScope {
  import opened Wrappers
  import opened ScopeResolver

  // ---- places: a body with one hole where an expression can stand ----

  datatype ExprHole =
    | Here
    | PartAt(seq<Expr>, ExprHole, seq<Expr>)
    | SelectBase(ExprHole, seq<Expr>)
    | SelectPart(Expr, seq<Expr>, ExprHole, seq<Expr>)
    | ClosureBody(seq<string>, ExprHole)
    | InBlockExpr(BlockHole)
    | IfCond(ExprHole, Block, Option<Expr>)
    | IfThen(Expr, BlockHole, Option<Expr>)
    | IfElse(Expr, Block, ExprHole)
    | IfLetPattern(PatternHole, Expr, Block, Option<Expr>)
    | IfLetSubject(Pattern, ExprHole, Block, Option<Expr>)
    | IfLetThen(Pattern, Expr, BlockHole, Option<Expr>)
    | IfLetElse(Pattern, Expr, Block, ExprHole)
    | Scrutinee(ExprHole, seq<Arm>)
    | InArm(Expr, seq<Arm>, ArmHole, seq<Arm>)
    | AssignTarget(ExprHole, Expr)
    | AssignValue(Expr, ExprHole)

  datatype ArmHole =
    | ArmPattern(seq<Pattern>, PatternHole, seq<Pattern>, Option<Expr>, Expr)
    | ArmGuard(seq<Pattern>, ExprHole, Expr)
    | ArmBody(seq<Pattern>, Option<Expr>, ExprHole)

  datatype PatternHole = ConstantHole(ExprHole) | ElementAt(seq<Pattern>, PatternHole, seq<Pattern>)

  datatype BlockHole = StmtAt(seq<Stmt>, StmtHole, seq<Stmt>, Option<Expr>) | TailAt(seq<Stmt>, ExprHole)

  datatype StmtHole =
    | LetInit(string, bool, ExprHole)
    | RunHole(ExprHole)
    | WhileCond(ExprHole, Block)
    | WhileBody(Expr, BlockHole)
    | LoopBody(BlockHole)
    | ForIter(string, ExprHole, Block)
    | ForBody(string, Expr, BlockHole)
    | WhileLetPattern(PatternHole, Expr, Block)
    | WhileLetSubject(Pattern, ExprHole, Block)
    | WhileLetBody(Pattern, Expr, BlockHole)

  function PlugExpr(h: ExprHole, x: Expr): Expr
    decreases h
  {
    hide *;
    match h
    case Here => x
    case PartAt(before, g, after) => Parts(before + [PlugExpr(g, x)] + after)
    case SelectBase(g, parts) => Select(PlugExpr(g, x), parts)
    case SelectPart(base, before, g, after) => Select(base, before + [PlugExpr(g, x)] + after)
    case ClosureBody(params, g) => Closure(params, PlugExpr(g, x))
    case InBlockExpr(g) => BlockExpr(PlugBlock(g, x))
    case IfCond(g, thn, els) => If(PlugExpr(g, x), thn, els)
    case IfThen(cond, g, els) => If(cond, PlugBlock(g, x), els)
    case IfElse(cond, thn, g) => If(cond, thn, Some(PlugExpr(g, x)))
    case IfLetPattern(g, subject, thn, els) => IfLet(PlugPattern(g, x), subject, thn, els)
    case IfLetSubject(pat, g, thn, els) => IfLet(pat, PlugExpr(g, x), thn, els)
    case IfLetThen(pat, subject, g, els) => IfLet(pat, subject, PlugBlock(g, x), els)
    case IfLetElse(pat, subject, thn, g) => IfLet(pat, subject, thn, Some(PlugExpr(g, x)))
    case Scrutinee(g, arms) => Match(PlugExpr(g, x), arms)
    case InArm(scrut, before, g, after) => Match(scrut, before + [PlugArm(g, x)] + after)
    case AssignTarget(g, value) => Assign(PlugExpr(g, x), value)
    case AssignValue(target, g) => Assign(target, PlugExpr(g, x))
  }

  function PlugArm(h: ArmHole, x: Expr): Arm
    decreases h
  {
    hide *;
    match h
    case ArmPattern(before, g, after, guard, body) => Arm(before + [PlugPattern(g, x)] + after, guard, body)
    case ArmGuard(pats, g, body) => Arm(pats, Some(PlugExpr(g, x)), body)
    case ArmBody(pats, guard, g) => Arm(pats, guard, PlugExpr(g, x))
  }

  function PlugPattern(h: PatternHole, x: Expr): Pattern
    decreases h
  {
    hide *;
    match h
    case ConstantHole(g) => Constant(PlugExpr(g, x))
    case ElementAt(before, g, after) => Variant(before + [PlugPattern(g, x)] + after)
  }

  function PlugBlock(h: BlockHole, x: Expr): Block
    decreases h
  {
    hide *;
    match h
    case StmtAt(before, g, after, tail) => Block(before + [PlugStmt(g, x)] + after, tail)
    case TailAt(stmts, g) => Block(stmts, Some(PlugExpr(g, x)))
  }

  function PlugStmt(h: StmtHole, x: Expr): Stmt
    decreases h
  {
    hide *;
    match h
    case LetInit(name, mutable, g) => Let(name, mutable, PlugExpr(g, x))
    case RunHole(g) => Run(Some(PlugExpr(g, x)))
    case WhileCond(g, body) => While(PlugExpr(g, x), body)
    case WhileBody(cond, g) => While(cond, PlugBlock(g, x))
    case LoopBody(g) => Loop(PlugBlock(g, x))
    case ForIter(name, g, body) => For(name, PlugExpr(g, x), body)
    case ForBody(name, iter, g) => For(name, iter, PlugBlock(g, x))
    case WhileLetPattern(g, subject, body) => WhileLet(PlugPattern(g, x), subject, body)
    case WhileLetSubject(pat, g, body) => WhileLet(pat, PlugExpr(g, x), body)
    case WhileLetBody(pat, subject, g) => WhileLet(pat, subject, PlugBlock(g, x))
  }

  // ---- the locals that a piece declares, in the order in which they are numbered ----

  function MadeExpr(e: Expr): seq<LocalData>
    decreases e, 1
  {
    match e
    case Path(_, _) => []
    case Parts(parts) => MadeAll(parts)
    case Select(base, parts) => MadeExpr(base) + MadeAll(parts)
    case Closure(params, body) => MadeParams(params) + MadeExpr(body)
    case BlockExpr(block) => MadeBlock(block)
    case If(cond, thn, els) => MadeExpr(cond) + (MadeBlock(thn) + MadeOption(els))
    case IfLet(pat, subject, thn, els) => MadeExpr(subject) + (MadePattern(pat) + (MadeBlock(thn) + MadeOption(els)))
    case Match(scrut, arms) => MadeExpr(scrut) + MadeArms(arms)
    case Assign(target, value) => MadeExpr(target) + MadeExpr(value)
  }

  function MadeParams(names: seq<string>): (r: seq<LocalData>)
    ensures |r| == |names|
  {
    seq(|names|, i requires 0 <= i < |names| => LocalData(names[i], false))
  }

  function MadeAll(es: seq<Expr>): seq<LocalData>
    decreases es, 0
  {
    if es == [] then [] else MadeExpr(es[0]) + MadeAll(es[1..])
  }

  function MadeOption(e: Option<Expr>): seq<LocalData>
    decreases e, 0
  {
    if e.Some? then MadeExpr(e.value) else []
  }

  function MadeArms(arms: seq<Arm>): seq<LocalData>
    decreases arms, 0
  {
    if arms == [] then [] else MadeArm(arms[0]) + MadeArms(arms[1..])
  }

  function MadeArm(arm: Arm): seq<LocalData>
    decreases arm, 0
  {
    MadePatterns(arm.pats) + (MadeOption(arm.guard) + MadeExpr(arm.body))
  }

  function MadePattern(p: Pattern): seq<LocalData>
    decreases p, 0
  {
    match p
    case Binding(name) => [LocalData(name, false)]
    case Constant(value) => MadeExpr(value)
    case Variant(elems) => MadePatterns(elems)
  }

  function MadePatterns(ps: seq<Pattern>): seq<LocalData>
    decreases ps, 0
  {
    if ps == [] then [] else MadePattern(ps[0]) + MadePatterns(ps[1..])
  }

  function MadeBlock(b: Block): seq<LocalData>
    decreases b, 0
  {
    MadeStmts(b.stmts) + MadeOption(b.tail)
  }

  function MadeStmts(stmts: seq<Stmt>): seq<LocalData>
    decreases stmts, 0
  {
    if stmts == [] then [] else MadeStmt(stmts[0]) + MadeStmts(stmts[1..])
  }

  function MadeStmt(s: Stmt): seq<LocalData>
    decreases s, 0
  {
    match s
    case Let(name, mutable, init) => MadeExpr(init) + [LocalData(name, mutable)]
    case Run(e) => MadeOption(e)
    case While(cond, body) => MadeExpr(cond) + MadeBlock(body)
    case Loop(body) => MadeBlock(body)
    case For(name, iter, body) => MadeExpr(iter) + ([LocalData(name, false)] + MadeBlock(body))
    case WhileLet(pat, subject, body) => MadeExpr(subject) + (MadePattern(pat) + MadeBlock(body))
  }

  // ---- the binders that are visible at a place, outermost first ----

  /** A declaration: its name and its number. */
  datatype Binder = Binder(name: string, id: LocalId)

  function Params(names: seq<string>, n: nat): seq<Binder>
    decreases |names|
  {
    if names == [] then [] else [Binder(names[0], n)] + Params(names[1..], n + 1)
  }

  /** The `let`s of a list of statements, each numbered behind what its initializer declares. */
  function Lets(stmts: seq<Stmt>, n: nat): seq<Binder>
    decreases |stmts|
  {
    if stmts == [] then []
    else (if stmts[0].Let? then [Binder(stmts[0].name, n + |MadeExpr(stmts[0].init)|)] else []) + Lets(stmts[1..], n + |MadeStmt(stmts[0])|)
  }

  function PatternBinders(p: Pattern, n: nat): seq<Binder>
    decreases p, 0
  {
    match p
    case Binding(name) => [Binder(name, n)]
    case Constant(_) => []
    case Variant(elems) => PatternsBinders(elems, n)
  }

  function PatternsBinders(ps: seq<Pattern>, n: nat): seq<Binder>
    decreases ps, 0
  {
    if ps == [] then [] else PatternBinders(ps[0], n) + PatternsBinders(ps[1..], n + |MadePattern(ps[0])|)
  }

  /** Inside an expression, when n locals are declared before it. */
  function VisibleExpr(h: ExprHole, n: nat): seq<Binder>
    decreases h
  {
    hide *;
    match h
    case Here => []
    case PartAt(before, g, _) => VisibleExpr(g, n + |MadeAll(before)|)
    case SelectBase(g, _) => VisibleExpr(g, n)
    case SelectPart(base, before, g, _) => VisibleExpr(g, n + |MadeExpr(base)| + |MadeAll(before)|)
    case ClosureBody(params, g) => Params(params, n) + VisibleExpr(g, n + |params|)
    case InBlockExpr(g) => VisibleBlock(g, n)
    case IfCond(g, _, _) => VisibleExpr(g, n)
    case IfThen(cond, g, _) => VisibleBlock(g, n + |MadeExpr(cond)|)
    case IfElse(cond, thn, g) => VisibleExpr(g, n + |MadeExpr(cond)| + |MadeBlock(thn)|)
    case IfLetPattern(g, subject, _, _) => VisiblePattern(g, n + |MadeExpr(subject)|)
    case IfLetSubject(_, g, _, _) => VisibleExpr(g, n)
    case IfLetThen(pat, subject, g, _) =>
      PatternBinders(pat, n + |MadeExpr(subject)|) + VisibleBlock(g, n + |MadeExpr(subject)| + |MadePattern(pat)|)
    case IfLetElse(pat, subject, thn, g) => VisibleExpr(g, n + |MadeExpr(subject)| + |MadePattern(pat)| + |MadeBlock(thn)|)
    case Scrutinee(g, _) => VisibleExpr(g, n)
    case InArm(scrut, before, g, _) => VisibleArm(g, n + |MadeExpr(scrut)| + |MadeArms(before)|)
    case AssignTarget(g, _) => VisibleExpr(g, n)
    case AssignValue(target, g) => VisibleExpr(g, n + |MadeExpr(target)|)
  }

  /** The variables of an arm's patterns are visible in its guard and its body. */
  function VisibleArm(h: ArmHole, n: nat): seq<Binder>
    decreases h
  {
    hide *;
    match h
    case ArmPattern(before, g, _, _, _) => PatternsBinders(before, n) + VisiblePattern(g, n + |MadePatterns(before)|)
    case ArmGuard(pats, g, _) => PatternsBinders(pats, n) + VisibleExpr(g, n + |MadePatterns(pats)|)
    case ArmBody(pats, guard, g) => PatternsBinders(pats, n) + VisibleExpr(g, n + |MadePatterns(pats)| + |MadeOption(guard)|)
  }

  function VisiblePattern(h: PatternHole, n: nat): seq<Binder>
    decreases h
  {
    hide *;
    match h
    case ConstantHole(g) => VisibleExpr(g, n)
    case ElementAt(before, g, _) => PatternsBinders(before, n) + VisiblePattern(g, n + |MadePatterns(before)|)
  }

  /** The earlier `let`s of a block are visible in the later statements and in the tail. */
  function VisibleBlock(h: BlockHole, n: nat): seq<Binder>
    decreases h
  {
    hide *;
    match h
    case StmtAt(before, g, _, _) => Lets(before, n) + VisibleStmt(g, n + |MadeStmts(before)|)
    case TailAt(stmts, g) => Lets(stmts, n) + VisibleExpr(g, n + |MadeStmts(stmts)|)
  }

  /** A `let` is not visible in its own initializer, nor a loop's variable in what it runs over. */
  function VisibleStmt(h: StmtHole, n: nat): seq<Binder>
    decreases h
  {
    hide *;
    match h
    case LetInit(_, _, g) => VisibleExpr(g, n)
    case RunHole(g) => VisibleExpr(g, n)
    case WhileCond(g, _) => VisibleExpr(g, n)
    case WhileBody(cond, g) => VisibleBlock(g, n + |MadeExpr(cond)|)
    case LoopBody(g) => VisibleBlock(g, n)
    case ForIter(_, g, _) => VisibleExpr(g, n)
    case ForBody(name, iter, g) => [Binder(name, n + |MadeExpr(iter)|)] + VisibleBlock(g, n + |MadeExpr(iter)| + 1)
    case WhileLetPattern(g, subject, _) => VisiblePattern(g, n + |MadeExpr(subject)|)
    case WhileLetSubject(_, g, _) => VisibleExpr(g, n)
    case WhileLetBody(pat, subject, g) =>
      PatternBinders(pat, n + |MadeExpr(subject)|) + VisibleBlock(g, n + |MadeExpr(subject)| + |MadePattern(pat)|)
  }

  /** The innermost visible binder of a name. */
  function Innermost(binders: seq<Binder>, x: string): Option<LocalId> {
    if binders == [] then None
    else if binders[|binders| - 1].name == x then Some(binders[|binders| - 1].id)
    else Innermost(binders[..|binders| - 1], x)
  }

  /** What a path means among these binders. */
  function Meaning(binders: seq<Binder>, segments: seq<string>): Target {
    if |segments| == 1 && Innermost(binders, segments[0]).Some? then Local(Innermost(binders, segments[0]).value) else Outside(segments)
  }

  // ---- the identities of the paths in a piece ----

  function IdsExpr(e: Expr): set<nat>
    decreases e, 1
  {
    match e
    case Path(id, _) => {id}
    case Parts(parts) => IdsAll(parts)
    case Select(base, parts) => IdsExpr(base) + IdsAll(parts)
    case Closure(_, body) => IdsExpr(body)
    case BlockExpr(block) => IdsBlock(block)
    case If(cond, thn, els) => IdsExpr(cond) + IdsBlock(thn) + IdsOption(els)
    case IfLet(pat, subject, thn, els) => IdsPattern(pat) + IdsExpr(subject) + IdsBlock(thn) + IdsOption(els)
    case Match(scrut, arms) => IdsExpr(scrut) + IdsArms(arms)
    case Assign(target, value) => IdsExpr(target) + IdsExpr(value)
  }

  function IdsAll(es: seq<Expr>): set<nat>
    decreases es, 0
  {
    if es == [] then {} else IdsExpr(es[0]) + IdsAll(es[1..])
  }

  function IdsOption(e: Option<Expr>): set<nat>
    decreases e, 0
  {
    if e.Some? then IdsExpr(e.value) else {}
  }

  function IdsArms(arms: seq<Arm>): set<nat>
    decreases arms, 0
  {
    if arms == [] then {} else IdsArm(arms[0]) + IdsArms(arms[1..])
  }

  function IdsArm(arm: Arm): set<nat>
    decreases arm, 0
  {
    IdsPatterns(arm.pats) + IdsOption(arm.guard) + IdsExpr(arm.body)
  }

  function IdsPattern(p: Pattern): set<nat>
    decreases p, 0
  {
    match p
    case Binding(_) => {}
    case Constant(value) => IdsExpr(value)
    case Variant(elems) => IdsPatterns(elems)
  }

  function IdsPatterns(ps: seq<Pattern>): set<nat>
    decreases ps, 0
  {
    if ps == [] then {} else IdsPattern(ps[0]) + IdsPatterns(ps[1..])
  }

  function IdsBlock(b: Block): set<nat>
    decreases b, 0
  {
    IdsStmts(b.stmts) + IdsOption(b.tail)
  }

  function IdsStmts(stmts: seq<Stmt>): set<nat>
    decreases stmts, 0
  {
    if stmts == [] then {} else IdsStmt(stmts[0]) + IdsStmts(stmts[1..])
  }

  function IdsStmt(s: Stmt): set<nat>
    decreases s, 0
  {
    match s
    case Let(_, _, init) => IdsExpr(init)
    case Run(e) => IdsOption(e)
    case While(cond, body) => IdsExpr(cond) + IdsBlock(body)
    case Loop(body) => IdsBlock(body)
    case For(_, iter, body) => IdsExpr(iter) + IdsBlock(body)
    case WhileLet(pat, subject, body) => IdsPattern(pat) + IdsExpr(subject) + IdsBlock(body)
  }

  // ---- the identities of the paths around a place ----

  function AroundExpr(h: ExprHole): set<nat>
    decreases h
  {
    hide *;
    match h
    case Here => {}
    case PartAt(before, g, after) => IdsAll(before) + AroundExpr(g) + IdsAll(after)
    case SelectBase(g, parts) => AroundExpr(g) + IdsAll(parts)
    case SelectPart(base, before, g, after) => IdsExpr(base) + IdsAll(before) + AroundExpr(g) + IdsAll(after)
    case ClosureBody(_, g) => AroundExpr(g)
    case InBlockExpr(g) => AroundBlock(g)
    case IfCond(g, thn, els) => AroundExpr(g) + IdsBlock(thn) + IdsOption(els)
    case IfThen(cond, g, els) => IdsExpr(cond) + AroundBlock(g) + IdsOption(els)
    case IfElse(cond, thn, g) => IdsExpr(cond) + IdsBlock(thn) + AroundExpr(g)
    case IfLetPattern(g, subject, thn, els) => AroundPattern(g) + IdsExpr(subject) + IdsBlock(thn) + IdsOption(els)
    case IfLetSubject(pat, g, thn, els) => IdsPattern(pat) + AroundExpr(g) + IdsBlock(thn) + IdsOption(els)
    case IfLetThen(pat, subject, g, els) => IdsPattern(pat) + IdsExpr(subject) + AroundBlock(g) + IdsOption(els)
    case IfLetElse(pat, subject, thn, g) => IdsPattern(pat) + IdsExpr(subject) + IdsBlock(thn) + AroundExpr(g)
    case Scrutinee(g, arms) => AroundExpr(g) + IdsArms(arms)
    case InArm(scrut, before, g, after) => IdsExpr(scrut) + IdsArms(before) + AroundArm(g) + IdsArms(after)
    case AssignTarget(g, value) => AroundExpr(g) + IdsExpr(value)
    case AssignValue(target, g) => IdsExpr(target) + AroundExpr(g)
  }

  function AroundArm(h: ArmHole): set<nat>
    decreases h
  {
    hide *;
    match h
    case ArmPattern(before, g, after, guard, body) => IdsPatterns(before) + AroundPattern(g) + IdsPatterns(after) + IdsOption(guard) + IdsExpr(body)
    case ArmGuard(pats, g, body) => IdsPatterns(pats) + AroundExpr(g) + IdsExpr(body)
    case ArmBody(pats, guard, g) => IdsPatterns(pats) + IdsOption(guard) + AroundExpr(g)
  }

  function AroundPattern(h: PatternHole): set<nat>
    decreases h
  {
    hide *;
    match h
    case ConstantHole(g) => AroundExpr(g)
    case ElementAt(before, g, after) => IdsPatterns(before) + AroundPattern(g) + IdsPatterns(after)
  }

  function AroundBlock(h: BlockHole): set<nat>
    decreases h
  {
    hide *;
    match h
    case StmtAt(before, g, after, tail) => IdsStmts(before) + AroundStmt(g) + IdsStmts(after) + IdsOption(tail)
    case TailAt(stmts, g) => IdsStmts(stmts) + AroundExpr(g)
  }

  function AroundStmt(h: StmtHole): set<nat>
    decreases h
  {
    hide *;
    match h
    case LetInit(_, _, g) => AroundExpr(g)
    case RunHole(g) => AroundExpr(g)
    case WhileCond(g, body) => AroundExpr(g) + IdsBlock(body)
    case WhileBody(cond, g) => IdsExpr(cond) + AroundBlock(g)
    case LoopBody(g) => AroundBlock(g)
    case ForIter(_, g, body) => AroundExpr(g) + IdsBlock(body)
    case ForBody(_, iter, g) => IdsExpr(iter) + AroundBlock(g)
    case WhileLetPattern(g, subject, body) => AroundPattern(g) + IdsExpr(subject) + IdsBlock(body)
    case WhileLetSubject(pat, g, body) => IdsPattern(pat) + AroundExpr(g) + IdsBlock(body)
    case WhileLetBody(pat, subject, g) => IdsPattern(pat) + IdsExpr(subject) + AroundBlock(g)
  }

  // ---- what resolving a piece does to the record ----

  /** The piece adds its locals and reports at the end, and records targets of its own paths only. */
  ghost predicate Does(r: Record, t: Record, made: seq<LocalData>, ids: set<nat>) {
    && t.locals == r.locals + made
    && r.rejected <= t.rejected
    && forall id :: id !in ids ==> (id in t.targets <==> id in r.targets) && (id in r.targets ==> t.targets[id] == r.targets[id])
  }

  lemma DoesNothing(r: Record)
    ensures Does(r, r, [], {})
  {
  }

  lemma DoesBoth(r: Record, t: Record, u: Record, a: seq<LocalData>, b: seq<LocalData>, x: set<nat>, y: set<nat>)
    requires Does(r, t, a, x) && Does(t, u, b, y)
    ensures Does(r, u, a + b, x + y)
  {
    assert r.locals + (a + b) == r.locals + a + b;
  }

  lemma DoesMore(r: Record, t: Record, a: seq<LocalData>, x: set<nat>, y: set<nat>)
    requires Does(r, t, a, x) && x <= y
    ensures Does(r, t, a, y)
  {
  }

  /** The environment after some binders. */
  function With(env: Env, binders: seq<Binder>): Env
    decreases |binders|
  {
    if binders == [] then env else With(env[binders[0].name := binders[0].id], binders[1..])
  }

  lemma {:induction false} WithBoth(env: Env, a: seq<Binder>, b: seq<Binder>)
    ensures With(env, a + b) == With(With(env, a), b)
    decreases |a|
  {
    if a == [] {
      assert a + b == b;
    } else {
      assert (a + b)[0] == a[0] && (a + b)[1..] == a[1..] + b;
      WithBoth(env[a[0].name := a[0].id], a[1..], b);
    }
  }

  lemma WithOne(env: Env, b: Binder)
    ensures With(env, [b]) == env[b.name := b.id]
  {
  }

  lemma {:induction false} InnermostIs(env: Env, binders: seq<Binder>, x: string)
    ensures x in With(env, binders) <==> x in env || Innermost(binders, x).Some?
    ensures Innermost(binders, x).Some? ==> With(env, binders)[x] == Innermost(binders, x).value
    ensures Innermost(binders, x) == None && x in env ==> With(env, binders)[x] == env[x]
    decreases |binders|
  {
    if binders != [] {
      var rest, last := binders[..|binders| - 1], binders[|binders| - 1];
      assert binders == rest + [last];
      InnermostIs(env, rest, x);
      WithBoth(env, rest, [last]);
      WithOne(With(env, rest), last);
    }
  }

  lemma MeaningIs(binders: seq<Binder>, segments: seq<string>)
    ensures TargetOf(segments, With(map[], binders)) == Meaning(binders, segments)
  {
    if |segments| == 1 {
      InnermostIs(map[], binders, segments[0]);
    }
  }

  lemma BindDoes(name: string, mutable: bool, env: Env, r: Record)
    ensures var b := Bind(name, mutable, env, r);
            Does(r, b.r, [LocalData(name, mutable)], {}) && b.env == With(env, [Binder(name, |r.locals|)])
  {
    WithOne(env, Binder(name, |r.locals|));
  }

  lemma {:induction false} ParamsDo(names: seq<string>, env: Env, r: Record)
    ensures var b := BindAll(names, env, r);
            Does(r, b.r, MadeParams(names), {}) && b.env == With(env, Params(names, |r.locals|))
    decreases |names|
  {
    if names == [] {
      assert r.locals + [] == r.locals;
    } else {
      var b := Bind(names[0], false, env, r);
      ParamsDo(names[1..], b.env, b.r);
      DoesBoth(r, b.r, BindAll(names, env, r).r, [LocalData(names[0], false)], MadeParams(names[1..]), {}, {});
      assert MadeParams(names) == [LocalData(names[0], false)] + MadeParams(names[1..]);
      assert [Binder(names[0], |r.locals|)] + Params(names[1..], |r.locals| + 1) == Params(names, |r.locals|);
    }
  }

  lemma {:induction false} ExprDoes(e: Expr, env: Env, r: Record)
    ensures Does(r, ResolveExpr(e, env, r), MadeExpr(e), IdsExpr(e))
    decreases e, 1
  {
    hide Does, MadePattern, BindAll, IdsPattern, ResolveAll, ResolveArms, ResolveBlock, MadeParams, MadeStmt, IdsStmt, ResolvePattern, RootLocal;
    match e {
      case Path(id, segments) => PathDoes(id, segments, env, r);
      case Parts(parts) => AllDoes(parts, env, r);
      case Select(base, parts) =>
        var t := ResolveExpr(base, env, r);
        ExprDoes(base, env, r);
        AllDoes(parts, env, t);
        DoesBoth(r, t, ResolveExpr(e, env, r), MadeExpr(base), MadeAll(parts), IdsExpr(base), IdsAll(parts));
      case Closure(params, body) =>
        var b := BindAll(params, env, r);
        ParamsDo(params, env, r);
        ExprDoes(body, b.env, b.r);
        DoesBoth(r, b.r, ResolveExpr(e, env, r), MadeParams(params), MadeExpr(body), {}, IdsExpr(body));
        assert {} + IdsExpr(body) == IdsExpr(body);
      case BlockExpr(block) => BlockDoes(block, env, r);
      case If(cond, thn, els) =>
        var t := ResolveExpr(cond, env, r);
        var u := ResolveBlock(thn, env, t);
        ExprDoes(cond, env, r);
        BlockDoes(thn, env, t);
        OptionDoes(els, env, u);
        DoesThree(r, t, u, ResolveExpr(e, env, r), MadeExpr(cond), MadeBlock(thn), MadeOption(els),
                  IdsExpr(cond), IdsBlock(thn), IdsOption(els), IdsExpr(e));
      case IfLet(pat, subject, thn, els) =>
        IfLetDoes(pat, subject, thn, els, env, r);
      case Match(scrut, arms) =>
        var t := ResolveExpr(scrut, env, r);
        ExprDoes(scrut, env, r);
        ArmsDo(arms, env, t);
        DoesBoth(r, t, ResolveExpr(e, env, r), MadeExpr(scrut), MadeArms(arms), IdsExpr(scrut), IdsArms(arms));
      case Assign(target, value) =>
        var t := ResolveExpr(target, env, r);
        var u := CheckAssignment(target, t);
        ExprDoes(target, env, r);
        CheckDoes(target, t);
        ExprDoes(value, env, u);
        DoesThree(r, t, u, ResolveExpr(e, env, r), MadeExpr(target), [], MadeExpr(value), IdsExpr(target), {}, IdsExpr(value), IdsExpr(e));
        assert [] + MadeExpr(value) == MadeExpr(value);
    }
  }

  lemma DoesThree(r: Record, t: Record, u: Record, v: Record, a: seq<LocalData>, b: seq<LocalData>, c: seq<LocalData>,
                  x: set<nat>, y: set<nat>, z: set<nat>, all: set<nat>)
    requires Does(r, t, a, x) && Does(t, u, b, y) && Does(u, v, c, z) && x <= all && y <= all && z <= all
    ensures Does(r, v, a + (b + c), all)
  {
    hide Does;
    DoesBoth(t, u, v, b, c, y, z);
    DoesBoth(r, t, v, a, b + c, x, y + z);
    DoesMore(r, v, a + (b + c), x + (y + z), all);
  }

  lemma PathDoes(id: nat, segments: seq<string>, env: Env, r: Record)
    ensures Does(r, ResolveExpr(Path(id, segments), env, r), [], {id})
  {
    assert r.locals + [] == r.locals;
  }

  lemma CheckDoes(target: Expr, r: Record)
    ensures Does(r, CheckAssignment(target, r), [], {})
  {
    assert r.locals + [] == r.locals;
  }

  lemma {:induction false} IfLetDoes(pat: Pattern, subject: Expr, thn: Block, els: Option<Expr>, env: Env, r: Record)
    ensures var e := IfLet(pat, subject, thn, els); Does(r, ResolveExpr(e, env, r), MadeExpr(e), IdsExpr(e))
    decreases IfLet(pat, subject, thn, els), 0
  {
    hide Does, ResolvePatterns, MadePattern, BindAll, IdsPattern, ResolveAll, ResolveArms, ResolveBlock, MadeParams, IdsStmt;
    var e := IfLet(pat, subject, thn, els);
    var t := ResolveExpr(subject, env, r);
    var b := ResolvePattern(pat, env, t);
    var u := ResolveBlock(thn, b.env, b.r);
    ExprDoes(subject, env, r);
    PatternDoes(pat, env, t);
    BlockDoes(thn, b.env, b.r);
    OptionDoes(els, env, u);
    var v := ResolveExpr(e, env, r);
    DoesThree(t, b.r, u, v, MadePattern(pat), MadeBlock(thn), MadeOption(els), IdsPattern(pat), IdsBlock(thn), IdsOption(els), IdsExpr(e));
    DoesBoth(r, t, v, MadeExpr(subject), MadePattern(pat) + (MadeBlock(thn) + MadeOption(els)), IdsExpr(subject), IdsExpr(e));
    assert IdsExpr(subject) + IdsExpr(e) == IdsExpr(e);
  }

  lemma {:induction false} AllDoes(es: seq<Expr>, env: Env, r: Record)
    ensures Does(r, ResolveAll(es, env, r), MadeAll(es), IdsAll(es))
    decreases es, 0
  {
    hide Does, MadeExpr, IdsExpr;
    if es == [] {
      Nothing(r);
    } else {
      var t := ResolveExpr(es[0], env, r);
      ExprDoes(es[0], env, r);
      AllDoes(es[1..], env, t);
      DoesBoth(r, t, ResolveAll(es, env, r), MadeExpr(es[0]), MadeAll(es[1..]), IdsExpr(es[0]), IdsAll(es[1..]));
    }
  }

  lemma Nothing(r: Record)
    ensures Does(r, r, [], {})
  {
    assert r.locals + [] == r.locals;
  }

  lemma {:induction false} OptionDoes(e: Option<Expr>, env: Env, r: Record)
    ensures Does(r, ResolveOption(e, env, r), MadeOption(e), IdsOption(e))
    decreases e, 0
  {
    hide Does, MadeExpr, IdsExpr;
    if e.Some? {
      ExprDoes(e.value, env, r);
    } else {
      Nothing(r);
    }
  }

  lemma {:induction false} ArmsDo(arms: seq<Arm>, env: Env, r: Record)
    ensures Does(r, ResolveArms(arms, env, r), MadeArms(arms), IdsArms(arms))
    decreases arms, 0
  {
    hide Does, MadeArm, IdsArm;
    if arms == [] {
      Nothing(r);
    } else {
      var t := ResolveArm(arms[0], env, r);
      ArmDoes(arms[0], env, r);
      ArmsDo(arms[1..], env, t);
      DoesBoth(r, t, ResolveArms(arms, env, r), MadeArm(arms[0]), MadeArms(arms[1..]), IdsArm(arms[0]), IdsArms(arms[1..]));
    }
  }

  lemma {:induction false} ArmDoes(arm: Arm, env: Env, r: Record)
    ensures Does(r, ResolveArm(arm, env, r), MadeArm(arm), IdsArm(arm))
    decreases arm, 0
  {
    hide Does, MadeExpr, IdsExpr;
    var b := ResolvePatterns(arm.pats, env, r);
    var t := ResolveOption(arm.guard, b.env, b.r);
    PatternsDo(arm.pats, env, r);
    OptionDoes(arm.guard, b.env, b.r);
    ExprDoes(arm.body, b.env, t);
    DoesThree(r, b.r, t, ResolveArm(arm, env, r), MadePatterns(arm.pats), MadeOption(arm.guard), MadeExpr(arm.body),
              IdsPatterns(arm.pats), IdsOption(arm.guard), IdsExpr(arm.body), IdsArm(arm));
  }

  lemma {:induction false} PatternDoes(p: Pattern, env: Env, r: Record)
    ensures hide *; var b := ResolvePattern(p, env, r);
            Does(r, b.r, MadePattern(p), IdsPattern(p)) && b.env == With(env, PatternBinders(p, |r.locals|))
    decreases p, 0
  {
    hide Does, MadeExpr, IdsExpr;
    match p {
      case Binding(name) => BindDoes(name, false, env, r);
      case Constant(value) => ExprDoes(value, env, r);
      case Variant(elems) => PatternsDo(elems, env, r);
    }
  }

  lemma {:induction false} PatternsDo(ps: seq<Pattern>, env: Env, r: Record)
    ensures hide *; var b := ResolvePatterns(ps, env, r);
            Does(r, b.r, MadePatterns(ps), IdsPatterns(ps)) && b.env == With(env, PatternsBinders(ps, |r.locals|))
    decreases ps, 0
  {
    hide Does, MadePattern, IdsPattern, PatternBinders;
    if ps == [] {
      Nothing(r);
    } else {
      var b := ResolvePattern(ps[0], env, r);
      PatternDoes(ps[0], env, r);
      PatternsDo(ps[1..], b.env, b.r);
      Longer(r, b.r, MadePattern(ps[0]), IdsPattern(ps[0]));
      WithBoth(env, PatternBinders(ps[0], |r.locals|), PatternsBinders(ps[1..], |b.r.locals|));
      DoesBoth(r, b.r, ResolvePatterns(ps, env, r).r, MadePattern(ps[0]), MadePatterns(ps[1..]), IdsPattern(ps[0]), IdsPatterns(ps[1..]));
    }
  }

  lemma Longer(r: Record, t: Record, made: seq<LocalData>, ids: set<nat>)
    requires Does(r, t, made, ids)
    ensures |t.locals| == |r.locals| + |made|
  {
  }

  lemma {:induction false} BlockDoes(b: Block, env: Env, r: Record)
    ensures Does(r, ResolveBlock(b, env, r), MadeBlock(b), IdsBlock(b))
    decreases b, 0
  {
    hide Does, MadeExpr, IdsExpr;
    var inner := ResolveStmts(b.stmts, env, r);
    StmtsDo(b.stmts, env, r);
    OptionDoes(b.tail, inner.env, inner.r);
    DoesBoth(r, inner.r, ResolveBlock(b, env, r), MadeStmts(b.stmts), MadeOption(b.tail), IdsStmts(b.stmts), IdsOption(b.tail));
  }

  lemma {:induction false} StmtsDo(stmts: seq<Stmt>, env: Env, r: Record)
    ensures hide *; var b := ResolveStmts(stmts, env, r);
            Does(r, b.r, MadeStmts(stmts), IdsStmts(stmts)) && b.env == With(env, Lets(stmts, |r.locals|))
    decreases stmts, 0
  {
    hide Does, MadeStmt, IdsStmt, ResolveExpr, ResolveStmt, MadeExpr, ResolvePattern;
    if stmts == [] {
      Nothing(r);
    } else {
      var b := ResolveStmt(stmts[0], env, r);
      StmtDoes(stmts[0], env, r);
      StmtsDo(stmts[1..], b.env, b.r);
      Longer(r, b.r, MadeStmt(stmts[0]), IdsStmt(stmts[0]));
      WithBoth(env, OwnLet(stmts[0], |r.locals|), Lets(stmts[1..], |b.r.locals|));
      DoesBoth(r, b.r, ResolveStmts(stmts, env, r).r, MadeStmt(stmts[0]), MadeStmts(stmts[1..]), IdsStmt(stmts[0]), IdsStmts(stmts[1..]));
    }
  }

  /** The binder that a statement leaves to the following ones. */
  function OwnLet(s: Stmt, n: nat): seq<Binder> {
    if s.Let? then [Binder(s.name, n + |MadeExpr(s.init)|)] else []
  }

  lemma {:induction false} StmtDoes(s: Stmt, env: Env, r: Record)
    ensures hide *; var b := ResolveStmt(s, env, r);
            Does(r, b.r, MadeStmt(s), IdsStmt(s)) && b.env == With(env, OwnLet(s, |r.locals|))
    decreases s, 0
  {
    hide Does, MadeExpr, IdsExpr, MadeBlock, IdsBlock, MadePattern, IdsPattern, ResolveBlock, ResolvePattern, ResolveExpr;
    match s {
      case Let(name, mutable, init) =>
        var t := ResolveExpr(init, env, r);
        ExprDoes(init, env, r);
        Longer(r, t, MadeExpr(init), IdsExpr(init));
        BindDoes(name, mutable, env, t);
        DoesBoth(r, t, ResolveStmt(s, env, r).r, MadeExpr(init), [LocalData(name, mutable)], IdsExpr(init), {});
        assert IdsExpr(init) + {} == IdsExpr(init);
      case Run(e) => OptionDoes(e, env, r);
      case While(cond, body) =>
        var t := ResolveExpr(cond, env, r);
        ExprDoes(cond, env, r);
        BlockDoes(body, env, t);
        DoesBoth(r, t, ResolveStmt(s, env, r).r, MadeExpr(cond), MadeBlock(body), IdsExpr(cond), IdsBlock(body));
      case Loop(body) => BlockDoes(body, env, r);
      case For(name, iter, body) =>
        var t := ResolveExpr(iter, env, r);
        var b := Bind(name, false, env, t);
        ExprDoes(iter, env, r);
        BindDoes(name, false, env, t);
        BlockDoes(body, b.env, b.r);
        DoesThree(r, t, b.r, ResolveStmt(s, env, r).r, MadeExpr(iter), [LocalData(name, false)], MadeBlock(body), IdsExpr(iter), {}, IdsBlock(body), IdsStmt(s));
      case WhileLet(pat, subject, body) =>
        var t := ResolveExpr(subject, env, r);
        var b := ResolvePattern(pat, env, t);
        ExprDoes(subject, env, r);
        PatternDoes(pat, env, t);
        BlockDoes(body, b.env, b.r);
        DoesThree(r, t, b.r, ResolveStmt(s, env, r).r, MadeExpr(subject), MadePattern(pat), MadeBlock(body),
                  IdsExpr(subject), IdsPattern(pat), IdsBlock(body), IdsStmt(s));
    }
  }

  // ---- resolving lists in two parts ----

  lemma {:induction false} AllInTwo(a: seq<Expr>, b: seq<Expr>, env: Env, r: Record)
    ensures ResolveAll(a + b, env, r) == ResolveAll(b, env, ResolveAll(a, env, r))
    decreases |a|
  {
    hide ResolveExpr;
    if a == [] {
      assert a + b == b;
    } else {
      assert (a + b)[0] == a[0] && (a + b)[1..] == a[1..] + b;
      AllInTwo(a[1..], b, env, ResolveExpr(a[0], env, r));
    }
  }

  lemma {:induction false} ArmsInTwo(a: seq<Arm>, b: seq<Arm>, env: Env, r: Record)
    ensures ResolveArms(a + b, env, r) == ResolveArms(b, env, ResolveArms(a, env, r))
    decreases |a|
  {
    hide ResolveArm;
    if a == [] {
      assert a + b == b;
    } else {
      assert (a + b)[0] == a[0] && (a + b)[1..] == a[1..] + b;
      ArmsInTwo(a[1..], b, env, ResolveArm(a[0], env, r));
    }
  }

  lemma {:induction false} PatternsInTwo(a: seq<Pattern>, b: seq<Pattern>, env: Env, r: Record)
    ensures var t := ResolvePatterns(a, env, r); ResolvePatterns(a + b, env, r) == ResolvePatterns(b, t.env, t.r)
    decreases |a|
  {
    hide ResolvePattern;
    if a == [] {
      assert a + b == b;
    } else {
      assert (a + b)[0] == a[0] && (a + b)[1..] == a[1..] + b;
      var t := ResolvePattern(a[0], env, r);
      PatternsInTwo(a[1..], b, t.env, t.r);
    }
  }

  lemma {:induction false} StmtsInTwo(a: seq<Stmt>, b: seq<Stmt>, env: Env, r: Record)
    ensures var t := ResolveStmts(a, env, r); ResolveStmts(a + b, env, r) == ResolveStmts(b, t.env, t.r)
    decreases |a|
  {
    hide ResolveStmt;
    if a == [] {
      assert a + b == b;
    } else {
      assert (a + b)[0] == a[0] && (a + b)[1..] == a[1..] + b;
      var t := ResolveStmt(a[0], env, r);
      StmtsInTwo(a[1..], b, t.env, t.r);
    }
  }

  // ---- resolution reaches every place with the visible binders ----

  /** The second record comes later: it adds locals and reports, and changes targets of the given paths only. */
  ghost predicate Comes(y: Record, t: Record, ids: set<nat>) {
    && y.locals <= t.locals && y.rejected <= t.rejected
    && forall id :: id !in ids ==> (id in t.targets <==> id in y.targets) && (id in y.targets ==> t.targets[id] == y.targets[id])
  }

  /** Some record with which the expression at the place is resolved, among the visible binders, before the rest. */
  ghost predicate Reached(x: Expr, env: Env, m: Record, t: Record, around: set<nat>) {
    Comes(ResolveExpr(x, env, m), t, around)
  }

  /** All numbers are of locals declared so far. */
  ghost predicate Below(binders: seq<Binder>, n: nat, k: nat) {
    n <= k && forall i :: 0 <= i < |binders| ==> binders[i].id < k
  }

  lemma BelowBoth(a: seq<Binder>, b: seq<Binder>, n: nat, j: nat, k: nat)
    requires Below(a, n, j) && Below(b, j, k)
    ensures Below(a + b, n, k)
  {
  }

  lemma {:induction false} ParamsBelow(names: seq<string>, n: nat)
    ensures Below(Params(names, n), n, n + |names|)
    decreases |names|
  {
    if names != [] {
      ParamsBelow(names[1..], n + 1);
    }
  }

  lemma {:induction false} PatternBelow(p: Pattern, n: nat)
    ensures Below(PatternBinders(p, n), n, n + |MadePattern(p)|)
    decreases p, 0
  {
    if p.Variant? {
      PatternsBelow(p.elems, n);
    }
  }

  lemma {:induction false} PatternsBelow(ps: seq<Pattern>, n: nat)
    ensures Below(PatternsBinders(ps, n), n, n + |MadePatterns(ps)|)
    decreases ps, 0
  {
    hide MadePattern, PatternBinders;
    if ps != [] {
      PatternBelow(ps[0], n);
      PatternsBelow(ps[1..], n + |MadePattern(ps[0])|);
    }
  }

  lemma {:induction false} LetsBelow(stmts: seq<Stmt>, n: nat)
    ensures Below(Lets(stmts, n), n, n + |MadeStmts(stmts)|)
    decreases |stmts|
  {
    hide MadeExpr, MadeBlock, MadePattern;
    if stmts != [] {
      LetsBelow(stmts[1..], n + |MadeStmt(stmts[0])|);
    }
  }

  lemma Onward(x: Expr, env: Env, m: Record, t: Record, u: Record, around: set<nat>, made: seq<LocalData>, ids: set<nat>, all: set<nat>)
    requires Reached(x, env, m, t, around) && Does(t, u, made, ids) && around <= all && ids <= all
    ensures Reached(x, env, m, u, all)
  {
    hide ResolveExpr;
  }

  lemma {:induction false} ExprReached(h: ExprHole, x: Expr, env: Env, r: Record) returns (m: Record)
    ensures hide *; Reached(x, With(env, VisibleExpr(h, |r.locals|)), m, ResolveExpr(PlugExpr(h, x), env, r), AroundExpr(h))
    ensures Below(VisibleExpr(h, |r.locals|), |r.locals|, |m.locals|)
    decreases h, 2
  {
    hide Reached, MadeExpr, IdsExpr, MadeBlock, IdsBlock, MadePattern, IdsPattern, With, MadeAll, IdsAll, MadeArms, IdsArms, VisibleBlock,
      VisibleArm, VisiblePattern, ResolveAll, AroundBlock, PlugBlock, ResolvePatterns, PlugPattern, AroundPattern, BindAll, PatternBinders,
      ResolveArms, ResolveBlock, AroundArm;
    match h {
      case Here => m := HereReached(x, env, r);
      case PartAt(before, g, after) => m := ListReached(before, g, after, x, env, r);
      case ClosureBody(params, g) => m := ClosureReached(params, g, x, env, r);
      case InBlockExpr(g) => m := BlockReached(g, x, env, r);
      case InArm(scrut, before, g, after) => m := InArmReached(scrut, before, g, after, x, env, r);
      case SelectBase(_, _) => m := OperandReached(h, x, env, r);
      case SelectPart(_, _, _, _) => m := OperandReached(h, x, env, r);
      case AssignTarget(_, _) => m := OperandReached(h, x, env, r);
      case AssignValue(_, _) => m := OperandReached(h, x, env, r);
      case Scrutinee(_, _) => m := OperandReached(h, x, env, r);
      case IfCond(_, _, _) => m := IfReached(h, x, env, r);
      case IfThen(_, _, _) => m := IfReached(h, x, env, r);
      case IfElse(_, _, _) => m := IfReached(h, x, env, r);
      case IfLetPattern(_, _, _, _) => m := IfReached(h, x, env, r);
      case IfLetSubject(_, _, _, _) => m := IfReached(h, x, env, r);
      case IfLetThen(_, _, _, _) => m := IfReached(h, x, env, r);
      case IfLetElse(_, _, _, _) => m := IfReached(h, x, env, r);
    }
  }

  /** Operands. */
  lemma {:induction false} OperandReached(h: ExprHole, x: Expr, env: Env, r: Record) returns (m: Record)
    requires hide *; h.SelectBase? || h.SelectPart? || h.AssignTarget? || h.AssignValue? || h.Scrutinee?
    ensures Reached(x, With(env, VisibleExpr(h, |r.locals|)), m, ResolveExpr(PlugExpr(h, x), env, r), AroundExpr(h))
    ensures Below(VisibleExpr(h, |r.locals|), |r.locals|, |m.locals|)
    decreases h, 1
  {
    hide Does, Reached, MadeExpr, IdsExpr, MadeBlock, IdsBlock, MadePattern, IdsPattern, MadeAll, IdsAll, MadeArms, IdsArms, VisibleBlock,
      VisiblePattern, VisibleArm, AroundBlock, AroundPattern, AroundArm, PatternBinders, ResolvePattern, ResolveBlock, With, ResolveArms, ResolveAll;
    var e := PlugExpr(h, x);
    var t := ResolveExpr(e, env, r);
    match h {
      case SelectBase(g, parts) =>
        m := ExprReached(g, x, env, r);
        var u := ResolveExpr(e.base, env, r);
        AllDoes(parts, env, u);
        Onward(x, With(env, VisibleExpr(h, |r.locals|)), m, u, t, AroundExpr(g), MadeAll(parts), IdsAll(parts), AroundExpr(h));
      case SelectPart(base, before, g, after) =>
        var u := ResolveExpr(base, env, r);
        ExprDoes(base, env, r);
        Longer(r, u, MadeExpr(base), IdsExpr(base));
        m := ListReached(before, g, after, x, env, u);
        Widen(x, With(env, VisibleExpr(h, |r.locals|)), m, t, IdsAll(before) + AroundExpr(g) + IdsAll(after), AroundExpr(h));
      case AssignTarget(_, _) => m := AssignReached(h, x, env, r);
      case AssignValue(_, _) => m := AssignReached(h, x, env, r);
      case Scrutinee(g, arms) =>
        m := ExprReached(g, x, env, r);
        var u := ResolveExpr(e.scrut, env, r);
        ArmsDo(arms, env, u);
        Onward(x, With(env, VisibleExpr(h, |r.locals|)), m, u, t, AroundExpr(g), MadeArms(arms), IdsArms(arms), AroundExpr(h));
    }
  }

  lemma {:induction false} AssignReached(h: ExprHole, x: Expr, env: Env, r: Record) returns (m: Record)
    requires hide *; h.AssignTarget? || h.AssignValue?
    ensures Reached(x, With(env, VisibleExpr(h, |r.locals|)), m, ResolveExpr(PlugExpr(h, x), env, r), AroundExpr(h))
    ensures Below(VisibleExpr(h, |r.locals|), |r.locals|, |m.locals|)
    decreases h, 0
  {
    hide Does, Reached, MadeExpr, IdsExpr, MadeBlock, IdsBlock, MadePattern, IdsPattern, MadeAll, IdsAll, MadeArms, IdsArms, VisibleBlock,
      VisiblePattern, VisibleArm, AroundBlock, AroundPattern, AroundArm, PatternBinders, ResolvePattern, ResolveBlock, With, ResolveArms, ResolveAll;
    var e := PlugExpr(h, x);
    var t := ResolveExpr(e, env, r);
    match h {
      case AssignTarget(g, value) =>
        m := ExprReached(g, x, env, r);
        var u := ResolveExpr(e.target, env, r);
        var v := CheckAssignment(e.target, u);
        CheckDoes(e.target, u);
        ExprDoes(value, env, v);
        DoesBoth(u, v, t, [], MadeExpr(value), {}, IdsExpr(value));
        Onward(x, With(env, VisibleExpr(h, |r.locals|)), m, u, t, AroundExpr(g), [] + MadeExpr(value), {} + IdsExpr(value), AroundExpr(h));
      case AssignValue(target, g) =>
        var u := ResolveExpr(target, env, r);
        var v := CheckAssignment(target, u);
        ExprDoes(target, env, r);
        CheckDoes(target, u);
        DoesBoth(r, u, v, MadeExpr(target), [], IdsExpr(target), {});
        Longer(r, v, MadeExpr(target) + [], IdsExpr(target) + {});
        m := ExprReached(g, x, env, v);
        Widen(x, With(env, VisibleExpr(h, |r.locals|)), m, t, AroundExpr(g), AroundExpr(h));
    }
  }

  lemma {:induction false} ClosureReached(params: seq<string>, g: ExprHole, x: Expr, env: Env, r: Record) returns (m: Record)
    ensures hide *; var h := ClosureBody(params, g);
            Reached(x, With(env, VisibleExpr(h, |r.locals|)), m, ResolveExpr(PlugExpr(h, x), env, r), AroundExpr(h))
    ensures Below(VisibleExpr(ClosureBody(params, g), |r.locals|), |r.locals|, |m.locals|)
    decreases g, 3
  {
    hide Does, Reached, MadeParams, VisiblePattern, AroundBlock, PlugBlock, PlugPattern, AroundPattern, MadePattern, BindAll, PatternBinders,
      IdsPattern, ResolveAll, ResolveArms, ResolveBlock, With, IdsExpr, MadeStmt, VisibleArm, AroundArm, IdsStmt, PlugArm, VisibleBlock,
      ResolvePattern, RootLocal, MadeExpr;
    var b := BindAll(params, env, r);
    ParamsDo(params, env, r);
    Longer(r, b.r, MadeParams(params), {});
    m := ExprReached(g, x, b.env, b.r);
    WithBoth(env, Params(params, |r.locals|), VisibleExpr(g, |b.r.locals|));
    ParamsBelow(params, |r.locals|);
    BelowBoth(Params(params, |r.locals|), VisibleExpr(g, |b.r.locals|), |r.locals|, |b.r.locals|, |m.locals|);
  }

  lemma HereReached(x: Expr, env: Env, r: Record) returns (m: Record)
    ensures hide *; Reached(x, With(env, VisibleExpr(Here, |r.locals|)), m, ResolveExpr(x, env, r), AroundExpr(Here))
    ensures Below(VisibleExpr(Here, |r.locals|), |r.locals|, |m.locals|)
  {
    hide AroundExpr, ResolveExpr, VisibleArm, VisibleBlock, VisiblePattern, MadeStmt;
    m := r;
  }

  lemma Widen(x: Expr, env: Env, m: Record, t: Record, around: set<nat>, all: set<nat>)
    requires Reached(x, env, m, t, around) && around <= all
    ensures Reached(x, env, m, t, all)
  {
    hide ResolveExpr;
  }

  /** The conditionals. */
  lemma {:induction false} IfReached(h: ExprHole, x: Expr, env: Env, r: Record) returns (m: Record)
    requires hide *; h.IfCond? || h.IfThen? || h.IfElse? || h.IfLetPattern? || h.IfLetSubject? || h.IfLetThen? || h.IfLetElse?
    ensures Reached(x, With(env, VisibleExpr(h, |r.locals|)), m, ResolveExpr(PlugExpr(h, x), env, r), AroundExpr(h))
    ensures Below(VisibleExpr(h, |r.locals|), |r.locals|, |m.locals|)
    decreases h, 1
  {
    hide Does, Reached, MadeExpr, IdsExpr, MadeBlock, IdsBlock, MadePattern, IdsPattern, MadeOption, IdsOption, VisibleBlock, VisiblePattern,
      VisibleArm, AroundBlock, AroundPattern, AroundArm, PatternBinders, ResolvePattern, ResolveBlock, With, ResolveArms, ResolveAll;
    var e := PlugExpr(h, x);
    var t := ResolveExpr(e, env, r);
    match h {
      case IfCond(g, thn, els) =>
        m := ExprReached(g, x, env, r);
        var u := ResolveExpr(e.cond, env, r);
        var v := ResolveBlock(thn, env, u);
        BlockDoes(thn, env, u);
        OptionDoes(els, env, v);
        DoesBoth(u, v, t, MadeBlock(thn), MadeOption(els), IdsBlock(thn), IdsOption(els));
        Onward(x, With(env, VisibleExpr(h, |r.locals|)), m, u, t, AroundExpr(g), MadeBlock(thn) + MadeOption(els), IdsBlock(thn) + IdsOption(els), AroundExpr(h));
      case IfThen(cond, g, els) =>
        var u := ResolveExpr(cond, env, r);
        ExprDoes(cond, env, r);
        Longer(r, u, MadeExpr(cond), IdsExpr(cond));
        m := BlockReached(g, x, env, u);
        var v := ResolveBlock(PlugBlock(g, x), env, u);
        OptionDoes(els, env, v);
        Onward(x, With(env, VisibleExpr(h, |r.locals|)), m, v, t, AroundBlock(g), MadeOption(els), IdsOption(els), AroundExpr(h));
      case IfElse(cond, thn, g) =>
        var u := ResolveExpr(cond, env, r);
        var v := ResolveBlock(thn, env, u);
        ExprDoes(cond, env, r);
        BlockDoes(thn, env, u);
        Longer(r, u, MadeExpr(cond), IdsExpr(cond));
        Longer(u, v, MadeBlock(thn), IdsBlock(thn));
        m := ExprReached(g, x, env, v);
        assert t == ResolveOption(e.els, env, v) == ResolveExpr(PlugExpr(g, x), env, v);
        Widen(x, With(env, VisibleExpr(h, |r.locals|)), m, t, AroundExpr(g), AroundExpr(h));
      case _ => m := IfLetReached(h, x, env, r);
    }
  }

  lemma {:induction false} IfLetReached(h: ExprHole, x: Expr, env: Env, r: Record) returns (m: Record)
    requires hide *; h.IfLetPattern? || h.IfLetSubject? || h.IfLetThen? || h.IfLetElse?
    ensures Reached(x, With(env, VisibleExpr(h, |r.locals|)), m, ResolveExpr(PlugExpr(h, x), env, r), AroundExpr(h))
    ensures Below(VisibleExpr(h, |r.locals|), |r.locals|, |m.locals|)
    decreases h, 0
  {
    hide Does, Reached, MadeExpr, IdsExpr, MadeBlock, IdsBlock, MadePattern, IdsPattern, MadeOption, IdsOption, VisibleBlock, VisiblePattern,
      VisibleArm, AroundBlock, AroundPattern, AroundArm, PatternBinders, ResolvePattern, ResolveBlock, With, ResolveArms, ResolveAll;
    var e := PlugExpr(h, x);
    var t := ResolveExpr(e, env, r);
    match h {
      case IfLetSubject(pat, g, thn, els) =>
        m := ExprReached(g, x, env, r);
        var u := ResolveExpr(e.subject, env, r);
        ThenDoes(pat, thn, els, env, u);
        Onward(x, With(env, VisibleExpr(h, |r.locals|)), m, u, t, AroundExpr(g), MadePattern(pat) + (MadeBlock(thn) + MadeOption(els)),
               IdsPattern(pat) + IdsBlock(thn) + IdsOption(els), AroundExpr(h));
      case IfLetPattern(g, subject, thn, els) =>
        var u := ResolveExpr(subject, env, r);
        ExprDoes(subject, env, r);
        Longer(r, u, MadeExpr(subject), IdsExpr(subject));
        m := PatternReached(g, x, env, u);
        var b := ResolvePattern(PlugPattern(g, x), env, u);
        var v := ResolveBlock(thn, b.env, b.r);
        BlockDoes(thn, b.env, b.r);
        OptionDoes(els, env, v);
        DoesBoth(b.r, v, t, MadeBlock(thn), MadeOption(els), IdsBlock(thn), IdsOption(els));
        Onward(x, With(env, VisibleExpr(h, |r.locals|)), m, b.r, t, AroundPattern(g), MadeBlock(thn) + MadeOption(els), IdsBlock(thn) + IdsOption(els), AroundExpr(h));
      case IfLetThen(pat, subject, g, els) =>
        var u := ResolveExpr(subject, env, r);
        var b := ResolvePattern(pat, env, u);
        ExprDoes(subject, env, r);
        PatternDoes(pat, env, u);
        Longer(r, u, MadeExpr(subject), IdsExpr(subject));
        Longer(u, b.r, MadePattern(pat), IdsPattern(pat));
        m := BlockReached(g, x, b.env, b.r);
        WithBoth(env, PatternBinders(pat, |u.locals|), VisibleBlock(g, |b.r.locals|));
        PatternBelow(pat, |u.locals|);
        BelowBoth(PatternBinders(pat, |u.locals|), VisibleBlock(g, |b.r.locals|), |u.locals|, |b.r.locals|, |m.locals|);
        var v := ResolveBlock(PlugBlock(g, x), b.env, b.r);
        OptionDoes(els, env, v);
        Onward(x, With(env, VisibleExpr(h, |r.locals|)), m, v, t, AroundBlock(g), MadeOption(els), IdsOption(els), AroundExpr(h));
      case IfLetElse(pat, subject, thn, g) =>
        var u := ResolveExpr(subject, env, r);
        var b := ResolvePattern(pat, env, u);
        var v := ResolveBlock(thn, b.env, b.r);
        ExprDoes(subject, env, r);
        PatternDoes(pat, env, u);
        BlockDoes(thn, b.env, b.r);
        Longer(r, u, MadeExpr(subject), IdsExpr(subject));
        Longer(u, b.r, MadePattern(pat), IdsPattern(pat));
        Longer(b.r, v, MadeBlock(thn), IdsBlock(thn));
        m := ExprReached(g, x, env, v);
        assert t == ResolveOption(e.els, env, v) == ResolveExpr(PlugExpr(g, x), env, v);
        Widen(x, With(env, VisibleExpr(h, |r.locals|)), m, t, AroundExpr(g), AroundExpr(h));
    }
  }

  /** What follows the subject of an `if let`. */
  lemma ThenDoes(pat: Pattern, thn: Block, els: Option<Expr>, env: Env, u: Record)
    ensures var b := ResolvePattern(pat, env, u);
            Does(u, ResolveOption(els, env, ResolveBlock(thn, b.env, b.r)), MadePattern(pat) + (MadeBlock(thn) + MadeOption(els)),
                 IdsPattern(pat) + IdsBlock(thn) + IdsOption(els))
  {
    hide Does, MadePattern, MadeBlock, MadeOption, IdsPattern, IdsBlock, IdsOption, ResolvePattern, ResolveBlock, ResolveOption;
    var b := ResolvePattern(pat, env, u);
    var v := ResolveBlock(thn, b.env, b.r);
    PatternDoes(pat, env, u);
    BlockDoes(thn, b.env, b.r);
    OptionDoes(els, env, v);
    DoesThree(u, b.r, v, ResolveOption(els, env, v), MadePattern(pat), MadeBlock(thn), MadeOption(els), IdsPattern(pat), IdsBlock(thn), IdsOption(els),
              IdsPattern(pat) + IdsBlock(thn) + IdsOption(els));
  }

  lemma {:induction false} ListReached(before: seq<Expr>, g: ExprHole, after: seq<Expr>, x: Expr, env: Env, r: Record) returns (m: Record)
    ensures hide *; Reached(x, With(env, VisibleExpr(g, |r.locals| + |MadeAll(before)|)), m, ResolveAll(before + [PlugExpr(g, x)] + after, env, r),
                    IdsAll(before) + AroundExpr(g) + IdsAll(after))
    ensures Below(VisibleExpr(g, |r.locals| + |MadeAll(before)|), |r.locals|, |m.locals|)
    decreases g, 3
  {
    hide Does, Reached, MadeExpr, IdsExpr, PlugExpr, AroundExpr, VisibleExpr, With, ResolveExpr;
    var y := PlugExpr(g, x);
    var u := ResolveAll(before, env, r);
    AllDoes(before, env, r);
    Longer(r, u, MadeAll(before), IdsAll(before));
    m := ExprReached(g, x, env, u);
    var v := ResolveExpr(y, env, u);
    AllDoes(after, env, v);
    assert before + [y] + after == before + ([y] + after) && ([y] + after)[1..] == after;
    AllInTwo(before, [y] + after, env, r);
    Onward(x, With(env, VisibleExpr(g, |u.locals|)), m, v, ResolveAll(after, env, v), AroundExpr(g), MadeAll(after), IdsAll(after),
           IdsAll(before) + AroundExpr(g) + IdsAll(after));
  }

  lemma {:induction false} InArmReached(scrut: Expr, before: seq<Arm>, g: ArmHole, after: seq<Arm>, x: Expr, env: Env, r: Record) returns (m: Record)
    ensures hide *; var h := InArm(scrut, before, g, after);
            Reached(x, With(env, VisibleExpr(h, |r.locals|)), m, ResolveExpr(PlugExpr(h, x), env, r), AroundExpr(h))
    ensures Below(VisibleExpr(InArm(scrut, before, g, after), |r.locals|), |r.locals|, |m.locals|)
    decreases g, 4
  {
    hide Does, Reached, MadeExpr, IdsExpr, MadeArms, IdsArms, PlugArm, ResolveArms, VisibleArm, AroundArm, With, AroundBlock, PlugBlock, PlugPattern,
      AroundPattern, MadePattern, BindAll, PatternBinders, IdsPattern, ResolveAll, ResolveBlock, MadeStmt, IdsStmt, VisibleBlock, ResolvePattern,
      RootLocal, VisiblePattern;
    var h := InArm(scrut, before, g, after);
    var s := ResolveExpr(scrut, env, r);
    ExprDoes(scrut, env, r);
    Longer(r, s, MadeExpr(scrut), IdsExpr(scrut));
    m := ArmListReached(before, g, after, x, env, s);
    Widen(x, With(env, VisibleExpr(h, |r.locals|)), m, ResolveExpr(PlugExpr(h, x), env, r),
          IdsArms(before) + AroundArm(g) + IdsArms(after), AroundExpr(h));
  }

  lemma {:induction false} ArmListReached(before: seq<Arm>, g: ArmHole, after: seq<Arm>, x: Expr, env: Env, r: Record) returns (m: Record)
    ensures hide *; Reached(x, With(env, VisibleArm(g, |r.locals| + |MadeArms(before)|)), m, ResolveArms(before + [PlugArm(g, x)] + after, env, r),
                    IdsArms(before) + AroundArm(g) + IdsArms(after))
    ensures Below(VisibleArm(g, |r.locals| + |MadeArms(before)|), |r.locals|, |m.locals|)
    decreases g, 3
  {
    hide Does, Reached, MadeArm, IdsArm, PlugArm, With, VisibleArm, AroundArm, ResolveArm;
    var arm := PlugArm(g, x);
    var u := ResolveArms(before, env, r);
    ArmsDo(before, env, r);
    Longer(r, u, MadeArms(before), IdsArms(before));
    m := ArmReached(g, x, env, u);
    var v := ResolveArm(arm, env, u);
    ArmsDo(after, env, v);
    assert before + [arm] + after == before + ([arm] + after) && ([arm] + after)[1..] == after;
    ArmsInTwo(before, [arm] + after, env, r);
    Onward(x, With(env, VisibleArm(g, |u.locals|)), m, v, ResolveArms(after, env, v), AroundArm(g), MadeArms(after), IdsArms(after),
           IdsArms(before) + AroundArm(g) + IdsArms(after));
  }

  lemma {:induction false} ArmReached(h: ArmHole, x: Expr, env: Env, r: Record) returns (m: Record)
    ensures hide *; Reached(x, With(env, VisibleArm(h, |r.locals|)), m, ResolveArm(PlugArm(h, x), env, r), AroundArm(h))
    ensures Below(VisibleArm(h, |r.locals|), |r.locals|, |m.locals|)
    decreases h, 1
  {
    hide Does, Reached, MadeExpr, IdsExpr, MadePatterns, IdsPatterns, MadeOption, IdsOption, PlugExpr, With, VisiblePattern, AroundPattern,
      PatternsBinders, ResolvePatterns, ResolveExpr, AroundExpr, VisibleExpr;
    var arm := PlugArm(h, x);
    var t := ResolveArm(arm, env, r);
    match h {
      case ArmPattern(before, g, after, guard, body) =>
        m := ElementReached(before, g, after, x, env, r);
        var b := ResolvePatterns(arm.pats, env, r);
        var u := ResolveOption(guard, b.env, b.r);
        OptionDoes(guard, b.env, b.r);
        ExprDoes(body, b.env, u);
        DoesBoth(b.r, u, t, MadeOption(guard), MadeExpr(body), IdsOption(guard), IdsExpr(body));
        Onward(x, With(env, VisibleArm(h, |r.locals|)), m, b.r, t, IdsPatterns(before) + AroundPattern(g) + IdsPatterns(after),
               MadeOption(guard) + MadeExpr(body), IdsOption(guard) + IdsExpr(body), AroundArm(h));
      case ArmGuard(pats, g, body) =>
        var b := ResolvePatterns(pats, env, r);
        PatternsDo(pats, env, r);
        Longer(r, b.r, MadePatterns(pats), IdsPatterns(pats));
        m := ExprReached(g, x, b.env, b.r);
        WithBoth(env, PatternsBinders(pats, |r.locals|), VisibleExpr(g, |b.r.locals|));
        PatternsBelow(pats, |r.locals|);
        BelowBoth(PatternsBinders(pats, |r.locals|), VisibleExpr(g, |b.r.locals|), |r.locals|, |b.r.locals|, |m.locals|);
        var u := ResolveOption(arm.guard, b.env, b.r);
        assert u == ResolveExpr(PlugExpr(g, x), b.env, b.r);
        ExprDoes(body, b.env, u);
        Onward(x, With(env, VisibleArm(h, |r.locals|)), m, u, t, AroundExpr(g), MadeExpr(body), IdsExpr(body), AroundArm(h));
      case ArmBody(pats, guard, g) =>
        var b := ResolvePatterns(pats, env, r);
        var u := ResolveOption(guard, b.env, b.r);
        PatternsDo(pats, env, r);
        OptionDoes(guard, b.env, b.r);
        Longer(r, b.r, MadePatterns(pats), IdsPatterns(pats));
        Longer(b.r, u, MadeOption(guard), IdsOption(guard));
        m := ExprReached(g, x, b.env, u);
        WithBoth(env, PatternsBinders(pats, |r.locals|), VisibleExpr(g, |u.locals|));
        PatternsBelow(pats, |r.locals|);
        BelowBoth(PatternsBinders(pats, |r.locals|), VisibleExpr(g, |u.locals|), |r.locals|, |u.locals|, |m.locals|);
        Widen(x, With(env, VisibleArm(h, |r.locals|)), m, t, AroundExpr(g), AroundArm(h));
    }
  }

  lemma {:induction false} ElementReached(before: seq<Pattern>, g: PatternHole, after: seq<Pattern>, x: Expr, env: Env, r: Record) returns (m: Record)
    ensures hide *; Reached(x, With(env, PatternsBinders(before, |r.locals|) + VisiblePattern(g, |r.locals| + |MadePatterns(before)|)), m,
                    ResolvePatterns(before + [PlugPattern(g, x)] + after, env, r).r, IdsPatterns(before) + AroundPattern(g) + IdsPatterns(after))
    ensures Below(PatternsBinders(before, |r.locals|) + VisiblePattern(g, |r.locals| + |MadePatterns(before)|), |r.locals|, |m.locals|)
    decreases g, 3
  {
    hide Does, Reached, MadePattern, IdsPattern, PlugPattern, With, VisiblePattern, AroundPattern, PatternsBinders, ResolvePattern;
    var y := PlugPattern(g, x);
    var u := ResolvePatterns(before, env, r);
    PatternsDo(before, env, r);
    Longer(r, u.r, MadePatterns(before), IdsPatterns(before));
    m := PatternReached(g, x, u.env, u.r);
    WithBoth(env, PatternsBinders(before, |r.locals|), VisiblePattern(g, |u.r.locals|));
    PatternsBelow(before, |r.locals|);
    BelowBoth(PatternsBinders(before, |r.locals|), VisiblePattern(g, |u.r.locals|), |r.locals|, |u.r.locals|, |m.locals|);
    var v := ResolvePattern(y, u.env, u.r);
    PatternsDo(after, v.env, v.r);
    assert before + [y] + after == before + ([y] + after) && ([y] + after)[1..] == after;
    PatternsInTwo(before, [y] + after, env, r);
    Onward(x, With(env, PatternsBinders(before, |r.locals|) + VisiblePattern(g, |u.r.locals|)), m, v.r, ResolvePatterns(after, v.env, v.r).r,
           AroundPattern(g), MadePatterns(after), IdsPatterns(after), IdsPatterns(before) + AroundPattern(g) + IdsPatterns(after));
  }

  lemma {:induction false} PatternReached(h: PatternHole, x: Expr, env: Env, r: Record) returns (m: Record)
    ensures hide *; Reached(x, With(env, VisiblePattern(h, |r.locals|)), m, ResolvePattern(PlugPattern(h, x), env, r).r, AroundPattern(h))
    ensures Below(VisiblePattern(h, |r.locals|), |r.locals|, |m.locals|)
    decreases h, 1
  {
    hide Reached, MadePatterns, IdsPatterns, AroundExpr, VisibleExpr, PlugExpr, ResolvePatterns, ResolveExpr, PatternsBinders, With;
    match h {
      case ConstantHole(g) => m := ExprReached(g, x, env, r);
      case ElementAt(before, g, after) => m := ElementReached(before, g, after, x, env, r);
    }
  }

  lemma {:induction false} BlockReached(h: BlockHole, x: Expr, env: Env, r: Record) returns (m: Record)
    ensures hide *; Reached(x, With(env, VisibleBlock(h, |r.locals|)), m, ResolveBlock(PlugBlock(h, x), env, r), AroundBlock(h))
    ensures Below(VisibleBlock(h, |r.locals|), |r.locals|, |m.locals|)
    decreases h, 1
  {
    hide Does, Reached, MadeStmts, IdsStmts, MadeOption, IdsOption, PlugExpr, PlugStmt, Lets, AroundExpr, VisibleExpr, ResolveExpr, VisibleStmt,
      AroundStmt, ResolveStmt, With;
    match h {
      case StmtAt(before, g, after, tail) =>
        var y := PlugStmt(g, x);
        var u := ResolveStmts(before, env, r);
        StmtsDo(before, env, r);
        Longer(r, u.r, MadeStmts(before), IdsStmts(before));
        m := StmtReached(g, x, u.env, u.r);
        WithBoth(env, Lets(before, |r.locals|), VisibleStmt(g, |u.r.locals|));
        LetsBelow(before, |r.locals|);
        BelowBoth(Lets(before, |r.locals|), VisibleStmt(g, |u.r.locals|), |r.locals|, |u.r.locals|, |m.locals|);
        var v := ResolveStmt(y, u.env, u.r);
        var w := ResolveStmts(after, v.env, v.r);
        StmtsDo(after, v.env, v.r);
        OptionDoes(tail, w.env, w.r);
        assert before + [y] + after == before + ([y] + after) && ([y] + after)[1..] == after;
        StmtsInTwo(before, [y] + after, env, r);
        var t := ResolveOption(tail, w.env, w.r);
        DoesBoth(v.r, w.r, t, MadeStmts(after), MadeOption(tail), IdsStmts(after), IdsOption(tail));
        Onward(x, With(env, VisibleBlock(h, |r.locals|)), m, v.r, t, AroundStmt(g), MadeStmts(after) + MadeOption(tail), IdsStmts(after) + IdsOption(tail), AroundBlock(h));
      case TailAt(stmts, g) =>
        var u := ResolveStmts(stmts, env, r);
        StmtsDo(stmts, env, r);
        Longer(r, u.r, MadeStmts(stmts), IdsStmts(stmts));
        m := ExprReached(g, x, u.env, u.r);
        WithBoth(env, Lets(stmts, |r.locals|), VisibleExpr(g, |u.r.locals|));
        LetsBelow(stmts, |r.locals|);
        BelowBoth(Lets(stmts, |r.locals|), VisibleExpr(g, |u.r.locals|), |r.locals|, |u.r.locals|, |m.locals|);
        var t := ResolveBlock(PlugBlock(h, x), env, r);
        assert t == ResolveOption(Some(PlugExpr(g, x)), u.env, u.r) == ResolveExpr(PlugExpr(g, x), u.env, u.r);
        Widen(x, With(env, VisibleBlock(h, |r.locals|)), m, t, AroundExpr(g), AroundBlock(h));
    }
  }

  lemma {:induction false} StmtReached(h: StmtHole, x: Expr, env: Env, r: Record) returns (m: Record)
    ensures hide *; Reached(x, With(env, VisibleStmt(h, |r.locals|)), m, ResolveStmt(PlugStmt(h, x), env, r).r, AroundStmt(h))
    ensures Below(VisibleStmt(h, |r.locals|), |r.locals|, |m.locals|)
    decreases h, 1
  {
    hide Does, Reached, MadeExpr, IdsExpr, MadeBlock, IdsBlock, MadePattern, IdsPattern, PlugExpr, PlugBlock, PlugPattern, VisibleBlock,
      VisiblePattern, AroundBlock, AroundPattern, PatternBinders, ResolvePattern, ResolveBlock, With, VisibleExpr, AroundExpr, ResolveExpr;
    var s := PlugStmt(h, x);
    var t := ResolveStmt(s, env, r).r;
    match h {
      case LetInit(name, mutable, g) =>
        m := ExprReached(g, x, env, r);
        var u := ResolveExpr(PlugExpr(g, x), env, r);
        BindDoes(name, mutable, env, u);
        Onward(x, With(env, VisibleStmt(h, |r.locals|)), m, u, t, AroundExpr(g), [LocalData(name, mutable)], {}, AroundStmt(h));
      case RunHole(g) => m := ExprReached(g, x, env, r);
      case WhileCond(g, body) =>
        m := ExprReached(g, x, env, r);
        var u := ResolveExpr(PlugExpr(g, x), env, r);
        BlockDoes(body, env, u);
        Onward(x, With(env, VisibleStmt(h, |r.locals|)), m, u, t, AroundExpr(g), MadeBlock(body), IdsBlock(body), AroundStmt(h));
      case WhileBody(cond, g) =>
        var u := ResolveExpr(cond, env, r);
        ExprDoes(cond, env, r);
        Longer(r, u, MadeExpr(cond), IdsExpr(cond));
        m := BlockReached(g, x, env, u);
        Widen(x, With(env, VisibleStmt(h, |r.locals|)), m, t, AroundBlock(g), AroundStmt(h));
      case LoopBody(g) => m := BlockReached(g, x, env, r);
      case _ => m := BindingStmtReached(h, x, env, r);
    }
  }

  lemma {:induction false} BindingStmtReached(h: StmtHole, x: Expr, env: Env, r: Record) returns (m: Record)
    requires hide *; h.ForIter? || h.ForBody? || h.WhileLetPattern? || h.WhileLetSubject? || h.WhileLetBody?
    ensures Reached(x, With(env, VisibleStmt(h, |r.locals|)), m, ResolveStmt(PlugStmt(h, x), env, r).r, AroundStmt(h))
    ensures Below(VisibleStmt(h, |r.locals|), |r.locals|, |m.locals|)
    decreases h, 0
  {
    hide Does, Reached, MadeExpr, IdsExpr, MadeBlock, IdsBlock, MadePattern, IdsPattern, PlugExpr, PlugBlock, PlugPattern, VisibleBlock,
      VisiblePattern, AroundBlock, AroundPattern, PatternBinders, ResolvePattern, ResolveBlock, With, VisibleExpr, AroundExpr, ResolveExpr;
    var s := PlugStmt(h, x);
    var t := ResolveStmt(s, env, r).r;
    match h {
      case ForIter(name, g, body) =>
        m := ExprReached(g, x, env, r);
        var u := ResolveExpr(PlugExpr(g, x), env, r);
        var b := Bind(name, false, env, u);
        BindDoes(name, false, env, u);
        BlockDoes(body, b.env, b.r);
        DoesBoth(u, b.r, t, [LocalData(name, false)], MadeBlock(body), {}, IdsBlock(body));
        Onward(x, With(env, VisibleStmt(h, |r.locals|)), m, u, t, AroundExpr(g), [LocalData(name, false)] + MadeBlock(body), {} + IdsBlock(body), AroundStmt(h));
      case ForBody(name, iter, g) =>
        var u := ResolveExpr(iter, env, r);
        var b := Bind(name, false, env, u);
        ExprDoes(iter, env, r);
        BindDoes(name, false, env, u);
        Longer(r, u, MadeExpr(iter), IdsExpr(iter));
        m := BlockReached(g, x, b.env, b.r);
        WithBoth(env, [Binder(name, |u.locals|)], VisibleBlock(g, |b.r.locals|));
        BelowBoth([Binder(name, |u.locals|)], VisibleBlock(g, |b.r.locals|), |u.locals|, |b.r.locals|, |m.locals|);
        Widen(x, With(env, VisibleStmt(h, |r.locals|)), m, t, AroundBlock(g), AroundStmt(h));
      case WhileLetSubject(pat, g, body) =>
        m := ExprReached(g, x, env, r);
        var u := ResolveExpr(PlugExpr(g, x), env, r);
        var b := ResolvePattern(pat, env, u);
        PatternDoes(pat, env, u);
        BlockDoes(body, b.env, b.r);
        DoesBoth(u, b.r, t, MadePattern(pat), MadeBlock(body), IdsPattern(pat), IdsBlock(body));
        Onward(x, With(env, VisibleStmt(h, |r.locals|)), m, u, t, AroundExpr(g), MadePattern(pat) + MadeBlock(body), IdsPattern(pat) + IdsBlock(body), AroundStmt(h));
      case WhileLetPattern(g, subject, body) =>
        var u := ResolveExpr(subject, env, r);
        ExprDoes(subject, env, r);
        Longer(r, u, MadeExpr(subject), IdsExpr(subject));
        m := PatternReached(g, x, env, u);
        var b := ResolvePattern(PlugPattern(g, x), env, u);
        BlockDoes(body, b.env, b.r);
        Onward(x, With(env, VisibleStmt(h, |r.locals|)), m, b.r, t, AroundPattern(g), MadeBlock(body), IdsBlock(body), AroundStmt(h));
      case WhileLetBody(pat, subject, g) =>
        var u := ResolveExpr(subject, env, r);
        var b := ResolvePattern(pat, env, u);
        ExprDoes(subject, env, r);
        PatternDoes(pat, env, u);
        Longer(r, u, MadeExpr(subject), IdsExpr(subject));
        Longer(u, b.r, MadePattern(pat), IdsPattern(pat));
        m := BlockReached(g, x, b.env, b.r);
        WithBoth(env, PatternBinders(pat, |u.locals|), VisibleBlock(g, |b.r.locals|));
        PatternBelow(pat, |u.locals|);
        BelowBoth(PatternBinders(pat, |u.locals|), VisibleBlock(g, |b.r.locals|), |u.locals|, |b.r.locals|, |m.locals|);
        Widen(x, With(env, VisibleStmt(h, |r.locals|)), m, t, AroundBlock(g), AroundStmt(h));
    }
  }

  // ---- main results ----

  /** A body is resolved from its parameters. */
  function Resolved(params: seq<string>, body: Block): Record {
    var b := BindAll(params, map[], Record([], map[], []));
    ResolveBlock(body, b.env, b.r)
  }

  /** The binders visible at a place of a body, outermost first. */
  function Visible(params: seq<string>, k: BlockHole): seq<Binder> {
    hide *;
    Params(params, 0) + VisibleBlock(k, |params|)
  }

  /** The locals are the parameters and what the body declares, in order. */
  lemma LocalsAreDeclarations(params: seq<string>, body: Block)
    ensures Resolved(params, body).locals == MadeParams(params) + MadeBlock(body)
  {
    hide MadeBlock, IdsBlock, ResolveBlock;
    var empty := Record([], map[], []);
    var b := BindAll(params, map[], empty);
    ParamsDo(params, map[], empty);
    BlockDoes(body, b.env, b.r);
    assert [] + MadeParams(params) == MadeParams(params);
  }

  lemma BodyReached(params: seq<string>, k: BlockHole, x: Expr) returns (m: Record)
    ensures hide *; Reached(x, With(map[], Visible(params, k)), m, Resolved(params, PlugBlock(k, x)), AroundBlock(k))
    ensures Below(Visible(params, k), 0, |m.locals|)
  {
    hide Does, Reached, MadeParams, PlugBlock, VisibleBlock, AroundBlock, ResolveBlock, With, BindAll, Below, Params;
    var empty := Record([], map[], []);
    var b := BindAll(params, map[], empty);
    ParamsDo(params, map[], empty);
    Longer(empty, b.r, MadeParams(params), {});
    m := BlockReached(k, x, b.env, b.r);
    WithBoth(map[], Params(params, 0), VisibleBlock(k, |b.r.locals|));
    ParamsBelow(params, 0);
    BelowBoth(Params(params, 0), VisibleBlock(k, |b.r.locals|), 0, |b.r.locals|, |m.locals|);
  }

  /**
   * A path that stands at a place of a body means the innermost binder of its name that is visible there, and
   * something outside the body if there is none or if the path has several segments.
   */
  lemma PathsMeanWhatIsVisible(params: seq<string>, k: BlockHole, id: nat, segments: seq<string>)
    requires hide *; id !in AroundBlock(k)
    ensures var t := Resolved(params, PlugBlock(k, Path(id, segments)));
            id in t.targets && t.targets[id] == Meaning(Visible(params, k), segments)
  {
    hide BindAll, ResolveBlock, Params, PlugBlock, VisibleBlock, With;
    var m := BodyReached(params, k, Path(id, segments));
    MeaningIs(Visible(params, k), segments);
    hide With, Visible, Meaning, TargetOf, AroundBlock, PlugBlock, Resolved;
    PathTarget(id, segments, With(map[], Visible(params, k)), m);
  }

  lemma PathTarget(id: nat, segments: seq<string>, env: Env, m: Record)
    ensures hide *; var y := ResolveExpr(Path(id, segments), env, m); id in y.targets && y.targets[id] == TargetOf(segments, env)
  {
  }

  /** The path at the root of an assignment's target, and the identities beside it. */
  function RootPath(target: Expr): Option<(nat, seq<string>)>
    decreases target
  {
    match target
    case Path(id, segments) => Some((id, segments))
    case Select(base, _) => RootPath(base)
    case _ => None
  }

  function BesideRoot(target: Expr): set<nat>
    decreases target
  {
    if target.Select? then BesideRoot(target.base) + IdsAll(target.parts) else {}
  }

  lemma {:induction false} RootResolves(target: Expr, env: Env, m: Record)
    requires hide *; RootPath(target).Some? && RootPath(target).value.0 !in BesideRoot(target)
    ensures var t := ResolveExpr(target, env, m);
            var id := RootPath(target).value.0;
            id in t.targets && t.targets[id] == TargetOf(RootPath(target).value.1, env)
            && RootLocal(target, t.targets) == if t.targets[id].Local? then Some(t.targets[id].id) else None
    decreases target
  {
    hide IdsAll, IdsExpr, MadeAll, TargetOf;
    if target.Select? {
      var u := ResolveExpr(target.base, env, m);
      RootResolves(target.base, env, m);
      AllDoes(target.parts, env, u);
      RootKept(target.base, u, ResolveAll(target.parts, env, u));
    }
  }

  lemma {:induction false} RootKept(target: Expr, u: Record, t: Record)
    requires RootPath(target).Some?
    requires var id := RootPath(target).value.0; id in u.targets && id in t.targets && t.targets[id] == u.targets[id]
    ensures RootLocal(target, t.targets) == RootLocal(target, u.targets)
    decreases target
  {
    if target.Select? {
      RootKept(target.base, u, t);
    }
  }

  /** An assignment below a variable that is not declared `mut`, by the innermost visible binder of its name, is reported. */
  lemma AssignmentsAreChecked(params: seq<string>, k: BlockHole, target: Expr, value: Expr)
    requires hide *; RootPath(target).Some? && RootPath(target).value.0 !in BesideRoot(target)
    requires Meaning(Visible(params, k), RootPath(target).value.1).Local?
    ensures var t := Resolved(params, PlugBlock(k, Assign(target, value)));
            var l := Meaning(Visible(params, k), RootPath(target).value.1).id;
            l < |t.locals| && (!t.locals[l].mutable ==> l in t.rejected)
  {
    hide AroundBlock, IdsAll, IdsExpr, MadeExpr, Params, PlugBlock, VisibleBlock, With, Innermost, RootPath, BindAll, ResolveAll, ResolveArms,
      ResolveBlock;
    var x := Assign(target, value);
    var m := BodyReached(params, k, x);
    var binders, segments := Visible(params, k), RootPath(target).value.1;
    var env := With(map[], binders);
    MeaningIs(binders, segments);
    var l := Meaning(binders, segments).id;
    InnermostBelow(binders, segments[0], |m.locals|);
    hide With, Visible, Meaning, TargetOf, AroundBlock, PlugBlock, Resolved, RootPath, BesideRoot, MadeExpr, IdsExpr;
    RootResolves(target, env, m);
    var u := ResolveExpr(target, env, m);
    ExprDoes(target, env, m);
    var v := CheckAssignment(target, u);
    ExprDoes(value, env, v);
    Reported(target, u, l);
  }

  lemma Reported(target: Expr, u: Record, l: LocalId)
    requires RootLocal(target, u.targets) == Some(l) && l < |u.locals|
    ensures !u.locals[l].mutable ==> l in CheckAssignment(target, u).rejected
  {
    assert l in u.rejected + [l];
  }

  lemma {:induction false} InnermostBelow(binders: seq<Binder>, x: string, n: nat)
    requires Below(binders, 0, n) && Innermost(binders, x).Some?
    ensures Innermost(binders, x).value < n
    decreases |binders|
  {
    if binders[|binders| - 1].name != x {
      InnermostBelow(binders[..|binders| - 1], x, n);
    }
  }
}
