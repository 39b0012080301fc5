/** The trees of function bodies, the places in them, and what it means that an item occurs in one. */
module Occurrences {
  import opened Wrappers

  /** The identity of an item; functions of the root module are also numbered in source order. */
  type DefId = int

  /** Every expression may have an item it resolves to. */
  datatype Expr = Expr(target: Option<DefId>, kind: Kind)

  datatype Kind =
    | Atom
    | Closure(body: ClosureBody)
    | Unary(operand: Expr)
    | Try(operand: Expr)
    | Binary(lhs: Expr, rhs: Expr)
    | Call(callee: Expr, args: seq<Expr>)
    | MethodCall(receiver: Expr, args: seq<Expr>)
    | Field(base: Expr)
    | StructLit(values: seq<Expr>)
    | MapLit(entries: seq<Entry>)
    | Match(scrut: Expr, arms: seq<Arm>)
    | Range(start: Expr, end: Expr)
    | Index(base: Expr, index: Expr)
    | VecLit(elements: seq<Expr>)
    | If(cond: Expr, thn: Block, els: Option<Else>)
    | IfLet(pat: Pattern, subject: Expr, thn: Block, els: Option<Else>)
    | BlockExpr(block: Block)
    | Loop(block: Block)
    | Assign(place: Expr, value: Expr)

  datatype ClosureBody = ExprBody(e: Expr) | BlockBody(block: Block)

  datatype Entry = Entry(key: Expr, value: Expr)

  datatype Arm = Arm(pats: seq<Pattern>, guard: Option<Expr>, body: Expr)

  datatype Else = ElseBlock(block: Block) | ElseIf(e: Expr)

  datatype Pattern =
    | Wildcard
    | Binding(name: string)
    | PathPat
    | LiteralPat(e: Expr)
    | RangePat(lo: Expr, hi: Expr)
    | TupleVariant(elems: seq<Pattern>)
    | StructVariant(fields: seq<Pattern>)

  datatype Block = Block(stmts: seq<Stmt>, tail: Option<Expr>)

  datatype Stmt =
    | Lua(code: string)
    | Let(init: Expr)
    | ExprStmt(e: Expr)
    | Return(result: Option<Expr>)
    | Break(result: Option<Expr>)
    | Continue
    | While(cond: Expr, body: Block)
    | LoopStmt(body: Block)
    | For(iter: Expr, body: Block)
    | WhileLet(pat: Pattern, subject: Expr, body: Block)

  // ---- occurrence: some expression inside resolves to the item ----

  predicate InExpr(d: DefId, e: Expr)
    decreases e
  {
    hide *;
    e.target == Some(d) || InKind(d, e.kind)
  }

  predicate InKind(d: DefId, k: Kind)
    decreases k
  {
    hide *;
    match k
    case Atom => false
    case Closure(body) => (match body case ExprBody(e) => InExpr(d, e) case BlockBody(b) => InBlock(d, b))
    case Unary(operand) => InExpr(d, operand)
    case Try(operand) => InExpr(d, operand)
    case Binary(lhs, rhs) => InExpr(d, lhs) || InExpr(d, rhs)
    case Call(callee, args) => InExpr(d, callee) || exists i :: 0 <= i < |args| && InExpr(d, args[i])
    case MethodCall(receiver, args) => InExpr(d, receiver) || exists i :: 0 <= i < |args| && InExpr(d, args[i])
    case Field(base) => InExpr(d, base)
    case StructLit(values) => exists i :: 0 <= i < |values| && InExpr(d, values[i])
    case MapLit(entries) => exists i :: 0 <= i < |entries| && InEntry(d, entries[i])
    case Match(scrut, arms) => InExpr(d, scrut) || exists i :: 0 <= i < |arms| && InArm(d, arms[i])
    case Range(start, end) => InExpr(d, start) || InExpr(d, end)
    case Index(base, index) => InExpr(d, base) || InExpr(d, index)
    case VecLit(elements) => exists i :: 0 <= i < |elements| && InExpr(d, elements[i])
    case If(cond, thn, els) => InExpr(d, cond) || InBlock(d, thn) || InElse(d, els)
    case IfLet(pat, subject, thn, els) => InPattern(d, pat) || InExpr(d, subject) || InBlock(d, thn) || InElse(d, els)
    case BlockExpr(b) => InBlock(d, b)
    case Loop(b) => InBlock(d, b)
    case Assign(place, value) => InExpr(d, place) || InExpr(d, value)
  }

  predicate InEntry(d: DefId, e: Entry)
    decreases e
  {
    hide *;
    InExpr(d, e.key) || InExpr(d, e.value)
  }

  predicate InArm(d: DefId, arm: Arm)
    decreases arm
  {
    hide *;
    || (exists i :: 0 <= i < |arm.pats| && InPattern(d, arm.pats[i]))
    || InOption(d, arm.guard)
    || InExpr(d, arm.body)
  }

  predicate InOption(d: DefId, e: Option<Expr>)
    decreases e
  {
    hide *;
    e.Some? && InExpr(d, e.value)
  }

  predicate InElse(d: DefId, els: Option<Else>)
    decreases els
  {
    hide *;
    match els
    case None => false
    case Some(ElseBlock(b)) => InBlock(d, b)
    case Some(ElseIf(e)) => InExpr(d, e)
  }

  predicate InPattern(d: DefId, p: Pattern)
    decreases p
  {
    hide *;
    match p
    case LiteralPat(e) => InExpr(d, e)
    case RangePat(lo, hi) => InExpr(d, lo) || InExpr(d, hi)
    case TupleVariant(elems) => exists i :: 0 <= i < |elems| && InPattern(d, elems[i])
    case StructVariant(fields) => exists i :: 0 <= i < |fields| && InPattern(d, fields[i])
    case _ => false
  }

  predicate InBlock(d: DefId, b: Block)
    decreases b
  {
    hide *;
    (exists i :: 0 <= i < |b.stmts| && InStmt(d, b.stmts[i])) || InOption(d, b.tail)
  }

  predicate InStmt(d: DefId, s: Stmt)
    decreases s
  {
    hide *;
    match s
    case Lua(_) => false
    case Let(init) => InExpr(d, init)
    case ExprStmt(e) => InExpr(d, e)
    case Return(result) => InOption(d, result)
    case Break(result) => InOption(d, result)
    case Continue => false
    case While(cond, body) => InExpr(d, cond) || InBlock(d, body)
    case LoopStmt(body) => InBlock(d, body)
    case For(iter, body) => InExpr(d, iter) || InBlock(d, body)
    case WhileLet(pat, subject, body) => InPattern(d, pat) || InExpr(d, subject) || InBlock(d, body)
  }

  // ---- places: a tree with one hole where an expression can stand ----

  datatype ExprHole = Here | Inside(target: Option<DefId>, kind: KindHole)

  datatype KindHole =
    | ClosureExpr(ExprHole)
    | ClosureBlock(BlockHole)
    | UnaryOperand(ExprHole)
    | TryOperand(ExprHole)
    | BinaryLhs(ExprHole, Expr)
    | BinaryRhs(Expr, ExprHole)
    | Callee(ExprHole, seq<Expr>)
    | Argument(Expr, seq<Expr>, ExprHole, seq<Expr>)
    | Receiver(ExprHole, seq<Expr>)
    | MethodArgument(Expr, seq<Expr>, ExprHole, seq<Expr>)
    | FieldBase(ExprHole)
    | StructValue(seq<Expr>, ExprHole, seq<Expr>)
    | MapKey(seq<Entry>, ExprHole, Expr, seq<Entry>)
    | MapValue(seq<Entry>, Expr, ExprHole, seq<Entry>)
    | Scrutinee(ExprHole, seq<Arm>)
    | ArmPattern(Expr, seq<Arm>, seq<Pattern>, PatternHole, seq<Pattern>, Option<Expr>, Expr, seq<Arm>)
    | ArmGuard(Expr, seq<Arm>, seq<Pattern>, ExprHole, Expr, seq<Arm>)
    | ArmBody(Expr, seq<Arm>, seq<Pattern>, Option<Expr>, ExprHole, seq<Arm>)
    | RangeStart(ExprHole, Expr)
    | RangeEnd(Expr, ExprHole)
    | IndexBase(ExprHole, Expr)
    | IndexOf(Expr, ExprHole)
    | Element(seq<Expr>, ExprHole, seq<Expr>)
    | IfCond(ExprHole, Block, Option<Else>)
    | IfThen(Expr, BlockHole, Option<Else>)
    | IfElse(Expr, Block, ElseHole)
    | IfLetPattern(PatternHole, Expr, Block, Option<Else>)
    | IfLetSubject(Pattern, ExprHole, Block, Option<Else>)
    | IfLetThen(Pattern, Expr, BlockHole, Option<Else>)
    | IfLetElse(Pattern, Expr, Block, ElseHole)
    | InBlockExpr(BlockHole)
    | InLoop(BlockHole)
    | AssignPlace(ExprHole, Expr)
    | AssignValue(Expr, ExprHole)

  datatype ElseHole =
    | ElseBlockHole(BlockHole)
    | ElseIfHole(ExprHole)

  datatype PatternHole =
    | LiteralHole(ExprHole)
    | RangeLow(ExprHole, Expr)
    | RangeHigh(Expr, ExprHole)
    | TupleElem(seq<Pattern>, PatternHole, seq<Pattern>)
    | StructElem(seq<Pattern>, PatternHole, seq<Pattern>)

  datatype BlockHole =
    | InStatement(seq<Stmt>, StmtHole, seq<Stmt>, Option<Expr>)
    | InTail(seq<Stmt>, ExprHole)

  datatype StmtHole =
    | LetInit(ExprHole)
    | StmtExpr(ExprHole)
    | ReturnResult(ExprHole)
    | BreakResult(ExprHole)
    | WhileCond(ExprHole, Block)
    | WhileBody(Expr, BlockHole)
    | LoopBody(BlockHole)
    | ForIter(ExprHole, Block)
    | ForBody(Expr, BlockHole)
    | WhileLetPattern(PatternHole, Expr, Block)
    | WhileLetSubject(Pattern, ExprHole, Block)
    | WhileLetBody(Pattern, Expr, BlockHole)

  /** The tree with the expression in the hole. */
  function PlugExpr(p: ExprHole, e: Expr): Expr
    decreases p
  {
    hide *;
    match p
    case Here => e
    case Inside(target, kind) => Expr(target, PlugKind(kind, e))
  }

  function PlugKind(p: KindHole, e: Expr): Kind
    decreases p
  {
    hide *;
    match p
    case ClosureExpr(h) => Closure(ExprBody(PlugExpr(h, e)))
    case ClosureBlock(h) => Closure(BlockBody(PlugBlock(h, e)))
    case UnaryOperand(h) => Unary(PlugExpr(h, e))
    case TryOperand(h) => Try(PlugExpr(h, e))
    case BinaryLhs(h, rhs) => Binary(PlugExpr(h, e), rhs)
    case BinaryRhs(lhs, h) => Binary(lhs, PlugExpr(h, e))
    case Callee(h, args) => Call(PlugExpr(h, e), args)
    case Argument(callee, before, h, after) => Call(callee, before + [PlugExpr(h, e)] + after)
    case Receiver(h, args) => MethodCall(PlugExpr(h, e), args)
    case MethodArgument(receiver, before, h, after) => MethodCall(receiver, before + [PlugExpr(h, e)] + after)
    case FieldBase(h) => Field(PlugExpr(h, e))
    case StructValue(before, h, after) => StructLit(before + [PlugExpr(h, e)] + after)
    case MapKey(before, h, value, after) => MapLit(before + [Entry(PlugExpr(h, e), value)] + after)
    case MapValue(before, key, h, after) => MapLit(before + [Entry(key, PlugExpr(h, e))] + after)
    case Scrutinee(h, arms) => Match(PlugExpr(h, e), arms)
    case ArmPattern(scrut, before, first, h, more, guard, body, after) =>
      Match(scrut, before + [Arm(first + [PlugPattern(h, e)] + more, guard, body)] + after)
    case ArmGuard(scrut, before, pats, h, body, after) => Match(scrut, before + [Arm(pats, Some(PlugExpr(h, e)), body)] + after)
    case ArmBody(scrut, before, pats, guard, h, after) => Match(scrut, before + [Arm(pats, guard, PlugExpr(h, e))] + after)
    case RangeStart(h, end) => Range(PlugExpr(h, e), end)
    case RangeEnd(start, h) => Range(start, PlugExpr(h, e))
    case IndexBase(h, index) => Index(PlugExpr(h, e), index)
    case IndexOf(base, h) => Index(base, PlugExpr(h, e))
    case Element(before, h, after) => VecLit(before + [PlugExpr(h, e)] + after)
    case IfCond(h, thn, els) => If(PlugExpr(h, e), thn, els)
    case IfThen(cond, h, els) => If(cond, PlugBlock(h, e), els)
    case IfElse(cond, thn, h) => If(cond, thn, Some(PlugElse(h, e)))
    case IfLetPattern(h, subject, thn, els) => IfLet(PlugPattern(h, e), subject, thn, els)
    case IfLetSubject(pat, h, thn, els) => IfLet(pat, PlugExpr(h, e), thn, els)
    case IfLetThen(pat, subject, h, els) => IfLet(pat, subject, PlugBlock(h, e), els)
    case IfLetElse(pat, subject, thn, h) => IfLet(pat, subject, thn, Some(PlugElse(h, e)))
    case InBlockExpr(h) => BlockExpr(PlugBlock(h, e))
    case InLoop(h) => Loop(PlugBlock(h, e))
    case AssignPlace(h, value) => Assign(PlugExpr(h, e), value)
    case AssignValue(place, h) => Assign(place, PlugExpr(h, e))
  }

  function PlugElse(p: ElseHole, e: Expr): Else
    decreases p
  {
    hide *;
    match p
    case ElseBlockHole(h) => ElseBlock(PlugBlock(h, e))
    case ElseIfHole(h) => ElseIf(PlugExpr(h, e))
  }

  function PlugPattern(p: PatternHole, e: Expr): Pattern
    decreases p
  {
    hide *;
    match p
    case LiteralHole(h) => LiteralPat(PlugExpr(h, e))
    case RangeLow(h, hi) => RangePat(PlugExpr(h, e), hi)
    case RangeHigh(lo, h) => RangePat(lo, PlugExpr(h, e))
    case TupleElem(before, h, after) => TupleVariant(before + [PlugPattern(h, e)] + after)
    case StructElem(before, h, after) => StructVariant(before + [PlugPattern(h, e)] + after)
  }

  function PlugBlock(p: BlockHole, e: Expr): Block
    decreases p
  {
    hide *;
    match p
    case InStatement(before, h, after, tail) => Block(before + [PlugStmt(h, e)] + after, tail)
    case InTail(stmts, h) => Block(stmts, Some(PlugExpr(h, e)))
  }

  function PlugStmt(p: StmtHole, e: Expr): Stmt
    decreases p
  {
    hide *;
    match p
    case LetInit(h) => Let(PlugExpr(h, e))
    case StmtExpr(h) => ExprStmt(PlugExpr(h, e))
    case ReturnResult(h) => Return(Some(PlugExpr(h, e)))
    case BreakResult(h) => Break(Some(PlugExpr(h, e)))
    case WhileCond(h, body) => While(PlugExpr(h, e), body)
    case WhileBody(cond, h) => While(cond, PlugBlock(h, e))
    case LoopBody(h) => LoopStmt(PlugBlock(h, e))
    case ForIter(h, body) => For(PlugExpr(h, e), body)
    case ForBody(iter, h) => For(iter, PlugBlock(h, e))
    case WhileLetPattern(h, subject, body) => WhileLet(PlugPattern(h, e), subject, body)
    case WhileLetSubject(pat, h, body) => WhileLet(pat, PlugExpr(h, e), body)
    case WhileLetBody(pat, subject, h) => WhileLet(pat, subject, PlugBlock(h, e))
  }

  // ---- occurrence: at some place stands an expression that resolves to the item ----

  ghost predicate OccursInBlock(d: DefId, b: Block) {
    exists p: BlockHole, e: Expr :: PlugBlock(p, e) == b && e.target == Some(d)
  }

  ghost predicate OccursInExpr(d: DefId, x: Expr) {
    exists p: ExprHole, e: Expr :: PlugExpr(p, e) == x && e.target == Some(d)
  }

  ghost predicate OccursInPattern(d: DefId, x: Pattern) {
    exists p: PatternHole, e: Expr :: PlugPattern(p, e) == x && e.target == Some(d)
  }

  // ---- what stands at a place is found ----

  lemma {:induction false} ExprFound(p: ExprHole, e: Expr, d: DefId)
    requires e.target == Some(d)
    ensures InExpr(d, PlugExpr(p, e))
    decreases p, 0
  {
    hide InKind, PlugKind;
    if p.Inside? {
      KindFound(p.kind, e, d);
    }
  }

  lemma {:induction false} KindFound(p: KindHole, e: Expr, d: DefId)
    requires e.target == Some(d)
    ensures InKind(d, PlugKind(p, e))
    decreases p, 2
  {
    hide InKind, PlugKind;
    if OfIfLet(p) {
      IfLetFound(p, e, d);
    } else if OfBody(p) {
      BodyKindFound(p, e, d);
    } else if OfList(p) {
      ListKindFound(p, e, d);
    } else {
      OperandFound(p, e, d);
    }
    hide *;
  }

  predicate OfBody(p: KindHole) {
    p.ClosureExpr? || p.ClosureBlock? || p.IfCond? || p.IfThen? || p.IfElse? || p.InBlockExpr? || p.InLoop?
  }

  predicate OfIfLet(p: KindHole) {
    p.IfLetPattern? || p.IfLetSubject? || p.IfLetThen? || p.IfLetElse?
  }

  predicate OfList(p: KindHole) {
    p.Callee? || p.Argument? || p.Receiver? || p.MethodArgument? || p.StructValue? || p.MapKey? || p.MapValue? || p.Scrutinee? || p.ArmPattern? || p.ArmGuard? || p.ArmBody? || p.Element?
  }

  lemma {:induction false} OperandFound(p: KindHole, e: Expr, d: DefId)
    requires !OfBody(p) && !OfIfLet(p) && !OfList(p) && e.target == Some(d)
    ensures InKind(d, PlugKind(p, e))
    decreases p, 0
  {
    hide InExpr, InBlock, InPattern, InElse, PlugExpr, PlugBlock, PlugPattern, PlugElse;
    match p {
      case UnaryOperand(h) => ExprFound(h, e, d);
      case TryOperand(h) => ExprFound(h, e, d);
      case BinaryLhs(h, _) => ExprFound(h, e, d);
      case BinaryRhs(_, h) => ExprFound(h, e, d);
      case FieldBase(h) => ExprFound(h, e, d);
      case RangeStart(h, _) => ExprFound(h, e, d);
      case RangeEnd(_, h) => ExprFound(h, e, d);
      case IndexBase(h, _) => ExprFound(h, e, d);
      case IndexOf(_, h) => ExprFound(h, e, d);
      case AssignPlace(h, _) => ExprFound(h, e, d);
      case AssignValue(_, h) => ExprFound(h, e, d);
    }
  }

  lemma {:induction false} ListKindFound(p: KindHole, e: Expr, d: DefId)
    requires OfList(p) && e.target == Some(d)
    ensures InKind(d, PlugKind(p, e))
    decreases p, 0
  {
    hide InExpr, InBlock, InPattern, InElse, PlugExpr, PlugBlock, PlugPattern, PlugElse;
    match p {
      case Callee(h, _) => ExprFound(h, e, d);
      case Argument(_, before, h, after) =>
        ExprFound(h, e, d);
        assert (before + [PlugExpr(h, e)] + after)[|before|] == PlugExpr(h, e);
      case Receiver(h, _) => ExprFound(h, e, d);
      case MethodArgument(_, before, h, after) =>
        ExprFound(h, e, d);
        assert (before + [PlugExpr(h, e)] + after)[|before|] == PlugExpr(h, e);
      case StructValue(before, h, after) =>
        ExprFound(h, e, d);
        assert (before + [PlugExpr(h, e)] + after)[|before|] == PlugExpr(h, e);
      case MapKey(before, h, value, after) =>
        ExprFound(h, e, d);
        assert (before + [Entry(PlugExpr(h, e), value)] + after)[|before|] == Entry(PlugExpr(h, e), value);
      case MapValue(before, key, h, after) =>
        ExprFound(h, e, d);
        assert (before + [Entry(key, PlugExpr(h, e))] + after)[|before|] == Entry(key, PlugExpr(h, e));
      case Scrutinee(h, _) => ExprFound(h, e, d);
      case ArmPattern(_, before, first, h, more, guard, body, after) =>
        PatternFound(h, e, d);
        assert (before + [Arm(first + [PlugPattern(h, e)] + more, guard, body)] + after)[|before|] == Arm(first + [PlugPattern(h, e)] + more, guard, body);
        assert (first + [PlugPattern(h, e)] + more)[|first|] == PlugPattern(h, e);
      case ArmGuard(_, before, pats, h, body, after) =>
        ExprFound(h, e, d);
        assert (before + [Arm(pats, Some(PlugExpr(h, e)), body)] + after)[|before|] == Arm(pats, Some(PlugExpr(h, e)), body);
        assert InOption(d, Some(PlugExpr(h, e))) && InArm(d, Arm(pats, Some(PlugExpr(h, e)), body));
      case ArmBody(_, before, pats, guard, h, after) =>
        ExprFound(h, e, d);
        assert (before + [Arm(pats, guard, PlugExpr(h, e))] + after)[|before|] == Arm(pats, guard, PlugExpr(h, e));
      case Element(before, h, after) =>
        ExprFound(h, e, d);
        assert (before + [PlugExpr(h, e)] + after)[|before|] == PlugExpr(h, e);
    }
  }

  lemma {:induction false} BodyKindFound(p: KindHole, e: Expr, d: DefId)
    requires OfBody(p) && e.target == Some(d)
    ensures InKind(d, PlugKind(p, e))
    decreases p, 1
  {
    hide InExpr, InBlock, InPattern, InElse, InKind, PlugExpr, PlugBlock, PlugPattern, PlugElse, PlugKind;
    if p.IfCond? || p.IfThen? || p.IfElse? {
      IfFound(p, e, d);
    } else {
      EnclosedFound(p, e, d);
    }
  }

  lemma {:induction false} EnclosedFound(p: KindHole, e: Expr, d: DefId)
    requires (p.ClosureExpr? || p.ClosureBlock? || p.InBlockExpr? || p.InLoop?) && e.target == Some(d)
    ensures InKind(d, PlugKind(p, e))
    decreases p, 0
  {
    hide InExpr, InBlock, InPattern, InElse, PlugExpr, PlugBlock, PlugPattern, PlugElse;
    match p {
      case ClosureExpr(h) => ExprFound(h, e, d);
      case ClosureBlock(h) => BlockFound(h, e, d);
      case InBlockExpr(h) => BlockFound(h, e, d);
      case InLoop(h) => BlockFound(h, e, d);
    }
  }

  lemma {:induction false} IfFound(p: KindHole, e: Expr, d: DefId)
    requires (p.IfCond? || p.IfThen? || p.IfElse?) && e.target == Some(d)
    ensures InKind(d, PlugKind(p, e))
    decreases p, 0
  {
    hide InExpr, InBlock, InPattern, InElse, PlugExpr, PlugBlock, PlugPattern, PlugElse;
    match p {
      case IfCond(h, _, _) => ExprFound(h, e, d);
      case IfThen(_, h, _) => BlockFound(h, e, d);
      case IfElse(_, _, h) => ElseFound(h, e, d);
    }
  }

  lemma {:induction false} IfLetFound(p: KindHole, e: Expr, d: DefId)
    requires OfIfLet(p) && e.target == Some(d)
    ensures InKind(d, PlugKind(p, e))
    decreases p, 0
  {
    hide InExpr, InBlock, InPattern, InElse, PlugExpr, PlugBlock, PlugPattern, PlugElse;
    match p {
      case IfLetPattern(h, _, _, _) => PatternFound(h, e, d);
      case IfLetSubject(_, h, _, _) => ExprFound(h, e, d);
      case IfLetThen(_, _, h, _) => BlockFound(h, e, d);
      case IfLetElse(_, _, _, h) => ElseFound(h, e, d);
    }
  }

  lemma {:induction false} ElseFound(p: ElseHole, e: Expr, d: DefId)
    requires e.target == Some(d)
    ensures InElse(d, Some(PlugElse(p, e)))
    decreases p, 0
  {
    hide InExpr, InBlock, PlugExpr, PlugBlock;
    match p {
      case ElseBlockHole(h) => BlockFound(h, e, d);
      case ElseIfHole(h) => ExprFound(h, e, d);
    }
  }

  lemma {:induction false} PatternFound(p: PatternHole, e: Expr, d: DefId)
    requires e.target == Some(d)
    ensures InPattern(d, PlugPattern(p, e))
    decreases p, 0
  {
    hide InExpr, PlugExpr;
    match p {
      case LiteralHole(h) => ExprFound(h, e, d);
      case RangeLow(h, _) => ExprFound(h, e, d);
      case RangeHigh(_, h) => ExprFound(h, e, d);
      case TupleElem(before, h, after) =>
        PatternFound(h, e, d);
        assert (before + [PlugPattern(h, e)] + after)[|before|] == PlugPattern(h, e);
      case StructElem(before, h, after) =>
        PatternFound(h, e, d);
        assert (before + [PlugPattern(h, e)] + after)[|before|] == PlugPattern(h, e);
    }
  }

  lemma {:induction false} BlockFound(p: BlockHole, e: Expr, d: DefId)
    requires e.target == Some(d)
    ensures InBlock(d, PlugBlock(p, e))
    decreases p, 0
  {
    hide InExpr, InStmt, PlugExpr, PlugStmt;
    match p {
      case InStatement(before, h, after, _) =>
        StmtFound(h, e, d);
        assert (before + [PlugStmt(h, e)] + after)[|before|] == PlugStmt(h, e);
      case InTail(_, h) => ExprFound(h, e, d);
    }
  }

  lemma {:induction false} StmtFound(p: StmtHole, e: Expr, d: DefId)
    requires e.target == Some(d)
    ensures InStmt(d, PlugStmt(p, e))
    decreases p, 0
  {
    hide InExpr, InBlock, InPattern, PlugExpr, PlugBlock, PlugPattern;
    match p {
      case LetInit(h) => ExprFound(h, e, d);
      case StmtExpr(h) => ExprFound(h, e, d);
      case ReturnResult(h) => ExprFound(h, e, d);
      case BreakResult(h) => ExprFound(h, e, d);
      case WhileCond(h, _) => ExprFound(h, e, d);
      case WhileBody(_, h) => BlockFound(h, e, d);
      case LoopBody(h) => BlockFound(h, e, d);
      case ForIter(h, _) => ExprFound(h, e, d);
      case ForBody(_, h) => BlockFound(h, e, d);
      case WhileLetPattern(h, _, _) => PatternFound(h, e, d);
      case WhileLetSubject(_, h, _) => ExprFound(h, e, d);
      case WhileLetBody(_, _, h) => BlockFound(h, e, d);
    }
  }

  // ---- what is found stands at a place ----

  lemma {:induction false} ExprPlace(d: DefId, x: Expr) returns (p: ExprHole, e: Expr)
    requires InExpr(d, x)
    ensures PlugExpr(p, e) == x && e.target == Some(d)
    decreases x, 0
  {
    hide InKind, PlugKind;
    if x.target == Some(d) {
      p, e := Here, x;
    } else {
      var k;
      k, e := KindPlace(d, x.kind);
      p := Inside(x.target, k);
    }
  }

  lemma {:induction false} KindPlace(d: DefId, k: Kind) returns (p: KindHole, e: Expr)
    requires InKind(d, k)
    ensures PlugKind(p, e) == k && e.target == Some(d)
    decreases k, 1
  {
    hide InKind, PlugKind;
    if k.If? || k.IfLet? || k.BlockExpr? || k.Loop? || k.Closure? {
      p, e := BodyKindPlace(d, k);
    } else if k.Call? || k.MethodCall? || k.StructLit? || k.MapLit? || k.Match? || k.VecLit? {
      p, e := ListKindPlace(d, k);
    } else {
      p, e := OperandPlace(d, k);
    }
  }

  lemma {:induction false} OperandPlace(d: DefId, k: Kind) returns (p: KindHole, e: Expr)
    requires InKind(d, k)
    requires k.Atom? || k.Unary? || k.Try? || k.Binary? || k.Field? || k.Range? || k.Index? || k.Assign?
    ensures PlugKind(p, e) == k && e.target == Some(d)
    decreases k, 0
  {
    hide InExpr, PlugExpr;
    var h;
    match k {
      case Unary(operand) =>
        h, e := ExprPlace(d, operand);
        p := UnaryOperand(h);
      case Try(operand) =>
        h, e := ExprPlace(d, operand);
        p := TryOperand(h);
      case Field(base) =>
        h, e := ExprPlace(d, base);
        p := FieldBase(h);
      case Binary(lhs, rhs) =>
        if InExpr(d, lhs) {
          h, e := ExprPlace(d, lhs);
          p := BinaryLhs(h, rhs);
        } else {
          h, e := ExprPlace(d, rhs);
          p := BinaryRhs(lhs, h);
        }
      case Range(start, end) =>
        if InExpr(d, start) {
          h, e := ExprPlace(d, start);
          p := RangeStart(h, end);
        } else {
          h, e := ExprPlace(d, end);
          p := RangeEnd(start, h);
        }
      case Index(base, index) =>
        if InExpr(d, base) {
          h, e := ExprPlace(d, base);
          p := IndexBase(h, index);
        } else {
          h, e := ExprPlace(d, index);
          p := IndexOf(base, h);
        }
      case Assign(place, value) =>
        if InExpr(d, place) {
          h, e := ExprPlace(d, place);
          p := AssignPlace(h, value);
        } else {
          h, e := ExprPlace(d, value);
          p := AssignValue(place, h);
        }
    }
  }

  lemma {:induction false} ListKindPlace(d: DefId, k: Kind) returns (p: KindHole, e: Expr)
    requires InKind(d, k)
    requires k.Call? || k.MethodCall? || k.StructLit? || k.MapLit? || k.Match? || k.VecLit?
    ensures PlugKind(p, e) == k && e.target == Some(d)
    decreases k, 0
  {
    hide InExpr, InArm, InEntry, PlugExpr;
    match k {
      case Call(callee, args) =>
        if InExpr(d, callee) {
          var h;
          h, e := ExprPlace(d, callee);
          p := Callee(h, args);
        } else {
          var before, h, after;
          before, h, after, e := ListPlace(d, args);
          p := Argument(callee, before, h, after);
        }
      case MethodCall(receiver, args) =>
        if InExpr(d, receiver) {
          var h;
          h, e := ExprPlace(d, receiver);
          p := Receiver(h, args);
        } else {
          var before, h, after;
          before, h, after, e := ListPlace(d, args);
          p := MethodArgument(receiver, before, h, after);
        }
      case StructLit(values) =>
        var before, h, after;
        before, h, after, e := ListPlace(d, values);
        p := StructValue(before, h, after);
      case VecLit(elements) =>
        var before, h, after;
        before, h, after, e := ListPlace(d, elements);
        p := Element(before, h, after);
      case MapLit(entries) =>
        p, e := EntryPlace(d, entries);
      case Match(scrut, arms) =>
        if InExpr(d, scrut) {
          var h;
          h, e := ExprPlace(d, scrut);
          p := Scrutinee(h, arms);
        } else {
          p, e := ArmPlace(d, scrut, arms);
        }
    }
  }

  lemma {:induction false} ListPlace(d: DefId, es: seq<Expr>) returns (before: seq<Expr>, h: ExprHole, after: seq<Expr>, e: Expr)
    requires hide *; exists i :: 0 <= i < |es| && InExpr(d, es[i])
    ensures before + [PlugExpr(h, e)] + after == es && e.target == Some(d)
    decreases es, 0
  {
    hide InExpr, PlugExpr;
    var i :| 0 <= i < |es| && InExpr(d, es[i]);
    h, e := ExprPlace(d, es[i]);
    before, after := es[..i], es[i + 1..];
  }

  lemma {:induction false} EntryPlace(d: DefId, entries: seq<Entry>) returns (p: KindHole, e: Expr)
    requires hide *; exists i :: 0 <= i < |entries| && InEntry(d, entries[i])
    ensures PlugKind(p, e) == MapLit(entries) && e.target == Some(d)
    decreases entries, 0
  {
    hide InEntry, PlugExpr, PlugPattern, PlugBlock, PlugElse;
    var i :| 0 <= i < |entries| && InEntry(d, entries[i]);
    assert entries == entries[..i] + [entries[i]] + entries[i + 1..];
    var atKey, h;
    atKey, h, e := HalfPlace(d, entries[i]);
    p := if atKey then MapKey(entries[..i], h, entries[i].value, entries[i + 1..]) else MapValue(entries[..i], entries[i].key, h, entries[i + 1..]);
  }

  lemma {:induction false} HalfPlace(d: DefId, x: Entry) returns (atKey: bool, h: ExprHole, e: Expr)
    requires InEntry(d, x)
    ensures PlugExpr(h, e) == (if atKey then x.key else x.value) && e.target == Some(d)
    decreases x, 0
  {
    hide InExpr, PlugExpr;
    atKey := InExpr(d, x.key);
    if atKey {
      h, e := ExprPlace(d, x.key);
    } else {
      h, e := ExprPlace(d, x.value);
    }
  }

  lemma {:induction false} ArmPlace(d: DefId, scrut: Expr, arms: seq<Arm>) returns (p: KindHole, e: Expr)
    requires hide *; exists i :: 0 <= i < |arms| && InArm(d, arms[i])
    ensures PlugKind(p, e) == Match(scrut, arms) && e.target == Some(d)
    decreases arms, 0
  {
    hide InExpr, InPattern, PlugExpr, PlugPattern;
    var i :| 0 <= i < |arms| && InArm(d, arms[i]);
    var arm := arms[i];
    assert arms == arms[..i] + [arm] + arms[i + 1..];
    if InExpr(d, arm.body) {
      var h;
      h, e := ExprPlace(d, arm.body);
      p := ArmBody(scrut, arms[..i], arm.pats, arm.guard, h, arms[i + 1..]);
    } else if InOption(d, arm.guard) {
      var h;
      h, e := ExprPlace(d, arm.guard.value);
      p := ArmGuard(scrut, arms[..i], arm.pats, h, arm.body, arms[i + 1..]);
    } else {
      var j :| 0 <= j < |arm.pats| && InPattern(d, arm.pats[j]);
      var h;
      assert arm.pats == arm.pats[..j] + [arm.pats[j]] + arm.pats[j + 1..];
      h, e := PatternPlace(d, arm.pats[j]);
      p := ArmPattern(scrut, arms[..i], arm.pats[..j], h, arm.pats[j + 1..], arm.guard, arm.body, arms[i + 1..]);
    }
  }

  lemma {:induction false} BodyKindPlace(d: DefId, k: Kind) returns (p: KindHole, e: Expr)
    requires InKind(d, k) && (k.If? || k.IfLet? || k.BlockExpr? || k.Loop? || k.Closure?)
    ensures PlugKind(p, e) == k && e.target == Some(d)
    decreases k, 0
  {
    hide InExpr, InBlock, InPattern, PlugExpr, PlugBlock, PlugPattern, PlugElse;
    match k {
      case Closure(ExprBody(x)) =>
        var h;
        h, e := ExprPlace(d, x);
        p := ClosureExpr(h);
      case Closure(BlockBody(b)) =>
        var h;
        h, e := BlockPlace(d, b);
        p := ClosureBlock(h);
      case BlockExpr(b) =>
        var h;
        h, e := BlockPlace(d, b);
        p := InBlockExpr(h);
      case Loop(b) =>
        var h;
        h, e := BlockPlace(d, b);
        p := InLoop(h);
      case If(cond, thn, els) =>
        if InExpr(d, cond) {
          var h;
          h, e := ExprPlace(d, cond);
          p := IfCond(h, thn, els);
        } else if InBlock(d, thn) {
          var h;
          h, e := BlockPlace(d, thn);
          p := IfThen(cond, h, els);
        } else {
          var h;
          h, e := ElsePlace(d, els);
          p := IfElse(cond, thn, h);
        }
      case IfLet(pat, subject, thn, els) =>
        if InPattern(d, pat) {
          var h;
          h, e := PatternPlace(d, pat);
          p := IfLetPattern(h, subject, thn, els);
        } else if InExpr(d, subject) {
          var h;
          h, e := ExprPlace(d, subject);
          p := IfLetSubject(pat, h, thn, els);
        } else if InBlock(d, thn) {
          var h;
          h, e := BlockPlace(d, thn);
          p := IfLetThen(pat, subject, h, els);
        } else {
          var h;
          h, e := ElsePlace(d, els);
          p := IfLetElse(pat, subject, thn, h);
        }
    }
  }

  lemma {:induction false} ElsePlace(d: DefId, els: Option<Else>) returns (p: ElseHole, e: Expr)
    requires InElse(d, els)
    ensures els == Some(PlugElse(p, e)) && e.target == Some(d)
    decreases els, 0
  {
    hide InExpr, InBlock, PlugExpr, PlugBlock;
    match els.value {
      case ElseBlock(b) =>
        var h;
        h, e := BlockPlace(d, b);
        p := ElseBlockHole(h);
      case ElseIf(x) =>
        var h;
        h, e := ExprPlace(d, x);
        p := ElseIfHole(h);
    }
  }

  lemma {:induction false} PatternPlace(d: DefId, x: Pattern) returns (p: PatternHole, e: Expr)
    requires InPattern(d, x)
    ensures PlugPattern(p, e) == x && e.target == Some(d)
    decreases x, 0
  {
    hide InExpr, PlugExpr;
    match x {
      case LiteralPat(y) =>
        var h;
        h, e := ExprPlace(d, y);
        p := LiteralHole(h);
      case RangePat(lo, hi) =>
        var h;
        if InExpr(d, lo) {
          h, e := ExprPlace(d, lo);
          p := RangeLow(h, hi);
        } else {
          h, e := ExprPlace(d, hi);
          p := RangeHigh(lo, h);
        }
      case TupleVariant(elems) =>
        var i :| 0 <= i < |elems| && InPattern(d, elems[i]);
        var h;
        h, e := PatternPlace(d, elems[i]);
        assert elems == elems[..i] + [elems[i]] + elems[i + 1..];
        p := TupleElem(elems[..i], h, elems[i + 1..]);
      case StructVariant(fields) =>
        var i :| 0 <= i < |fields| && InPattern(d, fields[i]);
        var h;
        h, e := PatternPlace(d, fields[i]);
        assert fields == fields[..i] + [fields[i]] + fields[i + 1..];
        p := StructElem(fields[..i], h, fields[i + 1..]);
    }
  }

  lemma {:induction false} BlockPlace(d: DefId, x: Block) returns (p: BlockHole, e: Expr)
    requires InBlock(d, x)
    ensures PlugBlock(p, e) == x && e.target == Some(d)
    decreases x, 0
  {
    hide InExpr, InStmt, PlugExpr, PlugStmt;
    if InOption(d, x.tail) {
      var h;
      h, e := ExprPlace(d, x.tail.value);
      p := InTail(x.stmts, h);
    } else {
      var i :| 0 <= i < |x.stmts| && InStmt(d, x.stmts[i]);
      var h;
      h, e := StmtPlace(d, x.stmts[i]);
      assert x.stmts == x.stmts[..i] + [x.stmts[i]] + x.stmts[i + 1..];
      p := InStatement(x.stmts[..i], h, x.stmts[i + 1..], x.tail);
    }
  }

  lemma {:induction false} StmtPlace(d: DefId, x: Stmt) returns (p: StmtHole, e: Expr)
    requires InStmt(d, x)
    ensures PlugStmt(p, e) == x && e.target == Some(d)
    decreases x, 1
  {
    hide InExpr, InBlock, InPattern, PlugExpr, PlugBlock, PlugPattern;
    if x.While? || x.LoopStmt? || x.For? || x.WhileLet? {
      p, e := LoopPlace(d, x);
    } else {
      var h;
      match x {
        case Let(init) =>
          h, e := ExprPlace(d, init);
          p := LetInit(h);
        case ExprStmt(y) =>
          h, e := ExprPlace(d, y);
          p := StmtExpr(h);
        case Return(result) =>
          h, e := ExprPlace(d, result.value);
          p := ReturnResult(h);
        case Break(result) =>
          h, e := ExprPlace(d, result.value);
          p := BreakResult(h);
      }
    }
  }

  lemma {:induction false} LoopPlace(d: DefId, x: Stmt) returns (p: StmtHole, e: Expr)
    requires InStmt(d, x) && (x.While? || x.LoopStmt? || x.For? || x.WhileLet?)
    ensures PlugStmt(p, e) == x && e.target == Some(d)
    decreases x, 0
  {
    hide InExpr, InBlock, InPattern, PlugExpr, PlugBlock, PlugPattern;
    var h, b;
    if InBlock(d, x.body) {
      b, e := BlockPlace(d, x.body);
    }
    match x {
      case LoopStmt(_) => p := LoopBody(b);
      case While(cond, body) =>
        if InBlock(d, body) {
          p := WhileBody(cond, b);
        } else {
          h, e := ExprPlace(d, cond);
          p := WhileCond(h, body);
        }
      case For(iter, body) =>
        if InBlock(d, body) {
          p := ForBody(iter, b);
        } else {
          h, e := ExprPlace(d, iter);
          p := ForIter(h, body);
        }
      case WhileLet(pat, subject, body) =>
        if InBlock(d, body) {
          p := WhileLetBody(pat, subject, b);
        } else if InExpr(d, subject) {
          h, e := ExprPlace(d, subject);
          p := WhileLetSubject(pat, h, body);
        } else {
          var q;
          q, e := PatternPlace(d, pat);
          p := WhileLetPattern(q, subject, body);
        }
    }
  }

  // ---- both together ----

  lemma BlockOccurrences(d: DefId, b: Block)
    ensures InBlock(d, b) <==> OccursInBlock(d, b)
  {
    hide InBlock, PlugBlock;
    if InBlock(d, b) {
      var p, e := BlockPlace(d, b);
    }
    if OccursInBlock(d, b) {
      var p: BlockHole, e: Expr :| PlugBlock(p, e) == b && e.target == Some(d);
      BlockFound(p, e, d);
    }
  }

  lemma ExprOccurrences(d: DefId, x: Expr)
    ensures InExpr(d, x) <==> OccursInExpr(d, x)
  {
    hide InExpr, PlugExpr;
    if InExpr(d, x) {
      var p, e := ExprPlace(d, x);
    }
    if OccursInExpr(d, x) {
      var p: ExprHole, e: Expr :| PlugExpr(p, e) == x && e.target == Some(d);
      ExprFound(p, e, d);
    }
  }

  lemma PatternOccurrences(d: DefId, x: Pattern)
    ensures InPattern(d, x) <==> OccursInPattern(d, x)
  {
    hide InPattern, PlugPattern;
    if InPattern(d, x) {
      var p, e := PatternPlace(d, x);
    }
    if OccursInPattern(d, x) {
      var p: PatternHole, e: Expr :| PlugPattern(p, e) == x && e.target == Some(d);
      PatternFound(p, e, d);
    }
  }
}
