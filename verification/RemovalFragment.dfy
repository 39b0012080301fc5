/** The smaller language that is lowered, seen inside the larger one. */
module RemovalFragment {
  import opened Wrappers
  import G = Lowering
  import M = Effects
  import V = Removal
  import R = RuaLang

  function Widen(e: R.Expr): M.Expr
    decreases e
  {
    hide *;
    match e
    case Lit(v) => M.Lit(v)
    case Path(x) => M.Path(x)
    case Unary(op, operand) => M.Unary(op, Widen(operand))
    case Binary(op, lhs, rhs) => M.Binary(M.Plain(op), Widen(lhs), Widen(rhs))
    case Call(g, args) => M.Call(g, WidenAll(args))
    case SomeCall(payload) => M.Make(M.SomeCall, [Widen(payload)])
    case ResultCall(ok, payload) => M.Make(M.ResultCall(ok), [Widen(payload)])
    case VariantCall(tag, args) => M.Make(M.VariantCall(tag), WidenAll(args))
    case If(cond, thn, els) => M.If(Widen(cond), WidenBlock(thn), WidenElse(els))
    case IfLet(pat, subject, thn, els) =>
      M.Match(Widen(subject), [M.Arm([pat], None, M.BlockExpr(WidenBlock(thn))), M.Arm([R.Wildcard], None, M.If(M.Lit(R.BoolVal(false)), M.Block([], None), WidenElse(els)))])
    case BlockExpr(b) => M.BlockExpr(WidenBlock(b))
    case Match(scrut, arms) => M.Match(Widen(scrut), WidenArms(arms))
    case Loop(body) => M.Loop(WidenBlock(body))
    case Try(isResult, inner) => M.Try(isResult, Widen(inner))
    case Assign(op, x, rhs) => M.Assign(x, if op.None? then Widen(rhs) else M.Binary(M.Plain(op.value), M.Path(x), Widen(rhs)))
  }

  function WidenAll(es: seq<R.Expr>): (r: seq<M.Expr>)
    ensures hide *; |r| == |es|
    decreases es
  {
    hide *;
    if es == [] then [] else [Widen(es[0])] + WidenAll(es[1..])
  }

  function WidenElse(els: Option<R.Else>): Option<M.Expr>
    decreases els
  {
    hide *;
    match els
    case None => None
    case Some(ElseBlock(b)) => Some(M.BlockExpr(WidenBlock(b)))
    case Some(ElseIf(e)) => Some(Widen(e))
  }

  function WidenArms(arms: seq<R.Arm>): seq<M.Arm>
    decreases arms
  {
    hide *;
    if arms == [] then [] else [WidenArm(arms[0])] + WidenArms(arms[1..])
  }

  function WidenArm(arm: R.Arm): M.Arm
    decreases arm
  {
    hide *;
    M.Arm(arm.pats, WidenOption(arm.guard), Widen(arm.body))
  }

  function WidenOption(e: Option<R.Expr>): Option<M.Expr>
    decreases e
  {
    hide *;
    if e.None? then None else Some(Widen(e.value))
  }

  function WidenBlock(b: R.Block): M.Block
    decreases b
  {
    hide *;
    M.Block(WidenStmts(b.stmts), WidenOption(b.tail))
  }

  function WidenStmts(stmts: seq<R.Stmt>): seq<M.Stmt>
    decreases stmts
  {
    hide *;
    if stmts == [] then [] else [WidenStmt(stmts[0])] + WidenStmts(stmts[1..])
  }

  function WidenStmt(s: R.Stmt): M.Stmt
    decreases s
  {
    hide *;
    match s
    case Let(x, init) => M.Let(x, Widen(init))
    case ExprStmt(e) => M.ExprStmt(Widen(e))
    case Return(result) => M.Return(WidenOption(result))
    case While(cond, body) => M.While(Widen(cond), WidenBlock(body))
    case LoopStmt(body) => M.ExprStmt(M.Loop(WidenBlock(body)))
    case Break(result) => M.Break(WidenOption(result))
  }

  /** On the smaller language, what lowering drops is what the full decision allows, and no less. */
  lemma {:induction false} SameDecision(e: R.Expr)
    ensures G.Removable(e) <==> V.Removable(Widen(e), false)
    decreases e, 1
  {
    match e {
      case Unary(_, operand) => SameDecision(operand);
      case Binary(_, lhs, rhs) =>
        SameDecision(lhs);
        SameDecision(rhs);
      case SomeCall(payload) =>
        SameDecision(payload);
        OneOperand(Widen(payload));
      case ResultCall(_, payload) =>
        SameDecision(payload);
        OneOperand(Widen(payload));
      case VariantCall(_, args) => SameDecisions(args);
      case If(cond, thn, els) =>
        SameDecision(cond);
        SameBlock(thn);
        SameElse(els);
      case BlockExpr(b) => SameBlock(b);
      case _ =>
    }
  }

  lemma OneOperand(e: M.Expr)
    ensures V.AllRemovable([e], false) <==> V.Removable(e, false)
  {
    assert [e][1..] == [];
  }

  lemma {:induction false} SameDecisions(es: seq<R.Expr>)
    ensures G.AllRemovable(es) <==> V.AllRemovable(WidenAll(es), false)
    decreases es, 1
  {
    if es != [] {
      SameDecision(es[0]);
      SameDecisions(es[1..]);
    }
  }

  lemma {:induction false} SameElse(els: Option<R.Else>)
    ensures G.RemovableElse(els) <==> V.OptionRemovable(WidenElse(els), false)
    decreases els, 1
  {
    hide Widen, G.Removable, V.IteratorRemovable, V.StmtsRemovable, V.AdaptersRemovable, V.AllRemovable;
    match els {
      case None =>
      case Some(ElseBlock(b)) => SameBlock(b);
      case Some(ElseIf(e)) => SameDecision(e);
    }
  }

  lemma {:induction false} SameBlock(b: R.Block)
    ensures G.RemovableBlock(b) <==> V.BlockRemovable(WidenBlock(b), false)
    decreases b, 1
  {
    SameStmts(b.stmts);
    if b.tail.Some? {
      SameDecision(b.tail.value);
    }
  }

  lemma {:induction false} SameStmts(stmts: seq<R.Stmt>)
    ensures G.RemovableStmts(stmts) <==> V.StmtsRemovable(WidenStmts(stmts), false)
    decreases stmts, 1
  {
    if stmts != [] {
      SameStmt(stmts[0]);
      SameStmts(stmts[1..]);
    }
  }

  lemma {:induction false} SameStmt(s: R.Stmt)
    ensures G.RemovableStmt(s) <==> V.StmtRemovable(WidenStmt(s), false)
    decreases s, 1
  {
    hide Widen, G.Removable, V.IteratorRemovable, V.StmtsRemovable, V.AdaptersRemovable, V.AllRemovable;
    match s {
      case Let(_, init) => SameDecision(init);
      case ExprStmt(e) => SameDecision(e);
      case _ =>
    }
  }
}
