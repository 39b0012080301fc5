/** What evaluating source expressions does to the variables in scope. */
module RuaFrame {
  import opened Wrappers
  import opened RuaLang

  // ---- environments ----

  lemma GetAppend(env: Env, b: Slot, x: string)
    ensures Get(env + [b], x) == if b.name == x then Some(b.value) else Get(env, x)
  {
    assert (env + [b])[..|env|] == env;
  }

  lemma {:induction false} GetSet(env: Env, x: string, v: Val, y: string)
    requires Get(env, x).Some?
    ensures Get(Set(env, x, v), y) == if y == x then Some(v) else Get(env, y)
  {
    var n := |env| - 1;
    if env[n].name == x {
      GetAppend(env[..n], Slot(x, v), y);
    } else {
      GetSet(env[..n], x, v, y);
      GetAppend(Set(env[..n], x, v), env[n], y);
    }
  }

  lemma {:induction false} GetPrefix(env: Env, k: nat, x: string)
    requires k <= |env| && forall i :: k <= i < |env| ==> env[i].name != x
    ensures Get(env[..k], x) == Get(env, x)
  {
    if k < |env| {
      GetPrefix(env[..|env| - 1], k, x);
      assert env[..|env| - 1][..k] == env[..k];
    } else {
      assert env[..k] == env;
    }
  }

  lemma {:induction false} GetIsNamed(env: Env, x: string)
    ensures Get(env, x).Some? <==> exists i :: 0 <= i < |env| && env[i].name == x
  {
    if env != [] && env[|env| - 1].name != x {
      GetIsNamed(env[..|env| - 1], x);
      if Get(env, x).Some? {
        var i :| 0 <= i < |env[..|env| - 1]| && env[..|env| - 1][i].name == x;
        assert env[i].name == x;
      }
      if exists i :: 0 <= i < |env| && env[i].name == x {
        var i :| 0 <= i < |env| && env[i].name == x;
        assert env[..|env| - 1][i].name == x;
      }
    }
  }

  /** The variables of env, and perhaps more declared after them. */
  ghost predicate Grows(env: Env, after: Env) {
    |env| <= |after| && forall i :: 0 <= i < |env| ==> after[i].name == env[i].name
  }

  ghost predicate SameNames(env: Env, after: Env) {
    |env| == |after| && Grows(env, after)
  }

  lemma {:induction false} SetSameNames(env: Env, x: string, v: Val)
    ensures SameNames(env, Set(env, x, v))
  {
    if env != [] {
      SetSameNames(env[..|env| - 1], x, v);
    }
  }

  lemma SameNamesGet(env: Env, after: Env, x: string)
    requires SameNames(env, after)
    ensures Get(env, x).Some? <==> Get(after, x).Some?
  {
    GetIsNamed(env, x);
    GetIsNamed(after, x);
    if Get(env, x).Some? {
      var i :| 0 <= i < |env| && env[i].name == x;
      assert after[i].name == x;
    }
    if Get(after, x).Some? {
      var i :| 0 <= i < |after| && after[i].name == x;
      assert env[i].name == x;
    }
  }

  // ---- which variables an evaluation leaves in scope ----

  /** An expression leaves exactly the variables it found. */
  ghost predicate Shape(env: Env, r: Result) {
    match r
    case Done(_, after) => SameNames(env, after)
    case Brk(_, after) => SameNames(env, after)
    case _ => true
  }

  /** Statements may have added the given variables. */
  ghost predicate StmtShape(env: Env, r: Result, added: set<string>) {
    match r
    case Done(_, after) => Grows(env, after) && forall i :: |env| <= i < |after| ==> after[i].name in added
    case Brk(_, after) => Grows(env, after)
    case _ => true
  }

  function LetName(s: Stmt): set<string> {
    if s.Let? then {s.name} else {}
  }

  function LetNames(stmts: seq<Stmt>): set<string> {
    if stmts == [] then {} else LetName(stmts[0]) + LetNames(stmts[1..])
  }

  lemma LeaveShape(env: Env, more: Env, r: Result)
    requires Grows(env, more) && Shape(more, r)
    ensures Shape(env, Leave(r, |env|))
  {
  }

  lemma ShapeThen(env: Env, mid: Env, r: Result)
    requires SameNames(env, mid) && Shape(mid, r)
    ensures Shape(env, r)
  {
  }

  lemma {:induction false} EvalShape(e: Expr, env: Env, f: Functions, fuel: nat)
    ensures Shape(env, Eval(e, env, f, fuel))
    decreases fuel, e, 1, 0
  {
    match e {
      case Lit(_) =>
      case Path(_) =>
      case Unary(_, operand) => EvalShape(operand, env, f, fuel);
      case SomeCall(payload) => EvalShape(payload, env, f, fuel);
      case ResultCall(_, payload) => EvalShape(payload, env, f, fuel);
      case Try(_, inner) => EvalShape(inner, env, f, fuel);
      case Binary(op, lhs, rhs) => BinaryShape(e, env, f, fuel);
      case Call(_, args) => ArgsShape(args, env, f, fuel);
      case VariantCall(_, args) => ArgsShape(args, env, f, fuel);
      case If(_, _, _) => IfShape(e, env, f, fuel);
      case IfLet(_, _, _, _) => IfLetShape(e, env, f, fuel);
      case BlockExpr(b) => BlockShape(b, env, f, fuel);
      case Match(_, _) => MatchShape(e, env, f, fuel);
      case Loop(body) => LoopShape(body, env, f, fuel);
      case Assign(op, x, rhs) => AssignShape(e, env, f, fuel);
    }
  }

  lemma {:induction false} BinaryShape(e: Expr, env: Env, f: Functions, fuel: nat)
    requires e.Binary?
    ensures Shape(env, Eval(e, env, f, fuel))
    decreases fuel, e, 0, 0
  {
    EvalShape(e.lhs, env, f, fuel);
    var a := Eval(e.lhs, env, f, fuel);
    if a.Done? {
      EvalShape(e.rhs, a.env, f, fuel);
    }
  }

  lemma {:induction false} IfShape(e: Expr, env: Env, f: Functions, fuel: nat)
    requires e.If?
    ensures Shape(env, Eval(e, env, f, fuel))
    decreases fuel, e, 0, 0
  {
    EvalShape(e.cond, env, f, fuel);
    var c := Eval(e.cond, env, f, fuel);
    if c.Done? {
      BlockShape(e.thn, c.env, f, fuel);
      ElseShape(e.els, c.env, f, fuel);
    }
  }

  lemma {:induction false} IfLetShape(e: Expr, env: Env, f: Functions, fuel: nat)
    requires e.IfLet?
    ensures Shape(env, Eval(e, env, f, fuel))
    decreases fuel, e, 0, 0
  {
    hide MatchPattern;
    EvalShape(e.subject, env, f, fuel);
    var r := Eval(e.subject, env, f, fuel);
    if r.Done? {
      ElseShape(e.els, r.env, f, fuel);
      var m := MatchPattern(e.pat, r.v);
      if m.Yes? {
        BlockShape(e.thn, r.env + m.binds, f, fuel);
        LeaveShape(r.env, r.env + m.binds, EvalBlock(e.thn, r.env + m.binds, f, fuel));
      }
    }
  }

  lemma {:induction false} MatchShape(e: Expr, env: Env, f: Functions, fuel: nat)
    requires e.Match?
    ensures Shape(env, Eval(e, env, f, fuel))
    decreases fuel, e, 0, 0
  {
    EvalShape(e.scrut, env, f, fuel);
    var r := Eval(e.scrut, env, f, fuel);
    if r.Done? {
      ArmsShape(e.arms, r.v, r.env, f, fuel);
    }
  }

  lemma {:induction false} AssignShape(e: Expr, env: Env, f: Functions, fuel: nat)
    requires e.Assign?
    ensures Shape(env, Eval(e, env, f, fuel))
    decreases fuel, e, 0, 0
  {
    EvalShape(e.rhs, env, f, fuel);
    var r := Eval(e.rhs, env, f, fuel);
    if r.Done? {
      var old_ := Get(r.env, e.target);
      if old_.Some? {
        if e.aop.None? {
          SetSameNames(r.env, e.target, r.v);
        } else if ApplyBinary(e.aop.value, old_.value, r.v).Some? {
          SetSameNames(r.env, e.target, ApplyBinary(e.aop.value, old_.value, r.v).value);
        }
      }
    }
  }

  lemma {:induction false} ArgsShape(args: seq<Expr>, env: Env, f: Functions, fuel: nat)
    ensures match EvalArgs(args, env, f, fuel)
            case Values(vs, after) => |vs| == |args| && SameNames(env, after)
            case Other(r) => !r.Done? && Shape(env, r)
    decreases fuel, args, 1, 0
  {
    if args != [] {
      EvalShape(args[0], env, f, fuel);
      var first := Eval(args[0], env, f, fuel);
      if first.Done? {
        ArgsShape(args[1..], first.env, f, fuel);
      }
    }
  }

  lemma {:induction false} ElseShape(els: Option<Else>, env: Env, f: Functions, fuel: nat)
    ensures Shape(env, EvalElse(els, env, f, fuel))
    decreases fuel, els, 1, 0
  {
    match els {
      case None =>
      case Some(ElseBlock(b)) => BlockShape(b, env, f, fuel);
      case Some(ElseIf(e)) => EvalShape(e, env, f, fuel);
    }
  }

  lemma {:induction false} ArmsShape(arms: seq<Arm>, v: Val, env: Env, f: Functions, fuel: nat)
    ensures Shape(env, EvalArms(arms, v, env, f, fuel))
    decreases fuel, arms, 1, 0
  {
    if arms != [] {
      var m := MatchArm(arms[0].pats, v);
      if m.No? {
        ArmsShape(arms[1..], v, env, f, fuel);
      } else if m.Yes? {
        var inner := env + m.binds;
        var g := EvalGuard(arms[0].guard, inner, f, fuel);
        GuardShape(arms[0].guard, inner, f, fuel);
        if !g.Done? {
          LeaveShape(env, inner, g);
        } else {
          BodyShape(arms[0], g.env, f, fuel);
          LeaveShape(env, g.env, EvalBody(arms[0], g.env, f, fuel));
          ArmsShape(arms[1..], v, g.env[..|env|], f, fuel);
        }
      }
    }
  }

  lemma {:induction false} GuardShape(guard: Option<Expr>, env: Env, f: Functions, fuel: nat)
    ensures Shape(env, EvalGuard(guard, env, f, fuel))
    decreases fuel, guard, 1, 0
  {
    if guard.Some? {
      EvalShape(guard.value, env, f, fuel);
    }
  }

  lemma {:induction false} BodyShape(arm: Arm, env: Env, f: Functions, fuel: nat)
    ensures Shape(env, EvalBody(arm, env, f, fuel))
    decreases fuel, arm, 1, 0
  {
    EvalShape(arm.body, env, f, fuel);
  }

  lemma {:induction false} BlockShape(b: Block, env: Env, f: Functions, fuel: nat)
    ensures Shape(env, EvalBlock(b, env, f, fuel))
    decreases fuel, b, 1, 0
  {
    StmtsShape(b.stmts, env, f, fuel);
    var r := EvalStmts(b.stmts, env, f, fuel);
    if r.Done? && b.tail.Some? {
      EvalShape(b.tail.value, r.env, f, fuel);
      LeaveShape(env, r.env, Eval(b.tail.value, r.env, f, fuel));
    }
  }

  lemma {:induction false} StmtsShape(stmts: seq<Stmt>, env: Env, f: Functions, fuel: nat)
    ensures StmtShape(env, EvalStmts(stmts, env, f, fuel), LetNames(stmts))
    decreases fuel, stmts, 1, 0
  {
    if stmts != [] {
      OneShape(stmts[0], env, f, fuel);
      var r := EvalStmt(stmts[0], env, f, fuel);
      if r.Done? {
        StmtsShape(stmts[1..], r.env, f, fuel);
      }
    }
  }

  lemma {:induction false} OneShape(s: Stmt, env: Env, f: Functions, fuel: nat)
    ensures StmtShape(env, EvalStmt(s, env, f, fuel), LetName(s))
    decreases fuel, s, 1, 0
  {
    match s {
      case Let(_, init) => EvalShape(init, env, f, fuel);
      case ExprStmt(e) => EvalShape(e, env, f, fuel);
      case Return(result) => if result.Some? { EvalShape(result.value, env, f, fuel); }
      case While(cond, body) => WhileShape(cond, body, env, f, fuel);
      case LoopStmt(body) => LoopShape(body, env, f, fuel);
      case Break(result) => if result.Some? { EvalShape(result.value, env, f, fuel); }
    }
  }

  lemma {:induction false} LoopShape(body: Block, env: Env, f: Functions, fuel: nat)
    ensures Shape(env, EvalLoop(body, env, f, fuel)) && !EvalLoop(body, env, f, fuel).Brk?
    decreases fuel, body, 2, 0
  {
    if fuel > 0 {
      BlockShape(body, env, f, fuel - 1);
      var r := EvalBlock(body, env, f, fuel - 1);
      if r.Done? {
        LoopShape(body, r.env, f, fuel - 1);
      }
    }
  }

  lemma {:induction false} WhileShape(cond: Expr, body: Block, env: Env, f: Functions, fuel: nat)
    ensures Shape(env, EvalWhile(cond, body, env, f, fuel))
    decreases fuel, cond, 2, 0
  {
    if fuel > 0 {
      EvalShape(cond, env, f, fuel);
      var c := Eval(cond, env, f, fuel);
      if c.Done? {
        BlockShape(body, c.env, f, fuel - 1);
        var r := EvalBlock(body, c.env, f, fuel - 1);
        if r.Done? {
          WhileShape(cond, body, r.env, f, fuel - 1);
        }
      }
    }
  }
}
