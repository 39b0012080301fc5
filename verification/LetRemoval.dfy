/** Deleting an unused `let` whose initializer is removable keeps the meaning of the block. */
module LetRemoval {
  import opened Wrappers
  import opened Effects
  import opened Removal
  import R = RuaLang

  // ---- code that neither reads nor assigns a variable ----

  predicate Avoids(x: string, e: Expr)
    decreases e, 1
  {
    hide *;
    match e
    case Lit(_) => true
    case Path(y) => y != x
    case ClosureExpr(_) => true
    case Make(_, operands) => AllAvoid(x, operands)
    case Unary(_, operand) => Avoids(x, operand)
    case Binary(_, lhs, rhs) => Avoids(x, lhs) && Avoids(x, rhs)
    case Invoke(k, args) => ClosureAvoids(x, k) && AllAvoid(x, args)
    case Call(_, args) => AllAvoid(x, args)
    case OptionMap(receiver, k) => Avoids(x, receiver) && ClosureAvoids(x, k)
    case Chain(source, adapters, consumer) => Avoids(x, source) && AdaptersAvoid(x, adapters) && ConsumerAvoids(x, consumer)
    case If(cond, thn, els) => Avoids(x, cond) && BlockAvoids(x, thn) && OptionAvoids(x, els)
    case BlockExpr(b) => BlockAvoids(x, b)
    case Match(scrut, arms) => Avoids(x, scrut) && ArmsAvoid(x, arms)
    case Index(base, index) => Avoids(x, base) && Avoids(x, index)
    case Try(_, inner) => Avoids(x, inner)
    case Loop(body) => BlockAvoids(x, body)
    case Assign(y, rhs) => y != x && Avoids(x, rhs)
  }

  predicate AllAvoid(x: string, es: seq<Expr>)
    decreases es, 0
  {
    es == [] || (Avoids(x, es[0]) && AllAvoid(x, es[1..]))
  }

  predicate OptionAvoids(x: string, e: Option<Expr>)
    decreases e, 0
  {
    e.Some? ==> Avoids(x, e.value)
  }

  predicate ClosureAvoids(x: string, k: Closure)
    decreases k, 0
  {
    Avoids(x, k.body)
  }

  predicate ArmsAvoid(x: string, arms: seq<Arm>)
    decreases arms, 0
  {
    arms == [] || (ArmAvoids(x, arms[0]) && ArmsAvoid(x, arms[1..]))
  }

  predicate ArmAvoids(x: string, arm: Arm)
    decreases arm, 0
  {
    (arm.guard.Some? ==> Avoids(x, arm.guard.value)) && Avoids(x, arm.body)
  }

  predicate BlockAvoids(x: string, b: Block)
    decreases b, 0
  {
    StmtsAvoid(x, b.stmts) && OptionAvoids(x, b.tail)
  }

  predicate StmtsAvoid(x: string, stmts: seq<Stmt>)
    decreases stmts, 0
  {
    stmts == [] || (StmtAvoids(x, stmts[0]) && StmtsAvoid(x, stmts[1..]))
  }

  predicate StmtAvoids(x: string, s: Stmt)
    decreases s, 0
  {
    hide *;
    match s
    case Let(_, init) => Avoids(x, init)
    case ExprStmt(e) => Avoids(x, e)
    case Return(result) => OptionAvoids(x, result)
    case While(cond, body) => Avoids(x, cond) && BlockAvoids(x, body)
    case Break(result) => OptionAvoids(x, result)
    case Raw(_) => true
  }

  predicate AdaptersAvoid(x: string, adapters: seq<Adapter>)
    decreases adapters, 0
  {
    adapters == [] || (AdapterAvoids(x, adapters[0]) && AdaptersAvoid(x, adapters[1..]))
  }

  predicate AdapterAvoids(x: string, ad: Adapter)
    decreases ad, 0
  {
    hide *;
    match ad
    case Map(k) => ClosureAvoids(x, k)
    case Filter(k) => ClosureAvoids(x, k)
    case FilterMap(k) => ClosureAvoids(x, k)
    case Skip(limit) => Avoids(x, limit)
    case Take(limit) => Avoids(x, limit)
    case _ => true
  }

  predicate ConsumerAvoids(x: string, consumer: Consumer)
    decreases consumer, 0
  {
    hide *;
    match consumer
    case Fold(init, k) => Avoids(x, init) && ClosureAvoids(x, k)
    case Any(k) => ClosureAvoids(x, k)
    case All(k) => ClosureAvoids(x, k)
    case Find(k) => ClosureAvoids(x, k)
    case _ => true
  }

  // ---- one more variable ----

  /** A variable that the code does not use, and where it stands among the others. */
  datatype Extra = Extra(at: nat, slot: R.Slot)
  {
    function Env(env: R.Env): (r: R.Env)
      ensures at <= |env| ==> |r| == |env| + 1
    {
      if at <= |env| then env[..at] + [slot] + env[at..] else env
    }

    function In(st: State): State {
      State(Env(st.env), st.out)
    }

    function After(r: Result): Result {
      match r
      case Done(v, st) => Done(v, In(st))
      case Brk(v, st) => Brk(v, In(st))
      case Ret(v, st) => Ret(v, In(st))
      case _ => r
    }

    predicate Fits(st: State) {
      at <= |st.env|
    }

    predicate Reaches(r: Result) {
      match r
      case Done(_, st) => Fits(st)
      case Brk(_, st) => Fits(st)
      case Ret(_, st) => Fits(st)
      case _ => true
    }
  }

  lemma GetLast(env: R.Env, last: R.Slot, y: string)
    ensures R.Get(env + [last], y) == if last.name == y then Some(last.value) else R.Get(env, y)
  {
    assert (env + [last])[..|env|] == env;
  }

  lemma {:induction false} GetWith(x: Extra, env: R.Env, y: string)
    requires x.at <= |env| && y != x.slot.name
    ensures R.Get(x.Env(env), y) == R.Get(env, y)
    decreases |env|
  {
    hide R.Get, Extra.Env;
    if |env| > x.at {
      var init, last := env[..|env| - 1], env[|env| - 1];
      assert env == init + [last];
      GetWith(x, init, y);
      SplitWith(x, init, last);
      GetLast(init, last, y);
      GetLast(x.Env(init), last, y);
    } else {
      AtEnd(x, env);
      GetLast(env, x.slot, y);
    }
  }

  lemma SplitWith(x: Extra, init: R.Env, last: R.Slot)
    requires x.at <= |init|
    ensures var more := x.Env(init + [last]);
            |more| == |init| + 2 && more[..|more| - 1] == x.Env(init) && more[|more| - 1] == last && more == x.Env(init) + [last]
  {
  }

  lemma SetLast(env: R.Env, last: R.Slot, y: string, v: R.Val)
    ensures R.Set(env + [last], y, v) == if last.name == y then env + [R.Slot(y, v)] else R.Set(env, y, v) + [last]
  {
    assert (env + [last])[..|env|] == env;
  }

  lemma {:induction false} SetWith(x: Extra, env: R.Env, y: string, v: R.Val)
    requires x.at <= |env| && y != x.slot.name
    ensures |R.Set(env, y, v)| == |env| && R.Set(x.Env(env), y, v) == x.Env(R.Set(env, y, v))
    decreases |env|
  {
    hide R.Set, Extra.Env;
    SetLength(env, y, v);
    if |env| > x.at {
      var init, last := env[..|env| - 1], env[|env| - 1];
      assert env == init + [last];
      SetLength(init, y, v);
      SetWith(x, init, y, v);
      SplitWith(x, init, last);
      SetLast(init, last, y, v);
      SetLast(x.Env(init), last, y, v);
      SplitWith(x, init, R.Slot(y, v));
      SplitWith(x, R.Set(init, y, v), last);
    } else {
      AtEnd(x, env);
      AtEnd(x, R.Set(env, y, v));
      SetLast(env, x.slot, y, v);
    }
  }

  lemma AtEnd(x: Extra, env: R.Env)
    requires x.at == |env|
    ensures x.Env(env) == env + [x.slot]
  {
  }

  lemma {:induction false} SetLength(env: R.Env, y: string, v: R.Val)
    ensures |R.Set(env, y, v)| == |env|
  {
    if env != [] {
      SetLength(env[..|env| - 1], y, v);
    }
  }

  lemma AppendWith(x: Extra, env: R.Env, more: R.Env)
    requires x.at <= |env|
    ensures x.Env(env) + more == x.Env(env + more)
  {
    var left, right := env[..x.at] + [x.slot], env[x.at..];
    assert (env + more)[..x.at] == env[..x.at] && (env + more)[x.at..] == right + more;
    assert left + right + more == left + (right + more);
  }

  lemma PrefixWith(x: Extra, env: R.Env, depth: nat)
    requires x.at <= depth <= |env|
    ensures x.Env(env)[..depth + 1] == x.Env(env[..depth])
  {
  }

  lemma LeaveWith(x: Extra, r: Result, depth: nat)
    requires x.at <= depth && x.Reaches(r)
    ensures Leave(x.After(r), depth + 1) == x.After(Leave(r, depth)) && x.Reaches(Leave(r, depth))
  {
    match r {
      case Done(_, st) => if depth <= |st.env| { PrefixWith(x, st.env, depth); }
      case Brk(_, st) => if depth <= |st.env| { PrefixWith(x, st.env, depth); }
      case Ret(_, st) => if depth <= |st.env| { PrefixWith(x, st.env, depth); }
      case _ =>
    }
  }

  /** Evaluating with the extra variable: the same result, with the variable still there. */
  ghost predicate Unmoved(x: Extra, r: Result, more: Result) {
    x.Reaches(r) && more == x.After(r)
  }

  ghost predicate ArgsUnmoved(x: Extra, r: Args, more: Args) {
    match r
    case Values(vs, st) => x.Fits(st) && more == Values(vs, x.In(st))
    case Other(o) => more.Other? && Unmoved(x, o, more.r)
  }

  lemma {:induction false} ExprUnmoved(e: Expr, x: Extra, st: State, f: Outside, fuel: nat)
    requires Avoids(x.slot.name, e) && x.Fits(st)
    ensures Unmoved(x, Eval(e, st, f, fuel), Eval(e, x.In(st), f, fuel))
    decreases fuel, e, 9, 0
  {
    hide Extra.Env, Build, EvalBlock, R.Set, EvalOption, Params, R.Get, AdaptersAvoid, EvalChain, EvalArms, EvalAll, EvalLoop;
    match e {
      case Path(y) => GetWith(x, st.env, y);
      case Make(_, operands) => AllUnmoved(operands, x, st, f, fuel);
      case Unary(_, operand) => ExprUnmoved(operand, x, st, f, fuel);
      case Binary(_, _, _) => BinaryUnmoved(e, x, st, f, fuel);
      case Invoke(k, args) =>
        AllUnmoved(args, x, st, f, fuel);
        var r := EvalAll(args, st, f, fuel);
        if r.Values? { ClosureUnmoved(k, r.vs, x, r.st, f, fuel); }
      case Call(_, args) => AllUnmoved(args, x, st, f, fuel);
      case OptionMap(receiver, k) =>
        ExprUnmoved(receiver, x, st, f, fuel);
        var r := Eval(receiver, st, f, fuel);
        if r.Done? && r.v.SomeVal? { ClosureUnmoved(k, [r.v.payload], x, r.st, f, fuel); }
      case Chain(_, _, _) => ChainUnmoved(e, x, st, f, fuel);
      case BlockExpr(b) => BlockUnmoved(b, x, st, f, fuel);
      case Try(_, inner) => ExprUnmoved(inner, x, st, f, fuel);
      case Loop(body) => LoopUnmoved(body, x, st, f, fuel);
      case If(_, _, _) => BranchUnmoved(e, x, st, f, fuel);
      case Match(_, _) => BranchUnmoved(e, x, st, f, fuel);
      case Index(_, _) => PlaceUnmoved(e, x, st, f, fuel);
      case Assign(_, _) => PlaceUnmoved(e, x, st, f, fuel);
      case _ =>
    }
  }

  lemma {:induction false} BranchUnmoved(e: Expr, x: Extra, st: State, f: Outside, fuel: nat)
    requires (e.If? || e.Match?) && Avoids(x.slot.name, e) && x.Fits(st)
    ensures Unmoved(x, Eval(e, st, f, fuel), Eval(e, x.In(st), f, fuel))
    decreases fuel, e, 8, 0
  {
    hide Extra.Env, EvalBlock, EvalOption, EvalArms, EvalAll, EvalLoop, Build, R.Set, Params, R.Get, AdaptersAvoid, EvalChain;
    var cond := if e.If? then e.cond else e.scrut;
    ExprUnmoved(cond, x, st, f, fuel);
    var c := Eval(cond, st, f, fuel);
    if c.Done? {
      if e.If? {
        BlockUnmoved(e.thn, x, c.st, f, fuel);
        OptionUnmoved(e.els, x, c.st, f, fuel);
      } else {
        ArmsUnmoved(e.arms, c.v, x, c.st, f, fuel);
      }
    }
  }

  lemma {:induction false} PlaceUnmoved(e: Expr, x: Extra, st: State, f: Outside, fuel: nat)
    requires (e.Index? || e.Assign?) && Avoids(x.slot.name, e) && x.Fits(st)
    ensures Unmoved(x, Eval(e, st, f, fuel), Eval(e, x.In(st), f, fuel))
    decreases fuel, e, 8, 0
  {
    hide Extra.Env, R.Get, R.Set, EvalLoop, Build, EvalBlock, EvalOption, Params, AdaptersAvoid, EvalChain, EvalArms, EvalAll;
    var first := if e.Index? then e.base else e.rhs;
    ExprUnmoved(first, x, st, f, fuel);
    var r := Eval(first, st, f, fuel);
    if r.Done? {
      if e.Index? {
        ExprUnmoved(e.index, x, r.st, f, fuel);
      } else {
        GetWith(x, r.st.env, e.target);
        SetWith(x, r.st.env, e.target, r.v);
      }
    }
  }

  lemma {:induction false} BinaryUnmoved(e: Expr, x: Extra, st: State, f: Outside, fuel: nat)
    requires e.Binary? && Avoids(x.slot.name, e) && x.Fits(st)
    ensures Unmoved(x, Eval(e, st, f, fuel), Eval(e, x.In(st), f, fuel))
    decreases fuel, e, 8, 0
  {
    hide Extra.Env, Divide, R.ApplyBinary;
    ExprUnmoved(e.lhs, x, st, f, fuel);
    var a := Eval(e.lhs, st, f, fuel);
    if a.Done? {
      ExprUnmoved(e.rhs, x, a.st, f, fuel);
      var b := Eval(e.rhs, a.st, f, fuel);
      if b.Done? {
        DivideUnmoved(e.bop, a.v, b.v, x, b.st);
      }
    }
  }

  lemma DivideUnmoved(op: Op, a: R.Val, b: R.Val, x: Extra, st: State)
    requires x.Fits(st)
    ensures Unmoved(x, Divide(op, a, b, st), Divide(op, a, b, x.In(st)))
  {
    hide Extra.Env;
  }

  lemma {:induction false} AllUnmoved(es: seq<Expr>, x: Extra, st: State, f: Outside, fuel: nat)
    requires AllAvoid(x.slot.name, es) && x.Fits(st)
    ensures ArgsUnmoved(x, EvalAll(es, st, f, fuel), EvalAll(es, x.In(st), f, fuel))
    decreases fuel, es, 9, 0
  {
    hide Extra.Env, Avoids, Eval;
    if es != [] {
      ExprUnmoved(es[0], x, st, f, fuel);
      var first := Eval(es[0], st, f, fuel);
      if first.Done? {
        AllUnmoved(es[1..], x, first.st, f, fuel);
      }
    }
  }

  lemma {:induction false} OptionUnmoved(e: Option<Expr>, x: Extra, st: State, f: Outside, fuel: nat)
    requires OptionAvoids(x.slot.name, e) && x.Fits(st)
    ensures Unmoved(x, EvalOption(e, st, f, fuel), EvalOption(e, x.In(st), f, fuel))
    decreases fuel, e, 9, 0
  {
    hide Extra.Env, Avoids, Eval;
    if e.Some? {
      ExprUnmoved(e.value, x, st, f, fuel);
    }
  }

  lemma {:induction false} ClosureUnmoved(k: Closure, vs: seq<R.Val>, x: Extra, st: State, f: Outside, fuel: nat)
    requires ClosureAvoids(x.slot.name, k) && x.Fits(st)
    ensures Unmoved(x, Enter(k, vs, st, f, fuel), Enter(k, vs, x.In(st), f, fuel))
    decreases fuel, k, 9, 0
  {
    hide Extra.Env, Eval;
    if |vs| == |k.params| {
      var params := Params(k.params, vs);
      var inner := State(st.env + params, st.out);
      AppendWith(x, st.env, params);
      ExprUnmoved(k.body, x, inner, f, fuel);
      LeaveWith(x, Eval(k.body, inner, f, fuel), |st.env|);
    }
  }

  lemma {:induction false} ArmsUnmoved(arms: seq<Arm>, v: R.Val, x: Extra, st: State, f: Outside, fuel: nat)
    requires ArmsAvoid(x.slot.name, arms) && x.Fits(st)
    ensures Unmoved(x, EvalArms(arms, v, st, f, fuel), EvalArms(arms, v, x.In(st), f, fuel))
    decreases fuel, arms, 9, 0
  {
    hide Extra.Env, EvalGuard, EvalBody, R.MatchArm, Avoids, AdaptersAvoid;
    if arms != [] {
      var m := R.MatchArm(arms[0].pats, v);
      if m.No? {
        ArmsUnmoved(arms[1..], v, x, st, f, fuel);
      } else if m.Yes? {
        TakenUnmoved(arms, v, m.binds, x, st, f, fuel);
      }
    }
  }

  /** The first arm matches; its guard decides. */
  function Taken(arms: seq<Arm>, v: R.Val, binds: R.Env, st: State, f: Outside, fuel: nat): Result
    requires hide *; arms != []
  {
    hide *;
    var g := EvalGuard(arms[0], State(st.env + binds, st.out), f, fuel);
    if !g.Done? then Leave(g, |st.env|)
    else if !g.v.BoolVal? || |g.st.env| < |st.env| then Stuck
    else if g.v.b then Leave(EvalBody(arms[0], g.st, f, fuel), |st.env|)
    else EvalArms(arms[1..], v, State(g.st.env[..|st.env|], g.st.out), f, fuel)
  }

  lemma {:induction false} TakenUnmoved(arms: seq<Arm>, v: R.Val, binds: R.Env, x: Extra, st: State, f: Outside, fuel: nat)
    requires hide *; arms != [] && ArmsAvoid(x.slot.name, arms) && x.Fits(st)
    ensures Unmoved(x, Taken(arms, v, binds, st, f, fuel), Taken(arms, v, binds, x.In(st), f, fuel))
    decreases fuel, arms, 8, 0
  {
    hide Extra.Env, EvalGuard, EvalBody, EvalArms, Leave;
    var inner := State(st.env + binds, st.out);
    AppendWith(x, st.env, binds);
    GuardUnmoved(arms[0], x, inner, f, fuel);
    var g := EvalGuard(arms[0], inner, f, fuel);
    LeaveWith(x, g, |st.env|);
    if g.Done? {
      BodyUnmoved(arms[0], x, g.st, f, fuel);
      LeaveWith(x, EvalBody(arms[0], g.st, f, fuel), |st.env|);
      if |g.st.env| >= |st.env| {
        PrefixWith(x, g.st.env, |st.env|);
        ArmsUnmoved(arms[1..], v, x, State(g.st.env[..|st.env|], g.st.out), f, fuel);
      }
    }
  }

  lemma {:induction false} GuardUnmoved(arm: Arm, x: Extra, st: State, f: Outside, fuel: nat)
    requires ArmAvoids(x.slot.name, arm) && x.Fits(st)
    ensures Unmoved(x, EvalGuard(arm, st, f, fuel), EvalGuard(arm, x.In(st), f, fuel))
    decreases fuel, arm, 9, 0
  {
    hide Extra.Env, Avoids, Eval;
    if arm.guard.Some? {
      ExprUnmoved(arm.guard.value, x, st, f, fuel);
    }
  }

  lemma {:induction false} BodyUnmoved(arm: Arm, x: Extra, st: State, f: Outside, fuel: nat)
    requires ArmAvoids(x.slot.name, arm) && x.Fits(st)
    ensures Unmoved(x, EvalBody(arm, st, f, fuel), EvalBody(arm, x.In(st), f, fuel))
    decreases fuel, arm, 9, 0
  {
    hide Extra.Env, Eval, Avoids;
    ExprUnmoved(arm.body, x, st, f, fuel);
  }

  lemma {:induction false} BlockUnmoved(b: Block, x: Extra, st: State, f: Outside, fuel: nat)
    requires BlockAvoids(x.slot.name, b) && x.Fits(st)
    ensures Unmoved(x, EvalBlock(b, st, f, fuel), EvalBlock(b, x.In(st), f, fuel))
    decreases fuel, b, 9, 0
  {
    hide Extra.Env, EvalStmts, EvalOption;
    StmtsUnmoved(b.stmts, x, st, f, fuel);
    var r := EvalStmts(b.stmts, st, f, fuel);
    if r.Done? {
      OptionUnmoved(b.tail, x, r.st, f, fuel);
      LeaveWith(x, EvalOption(b.tail, r.st, f, fuel), |st.env|);
    } else {
      LeaveWith(x, r, |st.env|);
    }
  }

  lemma {:induction false} StmtsUnmoved(stmts: seq<Stmt>, x: Extra, st: State, f: Outside, fuel: nat)
    requires StmtsAvoid(x.slot.name, stmts) && x.Fits(st)
    ensures Unmoved(x, EvalStmts(stmts, st, f, fuel), EvalStmts(stmts, x.In(st), f, fuel))
    decreases fuel, stmts, 9, 0
  {
    hide Extra.Env, Avoids, EvalStmt;
    if stmts != [] {
      StmtUnmoved(stmts[0], x, st, f, fuel);
      var r := EvalStmt(stmts[0], st, f, fuel);
      if r.Done? {
        StmtsUnmoved(stmts[1..], x, r.st, f, fuel);
      }
    }
  }

  lemma {:induction false} StmtUnmoved(s: Stmt, x: Extra, st: State, f: Outside, fuel: nat)
    requires StmtAvoids(x.slot.name, s) && x.Fits(st)
    ensures Unmoved(x, EvalStmt(s, st, f, fuel), EvalStmt(s, x.In(st), f, fuel))
    decreases fuel, s, 9, 0
  {
    hide Extra.Env, Avoids, EvalOption, EvalWhile, Eval;
    match s {
      case Let(y, init) =>
        ExprUnmoved(init, x, st, f, fuel);
        var r := Eval(init, st, f, fuel);
        if r.Done? { AppendWith(x, r.st.env, [R.Slot(y, r.v)]); }
      case ExprStmt(e) => ExprUnmoved(e, x, st, f, fuel);
      case Return(result) => OptionUnmoved(result, x, st, f, fuel);
      case While(cond, body) => WhileUnmoved(cond, body, x, st, f, fuel);
      case Break(result) => OptionUnmoved(result, x, st, f, fuel);
      case Raw(_) =>
    }
  }

  lemma {:induction false} LoopUnmoved(body: Block, x: Extra, st: State, f: Outside, fuel: nat)
    requires BlockAvoids(x.slot.name, body) && x.Fits(st)
    ensures Unmoved(x, EvalLoop(body, st, f, fuel), EvalLoop(body, x.In(st), f, fuel))
    decreases fuel, body, 10, 0
  {
    hide Extra.Env, EvalBlock;
    if fuel > 0 {
      BlockUnmoved(body, x, st, f, fuel - 1);
      var r := EvalBlock(body, st, f, fuel - 1);
      if r.Done? {
        LoopUnmoved(body, x, r.st, f, fuel - 1);
      }
    }
  }

  lemma {:induction false} WhileUnmoved(cond: Expr, body: Block, x: Extra, st: State, f: Outside, fuel: nat)
    requires Avoids(x.slot.name, cond) && BlockAvoids(x.slot.name, body) && x.Fits(st)
    ensures Unmoved(x, EvalWhile(cond, body, st, f, fuel), EvalWhile(cond, body, x.In(st), f, fuel))
    decreases fuel, cond, 10, 0
  {
    hide Extra.Env, EvalBlock, Eval;
    if fuel > 0 {
      ExprUnmoved(cond, x, st, f, fuel);
      var c := Eval(cond, st, f, fuel);
      if c.Done? {
        BlockUnmoved(body, x, c.st, f, fuel - 1);
        var r := EvalBlock(body, c.st, f, fuel - 1);
        if r.Done? {
          WhileUnmoved(cond, body, x, r.st, f, fuel - 1);
        }
      }
    }
  }

  // ---- iterator chains ----

  lemma {:induction false} EachAdapterAvoids(y: string, adapters: seq<Adapter>, i: nat)
    requires AdaptersAvoid(y, adapters) && i < |adapters|
    ensures AdapterAvoids(y, adapters[i])
  {
    hide Extra.Env;
    if i > 0 {
      EachAdapterAvoids(y, adapters[1..], i - 1);
    }
  }

  lemma {:induction false} ChainUnmoved(e: Expr, x: Extra, st: State, f: Outside, fuel: nat)
    requires e.Chain? && Avoids(x.slot.name, e) && x.Fits(st)
    ensures Unmoved(x, Eval(e, st, f, fuel), Eval(e, x.In(st), f, fuel))
    decreases fuel, e, 8, 0
  {
    hide Extra.Env, RunItems, EvalLimits, EvalStart, R.MatchPattern, R.MatchAny, R.Set, R.Get, Build, EvalBlock, EvalGuard, EvalOption,
      Params;
    ExprUnmoved(e.source, x, st, f, fuel);
    var src := Eval(e.source, st, f, fuel);
    if src.Done? && ItemsOf(src.v).Some? {
      LimitsUnmoved(e, 0, x, src.st, f, fuel);
      var limits := EvalLimits(e, 0, src.st, f, fuel);
      if limits.Values? && |limits.vs| == |e.adapters| {
        StartUnmoved(e, x, limits.st, f, fuel);
        var start := EvalStart(e, limits.st, f, fuel);
        if start.Done? {
          var items := ItemsOf(src.v).value;
          ItemsUnmoved(e, if Count01(e.adapters) % 2 == 1 then Reverse(items) else items, limits.vs, Zeros(|e.adapters|), start.v, x, start.st, f, fuel);
        }
      }
    }
    assert Eval(e, st, f, fuel) == EvalChain(e, st, f, fuel) && Eval(e, x.In(st), f, fuel) == EvalChain(e, x.In(st), f, fuel);
  }

  lemma {:induction false} LimitsUnmoved(e: Expr, i: nat, x: Extra, st: State, f: Outside, fuel: nat)
    requires hide *; e.Chain? && Avoids(x.slot.name, e) && i <= |e.adapters| && x.Fits(st)
    ensures ArgsUnmoved(x, EvalLimits(e, i, st, f, fuel), EvalLimits(e, i, x.In(st), f, fuel))
    decreases fuel, e, 7, |e.adapters| - i
  {
    hide Extra.Env, EvalLimit;
    if i < |e.adapters| {
      EachAdapterAvoids(x.slot.name, e.adapters, i);
      LimitUnmoved(e.adapters[i], x, st, f, fuel);
      var first := EvalLimit(e.adapters[i], st, f, fuel);
      if first.Done? {
        LimitsUnmoved(e, i + 1, x, first.st, f, fuel);
      }
    }
  }

  lemma {:induction false} LimitUnmoved(ad: Adapter, x: Extra, st: State, f: Outside, fuel: nat)
    requires AdapterAvoids(x.slot.name, ad) && x.Fits(st)
    ensures Unmoved(x, EvalLimit(ad, st, f, fuel), EvalLimit(ad, x.In(st), f, fuel))
    decreases fuel, ad, 9, 0
  {
    hide Extra.Env, Avoids, Eval;
    if ad.Skip? || ad.Take? {
      ExprUnmoved(ad.limit, x, st, f, fuel);
    }
  }

  lemma {:induction false} StartUnmoved(e: Expr, x: Extra, st: State, f: Outside, fuel: nat)
    requires hide *; e.Chain? && ConsumerAvoids(x.slot.name, e.consumer) && x.Fits(st)
    ensures Unmoved(x, EvalStart(e, st, f, fuel), EvalStart(e, x.In(st), f, fuel))
    decreases fuel, e, 6, 0
  {
    hide Extra.Env, Avoids, Eval;
    if e.consumer.Fold? {
      ExprUnmoved(e.consumer.init, x, st, f, fuel);
    }
  }

  ghost predicate StagedUnmoved(x: Extra, s: Staged, more: Staged) {
    match s
    case On(v, n, st) => x.Fits(st) && more == On(v, n, x.In(st))
    case Gone(n, st) => x.Fits(st) && more == Gone(n, x.In(st))
    case End(st) => x.Fits(st) && more == End(x.In(st))
    case Abrupt(r) => more.Abrupt? && Unmoved(x, r, more.r)
  }

  lemma {:induction false} ThroughUnmoved(ad: Adapter, v: R.Val, limit: R.Val, count: int, x: Extra, st: State, f: Outside, fuel: nat)
    requires AdapterAvoids(x.slot.name, ad) && x.Fits(st)
    ensures StagedUnmoved(x, Through(ad, v, limit, count, st, f, fuel), Through(ad, v, limit, count, x.In(st), f, fuel))
    decreases fuel, ad, 10, 0
  {
    hide Extra.Env, Enter, Avoids, AdaptersAvoid;
    if ad.Map? || ad.Filter? || ad.FilterMap? {
      ClosureUnmoved(ad.k, [v], x, st, f, fuel);
    }
  }

  ghost predicate PushedUnmoved(x: Extra, p: Pushed, more: Pushed) {
    match p
    case Passed(v, counts, st) => x.Fits(st) && more == Passed(v, counts, x.In(st))
    case Dropped(counts, st) => x.Fits(st) && more == Dropped(counts, x.In(st))
    case Stopped(st) => x.Fits(st) && more == Stopped(x.In(st))
    case Exit(r) => more.Exit? && Unmoved(x, r, more.r)
  }

  lemma {:induction false} PushUnmoved(e: Expr, i: nat, v: R.Val, limits: seq<R.Val>, counts: seq<int>, x: Extra, st: State, f: Outside, fuel: nat)
    requires hide *;
             e.Chain? && Avoids(x.slot.name, e) && i <= |e.adapters| && |limits| == |e.adapters| && |counts| == |e.adapters| && x.Fits(st)
    ensures PushedUnmoved(x, Push(e, i, v, limits, counts, st, f, fuel), Push(e, i, v, limits, counts, x.In(st), f, fuel))
    decreases fuel, e, 5, |e.adapters| - i
  {
    hide Extra.Env, Through, AdaptersAvoid;
    if i < |e.adapters| {
      EachAdapterAvoids(x.slot.name, e.adapters, i);
      ThroughUnmoved(e.adapters[i], v, limits[i], counts[i], x, st, f, fuel);
      var s := Through(e.adapters[i], v, limits[i], counts[i], st, f, fuel);
      if s.On? {
        PushUnmoved(e, i + 1, s.v, limits, counts[i := s.count], x, s.st, f, fuel);
      }
    }
  }

  ghost predicate SunkUnmoved(x: Extra, s: Sunk, more: Sunk) {
    match s
    case More(acc, st) => x.Fits(st) && more == More(acc, x.In(st))
    case Last(acc, st) => x.Fits(st) && more == Last(acc, x.In(st))
    case Broken(r) => more.Broken? && Unmoved(x, r, more.r)
  }

  lemma {:induction false} SinkUnmoved(consumer: Consumer, acc: R.Val, v: R.Val, x: Extra, st: State, f: Outside, fuel: nat)
    requires ConsumerAvoids(x.slot.name, consumer) && x.Fits(st)
    ensures SunkUnmoved(x, Sink(consumer, acc, v, st, f, fuel), Sink(consumer, acc, v, x.In(st), f, fuel))
    decreases fuel, consumer, 10, 0
  {
    hide Extra.Env, Enter, Avoids, AdaptersAvoid;
    if consumer.Any? || consumer.All? || consumer.Find? {
      ClosureUnmoved(consumer.k, [v], x, st, f, fuel);
    } else if consumer.Fold? {
      ClosureUnmoved(consumer.k, [acc, v], x, st, f, fuel);
    }
  }

  lemma {:induction false} ItemsUnmoved(e: Expr, items: seq<R.Val>, limits: seq<R.Val>, counts: seq<int>, acc: R.Val, x: Extra, st: State, f: Outside, fuel: nat)
    requires hide *; e.Chain? && Avoids(x.slot.name, e) && |limits| == |e.adapters| && |counts| == |e.adapters| && x.Fits(st)
    ensures Unmoved(x, RunItems(e, items, limits, counts, acc, st, f, fuel), RunItems(e, items, limits, counts, acc, x.In(st), f, fuel))
    decreases fuel, e, 6, |items|
  {
    hide Extra.Env, Push, Sink;
    if items != [] {
      PushUnmoved(e, 0, items[0], limits, counts, x, st, f, fuel);
      var p := Push(e, 0, items[0], limits, counts, st, f, fuel);
      if p.Dropped? && |p.counts| == |e.adapters| {
        ItemsUnmoved(e, items[1..], limits, p.counts, acc, x, p.st, f, fuel);
      } else if p.Passed? {
        SinkUnmoved(e.consumer, acc, p.v, x, p.st, f, fuel);
        var s := Sink(e.consumer, acc, p.v, p.st, f, fuel);
        if s.More? && |p.counts| == |e.adapters| {
          ItemsUnmoved(e, items[1..], limits, p.counts, s.acc, x, s.st, f, fuel);
        }
      }
    }
  }

  // ---- deleting a `let` ----

  /**
   * With a removable initializer and a variable that the rest does not use, the block without the `let`
   * does exactly what the block with it does: the same value, exit or trap, the same variables afterwards,
   * the same effects outside.
   */
  lemma DeletingAnUnusedLet(y: string, init: Expr, rest: seq<Stmt>, tail: Option<Expr>, st: State, f: Outside, fuel: nat)
    requires Removable(init, false) && StmtsAvoid(y, rest) && OptionAvoids(y, tail)
    requires !Eval(init, st, f, fuel).Stuck?
    ensures EvalBlock(Block([Let(y, init)] + rest, tail), st, f, fuel) == EvalBlock(Block(rest, tail), st, f, fuel)
  {
    hide Eval, EvalOption, Removable, Avoids, EvalStmts;
    RemovableIsSilent(init, st, f, fuel);
    var all := [Let(y, init)] + rest;
    assert all[0] == Let(y, init) && all[1..] == rest;
    var v := Eval(init, st, f, fuel).v;
    var x := Extra(|st.env|, R.Slot(y, v));
    var more := State(st.env + [R.Slot(y, v)], st.out);
    assert x.Env(st.env) == more.env;
    assert EvalStmts(all, st, f, fuel) == EvalStmts(rest, more, f, fuel) by { LetFirst(y, init, rest, st, f, fuel); }
    hide EvalStmts;
    StmtsUnmoved(rest, x, st, f, fuel);
    var r := EvalStmts(rest, st, f, fuel);
    if r.Done? {
      OptionUnmoved(tail, x, r.st, f, fuel);
      LeaveDrops(x, EvalOption(tail, r.st, f, fuel));
    } else {
      LeaveDrops(x, r);
    }
  }

  lemma LetFirst(y: string, init: Expr, rest: seq<Stmt>, st: State, f: Outside, fuel: nat)
    requires hide *; Eval(init, st, f, fuel).Done? && Eval(init, st, f, fuel).st == st
    ensures EvalStmts([Let(y, init)] + rest, st, f, fuel)
         == EvalStmts(rest, State(st.env + [R.Slot(y, Eval(init, st, f, fuel).v)], st.out), f, fuel)
  {
    hide EvalWhile, Eval;
    var all := [Let(y, init)] + rest;
    assert all[0] == Let(y, init) && all[1..] == rest;
  }

  /** Leaving the block forgets the extra variable. */
  lemma LeaveDrops(x: Extra, r: Result)
    requires x.Reaches(r)
    ensures Leave(x.After(r), x.at) == Leave(r, x.at)
  {
    match r {
      case Done(_, st) => assert x.Env(st.env)[..x.at] == st.env[..x.at];
      case Brk(_, st) => assert x.Env(st.env)[..x.at] == st.env[..x.at];
      case Ret(_, st) => assert x.Env(st.env)[..x.at] == st.env[..x.at];
      case _ =>
    }
  }
}
