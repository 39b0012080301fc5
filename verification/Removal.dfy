/** Which expressions may be deleted when nothing uses their value. */
module Removal {
  import opened Wrappers
  import opened Effects
  import R = RuaLang

  // ---- the decision ----

  /** Division and remainder need a literal divisor that is not zero. */
  predicate CannotTrap(op: Op, rhs: Expr) {
    op.Plain? || (rhs.Lit? && rhs.value.IntVal? && rhs.value.n != 0)
  }

  /** mayReturn: the expression is inside a closure that is called on the spot, so `return` only leaves the closure. */
  predicate Removable(e: Expr, mayReturn: bool)
    decreases e, 1
  {
    hide *;
    match e
    case Lit(_) => true
    case Path(_) => true
    case ClosureExpr(_) => true
    case Make(_, operands) => AllRemovable(operands, mayReturn)
    case Unary(_, operand) => Removable(operand, mayReturn)
    case Binary(op, lhs, rhs) => CannotTrap(op, rhs) && op != Plain(R.Coalesce) && Removable(lhs, mayReturn) && Removable(rhs, mayReturn)
    case Invoke(k, args) => ClosureRemovable(k) && AllRemovable(args, mayReturn)
    case OptionMap(receiver, k) => Removable(receiver, mayReturn) && ClosureRemovable(k)
    case Chain(_, _, _) => IteratorRemovable(e)
    case If(cond, thn, els) => Removable(cond, mayReturn) && BlockRemovable(thn, mayReturn) && OptionRemovable(els, mayReturn)
    case BlockExpr(b) => BlockRemovable(b, mayReturn)
    case _ => false
  }

  predicate AllRemovable(es: seq<Expr>, mayReturn: bool)
    decreases es, 0
  {
    hide *;
    es == [] || (Removable(es[0], mayReturn) && AllRemovable(es[1..], mayReturn))
  }

  predicate OptionRemovable(e: Option<Expr>, mayReturn: bool)
    decreases e, 0
  {
    hide *;
    e.Some? ==> Removable(e.value, mayReturn)
  }

  predicate ClosureRemovable(k: Closure)
    decreases k, 0
  {
    hide *;
    Removable(k.body, true)
  }

  predicate BlockRemovable(b: Block, mayReturn: bool)
    decreases b, 0
  {
    hide *;
    StmtsRemovable(b.stmts, mayReturn) && OptionRemovable(b.tail, mayReturn)
  }

  predicate StmtsRemovable(stmts: seq<Stmt>, mayReturn: bool)
    decreases stmts, 0
  {
    hide *;
    stmts == [] || (StmtRemovable(stmts[0], mayReturn) && StmtsRemovable(stmts[1..], mayReturn))
  }

  predicate StmtRemovable(s: Stmt, mayReturn: bool)
    decreases s, 0
  {
    hide *;
    match s
    case Let(_, init) => Removable(init, mayReturn)
    case ExprStmt(e) => Removable(e, mayReturn)
    case Return(result) => mayReturn && OptionRemovable(result, mayReturn)
    case _ => false
  }

  /** A reversal after another adapter is not taken apart, and such a chain is kept. */
  predicate RevsFirst(adapters: seq<Adapter>) {
    forall i, j :: 0 <= i < j < |adapters| && adapters[j].Rev? ==> adapters[i].Rev?
  }

  predicate IteratorRemovable(e: Expr)
    requires hide *; e.Chain?
    decreases e, 0
  {
    hide *;
    RevsFirst(e.adapters) && Removable(e.source, false) && AdaptersRemovable(e.adapters) && ConsumerRemovable(e.consumer)
  }

  predicate AdaptersRemovable(adapters: seq<Adapter>)
    decreases adapters, 0
  {
    hide *;
    adapters == [] || (AdapterRemovable(adapters[0]) && AdaptersRemovable(adapters[1..]))
  }

  predicate AdapterRemovable(ad: Adapter)
    decreases ad, 0
  {
    hide *;
    match ad
    case Map(k) => ClosureRemovable(k)
    case Filter(k) => ClosureRemovable(k)
    case FilterMap(k) => ClosureRemovable(k)
    case Skip(limit) => Removable(limit, false)
    case Take(limit) => Removable(limit, false)
    case _ => true
  }

  predicate ConsumerRemovable(consumer: Consumer)
    decreases consumer, 0
  {
    hide *;
    match consumer
    case Fold(init, k) => Removable(init, false) && ClosureRemovable(k)
    case Any(k) => ClosureRemovable(k)
    case All(k) => ClosureRemovable(k)
    case Find(k) => ClosureRemovable(k)
    case _ => true
  }

  // ---- what the decision means ----

  /** The variables of st are as they were, whatever has been declared since, and so is the outside. */
  ghost predicate SameBelow(st: State, t: State) {
    |st.env| <= |t.env| && t.env[..|st.env|] == st.env && t.out == st.out
  }

  /** A value and no effect; or, where that is allowed, a `return` and no effect. Ill-typed programs aside. */
  ghost predicate Quiet(r: Result, st: State, mayReturn: bool) {
    r.Stuck? || (r.Done? && r.st == st) || (mayReturn && r.Ret? && SameBelow(st, r.st))
  }

  /** The same for statements, which may declare variables. */
  ghost predicate OnlyAdds(r: Result, st: State, mayReturn: bool) {
    r.Stuck? || (r.Done? && SameBelow(st, r.st)) || (mayReturn && r.Ret? && SameBelow(st, r.st))
  }

  lemma SameBelowThen(a: State, b: State, c: State)
    requires SameBelow(a, b) && SameBelow(b, c)
    ensures SameBelow(a, c)
  {
    assert c.env[..|b.env|][..|a.env|] == c.env[..|a.env|];
  }

  lemma {:induction false} RemovableIsQuiet(e: Expr, mayReturn: bool, st: State, f: Outside, fuel: nat)
    requires Removable(e, mayReturn)
    ensures Quiet(Eval(e, st, f, fuel), st, mayReturn)
    decreases e, 5
  {
    match e {
      case Make(_, operands) => AllIsQuiet(operands, mayReturn, st, f, fuel);
      case Unary(_, operand) => RemovableIsQuiet(operand, mayReturn, st, f, fuel);
      case Binary(_, lhs, rhs) => BinaryIsQuiet(e, mayReturn, st, f, fuel);
      case Invoke(k, args) =>
        AllIsQuiet(args, mayReturn, st, f, fuel);
        var r := EvalAll(args, st, f, fuel);
        if r.Values? { ClosureIsQuiet(k, r.vs, r.st, f, fuel); }
      case OptionMap(receiver, k) =>
        RemovableIsQuiet(receiver, mayReturn, st, f, fuel);
        var r := Eval(receiver, st, f, fuel);
        if r.Done? && r.v.SomeVal? { ClosureIsQuiet(k, [r.v.payload], r.st, f, fuel); }
      case Chain(_, _, _) => ChainIsQuiet(e, st, f, fuel);
      case If(cond, thn, els) =>
        RemovableIsQuiet(cond, mayReturn, st, f, fuel);
        BlockIsQuiet(thn, mayReturn, st, f, fuel);
        OptionIsQuiet(els, mayReturn, st, f, fuel);
      case BlockExpr(b) => BlockIsQuiet(b, mayReturn, st, f, fuel);
      case _ =>
    }
  }

  lemma {:induction false} BinaryIsQuiet(e: Expr, mayReturn: bool, st: State, f: Outside, fuel: nat)
    requires e.Binary? && Removable(e, mayReturn)
    ensures Quiet(Eval(e, st, f, fuel), st, mayReturn)
    decreases e, 1
  {
    hide R.Set, R.Get, EvalBlock, IteratorRemovable, StmtsRemovable, EvalOption, Params, AllRemovable, EvalAll, EvalLoop, Build, EvalChain,
      EvalArms;
    RemovableIsQuiet(e.lhs, mayReturn, st, f, fuel);
    RemovableIsQuiet(e.rhs, mayReturn, st, f, fuel);
    if !e.bop.Plain? {
      assert Eval(e.rhs, st, f, fuel) == Done(e.rhs.value, st);
    }
  }

  ghost predicate ArgsQuiet(a: Args, st: State, mayReturn: bool) {
    if a.Values? then a.st == st else !a.r.Done? && Quiet(a.r, st, mayReturn)
  }

  lemma {:induction false} AllIsQuiet(es: seq<Expr>, mayReturn: bool, st: State, f: Outside, fuel: nat)
    requires AllRemovable(es, mayReturn)
    ensures ArgsQuiet(EvalAll(es, st, f, fuel), st, mayReturn)
    decreases es, 2
  {
    hide Eval, Removable;
    if es != [] {
      RemovableIsQuiet(es[0], mayReturn, st, f, fuel);
      AllIsQuiet(es[1..], mayReturn, st, f, fuel);
    }
  }

  lemma {:induction false} OptionIsQuiet(e: Option<Expr>, mayReturn: bool, st: State, f: Outside, fuel: nat)
    requires OptionRemovable(e, mayReturn)
    ensures Quiet(EvalOption(e, st, f, fuel), st, mayReturn)
    decreases e, 2
  {
    hide Removable, Eval;
    if e.Some? {
      RemovableIsQuiet(e.value, mayReturn, st, f, fuel);
    }
  }

  /** A call on the spot has a value and no effect, although its body may contain `return`. */
  lemma {:induction false} ClosureIsQuiet(k: Closure, vs: seq<R.Val>, st: State, f: Outside, fuel: nat)
    requires ClosureRemovable(k)
    ensures Quiet(Enter(k, vs, st, f, fuel), st, false)
    decreases k, 2
  {
    hide Eval;
    if |vs| == |k.params| {
      var inner := State(st.env + Params(k.params, vs), st.out);
      RemovableIsQuiet(k.body, true, inner, f, fuel);
      assert SameBelow(st, inner);
      var r := Eval(k.body, inner, f, fuel);
      if r.Ret? {
        SameBelowThen(st, inner, r.st);
      }
    }
  }

  lemma {:induction false} BlockIsQuiet(b: Block, mayReturn: bool, st: State, f: Outside, fuel: nat)
    requires BlockRemovable(b, mayReturn)
    ensures Quiet(EvalBlock(b, st, f, fuel), st, mayReturn)
    decreases b, 2
  {
    hide Removable, EvalStmts, StmtsRemovable, EvalOption;
    StmtsOnlyAdd(b.stmts, mayReturn, st, f, fuel);
    var r := EvalStmts(b.stmts, st, f, fuel);
    if r.Done? {
      OptionIsQuiet(b.tail, mayReturn, r.st, f, fuel);
      var t := EvalOption(b.tail, r.st, f, fuel);
      if t.Ret? {
        SameBelowThen(st, r.st, t.st);
      }
    }
  }

  lemma {:induction false} StmtsOnlyAdd(stmts: seq<Stmt>, mayReturn: bool, st: State, f: Outside, fuel: nat)
    requires StmtsRemovable(stmts, mayReturn)
    ensures OnlyAdds(EvalStmts(stmts, st, f, fuel), st, mayReturn)
    decreases stmts, 2
  {
    hide EvalStmt, StmtRemovable;
    if stmts != [] {
      StmtOnlyAdds(stmts[0], mayReturn, st, f, fuel);
      var r := EvalStmt(stmts[0], st, f, fuel);
      if r.Done? {
        StmtsOnlyAdd(stmts[1..], mayReturn, r.st, f, fuel);
        var q := EvalStmts(stmts[1..], r.st, f, fuel);
        if q.Done? || q.Ret? {
          SameBelowThen(st, r.st, q.st);
        }
      }
    }
  }

  lemma {:induction false} StmtOnlyAdds(s: Stmt, mayReturn: bool, st: State, f: Outside, fuel: nat)
    requires StmtRemovable(s, mayReturn)
    ensures OnlyAdds(EvalStmt(s, st, f, fuel), st, mayReturn)
    decreases s, 2
  {
    hide R.Set, R.Get, EvalAll, EvalLoop, Build, EvalBlock, EvalOption, Params, EvalChain, EvalArms, EvalWhile, Removable;
    match s {
      case Let(_, init) => RemovableIsQuiet(init, mayReturn, st, f, fuel);
      case ExprStmt(e) => RemovableIsQuiet(e, mayReturn, st, f, fuel);
      case Return(result) => OptionIsQuiet(result, mayReturn, st, f, fuel);
      case _ =>
    }
  }

  // ---- iterator chains ----

  ghost predicate StagedQuiet(s: Staged, st: State) {
    match s
    case On(_, _, next) => next == st
    case Gone(_, next) => next == st
    case End(next) => next == st
    case Abrupt(r) => r.Stuck?
  }

  lemma {:induction false} AdapterIsQuiet(ad: Adapter, v: R.Val, limit: R.Val, count: int, st: State, f: Outside, fuel: nat)
    requires AdapterRemovable(ad)
    ensures StagedQuiet(Through(ad, v, limit, count, st, f, fuel), st)
    decreases ad, 2
  {
    hide Removable, Eval;
    if ad.Map? || ad.Filter? || ad.FilterMap? {
      ClosureIsQuiet(ad.k, [v], st, f, fuel);
    }
  }

  lemma {:induction false} EachAdapter(adapters: seq<Adapter>, i: nat)
    requires hide *; AdaptersRemovable(adapters) && i < |adapters|
    ensures AdapterRemovable(adapters[i])
  {
    hide ClosureRemovable, Removable;
    if i > 0 {
      EachAdapter(adapters[1..], i - 1);
    }
  }

  ghost predicate PushedQuiet(p: Pushed, st: State) {
    match p
    case Passed(_, _, next) => next == st
    case Dropped(_, next) => next == st
    case Stopped(next) => next == st
    case Exit(r) => r.Stuck?
  }

  lemma {:induction false} PushIsQuiet(e: Expr, i: nat, v: R.Val, limits: seq<R.Val>, counts: seq<int>, st: State, f: Outside, fuel: nat)
    requires hide *; e.Chain? && Removable(e, false) && i <= |e.adapters| && |limits| == |e.adapters| && |counts| == |e.adapters|
    ensures PushedQuiet(Push(e, i, v, limits, counts, st, f, fuel), st)
    decreases e, 2, |e.adapters| - i
  {
    hide StmtsRemovable, AdaptersRemovable, AllRemovable, Through;
    if i < |e.adapters| {
      EachAdapter(e.adapters, i);
      AdapterIsQuiet(e.adapters[i], v, limits[i], counts[i], st, f, fuel);
      var s := Through(e.adapters[i], v, limits[i], counts[i], st, f, fuel);
      if s.On? {
        PushIsQuiet(e, i + 1, s.v, limits, counts[i := s.count], s.st, f, fuel);
      }
    }
  }

  lemma {:induction false} SinkIsQuiet(consumer: Consumer, acc: R.Val, v: R.Val, st: State, f: Outside, fuel: nat)
    requires ConsumerRemovable(consumer)
    ensures match Sink(consumer, acc, v, st, f, fuel) case More(_, next) => next == st case Last(_, next) => next == st case Broken(r) => r.Stuck?
    decreases consumer, 2
  {
    hide R.Set, R.Get, EvalAll, EvalLoop, Build, EvalBlock, EvalOption, Params, Removable, EvalChain, EvalArms;
    if consumer.Any? || consumer.All? || consumer.Find? {
      ClosureIsQuiet(consumer.k, [v], st, f, fuel);
    } else if consumer.Fold? {
      ClosureIsQuiet(consumer.k, [acc, v], st, f, fuel);
    }
  }

  lemma {:induction false} ItemsAreQuiet(e: Expr, items: seq<R.Val>, limits: seq<R.Val>, counts: seq<int>, acc: R.Val, st: State, f: Outside, fuel: nat)
    requires hide *; e.Chain? && Removable(e, false) && |limits| == |e.adapters| && |counts| == |e.adapters|
    ensures Quiet(RunItems(e, items, limits, counts, acc, st, f, fuel), st, false)
    decreases e, 3, |items|
  {
    hide Push, Sink;
    if items != [] {
      PushIsQuiet(e, 0, items[0], limits, counts, st, f, fuel);
      var p := Push(e, 0, items[0], limits, counts, st, f, fuel);
      if p.Dropped? && |p.counts| == |e.adapters| {
        ItemsAreQuiet(e, items[1..], limits, p.counts, acc, st, f, fuel);
      } else if p.Passed? {
        SinkIsQuiet(e.consumer, acc, p.v, st, f, fuel);
        var s := Sink(e.consumer, acc, p.v, st, f, fuel);
        if s.More? && |p.counts| == |e.adapters| {
          ItemsAreQuiet(e, items[1..], limits, p.counts, s.acc, st, f, fuel);
        }
      }
    }
  }

  lemma {:induction false} LimitsAreQuiet(e: Expr, i: nat, st: State, f: Outside, fuel: nat)
    requires hide *; e.Chain? && Removable(e, false) && i <= |e.adapters|
    ensures ArgsQuiet(EvalLimits(e, i, st, f, fuel), st, false)
    decreases e, 3, |e.adapters| - i
  {
    hide EvalLimit, StmtsRemovable, AdaptersRemovable, AllRemovable;
    if i < |e.adapters| {
      EachAdapter(e.adapters, i);
      LimitIsQuiet(e.adapters[i], st, f, fuel);
      LimitsAreQuiet(e, i + 1, st, f, fuel);
    }
  }

  lemma {:induction false} LimitIsQuiet(ad: Adapter, st: State, f: Outside, fuel: nat)
    requires AdapterRemovable(ad)
    ensures Quiet(EvalLimit(ad, st, f, fuel), st, false)
    decreases ad, 2
  {
    hide Removable, Eval;
    if ad.Skip? || ad.Take? {
      RemovableIsQuiet(ad.limit, false, st, f, fuel);
    }
  }

  lemma {:induction false} ChainIsQuiet(e: Expr, st: State, f: Outside, fuel: nat)
    requires e.Chain? && Removable(e, false)
    ensures Quiet(Eval(e, st, f, fuel), st, false)
    decreases e, 4
  {
    hide RunItems, EvalLimits, R.MatchPattern, R.MatchAny, R.Set, R.Get, EvalLoop, Build, EvalBlock, EvalGuard, EvalOption, Params;
    RemovableIsQuiet(e.source, false, st, f, fuel);
    LimitsAreQuiet(e, 0, st, f, fuel);
    StartIsQuiet(e, st, f, fuel);
    var src := Eval(e.source, st, f, fuel);
    if src.Done? && ItemsOf(src.v).Some? {
      var limits := EvalLimits(e, 0, st, f, fuel);
      var start := EvalStart(e, st, f, fuel);
      if limits.Values? && |limits.vs| == |e.adapters| && start.Done? {
        var items := ItemsOf(src.v).value;
        ItemsAreQuiet(e, if Count01(e.adapters) % 2 == 1 then Reverse(items) else items, limits.vs, Zeros(|e.adapters|), start.v, st, f, fuel);
      }
    }
    assert Eval(e, st, f, fuel) == EvalChain(e, st, f, fuel);
  }

  lemma {:induction false} StartIsQuiet(e: Expr, st: State, f: Outside, fuel: nat)
    requires hide *; e.Chain? && ConsumerRemovable(e.consumer)
    ensures Quiet(EvalStart(e, st, f, fuel), st, false)
    decreases e, 0
  {
    hide Removable, Eval;
    if e.consumer.Fold? {
      RemovableIsQuiet(e.consumer.init, false, st, f, fuel);
    }
  }

  /**
   * An expression judged removable outside any closure has a value and no effect: it does not trap, exit,
   * loop, change a variable or act on the outside.
   */
  lemma RemovableIsSilent(e: Expr, st: State, f: Outside, fuel: nat)
    requires hide *; Removable(e, false)
    ensures var r := Eval(e, st, f, fuel); r.Stuck? || (r.Done? && r.st == st)
  {
    hide Eval, Removable;
    RemovableIsQuiet(e, false, st, f, fuel);
  }
}
