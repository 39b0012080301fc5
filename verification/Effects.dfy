/** A larger source language, in which expressions can trap, exit, change variables and act on the outside. */
module Effects {
  import opened Wrappers
  import R = RuaLang

  /** The built-in operators; division and remainder trap on zero. */
  datatype Op = Plain(op: R.BinOp) | Div | Rem

  /** The methods of strings that are built in and only look at the string. */
  datatype StringOp = Len | IsEmpty | ToString | ToOwned | Clone

  /** Forms whose value is built from their operands' values alone. */
  datatype Kind =
    | VecLit
    | MapLit
    | RangeLit(inclusive: bool)
    | StructLit(names: seq<string>)
    | VariantCall(tag: R.Tag)
    | SomeCall
    | ResultCall(ok: bool)
    | StringMethod(m: StringOp)

  datatype Closure = Closure(params: seq<string>, body: Expr)

  datatype Adapter =
    | Map(k: Closure)
    | Filter(k: Closure)
    | FilterMap(k: Closure)
    | Enumerate
    | Skip(limit: Expr)
    | Take(limit: Expr)
    | Rev

  datatype Consumer =
    | Collect
    | Fold(init: Expr, k: Closure)
    | Count
    | Any(k: Closure)
    | All(k: Closure)
    | Find(k: Closure)
    | Next

  /** User-defined operators are calls, and so are methods and functions that are not built in. */
  datatype Expr =
    | Lit(value: R.Val)
    | Path(name: string)
    | ClosureExpr(closure: Closure)
    | Make(kind: Kind, operands: seq<Expr>)
    | Unary(uop: R.UnOp, operand: Expr)
    | Binary(bop: Op, lhs: Expr, rhs: Expr)
    | Invoke(k: Closure, args: seq<Expr>)
    | Call(callee: string, args: seq<Expr>)
    | OptionMap(receiver: Expr, k: Closure)
    | Chain(source: Expr, adapters: seq<Adapter>, consumer: Consumer)
    | If(cond: Expr, thn: Block, els: Option<Expr>)
    | BlockExpr(block: Block)
    | Match(scrut: Expr, arms: seq<Arm>)
    | Index(base: Expr, index: Expr)
    | Try(isResult: bool, inner: Expr)
    | Loop(body: Block)
    | Assign(target: string, rhs: Expr)

  datatype Arm = Arm(pats: seq<R.Pattern>, guard: Option<Expr>, body: Expr)

  datatype Block = Block(stmts: seq<Stmt>, tail: Option<Expr>)

  datatype Stmt =
    | Let(name: string, init: Expr)
    | ExprStmt(e: Expr)
    | Return(result: Option<Expr>)
    | While(cond: Expr, body: Block)
    | Break(result: Option<Expr>)
    | Raw(code: string)

  // ---- states and results ----

  /** Variables, and everything outside the function that calls can change. */
  datatype State = State(env: R.Env, out: seq<string>)

  datatype Result =
    | Done(v: R.Val, st: State)
    | Brk(v: R.Val, st: State)
    | Ret(v: R.Val, st: State)
    | Panic
    | Stuck
    | OutOfFuel

  datatype Reply = Returns(v: R.Val, out: seq<string>) | Fails

  /** What calls and raw code do to the outside, and what they return. */
  type Outside = (string, seq<R.Val>, seq<string>) -> Reply

  function Leave(r: Result, depth: nat): Result {
    match r
    case Done(v, st) => if depth <= |st.env| then Done(v, State(st.env[..depth], st.out)) else Stuck
    case Brk(v, st) => if depth <= |st.env| then Brk(v, State(st.env[..depth], st.out)) else Stuck
    case Ret(v, st) => if depth <= |st.env| then Ret(v, State(st.env[..depth], st.out)) else Stuck
    case _ => r
  }

  function FromOption(v: Option<R.Val>, st: State): Result {
    match v case None => Stuck case Some(w) => Done(w, st)
  }

  // ---- values ----

  /** A closure that is not called where it is written is an opaque value here. */
  const CLOSURE: R.Val := R.RecordVal(None, [])

  /** Division truncates toward zero. */
  function Quotient(m: int, n: int): int
    requires n != 0
  {
    var q := (if m < 0 then -m else m) / (if n < 0 then -n else n);
    if (m < 0) == (n < 0) then q else -q
  }

  function Divide(op: Op, a: R.Val, b: R.Val, st: State): Result {
    if !a.IntVal? || !b.IntVal? then Stuck
    else if b.n == 0 then Panic
    else if op == Div then Done(R.IntVal(R.Wrap(Quotient(a.n, b.n))), st)
    else Done(R.IntVal(a.n - b.n * Quotient(a.n, b.n)), st)
  }

  function Fields(names: seq<string>, vs: seq<R.Val>): seq<R.FieldVal>
    requires |names| == |vs|
  {
    if names == [] then [] else [R.FieldVal(names[0], vs[0])] + Fields(names[1..], vs[1..])
  }

  function Build(kind: Kind, vs: seq<R.Val>): Option<R.Val> {
    match kind
    case VecLit => Some(R.VecVal(vs))
    case MapLit => Some(R.VecVal(vs))
    case RangeLit(inclusive) => if |vs| == 2 then Some(R.RecordVal(None, [R.FieldVal("start", vs[0]), R.FieldVal("end", vs[1]), R.FieldVal("inclusive", R.BoolVal(inclusive))])) else None
    case StructLit(names) => if |names| == |vs| then Some(R.RecordVal(None, Fields(names, vs))) else None
    case VariantCall(tag) => Some(R.VariantVal(tag, vs))
    case SomeCall => if |vs| == 1 && !R.NilLike(vs[0]) then Some(R.SomeVal(vs[0])) else None
    case ResultCall(ok) => if |vs| == 1 then Some(R.ResultVal(ok, vs[0])) else None
    case StringMethod(m) =>
      if |vs| == 0 || !vs[0].StrVal? then None
      else if m.Len? then Some(R.IntVal(|vs[0].s|))
      else if m.IsEmpty? then Some(R.BoolVal(vs[0].s == ""))
      else Some(vs[0])
  }

  function Params(names: seq<string>, vs: seq<R.Val>): R.Env
    requires |names| == |vs|
  {
    if names == [] then [] else [R.Slot(names[0], vs[0])] + Params(names[1..], vs[1..])
  }

  function Count01(ads: seq<Adapter>): nat {
    if ads == [] then 0 else (if ads[0].Rev? then 1 else 0) + Count01(ads[1..])
  }

  function Reverse(vs: seq<R.Val>): seq<R.Val> {
    if vs == [] then [] else Reverse(vs[1..]) + [vs[0]]
  }

  function Ints(lo: int, hi: int): seq<R.Val>
    decreases hi - lo
  {
    if lo >= hi then [] else [R.IntVal(lo)] + Ints(lo + 1, hi)
  }

  /** The items of a vector or of a range. */
  function ItemsOf(v: R.Val): Option<seq<R.Val>> {
    match v
    case VecVal(elems) => Some(elems)
    case RecordVal(None, fields) =>
      if |fields| == 3 && fields[0].value.IntVal? && fields[1].value.IntVal? && fields[2].value.BoolVal? then
        Some(Ints(fields[0].value.n, fields[1].value.n + if fields[2].value.b then 1 else 0))
      else None
    case _ => None
  }

  // ---- evaluation ----

  datatype Args = Values(vs: seq<R.Val>, st: State) | Other(r: Result)

  function Eval(e: Expr, st: State, f: Outside, fuel: nat): Result
    decreases fuel, e, 5, 0
  {
    hide *;
    match e
    case Lit(v) => Done(v, st)
    case Path(x) => FromOption(R.Get(st.env, x), st)
    case ClosureExpr(_) => Done(CLOSURE, st)
    case Make(kind, operands) =>
      var r := EvalAll(operands, st, f, fuel);
      if r.Values? then FromOption(Build(kind, r.vs), r.st) else r.r
    case Unary(op, operand) =>
      var r := Eval(operand, st, f, fuel);
      if r.Done? then FromOption(R.ApplyUnary(op, r.v), r.st) else r
    case Binary(op, lhs, rhs) =>
      var a := Eval(lhs, st, f, fuel);
      if !a.Done? then a
      else if op == Plain(R.And) || op == Plain(R.Or) then
        if !a.v.BoolVal? then Stuck
        else if a.v.b == (op == Plain(R.Or)) then a
        else
          var b := Eval(rhs, a.st, f, fuel);
          if b.Done? && !b.v.BoolVal? then Stuck else b
      else if op == Plain(R.Coalesce) then
        (match a.v
         case NoneVal => Eval(rhs, a.st, f, fuel)
         case SomeVal(w) => Done(w, a.st)
         case _ => Stuck)
      else
        var b := Eval(rhs, a.st, f, fuel);
        if !b.Done? then b
        else if op.Plain? then FromOption(R.ApplyBinary(op.op, a.v, b.v), b.st)
        else Divide(op, a.v, b.v, b.st)
    case Invoke(k, args) =>
      var r := EvalAll(args, st, f, fuel);
      if r.Values? then Enter(k, r.vs, r.st, f, fuel) else r.r
    case Call(callee, args) =>
      var r := EvalAll(args, st, f, fuel);
      if !r.Values? then r.r
      else
        (match f(callee, r.vs, r.st.out)
         case Returns(v, out) => Done(v, State(r.st.env, out))
         case Fails => Panic)
    case OptionMap(receiver, k) =>
      var r := Eval(receiver, st, f, fuel);
      if !r.Done? then r
      else
        (match r.v
         case NoneVal => r
         case SomeVal(w) =>
           var m := Enter(k, [w], r.st, f, fuel);
           if m.Done? then FromOption(Build(SomeCall, [m.v]), m.st) else m
         case _ => Stuck)
    case Chain(source, adapters, consumer) => EvalChain(e, st, f, fuel)
    case If(cond, thn, els) =>
      var c := Eval(cond, st, f, fuel);
      if !c.Done? then c
      else if !c.v.BoolVal? then Stuck
      else if c.v.b then EvalBlock(thn, c.st, f, fuel)
      else EvalOption(els, c.st, f, fuel)
    case BlockExpr(b) => EvalBlock(b, st, f, fuel)
    case Match(scrut, arms) =>
      var r := Eval(scrut, st, f, fuel);
      if r.Done? then EvalArms(arms, r.v, r.st, f, fuel) else r
    case Index(base, index) =>
      var a := Eval(base, st, f, fuel);
      if !a.Done? then a
      else
        var b := Eval(index, a.st, f, fuel);
        if !b.Done? then b
        else if !a.v.VecVal? || !b.v.IntVal? then Stuck
        else if 0 <= b.v.n < |a.v.elems| then Done(a.v.elems[b.v.n], b.st)
        else Panic
    case Try(isResult, inner) =>
      var r := Eval(inner, st, f, fuel);
      if !r.Done? then r
      else if isResult then
        if !r.v.ResultVal? then Stuck else if r.v.ok then Done(r.v.payload, r.st) else Ret(r.v, r.st)
      else
        (match r.v case SomeVal(w) => Done(w, r.st) case NoneVal => Ret(R.NoneVal, r.st) case _ => Stuck)
    case Loop(body) => EvalLoop(body, st, f, fuel)
    case Assign(x, rhs) =>
      var r := Eval(rhs, st, f, fuel);
      if !r.Done? then r
      else if R.Get(r.st.env, x).None? then Stuck
      else Done(R.UnitVal, State(R.Set(r.st.env, x, r.v), r.st.out))
  }

  function EvalAll(es: seq<Expr>, st: State, f: Outside, fuel: nat): Args
    decreases fuel, es, 5, 0
  {
    hide *;
    if es == [] then Values([], st)
    else
      var first := Eval(es[0], st, f, fuel);
      if !first.Done? then Other(first)
      else
        var rest := EvalAll(es[1..], first.st, f, fuel);
        if rest.Values? then Values([first.v] + rest.vs, rest.st) else rest
  }

  function EvalOption(e: Option<Expr>, st: State, f: Outside, fuel: nat): Result
    decreases fuel, e, 5, 0
  {
    hide *;
    if e.None? then Done(R.UnitVal, st) else Eval(e.value, st, f, fuel)
  }

  /** Calling a closure: `return` leaves the closure and nothing else; `break` cannot leave it. */
  function Enter(k: Closure, vs: seq<R.Val>, st: State, f: Outside, fuel: nat): Result
    decreases fuel, k, 5, 0
  {
    hide *;
    if |vs| != |k.params| then Stuck
    else
      match Leave(Eval(k.body, State(st.env + Params(k.params, vs), st.out), f, fuel), |st.env|)
      case Ret(v, after) => Done(v, after)
      case Brk(_, _) => Stuck
      case r => r
  }

  function EvalArms(arms: seq<Arm>, v: R.Val, st: State, f: Outside, fuel: nat): Result
    decreases fuel, arms, 5, 0
  {
    hide *;
    if arms == [] then Panic
    else match R.MatchArm(arms[0].pats, v)
      case IllTyped => Stuck
      case No => EvalArms(arms[1..], v, st, f, fuel)
      case Yes(binds) =>
        var g := EvalGuard(arms[0], State(st.env + binds, st.out), f, fuel);
        if !g.Done? then Leave(g, |st.env|)
        else if !g.v.BoolVal? || |g.st.env| < |st.env| then Stuck
        else if g.v.b then Leave(EvalBody(arms[0], g.st, f, fuel), |st.env|)
        else EvalArms(arms[1..], v, State(g.st.env[..|st.env|], g.st.out), f, fuel)
  }

  function EvalGuard(arm: Arm, st: State, f: Outside, fuel: nat): Result
    decreases fuel, arm, 5, 0
  {
    hide *;
    if arm.guard.None? then Done(R.BoolVal(true), st) else Eval(arm.guard.value, st, f, fuel)
  }

  function EvalBody(arm: Arm, st: State, f: Outside, fuel: nat): Result
    decreases fuel, arm, 5, 0
  {
    hide *;
    Eval(arm.body, st, f, fuel)
  }

  function EvalBlock(b: Block, st: State, f: Outside, fuel: nat): Result
    decreases fuel, b, 5, 0
  {
    hide *;
    var r := EvalStmts(b.stmts, st, f, fuel);
    Leave(if r.Done? then EvalOption(b.tail, r.st, f, fuel) else r, |st.env|)
  }

  function EvalStmts(stmts: seq<Stmt>, st: State, f: Outside, fuel: nat): Result
    decreases fuel, stmts, 5, 0
  {
    hide *;
    if stmts == [] then Done(R.UnitVal, st)
    else
      var r := EvalStmt(stmts[0], st, f, fuel);
      if r.Done? then EvalStmts(stmts[1..], r.st, f, fuel) else r
  }

  function EvalStmt(s: Stmt, st: State, f: Outside, fuel: nat): Result
    decreases fuel, s, 5, 0
  {
    hide *;
    match s
    case Let(x, init) =>
      var r := Eval(init, st, f, fuel);
      if r.Done? then Done(R.UnitVal, State(r.st.env + [R.Slot(x, r.v)], r.st.out)) else r
    case ExprStmt(e) => Eval(e, st, f, fuel)
    case Return(result) =>
      var r := EvalOption(result, st, f, fuel);
      if r.Done? then Ret(r.v, r.st) else r
    case While(cond, body) => EvalWhile(cond, body, st, f, fuel)
    case Break(result) =>
      var r := EvalOption(result, st, f, fuel);
      if r.Done? then Brk(r.v, r.st) else r
    case Raw(code) =>
      (match f(code, [], st.out)
       case Returns(v, out) => Done(v, State(st.env, out))
       case Fails => Panic)
  }

  function EvalLoop(body: Block, st: State, f: Outside, fuel: nat): Result
    decreases fuel, body, 6, 0
  {
    hide *;
    if fuel == 0 then OutOfFuel
    else
      match EvalBlock(body, st, f, fuel - 1)
      case Done(_, next) => EvalLoop(body, next, f, fuel - 1)
      case Brk(v, next) => Done(v, next)
      case r => r
  }

  function EvalWhile(cond: Expr, body: Block, st: State, f: Outside, fuel: nat): Result
    decreases fuel, cond, 6, 0
  {
    hide *;
    if fuel == 0 then OutOfFuel
    else
      var c := Eval(cond, st, f, fuel);
      if !c.Done? then c
      else if !c.v.BoolVal? then Stuck
      else if !c.v.b then Done(R.UnitVal, c.st)
      else
        match EvalBlock(body, c.st, f, fuel - 1)
        case Done(_, next) => EvalWhile(cond, body, next, f, fuel - 1)
        case Brk(_, next) => Done(R.UnitVal, next)
        case r => r
  }

  // ---- iterator chains: each item goes through all adapters before the next is looked at ----

  /** Source, then limits, then the starting value; then item after item. */
  function EvalChain(e: Expr, st: State, f: Outside, fuel: nat): Result
    requires hide *; e.Chain?
    decreases fuel, e, 4, 0
  {
    hide *;
    var src := Eval(e.source, st, f, fuel);
    if !src.Done? then src
    else if ItemsOf(src.v).None? then Stuck
    else
      var limits := EvalLimits(e, 0, src.st, f, fuel);
      if !limits.Values? then limits.r
      else if |limits.vs| != |e.adapters| then Stuck
      else
        var start := EvalStart(e, limits.st, f, fuel);
        if !start.Done? then start
        else
          var items := ItemsOf(src.v).value;
          RunItems(e, if Count01(e.adapters) % 2 == 1 then Reverse(items) else items, limits.vs, Zeros(|e.adapters|), start.v, start.st, f, fuel)
  }

  function Zeros(n: nat): (r: seq<int>)
    ensures |r| == n
  {
    if n == 0 then [] else [0] + Zeros(n - 1)
  }

  function EvalLimits(e: Expr, i: nat, st: State, f: Outside, fuel: nat): Args
    requires hide *; e.Chain? && i <= |e.adapters|
    decreases fuel, e, 3, |e.adapters| - i
  {
    hide *;
    if i == |e.adapters| then Values([], st)
    else
      var first := EvalLimit(e.adapters[i], st, f, fuel);
      if !first.Done? then Other(first)
      else
        var rest := EvalLimits(e, i + 1, first.st, f, fuel);
        if rest.Values? then Values([first.v] + rest.vs, rest.st) else rest
  }

  function EvalLimit(ad: Adapter, st: State, f: Outside, fuel: nat): Result
    decreases fuel, ad, 5, 0
  {
    hide *;
    if ad.Skip? || ad.Take? then Eval(ad.limit, st, f, fuel) else Done(R.IntVal(0), st)
  }

  function EvalStart(e: Expr, st: State, f: Outside, fuel: nat): Result
    requires hide *; e.Chain?
    decreases fuel, e, 3, 0
  {
    hide *;
    match e.consumer
    case Collect => Done(R.VecVal([]), st)
    case Fold(init, _) => Eval(init, st, f, fuel)
    case Count => Done(R.IntVal(0), st)
    case Any(_) => Done(R.BoolVal(false), st)
    case All(_) => Done(R.BoolVal(true), st)
    case _ => Done(R.NoneVal, st)
  }

  /** What becomes of an item: it reaches the consumer, is dropped, ends the loop, or leaves it abruptly. */
  datatype Pushed = Passed(v: R.Val, counts: seq<int>, st: State) | Dropped(counts: seq<int>, st: State) | Stopped(st: State) | Exit(r: Result)

  function Push(e: Expr, i: nat, v: R.Val, limits: seq<R.Val>, counts: seq<int>, st: State, f: Outside, fuel: nat): Pushed
    requires hide *; e.Chain? && i <= |e.adapters| && |limits| == |e.adapters| && |counts| == |e.adapters|
    decreases fuel, e, 1, |e.adapters| - i
  {
    hide *;
    if i == |e.adapters| then Passed(v, counts, st)
    else
      match Through(e.adapters[i], v, limits[i], counts[i], st, f, fuel)
      case On(w, n, next) => Push(e, i + 1, w, limits, counts[i := n], next, f, fuel)
      case Gone(n, next) => Dropped(counts[i := n], next)
      case End(next) => Stopped(next)
      case Abrupt(r) => Exit(r)
  }

  datatype Staged = On(v: R.Val, count: int, st: State) | Gone(count: int, st: State) | End(st: State) | Abrupt(r: Result)

  /** One adapter and one item. */
  function Through(ad: Adapter, v: R.Val, limit: R.Val, count: int, st: State, f: Outside, fuel: nat): Staged
    decreases fuel, ad, 6, 0
  {
    hide *;
    match ad
    case Map(k) =>
      var r := Enter(k, [v], st, f, fuel);
      if r.Done? then On(r.v, count, r.st) else Abrupt(r)
    case Filter(k) =>
      var r := Enter(k, [v], st, f, fuel);
      if !r.Done? then Abrupt(r) else if !r.v.BoolVal? then Abrupt(Stuck) else if r.v.b then On(v, count, r.st) else Gone(count, r.st)
    case FilterMap(k) =>
      var r := Enter(k, [v], st, f, fuel);
      if !r.Done? then Abrupt(r)
      else (match r.v case SomeVal(w) => On(w, count, r.st) case NoneVal => Gone(count, r.st) case _ => Abrupt(Stuck))
    case Enumerate => On(R.VecVal([R.IntVal(count), v]), count + 1, st)
    case Skip(_) => if !limit.IntVal? then Abrupt(Stuck) else if count < limit.n then Gone(count + 1, st) else On(v, count, st)
    case Take(_) => if !limit.IntVal? then Abrupt(Stuck) else if count >= limit.n then End(st) else On(v, count + 1, st)
    case Rev => On(v, count, st)
  }

  datatype Sunk = More(acc: R.Val, st: State) | Last(acc: R.Val, st: State) | Broken(r: Result)

  function Sink(cons: Consumer, acc: R.Val, v: R.Val, st: State, f: Outside, fuel: nat): Sunk
    decreases fuel, cons, 6, 0
  {
    hide *;
    match cons
    case Collect => if acc.VecVal? then More(R.VecVal(acc.elems + [v]), st) else Broken(Stuck)
    case Fold(_, k) =>
      var r := Enter(k, [acc, v], st, f, fuel);
      if r.Done? then More(r.v, r.st) else Broken(r)
    case Count => if acc.IntVal? then More(R.IntVal(R.Wrap(acc.n + 1)), st) else Broken(Stuck)
    case Any(k) =>
      var r := Enter(k, [v], st, f, fuel);
      if !r.Done? then Broken(r) else if !r.v.BoolVal? then Broken(Stuck) else if r.v.b then Last(R.BoolVal(true), r.st) else More(acc, r.st)
    case All(k) =>
      var r := Enter(k, [v], st, f, fuel);
      if !r.Done? then Broken(r) else if !r.v.BoolVal? then Broken(Stuck) else if r.v.b then More(acc, r.st) else Last(R.BoolVal(false), r.st)
    case Find(k) =>
      var r := Enter(k, [v], st, f, fuel);
      if !r.Done? then Broken(r) else if !r.v.BoolVal? then Broken(Stuck)
      else if !r.v.b then More(acc, r.st) else if R.NilLike(v) then Broken(Stuck) else Last(R.SomeVal(v), r.st)
    case Next => if R.NilLike(v) then Broken(Stuck) else Last(R.SomeVal(v), st)
  }

  function RunItems(e: Expr, items: seq<R.Val>, limits: seq<R.Val>, counts: seq<int>, acc: R.Val, st: State, f: Outside, fuel: nat): Result
    requires hide *; e.Chain? && |limits| == |e.adapters| && |counts| == |e.adapters|
    decreases fuel, e, 2, |items|
  {
    hide *;
    if items == [] then Done(acc, st)
    else
      match Push(e, 0, items[0], limits, counts, st, f, fuel)
      case Exit(r) => r
      case Stopped(next) => Done(acc, next)
      case Dropped(counts', next) => if |counts'| != |e.adapters| then Stuck else RunItems(e, items[1..], limits, counts', acc, next, f, fuel)
      case Passed(w, counts', next) =>
        (match Sink(e.consumer, acc, w, next, f, fuel)
         case Broken(r) => r
         case Last(x, after) => Done(x, after)
         case More(x, after) => if |counts'| != |e.adapters| then Stuck else RunItems(e, items[1..], limits, counts', x, after, f, fuel))
  }
}
