/** The expression language that is lowered: its syntax and what evaluating it means. */
module RuaLang {
  import opened Wrappers

  datatype UnOp = Neg | Not

  /** Concat is `+` on strings, which the type checker tells apart from `+` on integers. */
  datatype BinOp = Add | Sub | Mul | Concat | Eq | Ne | Lt | Le | Gt | Ge | And | Or | Coalesce

  /** A variant of an enum, together with the names of all the enum's variants. */
  datatype RawTag = RawTag(name: string, siblings: set<string>)

  type Tag = t: RawTag | t.name in t.siblings witness RawTag("A", {"A"})

  datatype Pattern =
    | Wildcard
    | Binding(name: string)
    | Literal(value: Val)
    | Range(lo: int, hi: int, inclusive: bool)
    | OptionPat(some: bool, payload: Option<Pattern>)
    | ResultPat(ok: bool, payload: Option<Pattern>)
    | TuplePat(tag: Tag, elems: seq<Pattern>)
    | StructPat(variant: Option<Tag>, fields: seq<FieldPat>)

  datatype FieldPat = FieldPat(name: string, pattern: Pattern)

  datatype Expr =
    | Lit(value: Val)
    | Path(name: string)
    | Unary(op: UnOp, operand: Expr)
    | Binary(bop: BinOp, lhs: Expr, rhs: Expr)
    | Call(function_: string, args: seq<Expr>)
    | SomeCall(payload: Expr)
    | ResultCall(ok: bool, payload: Expr)
    | VariantCall(tag: Tag, args: seq<Expr>)
    | If(cond: Expr, thn: Block, els: Option<Else>)
    | IfLet(pat: Pattern, subject: Expr, thn: Block, els: Option<Else>)
    | BlockExpr(block: Block)
    | Match(scrut: Expr, arms: seq<Arm>)
    | Loop(body: Block)
    | Try(isResult: bool, inner: Expr)
    | Assign(aop: Option<BinOp>, target: string, rhs: Expr)

  datatype Else = ElseBlock(block: Block) | ElseIf(e: Expr)

  datatype Arm = Arm(pats: seq<Pattern>, guard: Option<Expr>, body: Expr)

  datatype Block = Block(stmts: seq<Stmt>, tail: Option<Expr>)

  datatype Stmt =
    | Let(name: string, init: Expr)
    | ExprStmt(e: Expr)
    | Return(result: Option<Expr>)
    | While(cond: Expr, body: Block)
    | LoopStmt(body: Block)
    | Break(result: Option<Expr>)

  // ---- values ----

  datatype Val =
    | IntVal(n: int)
    | BoolVal(b: bool)
    | StrVal(s: string)
    | UnitVal
    | NoneVal
    | SomeVal(payload: Val)
    | ResultVal(ok: bool, payload: Val)
    | VariantVal(tag: Tag, items: seq<Val>)
    | RecordVal(rtag: Option<Tag>, fields: seq<FieldVal>)
    | VecVal(elems: seq<Val>)

  datatype FieldVal = FieldVal(name: string, value: Val)

  const MIN_INT: int := -0x8000_0000_0000_0000

  function Wrap(n: int): int {
    (n - MIN_INT) % 0x1_0000_0000_0000_0000 + MIN_INT
  }

  // ---- environments ----

  datatype Slot = Slot(name: string, value: Val)

  /** Variables in scope, oldest first. */
  type Env = seq<Slot>

  function Names(env: Env): set<string> {
    set i | 0 <= i < |env| :: env[i].name
  }

  function Get(env: Env, x: string): Option<Val> {
    if env == [] then None
    else if env[|env| - 1].name == x then Some(env[|env| - 1].value)
    else Get(env[..|env| - 1], x)
  }

  function Set(env: Env, x: string, v: Val): Env {
    if env == [] then env
    else if env[|env| - 1].name == x then env[..|env| - 1] + [Slot(x, v)]
    else Set(env[..|env| - 1], x, v) + [env[|env| - 1]]
  }

  // ---- patterns ----

  datatype Matched = Yes(binds: seq<Slot>) | No | IllTyped

  function FieldOf(fields: seq<FieldVal>, name: string): Option<Val> {
    if fields == [] then None
    else if fields[|fields| - 1].name == name then Some(fields[|fields| - 1].value)
    else FieldOf(fields[..|fields| - 1], name)
  }

  function AndThen(a: Matched, b: Matched): Matched {
    if a.Yes? && b.Yes? then Yes(a.binds + b.binds) else if a.Yes? then b else a
  }

  predicate SameKind(a: Val, b: Val) {
    (a.IntVal? && b.IntVal?) || (a.BoolVal? && b.BoolVal?) || (a.StrVal? && b.StrVal?)
  }

  /** Sub-patterns are tried left to right and the first failure decides. */
  function MatchPattern(p: Pattern, v: Val): Matched
    decreases p
  {
    match p
    case Wildcard => Yes([])
    case Binding(x) => Yes([Slot(x, v)])
    case Literal(w) => if !SameKind(v, w) then IllTyped else if v == w then Yes([]) else No
    case Range(lo, hi, inclusive) =>
      if !v.IntVal? then IllTyped
      else if lo <= v.n && (if inclusive then v.n <= hi else v.n < hi) then Yes([]) else No
    case OptionPat(some, payload) =>
      if !v.SomeVal? && !v.NoneVal? then IllTyped
      else if some != v.SomeVal? then No
      else if v.SomeVal? && payload.Some? then MatchPattern(payload.value, v.payload) else Yes([])
    case ResultPat(ok, payload) =>
      if !v.ResultVal? then IllTyped
      else if ok != v.ok then No
      else if payload.Some? then MatchPattern(payload.value, v.payload) else Yes([])
    case TuplePat(tag, elems) =>
      if TagOf(v).None? || TagOf(v).value.siblings != tag.siblings then IllTyped
      else if TagOf(v).value != tag then No
      else if !v.VariantVal? || |elems| > |v.items| then IllTyped
      else MatchAll(elems, v.items)
    case StructPat(None, fields) =>
      if v.RecordVal? && v.rtag.None? then MatchFields(fields, v.fields) else IllTyped
    case StructPat(Some(tag), fields) =>
      if TagOf(v).None? || TagOf(v).value.siblings != tag.siblings then IllTyped
      else if TagOf(v).value != tag then No
      else if !v.RecordVal? then IllTyped
      else MatchFields(fields, v.fields)
  }

  function TagOf(v: Val): Option<Tag> {
    match v
    case VariantVal(tag, _) => Some(tag)
    case RecordVal(tag, _) => tag
    case _ => None
  }

  function MatchAll(ps: seq<Pattern>, vs: seq<Val>): Matched
    requires |ps| <= |vs|
    decreases ps
  {
    if ps == [] then Yes([]) else AndThen(MatchPattern(ps[0], vs[0]), MatchAll(ps[1..], vs[1..]))
  }

  function MatchFields(ps: seq<FieldPat>, fields: seq<FieldVal>): Matched
    decreases ps
  {
    if ps == [] then Yes([])
    else
      var v := FieldOf(fields, ps[0].name);
      AndThen(if v.None? then IllTyped else MatchField(ps[0], v.value), MatchFields(ps[1..], fields))
  }

  function MatchField(p: FieldPat, v: Val): Matched
    decreases p
  {
    MatchPattern(p.pattern, v)
  }

  /** Alternatives of an or-pattern; they bind nothing. */
  function MatchAny(ps: seq<Pattern>, v: Val): Matched
    decreases ps
  {
    if ps == [] then No
    else
      var first := MatchPattern(ps[0], v);
      if first.No? then MatchAny(ps[1..], v) else if first.Yes? then Yes([]) else first
  }

  function MatchArm(ps: seq<Pattern>, v: Val): Matched {
    if |ps| == 1 then MatchPattern(ps[0], v) else MatchAny(ps, v)
  }

  /** The value has the type the pattern's root asks for; the type checker rejects anything else. */
  predicate RootFits(p: Pattern, v: Val) {
    match p
    case Wildcard => true
    case Binding(_) => true
    case Literal(w) => SameKind(v, w)
    case Range(_, _, _) => v.IntVal?
    case OptionPat(_, _) => v.SomeVal? || v.NoneVal?
    case ResultPat(_, _) => v.ResultVal?
    case TuplePat(tag, _) => TagOf(v).Some? && TagOf(v).value.siblings == tag.siblings
    case StructPat(Some(tag), _) => TagOf(v).Some? && TagOf(v).value.siblings == tag.siblings
    case StructPat(None, _) => v.RecordVal? && v.rtag.None?
  }

  predicate ArmsFit(arms: seq<Arm>, v: Val) {
    forall i, j :: 0 <= i < |arms| && 0 <= j < |arms[i].pats| ==> RootFits(arms[i].pats[j], v)
  }

  // ---- operators ----

  function ApplyUnary(op: UnOp, v: Val): Option<Val> {
    match op
    case Not => if v.BoolVal? then Some(BoolVal(!v.b)) else None
    case Neg => if v.IntVal? then Some(IntVal(Wrap(-v.n))) else None
  }

  function ApplyInts(op: BinOp, m: int, n: int): Option<Val> {
    match op
    case Add => Some(IntVal(Wrap(m + n)))
    case Sub => Some(IntVal(Wrap(m - n)))
    case Mul => Some(IntVal(Wrap(m * n)))
    case Lt => Some(BoolVal(m < n))
    case Le => Some(BoolVal(m <= n))
    case Gt => Some(BoolVal(m > n))
    case Ge => Some(BoolVal(m >= n))
    case _ => None
  }

  /** Operators that need both operands. */
  function ApplyBinary(op: BinOp, a: Val, b: Val): Option<Val> {
    if op == Eq then (if SameKind(a, b) then Some(BoolVal(a == b)) else None)
    else if op == Ne then (if SameKind(a, b) then Some(BoolVal(a != b)) else None)
    else if op == Concat then (if a.StrVal? && b.StrVal? then Some(StrVal(a.s + b.s)) else None)
    else if a.IntVal? && b.IntVal? then ApplyInts(op, a.n, b.n)
    else None
  }

  // ---- evaluation ----

  /**
   * Brk and Ret carry the value a `break` or `return` (or `?`) hands on. Panic is a match that no
   * arm accepts. Stuck is a program the type checker would have rejected.
   */
  datatype Result = Done(v: Val, env: Env) | Brk(v: Val, env: Env) | Ret(v: Val) | Panic | Stuck | OutOfFuel

  /** Pure functions of the program, by name. */
  type Functions = (string, seq<Val>) -> Option<Val>

  /** Leaving a scope forgets the variables it declared. */
  function Leave(r: Result, depth: nat): Result {
    match r
    case Done(v, env) => if depth <= |env| then Done(v, env[..depth]) else Stuck
    case Brk(v, env) => if depth <= |env| then Brk(v, env[..depth]) else Stuck
    case _ => r
  }

  function FromOption(v: Option<Val>, env: Env): Result {
    match v case None => Stuck case Some(w) => Done(w, env)
  }

  /** `Some(x)` needs a payload that is not represented by nil. */
  predicate NilLike(v: Val) {
    v.UnitVal? || v.NoneVal?
  }

  function Eval(e: Expr, env: Env, f: Functions, fuel: nat): Result
    decreases fuel, e, 0, 0
  {
    hide *;
    match e
    case Lit(v) => Done(v, env)
    case Path(x) => FromOption(Get(env, x), env)
    case Unary(op, operand) =>
      var r := Eval(operand, env, f, fuel);
      if r.Done? then FromOption(ApplyUnary(op, r.v), r.env) else r
    case Binary(op, lhs, rhs) =>
      var a := Eval(lhs, env, f, fuel);
      if !a.Done? then a
      else if op == And || op == Or then
        if !a.v.BoolVal? then Stuck
        else if a.v.b == (op == Or) then a
        else
          var b := Eval(rhs, a.env, f, fuel);
          if b.Done? && !b.v.BoolVal? then Stuck else b
      else if op == Coalesce then
        (match a.v
         case NoneVal => Eval(rhs, a.env, f, fuel)
         case SomeVal(w) => Done(w, a.env)
         case _ => Stuck)
      else
        var b := Eval(rhs, a.env, f, fuel);
        if !b.Done? then b else FromOption(ApplyBinary(op, a.v, b.v), b.env)
    case Call(g, args) =>
      var r := EvalArgs(args, env, f, fuel);
      if r.Values? then FromOption(f(g, r.vs), r.env) else r.other
    case SomeCall(payload) =>
      var r := Eval(payload, env, f, fuel);
      if r.Done? then (if NilLike(r.v) then Stuck else Done(SomeVal(r.v), r.env)) else r
    case ResultCall(ok, payload) =>
      var r := Eval(payload, env, f, fuel);
      if r.Done? then Done(ResultVal(ok, r.v), r.env) else r
    case VariantCall(tag, args) =>
      var r := EvalArgs(args, env, f, fuel);
      if r.Values? then Done(VariantVal(tag, r.vs), r.env) else r.other
    case If(cond, thn, els) =>
      var c := Eval(cond, env, f, fuel);
      if !c.Done? then c
      else if !c.v.BoolVal? then Stuck
      else if c.v.b then EvalBlock(thn, c.env, f, fuel)
      else EvalElse(els, c.env, f, fuel)
    case IfLet(pat, subject, thn, els) =>
      var r := Eval(subject, env, f, fuel);
      if !r.Done? then r
      else
        (match MatchPattern(pat, r.v)
         case IllTyped => Stuck
         case No => EvalElse(els, r.env, f, fuel)
         case Yes(binds) => Leave(EvalBlock(thn, r.env + binds, f, fuel), |r.env|))
    case BlockExpr(b) => EvalBlock(b, env, f, fuel)
    case Match(scrut, arms) =>
      var r := Eval(scrut, env, f, fuel);
      if !r.Done? then r else if !ArmsFit(arms, r.v) then Stuck else EvalArms(arms, r.v, r.env, f, fuel)
    case Loop(body) => EvalLoop(body, env, f, fuel)
    case Try(isResult, inner) =>
      var r := Eval(inner, env, f, fuel);
      if !r.Done? then r
      else if isResult then
        if !r.v.ResultVal? then Stuck else if r.v.ok then Done(r.v.payload, r.env) else Ret(r.v)
      else
        (match r.v case SomeVal(w) => Done(w, r.env) case NoneVal => Ret(NoneVal) case _ => Stuck)
    case Assign(op, x, rhs) =>
      var r := Eval(rhs, env, f, fuel);
      if !r.Done? then r
      else
        var old_ := Get(r.env, x);
        if old_.None? then Stuck
        else if op.None? then Done(UnitVal, Set(r.env, x, r.v))
        else
          var v := ApplyBinary(op.value, old_.value, r.v);
          if v.None? then Stuck else Done(UnitVal, Set(r.env, x, v.value))
  }

  datatype ArgsResult = Values(vs: seq<Val>, env: Env) | Other(other: Result)

  function EvalArgs(args: seq<Expr>, env: Env, f: Functions, fuel: nat): ArgsResult
    decreases fuel, args, 0, 0
  {
    hide *;
    if args == [] then Values([], env)
    else
      var first := Eval(args[0], env, f, fuel);
      if !first.Done? then Other(first)
      else
        var rest := EvalArgs(args[1..], first.env, f, fuel);
        if rest.Values? then Values([first.v] + rest.vs, rest.env) else rest
  }

  function EvalElse(els: Option<Else>, env: Env, f: Functions, fuel: nat): Result
    decreases fuel, els, 0, 0
  {
    hide *;
    match els
    case None => Done(UnitVal, env)
    case Some(ElseBlock(b)) => EvalBlock(b, env, f, fuel)
    case Some(ElseIf(e)) => Eval(e, env, f, fuel)
  }

  function EvalArms(arms: seq<Arm>, v: Val, env: Env, f: Functions, fuel: nat): Result
    decreases fuel, arms, 0, 0
  {
    hide *;
    if arms == [] then Panic
    else match MatchArm(arms[0].pats, v)
      case IllTyped => Stuck
      case No => EvalArms(arms[1..], v, env, f, fuel)
      case Yes(binds) =>
        var g := EvalGuard(arms[0].guard, env + binds, f, fuel);
        if !g.Done? then Leave(g, |env|)
        else if !g.v.BoolVal? || |g.env| < |env| then Stuck
        else if g.v.b then Leave(EvalBody(arms[0], g.env, f, fuel), |env|)
        else EvalArms(arms[1..], v, g.env[..|env|], f, fuel)
  }

  function EvalGuard(guard: Option<Expr>, env: Env, f: Functions, fuel: nat): Result
    decreases fuel, guard, 0, 0
  {
    hide *;
    if guard.None? then Done(BoolVal(true), env) else Eval(guard.value, env, f, fuel)
  }

  function EvalBody(arm: Arm, env: Env, f: Functions, fuel: nat): Result
    decreases fuel, arm, 0, 0
  {
    hide *;
    Eval(arm.body, env, f, fuel)
  }

  function EvalBlock(b: Block, env: Env, f: Functions, fuel: nat): Result
    decreases fuel, b, 0, 0
  {
    hide *;
    var r := EvalStmts(b.stmts, env, f, fuel);
    if !r.Done? then Leave(r, |env|)
    else if b.tail.None? then Leave(Done(UnitVal, r.env), |env|)
    else Leave(Eval(b.tail.value, r.env, f, fuel), |env|)
  }

  function EvalStmts(stmts: seq<Stmt>, env: Env, f: Functions, fuel: nat): Result
    decreases fuel, stmts, 0, 0
  {
    hide *;
    if stmts == [] then Done(UnitVal, env)
    else
      var r := EvalStmt(stmts[0], env, f, fuel);
      if r.Done? then EvalStmts(stmts[1..], r.env, f, fuel) else r
  }

  function EvalStmt(s: Stmt, env: Env, f: Functions, fuel: nat): Result
    decreases fuel, s, 0, 0
  {
    hide *;
    match s
    case Let(x, init) =>
      var r := Eval(init, env, f, fuel);
      if r.Done? then Done(UnitVal, r.env + [Slot(x, r.v)]) else r
    case ExprStmt(e) =>
      var r := Eval(e, env, f, fuel);
      if r.Done? then Done(UnitVal, r.env) else r
    case Return(result) =>
      if result.None? then Ret(UnitVal)
      else
        var r := Eval(result.value, env, f, fuel);
        if r.Done? then Ret(r.v) else r
    case While(cond, body) => EvalWhile(cond, body, env, f, fuel)
    case LoopStmt(body) =>
      var r := EvalLoop(body, env, f, fuel);
      if r.Done? then Done(UnitVal, r.env) else r
    case Break(result) =>
      if result.None? then Brk(UnitVal, env)
      else
        var r := Eval(result.value, env, f, fuel);
        if r.Done? then Brk(r.v, r.env) else r
  }

  /** `loop`: its value is what `break` hands out. */
  function EvalLoop(body: Block, env: Env, f: Functions, fuel: nat): Result
    decreases fuel, body, 1, 0
  {
    hide *;
    if fuel == 0 then OutOfFuel
    else
      var r := EvalBlock(body, env, f, fuel - 1);
      match r
      case Done(_, next) => EvalLoop(body, next, f, fuel - 1)
      case Brk(v, next) => Done(v, next)
      case _ => r
  }

  function EvalWhile(cond: Expr, body: Block, env: Env, f: Functions, fuel: nat): Result
    decreases fuel, cond, 1, 0
  {
    hide *;
    if fuel == 0 then OutOfFuel
    else
      var c := Eval(cond, env, f, fuel);
      if !c.Done? then c
      else if !c.v.BoolVal? then Stuck
      else if !c.v.b then Done(UnitVal, c.env)
      else
        var r := EvalBlock(body, c.env, f, fuel - 1);
        match r
        case Done(_, next) => EvalWhile(cond, body, next, f, fuel - 1)
        case Brk(_, next) => Done(UnitVal, next)
        case _ => r
  }

  /** A function body, run in the scope of its parameters. */
  function EvalFunction(body: Block, params: Env, f: Functions, fuel: nat): Result {
    match EvalBlock(body, params, f, fuel)
    case Done(v, _) => Ret(v)
    case r => r
  }
}
