/** Lua statements as code generation emits them, and what running them does. */
module LuaRun {
  import opened Wrappers
  import opened LuaIr

  datatype Stmt =
    | Local(name: string, init: Option<Expr>)
    | Assign(target: Expr, value: Expr)
    | Expression(e: Expr)
    | Return(result: Option<Expr>)
    | Break
    | Do(body: seq<Stmt>)
    | While(cond: Expr, body: seq<Stmt>)
    | For(variable: string, start: Expr, stop: Expr, step: int, body: seq<Stmt>)
    | If(branches: seq<Branch>, els: seq<Stmt>)

  datatype Branch = Branch(cond: Expr, body: seq<Stmt>)

  // ---- values ----

  /** A table has an array part and named fields; tables are values here, never shared. */
  datatype Value =
    | NilV
    | BoolV(b: bool)
    | IntV(n: int)
    | StrV(s: string)
    | TableV(items: seq<Value>, named: map<string, Value>)

  const MIN_INT: int := -0x8000_0000_0000_0000
  const MAX_INT: int := 0x7fff_ffff_ffff_ffff

  /** Two's complement wrap-around to 64 bits. */
  function Wrap(n: int): int {
    (n - MIN_INT) % 0x1_0000_0000_0000_0000 + MIN_INT
  }

  predicate Truthy(v: Value) {
    v != NilV && v != BoolV(false)
  }

  /** Pure functions the chunk can call, by name; a missing result is a run-time error. */
  type Functions = (string, seq<Value>) -> Option<Value>

  // ---- local variables ----

  datatype Binding = Binding(name: string, value: Value)

  /** Declared locals, oldest first; a later declaration hides an earlier one of the same name. */
  type Store = seq<Binding>

  predicate Bound(s: Store, x: string) {
    exists i :: 0 <= i < |s| && s[i].name == x
  }

  function Lookup(s: Store, x: string): (r: Option<Value>)
    ensures r.Some? <==> Bound(s, x)
  {
    if s == [] then None
    else if s[|s| - 1].name == x then Some(s[|s| - 1].value)
    else Lookup(s[..|s| - 1], x)
  }

  function Update(s: Store, x: string, v: Value): (r: Store)
    ensures |r| == |s| && forall i :: 0 <= i < |s| ==> r[i].name == s[i].name
  {
    if s == [] then s
    else if s[|s| - 1].name == x then s[..|s| - 1] + [Binding(x, v)]
    else Update(s[..|s| - 1], x, v) + [s[|s| - 1]]
  }

  // ---- expressions ----

  function GetField(v: Value, name: string): Option<Value> {
    if !v.TableV? then None else Some(if name in v.named then v.named[name] else NilV)
  }

  function GetIndex(v: Value, i: Value): Option<Value> {
    if !v.TableV? then None
    else match i
      case IntV(n) => Some(if 1 <= n <= |v.items| then v.items[n - 1] else NilV)
      case StrV(name) => GetField(v, name)
      case _ => Some(NilV)
  }

  function EvalUnary(op: UnaryOp, v: Value): Option<Value> {
    match op
    case Not => Some(BoolV(!Truthy(v)))
    case Neg => if v.IntV? then Some(IntV(Wrap(-v.n))) else None
    case Len => if v.TableV? then Some(IntV(|v.items|)) else None
  }

  function EvalBinary(op: BinaryOp, a: Value, b: Value): Option<Value> {
    match op
    case Eq => if a.TableV? && b.TableV? then None else Some(BoolV(a == b))
    case Ne => if a.TableV? && b.TableV? then None else Some(BoolV(a != b))
    case Concat => if a.StrV? && b.StrV? then Some(StrV(a.s + b.s)) else None
    case Lt => if a.IntV? && b.IntV? then Some(BoolV(a.n < b.n)) else None
    case Le => if a.IntV? && b.IntV? then Some(BoolV(a.n <= b.n)) else None
    case Gt => if a.IntV? && b.IntV? then Some(BoolV(a.n > b.n)) else None
    case Ge => if a.IntV? && b.IntV? then Some(BoolV(a.n >= b.n)) else None
    case Add => if a.IntV? && b.IntV? then Some(IntV(Wrap(a.n + b.n))) else None
    case Sub => if a.IntV? && b.IntV? then Some(IntV(Wrap(a.n - b.n))) else None
    case Mul => if a.IntV? && b.IntV? then Some(IntV(Wrap(a.n * b.n))) else None
    case _ => None
  }

  /** None is a run-time error: an undeclared name, indexing a non-table, arithmetic on a non-number. */
  function Eval(e: Expr, s: Store, f: Functions): Option<Value>
    decreases e
  {
    hide *;
    match e
    case Nil => Some(NilV)
    case Bool(b) => Some(BoolV(b))
    case Integer(n) => Some(IntV(n))
    case Number(_) => None
    case Str(t) => Some(StrV(t))
    case Name(x) => Lookup(s, x)
    case Field(base, name) =>
      var b := Eval(base, s, f);
      if b.None? then None else GetField(b.value, name)
    case Index(base, index) =>
      var b := Eval(base, s, f);
      var i := Eval(index, s, f);
      if b.None? || i.None? then None else GetIndex(b.value, i.value)
    case Call(callee, args) =>
      var vs := EvalAll(args, s, f);
      if callee.Name? && callee.id != "error" && vs.Some? then f(callee.id, vs.value) else None
    case MethodCall(_, _, _) => None
    case Unary(op, operand) =>
      var v := Eval(operand, s, f);
      if v.None? then None else EvalUnary(op, v.value)
    case Binary(left, op, right) =>
      var a := Eval(left, s, f);
      if a.None? then None
      else if op == And then (if Truthy(a.value) then Eval(right, s, f) else a)
      else if op == Or then (if Truthy(a.value) then a else Eval(right, s, f))
      else
        var b := Eval(right, s, f);
        if b.None? then None else EvalBinary(op, a.value, b.value)
    case Table(fields) => EvalFields(fields, s, f)
    case Parenthesized(inner) => Eval(inner, s, f)
  }

  function EvalAll(es: seq<Expr>, s: Store, f: Functions): Option<seq<Value>>
    decreases es
  {
    hide *;
    if es == [] then Some([])
    else
      var v := Eval(es[0], s, f);
      var vs := EvalAll(es[1..], s, f);
      if v.None? || vs.None? then None else Some([v.value] + vs.value)
  }

  /** Positional fields fill the array part; a string key sets a named field. */
  function EvalFields(fs: seq<TableField>, s: Store, f: Functions): Option<Value>
    decreases fs
  {
    hide *;
    if fs == [] then Some(TableV([], map[]))
    else
      var rest := EvalFields(fs[..|fs| - 1], s, f);
      if rest.None? then None else AddField(rest.value, fs[|fs| - 1], s, f)
  }

  function AddField(t: Value, field: TableField, s: Store, f: Functions): Option<Value>
    decreases field
  {
    hide *;
    match field
    case Named(name, value) =>
      var v := Eval(value, s, f);
      if v.None? || !t.TableV? then None else Some(t.(named := t.named[name := v.value]))
    case Value(value) =>
      var v := Eval(value, s, f);
      if v.None? || !t.TableV? then None else Some(t.(items := t.items + [v.value]))
    case Indexed(_, _) => None
  }

  // ---- statements ----

  datatype Outcome =
    | Normal(store: Store)
    | Broke(store: Store)
    | Returned(result: Value)
    | Failed
    | OutOfFuel

  /** Leaving a block drops the locals it declared. */
  function Leave(r: Outcome, depth: nat): Outcome {
    match r
    case Normal(s) => if depth <= |s| then Normal(s[..depth]) else Failed
    case Broke(s) => if depth <= |s| then Broke(s[..depth]) else Failed
    case _ => r
  }

  function SetElement(t: Value, i: Value, v: Value): Option<Value> {
    if t.TableV? && i.IntV? && 1 <= i.n <= |t.items| then Some(t.(items := t.items[i.n - 1 := v]))
    else if t.TableV? && i.IntV? && i.n == |t.items| + 1 then Some(t.(items := t.items + [v]))
    else None
  }

  /** Storing into a variable, or into a field or element of the table a variable holds. */
  function Store1(target: Expr, v: Value, s: Store, f: Functions): Option<Store> {
    hide *;
    match target
    case Name(x) => if Bound(s, x) then Some(Update(s, x, v)) else None
    case Field(base, name) =>
      if base.Name? && Bound(s, base.id) && Lookup(s, base.id).value.TableV? then
        var t := Lookup(s, base.id).value;
        Some(Update(s, base.id, t.(named := t.named[name := v])))
      else None
    case Index(base, index) =>
      var i := Eval(index, s, f);
      if base.Name? && Bound(s, base.id) && i.Some? then
        var t := SetElement(Lookup(s, base.id).value, i.value, v);
        if t.None? then None else Some(Update(s, base.id, t.value))
      else None
    case _ => None
  }

  function Run(stmts: seq<Stmt>, s: Store, f: Functions, fuel: nat): Outcome
    decreases fuel, stmts, 0
  {
    hide *;
    if stmts == [] then Normal(s)
    else
      var r := Step(stmts[0], s, f, fuel);
      if r.Normal? then Run(stmts[1..], r.store, f, fuel) else r
  }

  function Step(st: Stmt, s: Store, f: Functions, fuel: nat): Outcome
    decreases fuel, st, 1
  {
    hide *;
    match st
    case Local(name, init) =>
      if init.None? then Normal(s + [Binding(name, NilV)])
      else
        var v := Eval(init.value, s, f);
        if v.None? then Failed else Normal(s + [Binding(name, v.value)])
    case Assign(target, value) =>
      var v := Eval(value, s, f);
      if v.None? then Failed
      else
        var r := Store1(target, v.value, s, f);
        if r.None? then Failed else Normal(r.value)
    case Expression(e) =>
      if Eval(e, s, f).None? then Failed else Normal(s)
    case Return(result) =>
      if result.None? then Returned(NilV)
      else
        var v := Eval(result.value, s, f);
        if v.None? then Failed else Returned(v.value)
    case Break => Broke(s)
    case Do(body) => Leave(Run(body, s, f, fuel), |s|)
    case While(cond, body) => RunWhile(cond, body, s, f, fuel)
    case For(variable, start, stop, step, body) =>
      var a := Eval(start, s, f);
      var z := Eval(stop, s, f);
      if a.Some? && a.value.IntV? && z.Some? && z.value.IntV? && step != 0
      then RunFor(variable, ForValues(a.value.n, z.value.n, step), body, s, f, fuel)
      else Failed
    case If(_, _) => RunIf(st, 0, s, f, fuel)
  }

  /** The first branch from the k-th on whose condition holds, otherwise the else part. */
  function RunIf(st: Stmt, k: nat, s: Store, f: Functions, fuel: nat): Outcome
    requires hide *; st.If? && k <= |st.branches|
    decreases fuel, st, 0, |st.branches| - k
  {
    hide *;
    if k == |st.branches| then Leave(Run(st.els, s, f, fuel), |s|)
    else
      var c := Eval(st.branches[k].cond, s, f);
      if c.None? then Failed
      else if Truthy(c.value) then RunBranch(st.branches[k], s, f, fuel)
      else RunIf(st, k + 1, s, f, fuel)
  }

  function RunBranch(b: Branch, s: Store, f: Functions, fuel: nat): Outcome
    decreases fuel, b, 0, 0
  {
    hide *;
    Leave(Run(b.body, s, f, fuel), |s|)
  }

  function RunWhile(cond: Expr, body: seq<Stmt>, s: Store, f: Functions, fuel: nat): Outcome
    decreases fuel, body, 1
  {
    hide *;
    if fuel == 0 then OutOfFuel
    else
      var c := Eval(cond, s, f);
      if c.None? then Failed
      else if !Truthy(c.value) then Normal(s)
      else
        var r := Leave(Run(body, s, f, fuel - 1), |s|);
        match r
        case Normal(next) => RunWhile(cond, body, next, f, fuel - 1)
        case Broke(next) => Normal(next)
        case _ => r
  }

  /** The values of a numeric for loop, whose count is fixed before it starts. */
  function ForValues(start: int, stop: int, step: int): seq<int>
    requires step != 0
    decreases if step > 0 then stop - start + 1 else start - stop + 1
  {
    if (step > 0 && start > stop) || (step < 0 && start < stop) then []
    else [start] + ForValues(start + step, stop, step)
  }

  function RunFor(variable: string, values: seq<int>, body: seq<Stmt>, s: Store, f: Functions, fuel: nat): Outcome
    decreases fuel, body, |values| + 1
  {
    hide *;
    if values == [] then Normal(s)
    else
      var r := Leave(Run(body, s + [Binding(variable, IntV(values[0]))], f, fuel), |s|);
      match r
      case Normal(next) => RunFor(variable, values[1..], body, next, f, fuel)
      case Broke(next) => Normal(next)
      case _ => r
  }
}
