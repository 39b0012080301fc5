/** Rua's expression syntax: trees with their parentheses, what they look like, and how they are parsed. */
module RuaGrammar {
  import opened Wrappers

  datatype BinOp = Coalesce | Or | And | Eq | Ne | Lt | Le | Gt | Ge | Contains | Add | Sub | Mul | Div | Rem
  datatype UnOp = Neg | Not

  datatype Token =
    | Literal(text: string) | Word(text: string)
    | OpTok(op: BinOp) | Bang | DotDot(inclusive: bool) | AssignTok(op_: Option<BinOp>)
    | Question | Dot(optional: bool) | Comma | Colon
    | LParen | RParen | LBracket | RBracket | LBrace | RBrace
    | Other(text: string)

  /** What was written, including parentheses and trailing commas. */
  datatype Tree =
    | Lit(text: string)
    | Path(name: string)
    | Paren(inner: Tree)
    | VecLit(elements: seq<Tree>, trailing: bool)
    | StructLit(name: string, fields: seq<FieldTree>, trailing: bool)
    | Try(base: Tree)
    | Field(base: Tree, optional: bool, name: string)
    | MethodCall(base: Tree, optional: bool, name: string, args: seq<Tree>, trailing: bool)
    | Call(base: Tree, args: seq<Tree>, trailing: bool)
    | Index(base: Tree, index: Tree)
    | Unary(uop: UnOp, operand: Tree)
    | Binary(op: BinOp, lhs: Tree, rhs: Tree)
    | Range(inclusive: bool, lhs: Tree, rhs: Tree)
    | Assign(op_: Option<BinOp>, target: Tree, value: Tree)

  /** `name: value`, or only `name`. */
  datatype FieldTree = FieldTree(name: string, value: Option<Tree>)

  // ---- what a tree looks like ----

  function Yield(t: Tree): (r: seq<Token>)
    ensures hide *; r != []
    decreases t
  {
    hide *;
    match t
    case Lit(text) => [Literal(text)]
    case Path(name) => [Word(name)]
    case Paren(inner) => [LParen] + (Yield(inner) + [RParen])
    case VecLit(elements, trailing) => [LBracket] + (ListYield(elements) + (Ending(trailing) + [RBracket]))
    case StructLit(name, fields, trailing) => [Word(name)] + ([LBrace] + (FieldsYield(fields) + (Ending(trailing) + [RBrace])))
    case Try(base) => Yield(base) + [Question]
    case Field(base, optional, name) => Yield(base) + [Dot(optional), Word(name)]
    case MethodCall(base, optional, name, args, trailing) =>
      Yield(base) + ([Dot(optional), Word(name)] + ([LParen] + (ListYield(args) + (Ending(trailing) + [RParen]))))
    case Call(base, args, trailing) => Yield(base) + ([LParen] + (ListYield(args) + (Ending(trailing) + [RParen])))
    case Index(base, index) => Yield(base) + ([LBracket] + (Yield(index) + [RBracket]))
    case Unary(uop, operand) => [UnaryToken(uop)] + Yield(operand)
    case Binary(op, lhs, rhs) => Yield(lhs) + ([OpTok(op)] + Yield(rhs))
    case Range(inclusive, lhs, rhs) => Yield(lhs) + ([DotDot(inclusive)] + Yield(rhs))
    case Assign(op_, target, value) => Yield(target) + ([AssignTok(op_)] + Yield(value))
  }

  function UnaryToken(op: UnOp): Token {
    if op == Neg then OpTok(Sub) else Bang
  }

  function Ending(trailing: bool): seq<Token> {
    if trailing then [Comma] else []
  }

  function ListYield(ts: seq<Tree>): seq<Token>
    decreases ts
  {
    if ts == [] then []
    else if |ts| == 1 then Yield(ts[0])
    else Yield(ts[0]) + ([Comma] + ListYield(ts[1..]))
  }

  function FieldsYield(fs: seq<FieldTree>): seq<Token>
    decreases fs
  {
    if fs == [] then []
    else if |fs| == 1 then FieldYield(fs[0])
    else FieldYield(fs[0]) + ([Comma] + FieldsYield(fs[1..]))
  }

  function FieldYield(f: FieldTree): seq<Token>
    decreases f
  {
    [Word(f.name)] + if f.value.Some? then [Colon] + Yield(f.value.value) else []
  }

  // ---- how tightly operators bind ----

  function Power(op: BinOp): nat {
    match op
    case Coalesce => 0
    case Or => 1
    case And => 2
    case Eq | Ne | Lt | Le | Gt | Ge | Contains => 3
    case Add | Sub => 5
    case Mul | Div | Rem => 6
  }

  const RANGE_POWER := 4

  /** An infix operator and its power. */
  function InfixPower(t: Token): Option<nat> {
    match t
    case OpTok(op) => Some(Power(op))
    case DotDot(_) => Some(RANGE_POWER)
    case _ => None
  }

  function Join(t: Token, lhs: Tree, rhs: Tree): Tree
    requires InfixPower(t).Some?
  {
    if t.OpTok? then Binary(t.op, lhs, rhs) else Range(t.inclusive, lhs, rhs)
  }

  /** Assignments bind loosest, then infix operators, prefix operators, and everything else. */
  function Level(t: Tree): int {
    match t
    case Assign(_, _, _) => -1
    case Binary(op, _, _) => Power(op)
    case Range(_, _, _) => RANGE_POWER
    case Unary(_, _) => 7
    case _ => 8
  }

  /**
   * The trees the syntax allows: a left operand binds at least as tightly as its operator, a right one
   * more tightly, and a struct literal occurs in a condition (noStruct) only inside delimiters.
   */
  predicate Well(t: Tree, noStruct: bool)
    decreases t
  {
    match t
    case Lit(_) => true
    case Path(_) => true
    case Paren(inner) => Well(inner, false)
    case VecLit(elements, trailing) => AllWell(elements) && (trailing ==> elements != [])
    case StructLit(_, fields, trailing) => !noStruct && AllWellFields(fields) && (trailing ==> fields != [])
    case Try(base) => Level(base) == 8 && Well(base, noStruct)
    case Field(base, _, _) => Level(base) == 8 && Well(base, noStruct)
    case MethodCall(base, _, _, args, trailing) => Level(base) == 8 && Well(base, noStruct) && AllWell(args) && (trailing ==> args != [])
    case Call(base, args, trailing) => Level(base) == 8 && !base.Field? && Well(base, noStruct) && AllWell(args) && (trailing ==> args != [])
    case Index(base, index) => Level(base) == 8 && Well(base, noStruct) && Well(index, false)
    case Unary(_, operand) => Level(operand) >= 7 && Well(operand, noStruct)
    case Binary(op, lhs, rhs) => Level(lhs) >= Power(op) && Level(rhs) > Power(op) && Well(lhs, noStruct) && Well(rhs, noStruct)
    case Range(_, lhs, rhs) => Level(lhs) >= RANGE_POWER && Level(rhs) > RANGE_POWER && Well(lhs, noStruct) && Well(rhs, noStruct)
    case Assign(_, target, value) => Level(target) >= 0 && Well(target, noStruct) && Well(value, noStruct)
  }

  predicate AllWell(ts: seq<Tree>)
    decreases ts
  {
    ts == [] || (Well(ts[0], false) && AllWell(ts[1..]))
  }

  predicate AllWellFields(fs: seq<FieldTree>)
    decreases fs
  {
    fs == [] || (WellField(fs[0]) && AllWellFields(fs[1..]))
  }

  predicate WellField(f: FieldTree)
    decreases f
  {
    f.value.Some? ==> Well(f.value.value, false)
  }

  // ---- parsing ----

  datatype Error = BudgetExceeded | Unexpected
  datatype Parsed<+T> = Ok(value: T, rest: seq<Token>) | Err(error: Error)

  /** Whether `name {` is a struct literal here, how deep the parser is, and how deep it may go. */
  datatype Mode = Mode(noStruct: bool, depth: nat, max: nat)
  {
    function Deeper(): Mode {
      this.(depth := depth + 1)
    }

    function Open(): Mode {
      this.(noStruct := false)
    }
  }

  predicate At(ts: seq<Token>, t: Token) {
    ts != [] && ts[0] == t
  }

  function ParseExpr(ts: seq<Token>, m: Mode): (r: Parsed<Tree>)
    ensures hide *; r.Ok? ==> |r.rest| < |ts|
    decreases |ts|, 5
  {
    hide *;
    if m.depth >= m.max then Err(BudgetExceeded)
    else
      var lhs := ParseBin(ts, 0, m.Deeper());
      if lhs.Err? then lhs
      else if lhs.rest != [] && lhs.rest[0].AssignTok? then
        var value := ParseExpr(lhs.rest[1..], m.Deeper());
        if value.Err? then value else Ok(Assign(lhs.rest[0].op_, lhs.value, value.value), value.rest)
      else lhs
  }

  function ParseBin(ts: seq<Token>, min: nat, m: Mode): (r: Parsed<Tree>)
    ensures hide *; r.Ok? ==> |r.rest| < |ts|
    decreases |ts|, 4
  {
    hide *;
    if m.depth >= m.max then Err(BudgetExceeded)
    else
      var lhs := ParseUnary(ts, m.Deeper());
      if lhs.Err? then lhs else Infix(lhs.value, lhs.rest, min, m.Deeper())
  }

  /** The loop over infix operators at least as tight as min. */
  function Infix(lhs: Tree, ts: seq<Token>, min: nat, m: Mode): (r: Parsed<Tree>)
    ensures hide *; r.Ok? ==> |r.rest| <= |ts|
    decreases |ts|, 3
  {
    hide *;
    if ts == [] || InfixPower(ts[0]).None? || InfixPower(ts[0]).value < min then Ok(lhs, ts)
    else
      var rhs := ParseBin(ts[1..], InfixPower(ts[0]).value + 1, m);
      if rhs.Err? then rhs else Infix(Join(ts[0], lhs, rhs.value), rhs.rest, min, m)
  }

  function ParseUnary(ts: seq<Token>, m: Mode): (r: Parsed<Tree>)
    ensures r.Ok? ==> |r.rest| < |ts|
    decreases |ts|, 2
  {
    if m.depth >= m.max then Err(BudgetExceeded)
    else if At(ts, OpTok(Sub)) || At(ts, Bang) then
      var operand := ParseUnary(ts[1..], m.Deeper());
      if operand.Err? then operand else Ok(Unary(if ts[0] == Bang then Not else Neg, operand.value), operand.rest)
    else ParsePostfix(ts, m.Deeper())
  }

  function ParsePostfix(ts: seq<Token>, m: Mode): (r: Parsed<Tree>)
    ensures hide *; r.Ok? ==> |r.rest| < |ts|
    decreases |ts|, 1
  {
    hide *;
    var base := ParsePrimary(ts, m);
    if base.Err? then base else Suffixes(base.value, base.rest, m)
  }

  function Suffixes(base: Tree, ts: seq<Token>, m: Mode): (r: Parsed<Tree>)
    ensures r.Ok? ==> |r.rest| <= |ts|
    decreases |ts|, 0
  {
    if ts == [] then Ok(base, ts)
    else match ts[0]
      case LParen =>
        var args := ParseList(ts[1..], RParen, m);
        if args.Err? then Err(args.error) else Suffixes(Call(base, args.value.0, args.value.1), args.rest, m)
      case Dot(optional) =>
        if |ts| < 2 || !ts[1].Word? then Err(Unexpected)
        else if At(ts[2..], LParen) then
          var args := ParseList(ts[3..], RParen, m);
          if args.Err? then Err(args.error)
          else Suffixes(MethodCall(base, optional, ts[1].text, args.value.0, args.value.1), args.rest, m)
        else Suffixes(Field(base, optional, ts[1].text), ts[2..], m)
      case Question => Suffixes(Try(base), ts[1..], m)
      case LBracket =>
        var index := ParseExpr(ts[1..], m.Open());
        if index.Err? then index
        else if !At(index.rest, RBracket) then Err(Unexpected)
        else Suffixes(Index(base, index.value), index.rest[1..], m)
      case _ => Ok(base, ts)
  }

  function ParsePrimary(ts: seq<Token>, m: Mode): (r: Parsed<Tree>)
    ensures r.Ok? ==> |r.rest| < |ts|
    decreases |ts|, 0
  {
    if ts == [] then Err(Unexpected)
    else match ts[0]
      case Literal(text) => Ok(Lit(text), ts[1..])
      case Word(name) =>
        if !m.noStruct && At(ts[1..], LBrace) then
          var fields := ParseFields(ts[2..], m);
          if fields.Err? then Err(fields.error) else Ok(StructLit(name, fields.value.0, fields.value.1), fields.rest)
        else Ok(Path(name), ts[1..])
      case LParen =>
        var inner := ParseExpr(ts[1..], m.Open());
        if inner.Err? then inner
        else if !At(inner.rest, RParen) then Err(Unexpected)
        else Ok(Paren(inner.value), inner.rest[1..])
      case LBracket =>
        var elements := ParseList(ts[1..], RBracket, m);
        if elements.Err? then Err(elements.error) else Ok(VecLit(elements.value.0, elements.value.1), elements.rest)
      case _ => Err(Unexpected)
  }

  /** Expressions up to a closing token, and whether a comma came last. A vector's list ends at the end of input. */
  function ParseList(ts: seq<Token>, close: Token, m: Mode): (r: Parsed<(seq<Tree>, bool)>)
    ensures r.Ok? ==> |r.rest| < |ts|
    decreases |ts|, 6
  {
    if At(ts, close) then Ok(([], false), ts[1..])
    else if ts == [] && close == RBracket then Err(Unexpected)
    else
      var first := ParseExpr(ts, m.Open());
      if first.Err? then Err(first.error)
      else if At(first.rest, Comma) then
        var more := ParseList(first.rest[1..], close, m);
        if more.Err? then more else Ok(([first.value] + more.value.0, more.value.0 == [] || more.value.1), more.rest)
      else if At(first.rest, close) then Ok(([first.value], false), first.rest[1..])
      else Err(Unexpected)
  }

  function ParseFields(ts: seq<Token>, m: Mode): (r: Parsed<(seq<FieldTree>, bool)>)
    ensures r.Ok? ==> |r.rest| < |ts|
    decreases |ts|, 7
  {
    if At(ts, RBrace) then Ok(([], false), ts[1..])
    else
      var first := ParseField(ts, m);
      if first.Err? then Err(first.error)
      else if At(first.rest, Comma) then
        var more := ParseFields(first.rest[1..], m);
        if more.Err? then more else Ok(([first.value] + more.value.0, more.value.0 == [] || more.value.1), more.rest)
      else if At(first.rest, RBrace) then Ok(([first.value], false), first.rest[1..])
      else Err(Unexpected)
  }

  function ParseField(ts: seq<Token>, m: Mode): (r: Parsed<FieldTree>)
    ensures r.Ok? ==> |r.rest| < |ts|
    decreases |ts|, 6
  {
    if ts == [] || !ts[0].Word? then Err(Unexpected)
    else if At(ts[1..], Colon) then
      var value := ParseExpr(ts[2..], m.Open());
      if value.Err? then Err(value.error) else Ok(FieldTree(ts[0].text, Some(value.value)), value.rest)
    else Ok(FieldTree(ts[0].text, None), ts[1..])
  }
}
