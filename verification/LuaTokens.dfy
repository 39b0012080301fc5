/** Lua's expression grammar as a parser over tokens (section 3.4 of the Lua 5.4 Reference Manual). */
module LuaTokens {
  import opened LuaIr

  datatype Token =
    | KwNil | KwTrue | KwFalse | KwNot
    | IntTok(value: nat) | NumTok(source: string) | StrTok(text: string) | NameTok(id: string)
    | OpTok(op: BinaryOp)
    | Hash | Dot | Colon | Comma | Assign
    | LParen | RParen | LBracket | RBracket | LBrace | RBrace

  /** `-` is both a binary and a unary operator. */
  const Minus := OpTok(Sub)

  datatype Parsed<+T> = Fail | Done(value: T, rest: seq<Token>)

  /** Binding powers to the left and right; concatenation is the only right-associative operator. */
  function LeftPower(op: BinaryOp): nat {
    match op
    case Or => 1
    case And => 2
    case Eq | Ne | Lt | Le | Gt | Ge => 3
    case Concat => 9
    case Add | Sub => 10
    case Mul | Div | Rem => 11
  }

  function RightPower(op: BinaryOp): nat {
    if op == Concat then 8 else LeftPower(op)
  }

  const UNARY_POWER := 12

  function UnaryOf(t: Token): Parsed<UnaryOp> {
    if t == Minus then Done(Neg, [])
    else if t == KwNot then Done(Not, [])
    else if t == Hash then Done(Len, [])
    else Fail
  }

  function SubExpression(ts: seq<Token>, limit: nat): (r: Parsed<Expr>)
    ensures r.Done? ==> |r.rest| < |ts|
    decreases |ts|, 3
  {
    if ts == [] then Fail
    else if UnaryOf(ts[0]).Done? then
      var operand := SubExpression(ts[1..], UNARY_POWER);
      if operand.Fail? then Fail else Operators(Unary(UnaryOf(ts[0]).value, operand.value), operand.rest, limit)
    else
      var simple := Simple(ts);
      if simple.Fail? then Fail else Operators(simple.value, simple.rest, limit)
  }

  function Operators(lhs: Expr, ts: seq<Token>, limit: nat): (r: Parsed<Expr>)
    ensures hide *; r.Done? ==> |r.rest| <= |ts|
    decreases |ts|, 1
  {
    hide *;
    if ts != [] && ts[0].OpTok? && LeftPower(ts[0].op) > limit then
      var rhs := SubExpression(ts[1..], RightPower(ts[0].op));
      if rhs.Fail? then Fail else Operators(Binary(lhs, ts[0].op, rhs.value), rhs.rest, limit)
    else
      Done(lhs, ts)
  }

  function Simple(ts: seq<Token>): (r: Parsed<Expr>)
    ensures hide *; r.Done? ==> |r.rest| < |ts|
    decreases |ts|, 2
  {
    hide *;
    if ts == [] then Fail
    else match ts[0]
      case KwNil => Done(Nil, ts[1..])
      case KwTrue => Done(Bool(true), ts[1..])
      case KwFalse => Done(Bool(false), ts[1..])
      case IntTok(n) => Done(Integer(n), ts[1..])
      case NumTok(s) => Done(Number(s), ts[1..])
      case StrTok(s) => Done(Str(s), ts[1..])
      case LBrace =>
        var fields := Fields(ts[1..]);
        if fields.Fail? then Fail else Done(Table(fields.value), fields.rest)
      case NameTok(id) => Suffixes(Name(id), ts[1..])
      case LParen =>
        var inner := SubExpression(ts[1..], 0);
        if inner.Fail? || inner.rest == [] || inner.rest[0] != RParen then Fail
        else Suffixes(Parenthesized(inner.value), inner.rest[1..])
      case _ => Fail
  }

  /** Field selections, indexing and calls after a prefix expression. */
  function Suffixes(base: Expr, ts: seq<Token>): (r: Parsed<Expr>)
    ensures hide *; r.Done? ==> |r.rest| <= |ts|
    decreases |ts|, 1
  {
    hide *;
    if ts == [] then Done(base, ts)
    else match ts[0]
      case Dot =>
        if |ts| < 2 || !ts[1].NameTok? then Fail else Suffixes(Field(base, ts[1].id), ts[2..])
      case LBracket =>
        var index := SubExpression(ts[1..], 0);
        if index.Fail? || index.rest == [] || index.rest[0] != RBracket then Fail
        else Suffixes(Index(base, index.value), index.rest[1..])
      case Colon =>
        if |ts| < 3 || !ts[1].NameTok? then Fail
        else
          var args := Arguments(ts[2..]);
          if args.Fail? then Fail else Suffixes(MethodCall(base, ts[1].id, args.value), args.rest)
      case LParen | StrTok(_) | LBrace =>
        var args := Arguments(ts);
        if args.Fail? then Fail else Suffixes(Call(base, args.value), args.rest)
      case _ => Done(base, ts)
  }

  /** Call arguments: a parenthesized list, one string literal, or one table. */
  function Arguments(ts: seq<Token>): (r: Parsed<seq<Expr>>)
    ensures hide *; r.Done? ==> |r.rest| < |ts|
    decreases |ts|, 0
  {
    hide *;
    if ts == [] then Fail
    else match ts[0]
      case StrTok(s) => Done([Str(s)], ts[1..])
      case LBrace =>
        var fields := Fields(ts[1..]);
        if fields.Fail? then Fail else Done([Table(fields.value)], fields.rest)
      case LParen =>
        if |ts| > 1 && ts[1] == RParen then Done([], ts[2..])
        else ExpressionList(ts[1..])
      case _ => Fail
  }

  /** One or more expressions up to and including the closing parenthesis. */
  function ExpressionList(ts: seq<Token>): (r: Parsed<seq<Expr>>)
    ensures hide *; r.Done? ==> |r.rest| < |ts|
    decreases |ts|, 4
  {
    hide *;
    var first := SubExpression(ts, 0);
    if first.Fail? || first.rest == [] then Fail
    else if first.rest[0] == RParen then Done([first.value], first.rest[1..])
    else if first.rest[0] == Comma then
      var more := ExpressionList(first.rest[1..]);
      if more.Fail? then Fail else Done([first.value] + more.value, more.rest)
    else Fail
  }

  /** Table fields up to and including the closing brace; a trailing separator is allowed. */
  function Fields(ts: seq<Token>): (r: Parsed<seq<TableField>>)
    ensures hide *; r.Done? ==> |r.rest| < |ts|
    decreases |ts|, 5
  {
    hide *;
    if ts == [] then Fail
    else if ts[0] == RBrace then Done([], ts[1..])
    else
      var field := OneField(ts);
      if field.Fail? || field.rest == [] then Fail
      else if field.rest[0] == RBrace then Done([field.value], field.rest[1..])
      else if field.rest[0] == Comma then
        var more := Fields(field.rest[1..]);
        if more.Fail? then Fail else Done([field.value] + more.value, more.rest)
      else Fail
  }

  function OneField(ts: seq<Token>): (r: Parsed<TableField>)
    ensures hide *; r.Done? ==> |r.rest| < |ts|
    decreases |ts|, 4
  {
    hide *;
    if ts == [] then Fail
    else if ts[0].NameTok? && |ts| > 1 && ts[1] == Assign then
      var value := SubExpression(ts[2..], 0);
      if value.Fail? then Fail else Done(Named(ts[0].id, value.value), value.rest)
    else if ts[0] == LBracket then
      var index := SubExpression(ts[1..], 0);
      if index.Fail? || |index.rest| < 2 || index.rest[0] != RBracket || index.rest[1] != Assign then Fail
      else
        var value := SubExpression(index.rest[2..], 0);
        if value.Fail? then Fail else Done(Indexed(index.value, value.value), value.rest)
    else
      var value := SubExpression(ts, 0);
      if value.Fail? then Fail else Done(Value(value.value), value.rest)
  }

  /** A whole token list as one expression. */
  function ParseExpression(ts: seq<Token>): Parsed<Expr> {
    hide *;
    var r := SubExpression(ts, 0);
    if r.Done? && r.rest != [] then Fail else r
  }
}
