/** The expression printer and the parentheses it decides to write. */
module LuaPrinter {
  import opened LuaIr
  import opened LuaTokens

  /** Printed text: tokens, and the single spaces written between some of them. */
  datatype Piece = Space | Tok(token: Token)

  function Words(ps: seq<Piece>): seq<Token> {
    if ps == [] then [] else (if ps[0].Tok? then [ps[0].token] else []) + Words(ps[1..])
  }

  function Precedence(op: BinaryOp): nat {
    match op
    case Or => 1
    case And => 2
    case Eq | Ne | Lt | Le | Gt | Ge => 3
    case Concat => 4
    case Add | Sub => 5
    case Mul | Div | Rem => 6
  }

  const UNARY_PRECEDENCE := 7

  predicate NeedsParens(op: BinaryOp, parentPrecedence: nat, rightChild: bool) {
    || Precedence(op) < parentPrecedence
    || (Precedence(op) == parentPrecedence && if op == Concat then !rightChild else rightChild)
  }

  predicate IsPrefix(e: Expr) {
    e.Name? || e.Field? || e.Index? || e.Call? || e.MethodCall? || e.Parenthesized?
  }

  const LUA_KEYWORDS: seq<string> := [
    "and", "break", "do", "else", "elseif", "end", "false", "for", "function", "goto", "if", "in",
    "local", "nil", "not", "or", "repeat", "return", "then", "true", "until", "while"
  ]

  predicate IsLetter(c: char) { 'a' <= c <= 'z' || 'A' <= c <= 'Z' || c == '_' }

  predicate IsDigit(c: char) { '0' <= c <= '9' }

  predicate IsLuaIdentifier(s: string) {
    && |s| > 0 && IsLetter(s[0])
    && (forall i :: 0 <= i < |s| ==> IsLetter(s[i]) || IsDigit(s[i]))
    && s !in LUA_KEYWORDS
  }

  function InParens(ps: seq<Piece>): seq<Piece> {
    [Tok(LParen)] + ps + [Tok(RParen)]
  }

  function PrintInteger(n: int): seq<Piece> {
    if n < 0 then [Tok(Minus), Tok(IntTok(-n))] else [Tok(IntTok(n))]
  }

  function PrintUnaryOp(op: UnaryOp): seq<Piece> {
    match op
    case Neg => [Tok(Minus)]
    case Not => [Tok(KwNot), Space]
    case Len => [Tok(Hash)]
  }

  function PrintAt(e: Expr, parentPrecedence: nat, rightChild: bool): seq<Piece>
    decreases e, 1
  {
    match e
    case Nil => [Tok(KwNil)]
    case Bool(b) => [Tok(if b then KwTrue else KwFalse)]
    case Integer(n) => PrintInteger(n)
    case Number(s) => [Tok(NumTok(s))]
    case Str(s) => [Tok(StrTok(s))]
    case Name(id) => [Tok(NameTok(id))]
    case Field(base, name) => PrintPrefix(base) + [Tok(Dot), Tok(NameTok(name))]
    case Index(base, index) => PrintPrefix(base) + [Tok(LBracket)] + PrintAt(index, 0, false) + [Tok(RBracket)]
    case Call(callee, args) => PrintPrefix(callee) + [Tok(LParen)] + PrintList(args) + [Tok(RParen)]
    case MethodCall(receiver, method_, args) =>
      PrintPrefix(receiver) + [Tok(Colon), Tok(NameTok(method_)), Tok(LParen)] + PrintList(args) + [Tok(RParen)]
    case Unary(op, operand) =>
      var rendered := PrintUnaryOp(op) + PrintAt(operand, UNARY_PRECEDENCE, false);
      if UNARY_PRECEDENCE < parentPrecedence then InParens(rendered) else rendered
    case Binary(left, op, right) =>
      var rendered := PrintAt(left, Precedence(op), false) + [Space, Tok(OpTok(op)), Space] + PrintAt(right, Precedence(op), true);
      if NeedsParens(op, parentPrecedence, rightChild) then InParens(rendered) else rendered
    case Table(fields) =>
      if fields == [] then [Tok(LBrace), Tok(RBrace)]
      else [Tok(LBrace), Space] + PrintFields(fields) + [Space, Tok(RBrace)]
    case Parenthesized(inner) => InParens(PrintAt(inner, 0, false))
  }

  function PrintPrefix(e: Expr): seq<Piece>
    decreases e, 2
  {
    hide *;
    if IsPrefix(e) then PrintAt(e, 0, false) else InParens(PrintAt(e, 0, false))
  }

  function PrintList(es: seq<Expr>): seq<Piece>
    decreases es, 0
  {
    hide *;
    if es == [] then []
    else if |es| == 1 then PrintAt(es[0], 0, false)
    else PrintAt(es[0], 0, false) + [Tok(Comma), Space] + PrintList(es[1..])
  }

  function PrintField(f: TableField): seq<Piece>
    decreases f, 0
  {
    hide *;
    match f
    case Named(name, value) =>
      (if IsLuaIdentifier(name) then [Tok(NameTok(name))] else [Tok(LBracket), Tok(StrTok(name)), Tok(RBracket)])
      + [Space, Tok(Assign), Space] + PrintAt(value, 0, false)
    case Indexed(index, value) =>
      [Tok(LBracket)] + PrintAt(index, 0, false) + [Tok(RBracket), Space, Tok(Assign), Space] + PrintAt(value, 0, false)
    case Value(value) => PrintAt(value, 0, false)
  }

  function PrintFields(fs: seq<TableField>): seq<Piece>
    decreases fs, 0
  {
    hide *;
    if fs == [] then []
    else if |fs| == 1 then PrintField(fs[0])
    else PrintField(fs[0]) + [Tok(Comma), Space] + PrintFields(fs[1..])
  }

  function Print(e: Expr): seq<Piece> {
    hide *;
    PrintAt(e, 0, false)
  }
}
