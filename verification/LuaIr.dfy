/** The structured Lua expressions that code generation builds. */
module LuaIr {

  datatype UnaryOp = Neg | Not | Len

  datatype BinaryOp = Or | And | Eq | Ne | Lt | Le | Gt | Ge | Concat | Add | Sub | Mul | Div | Rem

  datatype TableField =
    | Named(name: string, value: Expr)
    | Indexed(index: Expr, value: Expr)
    | Value(value: Expr)

  /** Literals carry their value; an integer may be negative. */
  datatype Expr =
    | Nil
    | Bool(b: bool)
    | Integer(n: int)
    | Number(source: string)
    | Str(text: string)
    | Name(id: string)
    | Field(base: Expr, name: string)
    | Index(base: Expr, index: Expr)
    | Call(callee: Expr, args: seq<Expr>)
    | MethodCall(receiver: Expr, method_: string, args: seq<Expr>)
    | Unary(uop: UnaryOp, operand: Expr)
    | Binary(left: Expr, op: BinaryOp, right: Expr)
    | Table(fields: seq<TableField>)
    | Parenthesized(inner: Expr)
}
