/** Printing a Lua expression and parsing the result back. */
module LuaRoundTrip {
  import opened LuaIr
  import opened LuaTokens
  import opened LuaPrinter

  // ---- trees that need no further parentheses ----

  /** The tokens of a tree, with parentheses only where the tree has them. */
  function Flat(e: Expr): seq<Token>
    decreases e, 1
  {
    match e
    case Nil => [KwNil]
    case Bool(b) => [if b then KwTrue else KwFalse]
    case Integer(n) => [IntTok(if n < 0 then 0 else n)]
    case Number(s) => [NumTok(s)]
    case Str(s) => [StrTok(s)]
    case Name(id) => [NameTok(id)]
    case Field(base, name) => Flat(base) + [Dot, NameTok(name)]
    case Index(base, index) => Flat(base) + ([LBracket] + Flat(index) + [RBracket])
    case Call(callee, args) => Flat(callee) + ([LParen] + FlatList(args) + [RParen])
    case MethodCall(receiver, method_, args) =>
      Flat(receiver) + ([Colon, NameTok(method_), LParen] + FlatList(args) + [RParen])
    case Unary(op, operand) => [UnaryToken(op)] + Flat(operand)
    case Binary(left, op, right) => Flat(left) + ([OpTok(op)] + Flat(right))
    case Table(fields) => [LBrace] + FlatFields(fields) + [RBrace]
    case Parenthesized(inner) => [LParen] + Flat(inner) + [RParen]
  }

  function UnaryToken(op: UnaryOp): Token {
    match op case Neg => Minus case Not => KwNot case Len => Hash
  }

  function FlatList(es: seq<Expr>): seq<Token>
    decreases es, 0
  {
    if es == [] then []
    else if |es| == 1 then Flat(es[0])
    else Flat(es[0]) + [Comma] + FlatList(es[1..])
  }

  function FlatField(f: TableField): seq<Token>
    decreases f, 0
  {
    match f
    case Named(name, value) => [NameTok(name), Assign] + Flat(value)
    case Indexed(index, value) => [LBracket] + Flat(index) + [RBracket, Assign] + Flat(value)
    case Value(value) => Flat(value)
  }

  function FlatFields(fs: seq<TableField>): seq<Token>
    decreases fs, 0
  {
    if fs == [] then []
    else if |fs| == 1 then FlatField(fs[0])
    else FlatField(fs[0]) + [Comma] + FlatFields(fs[1..])
  }

  /** Every operator binds its operands without help, under the grammar's binding powers. */
  ghost predicate SelfDelimiting(e: Expr)
    decreases e, 1
  {
    match e
    case Nil | Bool(_) | Number(_) | Str(_) | Name(_) => true
    case Integer(n) => n >= 0
    case Field(base, _) => IsPrefix(base) && SelfDelimiting(base)
    case Index(base, index) => IsPrefix(base) && SelfDelimiting(base) && SelfDelimiting(index)
    case Call(callee, args) => IsPrefix(callee) && SelfDelimiting(callee) && AllDelimiting(args)
    case MethodCall(receiver, _, args) => IsPrefix(receiver) && SelfDelimiting(receiver) && AllDelimiting(args)
    case Unary(_, operand) => SelfDelimiting(operand) && !operand.Binary?
    case Binary(left, op, right) =>
      && SelfDelimiting(left) && SelfDelimiting(right)
      && (left.Binary? ==> LeftPower(op) <= RightPower(left.op))
      && (right.Binary? ==> LeftPower(right.op) > RightPower(op))
    case Table(fields) => FieldsDelimiting(fields)
    case Parenthesized(inner) => SelfDelimiting(inner)
  }

  ghost predicate AllDelimiting(es: seq<Expr>)
    decreases es, 0
  {
    es == [] || (SelfDelimiting(es[0]) && AllDelimiting(es[1..]))
  }

  ghost predicate FieldDelimiting(f: TableField)
    decreases f, 0
  {
    match f
    case Named(_, value) => SelfDelimiting(value)
    case Indexed(index, value) => SelfDelimiting(index) && SelfDelimiting(value)
    case Value(value) => SelfDelimiting(value)
  }

  ghost predicate FieldsDelimiting(fs: seq<TableField>)
    decreases fs, 0
  {
    fs == [] || (FieldDelimiting(fs[0]) && FieldsDelimiting(fs[1..]))
  }

  // ---- parsing such a tree back ----

  predicate NoSuffix(rest: seq<Token>) {
    rest == [] || !(rest[0].Dot? || rest[0].LBracket? || rest[0].Colon? || rest[0].LParen? || rest[0].StrTok? || rest[0].LBrace?)
  }

  /** Nothing at the front of the rest could be absorbed into e. */
  predicate Stops(e: Expr, rest: seq<Token>) {
    && NoSuffix(rest)
    && (rest != [] && rest[0].OpTok? && e.Binary? ==> LeftPower(rest[0].op) <= RightPower(e.op))
  }

  lemma {:induction false} FirstToken(e: Expr)
    requires hide *; SelfDelimiting(e)
    ensures Flat(e) != []
    ensures var t := Flat(e)[0];
            && !(t.RParen? || t.RBrace? || t.RBracket? || t.LBracket? || t.Comma? || t.Assign?)
            && (!e.Unary? && !e.Binary? ==> UnaryOf(t).Fail?)
            && (IsPrefix(e) ==> t.NameTok? || t.LParen?)
  {
    match e {
      case Field(base, _) => FirstToken(base);
      case Index(base, _) => FirstToken(base);
      case Call(callee, _) => FirstToken(callee);
      case MethodCall(receiver, _, _) => FirstToken(receiver);
      case Binary(left, _, _) => FirstToken(left);
      case _ =>
    }
  }

  predicate NotAField(ts: seq<Token>) {
    |ts| > 1 && ts[0].NameTok? ==> ts[1] != Assign
  }

  /** An expression that begins with another one, split after it. */
  lemma LeftmostSplit(e: Expr) returns (head: Expr, tail: seq<Token>)
    requires hide *; SelfDelimiting(e) && (e.Binary? || (IsPrefix(e) && !e.Name? && !e.Parenthesized?))
    ensures head < e && SelfDelimiting(head) && Flat(e) == Flat(head) + tail
    ensures tail != [] && tail[0] != Assign
  {
    hide FlatList, FlatFields, AllDelimiting, FieldsDelimiting;
    match e {
      case Field(base, name) => head, tail := base, [Dot, NameTok(name)];
      case Index(base, index) => head, tail := base, [LBracket] + Flat(index) + [RBracket];
      case Call(callee, args) => head, tail := callee, [LParen] + FlatList(args) + [RParen];
      case MethodCall(receiver, m, args) => head, tail := receiver, [Colon, NameTok(m), LParen] + FlatList(args) + [RParen];
      case Binary(left, op, right) => head, tail := left, [OpTok(op)] + Flat(right);
    }
  }

  /** A value never begins with a name followed by `=`, so it is not mistaken for a named field. */
  lemma {:induction false} NotNamedField(e: Expr, rest: seq<Token>)
    requires hide *; SelfDelimiting(e) && (rest == [] || rest[0] != Assign)
    ensures NotAField(Flat(e) + rest)
  {
    hide Flat, SelfDelimiting, NotAField;
    if e.Binary? || (IsPrefix(e) && !e.Name? && !e.Parenthesized?) {
      var head, tail := LeftmostSplit(e);
      assert Flat(e) + rest == Flat(head) + (tail + rest);
      NotNamedField(head, tail + rest);
    } else {
      AtomIsNoField(e, rest);
    }
  }

  lemma AtomIsNoField(e: Expr, rest: seq<Token>)
    requires e.Name? || (!IsPrefix(e) && !e.Binary?) || e.Parenthesized?
    requires rest == [] || rest[0] != Assign
    ensures NotAField(Flat(e) + rest)
  {
  }

  lemma {:induction false} ParsesExpression(e: Expr, rest: seq<Token>, limit: nat)
    requires hide *; SelfDelimiting(e) && Stops(e, rest)
    requires e.Binary? ==> LeftPower(e.op) > limit
    ensures SubExpression(Flat(e) + rest, limit) == Operators(e, rest, limit)
    decreases e, 3
  {
    hide Flat, SelfDelimiting, SubExpression, Operators, Simple;
    if e.Unary? {
      ParsesUnary(e, rest, limit);
    } else if e.Binary? {
      ParsesBinary(e, rest, limit);
    } else {
      FirstToken(e);
      ParsesSimple(e, rest);
      SimpleStep(Flat(e) + rest, e, rest, limit);
    }
  }

  lemma SimpleStep(ts: seq<Token>, e: Expr, rest: seq<Token>, limit: nat)
    requires hide *; ts != [] && UnaryOf(ts[0]).Fail? && Simple(ts) == Done(e, rest)
    ensures SubExpression(ts, limit) == Operators(e, rest, limit)
  {
    hide Simple, Operators;
  }

  lemma {:induction false} ParsesUnary(e: Expr, rest: seq<Token>, limit: nat)
    requires e.Unary? && SelfDelimiting(e) && NoSuffix(rest)
    ensures SubExpression(Flat(e) + rest, limit) == Operators(e, rest, limit)
    decreases e, 0
  {
    hide SubExpression, Operators, FlatList, FlatFields, AllDelimiting, FieldsDelimiting;
    var operand := e.operand;
    assert Flat(e) + rest == [UnaryToken(e.uop)] + (Flat(operand) + rest);
    ParsesExpression(operand, rest, UNARY_POWER);
    StopsHere(operand, rest, UNARY_POWER);
    UnaryStep(e.uop, operand, Flat(operand) + rest, rest, limit);
  }

  lemma UnaryStep(op: UnaryOp, operand: Expr, ts: seq<Token>, rest: seq<Token>, limit: nat)
    requires hide Operators, SubExpression; SubExpression(ts, UNARY_POWER) == Done(operand, rest)
    ensures SubExpression([UnaryToken(op)] + ts, limit) == Operators(Unary(op, operand), rest, limit)
  {
    hide Operators, Simple;
    assert ([UnaryToken(op)] + ts)[1..] == ts;
  }

  lemma StopsHere(e: Expr, rest: seq<Token>, limit: nat)
    requires hide *; rest != [] && rest[0].OpTok? ==> LeftPower(rest[0].op) <= limit
    ensures Operators(e, rest, limit) == Done(e, rest)
  {
    hide SubExpression;
  }

  lemma TakesOperator(left: Expr, op: BinaryOp, right: Expr, ts: seq<Token>, rest: seq<Token>, limit: nat)
    requires LeftPower(op) > limit && SubExpression(ts, RightPower(op)) == Done(right, rest)
    ensures Operators(left, [OpTok(op)] + ts, limit) == Operators(Binary(left, op, right), rest, limit)
  {
    hide SubExpression;
    assert ([OpTok(op)] + ts)[1..] == ts;
  }

  lemma {:induction false} ParsesBinary(e: Expr, rest: seq<Token>, limit: nat)
    requires e.Binary? && SelfDelimiting(e) && Stops(e, rest) && LeftPower(e.op) > limit
    ensures SubExpression(Flat(e) + rest, limit) == Operators(e, rest, limit)
    decreases e, 0
  {
    hide SubExpression, Operators, FlatList, FlatFields, AllDelimiting, FieldsDelimiting;
    var Binary(left, op, right) := e;
    var tail := [OpTok(op)] + (Flat(right) + rest);
    assert Flat(e) + rest == Flat(left) + tail;
    ParsesExpression(left, tail, limit);
    ParsesExpression(right, rest, RightPower(op));
    StopsHere(right, rest, RightPower(op));
    TakesOperator(left, op, right, Flat(right) + rest, rest, limit);
  }

  lemma {:induction false} ParsesSimple(e: Expr, rest: seq<Token>)
    requires SelfDelimiting(e) && NoSuffix(rest) && !e.Unary? && !e.Binary?
    ensures Simple(Flat(e) + rest) == Done(e, rest)
    decreases e, 2
  {
    hide Arguments, ExpressionList, SubExpression, Operators, FlatFields, FlatList;
    if IsPrefix(e) {
      ParsesPrefix(e, rest);
    } else if e.Table? {
      assert (Flat(e) + rest)[1..] == FlatFields(e.fields) + [RBrace] + rest;
      ParsesFields(e.fields, rest);
    }
  }

  lemma {:induction false} ParsesPrefix(e: Expr, rest: seq<Token>)
    requires SelfDelimiting(e) && IsPrefix(e)
    ensures Simple(Flat(e) + rest) == Suffixes(e, rest)
    decreases e, 1
  {
    hide Flat, SelfDelimiting, Simple, Suffixes;
    match e {
      case Name(_) => NameStep(e, rest);
      case Parenthesized(_) => ParsesParenthesized(e, rest);
      case Field(_, _) => ParsesFieldAccess(e, rest);
      case Index(_, _) => ParsesIndex(e, rest);
      case Call(_, _) => ParsesCall(e, rest);
      case MethodCall(_, _, _) => ParsesMethodCall(e, rest);
    }
  }

  lemma {:induction false} ParsesParenthesized(e: Expr, rest: seq<Token>)
    requires e.Parenthesized? && SelfDelimiting(e)
    ensures Simple(Flat(e) + rest) == Suffixes(e, rest)
    decreases e, 0
  {
    hide SubExpression, Operators, Simple, Suffixes, FlatList, FlatFields;
    var tail := [RParen] + rest;
    assert Flat(e) + rest == [LParen] + (Flat(e.inner) + tail);
    ParsesExpression(e.inner, tail, 0);
    StopsHere(e.inner, tail, 0);
    ParenStep(Flat(e.inner) + tail, e.inner, rest);
  }

  lemma {:induction false} ParsesFieldAccess(e: Expr, rest: seq<Token>)
    requires e.Field? && SelfDelimiting(e)
    ensures Simple(Flat(e) + rest) == Suffixes(e, rest)
    decreases e, 0
  {
    hide Simple, Suffixes, FlatList, FlatFields;
    var tail := [Dot, NameTok(e.name)] + rest;
    assert Flat(e) + rest == Flat(e.base) + tail;
    ParsesPrefix(e.base, tail);
    FieldStep(e.base, e.name, rest);
  }

  lemma {:induction false} ParsesIndex(e: Expr, rest: seq<Token>)
    requires e.Index? && SelfDelimiting(e)
    ensures Simple(Flat(e) + rest) == Suffixes(e, rest)
    decreases e, 0
  {
    hide SubExpression, Operators, Simple, Suffixes, FlatList, FlatFields;
    var tail := [RBracket] + rest;
    var inner := Flat(e.index) + tail;
    assert Flat(e) + rest == Flat(e.base) + ([LBracket] + inner);
    ParsesPrefix(e.base, [LBracket] + inner);
    ParsesExpression(e.index, tail, 0);
    StopsHere(e.index, tail, 0);
    IndexStep(e.base, e.index, inner, rest);
  }

  lemma {:induction false} ParsesCall(e: Expr, rest: seq<Token>)
    requires e.Call? && SelfDelimiting(e)
    ensures Simple(Flat(e) + rest) == Suffixes(e, rest)
    decreases e, 0
  {
    hide Simple, Suffixes, Arguments, FlatList, AllDelimiting;
    var tail := [LParen] + FlatList(e.args) + [RParen] + rest;
    assert Flat(e) + rest == Flat(e.callee) + tail;
    ParsesPrefix(e.callee, tail);
    ParsesArguments(e.args, rest);
    CallStep(e.callee, e.args, tail, rest);
  }

  lemma {:induction false} ParsesMethodCall(e: Expr, rest: seq<Token>)
    requires e.MethodCall? && SelfDelimiting(e)
    ensures Simple(Flat(e) + rest) == Suffixes(e, rest)
    decreases e, 0
  {
    hide Simple, Suffixes, Arguments, FlatList, AllDelimiting;
    var tail := [LParen] + FlatList(e.args) + [RParen] + rest;
    assert Flat(e) + rest == Flat(e.receiver) + ([Colon, NameTok(e.method_)] + tail);
    ParsesPrefix(e.receiver, [Colon, NameTok(e.method_)] + tail);
    ParsesArguments(e.args, rest);
    MethodStep(e.receiver, e.method_, e.args, tail, rest);
  }

  lemma NameStep(e: Expr, rest: seq<Token>)
    requires e.Name?
    ensures Simple(Flat(e) + rest) == Suffixes(e, rest)
  {
    hide Suffixes;
    assert (Flat(e) + rest)[1..] == rest;
  }

  lemma ParenStep(ts: seq<Token>, inner: Expr, rest: seq<Token>)
    requires hide *; SubExpression(ts, 0) == Done(inner, [RParen] + rest)
    ensures Simple([LParen] + ts) == Suffixes(Parenthesized(inner), rest)
  {
    hide SubExpression, Suffixes;
    assert ([LParen] + ts)[1..] == ts;
    assert ([RParen] + rest)[1..] == rest;
  }

  lemma FieldStep(base: Expr, name: string, rest: seq<Token>)
    ensures Suffixes(base, [Dot, NameTok(name)] + rest) == Suffixes(Field(base, name), rest)
  {
    assert ([Dot, NameTok(name)] + rest)[2..] == rest;
  }

  lemma IndexStep(base: Expr, index: Expr, ts: seq<Token>, rest: seq<Token>)
    requires hide *; SubExpression(ts, 0) == Done(index, [RBracket] + rest)
    ensures Suffixes(base, [LBracket] + ts) == Suffixes(Index(base, index), rest)
  {
    hide SubExpression;
    assert ([LBracket] + ts)[1..] == ts;
    assert ([RBracket] + rest)[1..] == rest;
  }

  lemma CallStep(callee: Expr, args: seq<Expr>, ts: seq<Token>, rest: seq<Token>)
    requires hide *; ts != [] && ts[0] == LParen && Arguments(ts) == Done(args, rest)
    ensures Suffixes(callee, ts) == Suffixes(Call(callee, args), rest)
  {
    hide Arguments;
  }

  lemma MethodStep(receiver: Expr, m: string, args: seq<Expr>, ts: seq<Token>, rest: seq<Token>)
    requires ts != [] && Arguments(ts) == Done(args, rest)
    ensures Suffixes(receiver, [Colon, NameTok(m)] + ts) == Suffixes(MethodCall(receiver, m, args), rest)
  {
    hide Arguments;
    assert ([Colon, NameTok(m)] + ts)[2..] == ts;
  }

  lemma {:induction false} ParsesArguments(args: seq<Expr>, rest: seq<Token>)
    requires AllDelimiting(args)
    ensures Arguments([LParen] + FlatList(args) + [RParen] + rest) == Done(args, rest)
    decreases args, 1
  {
    hide Flat, SelfDelimiting, Fields, SubExpression;
    var ts := [LParen] + FlatList(args) + [RParen] + rest;
    if args == [] {
      assert ts[1] == RParen && ts[2..] == rest;
    } else {
      FirstToken(args[0]);
      assert ts[1] == Flat(args[0])[0];
      assert ts[1..] == FlatList(args) + [RParen] + rest;
      ParsesList(args, rest);
    }
  }

  lemma {:induction false} ParsesList(args: seq<Expr>, rest: seq<Token>)
    requires AllDelimiting(args) && args != []
    ensures ExpressionList(FlatList(args) + [RParen] + rest) == Done(args, rest)
    decreases args, 0
  {
    hide Flat, SelfDelimiting, SubExpression, Operators, ExpressionList;
    if |args| == 1 {
      var ts := Flat(args[0]) + ([RParen] + rest);
      assert FlatList(args) + [RParen] + rest == ts;
      ParsesExpression(args[0], [RParen] + rest, 0);
      StopsHere(args[0], [RParen] + rest, 0);
      LastArgument(ts, args[0], rest);
      assert args == [args[0]];
    } else {
      var more := FlatList(args[1..]) + [RParen] + rest;
      var ts := Flat(args[0]) + ([Comma] + more);
      assert FlatList(args) + [RParen] + rest == ts;
      ParsesExpression(args[0], [Comma] + more, 0);
      StopsHere(args[0], [Comma] + more, 0);
      ParsesList(args[1..], rest);
      NextArgument(ts, args[0], more, args[1..], rest);
      assert [args[0]] + args[1..] == args;
    }
  }

  lemma LastArgument(ts: seq<Token>, e: Expr, rest: seq<Token>)
    requires hide *; SubExpression(ts, 0) == Done(e, [RParen] + rest)
    ensures ExpressionList(ts) == Done([e], rest)
  {
    hide SubExpression;
    assert ([RParen] + rest)[1..] == rest;
  }

  lemma NextArgument(ts: seq<Token>, e: Expr, more: seq<Token>, es: seq<Expr>, rest: seq<Token>)
    requires hide *; SubExpression(ts, 0) == Done(e, [Comma] + more) && ExpressionList(more) == Done(es, rest)
    ensures ExpressionList(ts) == Done([e] + es, rest)
  {
    hide SubExpression;
    assert ([Comma] + more)[1..] == more;
  }

  lemma {:induction false} ParsesField(f: TableField, rest: seq<Token>)
    requires hide *; FieldDelimiting(f) && rest != [] && (rest[0] == Comma || rest[0] == RBrace)
    ensures OneField(FlatField(f) + rest) == Done(f, rest)
    ensures FlatField(f) != [] && FlatField(f)[0] != RBrace
    decreases f, 0
  {
    hide Flat, SelfDelimiting, SubExpression, Operators, OneField, NotAField;
    match f {
      case Named(name, value) =>
        assert FlatField(f) + rest == [NameTok(name), Assign] + (Flat(value) + rest);
        ParsesExpression(value, rest, 0);
        StopsHere(value, rest, 0);
        NamedStep(name, value, Flat(value) + rest, rest);
      case Indexed(index, value) =>
        var more := Flat(value) + rest;
        var ts := Flat(index) + ([RBracket, Assign] + more);
        assert FlatField(f) + rest == [LBracket] + ts;
        ParsesExpression(index, [RBracket, Assign] + more, 0);
        StopsHere(index, [RBracket, Assign] + more, 0);
        ParsesExpression(value, rest, 0);
        StopsHere(value, rest, 0);
        IndexedStep(index, value, ts, more, rest);
      case Value(value) =>
        FirstToken(value);
        NotNamedField(value, rest);
        ParsesExpression(value, rest, 0);
        StopsHere(value, rest, 0);
        ValueStep(value, Flat(value) + rest, rest);
    }
  }

  lemma NamedStep(name: string, value: Expr, ts: seq<Token>, rest: seq<Token>)
    requires hide *; SubExpression(ts, 0) == Done(value, rest)
    ensures OneField([NameTok(name), Assign] + ts) == Done(Named(name, value), rest)
  {
    hide SubExpression;
    assert ([NameTok(name), Assign] + ts)[2..] == ts;
  }

  lemma IndexedStep(index: Expr, value: Expr, ts: seq<Token>, more: seq<Token>, rest: seq<Token>)
    requires hide *; SubExpression(ts, 0) == Done(index, [RBracket, Assign] + more) && SubExpression(more, 0) == Done(value, rest)
    ensures OneField([LBracket] + ts) == Done(Indexed(index, value), rest)
  {
    hide SubExpression;
    assert ([LBracket] + ts)[1..] == ts;
    assert ([RBracket, Assign] + more)[2..] == more;
  }

  lemma ValueStep(value: Expr, ts: seq<Token>, rest: seq<Token>)
    requires hide *; ts != [] && !ts[0].LBracket? && NotAField(ts) && SubExpression(ts, 0) == Done(value, rest)
    ensures OneField(ts) == Done(Value(value), rest)
  {
    hide SubExpression;
  }

  lemma {:induction false} ParsesFields(fs: seq<TableField>, rest: seq<Token>)
    requires FieldsDelimiting(fs)
    ensures Fields(FlatFields(fs) + [RBrace] + rest) == Done(fs, rest)
    decreases fs, 0
  {
    hide FlatField, FieldDelimiting, OneField, Fields, FlatFields, FieldsDelimiting;
    FieldsUnfold(fs);
    if fs == [] {
      NoFields(rest);
      assert FlatFields(fs) + [RBrace] + rest == [RBrace] + rest;
    } else if |fs| == 1 {
      var ts := FlatField(fs[0]) + ([RBrace] + rest);
      assert FlatFields(fs) + [RBrace] + rest == ts;
      ParsesField(fs[0], [RBrace] + rest);
      LastField(ts, fs[0], rest);
      assert fs == [fs[0]];
    } else {
      var more := FlatFields(fs[1..]) + [RBrace] + rest;
      var ts := FlatField(fs[0]) + ([Comma] + more);
      assert FlatFields(fs) + [RBrace] + rest == ts;
      ParsesField(fs[0], [Comma] + more);
      ParsesFields(fs[1..], rest);
      NextField(ts, fs[0], more, fs[1..], rest);
      assert [fs[0]] + fs[1..] == fs;
    }
  }

  lemma FieldsUnfold(fs: seq<TableField>)
    requires hide *; FieldsDelimiting(fs)
    ensures fs == [] ==> FlatFields(fs) == []
    ensures fs != [] ==> FieldDelimiting(fs[0]) && FieldsDelimiting(fs[1..])
    ensures |fs| == 1 ==> FlatFields(fs) == FlatField(fs[0])
    ensures |fs| > 1 ==> FlatFields(fs) == FlatField(fs[0]) + [Comma] + FlatFields(fs[1..])
  {
    hide FlatField, FieldDelimiting;
  }

  lemma NoFields(rest: seq<Token>)
    ensures Fields([RBrace] + rest) == Done([], rest)
  {
    hide OneField;
    assert ([RBrace] + rest)[1..] == rest;
  }

  lemma LastField(ts: seq<Token>, f: TableField, rest: seq<Token>)
    requires hide *; ts != [] && ts[0] != RBrace && OneField(ts) == Done(f, [RBrace] + rest)
    ensures Fields(ts) == Done([f], rest)
  {
    hide OneField;
    assert ([RBrace] + rest)[1..] == rest;
  }

  lemma NextField(ts: seq<Token>, f: TableField, more: seq<Token>, fs: seq<TableField>, rest: seq<Token>)
    requires hide *; ts != [] && ts[0] != RBrace && OneField(ts) == Done(f, [Comma] + more) && Fields(more) == Done(fs, rest)
    ensures Fields(ts) == Done([f] + fs, rest)
  {
    hide OneField;
    assert ([Comma] + more)[1..] == more;
  }

  // ---- the tree that printing writes down ----

  /** e with the parentheses the printer adds in this position made explicit. */
  function Elaborate(e: Expr, parentPrecedence: nat, rightChild: bool): Expr
    decreases e, 1
  {
    match e
    case Nil | Bool(_) | Number(_) | Str(_) | Name(_) => e
    case Integer(n) => if n < 0 then Unary(Neg, Integer(-n)) else e
    case Field(base, name) => Field(ElaboratePrefix(base), name)
    case Index(base, index) => Index(ElaboratePrefix(base), Elaborate(index, 0, false))
    case Call(callee, args) => Call(ElaboratePrefix(callee), ElaborateList(args))
    case MethodCall(receiver, m, args) => MethodCall(ElaboratePrefix(receiver), m, ElaborateList(args))
    case Unary(op, operand) =>
      var inner := Unary(op, Elaborate(operand, UNARY_PRECEDENCE, false));
      if UNARY_PRECEDENCE < parentPrecedence then Parenthesized(inner) else inner
    case Binary(left, op, right) =>
      var inner := Binary(Elaborate(left, Precedence(op), false), op, Elaborate(right, Precedence(op), true));
      if NeedsParens(op, parentPrecedence, rightChild) then Parenthesized(inner) else inner
    case Table(fields) => Table(ElaborateFields(fields))
    case Parenthesized(inner) => Parenthesized(Elaborate(inner, 0, false))
  }

  function ElaboratePrefix(e: Expr): Expr
    decreases e, 2
  {
    if IsPrefix(e) then Elaborate(e, 0, false) else Parenthesized(Elaborate(e, 0, false))
  }

  function ElaborateList(es: seq<Expr>): seq<Expr>
    decreases es, 0
  {
    if es == [] then [] else [Elaborate(es[0], 0, false)] + ElaborateList(es[1..])
  }

  function ElaborateField(f: TableField): TableField
    decreases f, 0
  {
    match f
    case Named(name, value) =>
      if IsLuaIdentifier(name) then Named(name, Elaborate(value, 0, false)) else Indexed(Str(name), Elaborate(value, 0, false))
    case Indexed(index, value) => Indexed(Elaborate(index, 0, false), Elaborate(value, 0, false))
    case Value(value) => Value(Elaborate(value, 0, false))
  }

  function ElaborateFields(fs: seq<TableField>): seq<TableField>
    decreases fs, 0
  {
    if fs == [] then [] else [ElaborateField(fs[0])] + ElaborateFields(fs[1..])
  }

  lemma {:induction false} WordsAppend(a: seq<Piece>, b: seq<Piece>)
    ensures Words(a + b) == Words(a) + Words(b)
  {
    hide WordOf, Words;
    if a == [] {
      assert a + b == b;
      NoWords();
      assert Words(a) + Words(b) == Words(b);
    } else {
      WordsAppend(a[1..], b);
      WordsUnfold(a);
      WordsUnfold(a + b);
      assert (a + b)[0] == a[0] && (a + b)[1..] == a[1..] + b;
      assert WordOf(a[0]) + (Words(a[1..]) + Words(b)) == (WordOf(a[0]) + Words(a[1..])) + Words(b);
    }
  }

  function WordOf(p: Piece): seq<Token> {
    if p.Tok? then [p.token] else []
  }

  lemma WordsUnfold(ps: seq<Piece>)
    requires ps != []
    ensures Words(ps) == WordOf(ps[0]) + Words(ps[1..])
  {
  }

  lemma WordsInParens(ps: seq<Piece>)
    ensures Words(InParens(ps)) == [LParen] + Words(ps) + [RParen]
  {
    WordsAppend([Tok(LParen)] + ps, [Tok(RParen)]);
    WordsAppend([Tok(LParen)], ps);
  }

  lemma {:induction false} PrintsElaborated(e: Expr, p: nat, right: bool)
    ensures Words(PrintAt(e, p, right)) == Flat(Elaborate(e, p, right))
    decreases e, 1
  {
    hide PrintList, PrintFields, PrintPrefix, ElaborateList, ElaborateFields, ElaboratePrefix, FlatList, FlatFields, Words;
    match e {
      case Integer(n) => WordsOfInteger(n);
      case Nil | Bool(_) | Number(_) | Str(_) | Name(_) =>
        OneWord(PrintAt(e, p, right)[0].token);
      case Field(base, name) =>
        PrintsElaboratedPrefix(base);
        WordsAppend(PrintPrefix(base), [Tok(Dot), Tok(NameTok(name))]);
        TwoWords(Dot, NameTok(name));
      case Index(base, index) =>
        PrintsElaboratedPrefix(base);
        PrintsElaborated(index, 0, false);
        Bracketed(PrintPrefix(base), LBracket, PrintAt(index, 0, false), RBracket);
      case Call(callee, args) =>
        PrintsElaboratedPrefix(callee);
        PrintsElaboratedList(args);
        Bracketed(PrintPrefix(callee), LParen, PrintList(args), RParen);
      case MethodCall(receiver, m, args) =>
        PrintsElaboratedPrefix(receiver);
        PrintsElaboratedList(args);
        MethodWords(PrintPrefix(receiver), m, PrintList(args));
      case Unary(op, operand) =>
        var inner := PrintAt(operand, UNARY_PRECEDENCE, false);
        PrintsElaborated(operand, UNARY_PRECEDENCE, false);
        WordsAppend(PrintUnaryOp(op), inner);
        UnaryWords(op);
        WordsInParens(PrintUnaryOp(op) + inner);
      case Binary(left, op, r) =>
        PrintsElaborated(left, Precedence(op), false);
        PrintsElaborated(r, Precedence(op), true);
        var a, b := PrintAt(left, Precedence(op), false), PrintAt(r, Precedence(op), true);
        BinaryWords(a, op, b);
        WordsInParens(a + [Space, Tok(OpTok(op)), Space] + b);
      case Table(fields) =>
        PrintsElaboratedFields(fields);
        TableWords(fields);
      case Parenthesized(inner) =>
        PrintsElaborated(inner, 0, false);
        WordsInParens(PrintAt(inner, 0, false));
    }
  }

  lemma WordsOfInteger(n: int)
    ensures hide *; Words(PrintInteger(n)) == Flat(Elaborate(Integer(n), 0, false))
  {
    if n < 0 {
      TwoWords(Minus, IntTok(-n));
    } else {
      OneWord(IntTok(n));
    }
  }

  lemma OneWord(t: Token)
    ensures Words([Tok(t)]) == [t]
  {
    assert [Tok(t)][1..] == [];
  }

  lemma TwoWords(t: Token, u: Token)
    ensures Words([Tok(t), Tok(u)]) == [t, u]
  {
    assert [Tok(t), Tok(u)][1..] == [Tok(u)];
    OneWord(u);
  }

  lemma Bracketed(a: seq<Piece>, open: Token, b: seq<Piece>, close: Token)
    ensures Words(a + [Tok(open)] + b + [Tok(close)]) == Words(a) + ([open] + Words(b) + [close])
  {
    hide Words;
    WordsAppend(a + [Tok(open)] + b, [Tok(close)]);
    WordsAppend(a + [Tok(open)], b);
    WordsAppend(a, [Tok(open)]);
    OneWord(open);
    OneWord(close);
  }

  lemma MethodWords(a: seq<Piece>, m: string, b: seq<Piece>)
    ensures Words(a + [Tok(Colon), Tok(NameTok(m)), Tok(LParen)] + b + [Tok(RParen)]) == Words(a) + ([Colon, NameTok(m), LParen] + Words(b) + [RParen])
  {
    hide Words;
    var c := [Tok(Colon), Tok(NameTok(m)), Tok(LParen)];
    WordsAppend(a + c + b, [Tok(RParen)]);
    WordsAppend(a + c, b);
    WordsAppend(a, c);
    assert c == [Tok(Colon), Tok(NameTok(m))] + [Tok(LParen)];
    WordsAppend([Tok(Colon), Tok(NameTok(m))], [Tok(LParen)]);
    TwoWords(Colon, NameTok(m));
    OneWord(LParen);
    OneWord(RParen);
  }

  lemma UnaryWords(op: UnaryOp)
    ensures Words(PrintUnaryOp(op)) == [UnaryToken(op)]
  {
    if op == Not {
      assert [Tok(KwNot), Space][1..] == [Space] && [Space][1..] == [];
      assert Words([Space]) == [];
    } else {
      OneWord(UnaryToken(op));
    }
  }

  lemma SpacedWord(t: Token)
    ensures Words([Space, Tok(t), Space]) == [t]
  {
    assert [Space, Tok(t), Space] == [Space] + [Tok(t)] + [Space];
    assert [Space][1..] == [];
    WordsAppend([Space] + [Tok(t)], [Space]);
    WordsAppend([Space], [Tok(t)]);
    OneWord(t);
  }

  lemma BinaryWords(a: seq<Piece>, op: BinaryOp, b: seq<Piece>)
    ensures Words(a + [Space, Tok(OpTok(op)), Space] + b) == Words(a) + ([OpTok(op)] + Words(b))
  {
    hide Words;
    WordsAppend(a + [Space, Tok(OpTok(op)), Space], b);
    WordsAppend(a, [Space, Tok(OpTok(op)), Space]);
    SpacedWord(OpTok(op));
  }

  lemma TableWords(fields: seq<TableField>)
    ensures Words([Tok(LBrace), Space] + PrintFields(fields) + [Space, Tok(RBrace)]) == [LBrace] + Words(PrintFields(fields)) + [RBrace]
    ensures Words([Tok(LBrace), Tok(RBrace)]) == [LBrace, RBrace]
    ensures PrintFields([]) == [] && Words([]) == []
  {
    hide PrintAt, PrintField;
    var a := [Tok(LBrace), Space];
    var z := [Space, Tok(RBrace)];
    WordsAppend(a + PrintFields(fields), z);
    WordsAppend(a, PrintFields(fields));
    assert a[1..] == [Space] && [Space][1..] == [];
    assert z[1..] == [Tok(RBrace)];
    OneWord(RBrace);
    TwoWords(LBrace, RBrace);
  }

  lemma {:induction false} PrintsElaboratedPrefix(e: Expr)
    ensures Words(PrintPrefix(e)) == Flat(ElaboratePrefix(e))
    decreases e, 2
  {
    hide PrintAt, Elaborate, FlatFields, FlatList;
    PrintsElaborated(e, 0, false);
    WordsInParens(PrintAt(e, 0, false));
  }

  lemma CommaWords(a: seq<Piece>, b: seq<Piece>)
    ensures Words(a + [Tok(Comma), Space] + b) == Words(a) + [Comma] + Words(b)
  {
    WordsAppend(a + [Tok(Comma), Space], b);
    WordsAppend(a, [Tok(Comma), Space]);
    assert [Tok(Comma), Space][1..] == [Space] && [Space][1..] == [];
  }

  lemma {:induction false} PrintsElaboratedList(es: seq<Expr>)
    ensures Words(PrintList(es)) == FlatList(ElaborateList(es))
    decreases es, 0
  {
    hide PrintAt, Elaborate, Flat;
    if es != [] {
      PrintsElaborated(es[0], 0, false);
      assert ElaborateList(es)[1..] == ElaborateList(es[1..]);
      if |es| == 1 {
        assert es[1..] == [];
      } else {
        PrintsElaboratedList(es[1..]);
        CommaWords(PrintAt(es[0], 0, false), PrintList(es[1..]));
        assert |ElaborateList(es[1..])| > 0;
      }
    }
  }

  lemma {:induction false} PrintsElaboratedField(f: TableField)
    ensures Words(PrintField(f)) == FlatField(ElaborateField(f))
    decreases f, 0
  {
    hide Words, IsLuaIdentifier;
    match f {
      case Named(name, value) =>
        PrintsElaborated(value, 0, false);
        NamedWords(name, PrintAt(value, 0, false));
      case Indexed(index, value) =>
        PrintsElaborated(index, 0, false);
        PrintsElaborated(value, 0, false);
        IndexedWords(PrintAt(index, 0, false), PrintAt(value, 0, false));
      case Value(value) =>
        PrintsElaborated(value, 0, false);
    }
  }

  lemma NamedWords(name: string, v: seq<Piece>)
    ensures Words([Tok(NameTok(name))] + [Space, Tok(Assign), Space] + v) == [NameTok(name), Assign] + Words(v)
    ensures Words([Tok(LBracket), Tok(StrTok(name)), Tok(RBracket)] + [Space, Tok(Assign), Space] + v)
         == [LBracket] + [StrTok(name)] + [RBracket, Assign] + Words(v)
  {
    hide Words;
    SpacedWord(Assign);
    OneWord(NameTok(name));
    WordsAppend([Tok(NameTok(name))] + [Space, Tok(Assign), Space], v);
    WordsAppend([Tok(NameTok(name))], [Space, Tok(Assign), Space]);
    var k := [Tok(LBracket), Tok(StrTok(name)), Tok(RBracket)];
    assert k == [] + [Tok(LBracket)] + [Tok(StrTok(name))] + [Tok(RBracket)];
    OneWord(StrTok(name));
    Bracketed([], LBracket, [Tok(StrTok(name))], RBracket);
    NoWords();
    WordsAppend(k + [Space, Tok(Assign), Space], v);
    WordsAppend(k, [Space, Tok(Assign), Space]);
  }

  lemma NoWords()
    ensures Words([]) == []
  {
  }

  lemma IndexedWords(i: seq<Piece>, v: seq<Piece>)
    ensures Words([Tok(LBracket)] + i + [Tok(RBracket), Space, Tok(Assign), Space] + v) == [LBracket] + Words(i) + [RBracket, Assign] + Words(v)
  {
    hide Words;
    var m := [Tok(RBracket)] + [Space, Tok(Assign), Space];
    assert [Tok(RBracket), Space, Tok(Assign), Space] == m;
    WordsAppend([Tok(LBracket)] + i + m, v);
    WordsAppend([Tok(LBracket)] + i, m);
    WordsAppend([Tok(LBracket)], i);
    WordsAppend([Tok(RBracket)], [Space, Tok(Assign), Space]);
    OneWord(LBracket);
    OneWord(RBracket);
    SpacedWord(Assign);
  }

  lemma {:induction false} PrintsElaboratedFields(fs: seq<TableField>)
    ensures Words(PrintFields(fs)) == FlatFields(ElaborateFields(fs))
    decreases fs, 0
  {
    hide PrintField, ElaborateField, FlatField;
    if fs != [] {
      PrintsElaboratedField(fs[0]);
      assert ElaborateFields(fs)[1..] == ElaborateFields(fs[1..]);
      if |fs| == 1 {
        assert fs[1..] == [];
      } else {
        PrintsElaboratedFields(fs[1..]);
        CommaWords(PrintField(fs[0]), PrintFields(fs[1..]));
        assert |ElaborateFields(fs[1..])| > 0;
      }
    }
  }

  // ---- the parentheses are enough, and no more than enough ----

  /** On either side of an operator the printer writes parentheses exactly when Lua would regroup without them. */
  lemma ParenthesesAreExact(parent: BinaryOp, child: BinaryOp)
    ensures NeedsParens(child, Precedence(parent), false) <==> !(LeftPower(parent) <= RightPower(child))
    ensures NeedsParens(child, Precedence(parent), true) <==> !(LeftPower(child) > RightPower(parent))
    ensures NeedsParens(child, UNARY_PRECEDENCE, false) && LeftPower(child) <= UNARY_POWER
  {
  }

  lemma {:induction false} ElaborationDelimits(e: Expr, p: nat, right: bool)
    ensures hide *; var t := Elaborate(e, p, right);
            SelfDelimiting(t) && (t.Binary? ==> !NeedsParens(t.op, p, right))
    decreases e, 1
  {
    hide ElaborateList, ElaborateFields, ElaboratePrefix, NeedsParens, Precedence, LeftPower, RightPower;
    match e {
      case Nil | Bool(_) | Number(_) | Str(_) | Name(_) | Integer(_) =>
      case Field(base, _) => PrefixDelimits(base);
      case Index(base, index) =>
        PrefixDelimits(base);
        ElaborationDelimits(index, 0, false);
      case Call(callee, args) =>
        PrefixDelimits(callee);
        ListDelimits(args);
      case MethodCall(receiver, _, args) =>
        PrefixDelimits(receiver);
        ListDelimits(args);
      case Unary(_, operand) =>
        ElaborationDelimits(operand, UNARY_PRECEDENCE, false);
        var t := Elaborate(operand, UNARY_PRECEDENCE, false);
        if t.Binary? {
          ParenthesesAreExact(Or, t.op);
        }
      case Binary(left, op, r) =>
        ElaborationDelimits(left, Precedence(op), false);
        ElaborationDelimits(r, Precedence(op), true);
        var a, b := Elaborate(left, Precedence(op), false), Elaborate(r, Precedence(op), true);
        if a.Binary? { ParenthesesAreExact(op, a.op); }
        if b.Binary? { ParenthesesAreExact(op, b.op); }
      case Table(fields) => FieldsDelimit(fields);
      case Parenthesized(inner) => ElaborationDelimits(inner, 0, false);
    }
  }

  lemma {:induction false} PrefixDelimits(e: Expr)
    ensures SelfDelimiting(ElaboratePrefix(e)) && IsPrefix(ElaboratePrefix(e))
    decreases e, 2
  {
    ElaborationDelimits(e, 0, false);
  }

  lemma {:induction false} ListDelimits(es: seq<Expr>)
    ensures AllDelimiting(ElaborateList(es))
    decreases es, 0
  {
    hide Elaborate, SelfDelimiting;
    if es != [] {
      ElaborationDelimits(es[0], 0, false);
      ListDelimits(es[1..]);
      assert ElaborateList(es)[1..] == ElaborateList(es[1..]);
    }
  }

  lemma {:induction false} FieldDelimits(f: TableField)
    ensures FieldDelimiting(ElaborateField(f))
    decreases f, 0
  {
    match f {
      case Named(_, value) => ElaborationDelimits(value, 0, false);
      case Indexed(index, value) =>
        ElaborationDelimits(index, 0, false);
        ElaborationDelimits(value, 0, false);
      case Value(value) => ElaborationDelimits(value, 0, false);
    }
  }

  lemma {:induction false} FieldsDelimit(fs: seq<TableField>)
    ensures FieldsDelimiting(ElaborateFields(fs))
    decreases fs, 0
  {
    hide Elaborate, SelfDelimiting;
    if fs != [] {
      FieldDelimits(fs[0]);
      FieldsDelimit(fs[1..]);
      assert ElaborateFields(fs)[1..] == ElaborateFields(fs[1..]);
    }
  }

  // ---- what a tree means, whatever its grouping parentheses ----

  /**
   * Grouping parentheses dropped, except around a call, where they cut its results to one. A
   * negative literal reads as a negation, and a field name that is no identifier as a string key.
   */
  function Meaning(e: Expr): Expr
    decreases e, 1
  {
    match e
    case Nil | Bool(_) | Number(_) | Str(_) | Name(_) => e
    case Integer(n) => if n < 0 then Unary(Neg, Integer(-n)) else e
    case Field(base, name) => Field(Meaning(base), name)
    case Index(base, index) => Index(Meaning(base), Meaning(index))
    case Call(callee, args) => Call(Meaning(callee), MeaningList(args))
    case MethodCall(receiver, m, args) => MethodCall(Meaning(receiver), m, MeaningList(args))
    case Unary(op, operand) => Unary(op, Meaning(operand))
    case Binary(left, op, right) => Binary(Meaning(left), op, Meaning(right))
    case Table(fields) => Table(MeaningFields(fields))
    case Parenthesized(inner) =>
      var m := Meaning(inner);
      if m.Call? || m.MethodCall? then Parenthesized(m) else m
  }

  function MeaningList(es: seq<Expr>): seq<Expr>
    decreases es, 0
  {
    if es == [] then [] else [Meaning(es[0])] + MeaningList(es[1..])
  }

  function MeaningField(f: TableField): TableField
    decreases f, 0
  {
    match f
    case Named(name, value) => if IsLuaIdentifier(name) then Named(name, Meaning(value)) else Indexed(Str(name), Meaning(value))
    case Indexed(index, value) => Indexed(Meaning(index), Meaning(value))
    case Value(value) => Value(Meaning(value))
  }

  function MeaningFields(fs: seq<TableField>): seq<TableField>
    decreases fs, 0
  {
    if fs == [] then [] else [MeaningField(fs[0])] + MeaningFields(fs[1..])
  }

  lemma {:induction false} ElaborationKeepsMeaning(e: Expr, p: nat, right: bool)
    ensures Meaning(Elaborate(e, p, right)) == Meaning(e)
    decreases e, 1
  {
    hide ElaborateList, ElaborateFields, MeaningList, MeaningFields, NeedsParens, ElaboratePrefix;
    match e {
      case Nil | Bool(_) | Number(_) | Str(_) | Name(_) | Integer(_) =>
      case Field(base, _) => PrefixKeepsMeaning(base);
      case Index(base, index) =>
        PrefixKeepsMeaning(base);
        ElaborationKeepsMeaning(index, 0, false);
      case Call(callee, args) =>
        PrefixKeepsMeaning(callee);
        ListKeepsMeaning(args);
      case MethodCall(receiver, _, args) =>
        PrefixKeepsMeaning(receiver);
        ListKeepsMeaning(args);
      case Unary(_, operand) => ElaborationKeepsMeaning(operand, UNARY_PRECEDENCE, false);
      case Binary(left, op, r) =>
        ElaborationKeepsMeaning(left, Precedence(op), false);
        ElaborationKeepsMeaning(r, Precedence(op), true);
      case Table(fields) => FieldsKeepMeaning(fields);
      case Parenthesized(inner) => ElaborationKeepsMeaning(inner, 0, false);
    }
  }

  lemma {:induction false} PrefixKeepsMeaning(e: Expr)
    ensures Meaning(ElaboratePrefix(e)) == Meaning(e)
    decreases e, 2
  {
    hide Elaborate;
    ElaborationKeepsMeaning(e, 0, false);
  }

  lemma {:induction false} ListKeepsMeaning(es: seq<Expr>)
    ensures MeaningList(ElaborateList(es)) == MeaningList(es)
    decreases es, 0
  {
    hide Elaborate, Meaning;
    if es != [] {
      ElaborationKeepsMeaning(es[0], 0, false);
      ListKeepsMeaning(es[1..]);
      assert ElaborateList(es)[1..] == ElaborateList(es[1..]);
    }
  }

  lemma {:induction false} FieldKeepsMeaning(f: TableField)
    ensures MeaningField(ElaborateField(f)) == MeaningField(f)
    decreases f, 0
  {
    hide IsLuaIdentifier;
    match f {
      case Named(_, value) => ElaborationKeepsMeaning(value, 0, false);
      case Indexed(index, value) =>
        ElaborationKeepsMeaning(index, 0, false);
        ElaborationKeepsMeaning(value, 0, false);
      case Value(value) => ElaborationKeepsMeaning(value, 0, false);
    }
  }

  lemma {:induction false} FieldsKeepMeaning(fs: seq<TableField>)
    ensures MeaningFields(ElaborateFields(fs)) == MeaningFields(fs)
    decreases fs, 0
  {
    hide Elaborate, Meaning;
    if fs != [] {
      FieldKeepsMeaning(fs[0]);
      FieldsKeepMeaning(fs[1..]);
      assert ElaborateFields(fs)[1..] == ElaborateFields(fs[1..]);
    }
  }

  /** Lua reads the printed tokens of any expression, all of them, back as an expression with the same meaning. */
  lemma PrintThenParse(e: Expr)
    ensures hide *; var r := ParseExpression(Words(Print(e)));
            r.Done? && r.rest == [] && Meaning(r.value) == Meaning(e)
  {
    hide SubExpression, Operators, Flat, SelfDelimiting, Meaning, Elaborate, PrintAt, Words;
    var t := Elaborate(e, 0, false);
    PrintsElaborated(e, 0, false);
    ElaborationDelimits(e, 0, false);
    ElaborationKeepsMeaning(e, 0, false);
    assert Flat(t) + [] == Flat(t);
    if t.Binary? {
      OperatorsHavePower(t.op);
    }
    ParsesExpression(t, [], 0);
    StopsHere(t, [], 0);
  }

  lemma OperatorsHavePower(op: BinaryOp)
    ensures LeftPower(op) > 0
  {
  }
}
