/** The recursive-descent expression parser: a position in the tokens, a nesting counter and a mode flag. */
module RuaParser {
  import opened Wrappers
  import opened RuaGrammar

  datatype Result<+T> = Success(value: T) | Failure(error: Error)

  // ---- the tree the parser builds has no parentheses, and shorthand fields are spelled out ----

  function Strip(t: Tree): Tree
    decreases t
  {
    match t
    case Paren(inner) => Strip(inner)
    case VecLit(elements, _) => VecLit(StripAll(elements), false)
    case StructLit(name, fields, _) => StructLit(name, StripFields(fields), false)
    case Try(base) => Try(Strip(base))
    case Field(base, optional, name) => Field(Strip(base), optional, name)
    case MethodCall(base, optional, name, args, _) => MethodCall(Strip(base), optional, name, StripAll(args), false)
    case Call(base, args, _) => Call(Strip(base), StripAll(args), false)
    case Index(base, index) => Index(Strip(base), Strip(index))
    case Unary(uop, operand) => Unary(uop, Strip(operand))
    case Binary(op, lhs, rhs) => Binary(op, Strip(lhs), Strip(rhs))
    case Range(inclusive, lhs, rhs) => Range(inclusive, Strip(lhs), Strip(rhs))
    case Assign(op_, target, value) => Assign(op_, Strip(target), Strip(value))
    case _ => t
  }

  function StripAll(ts: seq<Tree>): (r: seq<Tree>)
    ensures |r| == |ts|
    decreases ts
  {
    if ts == [] then [] else [Strip(ts[0])] + StripAll(ts[1..])
  }

  function StripField(f: FieldTree): FieldTree
    decreases f
  {
    FieldTree(f.name, Some(if f.value.Some? then Strip(f.value.value) else Path(f.name)))
  }

  function StripFields(fs: seq<FieldTree>): (r: seq<FieldTree>)
    ensures |r| == |fs|
    decreases fs
  {
    if fs == [] then [] else [StripField(fs[0])] + StripFields(fs[1..])
  }

  lemma StripInfix(op: BinOp, inclusive: bool, t: Tree, u: Tree)
    ensures Strip(Binary(op, t, u)) == Binary(op, Strip(t), Strip(u)) && Strip(Range(inclusive, t, u)) == Range(inclusive, Strip(t), Strip(u))
  {
  }

  lemma StripNothing()
    ensures StripAll([]) == [] && StripFields([]) == []
  {
  }

  lemma {:induction false} StripAllAppend(ts: seq<Tree>, t: Tree)
    ensures StripAll(ts + [t]) == StripAll(ts) + [Strip(t)]
  {
    if ts == [] {
      assert ts + [t] == [t];
    } else {
      assert (ts + [t])[1..] == ts[1..] + [t];
      StripAllAppend(ts[1..], t);
    }
  }

  lemma {:induction false} StripFieldsAppend(fs: seq<FieldTree>, f: FieldTree)
    ensures StripFields(fs + [f]) == StripFields(fs) + [StripField(f)]
  {
    if fs == [] {
      assert fs + [f] == [f];
    } else {
      assert (fs + [f])[1..] == fs[1..] + [f];
      StripFieldsAppend(fs[1..], f);
    }
  }

  /** With some elements read, the whole list is those and what the rest parses to. */
  ghost predicate GoesOn<T>(whole: Parsed<(seq<T>, bool)>, done: seq<T>, part: Parsed<(seq<T>, bool)>) {
    match part
    case Err(e) => whole == Err(e)
    case Ok(p, rest) => whole.Ok? && whole.value.0 == done + p.0 && whole.rest == rest
  }

  // ---- one step of the grammar ----

  lemma ExprStarts(ts: seq<Token>, m: Mode)
    requires hide *; m.depth < m.max
    ensures var lhs := ParseBin(ts, 0, m.Deeper());
            ParseExpr(ts, m) ==
            if lhs.Err? || lhs.rest == [] || !lhs.rest[0].AssignTok? then lhs
            else
              var value := ParseExpr(lhs.rest[1..], m.Deeper());
              if value.Err? then value else Ok(Assign(lhs.rest[0].op_, lhs.value, value.value), value.rest)
  {
  }

  lemma BinStarts(ts: seq<Token>, min: nat, m: Mode)
    requires hide *; m.depth < m.max
    ensures var lhs := ParseUnary(ts, m.Deeper());
            ParseBin(ts, min, m) == if lhs.Err? then lhs else Infix(lhs.value, lhs.rest, min, m.Deeper())
  {
  }

  lemma InfixTakes(lhs: Tree, ts: seq<Token>, min: nat, m: Mode)
    requires hide *; ts != [] && InfixPower(ts[0]).Some? && InfixPower(ts[0]).value >= min
    ensures var rhs := ParseBin(ts[1..], InfixPower(ts[0]).value + 1, m);
            Infix(lhs, ts, min, m) == if rhs.Err? then rhs else Infix(Join(ts[0], lhs, rhs.value), rhs.rest, min, m)
  {
  }

  lemma InfixEnds(lhs: Tree, ts: seq<Token>, min: nat, m: Mode)
    requires hide *; ts == [] || InfixPower(ts[0]).None? || InfixPower(ts[0]).value < min
    ensures Infix(lhs, ts, min, m) == Ok(lhs, ts)
  {
  }

  lemma PostfixStarts(ts: seq<Token>, m: Mode)
    ensures hide *; var base := ParsePrimary(ts, m);
            ParsePostfix(ts, m) == if base.Err? then base else Suffixes(base.value, base.rest, m)
  {
  }

  lemma SuffixCall(base: Tree, ts: seq<Token>, m: Mode)
    requires At(ts, LParen)
    ensures var args := ParseList(ts[1..], RParen, m);
            Suffixes(base, ts, m) == if args.Err? then Err(args.error) else Suffixes(Call(base, args.value.0, args.value.1), args.rest, m)
  {
  }

  lemma SuffixDot(base: Tree, ts: seq<Token>, m: Mode)
    requires ts != [] && ts[0].Dot?
    ensures Suffixes(base, ts, m) ==
            if |ts| < 2 || !ts[1].Word? then Err(Unexpected)
            else if At(ts[2..], LParen) then
              var args := ParseList(ts[3..], RParen, m);
              if args.Err? then Err(args.error)
              else Suffixes(MethodCall(base, ts[0].optional, ts[1].text, args.value.0, args.value.1), args.rest, m)
            else Suffixes(Field(base, ts[0].optional, ts[1].text), ts[2..], m)
  {
  }

  lemma SuffixTry(base: Tree, ts: seq<Token>, m: Mode)
    requires At(ts, Question)
    ensures Suffixes(base, ts, m) == Suffixes(Try(base), ts[1..], m)
  {
  }

  lemma SuffixIndex(base: Tree, ts: seq<Token>, m: Mode)
    requires At(ts, LBracket)
    ensures var index := ParseExpr(ts[1..], m.Open());
            Suffixes(base, ts, m) ==
            if index.Err? then index else if !At(index.rest, RBracket) then Err(Unexpected)
            else Suffixes(Index(base, index.value), index.rest[1..], m)
  {
    hide Infix;
  }

  lemma SuffixesEnd(base: Tree, ts: seq<Token>, m: Mode)
    requires hide *; ts == [] || (ts[0] != LParen && !ts[0].Dot? && ts[0] != Question && ts[0] != LBracket)
    ensures Suffixes(base, ts, m) == Ok(base, ts)
  {
  }

  /** How the list goes on after an element. */
  lemma ListTakes(ts: seq<Token>, close: Token, m: Mode)
    requires !At(ts, close) && !(ts == [] && close == RBracket)
    ensures var first := ParseExpr(ts, m.Open());
            && (first.Err? ==> ParseList(ts, close, m) == Err(first.error))
            && (first.Ok? && At(first.rest, Comma) ==>
                  GoesOn(ParseList(ts, close, m), [first.value], ParseList(first.rest[1..], close, m)))
            && (first.Ok? && !At(first.rest, Comma) ==>
                  ParseList(ts, close, m) == if At(first.rest, close) then Ok(([first.value], false), first.rest[1..]) else Err(Unexpected))
  {
    hide ParseExpr;
  }

  lemma ListCloses(ts: seq<Token>, close: Token, m: Mode)
    requires At(ts, close) || (ts == [] && close == RBracket)
    ensures ParseList(ts, close, m) == if At(ts, close) then Ok(([], false), ts[1..]) else Err(Unexpected)
  {
  }

  lemma FieldsTake(ts: seq<Token>, m: Mode)
    requires !At(ts, RBrace)
    ensures var first := ParseField(ts, m);
            && (first.Err? ==> ParseFields(ts, m) == Err(first.error))
            && (first.Ok? && At(first.rest, Comma) ==>
                  GoesOn(ParseFields(ts, m), [first.value], ParseFields(first.rest[1..], m)))
            && (first.Ok? && !At(first.rest, Comma) ==>
                  ParseFields(ts, m) == if At(first.rest, RBrace) then Ok(([first.value], false), first.rest[1..]) else Err(Unexpected))
  {
    hide ParseField;
  }

  lemma FieldsClose(ts: seq<Token>, m: Mode)
    requires At(ts, RBrace)
    ensures ParseFields(ts, m) == Ok(([], false), ts[1..])
  {
  }

  lemma GoesOnThen<T>(whole: Parsed<(seq<T>, bool)>, done: seq<T>, part: Parsed<(seq<T>, bool)>, x: T, more: Parsed<(seq<T>, bool)>)
    requires GoesOn(whole, done, part) && GoesOn(part, [x], more)
    ensures GoesOn(whole, done + [x], more)
  {
    if more.Ok? {
      assert done + ([x] + more.value.0) == done + [x] + more.value.0;
    }
  }

  lemma GoesOnFails<T>(whole: Parsed<(seq<T>, bool)>, done: seq<T>, part: Parsed<(seq<T>, bool)>)
    requires GoesOn(whole, done, part) && part.Err?
    ensures whole == part
  {
  }

  lemma GoesOnLast<T>(whole: Parsed<(seq<T>, bool)>, done: seq<T>, part: Parsed<(seq<T>, bool)>, x: T, rest: seq<Token>)
    requires GoesOn(whole, done, part) && part == Ok(([x], false), rest)
    ensures whole.Ok? && whole.value.0 == done + [x] && whole.rest == rest
  {
  }

  lemma GoesOnFromStart<T>(whole: Parsed<(seq<T>, bool)>)
    ensures GoesOn(whole, [], whole)
  {
    if whole.Ok? {
      assert [] + whole.value.0 == whole.value.0;
    }
  }

  lemma GoesOnToEnd<T>(whole: Parsed<(seq<T>, bool)>, done: seq<T>, rest: seq<Token>)
    requires GoesOn(whole, done, Ok(([], false), rest))
    ensures whole.Ok? && whole.value.0 == done && whole.rest == rest
  {
    assert done + [] == done;
  }

  class Parser {
    const tokens: seq<Token>
    const maxNesting: nat
    var position: nat
    var nesting: nat
    var noStruct: bool

    ghost predicate Valid()
      reads this`position
    {
      position <= |tokens|
    }

    /** The tokens that are left. */
    ghost function Rest(): seq<Token>
      requires Valid()
      reads this`position
    {
      tokens[position..]
    }

    ghost function Now(): Mode
      reads this`nesting, this`noStruct
    {
      Mode(noStruct, nesting, maxNesting)
    }

    /** The mode of the call whose body is running one level deeper. */
    ghost function Outer(): Mode
      requires nesting > 0
      reads this`nesting, this`noStruct
    {
      Mode(noStruct, nesting - 1, maxNesting)
    }

    /** The result is the stripped tree and the position is after its tokens, or the error is the same. */
    ghost predicate Follows(p: Parsed<Tree>, r: Result<Tree>)
      requires Valid()
      reads this`position
    {
      match p
      case Ok(t, rest) => r == Success(Strip(t)) && Rest() == rest
      case Err(e) => r == Failure(e)
    }

    constructor (tokens: seq<Token>, maxNesting: nat)
      ensures Valid() && Rest() == tokens && Now() == Mode(false, 0, maxNesting)
    {
      this.tokens, this.maxNesting := tokens, maxNesting;
      position, nesting, noStruct := 0, 0, false;
    }

    /** The current token, or None at the end of input. */
    function Cur(): (t: Option<Token>)
      requires Valid()
      reads this`position
      ensures t == if Rest() == [] then None else Some(Rest()[0])
      ensures t.None? <==> position == |tokens|
    {
      if position < |tokens| then Some(tokens[position]) else None
    }

    method Bump()
      requires Valid() && Cur().Some?
      modifies this`position
      ensures Valid() && position == old(position) + 1 && Rest() == old(Rest())[1..]
    {
      position := position + 1;
    }

    method Accept(t: Token) returns (found: bool)
      requires Valid()
      modifies this`position
      ensures Valid() && found == At(old(Rest()), t)
      ensures if found then position == old(position) + 1 && Rest() == old(Rest())[1..] else position == old(position)
    {
      found := Cur() == Some(t);
      if found {
        Bump();
      }
    }

    method ParseExprAllowStruct() returns (r: Result<Tree>)
      requires Valid()
      modifies this
      ensures Valid() && nesting == old(nesting) && noStruct == old(noStruct) && position >= old(position)
      ensures Follows(ParseExpr(old(Rest()), old(Now()).Open()), r)
      decreases |tokens| - position, 12
    {
      var saved := noStruct;
      noStruct := false;
      r := ParseExpression();
      noStruct := saved;
    }

    method ParseExpression() returns (r: Result<Tree>)
      requires Valid()
      modifies this
      ensures Valid() && nesting == old(nesting) && noStruct == old(noStruct) && position >= old(position)
      ensures Follows(ParseExpr(old(Rest()), old(Now())), r)
      decreases |tokens| - position, 11
    {
      if nesting >= maxNesting {
        return Failure(BudgetExceeded);
      }
      nesting := nesting + 1;
      r := ParseExpressionInner();
      nesting := nesting - 1;
    }

    method ParseExpressionInner() returns (r: Result<Tree>)
      requires Valid() && 0 < nesting <= maxNesting
      modifies this
      ensures Valid() && nesting == old(nesting) && noStruct == old(noStruct) && position >= old(position)
      ensures Follows(ParseExpr(old(Rest()), old(Outer())), r)
      decreases |tokens| - position, 10
    {
      hide Rest, ParseExpr, ParseBin;
      ExprStarts(Rest(), Outer());
      var lhs := ParseBinary(0);
      if lhs.Failure? {
        return lhs;
      }
      if Cur().Some? && Cur().value.AssignTok? {
        var op := Cur().value.op_;
        Bump();
        var value := ParseExpression();
        if value.Failure? {
          return value;
        }
        return Success(Assign(op, lhs.value, value.value));
      }
      return lhs;
    }

    method ParseBinary(min: nat) returns (r: Result<Tree>)
      requires Valid()
      modifies this
      ensures Valid() && nesting == old(nesting) && noStruct == old(noStruct) && position >= old(position)
      ensures Follows(ParseBin(old(Rest()), min, old(Now())), r)
      decreases |tokens| - position, 9
    {
      if nesting >= maxNesting {
        return Failure(BudgetExceeded);
      }
      nesting := nesting + 1;
      r := ParseBinaryInner(min);
      nesting := nesting - 1;
    }

    method ParseBinaryInner(min: nat) returns (r: Result<Tree>)
      requires Valid() && 0 < nesting <= maxNesting
      modifies this
      ensures Valid() && nesting == old(nesting) && noStruct == old(noStruct) && position >= old(position)
      ensures Follows(ParseBin(old(Rest()), min, old(Outer())), r)
      decreases |tokens| - position, 8
    {
      hide Rest, ParseBin, ParseUnary, Infix, Strip;
      ghost var whole := ParseBin(Rest(), min, Outer());
      ghost var first := ParseUnary(Rest(), Now());
      BinStarts(Rest(), min, Outer());
      var operand := ParsePrefix();
      if operand.Failure? {
        return operand;
      }
      var lhs := operand.value;
      ghost var t := first.value;
      while true
        invariant Valid() && nesting == old(nesting) && noStruct == old(noStruct) && position > old(position)
        invariant lhs == Strip(t)
        invariant whole == Infix(t, Rest(), min, Now())
        decreases |tokens| - position
      {
        ghost var ts := Rest();
        if Cur().Some? && Cur().value.DotDot? {
          var inclusive := Cur().value.inclusive;
          if RANGE_POWER < min {
            break;
          }
          InfixTakes(t, ts, min, Now());
          Bump();
          ghost var right := ParseBin(Rest(), RANGE_POWER + 1, Now());
          var rhs := ParseBinary(RANGE_POWER + 1);
          if rhs.Failure? {
            return rhs;
          }
          lhs := Range(inclusive, lhs, rhs.value);
          StripInfix(Add, inclusive, t, right.value);
          t := Range(inclusive, t, right.value);
          continue;
        }
        if Cur().None? || !Cur().value.OpTok? || Power(Cur().value.op) < min {
          break;
        }
        var op := Cur().value.op;
        InfixTakes(t, ts, min, Now());
        Bump();
        ghost var right := ParseBin(Rest(), Power(op) + 1, Now());
        var rhs := ParseBinary(Power(op) + 1);
        if rhs.Failure? {
          return rhs;
        }
        lhs := Binary(op, lhs, rhs.value);
        StripInfix(op, false, t, right.value);
        t := Binary(op, t, right.value);
      }
      InfixEnds(t, Rest(), min, Now());
      return Success(lhs);
    }

    method ParsePrefix() returns (r: Result<Tree>)
      requires Valid()
      modifies this
      ensures Valid() && nesting == old(nesting) && noStruct == old(noStruct)
      ensures position >= old(position) && (r.Success? ==> position > old(position))
      ensures Follows(ParseUnary(old(Rest()), old(Now())), r)
      decreases |tokens| - position, 7
    {
      if nesting >= maxNesting {
        return Failure(BudgetExceeded);
      }
      nesting := nesting + 1;
      r := ParsePrefixInner();
      nesting := nesting - 1;
    }

    method ParsePrefixInner() returns (r: Result<Tree>)
      requires Valid() && 0 < nesting <= maxNesting
      modifies this
      ensures Valid() && nesting == old(nesting) && noStruct == old(noStruct)
      ensures position >= old(position) && (r.Success? ==> position > old(position))
      ensures Follows(ParseUnary(old(Rest()), old(Outer())), r)
      decreases |tokens| - position, 6
    {
      hide Rest, ParsePostfix;
      if Cur() == Some(OpTok(Sub)) || Cur() == Some(Bang) {
        var op := if Cur() == Some(Bang) then Not else Neg;
        Bump();
        var operand := ParsePrefix();
        if operand.Failure? {
          return operand;
        }
        return Success(Unary(op, operand.value));
      }
      r := ParseSuffixed();
    }

    method ParseSuffixed() returns (r: Result<Tree>)
      requires Valid()
      modifies this
      ensures Valid() && nesting == old(nesting) && noStruct == old(noStruct)
      ensures position >= old(position) && (r.Success? ==> position > old(position))
      ensures Follows(ParsePostfix(old(Rest()), old(Now())), r)
      decreases |tokens| - position, 5
    {
      hide Rest, ParsePostfix, ParsePrimary, Suffixes;
      ghost var whole := ParsePostfix(Rest(), Now());
      ghost var first := ParsePrimary(Rest(), Now());
      PostfixStarts(Rest(), Now());
      var primary := ParseAtom();
      if primary.Failure? {
        return primary;
      }
      var e := primary.value;
      ghost var t := first.value;
      while Cur() == Some(LParen) || (Cur().Some? && Cur().value.Dot?) || Cur() == Some(Question) || Cur() == Some(LBracket)
        invariant Valid() && nesting == old(nesting) && noStruct == old(noStruct) && position > old(position)
        invariant e == Strip(t)
        invariant whole == Suffixes(t, Rest(), Now())
        decreases |tokens| - position
      {
        ghost var u;
        var next: Result<Tree>;
        next, u := ParseSuffix(e, t);
        if next.Failure? {
          return next;
        }
        e, t := next.value, u;
      }
      SuffixesEnd(t, Rest(), Now());
      return Success(e);
    }

    /** One suffix after e, whose tree is t. */
    method ParseSuffix(e: Tree, ghost t: Tree) returns (r: Result<Tree>, ghost u: Tree)
      requires Valid() && e == Strip(t)
      requires Cur() == Some(LParen) || (Cur().Some? && Cur().value.Dot?) || Cur() == Some(Question) || Cur() == Some(LBracket)
      modifies this
      ensures Valid() && nesting == old(nesting) && noStruct == old(noStruct) && position > old(position)
      ensures r.Success? ==> r.value == Strip(u) && Suffixes(t, old(Rest()), old(Now())) == Suffixes(u, Rest(), Now())
      ensures r.Failure? ==> Suffixes(t, old(Rest()), old(Now())) == Err(r.error)
      decreases |tokens| - position, 4
    {
      hide Rest, Suffixes, ParseList, ParseExpr;
      u := t;
      match Cur().value {
        case LParen =>
          SuffixCall(t, Rest(), Now());
          ghost var list := ParseList(Rest()[1..], RParen, Now());
          var args := ParseDelimited(LParen, RParen);
          if args.Failure? {
            return Failure(args.error), u;
          }
          return Success(Call(e, args.value, false)), Call(t, list.value.0, list.value.1);
        case Dot(_) =>
          r, u := ParseMember(e, t);
        case Question =>
          SuffixTry(t, Rest(), Now());
          Bump();
          return Success(Try(e)), Try(t);
        case LBracket =>
          SuffixIndex(t, Rest(), Now());
          Bump();
          ghost var inner := ParseExpr(Rest(), Now().Open());
          var index := ParseExprAllowStruct();
          if index.Failure? {
            return index, u;
          }
          var closed := Accept(RBracket);
          if !closed {
            return Failure(Unexpected), u;
          }
          return Success(Index(e, index.value)), Index(t, inner.value);
      }
    }

    /** A field or a method call after e. */
    method ParseMember(e: Tree, ghost t: Tree) returns (r: Result<Tree>, ghost u: Tree)
      requires Valid() && e == Strip(t) && Cur().Some? && Cur().value.Dot?
      modifies this
      ensures Valid() && nesting == old(nesting) && noStruct == old(noStruct) && position > old(position)
      ensures r.Success? ==> r.value == Strip(u) && Suffixes(t, old(Rest()), old(Now())) == Suffixes(u, Rest(), Now())
      ensures r.Failure? ==> Suffixes(t, old(Rest()), old(Now())) == Err(r.error)
      decreases |tokens| - position, 3
    {
      hide Rest, Suffixes, ParseList, ParseExpr;
      u := t;
      var optional := Cur().value.optional;
      SuffixDot(t, Rest(), Now());
      Bump();
      if Cur().None? || !Cur().value.Word? {
        return Failure(Unexpected), u;
      }
      var name := Cur().value.text;
      Bump();
      assert Rest() == old(Rest())[2..];
      if Cur() == Some(LParen) {
        assert Rest()[1..] == old(Rest())[3..];
        ghost var list := ParseList(Rest()[1..], RParen, Now());
        var args := ParseDelimited(LParen, RParen);
        if args.Failure? {
          return Failure(args.error), u;
        }
        return Success(MethodCall(e, optional, name, args.value, false)), MethodCall(t, optional, name, list.value.0, list.value.1);
      }
      return Success(Field(e, optional, name)), Field(t, optional, name);
    }

    /** An opening token, expressions separated by commas, and a closing token. */
    method ParseDelimited(open: Token, close: Token) returns (r: Result<seq<Tree>>)
      requires Valid() && Cur() == Some(open)
      modifies this
      ensures Valid() && nesting == old(nesting) && noStruct == old(noStruct) && position > old(position)
      ensures match ParseList(old(Rest())[1..], close, old(Now()))
              case Ok(p, rest) => r == Success(StripAll(p.0)) && Rest() == rest
              case Err(e) => r == Failure(e)
      decreases |tokens| - position, 3
    {
      hide Rest, ParseList, ParseExpr, StripAll, GoesOn;
      Bump();
      ghost var whole := ParseList(Rest(), close, Now());
      ghost var done: seq<Tree> := [];
      var elements: seq<Tree> := [];
      GoesOnFromStart(whole);
      StripNothing();
      while Cur() != Some(close) && (close != RBracket || Cur().Some?)
        invariant Valid() && nesting == old(nesting) && noStruct == old(noStruct) && position > old(position)
        invariant elements == StripAll(done)
        invariant GoesOn(whole, done, ParseList(Rest(), close, Now()))
        decreases |tokens| - position
      {
        ghost var part := ParseList(Rest(), close, Now());
        ghost var first := ParseExpr(Rest(), Now().Open());
        ListTakes(Rest(), close, Now());
        var element := ParseExprAllowStruct();
        if element.Failure? {
          GoesOnFails(whole, done, part);
          return Failure(element.error);
        }
        elements := elements + [element.value];
        StripAllAppend(done, first.value);
        var comma := Accept(Comma);
        if !comma {
          var closed := Accept(close);
          if closed {
            GoesOnLast(whole, done, part, first.value, Rest());
            return Success(elements);
          }
          GoesOnFails(whole, done, part);
          return Failure(Unexpected);
        }
        GoesOnThen(whole, done, part, first.value, ParseList(Rest(), close, Now()));
        done := done + [first.value];
      }
      ListCloses(Rest(), close, Now());
      ghost var last := ParseList(Rest(), close, Now());
      var closed := Accept(close);
      if !closed {
        GoesOnFails(whole, done, last);
        return Failure(Unexpected);
      }
      GoesOnToEnd(whole, done, Rest());
      return Success(elements);
    }

    method ParseAtom() returns (r: Result<Tree>)
      requires Valid()
      modifies this
      ensures Valid() && nesting == old(nesting) && noStruct == old(noStruct)
      ensures position >= old(position) && (r.Success? ==> position > old(position))
      ensures Follows(ParsePrimary(old(Rest()), old(Now())), r)
      decreases |tokens| - position, 4
    {
      hide Rest, ParseExpr, ParseList, ParseFields, StripAll, StripFields;
      if Cur().None? {
        return Failure(Unexpected);
      }
      match Cur().value {
        case Literal(text) =>
          Bump();
          return Success(Lit(text));
        case Word(name) =>
          Bump();
          if !noStruct && Cur() == Some(LBrace) {
            assert Rest()[1..] == old(Rest())[2..];
            var fields := ParseStructFields();
            if fields.Failure? {
              return Failure(fields.error);
            }
            return Success(StructLit(name, fields.value, false));
          }
          return Success(Path(name));
        case LParen =>
          Bump();
          var e := ParseExprAllowStruct();
          if e.Failure? {
            return e;
          }
          var closed := Accept(RParen);
          if !closed {
            return Failure(Unexpected);
          }
          return e;
        case LBracket =>
          var elements := ParseDelimited(LBracket, RBracket);
          if elements.Failure? {
            return Failure(elements.error);
          }
          return Success(VecLit(elements.value, false));
        case _ => return Failure(Unexpected);
      }
    }

    method ParseStructFields() returns (r: Result<seq<FieldTree>>)
      requires Valid() && Cur() == Some(LBrace)
      modifies this
      ensures Valid() && nesting == old(nesting) && noStruct == old(noStruct) && position > old(position)
      ensures match ParseFields(old(Rest())[1..], old(Now()))
              case Ok(p, rest) => r == Success(StripFields(p.0)) && Rest() == rest
              case Err(e) => r == Failure(e)
      decreases |tokens| - position, 3
    {
      hide Rest, ParseFields, ParseField, StripFields, StripField, GoesOn;
      Bump();
      ghost var whole := ParseFields(Rest(), Now());
      ghost var done: seq<FieldTree> := [];
      var fields: seq<FieldTree> := [];
      GoesOnFromStart(whole);
      StripNothing();
      while Cur() != Some(RBrace)
        invariant Valid() && nesting == old(nesting) && noStruct == old(noStruct) && position > old(position)
        invariant fields == StripFields(done)
        invariant GoesOn(whole, done, ParseFields(Rest(), Now()))
        decreases |tokens| - position
      {
        ghost var part := ParseFields(Rest(), Now());
        ghost var first := ParseField(Rest(), Now());
        FieldsTake(Rest(), Now());
        var field := ParseStructField();
        if field.Failure? {
          GoesOnFails(whole, done, part);
          return Failure(field.error);
        }
        fields := fields + [field.value];
        StripFieldsAppend(done, first.value);
        var comma := Accept(Comma);
        if !comma {
          var closed := Accept(RBrace);
          if closed {
            GoesOnLast(whole, done, part, first.value, Rest());
            return Success(fields);
          }
          GoesOnFails(whole, done, part);
          return Failure(Unexpected);
        }
        GoesOnThen(whole, done, part, first.value, ParseFields(Rest(), Now()));
        done := done + [first.value];
      }
      FieldsClose(Rest(), Now());
      Bump();
      GoesOnToEnd(whole, done, Rest());
      return Success(fields);
    }

    method ParseStructField() returns (r: Result<FieldTree>)
      requires Valid()
      modifies this
      ensures Valid() && nesting == old(nesting) && noStruct == old(noStruct)
      ensures position >= old(position) && (r.Success? ==> position > old(position))
      ensures match ParseField(old(Rest()), old(Now()))
              case Ok(f, rest) => r == Success(StripField(f)) && Rest() == rest
              case Err(e) => r == Failure(e)
      decreases |tokens| - position, 13
    {
      hide Rest, ParseExpr;
      if Cur().None? || !Cur().value.Word? {
        return Failure(Unexpected);
      }
      var name := Cur().value.text;
      Bump();
      var colon := Accept(Colon);
      if colon {
        assert Rest() == old(Rest())[2..];
        var value := ParseExprAllowStruct();
        if value.Failure? {
          return Failure(value.error);
        }
        return Success(FieldTree(name, Some(value.value)));
      }
      return Success(FieldTree(name, Some(Path(name))));
    }
  }
}
