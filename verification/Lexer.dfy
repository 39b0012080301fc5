/** The lexer that both parsers share: a text of UTF-8 bytes is cut into tokens without gaps. */
module Lexer {
  import opened Wrappers

  type Byte = n: int | 0 <= n < 256

  type Text = seq<Byte>

  // ---- characters ----

  predicate Continuation(b: Byte) { 0x80 <= b < 0xC0 }

  /** The number of bytes of the character that this byte starts. */
  function Width(b: Byte): nat {
    if b < 0x80 then 1 else if b < 0xE0 then 2 else if b < 0xF0 then 3 else 4
  }

  /** A character may start here, or the text ends. */
  predicate Boundary(s: Text, i: int) {
    0 <= i <= |s| && (i < |s| ==> !Continuation(s[i]))
  }

  /** A character starts here, has its continuation bytes, and the next one follows. */
  ghost predicate Character(s: Text, i: nat)
    requires i < |s|
  {
    Boundary(s, i + Width(s[i])) && forall k :: i < k < i + Width(s[i]) ==> Continuation(s[k])
  }

  ghost predicate Utf8(s: Text) {
    Boundary(s, 0) && forall i {:trigger Width(s[i])} :: 0 <= i < |s| && !Continuation(s[i]) ==> Character(s, i)
  }

  predicate Is(s: Text, i: int, c: char) { 0 <= i < |s| && s[i] == c as int }

  /** Behind a character of one byte another one starts. */
  lemma AfterAscii(s: Text, i: nat)
    requires Utf8(s) && 0 < i <= |s| && s[i - 1] < 0x80
    ensures Boundary(s, i)
  {
    assert Boundary(s, i - 1 + Width(s[i - 1]));
  }

  predicate IsBlank(b: Byte) { b == 32 || 9 <= b <= 13 }

  predicate IsDigit(b: Byte) { '0' as int <= b <= '9' as int }

  predicate IsNameStart(b: Byte) { b == '_' as int || 'a' as int <= b <= 'z' as int || 'A' as int <= b <= 'Z' as int }

  predicate IsNameContinue(b: Byte) { IsNameStart(b) || IsDigit(b) }

  predicate IsDigitOrLine(b: Byte) { IsDigit(b) || b == '_' as int }

  predicate IsNoLineEnd(b: Byte) { b != 10 && b != 13 }

  // ---- runs of bytes of one class ----

  function RunEnd(s: Text, i: nat, p: Byte -> bool): (e: nat)
    requires i <= |s|
    ensures i <= e <= |s| && (forall k :: i <= k < e ==> p(s[k])) && (e < |s| ==> !p(s[e]))
    decreases |s| - i
  {
    if i < |s| && p(s[i]) then RunEnd(s, i + 1, p) else i
  }

  method FindRunEnd(s: Text, i: nat, p: Byte -> bool) returns (e: nat)
    requires i <= |s|
    ensures e == RunEnd(s, i, p)
  {
    e := i;
    while e < |s| && p(s[e])
      invariant i <= e <= |s| && RunEnd(s, i, p) == RunEnd(s, e, p)
    {
      e := e + 1;
    }
  }

  // ---- block comments and strings ----

  datatype Stop = Stop(end: nat, open: nat)

  /** Where a comment that is open so many times closes, or the end of the text with what is still open. */
  function CommentEnd(s: Text, i: nat, depth: nat): (r: Stop)
    requires Utf8(s) && Boundary(s, i)
    ensures i <= r.end <= |s| && Boundary(s, r.end) && (r.open > 0 ==> r.end == |s|)
    decreases |s| - i
  {
    if i == |s| || depth == 0 then Stop(i, depth)
    else if Is(s, i, '/') && Is(s, i + 1, '*') then AfterAscii(s, i + 2); CommentEnd(s, i + 2, depth + 1)
    else if Is(s, i, '*') && Is(s, i + 1, '/') then AfterAscii(s, i + 2); CommentEnd(s, i + 2, depth - 1)
    else CommentEnd(s, i + Width(s[i]), depth)
  }

  method FindCommentEnd(s: Text, i: nat, nested: nat) returns (r: Stop)
    requires Utf8(s) && Boundary(s, i)
    ensures r == CommentEnd(s, i, nested)
  {
    var end, depth := i, nested;
    while end < |s| && depth > 0
      invariant Boundary(s, end) && CommentEnd(s, i, nested) == CommentEnd(s, end, depth)
      decreases |s| - end
    {
      if Is(s, end, '/') && Is(s, end + 1, '*') {
        depth := depth + 1;
        end := end + 2;
        AfterAscii(s, end);
      } else if Is(s, end, '*') && Is(s, end + 1, '/') {
        depth := depth - 1;
        end := end + 2;
        AfterAscii(s, end);
      } else {
        end := end + Width(s[end]);
      }
    }
    return Stop(end, depth);
  }

  datatype Quoted = Quoted(end: nat, terminated: bool)

  function StringEnd(s: Text, i: nat): (r: Quoted)
    requires Utf8(s) && Boundary(s, i)
    ensures i <= r.end <= |s| && Boundary(s, r.end)
    decreases |s| - i
  {
    if i == |s| then Quoted(i, false)
    else if Is(s, i, '"') then AfterAscii(s, i + 1); Quoted(i + 1, true)
    else if Is(s, i, '\\') then AfterAscii(s, i + 1); (if i + 1 < |s| then StringEnd(s, i + 1 + Width(s[i + 1])) else Quoted(i + 1, false))
    else if !IsNoLineEnd(s[i]) then Quoted(i, false)
    else StringEnd(s, i + Width(s[i]))
  }

  method FindStringEnd(s: Text, i: nat) returns (r: Quoted)
    requires Utf8(s) && Boundary(s, i)
    ensures r == StringEnd(s, i)
  {
    var end := i;
    while end < |s|
      invariant Boundary(s, end) && StringEnd(s, i) == StringEnd(s, end)
      decreases |s| - end
    {
      if Is(s, end, '"') {
        return Quoted(end + 1, true);
      } else if Is(s, end, '\\') {
        end := end + 1;
        AfterAscii(s, end);
        if end < |s| {
          end := end + Width(s[end]);
        }
      } else if !IsNoLineEnd(s[end]) {
        break;
      } else {
        end := end + Width(s[end]);
      }
    }
    return Quoted(end, false);
  }

  // ---- Lua text ----

  /** After the opening quote: behind the closing one, or the end of the text. A backslash takes the next byte with it. */
  function LuaQuoteEnd(s: Text, i: nat, quote: Byte): (e: nat)
    requires i <= |s|
    ensures i <= e <= |s|
    decreases |s| - i
  {
    if i == |s| then |s|
    else if Is(s, i, '\\') then (if i + 2 <= |s| then LuaQuoteEnd(s, i + 2, quote) else |s|)
    else if s[i] == quote then i + 1
    else LuaQuoteEnd(s, i + 1, quote)
  }

  method SkipLuaQuoted(s: Text, start: nat) returns (r: Option<nat>)
    ensures r == LuaQuoted(s, start)
  {
    if start >= |s| || !(Is(s, start, '\'') || Is(s, start, '"')) {
      return None;
    }
    var quote := s[start];
    var cursor := start + 1;
    while cursor < |s|
      invariant start < cursor <= |s| && LuaQuoteEnd(s, start + 1, quote) == LuaQuoteEnd(s, cursor, quote)
    {
      if Is(s, cursor, '\\') {
        cursor := if cursor + 2 <= |s| then cursor + 2 else |s|;
      } else if s[cursor] == quote {
        return Some(cursor + 1);
      } else {
        cursor := cursor + 1;
      }
    }
    return Some(|s|);
  }

  function LuaQuoted(s: Text, start: nat): (r: Option<nat>)
    ensures r.Some? ==> start < r.value <= |s|
  {
    if start < |s| && (Is(s, start, '\'') || Is(s, start, '"')) then Some(LuaQuoteEnd(s, start + 1, s[start])) else None
  }

  predicate IsEqualSign(b: Byte) { b == '=' as int }

  /** `]`, as many `=` as the opening bracket has, `]`. */
  predicate ClosesAt(s: Text, i: nat, level: nat) {
    Is(s, i, ']') && i + 1 + level < |s| && (forall k :: i < k <= i + level ==> s[k] == '=' as int) && Is(s, i + 1 + level, ']')
  }

  function LongEnd(s: Text, i: nat, level: nat): (e: nat)
    requires i <= |s|
    ensures i <= e <= |s|
    decreases |s| - i
  {
    if i == |s| then |s| else if ClosesAt(s, i, level) then i + level + 2 else LongEnd(s, i + 1, level)
  }

  /** A long bracket: behind its closing bracket of the same level, or the end of the text. */
  function LongBracket(s: Text, start: nat): (r: Option<nat>)
    ensures r.Some? ==> start < r.value <= |s|
  {
    if !Is(s, start, '[') then None
    else
      var open := RunEnd(s, start + 1, IsEqualSign);
      if Is(s, open, '[') then Some(LongEnd(s, open + 1, open - start - 1)) else None
  }

  method FindClose(s: Text, i: nat, level: nat) returns (closes: bool)
    ensures closes == ClosesAt(s, i, level)
  {
    if !Is(s, i, ']') {
      return false;
    }
    var close, matched := i + 1, 0;
    while matched < level && Is(s, close, '=')
      invariant 0 <= matched <= level && close == i + 1 + matched <= |s|
      invariant forall k :: i < k < close ==> s[k] == '=' as int
    {
      matched, close := matched + 1, close + 1;
    }
    return matched == level && Is(s, close, ']');
  }

  method SkipLongBracket(s: Text, start: nat) returns (r: Option<nat>)
    ensures r == LongBracket(s, start)
  {
    hide RunEnd, ClosesAt;
    if !Is(s, start, '[') {
      return None;
    }
    var cursor := FindRunEnd(s, start + 1, IsEqualSign);
    if !Is(s, cursor, '[') {
      return None;
    }
    var level := cursor - start - 1;
    cursor := cursor + 1;
    ghost var from := cursor;
    while cursor < |s|
      invariant from <= cursor <= |s| && LongEnd(s, from, level) == LongEnd(s, cursor, level)
    {
      var closes := FindClose(s, cursor, level);
      if closes {
        return Some(cursor + level + 2);
      }
      cursor := cursor + 1;
    }
    return Some(|s|);
  }

  predicate Reads(s: Text, i: nat, word: string) {
    i + |word| <= |s| && forall k :: 0 <= k < |word| ==> s[i + k] == word[k] as int
  }

  /** The white space of ASCII, which has no vertical tab. */
  predicate IsAsciiSpace(b: Byte) { b == 32 || b == 9 || b == 10 || b == 12 || b == 13 }

  /** Strings, long brackets and comments are stepped over as a whole; only braces outside them count. */
  function LuaBodyEnd(s: Text, i: nat, depth: nat): (r: Quoted)
    requires hide *; i <= |s| && (depth > 0 || Is(s, i, '{'))
    ensures if r.terminated then i < r.end <= |s| && Is(s, r.end - 1, '}') else r.end == |s|
    decreases |s| - i
  {
    hide *;
    if i == |s| then Quoted(i, false)
    else
      match LuaSkip(s, i)
      case Some(end) => LuaBodyEnd(s, end, depth)
      case None =>
        if Is(s, i, '}') && depth == 1 then Quoted(i + 1, true)
        else LuaBodyEnd(s, i + 1, if Is(s, i, '{') then depth + 1 else if Is(s, i, '}') then depth - 1 else depth)
  }

  function LuaSkip(s: Text, i: nat): (r: Option<nat>)
    ensures r.Some? ==> i < r.value <= |s|
    ensures Is(s, i, '{') ==> r == None
  {
    match LuaQuoted(s, i)
    case Some(end) => Some(end)
    case None =>
      if Is(s, i, '-') && Is(s, i + 1, '-') then
        match LongBracket(s, i + 2)
        case Some(end) => Some(end)
        case None => Some(RunEnd(s, i + 2, IsNoLineEnd))
      else LongBracket(s, i)
  }

  datatype Brace = Brace(at: nat, open: bool)

  /** The braces from here on that stand outside strings, long brackets and comments. */
  function Braces(s: Text, i: nat): seq<Brace>
    requires i <= |s|
    decreases |s| - i
  {
    if i == |s| then []
    else
      match LuaSkip(s, i)
      case Some(end) => Braces(s, end)
      case None => (if Is(s, i, '{') || Is(s, i, '}') then [Brace(i, Is(s, i, '{'))] else []) + Braces(s, i + 1)
  }

  function Balance(braces: seq<Brace>): int {
    if braces == [] then 0 else (if braces[0].open then 1 else -1) + Balance(braces[1..])
  }

  /** So many braces bring the depth to zero for the first time. */
  ghost predicate Closes(braces: seq<Brace>, depth: nat, k: nat) {
    && 0 < k <= |braces| && depth + Balance(braces[..k]) == 0
    && forall j :: 0 < j < k ==> depth + Balance(braces[..j]) > 0
  }

  ghost predicate StaysOpen(braces: seq<Brace>, depth: nat) {
    forall j :: 0 < j <= |braces| ==> depth + Balance(braces[..j]) > 0
  }

  /** The end is behind the first brace that brings the depth to zero; without such a brace the text is left open. */
  ghost predicate Balanced(braces: seq<Brace>, width: nat, depth: nat, r: Quoted, k: nat) {
    if r.terminated then Closes(braces, depth, k) && r.end == braces[k - 1].at + width else StaysOpen(braces, depth)
  }

  lemma {:induction false} BodyEndsBalanced(s: Text, i: nat, depth: nat) returns (k: nat)
    requires i <= |s| && (depth > 0 || Is(s, i, '{'))
    ensures Balanced(Braces(s, i), 1, depth, LuaBodyEnd(s, i, depth), k)
    decreases |s| - i
  {
    hide LuaSkip, Balanced;
    if i == |s| {
      k := 0;
      Open(1, depth, LuaBodyEnd(s, i, depth));
    } else if LuaSkip(s, i).Some? {
      k := BodyEndsBalanced(s, LuaSkip(s, i).value, depth);
    } else if Is(s, i, '}') && depth == 1 {
      k := 1;
      Last(i, 1, Braces(s, i + 1));
    } else if Is(s, i, '{') || Is(s, i, '}') {
      var deeper := if Is(s, i, '{') then depth + 1 else depth - 1;
      k := BodyEndsBalanced(s, i + 1, deeper);
      Behind(Brace(i, Is(s, i, '{')), Braces(s, i + 1), 1, depth, LuaBodyEnd(s, i + 1, deeper), k);
      k := k + 1;
    } else {
      k := BodyEndsBalanced(s, i + 1, depth);
      assert [] + Braces(s, i + 1) == Braces(s, i + 1);
    }
  }

  lemma Open(width: nat, depth: nat, r: Quoted)
    requires !r.terminated
    ensures Balanced([], width, depth, r, 0)
  {
  }

  lemma Last(i: nat, width: nat, rest: seq<Brace>)
    ensures Balanced([Brace(i, false)] + rest, width, 1, Quoted(i + width, true), 1)
  {
    assert ([Brace(i, false)] + rest)[..1] == [Brace(i, false)];
  }

  /** A brace in front adds one to the place and its own step to the depth. */
  lemma Behind(b: Brace, rest: seq<Brace>, width: nat, depth: nat, r: Quoted, k: nat)
    requires b.open || depth > 1
    requires Balanced(rest, width, if b.open then depth + 1 else depth - 1, r, k)
    ensures Balanced([b] + rest, width, depth, r, k + 1)
  {
    forall j | 0 < j <= 1 + |rest|
      ensures Balance(([b] + rest)[..j]) == (if b.open then 1 else -1) + Balance(rest[..j - 1])
    {
      assert ([b] + rest)[..j][1..] == rest[..j - 1];
    }
    assert Balance(rest[..0]) == 0;
  }

  /** A block `lua! { … }`, which may not continue a name. */
  function LuaBlock(s: Text, i: nat): (r: Option<Quoted>)
    ensures r.Some? ==> if r.value.terminated then i < r.value.end <= |s| && Is(s, r.value.end - 1, '}') else r.value.end == |s|
  {
    hide *;
    if !Reads(s, i, "lua!") || (0 < i && IsNameContinue(s[i - 1])) then None
    else
      var open := RunEnd(s, i + 4, IsAsciiSpace);
      if Is(s, open, '{') then Some(LuaBodyEnd(s, open, 0)) else None
  }

  method SkipLua(s: Text, i: nat) returns (r: Option<nat>)
    ensures r == LuaSkip(s, i)
  {
    hide RunEnd, LuaQuoted, LongBracket;
    r := SkipLuaQuoted(s, i);
    if r.Some? {
      return;
    }
    if Is(s, i, '-') && Is(s, i + 1, '-') {
      r := SkipLongBracket(s, i + 2);
      if r == None {
        var end := FindRunEnd(s, i + 2, IsNoLineEnd);
        return Some(end);
      }
      return;
    }
    r := SkipLongBracket(s, i);
  }

  method LexLuaBlock(s: Text, start: nat) returns (r: Option<Quoted>)
    ensures r == LuaBlock(s, start)
  {
    hide LuaSkip, RunEnd;
    if !Reads(s, start, "lua!") || (0 < start && IsNameContinue(s[start - 1])) {
      return None;
    }
    var cursor := FindRunEnd(s, start + 4, IsAsciiSpace);
    if !Is(s, cursor, '{') {
      return None;
    }
    var depth: nat := 0;
    ghost var open := cursor;
    while cursor < |s|
      invariant open <= cursor <= |s| && (depth > 0 || Is(s, cursor, '{'))
      invariant LuaBodyEnd(s, open, 0) == LuaBodyEnd(s, cursor, depth)
      decreases |s| - cursor
    {
      var behind := SkipLua(s, cursor);
      if behind.Some? {
        cursor := behind.value;
        continue;
      }
      if Is(s, cursor, '{') {
        depth := depth + 1;
      } else if Is(s, cursor, '}') {
        depth := depth - 1;
        if depth == 0 {
          return Some(Quoted(cursor + 1, true));
        }
      }
      cursor := cursor + 1;
    }
    return Some(Quoted(|s|, false));
  }

  // ---- words, numbers and symbols ----

  datatype Kind =
    | Whitespace | LineComment | BlockComment
    | Keyword(word: string) | LuaText | Ident
    | Int | Float | Str
    | Symbol(word: string)
    | Unknown

  datatype Error = UnknownCharacter | UnterminatedString | UnterminatedBlockComment | UnterminatedLuaBlock

  const KEYWORDS := ["fn", "let", "mut", "if", "else", "while", "loop", "for", "in", "return", "break", "continue", "dyn",
    "true", "false", "struct", "enum", "trait", "impl", "pub", "use", "mod", "as", "match", "self", "extern"]

  /** The words of the symbols, from one to three characters. */
  predicate IsSymbol(w: string) {
    if |w| == 1 then
      w[0] in {'+', '-', '*', '/', '%', '<', '>', '=', '!', '&', '|', '.', ':', ';', ',', '?', '#', '(', ')', '{', '}', '[', ']'}
    else if |w| == 2 then
      || (w[1] == '=' && w[0] in {'+', '-', '*', '/', '%', '<', '>', '=', '!'})
      || (w[1] == '>' && w[0] in {'-', '='})
      || (w[1] == w[0] && w[0] in {'&', '|', '.', ':', '?'})
      || w == "?."
    else w == "..="
  }

  function Letters(s: Text): (w: string)
    ensures |w| == |s| && forall k :: 0 <= k < |s| ==> w[k] as int == s[k]
  {
    seq(|s|, k requires 0 <= k < |s| => s[k] as char)
  }

  function WordKind(word: string): Kind {
    if word in KEYWORDS then Keyword(word) else Ident
  }

  predicate StartsNumber(s: Text, i: nat) {
    i < |s| && (IsDigit(s[i]) || (Is(s, i, '.') && i + 1 < |s| && IsDigit(s[i + 1])))
  }

  /** The point of a fraction is not the first of `..` and not that of a field. */
  function FractionEnd(s: Text, i: nat): (e: nat)
    requires i <= |s|
    ensures i <= e <= |s| && forall k :: i <= k < e ==> s[k] < 0x80
  {
    if Is(s, i, '.') && !Is(s, i + 1, '.') && !(i + 1 < |s| && IsNameStart(s[i + 1])) then RunEnd(s, i + 1, IsDigitOrLine) else i
  }

  function ExponentEnd(s: Text, i: nat): (e: nat)
    requires i <= |s|
    ensures i <= e <= |s| && forall k :: i <= k < e ==> s[k] < 0x80
  {
    if !(Is(s, i, 'e') || Is(s, i, 'E')) then i
    else RunEnd(s, if Is(s, i + 1, '+') || Is(s, i + 1, '-') then i + 2 else i + 1, IsDigitOrLine)
  }

  predicate StartsRadix(s: Text, i: nat) {
    Is(s, i, '0') && (Is(s, i + 1, 'x') || Is(s, i + 1, 'X') || Is(s, i + 1, 'b') || Is(s, i + 1, 'B'))
  }

  datatype Number = Number(end: nat, kind: Kind)

  function NumberAt(s: Text, i: nat): (r: Number)
    requires hide RunEnd, FractionEnd, ExponentEnd; StartsNumber(s, i)
    ensures i < r.end <= |s| && (r.kind == Int || r.kind == Float)
    ensures forall k :: i <= k < r.end ==> s[k] < 0x80
  {
    if StartsRadix(s, i) then Number(RunEnd(s, i + 2, IsNameContinue), Int)
    else
      var point := Is(s, i, '.');
      var whole := RunEnd(s, if point then i + 1 else i, IsDigitOrLine);
      var fraction := FractionEnd(s, whole);
      var end := ExponentEnd(s, fraction);
      Number(end, if point || whole < fraction || fraction < end then Float else Int)
  }

  method SkipFraction(s: Text, i: nat) returns (e: nat)
    requires i <= |s|
    ensures e == FractionEnd(s, i)
  {
    e := i;
    if Is(s, e, '.') && !Is(s, e + 1, '.') && !(e + 1 < |s| && IsNameStart(s[e + 1])) {
      e := FindRunEnd(s, e + 1, IsDigitOrLine);
    }
  }

  method SkipExponent(s: Text, i: nat) returns (e: nat)
    requires i <= |s|
    ensures e == ExponentEnd(s, i)
  {
    e := i;
    if Is(s, e, 'e') || Is(s, e, 'E') {
      e := e + 1;
      if Is(s, e, '+') || Is(s, e, '-') {
        e := e + 1;
      }
      e := FindRunEnd(s, e, IsDigitOrLine);
    }
  }

  method LexNumber(s: Text, start: nat) returns (r: Number)
    requires StartsNumber(s, start)
    ensures r == NumberAt(s, start)
  {
    hide RunEnd, FractionEnd, ExponentEnd;
    var end := start;
    if Is(s, end, '.') {
      end := end + 1;
    } else if StartsRadix(s, end) {
      end := FindRunEnd(s, end + 2, IsNameContinue);
      return Number(end, Int);
    }
    end := FindRunEnd(s, end, IsDigitOrLine);
    var fraction := SkipFraction(s, end);
    var exponent := SkipExponent(s, fraction);
    return Number(exponent, if Is(s, start, '.') || end < fraction || fraction < exponent then Float else Int);
  }

  /** The symbol here, or no text at all. */
  function SymbolAt(s: Text, i: nat): string {
    if Is(s, i, '+') then (if Is(s, i + 1, '=') then "+=" else "+")
    else if Is(s, i, '-') then (if Is(s, i + 1, '>') then "->" else if Is(s, i + 1, '=') then "-=" else "-")
    else if Is(s, i, '*') then (if Is(s, i + 1, '=') then "*=" else "*")
    else if Is(s, i, '/') then (if Is(s, i + 1, '=') then "/=" else "/")
    else if Is(s, i, '%') then (if Is(s, i + 1, '=') then "%=" else "%")
    else if Is(s, i, '<') then (if Is(s, i + 1, '=') then "<=" else "<")
    else if Is(s, i, '>') then (if Is(s, i + 1, '=') then ">=" else ">")
    else if Is(s, i, '=') then (if Is(s, i + 1, '=') then "==" else if Is(s, i + 1, '>') then "=>" else "=")
    else if Is(s, i, '!') then (if Is(s, i + 1, '=') then "!=" else "!")
    else if Is(s, i, '&') then (if Is(s, i + 1, '&') then "&&" else "&")
    else if Is(s, i, '|') then (if Is(s, i + 1, '|') then "||" else "|")
    else if Is(s, i, '.') then (if Is(s, i + 1, '.') then (if Is(s, i + 2, '=') then "..=" else "..") else ".")
    else if Is(s, i, ':') then (if Is(s, i + 1, ':') then "::" else ":")
    else if Is(s, i, ';') then ";"
    else if Is(s, i, ',') then ","
    else if Is(s, i, '?') then (if Is(s, i + 1, '?') then "??" else if Is(s, i + 1, '.') then "?." else "?")
    else if Is(s, i, '#') then "#"
    else if Is(s, i, '(') then "("
    else if Is(s, i, ')') then ")"
    else if Is(s, i, '{') then "{"
    else if Is(s, i, '}') then "}"
    else if Is(s, i, '[') then "["
    else if Is(s, i, ']') then "]"
    else ""
  }

  /** The symbol that is read is one that stands here. */
  lemma SymbolStandsHere(s: Text, i: nat)
    ensures SymbolAt(s, i) == "" || (IsSymbol(SymbolAt(s, i)) && Reads(s, i, SymbolAt(s, i)))
  {
  }

  /** The symbol that is read is the longest that stands here. */
  lemma LongestSymbol(s: Text, i: nat, w: string)
    requires IsSymbol(w) && Reads(s, i, w)
    ensures |w| <= |SymbolAt(s, i)|
  {
    assert s[i + 0] == w[0] as int;
    if |w| > 1 {
      assert s[i + 1] == w[1] as int;
      if |w| > 2 {
        assert s[i + 2] == w[2] as int;
      }
    }
  }

  // ---- tokens ----

  datatype Piece = Piece(kind: Kind, end: nat, error: Option<Error>)

  datatype Token = Token(kind: Kind, start: nat, end: nat, error: Option<Error>)

  datatype Lexed = Lexed(tokens: seq<Token>) | TooMany(start: nat, end: nat)

  function ErrorUnless(fine: bool, error: Error): Option<Error> { if fine then None else Some(error) }

  /** The token that starts here. */
  function Next(s: Text, i: nat): Piece
    requires i < |s| && Utf8(s) && Boundary(s, i)
  {
    if IsBlank(s[i]) then Piece(Whitespace, RunEnd(s, i + 1, IsBlank), None)
    else if Is(s, i, '/') && Is(s, i + 1, '/') then Piece(LineComment, RunEnd(s, i + 2, IsNoLineEnd), None)
    else if Is(s, i, '/') && Is(s, i + 1, '*') then
      AfterAscii(s, i + 2);
      var comment := CommentEnd(s, i + 2, 1);
      Piece(BlockComment, comment.end, ErrorUnless(comment.open == 0, UnterminatedBlockComment))
    else if Is(s, i, '"') then
      AfterAscii(s, i + 1);
      var text := StringEnd(s, i + 1);
      Piece(Str, text.end, ErrorUnless(text.terminated, UnterminatedString))
    else
      match LuaBlock(s, i)
      case Some(block) => Piece(LuaText, block.end, ErrorUnless(block.terminated, UnterminatedLuaBlock))
      case None =>
        if IsNameStart(s[i]) then
          var end := RunEnd(s, i + 1, IsNameContinue);
          Piece(WordKind(Letters(s[i..end])), end, None)
        else if StartsNumber(s, i) then
          var number := NumberAt(s, i);
          Piece(number.kind, number.end, None)
        else if SymbolAt(s, i) != "" then Piece(Symbol(SymbolAt(s, i)), i + |SymbolAt(s, i)|, None)
        else Piece(Unknown, i + Width(s[i]), Some(UnknownCharacter))
  }

  predicate Word(kind: Kind) { kind.Keyword? || kind.Symbol? }

  /** A token has characters of its own, all of them whole; a word is spelled as it stands; only the last can be open. */
  ghost predicate IsToken(s: Text, i: nat, p: Piece) {
    && i < p.end <= |s| && Boundary(s, p.end)
    && (Word(p.kind) ==> p.kind.word == Letters(s[i..p.end]))
    && (p.error == Some(UnterminatedBlockComment) || p.error == Some(UnterminatedLuaBlock) ==> p.end == |s|)
  }

  lemma NextIsToken(s: Text, i: nat)
    requires i < |s| && Utf8(s) && Boundary(s, i)
    ensures IsToken(s, i, Next(s, i))
  {
    hide Next, Boundary, Letters;
    WordIsSpelled(s, i);
    EndsOnBoundary(s, i);
    OpenIsLast(s, i);
  }

  lemma EndsOnBoundary(s: Text, i: nat)
    requires hide *; i < |s| && Utf8(s) && Boundary(s, i)
    ensures Boundary(s, Next(s, i).end)
  {
    hide RunEnd, CommentEnd, StringEnd, LuaBlock, NumberAt, SymbolAt, Letters;
    var p := Next(s, i);
    if SymbolAt(s, i) != "" {
      SymbolEnds(s, i);
    }
    if i + 1 == p.end && s[i] < 0x80 {
      AfterAscii(s, i + 1);
    } else if i + 1 < p.end && s[p.end - 1] < 0x80 {
      AfterAscii(s, p.end);
    }
  }

  lemma OpenIsLast(s: Text, i: nat)
    requires hide *; i < |s| && Utf8(s) && Boundary(s, i)
    ensures
      var p := Next(s, i);
      p.error == Some(UnterminatedBlockComment) || p.error == Some(UnterminatedLuaBlock) ==> p.end == |s|
  {
    hide RunEnd, CommentEnd, StringEnd, LuaBlock, NumberAt, SymbolAt, Letters;
  }

  lemma WordIsSpelled(s: Text, i: nat)
    requires hide Next; i < |s| && Utf8(s) && Boundary(s, i)
    ensures var p := Next(s, i); i < p.end <= |s| && (Word(p.kind) ==> p.kind.word == Letters(s[i..p.end]))
  {
    hide RunEnd, CommentEnd, StringEnd, LuaBlock, NumberAt, SymbolAt;
    if SymbolAt(s, i) != "" {
      SymbolEnds(s, i);
    }
  }

  lemma SymbolEnds(s: Text, i: nat)
    requires i < |s| && Utf8(s) && SymbolAt(s, i) != ""
    ensures i < i + |SymbolAt(s, i)| <= |s| && Boundary(s, i + |SymbolAt(s, i)|)
    ensures SymbolAt(s, i) == Letters(s[i..i + |SymbolAt(s, i)|])
  {
    hide SymbolAt;
    SymbolStandsHere(s, i);
    var w := SymbolAt(s, i);
    assert s[i + (|w| - 1)] == w[|w| - 1] as int;
    AfterAscii(s, i + |w|);
  }

  function Tokens(s: Text, i: nat): (r: seq<Token>)
    requires i <= |s| && Utf8(s) && Boundary(s, i)
    decreases |s| - i
  {
    if i == |s| then []
    else
      NextIsToken(s, i);
      var p := Next(s, i);
      [Token(p.kind, i, p.end, p.error)] + Tokens(s, p.end)
  }

  method LexToken(s: Text, i: nat) returns (p: Piece)
    requires i < |s| && Utf8(s) && Boundary(s, i)
    ensures p == Next(s, i)
  {
    hide RunEnd, CommentEnd, StringEnd, LuaBlock, NumberAt, SymbolAt;
    if s[i] < 0x80 { AfterAscii(s, i + 1); }
    if IsBlank(s[i]) {
      var end := FindRunEnd(s, i + 1, IsBlank);
      return Piece(Whitespace, end, None);
    }
    if Is(s, i, '/') && Is(s, i + 1, '/') {
      var end := FindRunEnd(s, i + 2, IsNoLineEnd);
      return Piece(LineComment, end, None);
    }
    if Is(s, i, '/') && Is(s, i + 1, '*') {
      AfterAscii(s, i + 2);
      var comment := FindCommentEnd(s, i + 2, 1);
      return Piece(BlockComment, comment.end, ErrorUnless(comment.open == 0, UnterminatedBlockComment));
    }
    if Is(s, i, '"') {
      var text := FindStringEnd(s, i + 1);
      return Piece(Str, text.end, ErrorUnless(text.terminated, UnterminatedString));
    }
    var block := LexLuaBlock(s, i);
    if block.Some? {
      return Piece(LuaText, block.value.end, ErrorUnless(block.value.terminated, UnterminatedLuaBlock));
    }
    if IsNameStart(s[i]) {
      var end := FindRunEnd(s, i + 1, IsNameContinue);
      return Piece(WordKind(Letters(s[i..end])), end, None);
    }
    if StartsNumber(s, i) {
      var number := LexNumber(s, i);
      return Piece(number.kind, number.end, None);
    }
    var symbol := SymbolAt(s, i);
    if symbol != "" {
      return Piece(Symbol(symbol), i + |symbol|, None);
    }
    return Piece(Unknown, i + Width(s[i]), Some(UnknownCharacter));
  }

  /** The tokens up to a limit, or the place of the first token over it. */
  method LexWithLimit(s: Text, maxTokens: nat) returns (r: Lexed)
    requires Utf8(s)
    ensures r.Lexed? <==> |Tokens(s, 0)| <= maxTokens
    ensures r.Lexed? ==> r.tokens == Tokens(s, 0)
    ensures r.TooMany? ==> r.start == Tokens(s, 0)[maxTokens].start && r.end == Tokens(s, 0)[maxTokens].end
  {
    hide Next, IsToken, Utf8;
    var tokens, cursor := [], 0;
    Starts(s);
    while cursor < |s|
      invariant cursor <= |s| && Boundary(s, cursor) && |tokens| <= maxTokens
      invariant Tokens(s, 0) == tokens + Tokens(s, cursor)
      decreases |s| - cursor
    {
      var p := LexToken(s, cursor);
      NextIsToken(s, cursor);
      TokenMoves(s, cursor, p);
      if |tokens| == maxTokens {
        return TooMany(cursor, p.end);
      }
      tokens := tokens + [Token(p.kind, cursor, p.end, p.error)];
      cursor := p.end;
    }
    return Lexed(tokens);
  }

  // ---- nothing is lost ----

  function TextOf(s: Text, tokens: seq<Token>): Text
    requires forall t <- tokens :: t.start <= t.end <= |s|
  {
    if tokens == [] then [] else s[tokens[0].start..tokens[0].end] + TextOf(s, tokens[1..])
  }

  /** The tokens stand one behind the other from here to the end of the text. */
  ghost predicate Covers(s: Text, tokens: seq<Token>, from: nat) {
    && (forall k :: 0 <= k < |tokens| ==>
          Boundary(s, tokens[k].start) && IsToken(s, tokens[k].start, Piece(tokens[k].kind, tokens[k].end, tokens[k].error)))
    && (forall k :: 0 < k < |tokens| ==> tokens[k].start == tokens[k - 1].end)
    && (if tokens == [] then from == |s| else tokens[0].start == from && tokens[|tokens| - 1].end == |s|)
  }

  lemma {:induction false} TokensCover(s: Text, i: nat)
    requires hide *; i <= |s| && Utf8(s) && Boundary(s, i)
    ensures Covers(s, Tokens(s, i), i) && |Tokens(s, i)| <= |s| - i
    decreases |s| - i
  {
    hide Next, IsToken, Utf8;
    if i < |s| {
      var p := Next(s, i);
      NextIsToken(s, i);
      TokenMoves(s, i, p);
      TokensCover(s, p.end);
      assert Tokens(s, i)[1..] == Tokens(s, p.end);
    }
  }

  lemma {:induction false} TokensJoin(s: Text, i: nat)
    requires hide *; i <= |s| && Utf8(s) && Boundary(s, i)
    requires forall t <- Tokens(s, i) :: t.start <= t.end <= |s|
    ensures TextOf(s, Tokens(s, i)) == s[i..]
    decreases |s| - i
  {
    hide Next, IsToken, Utf8;
    if i < |s| {
      var p := Next(s, i);
      NextIsToken(s, i);
      TokenMoves(s, i, p);
      assert Tokens(s, i)[1..] == Tokens(s, p.end);
      TokensJoin(s, p.end);
      assert s[i..] == s[i..p.end] + s[p.end..];
    }
  }

  lemma CoveringTokensLie(s: Text, tokens: seq<Token>, from: nat)
    requires Covers(s, tokens, from)
    ensures forall t <- tokens :: t.start <= t.end <= |s|
  {
  }

  /** No gap, no overlap, no empty token, whole characters only, and the texts of the tokens are the text. */
  lemma Lossless(s: Text)
    requires hide Tokens; Utf8(s)
    ensures Covers(s, Tokens(s, 0), 0) && |Tokens(s, 0)| <= |s|
    ensures (forall t <- Tokens(s, 0) :: t.start <= t.end <= |s|) && TextOf(s, Tokens(s, 0)) == s
  {
    hide Tokens, Covers, Utf8;
    assert Boundary(s, 0) by { Starts(s); }
    TokensCover(s, 0);
    CoveringTokensLie(s, Tokens(s, 0), 0);
    TokensJoin(s, 0);
  }

  lemma Starts(s: Text)
    requires Utf8(s)
    ensures Boundary(s, 0)
  {
  }

  lemma TokenMoves(s: Text, i: nat, p: Piece)
    requires IsToken(s, i, p)
    ensures i < p.end <= |s| && Boundary(s, p.end)
  {
  }
}
