/** What each token is, from the text alone, and the proof that the lexer finds exactly these tokens. */
module LexerTheorem {
  import opened Wrappers
  import opened Lexer

  // ---- runs ----

  /** All bytes from i to e are of the class, and the next one is not. */
  ghost predicate Maximal(s: Text, i: nat, e: nat, p: Byte -> bool) {
    i <= e <= |s| && (forall k :: i <= k < e ==> p(s[k])) && (e < |s| ==> !p(s[e]))
  }

  lemma MaximalIs(s: Text, i: nat, e: nat, p: Byte -> bool)
    requires i <= |s|
    ensures Maximal(s, i, e, p) <==> e == RunEnd(s, i, p)
  {
    hide RunEnd;
    var r := RunEnd(s, i, p);
    if e <= |s| {
      assert i <= e < r ==> p(s[e]);
      assert r < e ==> !p(s[r]);
    }
  }

  // ---- escapes ----

  /** How many backslashes stand directly before a place, back to where the string starts. */
  function Backslashes(s: Text, from: nat, k: nat): nat
    requires from <= k <= |s|
    decreases k - from
  {
    if from < k && Is(s, k - 1, '\\') then 1 + Backslashes(s, from, k - 1) else 0
  }

  predicate Escaped(s: Text, from: nat, k: nat)
    requires from <= k <= |s|
  {
    Backslashes(s, from, k) % 2 == 1
  }

  /** A backslash that is not escaped escapes what follows it. */
  lemma AfterBackslash(s: Text, from: nat, k: nat)
    requires from <= k < |s| && Is(s, k, '\\')
    ensures Escaped(s, from, k + 1) <==> !Escaped(s, from, k)
  {
    assert Backslashes(s, from, k + 1) == 1 + Backslashes(s, from, k);
  }

  lemma AfterOther(s: Text, from: nat, k: nat)
    requires from <= k < |s| && !Is(s, k, '\\')
    ensures !Escaped(s, from, k + 1)
  {
    assert Backslashes(s, from, k + 1) == 0;
  }

  /** Bytes of longer characters are no backslashes. */
  lemma {:induction false} AfterTail(s: Text, from: nat, i: nat, j: nat)
    requires from <= i <= j <= |s| && !Escaped(s, from, i) && forall k :: i <= k < j ==> Continuation(s[k])
    ensures forall k :: i <= k <= j ==> !Escaped(s, from, k)
    decreases j - i
  {
    hide Backslashes;
    if i < j {
      AfterOther(s, from, i);
      AfterTail(s, from, i + 1, j);
    }
  }

  // ---- strings ----

  /** A quote or a line end that is not escaped. */
  predicate EndsString(s: Text, from: nat, k: nat)
    requires from <= k < |s|
  {
    (Is(s, k, '"') || !IsNoLineEnd(s[k])) && !Escaped(s, from, k)
  }

  /**
   * From behind the opening quote: up to behind the first quote that is not escaped, or, unterminated, up to a line
   * end that is not escaped or the end of the text.
   */
  ghost predicate IsString(s: Text, from: nat, q: Quoted) {
    && from <= q.end <= |s|
    && (if q.terminated then from < q.end && Is(s, q.end - 1, '"') && EndsString(s, from, q.end - 1)
        else q.end < |s| ==> !Is(s, q.end, '"') && EndsString(s, from, q.end))
    && forall k :: from <= k < (if q.terminated then q.end - 1 else q.end) ==> !EndsString(s, from, k)
  }

  /** Between characters outside an escape, with nothing so far that ends the string. */
  ghost predicate InString(s: Text, from: nat, i: nat) {
    from <= i <= |s| && Boundary(s, i) && !Escaped(s, from, i) && forall k :: from <= k < i ==> !EndsString(s, from, k)
  }

  lemma {:induction false} StringIs(s: Text, from: nat, i: nat)
    requires Utf8(s) && InString(s, from, i)
    ensures IsString(s, from, StringEnd(s, i))
    decreases |s| - i
  {
    hide Escaped, Utf8;
    if i < |s| && !EndsString(s, from, i) {
      if Is(s, i, '\\') {
        AfterAscii(s, i + 1);
        AfterBackslash(s, from, i);
        if i + 1 < |s| {
          CharacterPasses(s, from, i + 1);
          StringIs(s, from, i + 1 + Width(s[i + 1]));
        }
      } else {
        CharacterPasses(s, from, i);
        StringIs(s, from, i + Width(s[i]));
      }
    }
  }

  /** After a character that is escaped, or that is no backslash and no end, the string goes on. */
  lemma CharacterPasses(s: Text, from: nat, i: nat)
    requires Utf8(s) && from <= i < |s| && Boundary(s, i)
    requires Escaped(s, from, i) || !Is(s, i, '\\')
    ensures var j := i + Width(s[i]);
            j <= |s| && Boundary(s, j) && !Escaped(s, from, j) && forall k :: i < k < j ==> !EndsString(s, from, k)
  {
    var j := i + Width(s[i]);
    assert Character(s, i);
    if Is(s, i, '\\') {
      AfterBackslash(s, from, i);
    } else {
      AfterOther(s, from, i);
    }
    AfterTail(s, from, i + 1, j);
  }

  lemma StringIsUnique(s: Text, from: nat, q: Quoted, r: Quoted)
    requires IsString(s, from, q) && IsString(s, from, r)
    ensures q == r
  {
    hide Escaped;
  }

  // ---- Lua text that is stepped over ----

  /** Up to behind the first such quote that is not escaped, or to the end of the text. */
  ghost predicate IsQuoted(s: Text, from: nat, quote: Byte, e: nat) {
    && from <= e <= |s|
    && ((e == |s| && forall k :: from <= k < e ==> s[k] != quote || Escaped(s, from, k))
        || (from < e && s[e - 1] == quote && !Escaped(s, from, e - 1) && forall k :: from <= k < e - 1 ==> s[k] != quote || Escaped(s, from, k)))
  }

  lemma {:induction false} LuaQuoteIs(s: Text, from: nat, i: nat, quote: Byte)
    requires from <= i <= |s| && quote != '\\' as int && !Escaped(s, from, i)
    requires forall k :: from <= k < i ==> s[k] != quote || Escaped(s, from, k)
    ensures IsQuoted(s, from, quote, LuaQuoteEnd(s, i, quote))
    decreases |s| - i
  {
    hide Escaped;
    if i < |s| {
      if Is(s, i, '\\') {
        AfterBackslash(s, from, i);
        if i + 2 <= |s| {
          if Is(s, i + 1, '\\') {
            AfterBackslash(s, from, i + 1);
          } else {
            AfterOther(s, from, i + 1);
          }
          LuaQuoteIs(s, from, i + 2, quote);
        }
      } else if s[i] != quote {
        AfterOther(s, from, i);
        LuaQuoteIs(s, from, i + 1, quote);
      }
    }
  }

  /** Up to behind the first closing bracket of the level, or to the end of the text. */
  ghost predicate IsLong(s: Text, from: nat, level: nat, e: nat) {
    || (from + level + 2 <= e <= |s| && ClosesAt(s, e - level - 2, level) && forall k :: from <= k < e - level - 2 ==> !ClosesAt(s, k, level))
    || (e == |s| && forall k :: from <= k < |s| ==> !ClosesAt(s, k, level))
  }

  lemma {:induction false} LongIs(s: Text, from: nat, i: nat, level: nat)
    requires from <= i <= |s| && forall k :: from <= k < i ==> !ClosesAt(s, k, level)
    ensures IsLong(s, from, level, LongEnd(s, i, level))
    decreases |s| - i
  {
    if i < |s| && !ClosesAt(s, i, level) {
      LongIs(s, from, i + 1, level);
    }
  }

  /** A long bracket opens here with its second bracket at that place. */
  ghost predicate OpensLong(s: Text, i: nat, open: nat) {
    Is(s, i, '[') && Maximal(s, i + 1, open, IsEqualSign) && Is(s, open, '[')
  }

  /** From here to there is a long bracket. */
  ghost predicate IsBracket(s: Text, i: nat, e: nat) {
    exists open: nat :: OpensLong(s, i, open) && IsLong(s, open + 1, open - i - 1, e)
  }

  ghost predicate NoBracket(s: Text, i: nat) {
    forall open: nat :: !OpensLong(s, i, open)
  }

  /** From here to there is a string, a long bracket, or a comment of Lua. */
  ghost predicate Skips(s: Text, i: nat, e: nat) {
    || ((Is(s, i, '\'') || Is(s, i, '"')) && IsQuoted(s, i + 1, s[i], e))
    || IsBracket(s, i, e)
    || (Is(s, i, '-') && Is(s, i + 1, '-')
        && (IsBracket(s, i + 2, e) || (NoBracket(s, i + 2) && Maximal(s, i + 2, e, IsNoLineEnd))))
  }

  lemma LongBracketIs(s: Text, i: nat)
    ensures LongBracket(s, i).Some? ==> IsBracket(s, i, LongBracket(s, i).value)
    ensures LongBracket(s, i) == None <==> NoBracket(s, i)
  {
    hide RunEnd, LongEnd, ClosesAt;
    if Is(s, i, '[') {
      var open := RunEnd(s, i + 1, IsEqualSign);
      OnlyOpening(s, i);
      if Is(s, open, '[') {
        LongIs(s, open + 1, open + 1, open - i - 1);
        assert OpensLong(s, i, open);
      }
    }
  }

  lemma OnlyOpening(s: Text, i: nat)
    requires Is(s, i, '[')
    ensures forall open: nat :: OpensLong(s, i, open) <==> open == RunEnd(s, i + 1, IsEqualSign) && Is(s, open, '[')
  {
    hide RunEnd, Maximal;
    forall open: nat ensures OpensLong(s, i, open) <==> open == RunEnd(s, i + 1, IsEqualSign) && Is(s, open, '[') {
      MaximalIs(s, i + 1, open, IsEqualSign);
    }
  }

  /** What is stepped over is a string, a long bracket or a comment, and every one of them is stepped over. */
  lemma SkipIs(s: Text, i: nat)
    ensures LuaSkip(s, i).Some? ==> Skips(s, i, LuaSkip(s, i).value)
    ensures LuaSkip(s, i) == None ==> forall e: nat :: !Skips(s, i, e)
  {
    hide RunEnd, LongBracket, LuaQuoteEnd, IsQuoted, IsLong;
    LongBracketIs(s, i);
    LongBracketIs(s, i + 2);
    if Is(s, i, '\'') || Is(s, i, '"') {
      NoneBefore(s, i + 1);
      LuaQuoteIs(s, i + 1, i + 1, s[i]);
    }
    if Is(s, i, '-') && Is(s, i + 1, '-') {
      MaximalIs(s, i + 2, RunEnd(s, i + 2, IsNoLineEnd), IsNoLineEnd);
    }
  }

  lemma NoneBefore(s: Text, from: nat)
    requires from <= |s|
    ensures !Escaped(s, from, from)
  {
  }

  // ---- block comments ----

  /** The openings and closings of comments from here on, read from the left without overlap. */
  function Marks(s: Text, i: nat): seq<Brace>
    requires i <= |s|
    decreases |s| - i
  {
    if i == |s| then []
    else if Is(s, i, '/') && Is(s, i + 1, '*') then [Brace(i, true)] + Marks(s, i + 2)
    else if Is(s, i, '*') && Is(s, i + 1, '/') then [Brace(i, false)] + Marks(s, i + 2)
    else Marks(s, i + 1)
  }

  lemma {:induction false} MarksBehind(s: Text, i: nat, j: nat)
    requires i <= j <= |s| && forall k :: i <= k < j ==> Continuation(s[k])
    ensures Marks(s, i) == Marks(s, j)
    decreases j - i
  {
    if i < j {
      MarksBehind(s, i + 1, j);
    }
  }

  /** A comment ends behind the first mark that balances its opening, and is open if and only if no mark does. */
  lemma {:induction false} CommentIs(s: Text, i: nat, depth: nat) returns (k: nat)
    requires Utf8(s) && Boundary(s, i) && depth > 0
    ensures var r := CommentEnd(s, i, depth); Balanced(Marks(s, i), 2, depth, Quoted(r.end, r.open == 0), k)
    decreases |s| - i
  {
    hide Balanced, Utf8;
    var r := CommentEnd(s, i, depth);
    var q := Quoted(r.end, r.open == 0);
    if i == |s| {
      k := 0;
      Open(2, depth, q);
    } else if Is(s, i, '/') && Is(s, i + 1, '*') {
      AfterAscii(s, i + 2);
      k := CommentIs(s, i + 2, depth + 1);
      Behind(Brace(i, true), Marks(s, i + 2), 2, depth, q, k);
      k := k + 1;
    } else if Is(s, i, '*') && Is(s, i + 1, '/') {
      AfterAscii(s, i + 2);
      if depth == 1 {
        k := 1;
        Closed(s, i + 2);
        Last(i, 2, Marks(s, i + 2));
      } else {
        k := CommentIs(s, i + 2, depth - 1);
        Behind(Brace(i, false), Marks(s, i + 2), 2, depth, q, k);
        k := k + 1;
      }
    } else {
      var j := i + Width(s[i]);
      NextCharacter(s, i);
      MarksBehind(s, i + 1, j);
      k := CommentIs(s, j, depth);
    }
  }

  lemma Closed(s: Text, i: nat)
    requires Utf8(s) && Boundary(s, i)
    ensures CommentEnd(s, i, 0) == Stop(i, 0)
  {
  }

  lemma NextCharacter(s: Text, i: nat)
    requires Utf8(s) && Boundary(s, i) && i < |s|
    ensures var j := i + Width(s[i]); i < j && Boundary(s, j) && forall k :: i < k < j ==> Continuation(s[k])
  {
    assert Character(s, i);
  }

  ghost predicate IsComment(s: Text, i: nat, q: Quoted)
    requires i <= |s|
  {
    (q.terminated || q.end == |s|) && exists k: nat :: Balanced(Marks(s, i), 2, 1, q, k)
  }

  // ---- blocks of Lua text ----

  /** A block `lua! {` starts here, with its brace at that place; it does not continue a name. */
  ghost predicate StartsLua(s: Text, i: nat, open: nat) {
    Reads(s, i, "lua!") && !(0 < i && IsNameContinue(s[i - 1])) && Maximal(s, i + 4, open, IsAsciiSpace) && Is(s, open, '{')
  }

  ghost predicate NoLua(s: Text, i: nat)
    requires i < |s|
  {
    forall open: nat :: !StartsLua(s, i, open)
  }

  ghost predicate IsLuaText(s: Text, i: nat, q: Quoted)
    requires i < |s|
  {
    && (q.terminated || q.end == |s|)
    && exists open: nat, k: nat :: open <= |s| && StartsLua(s, i, open) && Balanced(Braces(s, open), 1, 0, q, k)
  }

  lemma OnlyBrace(s: Text, i: nat, open: nat)
    requires i < |s|
    ensures StartsLua(s, i, open) ==> open == RunEnd(s, i + 4, IsAsciiSpace)
    ensures LuaBlock(s, i).Some? <==> i + 4 <= |s| && StartsLua(s, i, RunEnd(s, i + 4, IsAsciiSpace))
  {
    hide RunEnd, Maximal, LuaBodyEnd;
    if i + 4 <= |s| {
      MaximalIs(s, i + 4, open, IsAsciiSpace);
      MaximalIs(s, i + 4, RunEnd(s, i + 4, IsAsciiSpace), IsAsciiSpace);
    }
  }

  lemma LuaBlockIs(s: Text, i: nat)
    requires i < |s|
    ensures LuaBlock(s, i).Some? ==> IsLuaText(s, i, LuaBlock(s, i).value)
    ensures LuaBlock(s, i) == None <==> NoLua(s, i)
  {
    hide RunEnd, StartsLua, Balanced, LuaBodyEnd, Braces;
    if LuaBlock(s, i).Some? {
      var open := RunEnd(s, i + 4, IsAsciiSpace);
      OnlyBrace(s, i, open);
      LuaBlockEnd(s, i);
      var k := BodyEndsBalanced(s, open, 0);
    } else {
      forall open: nat ensures !StartsLua(s, i, open) {
        OnlyBrace(s, i, open);
        if StartsLua(s, i, open) { LuaNeedsFour(s, i, open); }
      }
    }
  }

  lemma LuaNeedsFour(s: Text, i: nat, open: nat)
    requires i < |s| && StartsLua(s, i, open)
    ensures i + 4 <= |s|
  {
  }

  lemma LuaBlockEnd(s: Text, i: nat)
    requires LuaBlock(s, i).Some?
    ensures var open := RunEnd(s, i + 4, IsAsciiSpace); Is(s, open, '{') && LuaBlock(s, i).value == LuaBodyEnd(s, open, 0)
    ensures LuaBlock(s, i).value.terminated || LuaBlock(s, i).value.end == |s|
  {
    hide RunEnd, LuaBodyEnd;
  }

  // ---- numbers ----

  /** The point of a fraction is not the first of `..` and not that of a field. */
  ghost predicate IsFraction(s: Text, a: nat, b: nat) {
    if Is(s, a, '.') && !Is(s, a + 1, '.') && !(a + 1 < |s| && IsNameStart(s[a + 1])) then Maximal(s, a + 1, b, IsDigitOrLine) else b == a
  }

  ghost predicate IsExponent(s: Text, b: nat, e: nat) {
    if Is(s, b, 'e') || Is(s, b, 'E') then Maximal(s, if Is(s, b + 1, '+') || Is(s, b + 1, '-') then b + 2 else b + 1, e, IsDigitOrLine)
    else e == b
  }

  ghost predicate HasPointOrExponent(s: Text, i: nat, e: nat)
    requires i <= e <= |s|
  {
    exists k :: i <= k < e && (s[k] == '.' as int || s[k] == 'e' as int || s[k] == 'E' as int)
  }

  /** Digits, fraction and exponent, each as long as it can be, or a radix with what follows it. */
  ghost predicate IsNumber(s: Text, i: nat, e: nat, kind: Kind) {
    && i < e <= |s|
    && if StartsRadix(s, i) then kind == Int && Maximal(s, i + 2, e, IsNameContinue)
       else
         && kind == (if HasPointOrExponent(s, i, e) then Float else Int)
         && exists a: nat, b: nat ::
              Maximal(s, if Is(s, i, '.') then i + 1 else i, a, IsDigitOrLine) && IsFraction(s, a, b) && IsExponent(s, b, e)
  }

  lemma NumberIs(s: Text, i: nat)
    requires StartsNumber(s, i)
    ensures IsNumber(s, i, NumberAt(s, i).end, NumberAt(s, i).kind)
  {
    hide RunEnd, Maximal;
    if StartsRadix(s, i) {
      MaximalIs(s, i + 2, RunEnd(s, i + 2, IsNameContinue), IsNameContinue);
    } else {
      var start := if Is(s, i, '.') then i + 1 else i;
      var a := RunEnd(s, start, IsDigitOrLine);
      MaximalIs(s, start, a, IsDigitOrLine);
      var b := FractionEnd(s, a);
      FractionIs(s, a);
      var e := ExponentEnd(s, b);
      ExponentIs(s, b);
      FloatIs(s, i, a, b, e);
    }
  }

  lemma FractionIs(s: Text, a: nat)
    requires a <= |s|
    ensures IsFraction(s, a, FractionEnd(s, a))
  {
    hide RunEnd, Maximal;
    if Is(s, a, '.') {
      MaximalIs(s, a + 1, RunEnd(s, a + 1, IsDigitOrLine), IsDigitOrLine);
    }
  }

  lemma ExponentIs(s: Text, b: nat)
    requires b <= |s|
    ensures IsExponent(s, b, ExponentEnd(s, b))
  {
    hide RunEnd, Maximal;
    if Is(s, b, 'e') || Is(s, b, 'E') {
      var digits := if Is(s, b + 1, '+') || Is(s, b + 1, '-') then b + 2 else b + 1;
      MaximalIs(s, digits, RunEnd(s, digits, IsDigitOrLine), IsDigitOrLine);
    }
  }

  /** The three marks of a number that is no integer. */
  lemma FloatIs(s: Text, i: nat, a: nat, b: nat, e: nat)
    requires i < |s| && Maximal(s, if Is(s, i, '.') then i + 1 else i, a, IsDigitOrLine) && IsFraction(s, a, b) && IsExponent(s, b, e)
    ensures i <= a <= b <= e <= |s|
    ensures HasPointOrExponent(s, i, e) <==> Is(s, i, '.') || a < b || b < e
  {
    if Is(s, i, '.') {
      assert s[i] == '.' as int;
    } else if a < b {
      assert s[a] == '.' as int;
    } else if b < e {
      assert s[b] == 'e' as int || s[b] == 'E' as int;
    }
  }

  // ---- tokens ----

  /** This symbol stands here and no longer one does. */
  ghost predicate IsMark(s: Text, i: nat, word: string) {
    NoCommentOrNumber(s, i) && IsSymbol(word) && Reads(s, i, word) && forall w :: IsSymbol(w) && Reads(s, i, w) ==> |w| <= |word|
  }

  /** Nothing that a token can start with stands here. */
  ghost predicate IsUnknown(s: Text, i: nat)
    requires i < |s|
  {
    && NoCommentOrNumber(s, i) && !IsBlank(s[i]) && !Is(s, i, '"') && !IsNameStart(s[i])
    && forall w :: IsSymbol(w) ==> !Reads(s, i, w)
  }

  ghost predicate IsKeyword(word: string) {
    word in KEYWORDS
  }

  /** So a token that starts here looks, by its kind. */
  ghost predicate Right(s: Text, i: nat, p: Piece)
    requires i < |s|
  {
    match p.kind
    case Whitespace => IsBlank(s[i]) && Maximal(s, i, p.end, IsBlank) && p.error == None
    case LineComment => Reads(s, i, "//") && Maximal(s, i + 2, p.end, IsNoLineEnd) && p.error == None
    case BlockComment =>
      && Reads(s, i, "/*") && IsComment(s, i + 2, Quoted(p.end, p.error == None))
      && (p.error == None || p.error == Some(UnterminatedBlockComment))
    case Str =>
      && Reads(s, i, "\"") && IsString(s, i + 1, Quoted(p.end, p.error == None))
      && (p.error == None || p.error == Some(UnterminatedString))
    case LuaText => IsLuaText(s, i, Quoted(p.end, p.error == None)) && (p.error == None || p.error == Some(UnterminatedLuaBlock))
    case Keyword(word) => NoLua(s, i) && IsWord(s, i, p.end) && word == Letters(s[i..p.end]) && IsKeyword(word) && p.error == None
    case Ident => NoLua(s, i) && IsWord(s, i, p.end) && !IsKeyword(Letters(s[i..p.end])) && p.error == None
    case Int => StartsNumber(s, i) && IsNumber(s, i, p.end, Int) && p.error == None
    case Float => StartsNumber(s, i) && IsNumber(s, i, p.end, Float) && p.error == None
    case Symbol(word) => IsMark(s, i, word) && p.end == i + |word| && p.error == None
    case Unknown => IsUnknown(s, i) && p.end == i + Width(s[i]) && p.error == Some(UnknownCharacter)
  }

  ghost predicate IsWord(s: Text, i: nat, e: nat)
    requires i < |s|
  {
    IsNameStart(s[i]) && Maximal(s, i, e, IsNameContinue)
  }

  predicate NoCommentOrNumber(s: Text, i: nat) {
    !Reads(s, i, "//") && !Reads(s, i, "/*") && !StartsNumber(s, i)
  }

  lemma ReadsTwo(s: Text, i: nat, w: string)
    requires |w| == 2
    ensures Reads(s, i, w) <==> Is(s, i, w[0]) && Is(s, i + 1, w[1])
  {
    if Is(s, i, w[0]) && Is(s, i + 1, w[1]) {
      forall k | 0 <= k < |w| ensures s[i + k] == w[k] as int {
      }
    }
    if Reads(s, i, w) {
      assert s[i + 0] == w[0] as int && s[i + 1] == w[1] as int;
    }
  }

  lemma ReadsQuote(s: Text, i: nat)
    ensures Reads(s, i, "\"") <==> Is(s, i, '"')
  {
    var w := "\"";
    assert Reads(s, i, w) ==> s[i + 0] == w[0] as int;
  }

  /** A run that starts one byte earlier. */
  lemma RunFrom(s: Text, i: nat, p: Byte -> bool)
    requires i < |s| && p(s[i])
    ensures Maximal(s, i, RunEnd(s, i + 1, p), p)
  {
  }

  /** The lexer's token is right. */
  lemma NextIsRight(s: Text, i: nat)
    requires hide *; i < |s| && Utf8(s) && Boundary(s, i)
    ensures Right(s, i, Next(s, i))
  {
    hide Right, Next, LuaBlock, Utf8, Boundary, IsNameStart, IsBlank;
    if IsBlank(s[i]) || Is(s, i, '/') || Is(s, i, '"') {
      SpacingIsRight(s, i);
    } else if LuaBlock(s, i).Some? || IsNameStart(s[i]) {
      WordIsRight(s, i);
    } else {
      RestIsRight(s, i);
    }
  }

  lemma SpacingIsRight(s: Text, i: nat)
    requires i < |s| && Utf8(s) && Boundary(s, i)
    requires IsBlank(s[i]) || Is(s, i, '/') || Is(s, i, '"')
    ensures Right(s, i, Next(s, i))
  {
    hide RunEnd, CommentEnd, StringEnd, LuaBlock, NumberAt, SymbolAt, Maximal, IsComment, IsString, IsLuaText, NoLua, Letters, Reads, IsSymbol, Utf8,
      Boundary;
    if Is(s, i, '/') {
      SlashIsRight(s, i);
    } else if IsBlank(s[i]) {
      RunFrom(s, i, IsBlank);
    } else {
      ReadsQuote(s, i);
      AfterAscii(s, i + 1);
      StringAt(s, i + 1);
    }
  }

  lemma SlashIsRight(s: Text, i: nat)
    requires i < |s| && Utf8(s) && Boundary(s, i) && Is(s, i, '/')
    ensures Right(s, i, Next(s, i))
  {
    hide Next, RunEnd, CommentEnd, SymbolAt, Maximal, IsComment, IsString, IsLuaText, NoLua, IsNumber, IsWord, Letters, Reads, IsSymbol, Utf8, Boundary,
      StartsNumber, IsBlank, IsNameStart, IsMark, IsUnknown, IsKeyword;
    NextSlash(s, i);
    ReadsTwo(s, i, "//");
    ReadsTwo(s, i, "/*");
    if Is(s, i + 1, '/') {
      MaximalIs(s, i + 2, RunEnd(s, i + 2, IsNoLineEnd), IsNoLineEnd);
    } else if Is(s, i + 1, '*') {
      CommentAt(s, i + 2);
    } else {
      MarkStands(s, i);
    }
  }

  lemma MarkStands(s: Text, i: nat)
    requires i < |s| && NoCommentOrNumber(s, i)
    ensures SymbolAt(s, i) != "" ==> IsMark(s, i, SymbolAt(s, i))
    ensures SymbolAt(s, i) == "" ==> forall w :: IsSymbol(w) ==> !Reads(s, i, w)
  {
    hide IsSymbol, Reads, SymbolAt, NoCommentOrNumber;
    SymbolIs(s, i);
  }

  /** The token at a slash. */
  lemma NextSlash(s: Text, i: nat)
    requires i < |s| && Utf8(s) && Boundary(s, i) && Is(s, i, '/')
    ensures SymbolAt(s, i) != "" && !StartsNumber(s, i)
    ensures Is(s, i + 1, '/') ==> Next(s, i) == Piece(LineComment, RunEnd(s, i + 2, IsNoLineEnd), None)
    ensures Is(s, i + 1, '*') ==> Boundary(s, i + 2)
    ensures Is(s, i + 1, '*') ==>
              var comment := CommentEnd(s, i + 2, 1);
              Next(s, i) == Piece(BlockComment, comment.end, ErrorUnless(comment.open == 0, UnterminatedBlockComment))
    ensures !Is(s, i + 1, '/') && !Is(s, i + 1, '*') ==> Next(s, i) == Piece(Symbol(SymbolAt(s, i)), i + |SymbolAt(s, i)|, None)
  {
    hide RunEnd, CommentEnd, StringEnd, LuaBlock, NumberAt, SymbolAt, Letters, Utf8, Boundary, WordKind;
    SlashIsOther(s[i]);
    SlashIsSymbol(s, i);
    NoLuaHere(s, i);
    if Is(s, i + 1, '*') {
      AfterAscii(s, i + 2);
    }
  }

  lemma SlashIsOther(b: Byte)
    requires b == '/' as int
    ensures !IsBlank(b) && !IsNameStart(b) && !IsDigit(b)
  {
  }

  lemma NoLuaHere(s: Text, i: nat)
    requires !Is(s, i, 'l')
    ensures LuaBlock(s, i) == None
  {
    hide RunEnd, LuaBodyEnd;
    ReadsFirst(s, i, "lua!");
  }

  lemma ReadsFirst(s: Text, i: nat, w: string)
    requires w != ""
    ensures Reads(s, i, w) ==> Is(s, i, w[0])
  {
    if Reads(s, i, w) {
      assert s[i + 0] == w[0] as int;
    }
  }

  lemma SlashIsSymbol(s: Text, i: nat)
    requires Is(s, i, '/')
    ensures SymbolAt(s, i) != ""
  {
  }

  lemma WordIsRight(s: Text, i: nat)
    requires hide *; i < |s| && Utf8(s) && Boundary(s, i)
    requires !IsBlank(s[i]) && !Is(s, i, '/') && !Is(s, i, '"')
    requires LuaBlock(s, i).Some? || IsNameStart(s[i])
    ensures Right(s, i, Next(s, i))
  {
    hide RunEnd, CommentEnd, StringEnd, LuaBlock, NumberAt, SymbolAt, Maximal, IsComment, IsString, IsLuaText, NoLua, IsNumber, Letters, Reads,
      IsSymbol, Utf8, Boundary, IsNameContinue;
    LuaBlockIs(s, i);
    if LuaBlock(s, i) == None {
      NameGoesOn(s[i]);
      RunFrom(s, i, IsNameContinue);
    }
  }

  lemma NameGoesOn(b: Byte)
    requires IsNameStart(b)
    ensures IsNameContinue(b)
  {
  }

  lemma RestIsRight(s: Text, i: nat)
    requires hide *; i < |s| && Utf8(s) && Boundary(s, i)
    requires !IsBlank(s[i]) && !Is(s, i, '/') && !Is(s, i, '"') && LuaBlock(s, i) == None && !IsNameStart(s[i])
    ensures Right(s, i, Next(s, i))
  {
    hide RunEnd, CommentEnd, StringEnd, LuaBlock, NumberAt, SymbolAt, Maximal, IsNumber, Letters, Reads, IsSymbol, Utf8, Boundary, IsNameContinue,
      StartsNumber, IsNameStart, IsBlank;
    if StartsNumber(s, i) {
      NumberIs(s, i);
    } else {
      MarkIsRight(s, i);
    }
  }

  lemma MarkIsRight(s: Text, i: nat)
    requires hide *; i < |s| && Utf8(s) && Boundary(s, i) && !StartsNumber(s, i)
    requires !IsBlank(s[i]) && !Is(s, i, '/') && !Is(s, i, '"') && LuaBlock(s, i) == None && !IsNameStart(s[i])
    ensures Right(s, i, Next(s, i))
  {
    hide Next, RunEnd, CommentEnd, SymbolAt, Maximal, IsComment, IsString, IsLuaText, NoLua, IsNumber, IsWord, Letters, Reads, IsSymbol, Utf8, Boundary,
      StartsNumber, IsBlank, IsNameStart, IsMark, IsKeyword;
    NextMark(s, i);
    ReadsTwo(s, i, "//");
    ReadsTwo(s, i, "/*");
    MarkStands(s, i);
  }

  lemma NextMark(s: Text, i: nat)
    requires hide *; i < |s| && Utf8(s) && Boundary(s, i) && !StartsNumber(s, i)
    requires !IsBlank(s[i]) && !Is(s, i, '/') && !Is(s, i, '"') && LuaBlock(s, i) == None && !IsNameStart(s[i])
    ensures Next(s, i) == if SymbolAt(s, i) != "" then Piece(Symbol(SymbolAt(s, i)), i + |SymbolAt(s, i)|, None)
                          else Piece(Unknown, i + Width(s[i]), Some(UnknownCharacter))
  {
    hide RunEnd, CommentEnd, StringEnd, LuaBlock, NumberAt, SymbolAt, Letters, Utf8, Boundary, WordKind, StartsNumber, IsBlank, IsNameStart;
  }

  lemma CommentAt(s: Text, i: nat)
    requires Utf8(s) && Boundary(s, i)
    ensures var r := CommentEnd(s, i, 1); IsComment(s, i, Quoted(r.end, r.open == 0))
  {
    hide CommentEnd, Balanced, Marks;
    var k := CommentIs(s, i, 1);
  }

  lemma StringAt(s: Text, i: nat)
    requires Utf8(s) && Boundary(s, i)
    ensures IsString(s, i, StringEnd(s, i))
  {
    NoneBefore(s, i);
    hide StringEnd, IsString, Escaped;
    StringIs(s, i, i);
  }

  lemma SymbolIs(s: Text, i: nat)
    requires i < |s|
    ensures var w := SymbolAt(s, i); w != "" ==> IsSymbol(w) && Reads(s, i, w)
    ensures forall w :: IsSymbol(w) && Reads(s, i, w) ==> SymbolAt(s, i) != "" && |w| <= |SymbolAt(s, i)|
  {
    hide SymbolAt;
    SymbolStandsHere(s, i);
    forall w | IsSymbol(w) && Reads(s, i, w) ensures SymbolAt(s, i) != "" && |w| <= |SymbolAt(s, i)| {
      LongestSymbol(s, i, w);
    }
  }

  // ---- no other token is right ----

  lemma BalancedIsUnique(marks: seq<Brace>, width: nat, depth: nat, q: Quoted, j: nat, r: Quoted, k: nat)
    requires Balanced(marks, width, depth, q, j) && Balanced(marks, width, depth, r, k)
    ensures q.terminated == r.terminated && (q.terminated ==> q.end == r.end)
  {
    hide Balance;
  }

  lemma CommentIsUnique(s: Text, i: nat, q: Quoted, r: Quoted)
    requires i <= |s| && IsComment(s, i, q) && IsComment(s, i, r)
    ensures q == r
  {
    hide Balanced, Marks;
    var j: nat :| Balanced(Marks(s, i), 2, 1, q, j);
    var k: nat :| Balanced(Marks(s, i), 2, 1, r, k);
    BalancedIsUnique(Marks(s, i), 2, 1, q, j, r, k);
  }

  lemma LuaTextIsUnique(s: Text, i: nat, q: Quoted, r: Quoted)
    requires i < |s| && IsLuaText(s, i, q) && IsLuaText(s, i, r)
    ensures q == r
  {
    hide Balanced, Braces, StartsLua, RunEnd;
    var a: nat, j: nat :| a <= |s| && StartsLua(s, i, a) && Balanced(Braces(s, a), 1, 0, q, j);
    var b: nat, k: nat :| b <= |s| && StartsLua(s, i, b) && Balanced(Braces(s, b), 1, 0, r, k);
    OnlyBrace(s, i, a);
    OnlyBrace(s, i, b);
    BalancedIsUnique(Braces(s, a), 1, 0, q, j, r, k);
  }

  lemma RunIsUnique(s: Text, i: nat, d: nat, e: nat, p: Byte -> bool)
    requires Maximal(s, i, d, p) && Maximal(s, i, e, p)
    ensures d == e
  {
    MaximalIs(s, i, d, p);
    MaximalIs(s, i, e, p);
  }

  lemma NumberIsUnique(s: Text, i: nat, d: nat, kind: Kind, e: nat, other: Kind)
    requires IsNumber(s, i, d, kind) && IsNumber(s, i, e, other)
    ensures d == e && kind == other
  {
    hide Maximal, IsFraction, IsExponent, RunEnd;
    if StartsRadix(s, i) {
      RunIsUnique(s, i + 2, d, e, IsNameContinue);
    } else {
      var start := if Is(s, i, '.') then i + 1 else i;
      var a: nat, b: nat :| Maximal(s, start, a, IsDigitOrLine) && IsFraction(s, a, b) && IsExponent(s, b, d);
      var f: nat, g: nat :| Maximal(s, start, f, IsDigitOrLine) && IsFraction(s, f, g) && IsExponent(s, g, e);
      RunIsUnique(s, start, a, f, IsDigitOrLine);
      PartsAreUnique(s, a, b, g, d, e);
    }
  }

  lemma PartsAreUnique(s: Text, a: nat, b: nat, g: nat, d: nat, e: nat)
    requires IsFraction(s, a, b) && IsFraction(s, a, g) && IsExponent(s, b, d) && IsExponent(s, g, e)
    ensures b == g && d == e
  {
    hide Maximal;
    if b != g {
      RunIsUnique(s, a + 1, b, g, IsDigitOrLine);
    }
    if d != e {
      RunIsUnique(s, if Is(s, b + 1, '+') || Is(s, b + 1, '-') then b + 2 else b + 1, d, e, IsDigitOrLine);
    }
  }

  /** Two symbols of the same length that stand at one place are the same. */
  lemma SameSymbol(s: Text, i: nat, v: string, w: string)
    requires Reads(s, i, v) && Reads(s, i, w) && |v| == |w|
    ensures v == w
  {
    forall k | 0 <= k < |v| ensures v[k] == w[k] {
      assert s[i + k] == v[k] as int && s[i + k] == w[k] as int;
    }
  }

  datatype Sort = Space | LineCommentSort | CommentSort | TextSort | LuaSort | WordSort | NumberSort | RestSort

  function SortOf(kind: Kind): Sort {
    match kind
    case Whitespace => Space
    case LineComment => LineCommentSort
    case BlockComment => CommentSort
    case Str => TextSort
    case LuaText => LuaSort
    case Keyword(_) => WordSort
    case Ident => WordSort
    case Int => NumberSort
    case Float => NumberSort
    case _ => RestSort
  }

  /** The first characters tell the sorts apart. */
  lemma SortIsUnique(s: Text, i: nat, p: Piece, q: Piece)
    requires hide *; i < |s| && Right(s, i, p) && Right(s, i, q)
    ensures SortOf(p.kind) == SortOf(q.kind)
  {
    hide Marks, Braces, RunEnd, LongEnd, IsLuaText, Backslashes, IsComment;
    ReadsTwo(s, i, "//");
    ReadsTwo(s, i, "/*");
    ReadsQuote(s, i);
    LuaOrNot(s, i, p);
    LuaOrNot(s, i, q);
    SymbolOrNot(s, i, p);
    SymbolOrNot(s, i, q);
    hide Maximal, IsComment, IsString, IsLuaText, NoLua, IsNumber, Letters, Reads, IsSymbol;
  }

  lemma LuaOrNot(s: Text, i: nat, p: Piece)
    requires hide *; i < |s| && Right(s, i, p)
    ensures p.kind.LuaText? ==> !NoLua(s, i) && Is(s, i, 'l')
  {
    hide Maximal, IsComment, IsString, IsNumber, Letters, Reads, IsSymbol, Balanced, Braces;
    if p.kind.LuaText? {
      var open: nat, k: nat :| open <= |s| && StartsLua(s, i, open) && Balanced(Braces(s, open), 1, 0, Quoted(p.end, p.error == None), k);
      ReadsFirst(s, i, "lua!");
    }
  }

  lemma SymbolOrNot(s: Text, i: nat, p: Piece)
    requires hide *; i < |s| && Right(s, i, p)
    ensures p.kind.Symbol? ==> !IsBlank(s[i]) && !Is(s, i, '"') && !IsNameStart(s[i])
  {
    hide Maximal, IsComment, IsString, IsLuaText, NoLua, IsNumber, Letters, Reads, IsSymbol, IsBlank, IsNameStart;
    if p.kind.Symbol? {
      FirstOfSymbol(p.kind.word);
      ReadsFirst(s, i, p.kind.word);
      Apart(s[i]);
    }
  }

  const MARKS := {'+', '-', '*', '/', '%', '<', '>', '=', '!', '&', '|', '.', ':', ';', ',', '?', '#', '(', ')', '{', '}', '[', ']'}

  lemma FirstOfSymbol(w: string)
    requires IsSymbol(w)
    ensures w != "" && w[0] in MARKS
  {
  }

  /** No mark is white space, a quote, or part of a name. */
  lemma Apart(b: Byte)
    ensures forall c :: c in MARKS && b == c as int ==> !IsBlank(b) && b != '"' as int && !IsNameStart(b)
  {
  }

  /** At most one token is right at a place. */
  lemma RightIsUnique(s: Text, i: nat, p: Piece, q: Piece)
    requires hide *; i < |s| && Right(s, i, p) && Right(s, i, q)
    ensures p == q
  {
    hide Maximal, IsComment, IsString, IsLuaText, IsNumber, Reads, IsBlank, IsNameStart;
    SortIsUnique(s, i, p, q);
    match SortOf(p.kind) {
      case Space => RunIsUnique(s, i, p.end, q.end, IsBlank);
      case LineCommentSort => RunIsUnique(s, i + 2, p.end, q.end, IsNoLineEnd);
      case CommentSort =>
        ReadsTwo(s, i, "/*");
        CommentIsUnique(s, i + 2, Quoted(p.end, p.error == None), Quoted(q.end, q.error == None));
      case TextSort => StringIsUnique(s, i + 1, Quoted(p.end, p.error == None), Quoted(q.end, q.error == None));
      case LuaSort => LuaTextIsUnique(s, i, Quoted(p.end, p.error == None), Quoted(q.end, q.error == None));
      case WordSort => RunIsUnique(s, i, p.end, q.end, IsNameContinue);
      case NumberSort => NumberIsUnique(s, i, p.end, p.kind, q.end, q.kind);
      case RestSort =>
        if p.kind.Symbol? && q.kind.Symbol? {
          SameSymbol(s, i, p.kind.word, q.kind.word);
        }
    }
  }

  // ---- the whole text ----

  /**
   * Every token of the text is right and no other is right at its place, so the tokens are determined by what each
   * kind of token looks like.
   */
  lemma {:induction false} TokensAreRight(s: Text, i: nat)
    requires hide *; i <= |s| && Utf8(s) && Boundary(s, i)
    ensures var ts := Tokens(s, i);
            forall k :: 0 <= k < |ts| ==>
              && ts[k].start < |s|
              && forall p :: Right(s, ts[k].start, p) <==> p == Piece(ts[k].kind, ts[k].end, ts[k].error)
    decreases |s| - i
  {
    hide Right, Next, Utf8;
    if i < |s| {
      NextIsToken(s, i);
      var next := Next(s, i);
      TokenMoves(s, i, next);
      NextIsRight(s, i);
      forall p | Right(s, i, p) ensures p == next {
        RightIsUnique(s, i, p, next);
      }
      TokensAreRight(s, next.end);
      var ts := Tokens(s, i);
      assert forall k :: 0 < k < |ts| ==> ts[k] == Tokens(s, next.end)[k - 1];
    }
  }
}
