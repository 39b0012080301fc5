/** Printed text as characters, and Lua's scanner on them (section 3.1 of the Lua 5.4 Reference Manual). */
module LuaScanner {
  import opened Wrappers
  import opened LuaIr
  import opened LuaTokens
  import opened LuaPrinter
  import opened LuaSpacing
  import LuaRoundTrip

  // ---- writing ----

  function Digits(n: nat): (s: string)
    ensures s != [] && forall i :: 0 <= i < |s| ==> IsDigit(s[i])
  {
    if n < 10 then [DigitChar(n)] else Digits(n / 10) + [DigitChar(n % 10)]
  }

  function DigitChar(n: nat): (c: char)
    requires n < 10
    ensures IsDigit(c) && DigitValue(c) == n
  {
    '0' + n as char
  }

  function DigitValue(c: char): nat
    requires IsDigit(c)
  {
    (c - '0') as nat
  }

  /** Backslash, quote and line ends are written with a backslash. */
  function Escape(s: string): string {
    if s == [] then []
    else EscapeChar(s[0]) + Escape(s[1..])
  }

  function EscapeChar(c: char): string {
    if c == '\\' then "\\\\" else if c == '\"' then "\\\"" else if c == '\n' then "\\n" else if c == '\r' then "\\r" else [c]
  }

  function OpText(op: BinaryOp): string {
    match op
    case Or => "or"
    case And => "and"
    case Eq => "=="
    case Ne => "~="
    case Lt => "<"
    case Le => "<="
    case Gt => ">"
    case Ge => ">="
    case Concat => ".."
    case Add => "+"
    case Sub => "-"
    case Mul => "*"
    case Div => "/"
    case Rem => "%"
  }

  function Spelling(t: Token): string {
    match t
    case KwNil => "nil"
    case KwTrue => "true"
    case KwFalse => "false"
    case KwNot => "not"
    case IntTok(n) => Digits(n)
    case NumTok(source) => source
    case StrTok(text) => "\"" + Escape(text) + "\""
    case NameTok(id) => id
    case OpTok(op) => OpText(op)
    case Hash => "#"
    case Dot => "."
    case Colon => ":"
    case Comma => ","
    case Assign => "="
    case LParen => "("
    case RParen => ")"
    case LBracket => "["
    case RBracket => "]"
    case LBrace => "{"
    case RBrace => "}"
  }

  function Render(ps: seq<Piece>): string {
    if ps == [] then [] else (if ps[0].Tok? then Spelling(ps[0].token) else " ") + Render(ps[1..])
  }

  // ---- reading ----

  /** How many characters of s belong to the word that starts it. */
  function WordEnd(s: string): (n: nat)
    ensures n <= |s| && forall i :: 0 <= i < n ==> IsLetter(s[i]) || IsDigit(s[i])
    ensures n < |s| ==> !IsLetter(s[n]) && !IsDigit(s[n])
  {
    if s == [] || !(IsLetter(s[0]) || IsDigit(s[0])) then 0 else 1 + WordEnd(s[1..])
  }

  /** Keywords outside expressions are no token here. */
  function WordToken(w: string): Option<Token> {
    if w == "nil" then Some(KwNil)
    else if w == "true" then Some(KwTrue)
    else if w == "false" then Some(KwFalse)
    else if w == "not" then Some(KwNot)
    else if w == "and" then Some(OpTok(And))
    else if w == "or" then Some(OpTok(Or))
    else if w in LUA_KEYWORDS then None
    else Some(NameTok(w))
  }

  predicate IsHexDigit(c: char) { IsDigit(c) || 'a' <= c <= 'f' || 'A' <= c <= 'F' }

  predicate IsExponent(c: char, hex: bool) { if hex then c == 'p' || c == 'P' else c == 'e' || c == 'E' }

  /** A numeral takes every digit and dot, and a sign right after an exponent mark. */
  function NumeralEnd(s: string, hex: bool): (n: nat)
    ensures n <= |s|
    decreases |s|
  {
    if s == [] then 0
    else if IsExponent(s[0], hex) then
      if |s| > 1 && (s[1] == '+' || s[1] == '-') then 2 + NumeralEnd(s[2..], hex) else 1 + NumeralEnd(s[1..], hex)
    else if IsHexDigit(s[0]) || s[0] == '.' then 1 + NumeralEnd(s[1..], hex)
    else 0
  }

  function Numeral(s: string): (n: nat)
    requires s != []
    ensures 1 <= n <= |s|
  {
    if |s| > 1 && s[0] == '0' && (s[1] == 'x' || s[1] == 'X') then 2 + NumeralEnd(s[2..], true) else 1 + NumeralEnd(s[1..], false)
  }

  predicate AllDigits(s: string) {
    forall i :: 0 <= i < |s| ==> IsDigit(s[i])
  }

  function Value(s: string): nat
    requires AllDigits(s)
  {
    if s == [] then 0 else 10 * Value(s[..|s| - 1]) + DigitValue(s[|s| - 1])
  }

  const MAX_INT: int := 0x7fff_ffff_ffff_ffff

  /** Decimal digits are an integer if they fit 64 bits, otherwise a float. */
  function NumberToken(text: string): Token {
    if AllDigits(text) && Value(text) <= MAX_INT then IntTok(Value(text)) else NumTok(text)
  }

  datatype Scanned = Scanned(text: string, length: nat)

  /** The characters up to the closing quote. Escapes that are never written are not read. */
  function Quoted(s: string): (r: Option<Scanned>)
    ensures r.Some? ==> 1 <= r.value.length <= |s|
  {
    if s == [] || s[0] == '\n' || s[0] == '\r' then None
    else if s[0] == '\"' then Some(Scanned([], 1))
    else if s[0] == '\\' then
      if |s| < 2 || Unescape(s[1]).None? then None
      else More(Unescape(s[1]).value, 2, Quoted(s[2..]))
    else More(s[0], 1, Quoted(s[1..]))
  }

  function Unescape(c: char): Option<char> {
    if c == '\\' || c == '\"' then Some(c) else if c == 'n' then Some('\n') else if c == 'r' then Some('\r') else None
  }

  function More(c: char, n: nat, r: Option<Scanned>): Option<Scanned> {
    if r.None? then None else Some(Scanned([c] + r.value.text, n + r.value.length))
  }

  datatype Lexeme = Lexeme(token: Token, length: nat)

  predicate Next(s: string, c: char) {
    |s| > 1 && s[1] == c
  }

  /** The longest operator or punctuation mark at the start of s; `[[`, `<<` and the like are no token here. */
  function Symbol(s: string): Option<Lexeme>
    requires s != []
  {
    match s[0]
    case '=' => Some(if Next(s, '=') then Lexeme(OpTok(Eq), 2) else Lexeme(Assign, 1))
    case '~' => if Next(s, '=') then Some(Lexeme(OpTok(Ne), 2)) else None
    case '<' => if Next(s, '=') then Some(Lexeme(OpTok(Le), 2)) else if Next(s, '<') then None else Some(Lexeme(OpTok(Lt), 1))
    case '>' => if Next(s, '=') then Some(Lexeme(OpTok(Ge), 2)) else if Next(s, '>') then None else Some(Lexeme(OpTok(Gt), 1))
    case '.' =>
      if Next(s, '.') then (if |s| > 2 && s[2] == '.' then None else Some(Lexeme(OpTok(Concat), 2))) else Some(Lexeme(Dot, 1))
    case '/' => if Next(s, '/') then None else Some(Lexeme(OpTok(Div), 1))
    case ':' => if Next(s, ':') then None else Some(Lexeme(Colon, 1))
    case '[' => if Next(s, '[') || Next(s, '=') then None else Some(Lexeme(LBracket, 1))
    case '+' => Some(Lexeme(OpTok(Add), 1))
    case '-' => Some(Lexeme(OpTok(Sub), 1))
    case '*' => Some(Lexeme(OpTok(Mul), 1))
    case '%' => Some(Lexeme(OpTok(Rem), 1))
    case '#' => Some(Lexeme(Hash, 1))
    case ',' => Some(Lexeme(Comma, 1))
    case '(' => Some(Lexeme(LParen, 1))
    case ')' => Some(Lexeme(RParen, 1))
    case ']' => Some(Lexeme(RBracket, 1))
    case '{' => Some(Lexeme(LBrace, 1))
    case '}' => Some(Lexeme(RBrace, 1))
    case _ => None
  }

  /** The first token of s, which begins with neither a blank nor a comment, and its length. */
  function First(s: string): (r: Option<Lexeme>)
    requires s != []
    ensures r.Some? ==> 1 <= r.value.length <= |s|
  {
    if IsLetter(s[0]) then
      var n := WordEnd(s);
      var t := WordToken(s[..n]);
      if t.None? then None else Some(Lexeme(t.value, n))
    else if IsDigit(s[0]) || (s[0] == '.' && |s| > 1 && IsDigit(s[1])) then
      var n := Numeral(s);
      if n < |s| && IsLetter(s[n]) then None else Some(Lexeme(NumberToken(s[..n]), n))
    else if s[0] == '\"' then
      var q := Quoted(s[1..]);
      if q.None? then None else Some(Lexeme(StrTok(q.value.text), 1 + q.value.length))
    else Symbol(s)
  }

  predicate IsBlank(c: char) { c == ' ' || c == '\t' || c == '\n' || c == '\r' }

  /** The rest of the line belongs to the comment. */
  function AfterLine(s: string): (r: string)
    ensures |r| <= |s|
  {
    if s == [] || s[0] == '\n' || s[0] == '\r' then s else AfterLine(s[1..])
  }

  /** The tokens of a text; a comment over several lines is not read. */
  function Scan(s: string): Option<seq<Token>>
    decreases |s|
  {
    if s == [] then Some([])
    else if IsBlank(s[0]) then Scan(s[1..])
    else if s[0] == '-' && Next(s, '-') then
      (if |s| > 3 && s[2] == '[' && (s[3] == '[' || s[3] == '=') then None else Scan(AfterLine(s[2..])))
    else
      var first := First(s);
      if first.None? then None
      else
        var rest := Scan(s[first.value.length..]);
        if rest.None? then None else Some([first.value.token] + rest.value)
  }

  // ---- what can be written ----

  /** Names are identifiers, integers fit 64 bits, and a numeral is one as a whole, whatever follows it. */
  predicate Spelled(t: Token) {
    match t
    case NameTok(id) => IsLuaIdentifier(id)
    case IntTok(n) => n <= MAX_INT
    case NumTok(s) =>
      && s != [] && IsDigit(s[0]) && Numeral(s + "-") == |s| && Numeral(s + "+") == |s|
      && !(AllDigits(s) && Value(s) <= MAX_INT)
    case _ => true
  }

  predicate AllSpelled(ps: seq<Piece>) {
    forall i :: 0 <= i < |ps| ==> ps[i].Tok? ==> Spelled(ps[i].token)
  }

  // ---- one token is read back ----

  /** A character that the token's own characters would run into. */
  predicate Clash(t: Token, c: char) {
    || (IsWord(t) && (IsLetter(c) || IsDigit(c)))
    || (IsNumber(t) && c == '.')
    || (t == Minus && c == '-')
    || ((t.Dot? || t == OpTok(Concat)) && (c == '.' || IsDigit(c)))
    || ((t.Assign? || t == OpTok(Lt) || t == OpTok(Gt) || t.LBracket?) && c == '=')
    || (t == OpTok(Lt) && c == '<')
    || (t == OpTok(Gt) && c == '>')
    || (t.LBracket? && c == '[')
    || (t.Colon? && c == ':')
    || (t == OpTok(Div) && c == '/')
  }

  predicate Clear(t: Token, rest: string) {
    rest == [] || !Clash(t, rest[0])
  }

  /** What the first character says about the token. */
  lemma Head(u: Token)
    requires Spelled(u)
    ensures Spelling(u) != []
    ensures var c := Spelling(u)[0];
            && !IsBlank(c)
            && (IsLetter(c) || IsDigit(c) ==> IsWord(u))
            && (IsDigit(c) ==> IsNumber(u))
            && (c == '.' ==> u.Dot? || u == OpTok(Concat))
            && (c == '=' ==> BeginsEqual(u))
            && (c == '-' ==> u == Minus)
            && (c == '<' ==> u == OpTok(Lt) || u == OpTok(Le))
            && (c == '>' ==> u == OpTok(Gt) || u == OpTok(Ge))
            && (c == '[' ==> u.LBracket?)
            && (c == ':' ==> u.Colon?)
            && (c == '/' ==> u == OpTok(Div))
  {
    hide Digits, Escape, Numeral, Value;
    if u.IntTok? {
      assert IsDigit(Digits(u.value)[0]);
    }
  }

  /** Tokens that do not fuse do not run into each other. */
  lemma NoClash(t: Token, u: Token)
    requires Spelled(u) && !Fuses(t, u, true)
    ensures Spelling(u) != [] && !Clash(t, Spelling(u)[0])
  {
    hide Spelling, Spelled;
    Head(u);
  }

  lemma {:induction false} WordEndExact(w: string, rest: string)
    requires (forall i :: 0 <= i < |w| ==> IsLetter(w[i]) || IsDigit(w[i])) && (rest == [] || !(IsLetter(rest[0]) || IsDigit(rest[0])))
    ensures WordEnd(w + rest) == |w|
  {
    if w == [] {
      assert w + rest == rest;
    } else {
      WordEndExact(w[1..], rest);
      assert (w + rest)[1..] == w[1..] + rest;
    }
  }

  lemma FirstWord(w: string, t: Token, rest: string)
    requires w != [] && IsLetter(w[0]) && WordToken(w) == Some(t)
    requires (forall i :: 0 <= i < |w| ==> IsLetter(w[i]) || IsDigit(w[i])) && (rest == [] || !(IsLetter(rest[0]) || IsDigit(rest[0])))
    ensures First(w + rest) == Some(Lexeme(t, |w|))
  {
    WordEndExact(w, rest);
    assert (w + rest)[..|w|] == w;
  }

  lemma NamesAreWords(id: string)
    requires IsLuaIdentifier(id)
    ensures WordToken(id) == Some(NameTok(id))
  {
    var k := LUA_KEYWORDS;
    assert k[0] == "and" && k[6] == "false" && k[13] == "nil" && k[14] == "not" && k[15] == "or" && k[19] == "true";
  }

  lemma NumeralStops(rest: string, hex: bool)
    requires rest == [] || (!IsLetter(rest[0]) && !IsDigit(rest[0]) && rest[0] != '.')
    ensures NumeralEnd(rest, hex) == 0
  {
  }

  /** An exponent mark with a sign, or one character, and then the rest. */
  function Taken(s: string, hex: bool): nat
    requires s != []
  {
    if IsExponent(s[0], hex) && |s| > 1 && (s[1] == '+' || s[1] == '-') then 2
    else if IsExponent(s[0], hex) || IsHexDigit(s[0]) || s[0] == '.' then 1
    else 0
  }

  lemma NumeralStep(s: string, hex: bool)
    requires s != []
    ensures var k := Taken(s, hex); k <= |s| && NumeralEnd(s, hex) == if k == 0 then 0 else k + NumeralEnd(s[k..], hex)
  {
  }

  lemma {:induction false} NumeralEndExact(s: string, rest: string, hex: bool)
    requires NumeralEnd(s + "-", hex) == |s| && NumeralEnd(s + "+", hex) == |s|
    requires rest == [] || (!IsLetter(rest[0]) && !IsDigit(rest[0]) && rest[0] != '.')
    ensures NumeralEnd(s + rest, hex) == |s|
    decreases |s|
  {
    hide IsLetter, IsDigit, IsHexDigit, NumeralEnd;
    if s == [] {
      assert s + rest == rest;
      NumeralStops(rest, hex);
    } else {
      NumeralStep(s + "-", hex);
      NumeralStep(s + "+", hex);
      NumeralStep(s + rest, hex);
      var k := Taken(s, hex);
      if k <= |s| && (|s| > 1 || !IsExponent(s[0], hex)) {
        assert (s + "-")[k..] == s[k..] + "-" && (s + "+")[k..] == s[k..] + "+" && (s + rest)[k..] == s[k..] + rest;
        if k > 0 { NumeralEndExact(s[k..], rest, hex); }
      }
    }
  }

  lemma NumeralExact(s: string, rest: string)
    requires s != [] && Numeral(s + "-") == |s| && Numeral(s + "+") == |s|
    requires rest == [] || (!IsLetter(rest[0]) && !IsDigit(rest[0]) && rest[0] != '.')
    ensures Numeral(s + rest) == |s|
  {
    hide NumeralEnd;
    if |s| > 1 && s[0] == '0' && (s[1] == 'x' || s[1] == 'X') {
      assert (s + "-")[2..] == s[2..] + "-" && (s + "+")[2..] == s[2..] + "+" && (s + rest)[2..] == s[2..] + rest;
      NumeralEndExact(s[2..], rest, true);
    } else {
      assert (s + "-")[1..] == s[1..] + "-" && (s + "+")[1..] == s[1..] + "+" && (s + rest)[1..] == s[1..] + rest;
      NumeralEndExact(s[1..], rest, false);
    }
  }

  lemma {:induction false} DigitsEnd(s: string, rest: string)
    requires AllDigits(s) && rest != [] && (rest[0] == '-' || rest[0] == '+')
    ensures NumeralEnd(s + rest, false) == |s|
  {
    if s == [] {
      assert s + rest == rest;
    } else {
      DigitsEnd(s[1..], rest);
      assert (s + rest)[1..] == s[1..] + rest;
    }
  }

  lemma DigitsNumeral(s: string, rest: string)
    requires AllDigits(s) && s != [] && rest != [] && (rest[0] == '-' || rest[0] == '+')
    ensures Numeral(s + rest) == |s|
  {
    DigitsEnd(s[1..], rest);
    assert (s + rest)[1..] == s[1..] + rest;
  }

  lemma {:induction false} DigitsValue(n: nat)
    ensures Value(Digits(n)) == n
  {
    if n < 10 {
      assert [DigitChar(n)][..0] == [];
    } else {
      DigitsValue(n / 10);
      assert Digits(n)[..|Digits(n)| - 1] == Digits(n / 10);
    }
  }

  lemma FirstNumber(s: string, rest: string)
    requires s != [] && IsDigit(s[0]) && Numeral(s + "-") == |s| && Numeral(s + "+") == |s|
    requires rest == [] || (!IsLetter(rest[0]) && !IsDigit(rest[0]) && rest[0] != '.')
    ensures First(s + rest) == Some(Lexeme(NumberToken(s), |s|))
  {
    NumeralExact(s, rest);
    assert (s + rest)[..|s|] == s;
  }

  lemma QuotedStep(c: char, tail: string)
    ensures Quoted(EscapeChar(c) + tail) == More(c, |EscapeChar(c)|, Quoted(tail))
  {
    var s := EscapeChar(c) + tail;
    if |EscapeChar(c)| == 2 {
      assert s[0] == '\\' && Unescape(s[1]) == Some(c) && s[2..] == tail;
    } else {
      assert s[0] == c && s[1..] == tail;
    }
  }

  lemma {:induction false} QuotedBack(text: string, rest: string)
    ensures Quoted(Escape(text) + "\"" + rest) == Some(Scanned(text, |Escape(text)| + 1))
  {
    var all := Escape(text) + "\"" + rest;
    if text == [] {
      assert all == "\"" + rest;
    } else {
      hide Quoted, EscapeChar;
      QuotedBack(text[1..], rest);
      QuotedStep(text[0], Escape(text[1..]) + "\"" + rest);
      assert all == EscapeChar(text[0]) + (Escape(text[1..]) + "\"" + rest);
      assert [text[0]] + text[1..] == text;
    }
  }

  lemma FirstString(text: string, rest: string)
    ensures First("\"" + Escape(text) + "\"" + rest) == Some(Lexeme(StrTok(text), |Escape(text)| + 2))
  {
    hide Quoted, Escape;
    var s := "\"" + Escape(text) + "\"" + rest;
    QuotedBack(text, rest);
    assert s[1..] == Escape(text) + "\"" + rest;
  }

  lemma FirstKeyword(t: Token, rest: string)
    requires (t.KwNil? || t.KwTrue? || t.KwFalse? || t.KwNot? || t == OpTok(And) || t == OpTok(Or)) && Clear(t, rest)
    ensures First(Spelling(t) + rest) == Some(Lexeme(t, |Spelling(t)|))
  {
    hide First;
    FirstWord(Spelling(t), t, rest);
  }

  lemma FirstSymbol(t: Token, rest: string)
    requires !IsWord(t) && !t.StrTok? && Clear(t, rest)
    ensures First(Spelling(t) + rest) == Some(Lexeme(t, |Spelling(t)|))
  {
    var s := Spelling(t) + rest;
    assert s[0] == Spelling(t)[0];
    assert |Spelling(t)| == 1 && rest != [] ==> s[1] == rest[0];
    assert |Spelling(t)| == 2 ==> s[1] == Spelling(t)[1];
    assert |Spelling(t)| == 2 && rest != [] ==> s[2] == rest[0];
  }

  lemma FirstToken(t: Token, rest: string)
    requires Spelled(t) && Clear(t, rest)
    ensures First(Spelling(t) + rest) == Some(Lexeme(t, |Spelling(t)|))
  {
    hide First, Digits, Escape, Numeral;
    match t {
      case IntTok(n) =>
        DigitsNumeral(Digits(n), "-");
        DigitsNumeral(Digits(n), "+");
        DigitsValue(n);
        FirstNumber(Digits(n), rest);
      case NumTok(s) => FirstNumber(s, rest);
      case StrTok(text) =>
        FirstString(text, rest);
      case NameTok(id) =>
        NamesAreWords(id);
        FirstWord(id, t, rest);
      case _ =>
        if IsWord(t) { FirstKeyword(t, rest); } else { FirstSymbol(t, rest); }
    }
  }

  function Prepend(t: Token, r: Option<seq<Token>>): Option<seq<Token>> {
    if r.None? then None else Some([t] + r.value)
  }

  lemma ScanToken(t: Token, rest: string)
    requires Spelled(t) && Clear(t, rest)
    ensures Scan(Spelling(t) + rest) == Prepend(t, Scan(rest))
  {
    hide First, Clash, AfterLine;
    FirstToken(t, rest);
    var s := Spelling(t) + rest;
    StartsPlainly(t, rest);
    assert s[|Spelling(t)|..] == rest;
  }

  /** A token starts with neither a blank nor a comment. */
  lemma StartsPlainly(t: Token, rest: string)
    requires Spelled(t) && Clear(t, rest)
    ensures var s := Spelling(t) + rest; s != [] && !IsBlank(s[0]) && !(s[0] == '-' && Next(s, '-'))
  {
    hide Spelling, Spelled;
    Head(t);
    StartOf(t, rest);
  }

  lemma StartOf(t: Token, rest: string)
    requires Spelling(t) != []
    ensures (Spelling(t) + rest)[0] == Spelling(t)[0]
    ensures t == Minus ==> |Spelling(t)| == 1 && (rest != [] ==> (Spelling(t) + rest)[1] == rest[0])
  {
    hide Digits, Escape;
  }

  // ---- whole texts ----

  lemma ClearAhead(t: Token, ps: seq<Piece>)
    requires AllSpelled(ps) && (ps != [] && ps[0].Tok? ==> !Fuses(t, ps[0].token, true))
    ensures Clear(t, Render(ps))
  {
    hide Clash, Spelling, Fuses;
    if ps != [] {
      if ps[0].Tok? {
        NoClash(t, ps[0].token);
      } else {
        BlankIsClear(t);
      }
    }
  }

  lemma BlankIsClear(t: Token)
    ensures !Clash(t, ' ')
  {
  }

  lemma RestScannable(ps: seq<Piece>, dashes: bool)
    requires ps != [] && Scannable(ps, dashes) && AllSpelled(ps)
    ensures Scannable(ps[1..], dashes) && AllSpelled(ps[1..])
    ensures |ps| > 1 && ps[0].Tok? && ps[1].Tok? ==> !Fuses(ps[0].token, ps[1].token, dashes)
  {
    hide Fuses, Spelled;
    var rest := ps[1..];
    forall i | 0 <= i < |rest| - 1 ensures !Touch(rest[i], rest[i + 1], dashes) {
      assert !Touch(ps[i + 1], ps[i + 2], dashes);
    }
    if |ps| > 1 {
      assert !Touch(ps[0], ps[0 + 1], dashes);
    }
  }

  /** Where no two tokens fuse, the scanner reads back exactly what was written. */
  lemma {:induction false} ScansBack(ps: seq<Piece>)
    requires AllSpelled(ps) && Scannable(ps, true)
    ensures Scan(Render(ps)) == Some(Words(ps))
  {
    hide Scannable, AllSpelled, Fuses, Spelling, First, Spelled;
    if ps != [] {
      RestScannable(ps, true);
      ScansBack(ps[1..]);
      if ps[0].Tok? {
        ClearAhead(ps[0].token, ps[1..]);
        assert AllSpelled(ps) && Spelled(ps[0].token) by { FirstSpelled(ps); }
        ScanToken(ps[0].token, Render(ps[1..]));
      } else {
        assert (" " + Render(ps[1..]))[1..] == Render(ps[1..]);
        assert [] + Words(ps[1..]) == Words(ps[1..]);
      }
    }
  }

  lemma FirstSpelled(ps: seq<Piece>)
    requires ps != [] && AllSpelled(ps) && ps[0].Tok?
    ensures Spelled(ps[0].token)
  {
  }

  // ---- two minus signs ----

  predicate OneLine(s: string) {
    forall i :: 0 <= i < |s| ==> s[i] != '\n' && s[i] != '\r'
  }

  lemma {:induction false} CommentToTheEnd(s: string)
    requires OneLine(s)
    ensures AfterLine(s) == []
  {
    if s != [] {
      CommentToTheEnd(s[1..]);
    }
  }

  lemma {:induction false} EscapeOneLine(s: string)
    ensures OneLine(Escape(s))
  {
    if s != [] {
      EscapeOneLine(s[1..]);
    }
  }

  /** Characters of a numeral. */
  lemma {:induction false} NumeralOneLine(s: string, hex: bool)
    ensures OneLine(s[..NumeralEnd(s, hex)])
    decreases |s|
  {
    var n := NumeralEnd(s, hex);
    if s != [] && IsExponent(s[0], hex) && |s| > 1 && (s[1] == '+' || s[1] == '-') {
      NumeralOneLine(s[2..], hex);
      assert s[..n] == s[..2] + s[2..][..n - 2];
    } else if n > 0 {
      NumeralOneLine(s[1..], hex);
      assert s[..n] == [s[0]] + s[1..][..n - 1];
    }
  }

  lemma NumberOneLine(s: string)
    requires Spelled(NumTok(s))
    ensures OneLine(s)
  {
    hide NumeralEnd;
    var t := s + "-";
    assert t[..|s|] == s;
    if |t| > 1 && t[0] == '0' && (t[1] == 'x' || t[1] == 'X') {
      NumeralOneLine(t[2..], true);
      assert t[..|s|] == t[..2] + t[2..][..|s| - 2];
    } else {
      NumeralOneLine(t[1..], false);
      assert t[..|s|] == [t[0]] + t[1..][..|s| - 1];
    }
  }

  lemma SpellingOneLine(t: Token)
    requires Spelled(t)
    ensures OneLine(Spelling(t))
  {
    hide Digits, Escape, Numeral;
    match t {
      case StrTok(text) => EscapeOneLine(text);
      case NumTok(s) => NumberOneLine(s);
      case IntTok(n) =>
        forall i | 0 <= i < |Digits(n)| ensures Digits(n)[i] != '\n' && Digits(n)[i] != '\r' { assert IsDigit(Digits(n)[i]); }
      case NameTok(id) =>
        forall i | 0 <= i < |id| ensures id[i] != '\n' && id[i] != '\r' { assert IsLetter(id[i]) || IsDigit(id[i]); }
      case _ =>
    }
  }

  lemma {:induction false} RenderOneLine(ps: seq<Piece>)
    requires AllSpelled(ps)
    ensures OneLine(Render(ps))
  {
    hide Spelling, Spelled;
    if ps != [] {
      RenderOneLine(ps[1..]);
      if ps[0].Tok? { SpellingOneLine(ps[0].token); }
    }
  }

  /** Two touching minus signs start a comment, and everything after them is lost. */
  lemma {:induction false} CommentCutsOff(ps: seq<Piece>)
    requires AllSpelled(ps) && Scannable(ps, false) && !Scannable(ps, true)
    ensures var r := Scan(Render(ps)); r.Some? ==> |r.value| < |Words(ps)|
  {
    hide AllSpelled, Spelling, First, Spelled;
    RestScannable(ps, false);
    var rest := Render(ps[1..]);
    if ps[0].Tok? && |ps| > 1 && Touch(ps[0], ps[1], true) {
      MinusMinus(ps);
    } else {
      if Scannable(ps[1..], true) { JoinFirst(ps); }
      CommentCutsOff(ps[1..]);
      if ps[0].Tok? {
        assert Spelled(ps[0].token) by { FirstSpelled(ps); }
        ClearAhead(ps[0].token, ps[1..]);
        ScanToken(ps[0].token, rest);
      } else {
        assert (" " + rest)[1..] == rest;
      }
    }
  }

  lemma JoinFirst(ps: seq<Piece>)
    requires ps != [] && Scannable(ps[1..], true) && !(|ps| > 1 && Touch(ps[0], ps[1], true))
    ensures Scannable(ps, true)
  {
    hide Touch;
    forall i | 0 <= i < |ps| - 1 ensures !Touch(ps[i], ps[i + 1], true) {
      if i > 0 { assert ps[i] == ps[1..][i - 1] && ps[i + 1] == ps[1..][i - 1 + 1]; }
    }
  }

  lemma MinusMinus(ps: seq<Piece>)
    requires |ps| > 1 && AllSpelled(ps) && Touch(ps[0], ps[1], true) && !Touch(ps[0], ps[1], false)
    ensures var r := Scan(Render(ps)); r.Some? ==> |r.value| < |Words(ps)|
  {
    hide AllSpelled, First, Digits;
    var tail := Render(ps[1..][1..]);
    assert ps[0] == Tok(Minus) && ps[1] == Tok(Minus);
    assert Render(ps) == "-" + Render(ps[1..]) && Render(ps[1..]) == "-" + tail;
    var s := Render(ps);
    assert s == "--" + tail && s[2..] == tail;
    AllSpelledTail(ps);
    RenderOneLine(ps[1..][1..]);
    CommentToTheEnd(tail);
    assert Words(ps) != [];
  }

  lemma AllSpelledTail(ps: seq<Piece>)
    requires |ps| > 1 && AllSpelled(ps)
    ensures AllSpelled(ps[1..][1..])
  {
  }

  /**
   * Scanning the printed characters gives back the printed tokens if and only if nowhere in the
   * expression a minus stands directly under a minus.
   */
  lemma PrintedTextScans(e: Expr)
    requires AllSpelled(Print(e))
    ensures Scan(Render(Print(e))) == Some(Words(Print(e))) <==> !DoubleMinus(e)
  {
    hide Scan, Render, Words, Print, DoubleMinus, Scannable, AllSpelled;
    PrintedTextTouches(e, true);
    PrintedTextTouches(e, false);
    if DoubleMinus(e) {
      CommentCutsOff(Print(e));
    } else {
      ScansBack(Print(e));
    }
  }

  /** Scanning and parsing the printed characters gives an expression with the same meaning. */
  lemma TextThenParse(e: Expr)
    requires hide *; AllSpelled(Print(e)) && !DoubleMinus(e)
    ensures var ts := Scan(Render(Print(e)));
            && ts.Some?
            && var r := ParseExpression(ts.value);
               r.Done? && r.rest == [] && LuaRoundTrip.Meaning(r.value) == LuaRoundTrip.Meaning(e)
  {
    hide Scan, Render, Words, Print, DoubleMinus, AllSpelled, LuaRoundTrip.Meaning, ParseExpression;
    PrintedTextScans(e);
    LuaRoundTrip.PrintThenParse(e);
  }

  /** The smallest failure: a doubly negated name is printed as a comment, which scans to nothing. */
  lemma DoubleNegationIsAComment(x: string)
    requires IsLuaIdentifier(x)
    ensures var e := Unary(Neg, Unary(Neg, Name(x)));
            Render(Print(e)) == "--" + x && Scan("--" + x) == Some([]) && Words(Print(e)) == [Minus, Minus, NameTok(x)]
  {
    var e := Unary(Neg, Unary(Neg, Name(x)));
    var ps := [Tok(Minus), Tok(Minus), Tok(NameTok(x))];
    assert PrintAt(Unary(Neg, Name(x)), UNARY_PRECEDENCE, false) == [Tok(Minus), Tok(NameTok(x))];
    assert Print(e) == ps;
    assert ps[1..] == [Tok(Minus), Tok(NameTok(x))] && ps[1..][1..] == [Tok(NameTok(x))] && ps[1..][1..][1..] == [];
    assert Render([]) == [] && Render([Tok(NameTok(x))]) == x;
    assert Words([]) == [] && Words(ps[1..][1..]) == [NameTok(x)] && Words(ps[1..]) == [Minus, NameTok(x)];
    var s := "--" + x;
    assert s[2..] == x;
    SpellingOneLine(NameTok(x));
    CommentToTheEnd(x);
  }

  /**
   * A negative integer is read back exactly down to -MAX_INT. The smallest 64-bit integer is one less:
   * its digits alone are too large for an integer, so Lua reads a float.
   */
  lemma NegativeIntegers(n: int)
    requires hide *; n > 0
    ensures Words(Print(Integer(-n))) == [Minus, IntTok(n)]
    ensures Scan(Render(Print(Integer(-n)))) == Some([Minus, if n <= MAX_INT then IntTok(n) else NumTok(Digits(n))])
  {
    hide Digits, Spelling, Scan, Spelled, Clear;
    var ps := [Tok(Minus), Tok(IntTok(n))];
    assert Print(Integer(-n)) == ps;
    assert ps[1..] == [Tok(IntTok(n))] && ps[1..][1..] == [];
    assert Words([]) == [] && Words(ps[1..]) == [IntTok(n)];
    var t := if n <= MAX_INT then IntTok(n) else NumTok(Digits(n));
    var ds := Digits(n);
    DigitsSpelled(n);
    ScanToken(t, []);
    assert ds + [] == ds;
    NothingScans();
    assert Spelling(t) + [] == ds && [t] + [] == [t];
    ScanToken(Minus, ds);
    assert [Minus] + [t] == [Minus, t];
    assert Render([]) == [] && Render(ps[1..]) == ds && Render(ps) == Spelling(Minus) + ds;
  }

  lemma NothingScans()
    ensures Scan([]) == Some([]) && Spelled(Minus)
  {
  }

  lemma DigitsSpelled(n: nat)
    ensures var t := if n <= MAX_INT then IntTok(n) else NumTok(Digits(n));
            Spelled(t) && Clear(t, []) && Clear(Minus, Digits(n)) && Spelling(t) == Digits(n) == Spelling(IntTok(n))
  {
    hide Digits, Numeral, Value;
    DigitsNumeral(Digits(n), "-");
    DigitsNumeral(Digits(n), "+");
    DigitsValue(n);
    assert IsDigit(Digits(n)[0]);
  }
}
