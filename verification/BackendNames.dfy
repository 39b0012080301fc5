/** Lua names for source names: an injective encoding, and names handed out so that none is used twice. */
module BackendNames {
  import opened Wrappers

  newtype byte = n: int | 0 <= n < 256

  /** A source identifier, as the bytes of its UTF-8 text. */
  type Name = seq<byte>

  const LUA_KEYWORDS: set<string> := {
    "and", "break", "do", "else", "elseif", "end", "false", "for", "function", "goto", "if", "in",
    "local", "nil", "not", "or", "repeat", "return", "then", "true", "until", "while"}

  predicate StartsWith(s: string, prefix: string) {
    prefix <= s
  }

  predicate IsLetter(c: char) {
    'a' <= c <= 'z' || 'A' <= c <= 'Z' || c == '_'
  }

  predicate IsDigit(c: char) {
    '0' <= c <= '9'
  }

  function Text(name: Name): (s: string)
    ensures |s| == |name| && forall i :: 0 <= i < |name| ==> s[i] == name[i] as char
  {
    if name == [] then "" else [name[0] as char] + Text(name[1..])
  }

  predicate IsLuaWord(s: string) {
    s != "" && IsLetter(s[0]) && forall i :: 0 <= i < |s| ==> IsLetter(s[i]) || IsDigit(s[i])
  }

  predicate IsPlainIdentifier(name: Name) {
    var s := Text(name);
    IsLuaWord(s) && s !in LUA_KEYWORDS && !StartsWith(s, "__rua_") && !StartsWith(s, "__t") && s != "rt" && s != "tbcreate"
  }

  function HexDigit(n: int): (c: char)
    requires 0 <= n < 16
    ensures IsDigit(c) || 'a' <= c <= 'f'
  {
    if n < 10 then '0' + n as char else 'a' + (n - 10) as char
  }

  function Hex(name: Name): (s: string)
    ensures |s| == 2 * |name| && forall i :: 0 <= i < |s| ==> IsDigit(s[i]) || 'a' <= s[i] <= 'f'
  {
    if name == [] then "" else [HexDigit(name[0] as int / 16), HexDigit(name[0] as int % 16)] + Hex(name[1..])
  }

  const USER_PREFIX := "__rua_user_"

  function UserIdentifier(name: Name): string {
    if IsPlainIdentifier(name) then Text(name) else USER_PREFIX + Hex(name)
  }

  // ---- the encoding ----

  lemma {:induction false} HexIsInjective(a: Name, b: Name)
    requires Hex(a) == Hex(b)
    ensures a == b
  {
    if a != [] && b != [] {
      assert Hex(a)[0] == Hex(b)[0] && Hex(a)[1] == Hex(b)[1];
      assert Hex(a)[2..] == Hex(a[1..]) && Hex(b)[2..] == Hex(b[1..]);
      HexDigits(a[0] as int / 16, b[0] as int / 16);
      HexDigits(a[0] as int % 16, b[0] as int % 16);
      HexIsInjective(a[1..], b[1..]);
      assert a == [a[0]] + a[1..] && b == [b[0]] + b[1..];
    }
  }

  lemma HexDigits(m: int, n: int)
    requires 0 <= m < 16 && 0 <= n < 16 && HexDigit(m) == HexDigit(n)
    ensures m == n
  {
  }

  lemma PrefixedStart(s: string)
    ensures StartsWith(USER_PREFIX + s, "__rua_") && !StartsWith(USER_PREFIX + s, "__t") && |USER_PREFIX + s| >= 11
  {
    var t := USER_PREFIX + s;
    assert t[0] == '_' && t[1] == '_' && t[2] == 'r' && t[3] == 'u' && t[4] == 'a' && t[5] == '_';
    assert t[..6] == "__rua_";
    assert "__t"[2] == 't';
  }

  /** Different source names have different Lua names. */
  lemma EncodingIsInjective(a: Name, b: Name)
    requires UserIdentifier(a) == UserIdentifier(b)
    ensures a == b
  {
    PrefixedStart(Hex(a));
    PrefixedStart(Hex(b));
    if IsPlainIdentifier(a) && IsPlainIdentifier(b) {
      forall i | 0 <= i < |a| ensures a[i] == b[i] {
        assert Text(a)[i] == Text(b)[i];
      }
    } else if !IsPlainIdentifier(a) && !IsPlainIdentifier(b) {
      assert (USER_PREFIX + Hex(a))[|USER_PREFIX|..] == Hex(a) && (USER_PREFIX + Hex(b))[|USER_PREFIX|..] == Hex(b);
      HexIsInjective(a, b);
    }
  }

  /** A name that Lua takes as an identifier, and that is none of the names the compiler makes up. */
  predicate Safe(s: string) {
    IsLuaWord(s) && s !in LUA_KEYWORDS && !StartsWith(s, "__t") && s != "rt" && s != "tbcreate"
  }

  lemma KeywordsAreShort(s: string)
    requires s in LUA_KEYWORDS
    ensures |s| < 9
  {
  }

  lemma EncodingIsSafe(name: Name)
    ensures Safe(UserIdentifier(name))
  {
    if !IsPlainIdentifier(name) {
      var s := UserIdentifier(name);
      PrefixedStart(Hex(name));
      if s in LUA_KEYWORDS {
        KeywordsAreShort(s);
      }
      forall i | 0 <= i < |s| ensures IsLetter(s[i]) || IsDigit(s[i]) {
        if i >= 11 {
          assert s[i] == Hex(name)[i - 11];
        }
      }
    }
  }

  /** A name keeps its spelling exactly if it is a Lua name that is free for users and does not look like a generated one. */
  lemma SpellingIsKept(name: Name)
    ensures UserIdentifier(name) == Text(name) <==> Safe(Text(name)) && !StartsWith(Text(name), "__rua_")
  {
    assert !IsPlainIdentifier(name) ==> |UserIdentifier(name)| == 11 + 2 * |name|;
  }

  // ---- generated names ----

  function Decimal(n: nat): (s: string)
    ensures s != "" && forall i :: 0 <= i < |s| ==> IsDigit(s[i])
  {
    if n < 10 then ['0' + n as char] else Decimal(n / 10) + ['0' + (n % 10) as char]
  }

  lemma {:induction false} DecimalIsInjective(m: nat, n: nat)
    requires Decimal(m) == Decimal(n)
    ensures m == n
  {
    assert Decimal(m)[|Decimal(m)| - 1] == Decimal(n)[|Decimal(n)| - 1];
    if m >= 10 && n >= 10 {
      var s, t := Decimal(m / 10), Decimal(n / 10);
      assert Decimal(m)[..|Decimal(m)| - 1] == s && Decimal(n)[..|Decimal(n)| - 1] == t;
      DecimalIsInjective(m / 10, n / 10);
    }
  }

  function Temporary(n: nat): string {
    "__t" + Decimal(n)
  }

  lemma TemporariesAreDistinct(m: nat, n: nat)
    requires Temporary(m) == Temporary(n)
    ensures m == n
  {
    assert Temporary(m)[3..] == Decimal(m) && Temporary(n)[3..] == Decimal(n);
    DecimalIsInjective(m, n);
  }

  /** A safe name with `__` and more behind it is still safe. */
  lemma SuffixIsSafe(base: string, more: string)
    requires Safe(base) && forall i :: 0 <= i < |more| ==> IsLetter(more[i]) || IsDigit(more[i])
    ensures Safe(base + ("__" + more))
  {
    var s := base + ("__" + more);
    forall i | 0 <= i < |s| ensures IsLetter(s[i]) || IsDigit(s[i]) {
      if i >= |base| + 2 {
        assert s[i] == more[i - |base| - 2];
      }
    }
    assert s[|base|] == '_' && s[|base| + 1] == '_';
    HasUnderscores(s, |base|);
    assert !StartsWith(s, "__t") by {
      assert "__t"[2] == 't';
      if |base| >= 3 {
        assert base[..3] == s[..3];
      }
    }
  }

  /** Reserved words have no two underscores in a row. */
  lemma HasUnderscores(s: string, i: nat)
    requires i + 1 < |s| && s[i] == '_' && s[i + 1] == '_'
    ensures s !in LUA_KEYWORDS && s != "rt" && s != "tbcreate"
  {
    NoUnderscores(s);
  }

  lemma NoUnderscores(s: string)
    ensures s in LUA_KEYWORDS || s == "rt" || s == "tbcreate" ==> forall i :: 0 <= i < |s| ==> s[i] != '_'
  {
  }

  lemma SafeIsNoTemporary(s: string, n: nat)
    requires Safe(s)
    ensures s != Temporary(n)
  {
    assert Temporary(n)[..3] == "__t";
  }
}
