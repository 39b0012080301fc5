/** Allocating Lua names for definitions, locals, runtime aliases and temporaries. */
module BackendLayout {
  import opened Wrappers
  import opened BackendNames

  type ModuleId = nat

  /** One local name of one module. */
  datatype LocalKey = LocalKey(scope: ModuleId, name: Name)

  function UsedIn(used: map<ModuleId, set<string>>, scope: ModuleId): set<string> {
    if scope in used then used[scope] else {}
  }

  /** Underscores at the end make names longer and never repeat. */
  function Longer(base: string, k: nat): string {
    if k == 0 then base else Longer(base, k - 1) + "_"
  }

  lemma {:induction false} LongerLength(base: string, k: nat)
    ensures |Longer(base, k)| == |base| + k
  {
    if k > 0 {
      LongerLength(base, k - 1);
    }
  }

  lemma {:induction false} LongerIsSafe(base: string, more: string, k: nat)
    requires Safe(base) && forall i :: 0 <= i < |more| ==> IsLetter(more[i]) || IsDigit(more[i])
    ensures Safe(Longer(base + ("__" + more), k))
  {
    var tail := more + Underscores(k);
    LongerIs(base + ("__" + more), k);
    assert base + ("__" + more) + Underscores(k) == base + ("__" + tail);
    forall i | 0 <= i < |tail| ensures IsLetter(tail[i]) || IsDigit(tail[i]) {
      if i >= |more| {
        assert tail[i] == Underscores(k)[i - |more|];
      }
    }
    SuffixIsSafe(base, tail);
  }

  function Underscores(k: nat): (s: string)
    ensures |s| == k && forall i :: 0 <= i < k ==> s[i] == '_'
  {
    if k == 0 then "" else Underscores(k - 1) + "_"
  }

  lemma {:induction false} LongerIs(base: string, k: nat)
    ensures Longer(base, k) == base + Underscores(k)
  {
    if k > 0 {
      LongerIs(base, k - 1);
      assert base + Underscores(k - 1) + "_" == base + Underscores(k);
    }
  }

  /** The names that the search for an unused one could still meet. */
  ghost function AtLeast(names: set<string>, n: nat): set<string> {
    set s | s in names && |s| >= n
  }

  lemma FewerLeft(names: set<string>, s: string)
    requires s in names
    ensures |AtLeast(names, |s| + 1)| < |AtLeast(names, |s|)|
  {
    var x, y := AtLeast(names, |s| + 1), AtLeast(names, |s|);
    assert x <= y && s in y && s !in x;
    assert x <= y - {s};
    SubsetSize(x, y - {s});
  }

  lemma {:induction false} SubsetSize(a: set<string>, b: set<string>)
    requires a <= b
    ensures |a| <= |b|
    decreases a
  {
    if a != {} {
      var x :| x in a;
      SubsetSize(a - {x}, b - {x});
    }
  }

  lemma UsedAfter(used: map<ModuleId, set<string>>, scope: ModuleId, x: string)
    ensures var after := used[scope := UsedIn(used, scope) + {x}];
            forall m :: UsedIn(after, m) == if m == scope then UsedIn(used, m) + {x} else UsedIn(used, m)
  {
  }

  class BackendLayout {
    var used: map<ModuleId, set<string>>
    var localNames: map<LocalKey, string>
    var rootNames: set<string>
    var nextTemporary: nat
    /** The names given to definitions. */
    ghost var definitions: map<ModuleId, set<string>>

    /** No name of a module is both a definition's and a local's, and different locals have different names. */
    ghost predicate Valid()
      reads this
    {
      && (forall m, s :: s in UsedIn(definitions, m) ==> s in UsedIn(used, m))
      && (forall k :: k in localNames ==> localNames[k] in UsedIn(used, k.scope) && localNames[k] !in UsedIn(definitions, k.scope))
      && (forall k, l :: k in localNames && l in localNames && k.scope == l.scope && localNames[k] == localNames[l] ==> k == l)
      && (forall m, s :: s in UsedIn(used, m) ==> Safe(s))
    }

    constructor ()
      ensures Valid() && used == map[] && localNames == map[] && rootNames == {} && nextTemporary == 0 && definitions == map[]
    {
      used, localNames, rootNames, nextTemporary, definitions := map[], map[], {}, 0, map[];
    }

    /** When all places are given out, the names of the root module and two of the runtime are taken. */
    method CloseRoot(root: ModuleId)
      requires Valid()
      modifies this`rootNames
      ensures Valid() && rootNames == UsedIn(used, root) + {"rt", "tbcreate"}
    {
      rootNames := UsedIn(used, root) + {"rt", "tbcreate"};
    }

    /** The name of a definition: its encoding, or that with its number; None where the assertion fails. */
    method AllocateName(scope: ModuleId, sourceName: Name, identity: nat) returns (name: Option<string>)
      requires Valid()
      modifies this`used, this`definitions
      ensures Valid()
      ensures var candidate := UserIdentifier(sourceName);
              var unique := candidate + ("__" + Decimal(identity));
              var before := UsedIn(old(used), scope);
              && name == (if candidate !in before then Some(candidate) else if unique !in before then Some(unique) else None)
              && used == (if name.Some? then old(used)[scope := before + {name.value}] else old(used))
              && definitions == (if name.Some? then old(definitions)[scope := UsedIn(old(definitions), scope) + {name.value}] else old(definitions))
      ensures forall m, s :: s in UsedIn(old(definitions), m) ==> s in UsedIn(definitions, m)
      ensures name.Some? ==> name.value in UsedIn(definitions, scope) && name.value !in UsedIn(old(definitions), scope)
    {
      var candidate := UserIdentifier(sourceName);
      var names := UsedIn(used, scope);
      EncodingIsSafe(sourceName);
      DecimalSuffixIsSafe(candidate, identity);
      var chosen := candidate;
      if candidate in names {
        chosen := candidate + ("__" + Decimal(identity));
        if chosen in names {
          return None;
        }
      }
      UsedAfter(used, scope, chosen);
      UsedAfter(definitions, scope, chosen);
      used := used[scope := names + {chosen}];
      definitions := definitions[scope := UsedIn(definitions, scope) + {chosen}];
      return Some(chosen);
    }

    /** The place of a local: the same for the same name in the same module, and otherwise an unused one. */
    method LocalPlace(scope: ModuleId, name: Name) returns (place: string)
      requires Valid()
      modifies this`used, this`localNames
      ensures Valid() && LocalKey(scope, name) in localNames && place == localNames[LocalKey(scope, name)]
      ensures LocalKey(scope, name) in old(localNames) ==> localNames == old(localNames) && used == old(used)
      ensures LocalKey(scope, name) !in old(localNames) ==>
                && localNames == old(localNames)[LocalKey(scope, name) := place]
                && place !in UsedIn(old(used), scope) && used == old(used)[scope := UsedIn(old(used), scope) + {place}]
                && (UserIdentifier(name) !in UsedIn(old(used), scope) ==> place == UserIdentifier(name))
    {
      var key := LocalKey(scope, name);
      if key in localNames {
        return localNames[key];
      }
      var candidate := UserIdentifier(name);
      var names := UsedIn(used, scope);
      EncodingIsSafe(name);
      if candidate in names {
        candidate := Unused(candidate, "local", names);
      }
      UsedAfter(used, scope, candidate);
      used := used[scope := names + {candidate}];
      localNames := localNames[key := candidate];
      return candidate;
    }

    /** base__more, with as many underscores behind it as it takes. */
    static method Unused(base: string, more: string, names: set<string>) returns (name: string)
      requires Safe(base) && forall i :: 0 <= i < |more| ==> IsLetter(more[i]) || IsDigit(more[i])
      ensures name !in names && Safe(name)
      ensures exists k: nat :: name == Longer(base + ("__" + more), k) && forall j: nat :: j < k ==> Longer(base + ("__" + more), j) in names
    {
      var first := base + ("__" + more);
      name := first;
      ghost var k: nat := 0;
      assert name == Longer(first, 0);
      while name in names
        invariant name == Longer(first, k)
        invariant forall j: nat :: j < k ==> Longer(first, j) in names
        decreases |AtLeast(names, |name|)|
      {
        FewerLeft(names, name);
        name := name + "_";
        k := k + 1;
      }
      LongerIsSafe(base, more, k);
    }

    /** A name for a runtime module that no root name has. */
    method RuntimeModuleAlias(preferred: Name) returns (alias: string)
      requires Valid()
      modifies this`rootNames
      ensures Valid() && Safe(alias) && alias !in old(rootNames) && rootNames == old(rootNames) + {alias}
      ensures UserIdentifier(preferred) !in old(rootNames) ==> alias == UserIdentifier(preferred)
    {
      var base := UserIdentifier(preferred);
      EncodingIsSafe(preferred);
      if base !in rootNames {
        rootNames := rootNames + {base};
        return base;
      }
      alias := Unused(base, "runtime", rootNames);
      rootNames := rootNames + {alias};
    }

    /** The next temporary; it is no user name, no alias and no earlier temporary. */
    method FreshTemporary() returns (name: string)
      requires Valid()
      modifies this`nextTemporary
      ensures Valid() && nextTemporary == old(nextTemporary) + 1 && name == Temporary(nextTemporary)
      ensures !Safe(name) && forall m: nat :: m <= old(nextTemporary) ==> name != Temporary(m)
    {
      nextTemporary := nextTemporary + 1;
      forall m: nat | m < nextTemporary ensures Temporary(nextTemporary) != Temporary(m) {
        DifferentTemporaries(nextTemporary, m);
      }
      assert !Safe(Temporary(nextTemporary)) by { TemporaryIsUnsafe(nextTemporary); }
      return Temporary(nextTemporary);
    }
  }

  lemma DecimalSuffixIsSafe(base: string, identity: nat)
    requires Safe(base)
    ensures Safe(base + ("__" + Decimal(identity)))
  {
    SuffixIsSafe(base, Decimal(identity));
  }

  lemma DifferentTemporaries(m: nat, n: nat)
    requires m != n
    ensures Temporary(m) != Temporary(n)
  {
    if Temporary(m) == Temporary(n) {
      TemporariesAreDistinct(m, n);
    }
  }

  lemma TemporaryIsUnsafe(n: nat)
    ensures !Safe(Temporary(n))
  {
    assert Temporary(n)[..3] == "__t";
  }

  // ---- all definitions of a module, then all its locals ----

  datatype Definition = Definition(scope: ModuleId, name: Name)

  datatype Layout = Layout(definitions: seq<string>, locals: seq<string>, aliases: seq<string>)

  /** Definitions of one module have different names. */
  ghost predicate DefinitionsApart(definitions: seq<Definition>, names: seq<string>)
    requires |names| <= |definitions|
  {
    forall i, j :: 0 <= i < j < |names| && definitions[i].scope == definitions[j].scope ==> names[i] != names[j]
  }

  ghost predicate DefinitionsIn(definitions: seq<Definition>, names: seq<string>, given: map<ModuleId, set<string>>)
    requires |names| <= |definitions|
  {
    forall i :: 0 <= i < |names| ==> names[i] in UsedIn(given, definitions[i].scope)
  }

  /** Locals of one module share a name exactly when they have the same source name. */
  ghost predicate LocalsApart(locals: seq<LocalKey>, places: seq<string>)
    requires |places| == |locals|
  {
    forall i, j :: 0 <= i < |locals| && 0 <= j < |locals| && locals[i].scope == locals[j].scope ==>
      (places[i] == places[j] <==> locals[i].name == locals[j].name)
  }

  ghost predicate BothApart(definitions: seq<Definition>, names: seq<string>, locals: seq<LocalKey>, places: seq<string>)
    requires |names| == |definitions| && |places| == |locals|
  {
    forall i, j :: 0 <= i < |definitions| && 0 <= j < |locals| && definitions[i].scope == locals[j].scope ==> names[i] != places[j]
  }

  /** Definitions of one module have different source names. */
  ghost predicate OwnNames(definitions: seq<Definition>) {
    forall i, j :: 0 <= i < j < |definitions| && definitions[i].scope == definitions[j].scope ==> definitions[i].name != definitions[j].name
  }

  function Encodings(definitions: seq<Definition>): (r: seq<string>)
    ensures |r| == |definitions|
  {
    seq(|definitions|, i requires 0 <= i < |definitions| => UserIdentifier(definitions[i].name))
  }

  ghost predicate OnlyEncodings(definitions: seq<Definition>, n: nat, used: map<ModuleId, set<string>>)
    requires n <= |definitions|
  {
    forall m, s :: s in UsedIn(used, m) ==> exists k :: 0 <= k < n && definitions[k].scope == m && s == UserIdentifier(definitions[k].name)
  }

  lemma NextIsFree(definitions: seq<Definition>, i: nat, used: map<ModuleId, set<string>>)
    requires i < |definitions| && OwnNames(definitions) && OnlyEncodings(definitions, i, used)
    ensures UserIdentifier(definitions[i].name) !in UsedIn(used, definitions[i].scope)
  {
    hide UserIdentifier, UsedIn;
    var s := UserIdentifier(definitions[i].name);
    if s in UsedIn(used, definitions[i].scope) {
      var k :| 0 <= k < i && definitions[k].scope == definitions[i].scope && s == UserIdentifier(definitions[k].name);
      EncodingIsInjective(definitions[i].name, definitions[k].name);
    }
  }

  lemma StillOnly(definitions: seq<Definition>, i: nat, used: map<ModuleId, set<string>>)
    requires i < |definitions| && OnlyEncodings(definitions, i, used)
    ensures var scope, s := definitions[i].scope, UserIdentifier(definitions[i].name);
            OnlyEncodings(definitions, i + 1, used[scope := UsedIn(used, scope) + {s}])
  {
    hide UserIdentifier;
    var scope := definitions[i].scope;
    var after := used[scope := UsedIn(used, scope) + {UserIdentifier(definitions[i].name)}];
    forall m, s | s in UsedIn(after, m)
      ensures exists k :: 0 <= k < i + 1 && definitions[k].scope == m && s == UserIdentifier(definitions[k].name)
    {
      if !(m == scope && s == UserIdentifier(definitions[i].name)) {
        assert s in UsedIn(used, m);
      }
    }
  }

  /** The first definitions have their own encodings, and nothing else is used. */
  ghost predicate AllOwn(definitions: seq<Definition>, given: seq<string>, used: map<ModuleId, set<string>>) {
    |given| <= |definitions| && given == Encodings(definitions)[..|given|] && OnlyEncodings(definitions, |given|, used)
  }

  lemma NoneYet(definitions: seq<Definition>)
    ensures AllOwn(definitions, [], map[])
  {
  }

  lemma AllGiven(definitions: seq<Definition>, given: seq<string>, used: map<ModuleId, set<string>>)
    requires AllOwn(definitions, given, used) && |given| == |definitions|
    ensures given == Encodings(definitions)
  {
  }

  lemma OneMore(definitions: seq<Definition>, given: seq<string>, used: map<ModuleId, set<string>>)
    requires AllOwn(definitions, given, used) && |given| < |definitions| && OwnNames(definitions)
    ensures var d := definitions[|given|];
            var s := UserIdentifier(d.name);
            s !in UsedIn(used, d.scope) && AllOwn(definitions, given + [s], used[d.scope := UsedIn(used, d.scope) + {s}])
  {
    hide UserIdentifier, UsedIn, OnlyEncodings;
    NextIsFree(definitions, |given|, used);
    StillOnly(definitions, |given|, used);
  }

  method AssignDefinitions(layout: BackendLayout, definitions: seq<Definition>) returns (names: Option<seq<string>>)
    requires layout.Valid()
    modifies layout
    ensures layout.Valid() && layout.localNames == old(layout.localNames)
    ensures names.Some? ==>
              && |names.value| == |definitions| && DefinitionsApart(definitions, names.value)
              && DefinitionsIn(definitions, names.value, layout.definitions)
    ensures OwnNames(definitions) && old(layout.used) == map[] ==> names == Some(Encodings(definitions))
  {
    hide UsedIn, BackendLayout.Valid, AllOwn, OwnNames, UserIdentifier, Encodings;
    var given: seq<string> := [];
    ghost var own := OwnNames(definitions) && layout.used == map[];
    NoneYet(definitions);
    for i := 0 to |definitions|
      invariant layout.Valid() && |given| == i && layout.localNames == old(layout.localNames)
      invariant DefinitionsApart(definitions, given) && DefinitionsIn(definitions, given, layout.definitions)
      invariant own ==> AllOwn(definitions, given, layout.used)
    {
      if own {
        OneMore(definitions, given, layout.used);
      }
      var name := layout.AllocateName(definitions[i].scope, definitions[i].name, i);
      if name.None? {
        return None;
      }
      given := given + [name.value];
    }
    if own {
      AllGiven(definitions, given, layout.used);
    }
    return Some(given);
  }

  method AssignLocals(layout: BackendLayout, locals: seq<LocalKey>) returns (places: seq<string>)
    requires layout.Valid()
    modifies layout
    ensures layout.Valid() && layout.definitions == old(layout.definitions) && |places| == |locals|
    ensures forall j :: 0 <= j < |locals| ==> locals[j] in layout.localNames && places[j] == layout.localNames[locals[j]]
  {
    hide UsedIn, BackendLayout.Valid;
    places := [];
    for j := 0 to |locals|
      invariant layout.Valid() && layout.definitions == old(layout.definitions) && |places| == j
      invariant forall k :: 0 <= k < j ==> locals[k] in layout.localNames && places[k] == layout.localNames[locals[k]]
    {
      var place := layout.LocalPlace(locals[j].scope, locals[j].name);
      assert locals[j] == LocalKey(locals[j].scope, locals[j].name);
      places := places + [place];
    }
  }

  /** Aliases differ from each other and from everything named in the root module. */
  ghost predicate AliasesApart(aliases: seq<string>, root: ModuleId, definitions: seq<Definition>, names: seq<string>, locals: seq<LocalKey>, places: seq<string>)
    requires |names| == |definitions| && |places| == |locals|
  {
    && (forall i, j :: 0 <= i < j < |aliases| ==> aliases[i] != aliases[j])
    && (forall i, j :: 0 <= i < |aliases| && 0 <= j < |definitions| && definitions[j].scope == root ==> aliases[i] != names[j])
    && (forall i, j :: 0 <= i < |aliases| && 0 <= j < |locals| && locals[j].scope == root ==> aliases[i] != places[j])
  }

  method AssignAliases(layout: BackendLayout, root: ModuleId, preferred: seq<Name>) returns (aliases: seq<string>)
    requires layout.Valid()
    modifies layout`rootNames
    ensures layout.Valid() && |aliases| == |preferred|
    ensures forall i, j :: 0 <= i < j < |aliases| ==> aliases[i] != aliases[j]
    ensures forall i :: 0 <= i < |aliases| ==> Safe(aliases[i]) && aliases[i] !in UsedIn(layout.used, root)
  {
    layout.CloseRoot(root);
    aliases := [];
    for i := 0 to |preferred|
      invariant layout.Valid() && |aliases| == i && UsedIn(layout.used, root) <= layout.rootNames
      invariant forall k :: 0 <= k < i ==> aliases[k] in layout.rootNames && Safe(aliases[k]) && aliases[k] !in UsedIn(layout.used, root)
      invariant forall k, l :: 0 <= k < l < i ==> aliases[k] != aliases[l]
    {
      var alias := layout.RuntimeModuleAlias(preferred[i]);
      aliases := aliases + [alias];
    }
  }

  /** Lua names of definitions, locals and runtime aliases; None when a definition's numbered name is taken too. */
  method Assign(definitions: seq<Definition>, locals: seq<LocalKey>, root: ModuleId, preferred: seq<Name>) returns (r: Option<Layout>)
    ensures r.Some? ==>
              && |r.value.definitions| == |definitions| && |r.value.locals| == |locals| && |r.value.aliases| == |preferred|
              && DefinitionsApart(definitions, r.value.definitions)
              && LocalsApart(locals, r.value.locals)
              && BothApart(definitions, r.value.definitions, locals, r.value.locals)
              && AliasesApart(r.value.aliases, root, definitions, r.value.definitions, locals, r.value.locals)
              && (forall i :: 0 <= i < |definitions| ==> Safe(r.value.definitions[i]))
              && (forall j :: 0 <= j < |locals| ==> Safe(r.value.locals[j]))
              && (forall j :: 0 <= j < |preferred| ==> Safe(r.value.aliases[j]))
    ensures OwnNames(definitions) ==> r.Some? && r.value.definitions == Encodings(definitions)
  {
    var layout := new BackendLayout();
    var names := AssignDefinitions(layout, definitions);
    if names.None? {
      return None;
    }
    var places := AssignLocals(layout, locals);
    var aliases := AssignAliases(layout, root, preferred);
    return Some(Layout(names.value, places, aliases));
  }

  /**
   * Places of another module start with a root name: the module's own, or a runtime alias. A local of that
   * module whose encoding is unused there hides a root name exactly when it has the same source name, since
   * only names of its own module are avoided.
   */
  method LocalAgainstRoot(layout: BackendLayout, scope: ModuleId, local: Name, root: Name) returns (place: string)
    requires layout.Valid() && LocalKey(scope, local) !in layout.localNames && UserIdentifier(local) !in UsedIn(layout.used, scope)
    modifies layout
    ensures layout.Valid() && layout.localNames == old(layout.localNames)[LocalKey(scope, local) := place]
    ensures place == UserIdentifier(root) <==> local == root
  {
    place := layout.LocalPlace(scope, local);
    if place == UserIdentifier(root) {
      EncodingIsInjective(local, root);
    }
  }

  /** The smallest layout: a module m below the root, and a local m in it, through which `m.a` can no longer be reached. */
  method ModuleIsHidden(m: Name) returns (root: Option<string>, place: string)
    ensures root == Some(place) && place == UserIdentifier(m)
  {
    var layout := new BackendLayout();
    root := layout.AllocateName(0, m, 1);
    place := LocalAgainstRoot(layout, 1, m, m);
  }
}
