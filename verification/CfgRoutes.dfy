/** What the filter leaves, said by the routes from the outside to every item, member and field. */
module CfgRoutes {
  import opened Wrappers
  import A = CfgAttributes
  import opened CfgFilter

  /** A name on a route, with its attributes. */
  datatype Head = Head(name: string, attributes: seq<A.Attribute>)

  type Route = seq<Head>

  function Under(h: Head, routes: seq<Route>): seq<Route> {
    if routes == [] then [] else [[h] + routes[0]] + Under(h, routes[1..])
  }

  /** The routes to all members and their fields, in order. */
  function MemberRoutes(members: seq<Member>): seq<Route>
    decreases members
  {
    if members == [] then [] else OneMember(members[0]) + MemberRoutes(members[1..])
  }

  function OneMember(m: Member): seq<Route>
    decreases m
  {
    [[Head(m.name, m.attributes)]] + Under(Head(m.name, m.attributes), MemberRoutes(m.fields))
  }

  function ContentRoutes(c: Content): seq<Route>
    decreases c
  {
    match c
    case Members(members) => MemberRoutes(members)
    case Module(scope) => ItemRoutes(scope.items)
    case Plain => []
  }

  /** The routes to all items and what is in them, in order. */
  function ItemRoutes(items: seq<Item>): seq<Route>
    decreases items
  {
    if items == [] then [] else OneItem(items[0]) + ItemRoutes(items[1..])
  }

  function OneItem(item: Item): seq<Route>
    decreases item
  {
    [[Head(item.name, item.attributes)]] + Under(Head(item.name, item.attributes), ContentRoutes(item.content))
  }

  /** Everything on the route is active. */
  ghost predicate Stays(r: Route, o: A.CfgOptions) {
    forall h <- r :: Active(h.attributes, o)
  }

  function Left(h: Head, o: A.CfgOptions): Head {
    var r := ExpandLimited(h.attributes, o);
    if r.Ok? then Head(h.name, r.value.attributes) else h
  }

  /** The route with the attributes that are left. */
  function Stripped(r: Route, o: A.CfgOptions): Route {
    hide *;
    seq(|r|, i requires 0 <= i < |r| => Left(r[i], o))
  }

  /** The routes on which everything is active, stripped, in order. */
  ghost function Survivors(routes: seq<Route>, o: A.CfgOptions): seq<Route> {
    hide *;
    if routes == [] then [] else (if Stays(routes[0], o) then [Stripped(routes[0], o)] else []) + Survivors(routes[1..], o)
  }

  lemma {:induction false} SurvivorsBoth(a: seq<Route>, b: seq<Route>, o: A.CfgOptions)
    ensures Survivors(a + b, o) == Survivors(a, o) + Survivors(b, o)
    decreases |a|
  {
    hide Stays, Stripped;
    if a == [] {
      assert a + b == b;
    } else {
      assert (a + b)[0] == a[0] && (a + b)[1..] == a[1..] + b;
      SurvivorsBoth(a[1..], b, o);
      var first := if Stays(a[0], o) then [Stripped(a[0], o)] else [];
      assert Survivors(a + b, o) == first + (Survivors(a[1..], o) + Survivors(b, o));
    }
  }

  /** Under an active name the survivors stay under it, and under an inactive one nothing survives. */
  lemma {:induction false} SurvivorsUnder(h: Head, routes: seq<Route>, o: A.CfgOptions)
    ensures Survivors(Under(h, routes), o) == if Active(h.attributes, o) then Under(Left(h, o), Survivors(routes, o)) else []
    decreases |routes|
  {
    hide Active, Left, Stays, Stripped;
    if routes != [] {
      SurvivorsUnder(h, routes[1..], o);
      var all := Under(h, routes);
      assert all[0] == [h] + routes[0] && all[1..] == Under(h, routes[1..]);
      StaysUnder(h, routes[0], o);
      var rest := Survivors(routes[1..], o);
      if Stays(routes[0], o) {
        assert ([Stripped(routes[0], o)] + rest)[1..] == rest;
      } else {
        assert [] + rest == rest;
      }
      assert Survivors(all, o) == (if Stays(all[0], o) then [Stripped(all[0], o)] else []) + Survivors(all[1..], o);
    }
  }

  lemma StaysUnder(h: Head, r: Route, o: A.CfgOptions)
    ensures Stays([h] + r, o) <==> Active(h.attributes, o) && Stays(r, o)
    ensures Stripped([h] + r, o) == [Left(h, o)] + Stripped(r, o)
  {
    hide Active, Left;
    assert Stays([h] + r, o) ==> h in [h] + r && forall x <- r :: x in [h] + r;
  }

  lemma OneHead(h: Head, o: A.CfgOptions)
    ensures Survivors([[h]], o) == if Active(h.attributes, o) then [[Left(h, o)]] else []
  {
    hide Active, Left;
    assert [[h]][1..] == [];
    StaysUnder(h, [], o);
    assert [h] + [] == [h] && [Left(h, o)] + Stripped([], o) == [Left(h, o)];
    assert Survivors([[h]][1..], o) == [];
  }

  lemma HeadAndUnder(h: Head, routes: seq<Route>, o: A.CfgOptions)
    ensures Survivors([[h]] + Under(h, routes), o)
         == if Active(h.attributes, o) then [[Left(h, o)]] + Under(Left(h, o), Survivors(routes, o)) else []
  {
    hide Active, Left;
    SurvivorsBoth([[h]], Under(h, routes), o);
    OneHead(h, o);
    SurvivorsUnder(h, routes, o);
  }

  lemma {:induction false} MemberRoutesBoth(a: seq<Member>, b: seq<Member>)
    ensures MemberRoutes(a + b) == MemberRoutes(a) + MemberRoutes(b)
    decreases |a|
  {
    hide OneMember;
    if a == [] {
      assert a + b == b;
    } else {
      assert (a + b)[0] == a[0] && (a + b)[1..] == a[1..] + b;
      MemberRoutesBoth(a[1..], b);
    }
  }

  lemma {:induction false} ItemRoutesBoth(a: seq<Item>, b: seq<Item>)
    ensures ItemRoutes(a + b) == ItemRoutes(a) + ItemRoutes(b)
    decreases |a|
  {
    hide OneItem;
    if a == [] {
      assert a + b == b;
    } else {
      assert (a + b)[0] == a[0] && (a + b)[1..] == a[1..] + b;
      ItemRoutesBoth(a[1..], b);
    }
  }

  /** Filtering members leaves exactly the members and fields that are active with everything around them. */
  lemma {:induction false} MembersSurvive(members: seq<Member>, o: A.CfgOptions)
    requires KeptMembers(members, o).Ok?
    ensures MemberRoutes(KeptMembers(members, o).value) == Survivors(MemberRoutes(members), o)
    decreases members
  {
    hide Active, ExpandLimited, OneMember, KeptMember;
    if members != [] {
      var first, rest := KeptMember(members[0], o), KeptMembers(members[1..], o);
      OneSurvives(members[0], o);
      MembersSurvive(members[1..], o);
      MemberRoutesBoth(first.value, rest.value);
      SurvivorsBoth(OneMember(members[0]), MemberRoutes(members[1..]), o);
    }
  }

  lemma {:induction false} OneSurvives(m: Member, o: A.CfgOptions)
    requires KeptMember(m, o).Ok?
    ensures MemberRoutes(KeptMember(m, o).value) == Survivors(OneMember(m), o)
    decreases m
  {
    hide Survivors, KeptMembers, A.Expand, A.Limited;
    var h := Head(m.name, m.attributes);
    HeadAndUnder(h, MemberRoutes(m.fields), o);
    if Active(m.attributes, o) {
      MembersSurvive(m.fields, o);
      var kept := KeptMember(m, o).value[0];
      assert [kept][1..] == [] && MemberRoutes([kept]) == OneMember(kept) + [];
    }
  }

  /** Filtering items leaves exactly the items, members and fields that are active with everything around them. */
  lemma {:induction false} ItemsSurvive(items: seq<Item>, o: A.CfgOptions)
    requires KeptItems(items, o).Ok?
    ensures ItemRoutes(KeptItems(items, o).value) == Survivors(ItemRoutes(items), o)
    decreases items
  {
    hide Active, ExpandLimited, OneItem, KeptItem;
    if items != [] {
      var first, rest := KeptItem(items[0], o), KeptItems(items[1..], o);
      OneItemSurvives(items[0], o);
      ItemsSurvive(items[1..], o);
      ItemRoutesBoth(first.value, rest.value);
      SurvivorsBoth(OneItem(items[0]), ItemRoutes(items[1..]), o);
    }
  }

  lemma {:induction false} OneItemSurvives(item: Item, o: A.CfgOptions)
    requires KeptItem(item, o).Ok?
    ensures ItemRoutes(KeptItem(item, o).value) == Survivors(OneItem(item), o)
    decreases item
  {
    hide Survivors, KeptContent, A.Expand, A.Limited;
    var h := Head(item.name, item.attributes);
    HeadAndUnder(h, ContentRoutes(item.content), o);
    if Active(item.attributes, o) {
      ContentSurvives(item.content, o);
      var kept := KeptItem(item, o).value[0];
      assert [kept][1..] == [] && ItemRoutes([kept]) == OneItem(kept) + [];
    }
  }

  lemma {:induction false} ContentSurvives(c: Content, o: A.CfgOptions)
    requires KeptContent(c, o).Ok?
    ensures ContentRoutes(KeptContent(c, o).value) == Survivors(ContentRoutes(c), o)
    decreases c
  {
    hide KeptMembers, KeptItems, MemberRoutes, ItemRoutes;
    match c {
      case Members(members) => MembersSurvive(members, o);
      case Module(scope) => ItemsSurvive(scope.items, o);
      case Plain =>
    }
  }
}
