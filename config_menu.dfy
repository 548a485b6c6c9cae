/** The configuration page's side menu (src/pages/config/config.tsx, `cleanMenuList`): the
    route tree pruned to the routes that carry menu metadata. */
module ConfigMenu {

  import opened Wrappers
  import opened Lists

  /** A route's `meta`: the menu title and icon. */
  datatype Meta = Meta(title: string, icon: string)

  /** A route of the tree. */
  datatype Route = Route(path: string, meta: Option<Meta>, children: Children)

  /** `children`: `undefined`, or an array, which is truthy even when empty. */
  datatype Children = Undefined | Routes(routes: seq<Route>)

  /** `item.meta` is truthy. */
  predicate HasMeta(item: Route)
  {
    item.meta.Some?
  }

  /** `cleanMenuList(menu)`: `filter` on `meta`, then each kept route copied with its children
      cleaned in turn (or `undefined` when it had none); written route by route. */
  function CleanMenuList(menu: seq<Route>): (r: seq<Route>)
    ensures |r| == |Filter(menu, HasMeta)| <= |menu|
  {
    if menu == [] then []
    else (if HasMeta(menu[0]) then [CleanItem(menu[0])] else []) + CleanMenuList(menu[1..])
  }

  /** Route `i` of `r` is a copy of route `i` of `kept`: same path and meta, children exactly
      when it had them. */
  predicate Copies(r: seq<Route>, kept: seq<Route>)
  {
    |r| == |kept| && forall i :: 0 <= i < |r| ==>
      r[i].path == kept[i].path && r[i].meta == kept[i].meta
      && (r[i].children.Routes? <==> kept[i].children.Routes?)
  }

  lemma CopiesCons(a: Route, r: seq<Route>, b: Route, kept: seq<Route>)
    requires Copies(r, kept) && a.path == b.path && a.meta == b.meta
    requires a.children.Routes? <==> b.children.Routes?
    ensures Copies([a] + r, [b] + kept)
  {
    var r', kept' := [a] + r, [b] + kept;
    forall i | 1 <= i < |r'| ensures r'[i] == r[i - 1] && kept'[i] == kept[i - 1] {
    }
  }

  /** The cleaned list holds exactly the routes with `meta`, in order, each copied with its path
      and meta and with children exactly when it had them. */
  lemma {:induction false} CleanMenuListKeeps(menu: seq<Route>)
    ensures Copies(CleanMenuList(menu), Filter(menu, HasMeta))
  {
    if menu != [] {
      CleanMenuListKeeps(menu[1..]);
      var rest := CleanMenuList(menu[1..]);
      var tail := Filter(menu[1..], HasMeta);
      if HasMeta(menu[0]) {
        CopiesCons(CleanItem(menu[0]), rest, menu[0], tail);
        assert CleanMenuList(menu) == [CleanItem(menu[0])] + rest;
        assert Filter(menu, HasMeta) == [menu[0]] + tail;
      } else {
        assert CleanMenuList(menu) == rest;
        assert Filter(menu, HasMeta) == tail;
      }
    }
  }

  /** `{...item, children: item.children ? cleanMenuList(item.children) : undefined}`. */
  function CleanItem(item: Route): (r: Route)
    ensures r.path == item.path && r.meta == item.meta
    ensures r.children.Routes? <==> item.children.Routes?
  {
    match item.children
    case Undefined => item
    case Routes(children) => item.(children := Routes(CleanMenuList(children)))
  }

  /** The number of routes in a forest, at every level. */
  function Count(menu: seq<Route>): nat
  {
    if menu == [] then 0 else CountRoute(menu[0]) + Count(menu[1..])
  }

  /** A route and everything below it. */
  function CountRoute(item: Route): nat
  {
    1 + match item.children case Undefined => 0 case Routes(children) => Count(children)
  }

  /** Cleaning never adds a route, at any level. */
  lemma {:induction false} CleanMenuListShrinks(menu: seq<Route>)
    ensures Count(CleanMenuList(menu)) <= Count(menu)
  {
    if menu != [] {
      CleanMenuListShrinks(menu[1..]);
      CleanItemShrinks(menu[0]);
      if HasMeta(menu[0]) {
        var s := [CleanItem(menu[0])] + CleanMenuList(menu[1..]);
        assert s[0] == CleanItem(menu[0]) && s[1..] == CleanMenuList(menu[1..]);
      } else {
        assert CleanMenuList(menu) == CleanMenuList(menu[1..]);
      }
    }
  }

  lemma {:induction false} CleanItemShrinks(item: Route)
    ensures CountRoute(CleanItem(item)) <= CountRoute(item)
  {
    if item.children.Routes? {
      CleanMenuListShrinks(item.children.routes);
    }
  }

  /** Cleaning a cleaned tree changes nothing. */
  lemma {:induction false} CleanMenuListIdempotent(menu: seq<Route>)
    ensures CleanMenuList(CleanMenuList(menu)) == CleanMenuList(menu)
  {
    if menu != [] {
      var rest := CleanMenuList(menu[1..]);
      CleanMenuListIdempotent(menu[1..]);
      if HasMeta(menu[0]) {
        var head := CleanItem(menu[0]);
        var r := [head] + rest;
        assert r[0] == head && r[1..] == rest && HasMeta(head);
        assert CleanMenuList(r) == [CleanItem(head)] + CleanMenuList(rest);
        CleanItemIdempotent(menu[0]);
      } else {
        assert CleanMenuList(menu) == rest;
      }
    }
  }

  lemma {:induction false} CleanItemIdempotent(item: Route)
    ensures CleanItem(CleanItem(item)) == CleanItem(item)
  {
    if item.children.Routes? {
      CleanMenuListIdempotent(item.children.routes);
    }
  }

  /** Every route of the forest, at every level, carries `meta`. */
  predicate AllHaveMeta(menu: seq<Route>)
  {
    menu != [] ==>
      HasMeta(menu[0])
      && (menu[0].children.Routes? ==> AllHaveMeta(menu[0].children.routes))
      && AllHaveMeta(menu[1..])
  }

  /** The cleaned menu has `meta` on every route it shows, at every level. */
  lemma {:induction false} CleanMenuListAllHaveMeta(menu: seq<Route>)
    ensures AllHaveMeta(CleanMenuList(menu))
  {
    if menu != [] {
      var rest := CleanMenuList(menu[1..]);
      CleanMenuListAllHaveMeta(menu[1..]);
      if HasMeta(menu[0]) {
        var head := CleanItem(menu[0]);
        var r := [head] + rest;
        assert r[0] == head && r[1..] == rest;
        if menu[0].children.Routes? {
          CleanMenuListAllHaveMeta(menu[0].children.routes);
        }
      } else {
        assert CleanMenuList(menu) == rest;
      }
    }
  }
}
