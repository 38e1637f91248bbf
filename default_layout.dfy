/**
 * The application layout: the routes a user may open and the side menu they
 * see, both filtered by the resources of the user's permissions.
 */
module DefaultLayout {
  import opened Wrappers
  import opened Strings
  import opened Seqs
  import opened Entities
  import opened AuthContext

  /** A registered route; the lazily loaded component is not modelled. */
  datatype AppRoute = AppRoute(path: string, exact: bool, name: string)

  /** A menu entry; an entry with `children` is a parent menu. Icons are not modelled. */
  datatype NavItem = NavItem(name: string, url: string, children: Option<seq<NavItem>>)

  const Dashboard: string := "/dashboard"

  /** The application's route table. */
  const AppRoutes: seq<AppRoute> := [
    AppRoute("/", true, "Home"),
    AppRoute("/dashboard", true, "Dashboard"),
    AppRoute("/groups", true, "Group Search"),
    AppRoute("/groups/:id", true, "Group"),
    AppRoute("/users", true, "User Search"),
    AppRoute("/users/:id", true, "User")
  ]

  /** The application's side menu. */
  const AppNavigation: seq<NavItem> := [
    NavItem("Dashboard", "/dashboard", None),
    NavItem("Security", "", Some([NavItem("Users", "/users", None), NavItem("Group Permissions", "/groups", None)]))
  ]

  predicate PathsDistinct(routes: seq<AppRoute>) {
    forall i, j :: 0 <= i < j < |routes| ==> routes[i].path != routes[j].path
  }

  /** `registredAppRoutes.get(path)`. */
  function FindRoute(routes: seq<AppRoute>, path: string): (r: Option<AppRoute>)
    ensures r.Some? ==> r.value in routes && r.value.path == path
    ensures r.None? <==> forall i :: 0 <= i < |routes| ==> routes[i].path != path
  {
    if |routes| == 0 then None
    else if routes[0].path == path then Some(routes[0])
    else
      var rest := FindRoute(routes[1..], path);
      assert forall i :: 1 <= i < |routes| ==> routes[1..][i - 1] == routes[i];
      rest
  }

  /** The route table has one route per path, the dashboard among them. */
  lemma AppRoutesWellFormed()
    ensures PathsDistinct(AppRoutes)
    ensures FindRoute(AppRoutes, Dashboard) == Some(AppRoutes[1])
  {
    assert AppRoutes[0].path == "/";
    assert AppRoutes[1].path == Dashboard;
  }

  // ---------------------------------------------------------------------------
  // Routes
  // ---------------------------------------------------------------------------

  /** Some permission before the `k`-th already covers the path (with a plain string prefix). */
  predicate MatchedBefore(permissions: seq<ResourcePermission>, k: nat, path: string)
    requires k <= |permissions|
  {
    exists i :: 0 <= i < k && StartsWith(path, permissions[i].resource)
  }

  /** The routes permission `k` grants that neither the dashboard nor an earlier permission granted already. */
  predicate NewFor(permissions: seq<ResourcePermission>, k: nat, route: AppRoute)
    requires k < |permissions|
  {
    route.path != Dashboard && StartsWith(route.path, permissions[k].resource) && !MatchedBefore(permissions, k, route.path)
  }

  function Grants(permissions: seq<ResourcePermission>, k: nat): AppRoute -> bool
    requires k < |permissions|
  {
    r => NewFor(permissions, k, r)
  }

  /** The routes the first `k` permissions contribute: permission by permission, each in registration order. */
  function Granted(routes: seq<AppRoute>, permissions: seq<ResourcePermission>, k: nat): seq<AppRoute>
    requires k <= |permissions|
  {
    if k == 0 then []
    else Granted(routes, permissions, k - 1) + Filter(routes, Grants(permissions, k - 1))
  }

  lemma GrantedStep(routes: seq<AppRoute>, permissions: seq<ResourcePermission>, k: nat)
    requires k < |permissions|
    ensures Granted(routes, permissions, k + 1) == Granted(routes, permissions, k) + Filter(routes, Grants(permissions, k))
  {
  }

  /** The routes to be loaded: the dashboard first, then what the permissions grant. */
  function AllowedRoutes(routes: seq<AppRoute>, permissions: seq<ResourcePermission>): seq<AppRoute>
    requires FindRoute(routes, Dashboard).Some?
  {
    [FindRoute(routes, Dashboard).value] + Granted(routes, permissions, |permissions|)
  }

  lemma {:induction false} GrantedSound(routes: seq<AppRoute>, permissions: seq<ResourcePermission>, k: nat)
    requires k <= |permissions|
    ensures forall r :: r in Granted(routes, permissions, k) ==>
      r in routes && r.path != Dashboard && MatchedBefore(permissions, k, r.path)
  {
    if k > 0 {
      GrantedSound(routes, permissions, k - 1);
      var earlier := Granted(routes, permissions, k - 1);
      var added := Filter(routes, Grants(permissions, k - 1));
      assert Granted(routes, permissions, k) == earlier + added;
      forall r | r in earlier + added
        ensures r in routes && r.path != Dashboard && MatchedBefore(permissions, k, r.path)
      {
        if r in earlier {
          var i :| 0 <= i < k - 1 && StartsWith(r.path, permissions[i].resource);
          assert 0 <= i < k;
        } else {
          assert Grants(permissions, k - 1)(r);
          assert StartsWith(r.path, permissions[k - 1].resource);
        }
      }
    }
  }

  lemma {:induction false} GrantedComplete(routes: seq<AppRoute>, permissions: seq<ResourcePermission>, k: nat)
    requires k <= |permissions|
    ensures forall r :: r in routes && r.path != Dashboard && MatchedBefore(permissions, k, r.path) ==>
      r in Granted(routes, permissions, k)
  {
    if k > 0 {
      GrantedComplete(routes, permissions, k - 1);
      forall r | r in routes && r.path != Dashboard && MatchedBefore(permissions, k, r.path)
        ensures r in Granted(routes, permissions, k)
      {
        if !MatchedBefore(permissions, k - 1, r.path) {
          var i :| 0 <= i < k && StartsWith(r.path, permissions[i].resource);
          assert i == k - 1;
          assert NewFor(permissions, k - 1, r);
        }
      }
    }
  }

  /** Two route lists without a path in common, each without repeats, concatenate without repeats. */
  lemma DistinctConcat(a: seq<AppRoute>, b: seq<AppRoute>)
    requires PathsDistinct(a) && PathsDistinct(b)
    requires forall x, y :: x in a && y in b ==> x.path != y.path
    ensures PathsDistinct(a + b)
  {
    forall i, j | 0 <= i < j < |a + b|
      ensures (a + b)[i].path != (a + b)[j].path
    {
      if j < |a| {
        assert (a + b)[i] == a[i] && (a + b)[j] == a[j];
      } else if i >= |a| {
        assert (a + b)[i] == b[i - |a|] && (a + b)[j] == b[j - |a|];
      } else {
        assert (a + b)[i] == a[i] && a[i] in a;
        assert (a + b)[j] == b[j - |a|] && b[j - |a|] in b;
      }
    }
  }

  /** No route reaches the list twice: a later permission only adds paths no earlier one covered. */
  lemma {:induction false} GrantedDistinct(routes: seq<AppRoute>, permissions: seq<ResourcePermission>, k: nat)
    requires k <= |permissions| && PathsDistinct(routes)
    ensures PathsDistinct(Granted(routes, permissions, k))
  {
    if k > 0 {
      var a := Granted(routes, permissions, k - 1);
      var b := Filter(routes, Grants(permissions, k - 1));
      assert PathsDistinct(a) by {
        GrantedDistinct(routes, permissions, k - 1);
      }
      assert PathsDistinct(b) by {
        FilterDistinct(routes, Grants(permissions, k - 1));
      }
      assert forall x, y :: x in a && y in b ==> x.path != y.path by {
        NewlyGrantedDisjoint(routes, permissions, k - 1);
      }
      DistinctConcat(a, b);
      assert Granted(routes, permissions, k) == a + b;
    }
  }

  /** What permission `k` adds shares no path with what the earlier ones granted. */
  lemma NewlyGrantedDisjoint(routes: seq<AppRoute>, permissions: seq<ResourcePermission>, k: nat)
    requires k < |permissions|
    ensures forall x, y :: x in Granted(routes, permissions, k) && y in Filter(routes, Grants(permissions, k)) ==>
      x.path != y.path
  {
    GrantedSound(routes, permissions, k);
    forall x, y | x in Granted(routes, permissions, k) && y in Filter(routes, Grants(permissions, k))
      ensures x.path != y.path
    {
      assert MatchedBefore(permissions, k, x.path);
      assert Grants(permissions, k)(y);
      assert !MatchedBefore(permissions, k, y.path);
    }
  }

  lemma {:induction false} FilterDistinct(routes: seq<AppRoute>, f: AppRoute -> bool)
    requires PathsDistinct(routes)
    ensures PathsDistinct(Filter(routes, f))
    decreases |routes|
  {
    if |routes| > 0 {
      var init := routes[..|routes| - 1];
      var x := routes[|routes| - 1];
      assert PathsDistinct(init);
      FilterDistinct(init, f);
      var a := Filter(init, f);
      forall i | 0 <= i < |a|
        ensures a[i].path != x.path
      {
        assert a[i] in init;
        var k :| 0 <= k < |init| && init[k] == a[i];
      }
    }
  }

  /** The dashboard always comes first. */
  lemma DashboardFirst(routes: seq<AppRoute>, permissions: seq<ResourcePermission>)
    requires FindRoute(routes, Dashboard).Some?
    ensures AllowedRoutes(routes, permissions)[0].path == Dashboard
  {
  }

  /**
   * Every other allowed route is a registered route whose path starts with some
   * permission's resource, and every such route is allowed.
   */
  lemma AllowedRoutesByPrefix(routes: seq<AppRoute>, permissions: seq<ResourcePermission>, r: AppRoute)
    requires FindRoute(routes, Dashboard).Some?
    requires r.path != Dashboard
    ensures r in AllowedRoutes(routes, permissions) <==>
      r in routes && exists i :: 0 <= i < |permissions| && StartsWith(r.path, permissions[i].resource)
  {
    GrantedSound(routes, permissions, |permissions|);
    GrantedComplete(routes, permissions, |permissions|);
  }

  /** No route path is loaded twice. */
  lemma AllowedRoutesDistinct(routes: seq<AppRoute>, permissions: seq<ResourcePermission>)
    requires FindRoute(routes, Dashboard).Some? && PathsDistinct(routes)
    ensures PathsDistinct(AllowedRoutes(routes, permissions))
  {
    var d := [FindRoute(routes, Dashboard).value];
    var g := Granted(routes, permissions, |permissions|);
    assert PathsDistinct(g) by {
      GrantedDistinct(routes, permissions, |permissions|);
    }
    assert forall x, y :: x in d && y in g ==> x.path != y.path by {
      GrantedSound(routes, permissions, |permissions|);
    }
    DistinctConcat(d, g);
  }

  /** The prefix is a string prefix, not a path segment: a permission on `/user` opens `/users/:id`. */
  lemma PrefixIsNotASegment()
    ensures StartsWith("/users/:id", "/user")
  {
  }

  function RoutePaths(routes: seq<AppRoute>): set<string> {
    set r | r in routes :: r.path
  }

  /** The paths `allowedRoutesCache` holds once `k` permissions have been processed. */
  predicate Covered(routes: seq<AppRoute>, permissions: seq<ResourcePermission>, k: nat, p: string)
    requires k <= |permissions|
  {
    p == Dashboard || (p in RoutePaths(routes) && MatchedBefore(permissions, k, p))
  }

  /** The contents of `allowedRoutesCache` once `k` permissions have been processed. */
  ghost function CoveredPaths(routes: seq<AppRoute>, permissions: seq<ResourcePermission>, k: nat): set<string>
    requires k <= |permissions|
  {
    {Dashboard} + set r | r in routes && MatchedBefore(permissions, k, r.path) :: r.path
  }

  lemma CoveredPathsMembers(routes: seq<AppRoute>, permissions: seq<ResourcePermission>, k: nat)
    requires k <= |permissions|
    ensures forall p :: p in CoveredPaths(routes, permissions, k) <==> Covered(routes, permissions, k, p)
  {
    forall p | Covered(routes, permissions, k, p) && p != Dashboard
      ensures p in CoveredPaths(routes, permissions, k)
    {
      var r :| r in routes && r.path == p;
      assert MatchedBefore(permissions, k, r.path);
    }
  }

  /** filteredApplicationRoutes: the dashboard, then a pass over the routes for each permission. */
  method FilteredApplicationRoutes(routes: seq<AppRoute>, permissions: seq<ResourcePermission>)
    returns (routesToBeLoaded: seq<AppRoute>)
    requires PathsDistinct(routes) && FindRoute(routes, Dashboard).Some?
    ensures routesToBeLoaded == AllowedRoutes(routes, permissions)
  {
    var dashboard := FindRoute(routes, Dashboard).value;
    var allowedRoutesCache: set<string> := {Dashboard};
    routesToBeLoaded := [dashboard];
    assert allowedRoutesCache == CoveredPaths(routes, permissions, 0);
    var k := 0;
    while k < |permissions|
      invariant 0 <= k <= |permissions|
      invariant routesToBeLoaded == [dashboard] + Granted(routes, permissions, k)
      invariant allowedRoutesCache == CoveredPaths(routes, permissions, k)
    {
      allowedRoutesCache, routesToBeLoaded := GrantPass(routes, permissions, k, allowedRoutesCache, routesToBeLoaded);
      GrantedStep(routes, permissions, k);
      ConcatAssoc([dashboard], Granted(routes, permissions, k), Filter(routes, Grants(permissions, k)));
      k := k + 1;
    }
  }

  /** During the pass for permission `k`, after `j` routes: the covered paths and the visited ones the permission covers. */
  ghost predicate PassCovers(cache: set<string>, routes: seq<AppRoute>, permissions: seq<ResourcePermission>, k: nat, j: nat)
    requires k < |permissions| && j <= |routes|
  {
    forall p :: p in cache <==>
      Covered(routes, permissions, k, p) || (p in RoutePaths(routes[..j]) && StartsWith(p, permissions[k].resource))
  }

  /** The inner `forEach`: one pass over the registered routes for permission `k`. */
  method GrantPass(routes: seq<AppRoute>, permissions: seq<ResourcePermission>, k: nat,
                   cache: set<string>, loaded: seq<AppRoute>)
    returns (cache': set<string>, loaded': seq<AppRoute>)
    requires k < |permissions| && PathsDistinct(routes)
    requires cache == CoveredPaths(routes, permissions, k)
    ensures loaded' == loaded + Filter(routes, Grants(permissions, k))
    ensures cache' == CoveredPaths(routes, permissions, k + 1)
  {
    var resource := permissions[k].resource;
    cache', loaded' := cache, loaded;
    PassStart(cache, routes, permissions, k);
    var j := 0;
    while j < |routes|
      invariant 0 <= j <= |routes|
      invariant loaded' == loaded + Filter(routes[..j], Grants(permissions, k))
      invariant PassCovers(cache', routes, permissions, k, j)
    {
      var key := routes[j].path;
      PassStep(cache', routes, permissions, k, j);
      FilterStep(routes, j, Grants(permissions, k));
      if StartsWith(key, resource) && key !in cache' {
        cache' := cache' + {key};
        loaded' := loaded' + [routes[j]];
      }
      j := j + 1;
    }
    assert routes[..|routes|] == routes;
    PassEnd(cache', routes, permissions, k);
  }

  /** One route of the pass: it is added exactly when permission `k` newly grants it. */
  lemma PassStep(cache: set<string>, routes: seq<AppRoute>, permissions: seq<ResourcePermission>, k: nat, j: nat)
    requires k < |permissions| && PathsDistinct(routes) && j < |routes|
    requires PassCovers(cache, routes, permissions, k, j)
    ensures var key := routes[j].path;
      var added := StartsWith(key, permissions[k].resource) && key !in cache;
      && (added <==> Grants(permissions, k)(routes[j]))
      && PassCovers(if added then cache + {key} else cache, routes, permissions, k, j + 1)
  {
    var key := routes[j].path;
    PathNotEarlier(routes, j);
    assert key in RoutePaths(routes);
    assert key in cache <==> Covered(routes, permissions, k, key);
    assert RoutePaths(routes[..j + 1]) == RoutePaths(routes[..j]) + {key} by {
      assert routes[..j + 1] == routes[..j] + [routes[j]];
    }
  }

  lemma PassStart(cache: set<string>, routes: seq<AppRoute>, permissions: seq<ResourcePermission>, k: nat)
    requires k < |permissions|
    requires cache == CoveredPaths(routes, permissions, k)
    ensures PassCovers(cache, routes, permissions, k, 0)
  {
    CoveredPathsMembers(routes, permissions, k);
  }

  /** After the whole pass, the cache covers what the first `k + 1` permissions cover. */
  lemma PassEnd(cache: set<string>, routes: seq<AppRoute>, permissions: seq<ResourcePermission>, k: nat)
    requires k < |permissions|
    requires PassCovers(cache, routes, permissions, k, |routes|)
    ensures cache == CoveredPaths(routes, permissions, k + 1)
  {
    assert routes[..|routes|] == routes;
    MatchedBeforeStep(permissions, k);
    CoveredPathsMembers(routes, permissions, k + 1);
  }

  lemma PathNotEarlier(routes: seq<AppRoute>, j: nat)
    requires PathsDistinct(routes) && j < |routes|
    ensures routes[j].path !in RoutePaths(routes[..j])
  {
  }

  lemma MatchedBeforeStep(permissions: seq<ResourcePermission>, k: nat)
    requires k < |permissions|
    ensures forall p :: MatchedBefore(permissions, k + 1, p) <==>
      MatchedBefore(permissions, k, p) || StartsWith(p, permissions[k].resource)
  {
  }

  // ---------------------------------------------------------------------------
  // Menu
  // ---------------------------------------------------------------------------

  predicate IsLeaf(x: NavItem) {
    x.children.None?
  }

  predicate IsParent(x: NavItem) {
    x.children.Some?
  }

  predicate HasChildren(x: NavItem) {
    x.children.Some? && |x.children.value| > 0
  }

  /** The set of the permissions' resources. */
  function UserResources(permissions: seq<ResourcePermission>): (s: set<string>)
    ensures forall r :: r in s <==> exists p :: p in permissions && p.resource == r
  {
    set p | p in permissions :: p.resource
  }

  /** `userRoutes.has(item.url)`. */
  function OnResource(resources: set<string>): NavItem -> bool {
    (c: NavItem) => c.url in resources
  }

  /** A parent keeps only the children whose url is one of the resources. */
  function Prune(x: NavItem, resources: set<string>): (y: NavItem)
    ensures y.name == x.name && y.url == x.url && (y.children.Some? <==> x.children.Some?)
    ensures x.children.None? ==> y == x
    ensures x.children.Some? ==> forall c :: c in y.children.value <==> c in x.children.value && c.url in resources
  {
    if x.children.Some? then x.(children := Some(Filter(x.children.value, OnResource(resources)))) else x
  }

  function PruneAll(items: seq<NavItem>, resources: set<string>): (r: seq<NavItem>)
    ensures |r| == |items| && forall i :: 0 <= i < |r| ==> r[i] == Prune(items[i], resources)
  {
    seq(|items|, i requires 0 <= i < |items| => Prune(items[i], resources))
  }

  /** The leaves on a permission's resource, then the parents with at least one such child, pruned. */
  function Menu(items: seq<NavItem>, resources: set<string>): seq<NavItem> {
    Filter(Filter(items, IsLeaf), OnResource(resources)) +
    Filter(PruneAll(Filter(items, IsParent), resources), HasChildren)
  }

  /** A leaf is shown iff its url is one of the resources. */
  lemma MenuLeaves(items: seq<NavItem>, resources: set<string>, x: NavItem)
    requires x in items && IsLeaf(x)
    ensures x in Menu(items, resources) <==> x.url in resources
  {
  }

  lemma InPruneAll(items: seq<NavItem>, resources: set<string>, x: NavItem)
    requires x in items
    ensures Prune(x, resources) in PruneAll(items, resources)
  {
    var k :| 0 <= k < |items| && items[k] == x;
    assert PruneAll(items, resources)[k] == Prune(x, resources);
  }

  lemma PrunedHasChildren(x: NavItem, resources: set<string>)
    requires IsParent(x)
    ensures HasChildren(Prune(x, resources)) <==> exists c :: c in x.children.value && c.url in resources
  {
    var y := Prune(x, resources);
    if exists c :: c in x.children.value && c.url in resources {
      var c :| c in x.children.value && c.url in resources;
      assert c in y.children.value;
    }
    if HasChildren(y) {
      assert y.children.value[0] in y.children.value;
    }
  }

  /** A parent is shown, with exactly its children on a resource, iff one of its children is on a resource. */
  lemma MenuParents(items: seq<NavItem>, resources: set<string>, x: NavItem)
    requires x in items && IsParent(x)
    ensures Prune(x, resources) in Menu(items, resources) <==> exists c :: c in x.children.value && c.url in resources
  {
    var y := Prune(x, resources);
    var leaves := Filter(Filter(items, IsLeaf), OnResource(resources));
    var parents := PruneAll(Filter(items, IsParent), resources);
    assert y !in leaves;
    InPruneAll(Filter(items, IsParent), resources, x);
    assert y in parents;
    PrunedHasChildren(x, resources);
    assert y in Menu(items, resources) <==> y in Filter(parents, HasChildren);
  }

  /** Every shown parent comes from a parent entry, its children pruned to the resources. */
  lemma MenuParentsPruned(items: seq<NavItem>, resources: set<string>, y: NavItem)
    requires y in Menu(items, resources) && IsParent(y)
    ensures exists x :: x in items && IsParent(x) && y == Prune(x, resources) && HasChildren(y)
  {
    var leaves := Filter(Filter(items, IsLeaf), OnResource(resources));
    assert y !in leaves;
    var parents := PruneAll(Filter(items, IsParent), resources);
    var i :| 0 <= i < |parents| && parents[i] == y;
    assert Filter(items, IsParent)[i] in Filter(items, IsParent);
  }

  /** Leaves come before parents. */
  lemma MenuLeavesFirst(items: seq<NavItem>, resources: set<string>)
    ensures var m := Menu(items, resources);
      forall i, j :: 0 <= i < j < |m| && IsParent(m[i]) ==> IsParent(m[j])
  {
    var leaves := Filter(Filter(items, IsLeaf), OnResource(resources));
    var parents := Filter(PruneAll(Filter(items, IsParent), resources), HasChildren);
    var m := leaves + parents;
    forall i | 0 <= i < |m|
      ensures IsParent(m[i]) <==> i >= |leaves|
    {
      if i < |leaves| {
        assert m[i] in leaves;
      } else {
        assert m[i] == parents[i - |leaves|] && m[i] in parents;
      }
    }
  }

  /** The shared navigation object the menu is computed from. */
  class Navigation {
    var items: seq<NavItem>

    constructor (items0: seq<NavItem>)
      ensures items == items0
    {
      items := items0;
    }
  }

  /**
   * filteredUserMenu as written: `navItem.children = subMenuItems` writes the
   * pruned children back into the shared navigation.
   */
  method FilteredUserMenuAsWritten(nav: Navigation, permissions: seq<ResourcePermission>) returns (menu: seq<NavItem>)
    modifies nav
    ensures menu == Menu(old(nav.items), UserResources(permissions))
    ensures nav.items == PruneAll(old(nav.items), UserResources(permissions))
  {
    var userRoutes := UserResources(permissions);
    menu := Menu(nav.items, userRoutes);
    nav.items := PruneAll(nav.items, userRoutes);
  }

  /** Two sign-ins in one page session with the menu as written: the second starts from the first's pruning. */
  method SignInTwiceAsWritten(nav: Navigation, first: seq<ResourcePermission>, second: seq<ResourcePermission>)
    returns (menu1: seq<NavItem>, menu2: seq<NavItem>)
    modifies nav
    ensures menu1 == Menu(old(nav.items), UserResources(first))
    ensures menu2 == Menu(PruneAll(old(nav.items), UserResources(first)), UserResources(second))
  {
    menu1 := FilteredUserMenuAsWritten(nav, first);
    menu2 := FilteredUserMenuAsWritten(nav, second);
  }

  /** Pruning a pruned parent keeps the children both resource sets contain. */
  lemma PruneTwice(x: NavItem, a: set<string>, b: set<string>)
    ensures Prune(Prune(x, a), b) == Prune(x, a * b)
  {
    if x.children.Some? {
      FilterTwice(x.children.value, OnResource(a), OnResource(b), OnResource(a * b));
    }
  }

  /**
   * As written, a second sign-in in the same page session sees the menu
   * computed from the first user's pruned navigation: the parents' children
   * are those on the resources of both users.
   */
  lemma SecondMenuIntersects(items: seq<NavItem>, a: set<string>, b: set<string>)
    ensures PruneAll(PruneAll(items, a), b) == PruneAll(items, a * b)
  {
    forall i | 0 <= i < |items|
      ensures PruneAll(PruneAll(items, a), b)[i] == PruneAll(items, a * b)[i]
    {
      PruneTwice(items[i], a, b);
    }
  }

  const UsersOnly: seq<ResourcePermission> := [ResourcePermission("/users", true, true, true)]
  const UsersAndGroups: seq<ResourcePermission> :=
    [ResourcePermission("/users", true, true, true), ResourcePermission("/groups", true, true, true)]
  const UsersItem: NavItem := NavItem("Users", "/users", None)
  const GroupsItem: NavItem := NavItem("Group Permissions", "/groups", None)
  const FullSecurityMenu: NavItem := NavItem("Security", "", Some([UsersItem, GroupsItem]))

  lemma ResourcesOfExamples()
    ensures UserResources(UsersOnly) == {"/users"}
    ensures UserResources(UsersAndGroups) == {"/users", "/groups"}
  {
    assert UsersOnly[0] in UsersOnly;
    assert UsersAndGroups[0] in UsersAndGroups && UsersAndGroups[1] in UsersAndGroups;
  }

  /** The second user's full security menu shows as soon as the navigation is left as configured. */
  lemma FullMenuForUsersAndGroups()
    ensures FullSecurityMenu in Menu(AppNavigation, UserResources(UsersAndGroups))
  {
    var both: set<string> := {"/users", "/groups"};
    assert UserResources(UsersAndGroups) == both by {
      ResourcesOfExamples();
    }
    assert Prune(AppNavigation[1], both) == FullSecurityMenu by {
      FilterAll([UsersItem, GroupsItem], OnResource(both));
    }
    assert FullSecurityMenu in Menu(AppNavigation, both) by {
      MenuParents(AppNavigation, both, AppNavigation[1]);
      assert UsersItem in AppNavigation[1].children.value;
    }
  }

  /** The security menu pruned for the first user: only Users is left. */
  const UsersOnlySecurityMenu: NavItem := NavItem("Security", "", Some([UsersItem]))

  /**
   * A user with the users permission signs in, signs out, and a user with the
   * users and groups permissions signs in on the same page: with the menu as
   * written the second user's security menu lacks Group Permissions.
   */
  lemma MenuLeaksAcrossSignIns()
    ensures FullSecurityMenu !in Menu(PruneAll(AppNavigation, UserResources(UsersOnly)), UserResources(UsersAndGroups))
  {
    var users: set<string> := {"/users"};
    var both: set<string> := {"/users", "/groups"};
    assert UserResources(UsersOnly) == users && UserResources(UsersAndGroups) == both by {
      ResourcesOfExamples();
    }
    var pruned := PruneAll(AppNavigation, users);
    assert pruned == [AppNavigation[0], UsersOnlySecurityMenu] by {
      assert Filter([UsersItem, GroupsItem], OnResource(users)) == [UsersItem];
    }
    if FullSecurityMenu in Menu(pruned, both) {
      MenuParentsPruned(pruned, both, FullSecurityMenu);
    }
  }

  /** The menu computed from the navigation as configured, which it leaves unchanged. */
  method FilteredUserMenu(nav: Navigation, permissions: seq<ResourcePermission>) returns (menu: seq<NavItem>)
    ensures menu == Menu(nav.items, UserResources(permissions))
  {
    menu := Menu(nav.items, UserResources(permissions));
  }

  /** Two sign-ins in one page session with the corrected menu: each sees the menu of its own permissions. */
  method SignInTwice(nav: Navigation, first: seq<ResourcePermission>, second: seq<ResourcePermission>)
    returns (menu1: seq<NavItem>, menu2: seq<NavItem>)
    ensures menu1 == Menu(nav.items, UserResources(first))
    ensures menu2 == Menu(nav.items, UserResources(second))
  {
    menu1 := FilteredUserMenu(nav, first);
    menu2 := FilteredUserMenu(nav, second);
  }

  /** The layout's state after mounting: the routes to load and the menu to show. */
  class Layout {
    var userRoutes: seq<AppRoute>
    var userNavigation: seq<NavItem>

    constructor ()
      ensures userRoutes == [] && userNavigation == [NavItem("", "", None)]
    {
      userRoutes := [];
      userNavigation := [NavItem("", "", None)];
    }

    /**
     * componentDidMount as written: the signed-in user's permissions, or none;
     * the menu is computed by the as-written filteredUserMenu, which leaves the
     * shared navigation pruned for the next mount.
     */
    method ComponentDidMountAsWritten(ctx: Context, nav: Navigation, routes: seq<AppRoute>)
      requires PathsDistinct(routes) && FindRoute(routes, Dashboard).Some?
      modifies this, nav
      ensures var permissions := if ctx.loginData.Some? then ctx.loginData.value.user.permissions else [];
        && userRoutes == AllowedRoutes(routes, permissions)
        && userNavigation == Menu(old(nav.items), UserResources(permissions))
        && nav.items == PruneAll(old(nav.items), UserResources(permissions))
    {
      var permissions: seq<ResourcePermission> := [];
      if ctx.loginData.Some? {
        permissions := ctx.loginData.value.user.permissions;
      }
      userRoutes := FilteredApplicationRoutes(routes, permissions);
      userNavigation := FilteredUserMenuAsWritten(nav, permissions);
    }

    /** componentDidMount with the corrected menu, which leaves the navigation as configured. */
    method ComponentDidMount(ctx: Context, nav: Navigation, routes: seq<AppRoute>)
      requires PathsDistinct(routes) && FindRoute(routes, Dashboard).Some?
      modifies this
      ensures var permissions := if ctx.loginData.Some? then ctx.loginData.value.user.permissions else [];
        && userRoutes == AllowedRoutes(routes, permissions)
        && userNavigation == Menu(nav.items, UserResources(permissions))
    {
      var permissions: seq<ResourcePermission> := [];
      if ctx.loginData.Some? {
        permissions := ctx.loginData.value.user.permissions;
      }
      userRoutes := FilteredApplicationRoutes(routes, permissions);
      userNavigation := FilteredUserMenu(nav, permissions);
    }
  }
}
