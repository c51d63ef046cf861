/** DuckMap::RouteSet: the registered routes and the queries that tell which
    routes a sitemap lists. A route belongs to the sitemap that claims it, and
    sitemaps are tried from the most deeply namespaced down. */
module RouteSets {

  import opened Values
  import opened Lists
  import opened Filters
  import opened Routes
  import opened RouteFilter

  /** What the model needs of every registered route: namespace_prefix is
      defined (a sitemap route has its full name when it has a raw name), and
      include_names holds tokens whose to_s the model knows. */
  predicate WellFormed(r: Route) {
    r.PrefixDefined() && r.NamesConvertible()
  }

  predicate AllWellFormed(routes: seq<Route>) {
    forall i :: 0 <= i < |routes| ==> WellFormed(routes[i])
  }

  /** namespace_prefix of a well-formed route. */
  function Prefix(o: Route): (p: Option<string>)
    ensures o.PrefixDefined() ==> p == o.NamespacePrefix()
  {
    if o.PrefixDefined() then o.NamespacePrefix() else None
  }

  /** namespace_prefix_underscores of a well-formed route. */
  function Depth(o: Route): (n: nat)
    ensures o.PrefixDefined() ==> n == o.NamespaceDepth()
  {
    if o.PrefixDefined() then o.NamespaceDepth() else 0
  }

  /** candidate.name =~ /^prefix/: a nil name never matches. */
  predicate NameUnder(candidate: Route, prefix: Option<string>) {
    !BlankOpt(prefix) && candidate.name.Some? && AtLineStart(candidate.name.value, prefix.value)
  }

  /** The owner test of sitemap_routes: the same non-blank sitemap route name,
      or a namespace prefix of the candidate's name on a sitemap without a block. */
  predicate Claims(owner: Route, candidate: Route) {
    (!BlankOpt(candidate.sitemapRouteName) && owner.sitemapRouteName == candidate.sitemapRouteName) ||
    (NameUnder(candidate, Prefix(owner)) && !owner.WithBlock())
  }

  /** The owner test of route_owner: the prefix branch does not look at the block flag. */
  predicate ClaimsAny(owner: Route, candidate: Route) {
    (!BlankOpt(candidate.sitemapRouteName) && owner.sitemapRouteName == candidate.sitemapRouteName) ||
    NameUnder(candidate, Prefix(owner))
  }

  /** A top-level sitemap without a block: the owner of last resort. */
  predicate IsDefault(owner: Route) {
    BlankOpt(Prefix(owner)) && !owner.WithBlock()
  }

  /** Owners are tried by non-increasing namespace depth. */
  predicate ByDepth(s: seq<Route>) {
    forall i, j :: 0 <= i < j < |s| ==> Depth(s[i]) >= Depth(s[j])
  }

  /** Place x before the first route that is not deeper than x. */
  function Insert(x: Route, s: seq<Route>): seq<Route> {
    if s == [] then [x]
    else if Depth(x) >= Depth(s[0]) then [x] + s
    else [s[0]] + Insert(x, s[1..])
  }

  lemma {:induction false} InsertKeeps(x: Route, s: seq<Route>)
    ensures multiset(Insert(x, s)) == multiset(s) + multiset{x}
  {
    if s != [] && Depth(x) < Depth(s[0]) {
      InsertKeeps(x, s[1..]);
      assert s == [s[0]] + s[1..];
    }
  }

  lemma {:induction false} InsertMembers(x: Route, s: seq<Route>)
    ensures forall y :: y in Insert(x, s) ==> y == x || y in s
  {
    if s != [] && Depth(x) < Depth(s[0]) {
      InsertMembers(x, s[1..]);
    }
  }

  lemma ConsByDepth(a: Route, t: seq<Route>)
    requires ByDepth(t) && forall y :: y in t ==> Depth(a) >= Depth(y)
    ensures ByDepth([a] + t)
  {
    var r := [a] + t;
    forall i, j | 0 <= i < j < |r| ensures Depth(r[i]) >= Depth(r[j]) {
      assert r[j] == t[j - 1];
      if i > 0 {
        assert r[i] == t[i - 1];
      }
    }
  }

  lemma {:induction false} InsertOrders(x: Route, s: seq<Route>)
    requires ByDepth(s)
    ensures ByDepth(Insert(x, s))
  {
    if s == [] {
    } else if Depth(x) >= Depth(s[0]) {
      forall y | y in s ensures Depth(x) >= Depth(y) {
        var j :| 0 <= j < |s| && s[j] == y;
        if j > 0 {
          assert Depth(s[0]) >= Depth(s[j]);
        }
      }
      ConsByDepth(x, s);
    } else {
      InsertOrders(x, s[1..]);
      InsertMembers(x, s[1..]);
      forall y | y in Insert(x, s[1..]) ensures Depth(s[0]) >= Depth(y) {
        if y != x {
          var j :| 0 <= j < |s[1..]| && s[1..][j] == y;
          assert s[j + 1] == y;
        }
      }
      ConsByDepth(s[0], Insert(x, s[1..]));
    }
  }

  /** potential_owners.sort! by namespace_prefix_underscores, deepest first.
      Ties keep registration order. */
  function SortByDepth(s: seq<Route>): seq<Route> {
    if s == [] then [] else Insert(s[0], SortByDepth(s[1..]))
  }

  /** The sorted owners are the same routes, deepest first. */
  lemma {:induction false} SortByDepthSorts(s: seq<Route>)
    ensures ByDepth(SortByDepth(s)) && multiset(SortByDepth(s)) == multiset(s)
  {
    if s != [] {
      SortByDepthSorts(s[1..]);
      InsertKeeps(s[0], SortByDepth(s[1..]));
      InsertOrders(s[0], SortByDepth(s[1..]));
      assert s == [s[0]] + s[1..];
    }
  }

  /** The potential owners: the sitemap routes, deepest first. */
  function Owners(routes: seq<Route>): seq<Route> {
    SortByDepth(Select(routes, (r: Route) => r.IsSitemap()))
  }

  /** The potential owners are exactly the sitemap routes, ordered by depth. */
  lemma OwnersAreSitemaps(routes: seq<Route>)
    ensures ByDepth(Owners(routes))
    ensures forall o :: o in Owners(routes) <==> o in routes && o.IsSitemap()
  {
    var s := Select(routes, (r: Route) => r.IsSitemap());
    SortByDepthSorts(s);
    assert forall o :: o in Owners(routes) <==> o in multiset(Owners(routes));
    assert forall o :: o in s <==> o in multiset(s);
  }

  /** The routes a sitemap can list: every route that is not a sitemap. */
  function Candidates(routes: seq<Route>): seq<Route> {
    Select(routes, (r: Route) => !r.IsSitemap())
  }

  /** The owner sitemap_routes resolves: the first owner that claims the
      candidate, else the first top-level owner without a block. */
  function Owner(owners: seq<Route>, candidate: Route): (owner: Option<Route>)
    ensures owner.Some? ==> owner.value in owners
    ensures owner.Some? && !Claims(owner.value, candidate) ==> IsDefault(owner.value) && forall o :: o in owners ==> !Claims(o, candidate)
    ensures owner.None? ==> forall o :: o in owners ==> !Claims(o, candidate) && !IsDefault(o)
    ensures owner.Some? && Claims(owner.value, candidate) ==>
              exists k :: 0 <= k < |owners| && owners[k] == owner.value &&
                          forall j :: 0 <= j < k ==> !Claims(owners[j], candidate)
    ensures owner.Some? && !Claims(owner.value, candidate) ==>
              exists k :: 0 <= k < |owners| && owners[k] == owner.value &&
                          forall j :: 0 <= j < k ==> !IsDefault(owners[j])
  {
    var claims := (o: Route) => Claims(o, candidate);
    var k := FirstIndex(owners, claims);
    if k.Some? then
      FindIsFirst(owners, claims, k.value);
      Some(owners[k.value])
    else
      var d := FirstIndex(owners, IsDefault);
      if d.Some? then
        FindIsFirst(owners, IsDefault, d.value);
        Find(owners, IsDefault)
      else Find(owners, IsDefault)
  }

  /** Does the candidate's owner carry the name of the requested sitemap? */
  predicate OwnedBy(owners: seq<Route>, candidate: Route, name: Option<string>) {
    var o := Owner(owners, candidate);
    o.Some? && o.value.name == name
  }

  /** sitemap_routes: nothing for nil; for a block sitemap, the other routes
      marked with its name; otherwise the routes whose owner has its name and
      that pass include_route? under the given scope. */
  function SitemapRoutesSpec(routes: seq<Route>, sitemap: Option<Route>, scope: Scope, blankFlag: Option<bool>, rx: Matcher): (list: seq<Route>)
    requires AllWellFormed(routes)
  {
    if sitemap.None? then []
    else
      var s := sitemap.value;
      if s.WithBlock() then
        Select(routes, (r: Route) => !r.IsSitemap() && r.sitemapRouteName == s.sitemapRouteName)
      else
        var owned := Select(Candidates(routes), (c: Route) => OwnedBy(Owners(routes), c, s.name));
        Select(owned, (c: Route) => c in routes && IncludeRoute(Some(c), scope, blankFlag, rx))
  }

  /** route_owner: the first owner whose sitemap route name matches or whose
      prefix begins the route's name (with or without a block), else the
      first top-level owner without a block, else nil. */
  function RouteOwnerSpec(owners: seq<Route>, route: Route): Option<Route> {
    match Find(owners, (o: Route) => ClaimsAny(o, route))
    case Some(o) => Some(o)
    case None => Find(owners, IsDefault)
  }

  /** String#rindex("."): the position of the last dot. */
  function LastDot(s: string): (k: Option<nat>)
    ensures k.Some? ==> k.value < |s| && s[k.value] == '.' && forall i :: k.value < i < |s| ==> s[i] != '.'
    ensures k.None? ==> forall i :: 0 <= i < |s| ==> s[i] != '.'
  {
    if s == [] then None
    else if s[|s| - 1] == '.' then Some(|s| - 1)
    else LastDot(s[..|s| - 1])
  }

  /** The text from the last "." onward dropped: a sitemap path without its format. */
  function StripExtension(s: string): (r: string)
    ensures |r| <= |s| && r == s[..|r|]
  {
    match LastDot(s)
    case None => s
    case Some(k) => s[..k]
  }

  /** The test find_sitemap_route applies: a sitemap route whose path starts
      with the text, or whose sitemap route name is the text or the text plus _sitemap. */
  predicate AnswersTo(r: Route, text: string) {
    r.IsSitemap() &&
    (AtLineStart(r.path, text) || r.sitemapRouteName == Some(text) || r.sitemapRouteName == Some(text + "_sitemap"))
  }

  /** find_sitemap_route: the first route that answers to the text without
      its extension, or nil when none does. */
  function FindSitemapRoute(routes: seq<Route>, nameOrPath: ScalarValue): (found: Option<Route>)
    ensures found.Some? ==>
              exists k :: 0 <= k < |routes| && routes[k] == found.value &&
                          AnswersTo(routes[k], StripExtension(ToS(nameOrPath))) &&
                          forall j :: 0 <= j < k ==> !AnswersTo(routes[j], StripExtension(ToS(nameOrPath)))
    ensures found.None? ==> forall r :: r in routes ==> !AnswersTo(r, StripExtension(ToS(nameOrPath)))
  {
    var text := StripExtension(ToS(nameOrPath));
    var answers := (r: Route) => AnswersTo(r, text);
    var k := FirstIndex(routes, answers);
    if k.Some? then
      FindIsFirst(routes, answers, k.value);
      Find(routes, answers)
    else Find(routes, answers)
  }

  /** sitemap_routes_only: the sitemap routes, in order. */
  function SitemapRoutesOnly(routes: seq<Route>): (only: seq<Route>)
    ensures forall r :: r in only <==> r in routes && r.IsSitemap()
  {
    Select(routes, (r: Route) => r.IsSitemap())
  }

  /** The order of sitemap_routes_only is the order of registration: a route
      registered later comes later in the list, and only when it is a sitemap. */
  lemma SitemapRoutesOnlyInOrder(routes: seq<Route>, r: Route)
    ensures SitemapRoutesOnly(routes + [r]) == SitemapRoutesOnly(routes) + (if r.IsSitemap() then [r] else [])
  {
    SelectAppend(routes, [r], (r: Route) => r.IsSitemap());
  }

  /** find_route_via_name: the first route with that name (the first unnamed one for nil). */
  function FindRouteViaName(routes: seq<Route>, name: Option<string>): (found: Option<Route>)
    ensures found.Some? ==>
              exists k :: 0 <= k < |routes| && routes[k] == found.value && found.value.name == name &&
                          forall j :: 0 <= j < k ==> routes[j].name != name
    ensures found.None? ==> forall r :: r in routes ==> r.name != name
  {
    var named := (r: Route) => r.name == name;
    var k := FirstIndex(routes, named);
    if k.Some? then
      FindIsFirst(routes, named, k.value);
      Find(routes, named)
    else Find(routes, named)
  }

  /** DuckMap::RouteSet: the routes, the blank-name flag and the filter stack. */
  class RouteSet {

    var routes: seq<Route>
    var blankRouteName: Option<bool>
    const filters: FilterStack
    const rx: Matcher

    ghost predicate Valid()
      reads this, filters
    {
      filters.Valid() && AllWellFormed(routes)
    }

    /** An empty route set; sitemap_filters starts as a fresh stack. */
    constructor (rx: Matcher)
      ensures Valid() && fresh(filters)
      ensures routes == [] && blankRouteName == None && filters.stack == [DefaultFilter] && this.rx == rx
    {
      routes := [];
      blankRouteName := None;
      filters := new FilterStack();
      this.rx := rx;
    }

    /** The scope include_route? applies: the top of the filter stack. */
    function CurrentScope(): Scope
      reads this, filters
      requires filters.Valid()
    {
      AsScope(filters.CurrentFilter())
    }

    /** The router appends a route. */
    method AddRoute(r: Route)
      requires Valid() && WellFormed(r)
      modifies this
      ensures Valid() && routes == old(routes) + [r]
      ensures blankRouteName == old(blankRouteName)
    {
      routes := routes + [r];
    }

    /** The fallback loop: the first top-level owner without a block. */
    static method FirstDefault(owners: seq<Route>) returns (value: Option<Route>)
      ensures value == Find(owners, IsDefault)
    {
      value := None;
      var i := 0;
      while i < |owners|
        invariant 0 <= i <= |owners|
        invariant forall j :: 0 <= j < i ==> !IsDefault(owners[j])
      {
        if IsDefault(owners[i]) {
          FindIsFirst(owners, IsDefault, i);
          return Some(owners[i]);
        }
        i := i + 1;
      }
    }

    /** The owner loop of sitemap_routes, with its fallback run inside the
        loop after every owner that does not claim the candidate. */
    static method OwnerLoop(owners: seq<Route>, candidate: Route) returns (value: Option<Route>)
      ensures value == Owner(owners, candidate)
    {
      value := None;
      var i := 0;
      while i < |owners|
        invariant 0 <= i <= |owners|
        invariant forall j :: 0 <= j < i ==> !Claims(owners[j], candidate)
        invariant i == 0 ==> value.None?
        invariant i > 0 ==> value == Find(owners, IsDefault)
      {
        if Claims(owners[i], candidate) {
          FindIsFirst(owners, (o: Route) => Claims(o, candidate), i);
          return Some(owners[i]);
        }
        if value.None? {
          value := FirstDefault(owners);
        }
        i := i + 1;
      }
      if |owners| == 0 {
        assert Find(owners, IsDefault).None?;
      }
    }

    /** sitemap_routes as the loops of route_set.rb run it. */
    method SitemapRoutes(sitemap: Option<Route>) returns (list: seq<Route>)
      requires Valid()
      ensures list == SitemapRoutesSpec(routes, sitemap, CurrentScope(), blankRouteName, rx)
    {
      list := [];
      if sitemap.None? {
        return;
      }
      var s := sitemap.value;
      if s.WithBlock() {
        list := Select(routes, (r: Route) => !r.IsSitemap() && r.sitemapRouteName == s.sitemapRouteName);
        return;
      }
      var candidates := Candidates(routes);
      var owners := Owners(routes);
      var owned := (c: Route) => OwnedBy(owners, c, s.name);
      for k := 0 to |candidates|
        invariant list == Select(candidates[..k], owned)
      {
        SelectSnoc(candidates, k, owned);
        var value := OwnerLoop(owners, candidates[k]);
        if value.Some? && value.value.name == s.name {
          list := list + [candidates[k]];
        }
      }
      assert candidates[..|candidates|] == candidates;
      var scope, all, flag, matcher := CurrentScope(), routes, blankRouteName, rx;
      list := Select(list, (c: Route) => c in all && IncludeRoute(Some(c), scope, flag, matcher));
    }

    /** route_owner as route_set.rb runs it: one loop, then the fallback loop. */
    method RouteOwner(route: Route) returns (value: Option<Route>)
      requires Valid()
      ensures value == RouteOwnerSpec(Owners(routes), route)
    {
      var owners := Owners(routes);
      value := None;
      var i := 0;
      while i < |owners|
        invariant 0 <= i <= |owners|
        invariant forall j :: 0 <= j < i ==> !ClaimsAny(owners[j], route)
      {
        if ClaimsAny(owners[i], route) {
          FindIsFirst(owners, (o: Route) => ClaimsAny(o, route), i);
          return Some(owners[i]);
        }
        i := i + 1;
      }
      value := FirstDefault(owners);
    }
  }

  /** Every route sitemap_routes lists is a route of the set that is not itself a sitemap. */
  lemma ListedAreCandidates(routes: seq<Route>, sitemap: Option<Route>, scope: Scope, blankFlag: Option<bool>, rx: Matcher)
    requires AllWellFormed(routes)
    ensures forall c :: c in SitemapRoutesSpec(routes, sitemap, scope, blankFlag, rx) ==> c in routes && !c.IsSitemap()
  {
  }

  /** A bare sitemap lists only routes that include_route? accepts, and every
      accepted route whose owner carries its name. */
  lemma BareSitemapListing(routes: seq<Route>, s: Route, scope: Scope, blankFlag: Option<bool>, rx: Matcher, c: Route)
    requires AllWellFormed(routes) && !s.WithBlock()
    ensures c in SitemapRoutesSpec(routes, Some(s), scope, blankFlag, rx) <==>
      c in routes && !c.IsSitemap() && OwnedBy(Owners(routes), c, s.name) && IncludeRoute(Some(c), scope, blankFlag, rx)
  {
  }

  /** Bare sitemaps with different names never list the same route. */
  lemma BareSitemapsDisjoint(routes: seq<Route>, s1: Route, s2: Route, scope: Scope, blankFlag: Option<bool>, rx: Matcher)
    requires AllWellFormed(routes) && !s1.WithBlock() && !s2.WithBlock() && s1.name != s2.name
    ensures forall c :: c in SitemapRoutesSpec(routes, Some(s1), scope, blankFlag, rx) ==> c !in SitemapRoutesSpec(routes, Some(s2), scope, blankFlag, rx)
  {
    forall c | c in SitemapRoutesSpec(routes, Some(s1), scope, blankFlag, rx)
      ensures c !in SitemapRoutesSpec(routes, Some(s2), scope, blankFlag, rx)
    {
      BareSitemapListing(routes, s1, scope, blankFlag, rx, c);
      BareSitemapListing(routes, s2, scope, blankFlag, rx, c);
    }
  }

  /** A block sitemap lists exactly the non-sitemap routes marked with its sitemap route name. */
  lemma BlockSitemapListing(routes: seq<Route>, s: Route, scope: Scope, blankFlag: Option<bool>, rx: Matcher, c: Route)
    requires AllWellFormed(routes) && s.WithBlock()
    ensures c in SitemapRoutesSpec(routes, Some(s), scope, blankFlag, rx) <==>
      c in routes && !c.IsSitemap() && c.sitemapRouteName == s.sitemapRouteName
  {
  }

  /** When no sitemap has a block, route_owner finds the same owner as sitemap_routes. */
  lemma RouteOwnerAgrees(owners: seq<Route>, route: Route)
    requires forall o :: o in owners ==> !o.WithBlock()
    ensures RouteOwnerSpec(owners, route) == Owner(owners, route)
  {
    var p := (o: Route) => ClaimsAny(o, route);
    var q := (o: Route) => Claims(o, route);
    assert forall o :: o in owners ==> p(o) == q(o);
    FindSame(owners, p, q);
  }

  lemma {:induction false} FindSame(s: seq<Route>, p: Route -> bool, q: Route -> bool)
    requires forall o :: o in s ==> p(o) == q(o)
    ensures Find(s, p) == Find(s, q)
  {
    if s != [] {
      FindSame(s[1..], p, q);
      if !p(s[0]) {
        FindAfterHead(s, p);
        FindAfterHead(s, q);
      }
    }
  }

  lemma FindAfterHead(s: seq<Route>, p: Route -> bool)
    requires s != [] && !p(s[0])
    ensures Find(s, p) == Find(s[1..], p)
  {
    match FirstIndex(s[1..], p)
    case None =>
    case Some(k) =>
      assert p(s[k + 1]);
      forall j | 0 <= j < k + 1 ensures !p(s[j]) {
        if j > 0 {
          assert s[j] == s[1..][j - 1];
        }
      }
      FindIsFirst(s, p, k + 1);
  }

  /** The extension of a sitemap request is dropped: sitemap.xml is looked up
      as sitemap, and a name without a dot as itself. */
  lemma StripExtensionOfPath(name: string, ext: string)
    requires forall i :: 0 <= i < |ext| ==> ext[i] != '.'
    ensures StripExtension(name + "." + ext) == name
    ensures (forall i :: 0 <= i < |name| ==> name[i] != '.') ==> StripExtension(name) == name
  {
    var s := name + "." + ext;
    forall i | |name| < i < |s| ensures s[i] != '.' {
      assert s[i] == ext[i - |name| - 1];
    }
    LastDotIs(s, |name|);
    assert s[..|name|] == name;
  }

  lemma {:induction false} LastDotIs(s: string, j: nat)
    requires j < |s| && s[j] == '.'
    requires forall i :: j < i < |s| ==> s[i] != '.'
    ensures LastDot(s) == Some(j)
    decreases |s|
  {
    if j < |s| - 1 {
      assert s[|s| - 1] != '.';
      LastDotIs(s[..|s| - 1], j);
    }
  }
}
