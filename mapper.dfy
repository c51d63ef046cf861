/** DuckMap::Mapper: the sitemap declaration of config/routes.rb. Declaring a
    sitemap registers its route once per name; with a block, the routes the
    block adds are claimed for it under a filter scope that ends with the
    block. The block itself runs between BeginSitemap and EndSitemap: the
    caller adds its routes to the route set in between. */
module Mappers {

  import opened Values
  import opened Lists
  import opened Filters
  import opened Routes
  import opened RouteFilter
  import opened RouteSets

  /** A Hash first argument is the options, and the name falls back to :sitemap. */
  function SitemapName(name: Value): (n: Value)
    ensures n.Str? || n.Sym?
    ensures name.Str? || name.Sym? ==> n == name
    ensures !(name.Str? || name.Sym?) ==> n == Sym("sitemap")
  {
    if name.Str? || name.Sym? then name else Sym("sitemap")
  }

  function SitemapOptions(name: Value, options: map<string, Value>): map<string, Value> {
    if name.Hash? then name.entries else options
  }

  /** "#{name}_sitemap". */
  function RawRouteName(name: Value): (raw: string)
    ensures |raw| > |"_sitemap"| - 1 && raw[|raw| - |"_sitemap"|..] == "_sitemap"
    ensures name.Str? || name.Sym? ==> raw[..|raw| - |"_sitemap"|] == Text(name)
    ensures !(name.Str? || name.Sym?) ==> raw == "sitemap_sitemap"
  {
    Text(SitemapName(name)) + "_sitemap"
  }

  /** The route match added, marked as a sitemap: url_limit from the options
      (nil by default), its own full name as sitemap route name, the raw name,
      and the sitemap controller. */
  function Marked(matched: Route, name: Value, options: map<string, Value>): (m: Route)
    ensures m.IsSitemap() && m.name == matched.name
    ensures m.sitemapRouteName == Some(matched.RouteName()) && m.sitemapRawRouteName == Some(RawRouteName(name))
    ensures m.urlLimit == Lookup(SitemapOptions(name, options), "url_limit")
    ensures m.defaults == matched.defaults["controller" := Str("sitemap")]
  {
    matched.(isSitemap := Some(true),
             urlLimit := Lookup(SitemapOptions(name, options), "url_limit"),
             sitemapRouteName := Some(matched.RouteName()),
             sitemapRawRouteName := Some(RawRouteName(name)),
             defaults := matched.defaults["controller" := Str("sitemap")])
  }

  /** A sitemap route with this name. */
  predicate SitemapNamed(r: Route, name: Option<string>) {
    r.IsSitemap() && r.name == name
  }

  /** Sitemap route names are unique. */
  predicate UniqueSitemaps(routes: seq<Route>) {
    forall i, j :: 0 <= i < j < |routes| && routes[i].IsSitemap() && routes[j].IsSitemap() ==> routes[i].name != routes[j].name
  }

  /** The block of find_all and find: a sitemap route with this name. */
  function NamedAs(name: Option<string>): Route -> bool {
    (r: Route) => SitemapNamed(r, name)
  }

  /** find_all after the append finds more than one route exactly when a
      sitemap route of that name was there before. */
  lemma NamedCount(routes: seq<Route>, m: Route)
    requires m.IsSitemap()
    ensures |Select(routes + [m], NamedAs(m.name))| > 1 <==> exists r :: r in routes && SitemapNamed(r, m.name)
  {
    var named := NamedAs(m.name);
    SelectAppend(routes, [m], named);
    assert Select([m], named) == [m] by {
      assert [m][1..] == [];
    }
    var before := Select(routes, named);
    if exists r :: r in routes && SitemapNamed(r, m.name) {
      var r :| r in routes && SitemapNamed(r, m.name);
      assert named(r);
      assert r in before;
    }
    if |before| > 0 {
      assert before[0] in before;
    }
  }

  /** Append the marked route, and pop it again when a sitemap route of that
      name is already registered. */
  function AppendSitemap(routes: seq<Route>, m: Route): (rs: seq<Route>)
    requires m.IsSitemap()
    ensures (exists r :: r in routes && SitemapNamed(r, m.name)) ==> rs == routes
    ensures !(exists r :: r in routes && SitemapNamed(r, m.name)) ==> rs == routes + [m]
  {
    NamedCount(routes, m);
    if |Select(routes + [m], NamedAs(m.name))| > 1 then routes else routes + [m]
  }

  /** The route set keeps one route per sitemap name, and the earliest one. */
  lemma AppendKeepsNamesUnique(routes: seq<Route>, m: Route)
    requires m.IsSitemap() && UniqueSitemaps(routes)
    ensures UniqueSitemaps(AppendSitemap(routes, m))
    ensures |AppendSitemap(routes, m)| >= |routes| && AppendSitemap(routes, m)[..|routes|] == routes
  {
    var rs := AppendSitemap(routes, m);
    if rs != routes {
      assert rs == routes + [m];
      forall i, j | 0 <= i < j < |rs| && rs[i].IsSitemap() && rs[j].IsSitemap() ensures rs[i].name != rs[j].name {
        if j == |routes| {
          assert rs[i] in routes;
          assert !SitemapNamed(rs[i], m.name);
        } else {
          assert rs[i] == routes[i] && rs[j] == routes[j];
        }
      }
    }
  }

  /** The second find: the new route when its name was free, else the
      earliest sitemap route already registered under it. */
  lemma AppendedFound(routes: seq<Route>, m: Route)
    requires m.IsSitemap()
    ensures FirstIndex(AppendSitemap(routes, m), NamedAs(m.name)).Some?
    ensures (exists r :: r in routes && SitemapNamed(r, m.name)) ==>
      FirstIndex(AppendSitemap(routes, m), NamedAs(m.name)) == FirstIndex(routes, NamedAs(m.name))
    ensures !(exists r :: r in routes && SitemapNamed(r, m.name)) ==>
      FirstIndex(AppendSitemap(routes, m), NamedAs(m.name)) == Some(|routes|)
  {
    var named := NamedAs(m.name);
    var rs := AppendSitemap(routes, m);
    if exists r :: r in routes && SitemapNamed(r, m.name) {
      var r :| r in routes && SitemapNamed(r, m.name);
      var k :| 0 <= k < |routes| && routes[k] == r;
      assert rs == routes;
      assert named(rs[k]);
    } else {
      assert rs == routes + [m];
      assert named(rs[|routes|]);
      forall j | 0 <= j < |routes|
        ensures !named(rs[j])
      {
        assert rs[j] == routes[j] && routes[j] in routes;
      }
      var found := FirstIndex(rs, named);
      assert found.Some? && found.value == |routes|;
    }
  }

  /** Every sitemap route carries its sitemap route name: the sitemap
      declaration sets both together. */
  predicate SitemapsNamed(routes: seq<Route>) {
    forall i :: 0 <= i < |routes| && routes[i].IsSitemap() ==> routes[i].sitemapRouteName.Some?
  }

  /** run_filter on one route: a route not yet claimed gets the sitemap's
      name and, as its availability, the verdict of include_route?. */
  function ClaimOne(r: Route, srn: string, scope: Scope, blankFlag: Option<bool>, rx: Matcher): (c: Route)
    requires WellFormed(r)
    ensures !BlankOpt(r.sitemapRouteName) ==> c == r
    ensures BlankOpt(r.sitemapRouteName) ==> c.sitemapRouteName == Some(srn)
    ensures BlankOpt(r.sitemapRouteName) ==> c.available == Some(IncludeRoute(Some(r), scope, blankFlag, rx))
    ensures c == r.(sitemapRouteName := c.sitemapRouteName, available := c.available)
    ensures WellFormed(c)
  {
    if BlankOpt(r.sitemapRouteName) then
      var c := r.(sitemapRouteName := Some(srn), available := Some(IncludeRoute(Some(r), scope, blankFlag, rx)));
      assert c.DuckmapDefaults("include_names") == r.DuckmapDefaults("include_names");
      c
    else r
  }

  /** The routes after run_filter from a start index. */
  function Claimed(routes: seq<Route>, srn: string, start: nat, scope: Scope, blankFlag: Option<bool>, rx: Matcher): (rs: seq<Route>)
    requires AllWellFormed(routes)
    ensures |rs| == |routes|
  {
    seq(|routes|, i requires 0 <= i < |routes| =>
      if i < start then routes[i] else ClaimOne(routes[i], srn, scope, blankFlag, rx))
  }

  /** A route run_filter counts: newly claimed and available. */
  predicate Counted(r: Route, scope: Scope, blankFlag: Option<bool>, rx: Matcher)
    requires r.NamesConvertible()
  {
    BlankOpt(r.sitemapRouteName) && IncludeRoute(Some(r), scope, blankFlag, rx)
  }

  /** The number of routes from index lo below index hi that run_filter counts. */
  function CountFrom(routes: seq<Route>, lo: nat, hi: nat, scope: Scope, blankFlag: Option<bool>, rx: Matcher): (n: nat)
    requires AllWellFormed(routes) && hi <= |routes|
    ensures n <= if lo <= hi then hi - lo else 0
    decreases hi
  {
    if lo >= hi then 0
    else CountFrom(routes, lo, hi - 1, scope, blankFlag, rx) + (if Counted(routes[hi - 1], scope, blankFlag, rx) then 1 else 0)
  }

  /** First write wins: run_filter leaves the routes before the start index
      and every route already claimed exactly as they were, and claims every
      other route for the sitemap. */
  lemma ClaimFirstWriteWins(routes: seq<Route>, srn: string, start: nat, scope: Scope, blankFlag: Option<bool>, rx: Matcher)
    requires AllWellFormed(routes)
    ensures forall i :: 0 <= i < |routes| && (i < start || !BlankOpt(routes[i].sitemapRouteName)) ==>
      Claimed(routes, srn, start, scope, blankFlag, rx)[i] == routes[i]
    ensures forall i :: start <= i < |routes| && BlankOpt(routes[i].sitemapRouteName) ==>
      Claimed(routes, srn, start, scope, blankFlag, rx)[i].sitemapRouteName == Some(srn)
  {
  }

  /** Claiming only fills blank sitemap route names and availability: what
      the model needs of the routes carries over. */
  lemma ClaimedWellFormed(routes: seq<Route>, srn: string, start: nat, scope: Scope, blankFlag: Option<bool>, rx: Matcher)
    requires AllWellFormed(routes)
    ensures AllWellFormed(Claimed(routes, srn, start, scope, blankFlag, rx))
    ensures SitemapsNamed(routes) ==> SitemapsNamed(Claimed(routes, srn, start, scope, blankFlag, rx))
  {
    var rs := Claimed(routes, srn, start, scope, blankFlag, rx);
    forall i | 0 <= i < |rs| ensures WellFormed(rs[i]) && rs[i].IsSitemap() == routes[i].IsSitemap()
      ensures routes[i].sitemapRouteName.Some? ==> rs[i].sitemapRouteName.Some?
    {
      assert WellFormed(routes[i]);
      assert rs[i] == if i < start then routes[i] else ClaimOne(routes[i], srn, scope, blankFlag, rx);
    }
  }

  /** An inner sitemap block runs its run_filter before the outer block's,
      and the routes it claimed keep the inner name. */
  lemma NestedBlocksKeepInnerClaims(routes: seq<Route>, inner: string, outer: string, s1: nat, s2: nat,
                                     scope1: Scope, scope2: Scope, blankFlag: Option<bool>, rx: Matcher)
    requires AllWellFormed(routes) && s1 <= s2 && !BlankString(inner)
    ensures AllWellFormed(Claimed(routes, inner, s2, scope2, blankFlag, rx))
    ensures forall i :: s2 <= i < |routes| ==>
      Claimed(Claimed(routes, inner, s2, scope2, blankFlag, rx), outer, s1, scope1, blankFlag, rx)[i].sitemapRouteName ==
      (if BlankOpt(routes[i].sitemapRouteName) then Some(inner) else routes[i].sitemapRouteName)
  {
    var once := Claimed(routes, inner, s2, scope2, blankFlag, rx);
    ClaimedWellFormed(routes, inner, s2, scope2, blankFlag, rx);
    ClaimFirstWriteWins(routes, inner, s2, scope2, blankFlag, rx);
    ClaimFirstWriteWins(once, outer, s1, scope1, blankFlag, rx);
  }

  /** The routes after the sitemap declaration up to its block: the marked
      route appended unless its name is taken, and the sitemap route of that
      name flagged. */
  function Declared(routes: seq<Route>, matched: Route, name: Value, options: map<string, Value>, withBlock: bool): (rs: seq<Route>)
    requires matched.name.Some?
  {
    var appended := AppendSitemap(routes, Marked(matched, name, options));
    AppendedFound(routes, Marked(matched, name, options));
    var k := FirstIndex(appended, NamedAs(matched.name)).value;
    appended[k := appended[k].(sitemapWithBlock := Some(appended[k].WithBlock() || withBlock))]
  }

  /** The marked route keeps what the model needs of a route and carries
      its sitemap route name. */
  lemma MarkedValid(matched: Route, name: Value, options: map<string, Value>)
    requires matched.name.Some? && matched.NamesConvertible()
    ensures WellFormed(Marked(matched, name, options))
    ensures Marked(matched, name, options).sitemapRouteName.Some?
  {
    var m := Marked(matched, name, options);
    assert m.DuckmapDefaults("include_names") == matched.DuckmapDefaults("include_names");
  }

  /** Appending a well-formed, named sitemap route keeps the routes valid. */
  lemma AppendValid(routes: seq<Route>, m: Route)
    requires AllWellFormed(routes) && SitemapsNamed(routes)
    requires m.IsSitemap() && WellFormed(m) && m.sitemapRouteName.Some?
    ensures AllWellFormed(AppendSitemap(routes, m)) && SitemapsNamed(AppendSitemap(routes, m))
  {
    var rs := AppendSitemap(routes, m);
    forall i | 0 <= i < |rs|
      ensures WellFormed(rs[i]) && (rs[i].IsSitemap() ==> rs[i].sitemapRouteName.Some?)
    {
      if i < |routes| {
        assert rs[i] == routes[i];
      }
    }
  }

  /** Setting the with-block flag of one route keeps the routes valid. */
  lemma FlagValid(rs: seq<Route>, k: nat, withBlock: bool)
    requires AllWellFormed(rs) && SitemapsNamed(rs) && k < |rs|
    ensures var flagged := rs[k := rs[k].(sitemapWithBlock := Some(rs[k].WithBlock() || withBlock))];
      AllWellFormed(flagged) && SitemapsNamed(flagged)
  {
    var f := rs[k].(sitemapWithBlock := Some(rs[k].WithBlock() || withBlock));
    assert WellFormed(rs[k]);
    assert f.DuckmapDefaults("include_names") == rs[k].DuckmapDefaults("include_names");
    assert WellFormed(f);
  }

  /** What the model needs of the routes survives the declaration. */
  lemma BeginKeepsValid(routes: seq<Route>, matched: Route, name: Value, options: map<string, Value>, withBlock: bool)
    requires AllWellFormed(routes) && SitemapsNamed(routes)
    requires matched.name.Some? && matched.NamesConvertible()
    ensures AllWellFormed(Declared(routes, matched, name, options, withBlock))
    ensures SitemapsNamed(Declared(routes, matched, name, options, withBlock))
  {
    var m := Marked(matched, name, options);
    MarkedValid(matched, name, options);
    AppendValid(routes, m);
    var appended := AppendSitemap(routes, m);
    AppendedFound(routes, m);
    var k := FirstIndex(appended, NamedAs(matched.name)).value;
    FlagValid(appended, k, withBlock);
  }

  /** The append of the marked route, popped again when find_all finds its
      name twice. */
  method AppendOnce(routes: seq<Route>, m: Route) returns (rs: seq<Route>)
    requires m.IsSitemap()
    ensures rs == AppendSitemap(routes, m)
  {
    rs := routes + [m];
    if |Select(rs, NamedAs(m.name))| > 1 {
      rs := rs[..|rs| - 1];
    }
  }

  /** The route-set edit of the sitemap declaration, step by step: append
      the marked route, pop it when find_all finds its name twice, then flag
      the route find finds. */
  method DeclareRoutes(routes: seq<Route>, matched: Route, name: Value, options: map<string, Value>, withBlock: bool)
    returns (rs: seq<Route>, k: nat)
    requires matched.name.Some?
    ensures rs == Declared(routes, matched, name, options, withBlock)
    ensures k < |rs| && Find(rs, NamedAs(matched.name)) == Some(rs[k])
  {
    var m := Marked(matched, name, options);
    rs := AppendOnce(routes, m);
    var named := NamedAs(matched.name);
    AppendedFound(routes, m);
    k := FirstIndex(rs, named).value;
    rs := rs[k := rs[k].(sitemapWithBlock := Some(rs[k].WithBlock() || withBlock))];
    FindIsFirst(rs, named, k);
  }

  /** Declaring a sitemap finds its route under the name, and the route
      carries the with-block flag once any declaration of it had a block. */
  lemma DeclaredFlag(routes: seq<Route>, matched: Route, name: Value, options: map<string, Value>, withBlock: bool)
    requires matched.name.Some?
    ensures var rs := Declared(routes, matched, name, options, withBlock);
      Find(rs, NamedAs(matched.name)).Some? &&
      Find(AppendSitemap(routes, Marked(matched, name, options)), NamedAs(matched.name)).Some? &&
      Find(rs, NamedAs(matched.name)).value.WithBlock() ==
        (withBlock || Find(AppendSitemap(routes, Marked(matched, name, options)), NamedAs(matched.name)).value.WithBlock())
    ensures |Declared(routes, matched, name, options, withBlock)| >= |routes|
  {
    var m := Marked(matched, name, options);
    var appended := AppendSitemap(routes, m);
    AppendedFound(routes, m);
    var k := FirstIndex(appended, NamedAs(matched.name)).value;
    FindIsFirst(appended, NamedAs(matched.name), k);
    var rs := Declared(routes, matched, name, options, withBlock);
    FindIsFirst(rs, NamedAs(matched.name), k);
  }

  /** Routes appended after the first match leave find's answer alone. */
  lemma FindInPrefix(a: seq<Route>, b: seq<Route>, p: Route -> bool)
    requires Find(a, p).Some?
    ensures Find(a + b, p) == Find(a, p)
  {
    var k := FirstIndex(a, p).value;
    FindIsFirst(a + b, p, k);
  }

  /** Once the route found under a name has the flag, declaring it again
      keeps the flag, with a block or without. */
  lemma FlagKept(routes: seq<Route>, again: Route, name: Value, options: map<string, Value>, withBlock: bool)
    requires again.name.Some?
    requires Find(routes, NamedAs(again.name)).Some? && Find(routes, NamedAs(again.name)).value.WithBlock()
    ensures Find(Declared(routes, again, name, options, withBlock), NamedAs(again.name)).Some? &&
            Find(Declared(routes, again, name, options, withBlock), NamedAs(again.name)).value.WithBlock()
  {
    var m := Marked(again, name, options);
    var f := Find(routes, NamedAs(again.name)).value;
    assert SitemapNamed(f, m.name);
    assert AppendSitemap(routes, m) == routes;
    DeclaredFlag(routes, again, name, options, withBlock);
  }

  /** A later declaration without a block never clears the flag: the routes
      of one sitemap may be wrapped in several blocks. */
  lemma BlockFlagSticks(routes: seq<Route>, matched: Route, again: Route, name: Value, options: map<string, Value>, later: seq<Route>)
    requires matched.name.Some? && again.name == matched.name
    ensures var rs := Declared(routes, matched, name, options, true) + later;
      Find(Declared(rs, again, name, options, false), NamedAs(matched.name)).Some? &&
      Find(Declared(rs, again, name, options, false), NamedAs(matched.name)).value.WithBlock()
  {
    var first := Declared(routes, matched, name, options, true);
    DeclaredFlag(routes, matched, name, options, true);
    FindInPrefix(first, later, NamedAs(matched.name));
    FlagKept(first + later, again, name, options, false);
  }

  /** The loop state of run_filter: the routes from start below index are claimed. */
  ghost predicate ClaimedUpTo(cur: seq<Route>, routes: seq<Route>, srn: string, start: nat, index: nat,
                              scope: Scope, blankFlag: Option<bool>, rx: Matcher)
    requires AllWellFormed(routes)
  {
    |cur| == |routes| &&
    forall i :: 0 <= i < |routes| ==>
      cur[i] == if start <= i < index then ClaimOne(routes[i], srn, scope, blankFlag, rx) else routes[i]
  }

  /** One turn of run_filter's loop. */
  lemma ClaimStep(cur: seq<Route>, routes: seq<Route>, srn: string, start: nat, index: nat,
                  scope: Scope, blankFlag: Option<bool>, rx: Matcher)
    requires AllWellFormed(routes) && start <= index < |routes|
    requires ClaimedUpTo(cur, routes, srn, start, index, scope, blankFlag, rx)
    ensures cur[index] == routes[index] && WellFormed(cur[index])
    ensures ClaimedUpTo(cur[index := ClaimOne(cur[index], srn, scope, blankFlag, rx)], routes, srn, start, index + 1, scope, blankFlag, rx)
    ensures CountFrom(routes, start, index + 1, scope, blankFlag, rx) ==
            CountFrom(routes, start, index, scope, blankFlag, rx) + (if Counted(routes[index], scope, blankFlag, rx) then 1 else 0)
  {
    assert WellFormed(routes[index]);
  }

  /** One turn of run_filter's loop on the route at index: claimed when its
      sitemap route name is blank, and counted when it is also available. */
  method ClaimAt(routes: seq<Route>, index: nat, srn: string, scope: Scope, blankFlag: Option<bool>, rx: Matcher)
    returns (next: seq<Route>, counted: bool)
    requires index < |routes| && WellFormed(routes[index])
    ensures next == routes[index := ClaimOne(routes[index], srn, scope, blankFlag, rx)]
    ensures counted == Counted(routes[index], scope, blankFlag, rx)
  {
    var route := routes[index];
    next := routes;
    counted := false;
    if BlankOpt(route.sitemapRouteName) {
      var available := IncludeRoute(Some(route), scope, blankFlag, rx);
      next := routes[index := route.(sitemapRouteName := Some(srn), available := Some(available))];
      counted := available;
    }
  }

  /** run_filter's loop over the routes from start on. The index runs past
      the end, where there is no route. */
  method ClaimLoop(routes: seq<Route>, srn: string, start: nat, scope: Scope, blankFlag: Option<bool>, rx: Matcher)
    returns (claimed: seq<Route>, total: nat)
    requires AllWellFormed(routes)
    ensures claimed == Claimed(routes, srn, start, scope, blankFlag, rx)
    ensures total == CountFrom(routes, start, |routes|, scope, blankFlag, rx)
  {
    claimed := routes;
    total := 0;
    var index := start;
    var last := |routes| + 1;
    while index <= last
      invariant start <= index && (index <= last + 1 || index == start)
      invariant ClaimedUpTo(claimed, routes, srn, start, index, scope, blankFlag, rx)
      invariant total == CountFrom(routes, start, if index < |routes| then index else |routes|, scope, blankFlag, rx)
      decreases last + 1 - index
    {
      if index < |claimed| {
        ClaimStep(claimed, routes, srn, start, index, scope, blankFlag, rx);
        var counted;
        claimed, counted := ClaimAt(claimed, index, srn, scope, blankFlag, rx);
        if counted {
          total := total + 1;
        }
      } else {
        ClaimPast(claimed, routes, srn, start, index, scope, blankFlag, rx);
      }
      index := index + 1;
    }
    ClaimEnds(claimed, routes, srn, start, index, scope, blankFlag, rx);
  }

  /** A turn past the last route changes nothing. */
  lemma ClaimPast(cur: seq<Route>, routes: seq<Route>, srn: string, start: nat, index: nat,
                  scope: Scope, blankFlag: Option<bool>, rx: Matcher)
    requires AllWellFormed(routes) && index >= |routes|
    requires ClaimedUpTo(cur, routes, srn, start, index, scope, blankFlag, rx)
    ensures ClaimedUpTo(cur, routes, srn, start, index + 1, scope, blankFlag, rx)
  {
  }

  /** Past the last route, the loop state is the claimed routes. */
  lemma ClaimEnds(cur: seq<Route>, routes: seq<Route>, srn: string, start: nat, index: nat,
                  scope: Scope, blankFlag: Option<bool>, rx: Matcher)
    requires AllWellFormed(routes) && index >= |routes|
    requires ClaimedUpTo(cur, routes, srn, start, index, scope, blankFlag, rx)
    ensures cur == Claimed(routes, srn, start, scope, blankFlag, rx)
  {
    var rs := Claimed(routes, srn, start, scope, blankFlag, rx);
    forall i | 0 <= i < |routes| ensures cur[i] == rs[i] {
      assert WellFormed(routes[i]);
    }
  }

  /** What sitemap hands from the start of a block to its end: the sitemap
      route name the block's routes get and the index of the first of them. */
  datatype Frame = Frame(sitemapRouteName: string, startPoint: nat)

  /** The mapper of config/routes.rb, bound to one route set. */
  class Mapper {

    const routeSet: RouteSet

    ghost predicate Valid()
      reads this, routeSet, routeSet.filters
    {
      routeSet.Valid() && SitemapsNamed(routeSet.routes)
    }

    constructor (routeSet: RouteSet)
      requires routeSet.Valid() && SitemapsNamed(routeSet.routes)
      ensures Valid() && this.routeSet == routeSet
    {
      this.routeSet := routeSet;
    }

    /** A route the block defines (match, resources and the like). */
    method AddRoute(r: Route)
      requires Valid() && WellFormed(r) && (r.IsSitemap() ==> r.sitemapRouteName.Some?)
      modifies routeSet
      ensures Valid()
      ensures routeSet.routes == old(routeSet.routes) + [r] && routeSet.blankRouteName == old(routeSet.blankRouteName)
    {
      routeSet.AddRoute(r);
    }

    /** sitemap(name, options, &block), up to the yield. The router has just
        appended `matched`; it is marked as a sitemap and popped again when
        its name is taken. The sitemap route found under that name gets the
        with-block flag, which never goes back to false. With a block, the
        filter scope is pushed and the frame for EndSitemap comes back. */
    method BeginSitemap(name: Value, options: map<string, Value>, matched: Route, withBlock: bool) returns (frame: Option<Frame>)
      requires Valid() && matched.name.Some? && matched.NamesConvertible()
      modifies routeSet, routeSet.filters
      ensures Valid()
      ensures routeSet.routes == Declared(old(routeSet.routes), matched, name, options, withBlock)
      ensures withBlock ==> (frame.Some? && frame.value.startPoint == |routeSet.routes| &&
        Find(routeSet.routes, NamedAs(matched.name)).Some? &&
        Some(frame.value.sitemapRouteName) == Find(routeSet.routes, NamedAs(matched.name)).value.sitemapRouteName)
      ensures withBlock <==> frame.Some?
      ensures withBlock ==> routeSet.filters.stack == old(routeSet.filters.stack) + [old(routeSet.filters.CurrentFilter())]
      ensures !withBlock ==> routeSet.filters.stack == old(routeSet.filters.stack)
      ensures routeSet.blankRouteName == old(routeSet.blankRouteName)
    {
      var routes, k := DeclareRoutes(routeSet.routes, matched, name, options, withBlock);
      BeginKeepsValid(old(routeSet.routes), matched, name, options, withBlock);
      routeSet.routes := routes;
      if withBlock {
        routeSet.filters.Push();
        frame := Some(Frame(routes[k].sitemapRouteName.value, |routes|));
      } else {
        frame := None;
      }
    }

    /** sitemap(name, options, &block), after the yield: run_filter under the
        block's scope, then pop it. */
    method EndSitemap(frame: Frame) returns (total: nat)
      requires Valid()
      modifies routeSet, routeSet.filters
      ensures Valid()
      ensures routeSet.routes == Claimed(old(routeSet.routes), frame.sitemapRouteName, frame.startPoint,
                                         old(routeSet.CurrentScope()), old(routeSet.blankRouteName), routeSet.rx)
      ensures total == CountFrom(old(routeSet.routes), frame.startPoint, |old(routeSet.routes)|,
                                 old(routeSet.CurrentScope()), old(routeSet.blankRouteName), routeSet.rx)
      ensures |old(routeSet.filters.stack)| > 1 ==> routeSet.filters.stack == old(routeSet.filters.stack)[..|old(routeSet.filters.stack)| - 1]
      ensures |old(routeSet.filters.stack)| == 1 ==> routeSet.filters.stack == old(routeSet.filters.stack)
      ensures routeSet.blankRouteName == old(routeSet.blankRouteName)
    {
      total := RunFilter(frame.sitemapRouteName, frame.startPoint);
      var top := routeSet.filters.Pop();
    }

    /** run_filter: every route from start_point on whose sitemap route name
        is blank is claimed and gets its availability; the total counts the
        available ones. The index runs past the end, where there is no route. */
    method RunFilter(srn: string, start: nat) returns (total: nat)
      requires Valid()
      modifies routeSet
      ensures Valid()
      ensures routeSet.routes == Claimed(old(routeSet.routes), srn, start, routeSet.CurrentScope(), routeSet.blankRouteName, routeSet.rx)
      ensures total == CountFrom(old(routeSet.routes), start, |old(routeSet.routes)|, routeSet.CurrentScope(), routeSet.blankRouteName, routeSet.rx)
      ensures routeSet.blankRouteName == old(routeSet.blankRouteName)
    {
      var claimed;
      claimed, total := ClaimLoop(routeSet.routes, srn, start, routeSet.CurrentScope(), routeSet.blankRouteName, routeSet.rx);
      ClaimedWellFormed(routeSet.routes, srn, start, routeSet.CurrentScope(), routeSet.blankRouteName, routeSet.rx);
      routeSet.routes := claimed;
    }

    /** allow_blank_route_name. */
    method AllowBlankRouteName(value: Option<bool>)
      requires Valid()
      modifies routeSet
      ensures Valid() && routeSet.blankRouteName == value && routeSet.routes == old(routeSet.routes)
    {
      routeSet.blankRouteName := value;
    }

    /** include_actions, include_controllers, include_names, include_verbs. */
    method IncludeTokens(key: Category, args: seq<Value>) returns (ok: bool)
      requires Valid()
      modifies routeSet.filters
      ensures Valid()
      ensures ok == Tokens(key, args).Some?
      ensures ok ==> routeSet.filters.stack == old(routeSet.filters.stack)[..|old(routeSet.filters.stack)| - 1] +
                     [Edited(old(routeSet.filters.CurrentFilter()), Include, key, Tokens(key, args).value)]
      ensures !ok ==> routeSet.filters.stack == old(routeSet.filters.stack)
    {
      ok := routeSet.filters.IncludeFilter(key, args);
    }

    /** exclude_actions, exclude_controllers, exclude_names, exclude_verbs. */
    method ExcludeTokens(key: Category, args: seq<Value>) returns (ok: bool)
      requires Valid()
      modifies routeSet.filters
      ensures Valid()
      ensures ok == Tokens(key, args).Some?
      ensures ok ==> routeSet.filters.stack == old(routeSet.filters.stack)[..|old(routeSet.filters.stack)| - 1] +
                     [Edited(old(routeSet.filters.CurrentFilter()), Exclude, key, Tokens(key, args).value)]
      ensures !ok ==> routeSet.filters.stack == old(routeSet.filters.stack)
    {
      ok := routeSet.filters.ExcludeFilter(key, args);
    }

    /** clear_filters. */
    method ClearFilters()
      requires Valid()
      modifies routeSet.filters
      ensures Valid()
      ensures routeSet.filters.stack == old(routeSet.filters.stack)[..|old(routeSet.filters.stack)| - 1] + [EmptyFilter]
    {
      routeSet.filters.ClearFilters();
    }

    /** clear_filter(section, key). mapper.rb passes both arguments on to the
        one-argument FilterStack#clear_filter, which raises ArgumentError in
        Ruby; the model drops the section and empties the key's list of the
        flat top scope instead. */
    method ClearFilter(section: Value, key: Category)
      requires Valid()
      modifies routeSet.filters
      ensures Valid()
      ensures routeSet.filters.stack ==
              old(routeSet.filters.stack)[..|old(routeSet.filters.stack)| - 1] + [old(routeSet.filters.CurrentFilter()).Set(key, [])]
    {
      routeSet.filters.ClearFilter(key);
    }

    /** reset_filters. */
    method ResetFilters()
      requires Valid()
      modifies routeSet.filters
      ensures Valid() && routeSet.filters.stack == [DefaultFilter]
    {
      routeSet.filters.Reset();
    }
  }
}
