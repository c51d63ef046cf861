/** DuckMap::RouteFilter: whether a route belongs in a sitemap, decided by
    route-level include/exclude lists and by the include/exclude lists of the
    current filter scope, with a fixed precedence. The exceptions of the
    original are control flow only, so the decision is a function. */
module RouteFilter {

  import opened Values
  import opened Filters
  import opened Routes

  /** Regexp matching: does the pattern with this source match the text? The
      regular-expression engine is a parameter of the model. */
  type Matcher = (string, string) -> bool

  /** The scope shape include_route? reads: current_filter[:include] and current_filter[:exclude]. */
  datatype Scope = Scope(includes: Filter, excludes: Filter)

  /** The flat scope of filter_stack.rb read as the include half of a scope
      that excludes nothing. */
  function AsScope(f: Filter): (s: Scope)
    ensures s.includes == f && s.excludes == EmptyFilter
  {
    Scope(f, EmptyFilter)
  }

  /** blank_route_name?: false when unset. */
  function AllowBlankNames(flag: Option<bool>): (allow: bool)
    ensures allow <==> flag == Some(true)
  {
    if flag.None? then false else flag.value
  }

  /** One token of match_any? against non-blank String or Symbol data. */
  predicate TokenMatches(text: string, token: Value, rx: Matcher) {
    match token
    case Str(s) => Downcase(text) == Downcase(s) || s == "all"
    case Sym(n) => Downcase(text) == n || n == "all"
    case Pat(src) => rx(src, text)
    case _ => false
  }

  /** What match_any? iterates over: an Array as it is, anything else as a
      one-element list. */
  function AsTokens(values: Value): (tokens: seq<Value>)
    ensures values.List? ==> tokens == values.items
    ensures !values.List? ==> tokens == [values]
  {
    if values.List? then values.items else [values]
  }

  /** match_any?: the loop that returns true at the first matching token. */
  function MatchFrom(text: string, tokens: seq<Value>, rx: Matcher): bool {
    if tokens == [] then false
    else if TokenMatches(text, tokens[0], rx) then true
    else MatchFrom(text, tokens[1..], rx)
  }

  /** The loop of match_any? finds a match exactly when some token matches. */
  lemma {:induction false} MatchFromExists(text: string, tokens: seq<Value>, rx: Matcher)
    ensures MatchFrom(text, tokens, rx) <==> exists i :: 0 <= i < |tokens| && TokenMatches(text, tokens[i], rx)
  {
    if tokens != [] {
      MatchFromExists(text, tokens[1..], rx);
      if exists i :: 0 <= i < |tokens| && TokenMatches(text, tokens[i], rx) {
        var i :| 0 <= i < |tokens| && TokenMatches(text, tokens[i], rx);
        if i > 0 {
          assert tokens[1..][i - 1] == tokens[i];
        }
      }
      if exists i :: 0 <= i < |tokens[1..]| && TokenMatches(text, tokens[1..][i], rx) {
        var i :| 0 <= i < |tokens[1..]| && TokenMatches(text, tokens[1..][i], rx);
        assert tokens[i + 1] == tokens[1..][i];
      }
    }
  }

  /** The data match_any? gets: nil, a String or a Symbol. */
  predicate Datum(data: Value) {
    data.Nil? || data.Str? || data.Sym?
  }

  /** match_any?: false for blank data; otherwise whether some token matches. */
  function MatchAny(data: Value, values: Value, rx: Matcher): (r: bool)
    requires Datum(data)
    ensures Blank(data) ==> !r
    ensures r ==> exists i :: 0 <= i < |AsTokens(values)| && TokenMatches(Text(data), AsTokens(values)[i], rx)
    ensures !Blank(data) && (exists i :: 0 <= i < |AsTokens(values)| && TokenMatches(Text(data), AsTokens(values)[i], rx)) ==> r
  {
    if Blank(data) then false
    else
      MatchFromExists(Text(data), AsTokens(values), rx);
      MatchFrom(Text(data), AsTokens(values), rx)
  }

  /** "all" (as a String or a Symbol) matches any non-blank data. */
  lemma AllMatchesEverything(data: Value, tokens: seq<Value>, rx: Matcher)
    requires Datum(data) && !Blank(data)
    requires Str("all") in tokens || Sym("all") in tokens
    ensures MatchAny(data, List(tokens), rx)
  {
    var i :| 0 <= i < |tokens| && (tokens[i] == Str("all") || tokens[i] == Sym("all"));
    assert TokenMatches(Text(data), tokens[i], rx);
  }

  /** A Symbol token is compared with the downcased data but is not downcased
      itself: :Show never matches, while "Show" matches show. */
  lemma SymbolTokensAreNotDowncased(rx: Matcher)
    ensures !MatchAny(Str("show"), Sym("Show"), rx)
    ensures MatchAny(Str("show"), Str("Show"), rx)
    ensures MatchAny(Str("Show"), Sym("show"), rx)
  {
    assert Downcase("show") == "show";
    assert Downcase("Show") == "show";
    assert AsTokens(Sym("Show")) == [Sym("Show")];
    assert !TokenMatches("show", Sym("Show"), rx);
  }

  /** Matching more tokens never loses a match. */
  lemma MatchAnyMonotone(data: Value, small: seq<Value>, large: seq<Value>, rx: Matcher)
    requires Datum(data)
    requires forall x :: x in small ==> x in large
    ensures MatchAny(data, List(small), rx) ==> MatchAny(data, List(large), rx)
  {
    if MatchAny(data, List(small), rx) {
      var i :| 0 <= i < |small| && TokenMatches(Text(data), small[i], rx);
      assert small[i] in large;
      var j :| 0 <= j < |large| && large[j] == small[i];
    }
  }

  /** The data each category compares: action_name, verb_symbol, controller_name, name. */
  function DataOf(route: Route, c: Category): (data: Value)
    ensures Datum(data)
  {
    match c
    case Actions => Str(route.ActionName())
    case Verbs => route.VerbSymbol()
    case Controllers => Str(route.ControllerName())
    case Names => if route.name.Some? then Str(route.name.value) else Nil
  }

  /** Does the route-level list of a category (include_* or exclude_*) match? */
  predicate RouteListMatches(route: Route, exclude: bool, c: Category, rx: Matcher)
    requires route.NamesConvertible()
  {
    MatchAny(DataOf(route, c), List(route.RouteTokens(exclude, c)), rx)
  }

  /** Any of the four route-level lists of one kind, in the order actions, controllers, names, verbs. */
  predicate RouteLevel(route: Route, exclude: bool, rx: Matcher)
    requires route.NamesConvertible()
  {
    RouteListMatches(route, exclude, Actions, rx) ||
    RouteListMatches(route, exclude, Controllers, rx) ||
    RouteListMatches(route, exclude, Names, rx) ||
    RouteListMatches(route, exclude, Verbs, rx)
  }

  /** Does a scope list of a category match? */
  predicate ScopeListMatches(route: Route, f: Filter, c: Category, rx: Matcher) {
    MatchAny(DataOf(route, c), List(f.Get(c)), rx)
  }

  /** Any of the four scope lists of one filter, in the order actions, verbs, controllers, names. */
  predicate ScopeLevel(route: Route, f: Filter, rx: Matcher) {
    ScopeListMatches(route, f, Actions, rx) ||
    ScopeListMatches(route, f, Verbs, rx) ||
    ScopeListMatches(route, f, Controllers, rx) ||
    ScopeListMatches(route, f, Names, rx)
  }

  /** The paths include_route? never accepts: ones containing
      /rails/info/properties and ones with /assets at the start of a line. */
  predicate Blacklisted(path: string) {
    Contains(path, "/rails/info/properties") || AtLineStart(path, "/assets")
  }

  /** include_route?. A nil route is never included. The route-level include
      lists win over everything, the scope's excludes over its includes, and
      a route nothing mentions is left out. */
  predicate IncludeRoute(route: Option<Route>, scope: Scope, blankFlag: Option<bool>, rx: Matcher)
    requires route.Some? ==> route.value.NamesConvertible()
  {
    if route.None? || Blacklisted(route.value.path) then false
    else
      var r := route.value;
      if BlankOpt(r.name) && !AllowBlankNames(blankFlag) then false
      else if RouteLevel(r, true, rx) then RouteLevel(r, false, rx)
      else if RouteLevel(r, false, rx) then true
      else if ScopeLevel(r, scope.excludes, rx) then false
      else ScopeLevel(r, scope.includes, rx)
  }

  /** The verdict as one formula: an accepted route passed the path and name
      checks, and is either included at route level, or else matched by no
      route-level exclude, no scope exclude, and some scope include. */
  lemma IncludeRouteMeans(route: Route, scope: Scope, blankFlag: Option<bool>, rx: Matcher)
    requires route.NamesConvertible()
    ensures !IncludeRoute(None, scope, blankFlag, rx)
    ensures IncludeRoute(Some(route), scope, blankFlag, rx) <==>
      !Blacklisted(route.path) &&
      (!BlankOpt(route.name) || blankFlag == Some(true)) &&
      (RouteLevel(route, false, rx) ||
       (!RouteLevel(route, true, rx) && !ScopeLevel(route, scope.excludes, rx) && ScopeLevel(route, scope.includes, rx)))
  {
  }

  /** A route-level exclude decides alone with the route-level includes: the scope is never read. */
  lemma RouteExcludeIgnoresScope(route: Route, s1: Scope, s2: Scope, blankFlag: Option<bool>, rx: Matcher)
    requires route.NamesConvertible()
    requires RouteLevel(route, true, rx)
    ensures IncludeRoute(Some(route), s1, blankFlag, rx) == IncludeRoute(Some(route), s2, blankFlag, rx)
  {
  }

  /** Without a route-level include, a scope exclude leaves the route out. */
  lemma ScopeExcludeWins(route: Route, scope: Scope, blankFlag: Option<bool>, rx: Matcher)
    requires route.NamesConvertible()
    requires !RouteLevel(route, false, rx) && ScopeLevel(route, scope.excludes, rx)
    ensures !IncludeRoute(Some(route), scope, blankFlag, rx)
  {
  }

  /** A route with an allowed path and name that no list excludes is in when
      a scope include matches it. */
  lemma ScopeIncludeAdmits(route: Route, scope: Scope, blankFlag: Option<bool>, rx: Matcher)
    requires route.NamesConvertible()
    requires !Blacklisted(route.path) && (!BlankOpt(route.name) || blankFlag == Some(true))
    requires !RouteLevel(route, true, rx) && !ScopeLevel(route, scope.excludes, rx)
    requires ScopeLevel(route, scope.includes, rx)
    ensures IncludeRoute(Some(route), scope, blankFlag, rx)
  {
  }

  /** A route-level include beats every scope exclude. */
  lemma RouteIncludeBeatsScope(route: Route, scope: Scope, blankFlag: Option<bool>, rx: Matcher)
    requires route.NamesConvertible()
    requires !Blacklisted(route.path) && (!BlankOpt(route.name) || blankFlag == Some(true))
    requires RouteLevel(route, false, rx)
    ensures IncludeRoute(Some(route), scope, blankFlag, rx)
  {
  }

  /** Including more tokens in the scope never drops a route; excluding more never adds one. */
  lemma ScopeMonotone(route: Route, small: Scope, large: Scope, blankFlag: Option<bool>, rx: Matcher)
    requires route.NamesConvertible()
    requires forall c, x :: x in small.includes.Get(c) ==> x in large.includes.Get(c)
    requires forall c, x :: x in large.excludes.Get(c) ==> x in small.excludes.Get(c)
    ensures IncludeRoute(Some(route), small, blankFlag, rx) ==> IncludeRoute(Some(route), large, blankFlag, rx)
  {
    forall c: Category
      ensures ScopeListMatches(route, small.includes, c, rx) ==> ScopeListMatches(route, large.includes, c, rx)
      ensures ScopeListMatches(route, large.excludes, c, rx) ==> ScopeListMatches(route, small.excludes, c, rx)
    {
      MatchAnyMonotone(DataOf(route, c), small.includes.Get(c), large.includes.Get(c), rx);
      MatchAnyMonotone(DataOf(route, c), large.excludes.Get(c), small.excludes.Get(c), rx);
    }
  }

  /** include_filter on a flat scope never drops a route from the sitemap. */
  lemma IncludeFilterOnlyAdds(route: Route, f: Filter, key: Category, tokens: seq<Value>, blankFlag: Option<bool>, rx: Matcher)
    requires route.NamesConvertible()
    ensures IncludeRoute(Some(route), AsScope(f), blankFlag, rx) ==>
      IncludeRoute(Some(route), AsScope(Edited(f, Include, key, tokens)), blankFlag, rx)
  {
    IncludeEdit(f, key, tokens);
    ScopeMonotone(route, AsScope(f), AsScope(Edited(f, Include, key, tokens)), blankFlag, rx);
  }

  /** exclude_filter on a flat scope never adds a route to the sitemap. */
  lemma ExcludeFilterOnlyRemoves(route: Route, f: Filter, key: Category, tokens: seq<Value>, blankFlag: Option<bool>, rx: Matcher)
    requires route.NamesConvertible()
    ensures IncludeRoute(Some(route), AsScope(Edited(f, Exclude, key, tokens)), blankFlag, rx) ==>
      IncludeRoute(Some(route), AsScope(f), blankFlag, rx)
  {
    ExcludeEdit(f, key, tokens);
    ScopeMonotone(route, AsScope(Edited(f, Exclude, key, tokens)), AsScope(f), blankFlag, rx);
  }
}

/** The routing scenarios of the inclusion tests, under the nested scope
    those tests start from: index and show included, post, put and delete excluded, and
    the scope edits each test makes. */
module RouteFilterCases {

  import opened Values
  import opened Filters
  import opened Routes
  import opened RouteFilter

  /** A route as resources and root declare it, with no sitemap attributes yet. */
  function RouteOf(name: string, path: string, verb: string, controller: string, action: string, defaults: map<string, Value>): (r: Route)
    ensures r.name == Some(name) && r.path == path && r.ActionName() == (if BlankString(action) then "" else action)
  {
    Route(Some(name), path, Str(verb), Some(controller), Some(action), defaults, [], None, None, None, None, Nil, None)
  }

  /** The nested default scope the tests start from. */
  const Defaults: Scope := Scope(
    Filter([Sym("index"), Sym("show")], [], [], []),
    Filter([], [Sym("post"), Sym("put"), Sym("delete")], [], []))

  /** exclude_verbs :get on top of the defaults. */
  const NoGet: Scope := Defaults.(excludes := Defaults.excludes.(verbs := Defaults.excludes.verbs + [Sym("get")]))

  /** ... and include_actions :show, :new. */
  const NoGetWithNew: Scope := NoGet.(includes := NoGet.includes.(actions := [Sym("index"), Sym("show"), Sym("new")]))

  /** root "/" => "home#index", with no verb. */
  const Root: Route := RouteOf("root", "/", "", "home", "index", map[])

  /** GET /faqs/:id => faqs#show, named faq. */
  const Faq: Route := RouteOf("faq", "/faqs/:id", "GET", "faqs", "show", map[])

  /** GET /faqs/new => faqs#new, named new_faq, without route-level lists. */
  const PlainNewFaq: Route := RouteOf("new_faq", "/faqs/new", "GET", "faqs", "new", map[])

  /** "/" => "home#index" declared without a name. */
  const Unnamed: Route := RouteOf("", "/", "", "home", "index", map[])

  /** A route declared without route-level lists matches none of them. */
  lemma NoRouteLists(r: Route, rx: Matcher)
    requires r.defaults == map[]
    ensures r.NamesConvertible() && !RouteLevel(r, true, rx) && !RouteLevel(r, false, rx)
  {
    assert forall k :: r.DuckmapDefaults(k) == [];
  }

  /** The root path is not blacklisted. */
  lemma RootPathAllowed()
    ensures !Blacklisted("/")
  {
    ContainsFits("/", "/rails/info/properties");
    SingleLine("/", "/assets");
  }

  /** A route declared with an empty verb has no verb symbol. */
  lemma NoVerb(r: Route)
    requires r.verb == Str("")
    ensures r.VerbSymbol() == Nil
  {
    assert BlankString("");
  }

  /** The index action matches a scope list that starts with :index. */
  lemma IndexListed(r: Route, f: Filter, rx: Matcher)
    requires r.ActionName() == "index"
    requires |f.actions| > 0 && f.actions[0] == Sym("index")
    ensures ScopeListMatches(r, f, Actions, rx)
  {
    assert f.Get(Actions) == f.actions;
    assert DataOf(r, Actions) == Str("index");
    assert !Blank(Str("index")) by {
      assert !IsSpace("index"[0]);
    }
    assert TokenMatches("index", f.actions[0], rx);
  }

  /** root has no verb, so exclude_verbs :get cannot reach it. */
  lemma RootSurvivesExcludedGet(rx: Matcher)
    ensures IncludeRoute(Some(Root), NoGet, None, rx)
  {
    var r := Root;
    RootPathAllowed();
    assert !BlankOpt(r.name) by {
      assert !IsSpace("root"[0]);
    }
    assert r.ActionName() == "index" by {
      assert !IsSpace("index"[0]);
    }
    NoRouteLists(r, rx);
    NoVerb(r);
    assert !ScopeListMatches(r, NoGet.excludes, Verbs, rx);
    assert !ScopeLevel(r, NoGet.excludes, rx);
    IndexListed(r, NoGet.includes, rx);
    ScopeIncludeAdmits(r, NoGet, None, rx);
  }

  /** The verb of a GET route gives :get. */
  lemma GetVerb(r: Route)
    requires r.verb == Str("GET")
    ensures r.VerbSymbol() == Sym("get")
  {
    assert !IsSpace("GET"[0]);
    assert Downcase("GET") == "get";
    ContainsFits("get", "delete");
    assert StartsWith("get", "get");
  }

  /** A GET route matches an exclude list whose fourth verb is :get. */
  lemma GetExcluded(r: Route, f: Filter, rx: Matcher)
    requires r.verb == Str("GET")
    requires |f.verbs| > 3 && f.verbs[3] == Sym("get")
    ensures ScopeLevel(r, f, rx)
  {
    GetVerb(r);
    assert f.Get(Verbs) == f.verbs;
    assert TokenMatches("get", f.verbs[3], rx);
    assert ScopeListMatches(r, f, Verbs, rx);
  }

  /** A GET route is excluded by exclude_verbs :get... */
  lemma GetVerbExcluded(rx: Matcher)
    ensures !IncludeRoute(Some(Faq), NoGet, None, rx)
  {
    var r := Faq;
    NoRouteLists(r, rx);
    GetVerb(r);
    GetExcluded(r, NoGet.excludes, rx);
    ScopeExcludeWins(r, NoGet, None, rx);
  }

  /** ... even when its action is included: the verb exclusion comes first. */
  lemma VerbTrumpsAction(rx: Matcher)
    ensures !IncludeRoute(Some(PlainNewFaq), NoGetWithNew, None, rx)
  {
    var r := PlainNewFaq;
    NoRouteLists(r, rx);
    GetVerb(r);
    GetExcluded(r, NoGetWithNew.excludes, rx);
    ScopeExcludeWins(r, NoGetWithNew, None, rx);
  }

  /** An action named in the route's include_actions list matches it. */
  lemma ListedNew(r: Route, rx: Matcher)
    requires r.ActionName() == "new"
    requires "include_names" !in r.defaults
    requires Lookup(r.defaults, "include_actions") == List([Sym("show"), Sym("new"), Sym("index")])
    ensures r.NamesConvertible() && RouteListMatches(r, false, Actions, rx)
  {
    assert r.DuckmapDefaults("include_names") == [];
    assert DefaultsKey(false, Actions) == "include_actions";
    var tokens := r.RouteTokens(false, Actions);
    assert tokens == [Sym("show"), Sym("new"), Sym("index")];
    assert Downcase("new") == "new";
    assert TokenMatches("new", tokens[1], rx);
  }

  lemma NewFaqPathAllowed()
    ensures !Blacklisted("/faqs/new")
  {
    ContainsFits("/faqs/new", "/rails/info/properties");
    SingleLine("/faqs/new", "/assets");
    assert "/faqs/new"[..7][1] != "/assets"[1];
  }

  /** The new_faq route declared with include_actions: [:show, :new, :index]. */
  const NewFaq: Route := RouteOf("new_faq", "/faqs/new", "GET", "faqs", "new",
    map["include_actions" := List([Sym("show"), Sym("new"), Sym("index")])])

  /** A named route on an allowed path whose include_actions lists its action is in. */
  lemma ListedNewIncluded(r: Route, rx: Matcher)
    requires !Blacklisted(r.path) && !BlankOpt(r.name)
    requires r.ActionName() == "new"
    requires "include_names" !in r.defaults
    requires Lookup(r.defaults, "include_actions") == List([Sym("show"), Sym("new"), Sym("index")])
    ensures r.NamesConvertible() && IncludeRoute(Some(r), NoGetWithNew, None, rx)
  {
    ListedNew(r, rx);
    assert RouteLevel(r, false, rx);
    RouteIncludeBeatsScope(r, NoGetWithNew, None, rx);
  }

  /** A route declared with include_actions: [:show, :new, :index] is in
      despite the scope's exclusion of :get. */
  lemma RouteIncludeOverridesScope(rx: Matcher)
    ensures IncludeRoute(Some(NewFaq), NoGetWithNew, None, rx)
  {
    NewFaqPathAllowed();
    assert !BlankOpt(NewFaq.name) by {
      assert !IsSpace("new_faq"[0]);
    }
    assert NewFaq.ActionName() == "new" by {
      assert !IsSpace("new"[0]);
    }
    ListedNewIncluded(NewFaq, rx);
  }

  /** Without a name a route is left out, unless blank names are allowed. */
  lemma BlankNameRule(rx: Matcher)
    ensures !IncludeRoute(Some(Unnamed), Defaults, None, rx)
    ensures IncludeRoute(Some(Unnamed), Defaults, Some(true), rx)
  {
    var r := Unnamed;
    RootPathAllowed();
    assert r.ActionName() == "index" by {
      assert !IsSpace("index"[0]);
    }
    assert BlankOpt(r.name) by {
      assert BlankString("");
    }
    NoRouteLists(r, rx);
    NoVerb(r);
    assert !ScopeListMatches(r, Defaults.excludes, Verbs, rx);
    assert !ScopeLevel(r, Defaults.excludes, rx);
    IndexListed(r, Defaults.includes, rx);
    ScopeIncludeAdmits(r, Defaults, Some(true), rx);
  }
}
