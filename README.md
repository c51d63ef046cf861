# duck_map sitemap ownership, modelled in Dafny

duck_map is a Rails engine that serves XML sitemaps built from an
application's routes. This project models how it decides which registered
routes belong to which sitemap, and proves properties of that decision.
Routes are declared in `config/routes.rb` with `sitemap` blocks and with
filter helpers such as `include_actions` and `exclude_verbs`. The model
covers:

- **The filter scope stack** (`Filters.FilterStack`). It holds a sequence of
  scopes, each with one token list per category: actions, verbs, names and
  controllers. It supports reset, push (a copy of the top), pop (never below
  one scope) and the edits `include_filter`, `exclude_filter`,
  `clear_filters` and `clear_filter`. Every edit touches only the top scope.
- **The inclusion predicate** (`RouteFilter.IncludeRoute`). This is
  `include_route?` with its fixed precedence:
  1. the path blacklist;
  2. the blank-name rule;
  3. route-level excludes, then route-level includes;
  4. scope excludes, then scope includes, each in the order actions, verbs,
     controllers, names.
  It uses `match_any?` and the per-route accessors of `route.rb`
  (`Routes.Route`).
- **Sitemap registration** (`Mappers.Mapper`). `sitemap(name, options,
  &block)` is split into `BeginSitemap` and `EndSitemap`. The routes the
  block defines are added in between. `run_filter` claims new routes with
  first-write-wins.
- **Owner resolution** (`RouteSets.RouteSet`): `find_sitemap_route`,
  `sitemap_routes`, `route_owner`, `sitemap_routes_only` and
  `find_route_via_name`.
- **Smaller helpers**:
  - the lazy class-level attribute map and its lookups (`Attributes`);
  - `acts_as_sitemap` with its shorthands and the two capture methods
    (`SitemapObjects`);
  - URL-limit truncation and URL options (`Handlers`);
  - `convert_to` (`ArrayHelper`);
  - the nested insert `merge_controller` (`Sync`).

Ruby values are one datatype, `Values.Value` (nil, booleans, integers,
strings, symbols, regexps, blocks, arrays and hashes). A hash is a
`map<string, Value>` keyed by the symbol's name. `Values.Blank` is Ruby's
`blank?` with ASCII whitespace, and downcasing is ASCII only. Regexp matching is a `Matcher`
parameter that the model does not interpret.

Each imperative part of the source is a `class` or a `method` with loops,
proved against a function that states the same result. That function's
meaning is then proved in lemmas.

The source carries two versions of the filter layout. `filter_stack.rb`
keeps one flat list per category, and `exclude_filter` removes tokens from
it. `route_filter.rb:86-116` instead reads `current_filter[:include]` and
`current_filter[:exclude]`. The model follows each file as written:

- `Filters` keeps the flat layout.
- `RouteFilter.IncludeRoute` takes a `Scope` with include and exclude lists.
- `RouteFilter.AsScope` reads a flat scope as the include half of such a
  scope. The route set uses it to connect the two.

## Model

| member | source | states |
|---|---|---|
| ArrayHelper.ConvertToLoop | lib/duck_map/array_helper.rb:19-46 | the loop of convert_to returns a non-Array input unchanged and for an Array a fresh Array holding the converted elements in order, never more than it got |
| ArrayHelper.ConvertedStrings | lib/duck_map/array_helper.rb:28-29 | :string keeps length and order, and each element becomes its to_s |
| ArrayHelper.ConvertedSymbols | lib/duck_map/array_helper.rb:31-32 | :symbol keeps length and order, and each element becomes the symbol of its text |
| ArrayHelper.ConvertedSymbolsAreSymbols | lib/duck_map/array_helper.rb:31-32 | every element of a :symbol conversion is a Symbol |
| ArrayHelper.ConvertedOtherKind | lib/duck_map/array_helper.rb:20-34 | a type other than :string or :symbol pushes nothing, so the result is an empty Array |
| ArrayHelper.ConvertedSymbolsIdempotent | lib/duck_map/array_helper.rb:31-32 | converting a converted list to symbols again changes nothing |
| Filters.BuildList | lib/duck_map/filter_stack.rb:134-143 | the first loop of update_filter builds exactly the one-level flattening of its arguments, splicing an Array only when any? holds for it |
| Filters.FlattenMembers | lib/duck_map/filter_stack.rb:134-143 | a token is in the flattened list iff it is a piece of some argument: an element of an Array holding some truthy element (any?), or an argument that is not such an Array |
| Filters.NamesArrayTokens | lib/duck_map/filter_stack.rb:137-143 | an Array argument is spliced only when any? holds for it, so an Array of nil and false alone, such as [nil, false], stays one token |
| Filters.SymbolizeList | lib/duck_map/filter_stack.rb:147-153 | the conversion loop succeeds iff every token is a String or a Symbol, and then yields each token's Symbol in order |
| Filters.TokensOfSymbolKeys | lib/duck_map/filter_stack.rb:147-153 | for :actions and :verbs the tokens exist iff every flattened argument has to_sym, and every applied token is a Symbol |
| Filters.DedupMembers | lib/duck_map/filter_stack.rb:155-159 | uniq! keeps exactly the elements of the list and leaves no duplicate |
| Filters.DedupExtends | lib/duck_map/filter_stack.rb:155-159 | appending and then running uniq! keeps the de-duplicated old list as a prefix |
| Filters.DedupOfNoDup | lib/duck_map/filter_stack.rb:155-159 | uniq! changes nothing on a list without duplicates |
| Filters.DedupAppendPresent | lib/duck_map/filter_stack.rb:155-159 | appending tokens that are all present already, then uniq!, gives the list back |
| Filters.IncludeEdit | lib/duck_map/filter_stack.rb:155-159 | including keeps exactly the old tokens and the new ones, without duplicates, with the old list as a prefix, and leaves other categories alone |
| Filters.IncludePresentIsNoOp | lib/duck_map/filter_stack.rb:155-159 | re-including tokens that are already present leaves the scope unchanged |
| Filters.ExcludeEdit | lib/duck_map/filter_stack.rb:161-163 | excluding removes exactly the given tokens from that category and touches no other |
| Filters.FilterStack.constructor | lib/duck_map/filter_stack.rb:11-17 | a new stack holds exactly one scope, DEFAULT_FILTER (:index and :show actions, every other list empty) |
| Filters.FilterStack.Reset | lib/duck_map/filter_stack.rb:36-38 | reset leaves exactly one scope equal to DEFAULT_FILTER |
| Filters.FilterStack.SetCurrentFilter | lib/duck_map/filter_stack.rb:76-80 | current_filter= replaces the top scope, and the scopes beneath and the depth are unchanged |
| Filters.FilterStack.Push | lib/duck_map/filter_stack.rb:54-56 | push grows the stack by one, the new top equals the old top, and the scopes beneath are unchanged |
| Filters.FilterStack.Pop | lib/duck_map/filter_stack.rb:62-64 | pop returns the top scope and removes it only when more than one scope is left, so the stack never empties |
| Filters.FilterStack.UpdateFilter | lib/duck_map/filter_stack.rb:125-168 | update_filter edits only the top scope, as the include or exclude edit of its tokens, and changes nothing when to_sym fails |
| Filters.FilterStack.IncludeFilter | lib/duck_map/filter_stack.rb:113-116 | include_filter replaces only the top scope by its include edit |
| Filters.FilterStack.ExcludeFilter | lib/duck_map/filter_stack.rb:176-179 | exclude_filter replaces only the top scope by its exclude edit |
| Filters.FilterStack.ClearFilters | lib/duck_map/filter_stack.rb:184-187 | clear_filters puts four empty lists on top and keeps the depth and the scopes beneath |
| Filters.FilterStack.ClearFilter | lib/duck_map/filter_stack.rb:193-197 | clear_filter(key) empties only that category of the top scope |
| Filters.SymbolTokens | lib/duck_map/filter_stack.rb:125-153 | a single Symbol argument yields itself as the only token |
| Filters.IncludeUpdateOnDefault | lib/duck_map/filter_stack.rb:155-159 | including :update on the default scope gives the actions :index, :show, :update |
| Filters.ExcludeUpdate | lib/duck_map/filter_stack.rb:161-163 | excluding :update again gives the actions :index, :show |
| Filters.PushIsolatesScopes | lib/duck_map/filter_stack.rb:54-64 | with :update included below, an exclusion of :update after a push reaches only the pushed scope: pop returns it without :update, the scope beneath still has :update, and a pop at depth one keeps that scope |
| Routes.Route.StoreIsSitemap | lib/duck_map/route.rb:40-42 | is_sitemap? writes the defaulted flag back and changes no other field or answer |
| Routes.Route.StoreWithBlock | lib/duck_map/route.rb:71-73 | sitemap_with_block? writes the defaulted flag back and changes no other field or answer |
| Routes.StoreFlagsStable | lib/duck_map/route.rb:40-73 | storing a defaulted flag twice is storing it once, and neither store changes the other flag's answer |
| Routes.Route.RouteName | lib/duck_map/route.rb:79-81 | route_name is "" for a nil name and the name otherwise, never nil |
| Routes.Route.ControllerName | lib/duck_map/route.rb:86-88 | controller_name is "" exactly when the controller requirement is blank, else its text |
| Routes.Route.ActionName | lib/duck_map/route.rb:93-95 | action_name is "" exactly when the action requirement is blank, else its text |
| Routes.Route.UrlFormat | lib/duck_map/route.rb:168-171 | url_format is :none for a route named root without a configured format, else defaults[:url_format] |
| Routes.Route.DuckmapDefaults | lib/duck_map/route.rb:254-271 | an Array default is returned as is, a String or Symbol is wrapped in a one-element list, and anything else gives an empty list |
| Routes.Route.RouteTokens | lib/duck_map/route.rb:174-211 | each route-level include or exclude list is duckmap_defaults of its key, and include_names converts its tokens to strings |
| Routes.Route.VerbSymbol | lib/duck_map/route.rb:214-234 | verb_symbol is nil for a blank verb; otherwise it is the first of delete, get, post, put that the downcased verb contains, and nil when it contains none |
| Routes.KeysRequiredMeans | lib/duck_map/route.rb:239-243 | keys_required? holds iff some segment key is not :format |
| Routes.Route.NamespacePrefix | lib/duck_map/route.rb:46-54 | namespace_prefix is nil iff the raw sitemap name is blank, and otherwise the sitemap route name with every occurrence of the raw name removed |
| Routes.Route.NamespaceDepth | lib/duck_map/route.rb:57-66 | namespace_prefix_underscores is 0 for a blank prefix and otherwise the number of pieces of split("_") |
| Routes.RemoveAll | lib/duck_map/route.rb:46-54 | gsub with an empty replacement never lengthens the string |
| Routes.RemoveAllAbsent | lib/duck_map/route.rb:46-54 | a name without the raw name comes back unchanged |
| Routes.RemoveAllShrinks | lib/duck_map/route.rb:46-54 | a name that holds the raw name comes back strictly shorter |
| Routes.RemoveAllKeepsFront | lib/duck_map/route.rb:46-54 | removing the pattern from p + q keeps p in front when no occurrence starts inside p |
| Routes.PrefixRoundTrip | lib/duck_map/route.rb:46-54 | the prefix of a namespaced sitemap comes back out of its full route name when the raw name occurs only at the end |
| Routes.Pieces | lib/duck_map/route.rb:57-66 | splitting on "_" gives at least one piece |
| Routes.DropTrailingEmpty | lib/duck_map/route.rb:57-66 | Ruby's split drops exactly the trailing empty pieces and keeps the rest as a prefix |
| Routes.SplitPrefix | lib/duck_map/route.rb:57-66 | the prefix "a_b_" built from namespaces a and b splits back into those namespaces, so the depth counts them |
| RouteFilter.AllowBlankNames | lib/duck_map/route_filter.rb:32-34 | blank_route_name? holds exactly when the flag is set to true; an unset flag is false |
| RouteFilter.AsTokens | lib/duck_map/route_filter.rb:163-167 | an Array of values is used as it is, and any other value becomes a one-element list |
| RouteFilter.MatchFromExists | lib/duck_map/route_filter.rb:169-185 | the loop that returns at the first match finds one exactly when some token matches |
| RouteFilter.MatchAny | lib/duck_map/route_filter.rb:159-186 | match_any? is false for blank data and otherwise holds iff some token matches: a String equal up to case or "all", a Symbol equal to the downcased data or :all, or a matching Regexp |
| RouteFilter.AllMatchesEverything | lib/duck_map/route_filter.rb:171-175 | "all" and :all match any non-blank data |
| RouteFilter.SymbolTokensAreNotDowncased | lib/duck_map/route_filter.rb:174 | a Symbol token with capitals never matches, because only the data is downcased |
| RouteFilter.MatchAnyMonotone | lib/duck_map/route_filter.rb:169-185 | more tokens never lose a match |
| RouteFilter.DataOf | lib/duck_map/route_filter.rb:68-116 | each category compares its own datum: action_name, verb_symbol, controller_name or name |
| RouteFilter.IncludeRouteMeans | lib/duck_map/route_filter.rb:46-152 | include_route? is false for nil; for a route it holds iff its path is not blacklisted, its name is present or blank names are allowed, and then either a route-level include matches, or no route-level exclude matches and no scope exclude matches and some scope include matches |
| RouteFilter.RouteExcludeIgnoresScope | lib/duck_map/route_filter.rb:68-128 | when a route-level exclude matches, the verdict is the route-level include test alone, whatever the scope |
| RouteFilter.ScopeExcludeWins | lib/duck_map/route_filter.rb:86-100 | without a route-level include, a matching scope exclude leaves the route out |
| RouteFilter.ScopeIncludeAdmits | lib/duck_map/route_filter.rb:102-116 | an allowed route that no list excludes is in when a scope include matches |
| RouteFilter.RouteIncludeBeatsScope | lib/duck_map/route_filter.rb:77-132 | an allowed route whose route-level include matches is in, whatever the scope excludes |
| RouteFilter.ScopeMonotone | lib/duck_map/route_filter.rb:86-116 | growing the scope's include lists never drops a route, and growing its exclude lists never adds one |
| RouteFilter.IncludeFilterOnlyAdds | lib/duck_map/filter_stack.rb:155-159 | include_filter on the flat top scope never drops a route from a sitemap |
| RouteFilter.ExcludeFilterOnlyRemoves | lib/duck_map/filter_stack.rb:161-163 | exclude_filter on the flat top scope never adds a route to a sitemap |
| RouteFilterCases.RootSurvivesExcludedGet | lib/duck_map/route_filter.rb:86-116 | root has no verb, so exclude_verbs :get does not reach it, and the index action keeps it in |
| RouteFilterCases.GetVerbExcluded | lib/duck_map/route_filter.rb:90-92 | a GET route is left out under exclude_verbs :get |
| RouteFilterCases.VerbTrumpsAction | lib/duck_map/route_filter.rb:86-116 | exclude_verbs :get beats include_actions :show, :new, because scope excludes come first |
| RouteFilterCases.RouteIncludeOverridesScope | lib/duck_map/route_filter.rb:77-132 | a route declared with include_actions for its own action is in, even under exclude_verbs :get |
| RouteFilterCases.BlankNameRule | lib/duck_map/route_filter.rb:62-142 | an unnamed route is left out unless blank names are allowed, and then it is in |
| RouteSets.Prefix | lib/duck_map/route.rb:46-54 | the prefix of a well-formed route is namespace_prefix |
| RouteSets.Depth | lib/duck_map/route.rb:57-66 | the depth of a well-formed route is namespace_prefix_underscores |
| RouteSets.SortByDepthSorts | lib/duck_map/route_set.rb:62-63 | the sorted owners are the same routes, as a permutation, by non-increasing depth |
| RouteSets.OwnersAreSitemaps | lib/duck_map/route_set.rb:62-63 | the potential owners are exactly the sitemap routes, deepest first |
| RouteSets.Owner | lib/duck_map/route_set.rb:65-94 | the owner is the first owner, in depth order, with the candidate's non-blank sitemap route name or a prefix of its name and no block; failing that, the first top-level owner without a block; failing that, none |
| RouteSets.StripExtension | lib/duck_map/route_set.rb:19-24 | the text from the last "." onward is dropped, and text without a dot is kept whole |
| RouteSets.StripExtensionOfPath | lib/duck_map/route_set.rb:19-24 | "name.ext" without a dot in ext is looked up as "name" |
| RouteSets.FindSitemapRoute | lib/duck_map/route_set.rb:17-34 | find_sitemap_route returns the first sitemap route whose path starts with the stripped text or whose sitemap route name is the text or the text plus "_sitemap", and nil when no route answers |
| RouteSets.SitemapRoutesOnly | lib/duck_map/route_set.rb:143-145 | sitemap_routes_only keeps all and only the sitemap routes |
| RouteSets.SitemapRoutesOnlyInOrder | lib/duck_map/route_set.rb:143-145 | a route registered later comes later in sitemap_routes_only, and only when it is a sitemap route, so the list keeps registration order |
| RouteSets.FindRouteViaName | lib/duck_map/route_set.rb:148-150 | find_route_via_name returns the first route with an equal name, no earlier route having it, and nil when there is none |
| RouteSets.RouteSet.constructor | lib/duck_map/route_filter.rb:39-41 | a new route set has no routes, an unset blank-name flag and a fresh filter stack holding DEFAULT_FILTER |
| RouteSets.RouteSet.AddRoute | lib/duck_map/mapper.rb:29 | the router appends a route and nothing else changes |
| RouteSets.RouteSet.FirstDefault | lib/duck_map/route_set.rb:83-92 | the fallback loop finds the first top-level owner without a block |
| RouteSets.RouteSet.OwnerLoop | lib/duck_map/route_set.rb:65-94 | the owner loop, with its fallback run inside it, finds exactly the owner Owner defines |
| RouteSets.RouteSet.SitemapRoutes | lib/duck_map/route_set.rb:43-109 | sitemap_routes gives nothing for nil; for a block sitemap, the non-sitemap routes marked with its name; otherwise the non-sitemap routes owned by a sitemap of its name that pass include_route? under the top scope, in order |
| RouteSets.RouteSet.RouteOwner | lib/duck_map/route_set.rb:112-140 | route_owner is the first owner that matches by sitemap route name or by prefix, with or without a block; else the first top-level owner without a block; else nil |
| RouteSets.ListedAreCandidates | lib/duck_map/route_set.rb:43-109 | every listed route is a registered route that is not a sitemap |
| RouteSets.BareSitemapListing | lib/duck_map/route_set.rb:58-102 | a bare sitemap lists a route iff it is a registered non-sitemap route, its owner has the sitemap's name, and include_route? accepts it |
| RouteSets.BareSitemapsDisjoint | lib/duck_map/route_set.rb:58-102 | bare sitemaps with different names never list the same route |
| RouteSets.BlockSitemapListing | lib/duck_map/route_set.rb:50-56 | a block sitemap lists a route iff it is a non-sitemap route with the same sitemap route name, without consulting include_route? |
| RouteSets.RouteOwnerAgrees | lib/duck_map/route_set.rb:65-140 | when no sitemap has a block, route_owner finds the same owner as sitemap_routes |
| Mappers.SitemapName | lib/duck_map/mapper.rb:22-23 | a String or Symbol name is kept, and anything else (a Hash of options among them) becomes :sitemap |
| Mappers.RawRouteName | lib/duck_map/mapper.rb:26 | the raw route name is the name's text followed by "_sitemap", and "sitemap_sitemap" for a name that is neither String nor Symbol |
| Mappers.Marked | lib/duck_map/mapper.rb:24-46 | the added route is a sitemap with url_limit from the options (nil by default), its own route name as sitemap route name, the raw name and the sitemap controller |
| Mappers.NamedCount | lib/duck_map/mapper.rb:52-56 | find_all after the append finds more than one route iff a sitemap route of that name was there before |
| Mappers.AppendSitemap | lib/duck_map/mapper.rb:52-56 | the marked route is appended only when no sitemap route has its name |
| Mappers.AppendKeepsNamesUnique | lib/duck_map/mapper.rb:52-56 | sitemap route names stay unique and the earlier routes stay in place, so the earliest route of a name wins |
| Mappers.AppendedFound | lib/duck_map/mapper.rb:59 | the second find sees the new route when its name was free, else the earliest sitemap route of that name |
| Mappers.DeclaredFlag | lib/duck_map/mapper.rb:59-69 | after the declaration the route found under the name has the block flag iff it had it or this declaration has a block |
| Mappers.FlagKept | lib/duck_map/mapper.rb:67-69 | a flag that is set stays set under any later declaration |
| Mappers.BlockFlagSticks | lib/duck_map/mapper.rb:67-69 | a later declaration without a block never clears the flag |
| Mappers.BeginKeepsValid | lib/duck_map/mapper.rb:36-69 | the declaration keeps every route well formed and every sitemap route named |
| Mappers.AppendOnce | lib/duck_map/mapper.rb:52-56 | appending then popping on a duplicate name yields exactly the registration the model defines |
| Mappers.DeclareRoutes | lib/duck_map/mapper.rb:36-69 | the route-set edit of a declaration yields the declared routes and the index of the sitemap route found under the name |
| Mappers.ClaimOne | lib/duck_map/mapper.rb:134-139 | a route that is already claimed is left as it is; a blank one gets the sitemap route name and include_route? as its availability, and nothing else changes |
| Mappers.Claimed | lib/duck_map/mapper.rb:125-145 | run_filter keeps the number of routes |
| Mappers.CountFrom | lib/duck_map/mapper.rb:138 | the total never exceeds the number of routes looked at |
| Mappers.ClaimFirstWriteWins | lib/duck_map/mapper.rb:129-140 | routes before start_point and routes already claimed are unchanged, and every other route from start_point on gets the sitemap route name |
| Mappers.ClaimedWellFormed | lib/duck_map/mapper.rb:134-139 | claiming keeps every route well formed and every sitemap route named |
| Mappers.NestedBlocksKeepInnerClaims | lib/duck_map/mapper.rb:94-140 | the routes of an inner block keep the inner sitemap route name after the outer block's run_filter |
| Mappers.ClaimAt | lib/duck_map/mapper.rb:134-139 | one turn of the loop replaces the route at index by its claimed form and counts it when it is newly claimed and available |
| Mappers.ClaimLoop | lib/duck_map/mapper.rb:125-145 | the loop, run up to the length plus one, yields the claimed routes and their count |
| Mappers.Mapper.constructor | lib/duck_map/mapper.rb:21 | a mapper is bound to one route set |
| Mappers.Mapper.AddRoute | lib/duck_map/mapper.rb:29 | a route the block defines is appended and nothing else changes |
| Mappers.Mapper.BeginSitemap | lib/duck_map/mapper.rb:21-103 | the declaration registers the sitemap route once per name and flags it; with a block it pushes the filter stack and hands over the sitemap route name and the start point; without one the stack is unchanged |
| Mappers.Mapper.EndSitemap | lib/duck_map/mapper.rb:106-111 | after the block, run_filter claims the new routes under the block's scope, which is then popped |
| Mappers.Mapper.RunFilter | lib/duck_map/mapper.rb:125-145 | run_filter stores the claimed routes and returns how many newly claimed routes are available |
| Mappers.Mapper.AllowBlankRouteName | lib/duck_map/mapper.rb:155-157 | the blank-name flag is set and the routes are unchanged |
| Mappers.Mapper.IncludeTokens | lib/duck_map/mapper.rb:194-215 | include_actions and the other include helpers edit only the top scope, as include_filter does |
| Mappers.Mapper.ExcludeTokens | lib/duck_map/mapper.rb:170-191 | exclude_actions and the other exclude helpers edit only the top scope, as exclude_filter does |
| Mappers.Mapper.ClearFilters | lib/duck_map/mapper.rb:160-162 | clear_filters empties the top scope |
| Mappers.Mapper.ClearFilter | lib/duck_map/mapper.rb:165-167 | clear_filter empties one category of the top scope |
| Mappers.Mapper.ResetFilters | lib/duck_map/mapper.rb:218-220 | reset_filters leaves one scope equal to DEFAULT_FILTER |
| Attributes.AttributesFor | lib/duck_map/attributes.rb:122-134 | a blank key means :default, and a key whose entry is not a Hash falls back to :default |
| Attributes.SitemapStrippedAttributes | lib/duck_map/attributes.rb:152-177 | the result holds exactly the pairs of the resolved entry whose value is not a Hash |
| Attributes.StrippedMeans | lib/duck_map/attributes.rb:152-177 | stripping keeps every non-Hash pair, drops :handler, and is idempotent |
| Attributes.CopiedEntry | lib/duck_map/attributes.rb:83-84 | the copy of an entry with its own :handler Hash has the same pairs as the entry |
| Attributes.CopyAttributes | lib/duck_map/attributes.rb:82-85 | the copying loop yields a map equal to the configuration's map |
| Attributes.AttributeStore.constructor | lib/duck_map/attributes.rb:63-90 | a class starts with neither attribute set |
| Attributes.AttributeStore.IsSitemapAttributesDefined | lib/duck_map/attributes.rb:37-44 | an unset flag is stored as false and returned; a set flag is returned as it is |
| Attributes.AttributeStore.SitemapAttributes | lib/duck_map/attributes.rb:63-90 | the map is copied from the configuration only when it is not yet a Hash, and otherwise returned as stored |
| Attributes.LazyCopyIsStable | lib/duck_map/attributes.rb:74-89 | two calls return the same map, and a configuration edited in between does not reach it |
| SitemapObjects.ActsKey | lib/duck_map/sitemap_object.rb:143-157 | a leading Symbol or String is the key and is consumed, and otherwise the key is :all |
| SitemapObjects.HandlerOptions | lib/duck_map/sitemap_object.rb:214-219 | a given block is stored under :block, and every other handler option is kept |
| SitemapObjects.Prepared | lib/duck_map/sitemap_object.rb:197-207 | :handler and :segments become Hashes, and existing Hashes and other pairs are kept |
| SitemapObjects.Plain | lib/duck_map/sitemap_object.rb:197-210 | after the plain merge the values win, other pairs are kept and :handler and :segments are Hashes |
| SitemapObjects.MergeOptions | lib/duck_map/sitemap_object.rb:214-230 | the handler options are merged into :handler and the non-blank segments into :segments, and nothing else changes |
| SitemapObjects.MergeEntry | lib/duck_map/sitemap_object.rb:197-230 | a merged entry holds the values, the old handler merged with the handler options, the old segments merged with the segments, and its other pairs |
| SitemapObjects.MergeAbsorbs | lib/duck_map/sitemap_object.rb:210-228 | merging the same options a second time adds nothing |
| SitemapObjects.MergeEntryIdempotent | lib/duck_map/sitemap_object.rb:197-230 | merging an entry twice with the same options equals merging it once |
| SitemapObjects.ActedOn | lib/duck_map/sitemap_object.rb:194-232 | the merged keys hold their merged entries and every other entry is unchanged |
| SitemapObjects.KeysFor | lib/duck_map/sitemap_object.rb:173-178 | :all touches every existing entry, and another key touches just itself |
| SitemapObjects.ActsAsSitemapScope | lib/duck_map/sitemap_object.rb:173-232 | with a specific key only that entry changes, and with :all every existing entry changes and no key is added |
| SitemapObjects.ActsAsSitemapShape | lib/duck_map/sitemap_object.rb:197-207 | every touched entry is a Hash whose :handler and :segments are Hashes, a missing entry included |
| SitemapObjects.ActsAsSitemapIdempotent | lib/duck_map/sitemap_object.rb:142-235 | repeating an identical acts_as_sitemap call leaves the map unchanged |
| SitemapObjects.PrepareInto | lib/duck_map/sitemap_object.rb:197-207 | the in-place preparation of an entry yields the prepared entry |
| SitemapObjects.OptionsInto | lib/duck_map/sitemap_object.rb:214-230 | the in-place handler and segment merges yield the merged options |
| SitemapObjects.MergeInto | lib/duck_map/sitemap_object.rb:197-230 | the step-by-step merge of one entry yields the merged entry |
| SitemapObjects.MergeAt | lib/duck_map/sitemap_object.rb:194-232 | one turn of the key loop replaces the entry under one key by its merged form |
| SitemapObjects.MergeKeys | lib/duck_map/sitemap_object.rb:194-232 | the key loop merges every key's entry in turn and yields the acted-on map |
| SitemapObjects.ActsAsSitemap | lib/duck_map/sitemap_object.rb:142-235 | acts_as_sitemap sets sitemap_attributes_defined and stores the acted-on class-level map |
| SitemapObjects.SitemapHandler | lib/duck_map/sitemap_object.rb:267-272 | sitemap_handler is acts_as_sitemap with handler: options on the leading Symbol key or :all |
| SitemapObjects.SitemapSegments | lib/duck_map/sitemap_object.rb:285-290 | sitemap_segments is acts_as_sitemap with segments: options on the leading Symbol key or :all |
| SitemapObjects.SitemapHandlerMerges | lib/duck_map/sitemap_object.rb:267-272 | sitemap_handler on one key merges the options into that entry's handler, keeps its unrelated handler keys and stores the block, and leaves other entries alone |
| SitemapObjects.SitemapCaptureAttributes | lib/duck_map/sitemap_object.rb:333-365 | the capture loop yields exactly the captured values |
| SitemapObjects.CapturedMeans | lib/duck_map/sitemap_object.rb:333-365 | a Symbol value is captured only from a non-blank attribute of the object, another non-blank value is copied, and blank values are left out |
| SitemapObjects.MappedSegments | lib/duck_map/sitemap_object.rb:434-444 | the first loop captures each segment whose mapped method the object has, with that value |
| SitemapObjects.NamedSegments | lib/duck_map/sitemap_object.rb:446-453 | the second loop adds each segment not captured yet whose own method the object has |
| SitemapObjects.SitemapCaptureSegments | lib/duck_map/sitemap_object.rb:424-457 | the two loops capture exactly the segments the object can answer, mapped method first |
| SitemapObjects.CapturedSegmentsMeans | lib/duck_map/sitemap_object.rb:424-457 | non-Array segments give an empty map, the keys are segments, a mapped method wins over a same-named one, and without mappings only same-named methods are read |
| Handlers.SliceFrom | lib/duck_map/handlers/base.rb:64-66 | slice! from an index keeps the prefix before it, counting a negative index from the end |
| Handlers.UrlLimited | lib/duck_map/handlers/base.rb:61-70 | a blank limit keeps all rows, rows within the limit are kept, and longer lists are cut to the first url_limit rows; the result is always a prefix |
| Handlers.UrlLimitIdempotent | lib/duck_map/handlers/base.rb:61-70 | a non-negative limit is met after one cut, so a second cut keeps everything |
| Handlers.DefaultLimitMeetsProtocol | test/unit/config/config_test.rb:334 | with the default limit of 50000 a sitemap file never holds more URLs than the Sitemaps XML protocol 0.9 allows |
| Handlers.RowList.constructor | lib/duck_map/handlers/base.rb:61 | the rows array is held as given |
| Handlers.RowList.SitemapUrlLimit | lib/duck_map/handlers/base.rb:61-70 | sitemap_url_limit truncates the rows in place to the limited prefix |
| Handlers.HostOptions | lib/duck_map/handlers/base.rb:86-97 | :host is present iff canonical_host is not blank, :port iff canonical_port is not blank, and there are no other keys |
| Handlers.UrlOptions | lib/duck_map/handlers/base.rb:74-82 | :format is present, equal to url_format, iff url_format is not blank, merged with the host options |
| Sync.MergeControllerMeans | lib/duck_map/sync.rb:170-180 | merge_controller succeeds iff every level of the path is absent or a Hash; then the last level holds every pair of the values and keeps its other pairs, and at the top level only the path's key is added or changed |
| Sync.MergeControllerIdempotent | lib/duck_map/sync.rb:170-180 | merging the same values twice equals merging them once |

## Left out

- copy_filter and the aliasing of scopes are not modelled as such. Scopes are values, so push copies the top by construction, and an edit of the top cannot reach the scope beneath.
- The shared `:segments` Hash of acts_as_sitemap is not modelled: the segment options live in one Ruby Hash that several entries may share. Every entry is a value here.
- Write-backs are not captured by the accessor predicates. `is_sitemap?` and `sitemap_with_block?` store their defaulted flag only in `Routes.Route.StoreIsSitemap` and `Routes.Route.StoreWithBlock`; the predicates the rest of the model reads answer the same without storing.
- Ruby's `to_s` and `inspect` are modelled only for scalars (nil, booleans, integers, strings, symbols, regexps). Hence the scalar requirements on `ArrayHelper.ConvertTo`, `include_names` and `find_sitemap_route`.
- The regexp engine is out of scope: a Regexp token matches through an uninterpreted `Matcher`. The regexps that route_set.rb builds by interpolation (`/^#{prefix}/`) are modelled as literal prefix tests, on the assumption that names hold no regexp metacharacters.
- Lastmod parsing in acts_as_sitemap (sitemap_object.rb:180-191) depends on `Time.strptime` and is not modelled.
- `find_route_via_path` needs the framework's request recognition and is not modelled.
- The `match` route creation and the `define_method` on the controller helpers (mapper.rb:29, 78-91) are not modelled. The router's new route is a parameter of `BeginSitemap`, and block routes arrive through `AddRoute`.
- The logger calls are not modelled.
- `sort!` in sitemap_routes and route_owner is not stable in Ruby. The model fixes one order, a stable insertion by non-increasing depth, so owners of equal depth keep their registration order.
- The layout mismatch between the two filter files is bridged by `RouteFilter.AsScope` rather than reproduced. Combined literally, the flat stack makes `current_filter[:exclude][:actions]` raise, and the swallowed exception at route_filter.rb:144 would leave every route out.
- Mappers.Mapper.ClearFilter: mapper.rb:165-167 calls `clear_filter(section, key)` with two arguments on a one-argument method, which raises ArgumentError in Ruby. The model ignores `section` and clears the key of the flat top scope.
- RouteSets.RouteSet.SitemapRoutes: the block branch (route_set.rb:50-56) never reads `available`, so it also lists routes that include_route? rejected. The model follows the code here.
- RouteFilter.AllowBlankNames: the blank-name flag is an `Option<bool>`, as documented, and the same holds for `Mappers.Mapper.AllowBlankRouteName`. Ruby stores any value there, and include_route? would treat any truthy value (such as `"yes"` or `1`) as allowing blank names; such values are not modelled.
- String and Symbol hash keys are not distinguished: a hash is keyed by the symbol's name.
- Values.BlankString: only ASCII whitespace (space, tab, line feed, vertical tab, form feed, carriage return) counts as blank. ActiveSupport's `String#blank?` matches `[[:space:]]`, which also takes Unicode spaces such as U+00A0; those are not modelled.
- Inputs on which Ruby raises are excluded by preconditions rather than modelled as errors: `Attributes.AttributesFor` requires a blank, String or Symbol key (another key has no `to_sym`, attributes.rb:123); `Attributes.Copyable` requires every configured entry to be a Hash with a Hash under :handler (`Hash#merge` raises TypeError otherwise, attributes.rb:83-84); `SitemapObjects.Mappings` and `SitemapObjects.SegmentKeys` require mapping values that name a method and String or Symbol segment keys (sitemap_object.rb:434-436); `Handlers.UrlLimited` requires a blank or Integer limit, so a Float limit, which `Integer#>` accepts and `slice!` truncates, is not modelled.
- Filter keys other than the four categories: only the four keys :actions, :verbs, :names and :controllers are modelled, given as Symbols. `clear_filter` with another key adds a list under that key (filter_stack.rb:193-197), and `include_filter` with another key raises NoMethodError on `nil.concat`; neither is modelled. Nor is a String action or key, which update_filter converts with `to_sym` (filter_stack.rb:127-131).
- Sync.MergeControllerMeans: merge_controller mutates nested hashes in place and returns the same object. The model computes the new map as a value (None where Ruby raises NoMethodError), so the sharing of that object is not captured.
- Mappers.ClaimLoop: the loop of run_filter and the key loop of acts_as_sitemap (`SitemapObjects.MergeKeys`) work on a value and store it into the route set or the class-level map once at the end, rather than updating one element per turn.
- Mappers.Mapper.Valid requires that every sitemap route carries its sitemap route name, which the sitemap declaration guarantees. Routes added otherwise must respect it.
- Mappers.Mapper.RunFilter takes the sitemap route name as a string. Ruby's default of nil, which would claim nothing and leave names blank, is not modelled.
- Ruby's `class_attribute` inheritance between controller classes is not modelled: there is one class-level map per `AttributeStore`.
- The width of Ruby integers does not matter here: integers are unbounded in Ruby and in the model.
