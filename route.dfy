/** DuckMap::Route: the sitemap attributes a route carries and the accessors
    that read them. A route is a record; the attributes mapper.rb assigns are
    its optional fields, nil being None. */
module Routes {

  import opened Values
  import Lists
  import ArrayHelper
  import opened Filters

  /** A registered route. requirements[:controller] and requirements[:action]
      are nil or a String; the verb is a String or a Regexp; segment keys are
      Symbol names. */
  datatype Route = Route(
    name: Option<string>,
    path: string,
    verb: ScalarValue,
    controller: Option<string>,
    action: Option<string>,
    defaults: map<string, Value>,
    segmentKeys: seq<string>,
    isSitemap: Option<bool>,
    sitemapRouteName: Option<string>,
    sitemapRawRouteName: Option<string>,
    sitemapWithBlock: Option<bool>,
    urlLimit: Value,
    available: Option<bool>)
  {
    /** is_sitemap?: false when unset. */
    predicate IsSitemap() {
      isSitemap == Some(true)
    }

    /** is_sitemap? also writes the defaulted flag back. */
    function StoreIsSitemap(): (r: Route)
      ensures r.isSitemap.Some? && r.IsSitemap() == IsSitemap()
      ensures r == this.(isSitemap := r.isSitemap)
    {
      this.(isSitemap := Some(IsSitemap()))
    }

    /** sitemap_with_block?: false when unset. */
    predicate WithBlock() {
      sitemapWithBlock == Some(true)
    }

    /** sitemap_with_block? also writes the defaulted flag back. */
    function StoreWithBlock(): (r: Route)
      ensures r.sitemapWithBlock.Some? && r.WithBlock() == WithBlock()
      ensures r == this.(sitemapWithBlock := r.sitemapWithBlock)
    {
      this.(sitemapWithBlock := Some(WithBlock()))
    }

    /** route_name: "#{name}", the empty string for nil. */
    function RouteName(): (n: string)
      ensures name.None? ==> n == ""
      ensures name.Some? ==> n == name.value
    {
      if name.Some? then name.value else ""
    }

    /** controller_name: "" when the requirement is blank, else its text. */
    function ControllerName(): (n: string)
      ensures n == "" <==> BlankOpt(controller)
      ensures !BlankOpt(controller) ==> n == controller.value
    {
      if BlankOpt(controller) then "" else controller.value
    }

    /** action_name: "" when the requirement is blank, else its text. */
    function ActionName(): (n: string)
      ensures n == "" <==> BlankOpt(action)
      ensures !BlankOpt(action) ==> n == action.value
    {
      if BlankOpt(action) then "" else action.value
    }

    /** url_format: :none for the root route when no format is configured. */
    function UrlFormat(): (v: Value)
      ensures name == Some("root") && Blank(Lookup(defaults, "url_format")) ==> v == Sym("none")
      ensures !(name == Some("root") && Blank(Lookup(defaults, "url_format"))) ==> v == Lookup(defaults, "url_format")
    {
      if Blank(Lookup(defaults, "url_format")) && RouteName() == "root" then Sym("none") else Lookup(defaults, "url_format")
    }

    /** duckmap_defaults: an Array default as it is, a String or Symbol in a
        one-element list, anything else (nil and false included) as []. */
    function DuckmapDefaults(key: string): (values: seq<Value>)
      ensures Lookup(defaults, key).List? ==> values == Lookup(defaults, key).items
      ensures Lookup(defaults, key).Str? || Lookup(defaults, key).Sym? ==> values == [Lookup(defaults, key)]
      ensures !(Lookup(defaults, key).List? || Lookup(defaults, key).Str? || Lookup(defaults, key).Sym?) ==> values == []
    {
      var v := Lookup(defaults, key);
      if v.Nil? || v == Bool(false) then []
      else if v.List? then v.items
      else if v.Str? || v.Sym? then [v]
      else []
    }

    /** include_names converts its tokens with to_s, which the model defines for scalars. */
    predicate NamesConvertible() {
      forall i :: 0 <= i < |DuckmapDefaults("include_names")| ==> Scalar(DuckmapDefaults("include_names")[i])
    }

    /** exclude_actions ... include_verbs: the route-level token lists. Only
        include_names goes through convert_to(:string). */
    function RouteTokens(exclude: bool, c: Category): (tokens: seq<Value>)
      requires !exclude && c == Names ==> NamesConvertible()
      ensures exclude || c != Names ==> tokens == DuckmapDefaults(DefaultsKey(exclude, c))
      ensures !exclude && c == Names ==>
        |tokens| == |DuckmapDefaults("include_names")| &&
        forall i :: 0 <= i < |tokens| ==> tokens[i] == Str(ToS(DuckmapDefaults("include_names")[i]))
    {
      if !exclude && c == Names then
        var values := DuckmapDefaults("include_names");
        ArrayHelper.ConvertedStrings(values);
        ArrayHelper.ConvertTo(List(values), Sym("string")).items
      else DuckmapDefaults(DefaultsKey(exclude, c))
    }

    /** verb_symbol: nil for a blank verb, else the first of delete, get, post
        and put found in the downcased text of the verb. */
    function VerbSymbol(): (v: Value)
      ensures v.Nil? || v.Sym?
      ensures Blank(verb) ==> v.Nil?
      ensures v.Sym? ==> v.name in ["delete", "get", "post", "put"]
      ensures v.Sym? ==> Contains(Downcase(ToS(verb)), v.name)
      ensures v == Sym("get") ==> !Contains(Downcase(ToS(verb)), "delete")
      ensures v == Sym("post") ==> !Contains(Downcase(ToS(verb)), "delete") && !Contains(Downcase(ToS(verb)), "get")
      ensures v == Sym("put") ==> !Contains(Downcase(ToS(verb)), "delete") && !Contains(Downcase(ToS(verb)), "get") && !Contains(Downcase(ToS(verb)), "post")
      ensures !Blank(verb) && v.Nil? ==> forall w :: w in ["delete", "get", "post", "put"] ==> !Contains(Downcase(ToS(verb)), w)
    {
      if Blank(verb) then Nil
      else
        var buffer := Downcase(ToS(verb));
        if Contains(buffer, "delete") then Sym("delete")
        else if Contains(buffer, "get") then Sym("get")
        else if Contains(buffer, "post") then Sym("post")
        else if Contains(buffer, "put") then Sym("put")
        else Nil
    }

    /** keys_required?: some segment key other than :format. */
    predicate KeysRequired()
    {
      |Lists.Select(segmentKeys, (k: string) => k != "format")| > 0
    }

    /** namespace_prefix is defined when the raw name is blank or the full name is set. */
    predicate PrefixDefined() {
      BlankOpt(sitemapRawRouteName) || sitemapRouteName.Some?
    }

    /** namespace_prefix: nil for a blank raw name, else the sitemap route name
        with every occurrence of the raw name removed. */
    function NamespacePrefix(): (p: Option<string>)
      requires PrefixDefined()
      ensures BlankOpt(sitemapRawRouteName) <==> p.None?
      ensures p.Some? ==> p.value == RemoveAll(sitemapRouteName.value, sitemapRawRouteName.value)
    {
      if BlankOpt(sitemapRawRouteName) then None
      else Some(RemoveAll(sitemapRouteName.value, sitemapRawRouteName.value))
    }

    /** namespace_prefix_underscores: 0 for a blank prefix, else the number of
        pieces String#split("_") gives. */
    function NamespaceDepth(): (n: nat)
      requires PrefixDefined()
      ensures BlankOpt(NamespacePrefix()) ==> n == 0
      ensures !BlankOpt(NamespacePrefix()) ==> n == |Split(NamespacePrefix().value)|
    {
      var buffer := NamespacePrefix();
      if BlankOpt(buffer) then 0 else |Split(buffer.value)|
    }
  }

  /** The defaults key of a route-level token list. */
  function DefaultsKey(exclude: bool, c: Category): string {
    (if exclude then "exclude_" else "include_") +
    match c
    case Actions => "actions"
    case Verbs => "verbs"
    case Names => "names"
    case Controllers => "controllers"
  }

  /** keys_required? holds exactly when some segment key is not :format. */
  lemma KeysRequiredMeans(r: Route)
    ensures r.KeysRequired() <==> exists i :: 0 <= i < |r.segmentKeys| && r.segmentKeys[i] != "format"
  {
    var kept := Lists.Select(r.segmentKeys, (k: string) => k != "format");
    if r.KeysRequired() {
      assert kept[0] in kept;
    }
    if exists i :: 0 <= i < |r.segmentKeys| && r.segmentKeys[i] != "format" {
      var i :| 0 <= i < |r.segmentKeys| && r.segmentKeys[i] != "format";
      assert r.segmentKeys[i] in kept;
    }
  }

  /** Storing a defaulted flag changes what no accessor reports, and doing it twice is doing it once. */
  lemma StoreFlagsStable(r: Route)
    ensures r.StoreIsSitemap().StoreIsSitemap() == r.StoreIsSitemap()
    ensures r.StoreWithBlock().StoreWithBlock() == r.StoreWithBlock()
    ensures r.StoreIsSitemap().WithBlock() == r.WithBlock() && r.StoreWithBlock().IsSitemap() == r.IsSitemap()
  {
  }

  /** String#gsub(pat, ""): every occurrence of pat removed, scanning left to right. */
  function RemoveAll(s: string, pat: string): (r: string)
    requires |pat| > 0
    ensures |r| <= |s|
    decreases |s|
  {
    if |s| < |pat| then s
    else if StartsWith(s, pat) then RemoveAll(s[|pat|..], pat)
    else [s[0]] + RemoveAll(s[1..], pat)
  }

  /** A string without the pattern comes back unchanged. */
  lemma {:induction false} RemoveAllAbsent(s: string, pat: string)
    requires |pat| > 0 && !Contains(s, pat)
    ensures RemoveAll(s, pat) == s
    decreases |s|
  {
    if |s| >= |pat| {
      RemoveAllAbsent(s[1..], pat);
    }
  }

  /** A string that holds the pattern comes back strictly shorter. */
  lemma {:induction false} RemoveAllShrinks(s: string, pat: string)
    requires |pat| > 0 && Contains(s, pat)
    ensures |RemoveAll(s, pat)| < |s|
    decreases |s|
  {
    if !StartsWith(s, pat) {
      RemoveAllShrinks(s[1..], pat);
    }
  }

  /** One character kept where the pattern does not start. */
  lemma RemoveAllStep(s: string, pat: string)
    requires |pat| > 0 && |s| >= |pat| && !StartsWith(s, pat)
    ensures RemoveAll(s, pat) == [s[0]] + RemoveAll(s[1..], pat)
  {
  }

  /** No occurrence starting inside p: none at the front of p + q, and
      still none inside p without its first character. */
  lemma NoneInsideRest(p: string, q: string, pat: string)
    requires |p| > 0
    requires forall i :: 0 <= i < |p| ==> !StartsWith((p + q)[i..], pat)
    ensures !StartsWith(p + q, pat) && (p + q)[1..] == p[1..] + q
    ensures forall i :: 0 <= i < |p[1..]| ==> !StartsWith((p[1..] + q)[i..], pat)
  {
    var s := p + q;
    assert s[0..] == s;
    forall i | 0 <= i < |p[1..]| ensures !StartsWith((p[1..] + q)[i..], pat) {
      assert (p[1..] + q)[i..] == s[i + 1..];
    }
  }

  /** Removing the pattern from p + q leaves p in front when no occurrence starts inside p. */
  lemma {:induction false} RemoveAllKeepsFront(p: string, q: string, pat: string)
    requires |pat| > 0
    requires forall i :: 0 <= i < |p| ==> !StartsWith((p + q)[i..], pat)
    ensures RemoveAll(p + q, pat) == p + RemoveAll(q, pat)
    decreases |p|
  {
    if p == [] {
      assert p + q == q;
    } else if |p + q| >= |pat| {
      var s, t := p + q, p[1..] + q;
      NoneInsideRest(p, q, pat);
      RemoveAllStep(s, pat);
      assert s[0] == p[0] && s[1..] == t;
      RemoveAllKeepsFront(p[1..], q, pat);
      var r := RemoveAll(q, pat);
      assert [p[0]] + (p[1..] + r) == p + r;
    } else {
      assert RemoveAll(p + q, pat) == p + q;
      assert RemoveAll(q, pat) == q;
    }
  }

  /** The full sitemap route name of a namespaced sitemap is the namespace
      prefix followed by the raw name; namespace_prefix takes it apart again
      when the raw name does not start inside the prefix. */
  lemma PrefixRoundTrip(prefix: string, raw: string)
    requires |raw| > 0
    requires forall i :: 0 <= i < |prefix| ==> !StartsWith((prefix + raw)[i..], raw)
    ensures RemoveAll(prefix + raw, raw) == prefix
  {
    RemoveAllKeepsFront(prefix, raw, raw);
    assert raw[|raw|..] == [];
  }

  predicate IsUnderscore(c: char) {
    c == '_'
  }

  /** The pieces between underscores, empty ones included. */
  function Pieces(s: string): (ps: seq<string>)
    ensures |ps| >= 1
    decreases |s|
  {
    match Lists.FirstIndex(s, IsUnderscore)
    case None => [s]
    case Some(k) => [s[..k]] + Pieces(s[k + 1..])
  }

  /** Ruby drops trailing empty pieces. */
  function DropTrailingEmpty(ps: seq<string>): (r: seq<string>)
    ensures |r| <= |ps| && r == ps[..|r|]
    ensures r == [] || r[|r| - 1] != ""
    ensures forall i :: |r| <= i < |ps| ==> ps[i] == ""
  {
    if ps != [] && ps[|ps| - 1] == "" then DropTrailingEmpty(ps[..|ps| - 1]) else ps
  }

  /** String#split("_"). */
  function Split(s: string): seq<string> {
    DropTrailingEmpty(Pieces(s))
  }

  /** The prefix a route gets from its namespaces: each name followed by "_". */
  function PrefixOf(namespaces: seq<string>): string {
    if namespaces == [] then "" else namespaces[0] + "_" + PrefixOf(namespaces[1..])
  }

  predicate PlainName(n: string) {
    n != "" && forall i :: 0 <= i < |n| ==> n[i] != '_'
  }

  /** The first underscore after a plain name is the one that follows it. */
  lemma FirstUnderscore(n: string, rest: string)
    requires PlainName(n)
    ensures Lists.FirstIndex(n + "_" + rest, IsUnderscore) == Some(|n|)
  {
    var s := n + "_" + rest;
    assert IsUnderscore(s[|n|]);
    forall j | 0 <= j < |n|
      ensures !IsUnderscore(s[j])
    {
      assert s[j] == n[j];
    }
    var f := Lists.FirstIndex(s, IsUnderscore);
    assert !(f.value < |n|);
    assert !(f.value > |n|);
  }

  /** A plain name followed by an underscore is one piece of its own. */
  lemma PiecesAfterName(n: string, rest: string)
    requires PlainName(n)
    ensures Pieces(n + "_" + rest) == [n] + Pieces(rest)
  {
    var s := n + "_" + rest;
    FirstUnderscore(n, rest);
    assert s[..|n|] == n;
    assert s[|n| + 1..] == rest;
  }

  lemma {:induction false} PiecesOfPrefix(namespaces: seq<string>)
    requires forall k :: 0 <= k < |namespaces| ==> PlainName(namespaces[k])
    ensures Pieces(PrefixOf(namespaces)) == namespaces + [""]
  {
    if namespaces == [] {
      assert Pieces("") == [""];
    } else {
      var n := namespaces[0];
      assert PrefixOf(namespaces) == n + "_" + PrefixOf(namespaces[1..]);
      PiecesAfterName(n, PrefixOf(namespaces[1..]));
      PiecesOfPrefix(namespaces[1..]);
      assert namespaces == [n] + namespaces[1..];
    }
  }

  /** namespace_prefix_underscores counts namespaces: splitting the prefix of
      namespaces without underscores gives them back. */
  lemma SplitPrefix(namespaces: seq<string>)
    requires forall k :: 0 <= k < |namespaces| ==> PlainName(namespaces[k])
    ensures Split(PrefixOf(namespaces)) == namespaces
    ensures |Split(PrefixOf(namespaces))| == |namespaces|
  {
    PiecesOfPrefix(namespaces);
    var ps := namespaces + [""];
    assert ps[..|ps| - 1] == namespaces;
    if namespaces != [] {
      assert namespaces[|namespaces| - 1] != "";
    }
  }
}
