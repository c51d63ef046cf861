/** DuckMap::FilterStack: a stack of filter scopes, one token list per category.
    The stack never becomes empty and every edit touches its top scope only.

    Version note: this file follows lib/duck_map/filter_stack.rb as written, where
    a scope is FLAT ({actions:, verbs:, names:, controllers:}) and exclude_filter
    REMOVES tokens from the scope's list. route_filter.rb and the stack's unit
    tests instead expect a nested {include: {...}, exclude: {...}} scope with
    default excluded verbs [:post, :put, :delete], and mapper.rb calls a
    two-argument clear_filter. The inclusion predicate (module RouteFilter) takes
    the nested shape; RouteSets.RouteSet reads the flat top scope as its include
    half (RouteFilter.AsScope). */
module Filters {

  import opened Values
  import opened Lists

  /** The four keys of a scope: :actions, :verbs, :names, :controllers. */
  datatype Category = Actions | Verbs | Names | Controllers

  /** One scope of the stack: a token list per category. */
  datatype Filter = Filter(actions: seq<Value>, verbs: seq<Value>, names: seq<Value>, controllers: seq<Value>)
  {
    function Get(c: Category): seq<Value> {
      match c
      case Actions => actions
      case Verbs => verbs
      case Names => names
      case Controllers => controllers
    }

    function Set(c: Category, list: seq<Value>): (f: Filter)
      ensures f.Get(c) == list
      ensures forall d :: d != c ==> f.Get(d) == Get(d)
    {
      match c
      case Actions => this.(actions := list)
      case Verbs => this.(verbs := list)
      case Names => this.(names := list)
      case Controllers => this.(controllers := list)
    }
  }

  /** DEFAULT_FILTER: include the index and show actions, nothing else. */
  const DefaultFilter: Filter := Filter([Sym("index"), Sym("show")], [], [], [])

  /** The scope clear_filters installs. */
  const EmptyFilter: Filter := Filter([], [], [], [])

  /** What update_filter does with its tokens. */
  datatype Edit = Include | Exclude | OtherEdit

  /** How update_filter flattens one argument: an Array for which any? holds
      (one with some element other than nil and false) is spliced in; anything
      else, an empty Array or one of only nil and false included, is pushed whole. */
  function Piece(arg: Value): seq<Value> {
    if arg.List? && AnyTruthy(arg.items) then arg.items else [arg]
  }

  /** The token list update_filter builds from its arguments. */
  function Flatten(args: seq<Value>): seq<Value> {
    if args == [] then [] else Flatten(args[..|args| - 1]) + Piece(args[|args| - 1])
  }

  /** The first loop of update_filter. */
  method BuildList(args: seq<Value>) returns (list: seq<Value>)
    ensures list == Flatten(args)
  {
    list := [];
    for i := 0 to |args|
      invariant list == Flatten(args[..i])
    {
      assert args[..i + 1][..i] == args[..i];
      var item := args[i];
      if item.List? && AnyTruthy(item.items) {
        list := list + item.items;
      } else {
        list := list + [item];
      }
    }
    assert args[..|args|] == args;
  }

  /** A token is in the flattened list exactly when it is one of the pieces of
      some argument: an element of an Array holding some truthy element, or an
      argument that is not such an Array. */
  lemma {:induction false} FlattenMembers(args: seq<Value>, x: Value)
    ensures x in Flatten(args) <==> exists i :: 0 <= i < |args| && x in Piece(args[i])
    ensures x in Flatten(args) <==>
              (exists i :: 0 <= i < |args| &&
                 ((args[i].List? && AnyTruthy(args[i].items) && x in args[i].items) ||
                  (!(args[i].List? && AnyTruthy(args[i].items)) && x == args[i])))
  {
    if args != [] {
      var front := args[..|args| - 1];
      FlattenMembers(front, x);
      if x in Flatten(args) {
        if x !in Flatten(front) {
          assert x in Piece(args[|args| - 1]);
        } else {
          var i :| 0 <= i < |front| && x in Piece(front[i]);
          assert args[i] == front[i];
        }
      }
      if exists i :: 0 <= i < |args| && x in Piece(args[i]) {
        var i :| 0 <= i < |args| && x in Piece(args[i]);
        if i < |args| - 1 {
          assert front[i] == args[i];
        }
      }
    }
  }

  /** The second loop of update_filter for :actions and :verbs: every token that
      is not a Symbol becomes one through to_sym; a token without to_sym raises
      NoMethodError, so no list comes out (None). */
  function Symbolized(list: seq<Value>): Option<seq<Value>> {
    if forall i :: 0 <= i < |list| ==> list[i].Str? || list[i].Sym? then
      Some(seq(|list|, i requires 0 <= i < |list| && (list[i].Str? || list[i].Sym?) => Sym(Text(list[i]))))
    else None
  }

  /** The conversion loop, which stops at the first token without to_sym. */
  method SymbolizeList(list: seq<Value>) returns (ok: bool, out: seq<Value>)
    ensures ok <==> forall i :: 0 <= i < |list| ==> list[i].Str? || list[i].Sym?
    ensures ok ==> |out| == |list| && forall i :: 0 <= i < |list| ==> out[i] == Sym(Text(list[i]))
    ensures ok ==> Symbolized(list) == Some(out)
  {
    out := list;
    var index := 0;
    while index < |list|
      invariant 0 <= index <= |list| && |out| == |list|
      invariant forall i :: 0 <= i < index ==> (list[i].Str? || list[i].Sym?) && out[i] == Sym(Text(list[i]))
      invariant forall i :: index <= i < |list| ==> out[i] == list[i]
    {
      var item := out[index];
      if !item.Sym? {
        match ToSym(item)
        case None =>
          ok := false;
          return;
        case Some(s) =>
          out := out[index := s];
      }
      index := index + 1;
    }
    ok := true;
    assert Symbolized(list).value == out;
  }

  /** The tokens update_filter applies for a key: None when to_sym raised. */
  function Tokens(key: Category, args: seq<Value>): Option<seq<Value>> {
    if key == Actions || key == Verbs then Symbolized(Flatten(args)) else Some(Flatten(args))
  }

  /** For :actions and :verbs every applied token is a Symbol. */
  lemma TokensOfSymbolKeys(key: Category, args: seq<Value>)
    requires key == Actions || key == Verbs
    ensures Tokens(key, args).Some? ==> forall i :: 0 <= i < |Flatten(args)| ==> Flatten(args)[i].Str? || Flatten(args)[i].Sym?
    ensures (forall i :: 0 <= i < |Flatten(args)| ==> Flatten(args)[i].Str? || Flatten(args)[i].Sym?) ==> Tokens(key, args).Some?
    ensures Tokens(key, args).Some? ==> forall t :: t in Tokens(key, args).value ==> t.Sym?
  {
    var flat := Flatten(args);
    assert Tokens(key, args) == Symbolized(flat);
    if forall i :: 0 <= i < |flat| ==> flat[i].Str? || flat[i].Sym? {
      assert Symbolized(flat).Some?;
    } else {
      var j :| 0 <= j < |flat| && !(flat[j].Str? || flat[j].Sym?);
      assert Symbolized(flat).None?;
    }
    if Symbolized(flat).Some? {
      var out := Symbolized(flat).value;
      forall t | t in out
        ensures t.Sym?
      {
        var i :| 0 <= i < |out| && out[i] == t;
      }
    }
  }

  predicate NoDup<T(==)>(s: seq<T>) {
    forall i, j :: 0 <= i < j < |s| ==> s[i] != s[j]
  }

  /** Array#uniq!: keep the first occurrence of every element. */
  function Dedup<T(==)>(s: seq<T>): seq<T> {
    if s == [] then []
    else
      var front := s[..|s| - 1];
      Dedup(front) + (if s[|s| - 1] in front then [] else [s[|s| - 1]])
  }

  lemma {:induction false} DedupMembers<T(!new)>(s: seq<T>)
    ensures forall x :: x in Dedup(s) <==> x in s
    ensures NoDup(Dedup(s))
  {
    if s != [] {
      var front := s[..|s| - 1];
      DedupMembers(front);
      assert s == front + [s[|s| - 1]];
    }
  }

  /** The list uniq! starts from survives as a prefix of the result. */
  lemma {:induction false} DedupExtends<T>(a: seq<T>, b: seq<T>)
    ensures |Dedup(a)| <= |Dedup(a + b)| && Dedup(a + b)[..|Dedup(a)|] == Dedup(a)
  {
    if b == [] {
      assert a + b == a;
    } else {
      var b' := b[..|b| - 1];
      DedupExtends(a, b');
      assert (a + b)[..|a + b| - 1] == a + b';
    }
  }

  /** uniq! changes nothing on a list without duplicates. */
  lemma {:induction false} DedupOfNoDup<T>(s: seq<T>)
    requires NoDup(s)
    ensures Dedup(s) == s
  {
    if s != [] {
      var front := s[..|s| - 1];
      DedupOfNoDup(front);
      assert s[|s| - 1] !in front by {
        forall i | 0 <= i < |front| ensures front[i] != s[|s| - 1] {
          assert front[i] == s[i];
        }
      }
      assert s == front + [s[|s| - 1]];
    }
  }

  /** Appending elements that are all present already, then uniq!, gives the list back. */
  lemma {:induction false} DedupAppendPresent<T(!new)>(a: seq<T>, b: seq<T>)
    requires NoDup(a)
    requires forall x :: x in b ==> x in a
    ensures Dedup(a + b) == a
  {
    if b == [] {
      assert a + b == a;
      DedupOfNoDup(a);
    } else {
      var b' := b[..|b| - 1];
      DedupAppendPresent(a, b');
      assert (a + b)[..|a + b| - 1] == a + b';
    }
  }

  /** The scope update_filter leaves behind for the given tokens. */
  function Edited(f: Filter, action: Edit, key: Category, tokens: seq<Value>): Filter {
    match action
    case Include => f.Set(key, Dedup(f.Get(key) + tokens))
    case Exclude => f.Set(key, Lists.Select(f.Get(key), (x: Value) => x !in tokens))
    case OtherEdit => f
  }

  /** Including: the category holds the old tokens (as a prefix) and the new
      ones, each once; no other category changes. */
  lemma IncludeEdit(f: Filter, key: Category, tokens: seq<Value>)
    ensures forall x :: x in Edited(f, Include, key, tokens).Get(key) <==> x in f.Get(key) || x in tokens
    ensures NoDup(Edited(f, Include, key, tokens).Get(key))
    ensures NoDup(f.Get(key)) ==>
      |f.Get(key)| <= |Edited(f, Include, key, tokens).Get(key)| &&
      Edited(f, Include, key, tokens).Get(key)[..|f.Get(key)|] == f.Get(key)
    ensures forall d :: d != key ==> Edited(f, Include, key, tokens).Get(d) == f.Get(d)
  {
    DedupMembers(f.Get(key) + tokens);
    if NoDup(f.Get(key)) {
      DedupExtends(f.Get(key), tokens);
      DedupOfNoDup(f.Get(key));
    }
  }

  /** Re-including tokens that are already present leaves the scope as it was. */
  lemma IncludePresentIsNoOp(f: Filter, key: Category, tokens: seq<Value>)
    requires NoDup(f.Get(key))
    requires forall x :: x in tokens ==> x in f.Get(key)
    ensures Edited(f, Include, key, tokens) == f
  {
    DedupAppendPresent(f.Get(key), tokens);
  }

  /** Excluding removes exactly the given tokens from the category and touches no other. */
  lemma ExcludeEdit(f: Filter, key: Category, tokens: seq<Value>)
    ensures forall x :: x in Edited(f, Exclude, key, tokens).Get(key) <==> x in f.Get(key) && x !in tokens
    ensures forall d :: d != key ==> Edited(f, Exclude, key, tokens).Get(d) == f.Get(d)
  {
  }

  /** DuckMap::FilterStack. */
  class FilterStack {

    var stack: seq<Filter>

    /** The stack is never empty. */
    ghost predicate Valid()
      reads this
    {
      |stack| > 0
    }

    /** initialize: reset. */
    constructor ()
      ensures Valid() && stack == [DefaultFilter]
    {
      stack := [DefaultFilter];
    }

    /** A single scope equal to DEFAULT_FILTER. */
    method Reset()
      modifies this
      ensures Valid() && stack == [DefaultFilter]
    {
      stack := [DefaultFilter];
    }

    /** The current filter is always the last scope. */
    function CurrentFilter(): Filter
      reads this
      requires Valid()
    {
      stack[|stack| - 1]
    }

    /** current_filter=: pop, then push the given scope. */
    method SetCurrentFilter(value: Filter)
      requires Valid()
      modifies this
      ensures Valid() && |stack| == |old(stack)|
      ensures stack == old(stack)[..|old(stack)| - 1] + [value]
    {
      stack := stack[..|stack| - 1];
      stack := stack + [value];
    }

    /** Push a copy of the current scope. */
    method Push()
      requires Valid()
      modifies this
      ensures Valid()
      ensures stack == old(stack) + [old(CurrentFilter())]
    {
      stack := stack + [CurrentFilter()];
    }

    /** Pop the top scope only when there is more than one. */
    method Pop() returns (top: Filter)
      requires Valid()
      modifies this
      ensures Valid()
      ensures top == old(CurrentFilter())
      ensures |old(stack)| > 1 ==> stack == old(stack)[..|old(stack)| - 1]
      ensures |old(stack)| == 1 ==> stack == old(stack)
    {
      top := CurrentFilter();
      if |stack| > 1 {
        stack := stack[..|stack| - 1];
      }
    }

    /** update_filter: flatten the arguments, make :actions and :verbs tokens
        Symbols, then include (concat and uniq!) or exclude (reject!) them on
        the top scope. ok is false when to_sym raised NoMethodError; nothing
        has changed then. */
    method UpdateFilter(action: Edit, key: Category, args: seq<Value>) returns (ok: bool)
      requires Valid()
      modifies this
      ensures Valid() && |stack| == |old(stack)|
      ensures ok == Tokens(key, args).Some?
      ensures ok ==> stack == old(stack)[..|old(stack)| - 1] + [Edited(old(CurrentFilter()), action, key, Tokens(key, args).value)]
      ensures !ok ==> stack == old(stack)
    {
      var list := BuildList(args);
      if key == Actions || key == Verbs {
        var converted;
        ok, converted := SymbolizeList(list);
        if !ok {
          return;
        }
        list := converted;
      }
      ok := true;
      var top := CurrentFilter();
      match action
      case Include =>
        SetCurrentFilter(top.Set(key, Dedup(top.Get(key) + list)));
      case Exclude =>
        SetCurrentFilter(top.Set(key, Lists.Select(top.Get(key), (x: Value) => x !in list)));
      case OtherEdit =>
    }

    method IncludeFilter(key: Category, args: seq<Value>) returns (ok: bool)
      requires Valid()
      modifies this
      ensures Valid() && |stack| == |old(stack)|
      ensures ok == Tokens(key, args).Some?
      ensures ok ==> stack == old(stack)[..|old(stack)| - 1] + [Edited(old(CurrentFilter()), Include, key, Tokens(key, args).value)]
      ensures !ok ==> stack == old(stack)
    {
      ok := UpdateFilter(Include, key, args);
    }

    method ExcludeFilter(key: Category, args: seq<Value>) returns (ok: bool)
      requires Valid()
      modifies this
      ensures Valid() && |stack| == |old(stack)|
      ensures ok == Tokens(key, args).Some?
      ensures ok ==> stack == old(stack)[..|old(stack)| - 1] + [Edited(old(CurrentFilter()), Exclude, key, Tokens(key, args).value)]
      ensures !ok ==> stack == old(stack)
    {
      ok := UpdateFilter(Exclude, key, args);
    }

    /** Replace the top scope by four empty lists. */
    method ClearFilters()
      requires Valid()
      modifies this
      ensures Valid() && |stack| == |old(stack)|
      ensures stack == old(stack)[..|old(stack)| - 1] + [EmptyFilter]
    {
      SetCurrentFilter(EmptyFilter);
    }

    /** Empty one category of the top scope. */
    method ClearFilter(key: Category)
      requires Valid()
      modifies this
      ensures Valid() && |stack| == |old(stack)|
      ensures stack == old(stack)[..|old(stack)| - 1] + [old(CurrentFilter()).Set(key, [])]
    {
      SetCurrentFilter(CurrentFilter().Set(key, []));
    }
  }

  /** A single Symbol argument yields itself as the only token. */
  lemma SymbolTokens(key: Category, name: string)
    ensures Tokens(key, [Sym(name)]) == Some([Sym(name)])
  {
    assert Flatten([Sym(name)]) == [Sym(name)] by {
      assert [Sym(name)][..0] == [];
    }
    if key == Actions || key == Verbs {
      assert Symbolized([Sym(name)]).value == [Sym(name)];
    }
  }

  /** An Array argument is spliced into its elements only when any? holds for it;
      an Array of nil and false alone (the empty one included) stays one token. */
  lemma NamesArrayTokens(xs: seq<Value>)
    ensures AnyTruthy(xs) ==> Tokens(Names, [List(xs)]) == Some(xs)
    ensures !AnyTruthy(xs) ==> Tokens(Names, [List(xs)]) == Some([List(xs)])
    ensures Tokens(Names, [List([Nil, Bool(false)])]) == Some([List([Nil, Bool(false)])])
  {
    FlattenOne(List(xs));
    var falsy := [Nil, Bool(false)];
    FlattenOne(List(falsy));
    assert !AnyTruthy(falsy) by {
      forall i | 0 <= i < |falsy| ensures !Truthy(falsy[i]) { }
    }
  }

  /** One argument flattens to its own pieces. */
  lemma FlattenOne(arg: Value)
    ensures Flatten([arg]) == Piece(arg)
  {
    assert [arg][..0] == [];
  }

  /** include_filter(:actions, :update) on the default scope appends :update. */
  lemma IncludeUpdateOnDefault()
    ensures Edited(DefaultFilter, Include, Actions, [Sym("update")]).actions == [Sym("index"), Sym("show"), Sym("update")]
  {
    var three := [Sym("index"), Sym("show"), Sym("update")];
    assert DefaultFilter.actions + [Sym("update")] == three;
    DedupOfNoDup(three);
  }

  /** exclude_filter(:actions, :update) takes it out again. */
  lemma ExcludeUpdate(f: Filter)
    requires f.actions == [Sym("index"), Sym("show"), Sym("update")]
    ensures Edited(f, Exclude, Actions, [Sym("update")]).actions == [Sym("index"), Sym("show")]
  {
    var p := (x: Value) => x !in [Sym("update")];
    var a := f.actions;
    assert a[1..][1..][1..] == [];
    assert Lists.Select(a[1..][1..], p) == [];
    assert Lists.Select(a[1..], p) == [Sym("show")];
    assert Lists.Select(a, p) == [Sym("index"), Sym("show")];
  }

  /** The scope-isolation scenario of the stack's tests: an action included
      below survives; one excluded after push is gone only from the pushed
      scope, and pop returns to the scope beneath, which never saw the
      exclusion. Pop on a single scope keeps it. */
  method PushIsolatesScopes() returns (pushed: Filter, restored: Filter, depth: nat)
    ensures pushed.actions == [Sym("index"), Sym("show")]
    ensures restored.actions == [Sym("index"), Sym("show"), Sym("update")]
    ensures depth == 1
  {
    var filters := new FilterStack();
    SymbolTokens(Actions, "update");
    IncludeUpdateOnDefault();
    var ok := filters.IncludeFilter(Actions, [Sym("update")]);
    ExcludeUpdate(filters.CurrentFilter());
    filters.Push();
    ok := filters.ExcludeFilter(Actions, [Sym("update")]);
    pushed := filters.Pop();
    var top := filters.Pop();
    restored := filters.CurrentFilter();
    depth := |filters.stack|;
  }
}
