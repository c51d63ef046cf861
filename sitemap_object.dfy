/** DuckMap::SitemapObject: acts_as_sitemap and its two shorthands, which
    merge sitemap attributes into the class-level map, and the two capture
    helpers an instance uses to read its sitemap values. */
module SitemapObjects {

  import opened Values
  import opened Attributes

  /** The key acts_as_sitemap works on and the arguments left after it: a
      leading Symbol, a leading String as a symbol, otherwise :all. */
  function ActsKey(args: seq<Value>): (r: (string, seq<Value>))
    ensures |args| > 0 && (args[0].Sym? || args[0].Str?) ==> r == (Text(args[0]), args[1..])
    ensures !(|args| > 0 && (args[0].Sym? || args[0].Str?)) ==> r == ("all", args)
  {
    if |args| > 0 && (args[0].Sym? || args[0].Str?) then (Text(args[0]), args[1..]) else ("all", args)
  }

  /** The options Hash after the key, or an empty one. */
  function ActsValues(rest: seq<Value>): map<string, Value> {
    if |rest| > 0 && rest[0].Hash? then rest[0].entries else map[]
  }

  /** A Hash option as a map, anything else as an empty one. */
  function HashOr(v: Value): map<string, Value> {
    if v.Hash? then v.entries else map[]
  }

  /** The Hash stored under a key, or an empty one when it is not a Hash. */
  function Sub(m: map<string, Value>, k: string): map<string, Value> {
    HashOr(Lookup(m, k))
  }

  /** The handler options with the block stored under :block when one is given. */
  function HandlerOptions(handler: map<string, Value>, block: Option<Value>): (options: map<string, Value>)
    ensures block.Some? ==> "block" in options && options["block"] == block.value
    ensures forall k :: k in handler && !(k == "block" && block.Some?) ==> k in options && options[k] == handler[k]
    ensures forall k :: k in options ==> k in handler || k == "block"
  {
    if block.Some? then handler["block" := block.value] else handler
  }

  /** The segment options merged: none when they are blank. */
  function SegmentOptions(segments: map<string, Value>): map<string, Value> {
    if Blank(Hash(segments)) then map[] else segments
  }

  /** An entry given :handler and :segments Hashes where it has none. */
  function Prepared(base: map<string, Value>): (p: map<string, Value>)
    ensures "handler" in p && p["handler"] == Hash(Sub(base, "handler"))
    ensures "segments" in p && p["segments"] == Hash(Sub(base, "segments"))
    ensures forall k :: k in base && k != "handler" && k != "segments" ==> k in p && p[k] == base[k]
    ensures p.Keys == base.Keys + {"handler", "segments"}
  {
    var withHandler := if Lookup(base, "handler").Hash? then base else base["handler" := Hash(map[])];
    if Lookup(withHandler, "segments").Hash? then withHandler else withHandler["segments" := Hash(map[])]
  }

  /** The entry prepared and merged with the plain values; these never hold
      :handler or :segments. */
  function Plain(base: map<string, Value>, values: map<string, Value>): (plain: map<string, Value>)
    requires "handler" !in values && "segments" !in values
    ensures "handler" in plain && plain["handler"] == Hash(Sub(base, "handler"))
    ensures "segments" in plain && plain["segments"] == Hash(Sub(base, "segments"))
    ensures forall k :: k in values ==> k in plain && plain[k] == values[k]
    ensures forall k :: k in base && k !in values && k != "handler" && k != "segments" ==> k in plain && plain[k] == base[k]
    ensures plain.Keys == base.Keys + values.Keys + {"handler", "segments"}
  {
    Prepared(base) + values
  }

  /** The :handler Hash merged with the handler options, and the :segments
      Hash with the segment options when they are not blank. */
  function MergeOptions(plain: map<string, Value>, handler: map<string, Value>, segments: map<string, Value>,
                        block: Option<Value>): (merged: map<string, Value>)
    requires "handler" in plain && plain["handler"].Hash? && "segments" in plain && plain["segments"].Hash?
    ensures merged.Keys == plain.Keys
    ensures merged["handler"] == Hash(plain["handler"].entries + HandlerOptions(handler, block))
    ensures merged["segments"] == Hash(plain["segments"].entries + SegmentOptions(segments))
    ensures forall k :: k in plain && k != "handler" && k != "segments" ==> merged[k] == plain[k]
  {
    var handled := plain["handler" := Hash(plain["handler"].entries + HandlerOptions(handler, block))];
    if Blank(Hash(segments)) then
      assert plain["segments"].entries + SegmentOptions(segments) == plain["segments"].entries;
      handled
    else handled["segments" := Hash(handled["segments"].entries + segments)]
  }

  /** One entry after acts_as_sitemap, step by step as the code makes it:
      created when missing, given :handler and :segments Hashes when they
      are not Hashes, merged with the plain values, its handler merged with
      the handler options (and the block), its segments merged with the
      segment options when they are not blank. */
  function MergeEntry(entry: Value, values: map<string, Value>, handler: map<string, Value>,
                      segments: map<string, Value>, block: Option<Value>): (merged: map<string, Value>)
    requires "handler" !in values && "segments" !in values
    ensures forall k :: k in values ==> k in merged && merged[k] == values[k]
    ensures "handler" in merged && merged["handler"] == Hash(Sub(HashOr(entry), "handler") + HandlerOptions(handler, block))
    ensures "segments" in merged && merged["segments"] == Hash(Sub(HashOr(entry), "segments") + SegmentOptions(segments))
    ensures forall k :: k in HashOr(entry) && k !in values && k != "handler" && k != "segments" ==>
      k in merged && merged[k] == HashOr(entry)[k]
    ensures merged.Keys == HashOr(entry).Keys + values.Keys + {"handler", "segments"}
  {
    MergeOptions(Plain(HashOr(entry), values), handler, segments, block)
  }

  /** Merging the same options a second time adds nothing. */
  lemma MergeAbsorbs(a: map<string, Value>, b: map<string, Value>)
    ensures (a + b) + b == a + b
  {
    SameMap((a + b) + b, a + b);
  }

  /** Repeating an identical merge leaves the entry as it is. */
  lemma MergeEntryIdempotent(entry: Value, values: map<string, Value>, handler: map<string, Value>,
                             segments: map<string, Value>, block: Option<Value>)
    requires "handler" !in values && "segments" !in values
    ensures var once := MergeEntry(entry, values, handler, segments, block);
      MergeEntry(Hash(once), values, handler, segments, block) == once
  {
    var once := MergeEntry(entry, values, handler, segments, block);
    var twice := MergeEntry(Hash(once), values, handler, segments, block);
    assert HashOr(Hash(once)) == once;
    MergeAbsorbs(Sub(HashOr(entry), "handler"), HandlerOptions(handler, block));
    MergeAbsorbs(Sub(HashOr(entry), "segments"), SegmentOptions(segments));
    forall k | k in once ensures twice[k] == once[k] {
      if k == "handler" {
      } else if k == "segments" {
      } else if k in values {
      } else {
      }
    }
    SameMap(twice, once);
  }

  /** The merge acts_as_sitemap applies to each entry it touches. */
  function Merger(values: map<string, Value>, handler: map<string, Value>, segments: map<string, Value>,
                  block: Option<Value>): Value -> Value
    requires "handler" !in values && "segments" !in values
  {
    (entry: Value) => Hash(MergeEntry(entry, values, handler, segments, block))
  }

  /** The class-level map after a merge of a set of keys: those keys'
      entries merged (a missing one created), every other entry unchanged. */
  function ActedOn(attrs: map<string, Value>, keys: set<string>, merge: Value -> Value): (acted: map<string, Value>)
    ensures acted.Keys == attrs.Keys + keys
    ensures forall k :: k in attrs && k !in keys ==> acted[k] == attrs[k]
    ensures forall k :: k in keys ==> acted[k] == merge(Lookup(attrs, k))
  {
    map k | k in attrs.Keys + keys :: if k in keys then merge(Lookup(attrs, k)) else attrs[k]
  }

  /** The keys acts_as_sitemap touches: every existing entry for :all, else the one key. */
  function KeysFor(attrs: map<string, Value>, key: string): (keys: set<string>)
    ensures key == "all" ==> keys == attrs.Keys
    ensures key != "all" ==> keys == {key}
  {
    if key == "all" then attrs.Keys else {key}
  }

  /** acts_as_sitemap(*args, &block) on the class-level map it finds. The
      :handler and :segments options are taken out of the values; the
      lastmod String conversion is not part of this model. */
  function ActsAsSitemapSpec(attrs: map<string, Value>, args: seq<Value>, block: Option<Value>): map<string, Value> {
    var key := ActsKey(args).0;
    var options := ActsValues(ActsKey(args).1);
    ActedOn(attrs, KeysFor(attrs, key), Merger(options - {"handler", "segments"},
            HashOr(Lookup(options, "handler")), HashOr(Lookup(options, "segments")), block))
  }

  /** An entry as acts_as_sitemap leaves it: a Hash whose :handler and
      :segments are Hashes. */
  predicate Shaped(v: Value) {
    v.Hash? && "handler" in v.entries && v.entries["handler"].Hash? &&
    "segments" in v.entries && v.entries["segments"].Hash?
  }

  /** A merged entry has that shape. */
  lemma MergedShape(entry: Value, values: map<string, Value>, handler: map<string, Value>,
                    segments: map<string, Value>, block: Option<Value>)
    requires "handler" !in values && "segments" !in values
    ensures Shaped(Merger(values, handler, segments, block)(entry))
  {
    var merged := MergeEntry(entry, values, handler, segments, block);
    assert Merger(values, handler, segments, block)(entry) == Hash(merged);
  }

  /** A merge that always yields that shape leaves every key it touches shaped. */
  lemma ActedOnShaped(attrs: map<string, Value>, keys: set<string>, merge: Value -> Value)
    requires forall e :: Shaped(merge(e))
    ensures forall k :: k in keys ==> Shaped(ActedOn(attrs, keys, merge)[k])
  {
  }

  /** With a specific key only that entry changes; with :all every entry
      changes and no entry is added. */
  lemma ActsAsSitemapScope(attrs: map<string, Value>, args: seq<Value>, block: Option<Value>)
    ensures var acted := ActsAsSitemapSpec(attrs, args, block);
      (ActsKey(args).0 == "all" ==> acted.Keys == attrs.Keys) &&
      (ActsKey(args).0 != "all" ==>
         acted.Keys == attrs.Keys + {ActsKey(args).0} &&
         forall k :: k in attrs && k != ActsKey(args).0 ==> acted[k] == attrs[k])
  {
  }

  /** Every entry acts_as_sitemap touches is a Hash whose :handler and
      :segments are Hashes. */
  lemma ActsAsSitemapShape(attrs: map<string, Value>, args: seq<Value>, block: Option<Value>)
    ensures forall k :: k in KeysFor(attrs, ActsKey(args).0) ==> Shaped(ActsAsSitemapSpec(attrs, args, block)[k])
  {
    var options := ActsValues(ActsKey(args).1);
    var values := options - {"handler", "segments"};
    var handler := HashOr(Lookup(options, "handler"));
    var segments := HashOr(Lookup(options, "segments"));
    forall e | true
      ensures Shaped(Merger(values, handler, segments, block)(e))
    {
      MergedShape(e, values, handler, segments, block);
    }
    ActedOnShaped(attrs, KeysFor(attrs, ActsKey(args).0), Merger(values, handler, segments, block));
  }

  /** Repeating an identical acts_as_sitemap call leaves the map unchanged. */
  lemma ActsAsSitemapIdempotent(attrs: map<string, Value>, args: seq<Value>, block: Option<Value>)
    ensures ActsAsSitemapSpec(ActsAsSitemapSpec(attrs, args, block), args, block) == ActsAsSitemapSpec(attrs, args, block)
  {
    var key := ActsKey(args).0;
    var options := ActsValues(ActsKey(args).1);
    var values := options - {"handler", "segments"};
    var handler := HashOr(Lookup(options, "handler"));
    var segments := HashOr(Lookup(options, "segments"));
    var once := ActsAsSitemapSpec(attrs, args, block);
    var twice := ActsAsSitemapSpec(once, args, block);
    assert KeysFor(once, key) == KeysFor(attrs, key);
    forall k | k in once
      ensures twice[k] == once[k]
    {
      if k in KeysFor(attrs, key) {
        MergeEntryIdempotent(Lookup(attrs, k), values, handler, segments, block);
      }
    }
    SameMap(twice, once);
  }

  /** The entry's :handler and :segments set to empty Hashes where they are not Hashes. */
  method PrepareInto(base: map<string, Value>) returns (prepared: map<string, Value>)
    ensures prepared == Prepared(base)
  {
    prepared := base;
    if !Lookup(prepared, "handler").Hash? {
      prepared := prepared["handler" := Hash(map[])];
    }
    if !Lookup(prepared, "segments").Hash? {
      prepared := prepared["segments" := Hash(map[])];
    }
  }

  /** The handler options (and the block) merged into :handler, the segment
      options into :segments unless they are blank. */
  method OptionsInto(plain: map<string, Value>, handler: map<string, Value>, segments: map<string, Value>,
                     block: Option<Value>) returns (merged: map<string, Value>)
    requires "handler" in plain && plain["handler"].Hash? && "segments" in plain && plain["segments"].Hash?
    ensures merged == MergeOptions(plain, handler, segments, block)
  {
    var handlerOptions := handler;
    if block.Some? {
      handlerOptions := handlerOptions["block" := block.value];
    }
    assert handlerOptions == HandlerOptions(handler, block);
    merged := plain["handler" := Hash(plain["handler"].entries + handlerOptions)];
    if !Blank(Hash(segments)) {
      merged := merged["segments" := Hash(merged["segments"].entries + segments)];
    }
  }

  /** The merge of one entry, step by step as acts_as_sitemap makes it. */
  method MergeInto(entry: Value, values: map<string, Value>, handler: map<string, Value>,
                   segments: map<string, Value>, block: Option<Value>) returns (merged: map<string, Value>)
    requires "handler" !in values && "segments" !in values
    ensures merged == MergeEntry(entry, values, handler, segments, block)
  {
    var base := if entry.Hash? then entry.entries else map[];
    var prepared := PrepareInto(base);
    var plain := prepared + values;
    assert plain == Plain(HashOr(entry), values);
    merged := OptionsInto(plain, handler, segments, block);
  }


  /** Merging one more key extends the map by that key's merged entry. */
  lemma ActedOnInsert(attrs: map<string, Value>, done: set<string>, k: string, merge: Value -> Value)
    requires k !in done
    ensures Lookup(ActedOn(attrs, done, merge), k) == Lookup(attrs, k)
    ensures ActedOn(attrs, done + {k}, merge) == ActedOn(attrs, done, merge)[k := merge(Lookup(attrs, k))]
  {
    var before := ActedOn(attrs, done, merge);
    var after := ActedOn(attrs, done + {k}, merge);
    SameMap(after, before[k := merge(Lookup(attrs, k))]);
  }

  /** One turn of the key loop: one more pending key merged into the map built so far. */
  lemma MergeStep(attrs: map<string, Value>, keys: set<string>, pending: set<string>, k: string, merge: Value -> Value)
    requires k in pending && pending <= keys
    ensures Lookup(ActedOn(attrs, keys - pending, merge), k) == Lookup(attrs, k)
    ensures ActedOn(attrs, keys - (pending - {k}), merge) == ActedOn(attrs, keys - pending, merge)[k := merge(Lookup(attrs, k))]
  {
    assert keys - (pending - {k}) == (keys - pending) + {k};
    ActedOnInsert(attrs, keys - pending, k, merge);
  }

  /** The ends of the key loop: nothing done yet is the map as found, and
      nothing pending is every key merged. */
  lemma MergeEnds(attrs: map<string, Value>, keys: set<string>, merge: Value -> Value)
    ensures ActedOn(attrs, keys - keys, merge) == attrs
    ensures ActedOn(attrs, keys - {}, merge) == ActedOn(attrs, keys, merge)
  {
    assert keys - keys == {};
    assert keys - {} == keys;
    SameMap(ActedOn(attrs, {}, merge), attrs);
  }

  /** One turn of the key loop: the entry under k merged step by step. */
  method MergeAt(acted: map<string, Value>, k: string, values: map<string, Value>, handler: map<string, Value>,
                 segments: map<string, Value>, block: Option<Value>) returns (next: map<string, Value>)
    requires "handler" !in values && "segments" !in values
    ensures next == acted[k := Merger(values, handler, segments, block)(Lookup(acted, k))]
  {
    var merged := MergeInto(Lookup(acted, k), values, handler, segments, block);
    next := acted[k := Hash(merged)];
  }

  /** The key loop of acts_as_sitemap: each key's entry merged in turn. */
  method MergeKeys(attrs: map<string, Value>, keys: set<string>, values: map<string, Value>, handler: map<string, Value>,
                   segments: map<string, Value>, block: Option<Value>) returns (acted: map<string, Value>)
    requires "handler" !in values && "segments" !in values
    ensures acted == ActedOn(attrs, keys, Merger(values, handler, segments, block))
  {
    MergeEnds(attrs, keys, Merger(values, handler, segments, block));
    acted := attrs;
    var pending := keys;
    while pending != {}
      invariant pending <= keys
      invariant acted == ActedOn(attrs, keys - pending, Merger(values, handler, segments, block))
      decreases |pending|
    {
      var k :| k in pending;
      MergeStep(attrs, keys, pending, k, Merger(values, handler, segments, block));
      acted := MergeAt(acted, k, values, handler, segments, block);
      pending := pending - {k};
    }
  }

  /** acts_as_sitemap(*args, &block): marks the class as defining its own
      attributes and merges the options into the class-level map, which is
      first copied from the configuration when the class has none. */
  method ActsAsSitemap(store: AttributeStore, config: map<string, Value>, args: seq<Value>, block: Option<Value>)
    requires !store.attributesHash.Hash? ==> Copyable(config)
    modifies store
    ensures store.attributesDefined == Some(true)
    ensures store.attributesHash ==
      Hash(ActsAsSitemapSpec(if old(store.attributesHash).Hash? then old(store.attributesHash).entries else config, args, block))
  {
    store.attributesDefined := Some(true);
    var (key, rest) := ActsKey(args);
    var options := ActsValues(rest);
    var handler := HashOr(Lookup(options, "handler"));
    var segments := HashOr(Lookup(options, "segments"));
    var values := options - {"handler", "segments"};
    var attrs := store.SitemapAttributes(config);
    var acted := MergeKeys(attrs, KeysFor(attrs, key), values, handler, segments, block);
    store.attributesHash := Hash(acted);
  }

  /** The key and options of sitemap_handler and sitemap_segments: a leading
      Symbol is the key (else :all), a Hash after it is the options, and a
      trailing Hash replaces them. */
  function ShorthandOptions(args: seq<Value>): (r: (string, map<string, Value>)) {
    var (key, rest) := if |args| > 0 && args[0].Sym? then (args[0].name, args[1..]) else ("all", args);
    var (options, rest') := if |rest| > 0 && rest[0].Hash? then (rest[0].entries, rest[1..]) else (map[], rest);
    var options' := if |rest'| > 0 && rest'[|rest'| - 1].Hash? then rest'[|rest'| - 1].entries else options;
    (key, options')
  }

  /** sitemap_handler(*args, &block): acts_as_sitemap(key, handler: options, &block). */
  method SitemapHandler(store: AttributeStore, config: map<string, Value>, args: seq<Value>, block: Option<Value>)
    requires !store.attributesHash.Hash? ==> Copyable(config)
    modifies store
    ensures store.attributesDefined == Some(true)
    ensures var (key, options) := ShorthandOptions(args);
      store.attributesHash ==
      Hash(ActsAsSitemapSpec(if old(store.attributesHash).Hash? then old(store.attributesHash).entries else config,
                             [Sym(key), Hash(map["handler" := Hash(options)])], block))
  {
    var (key, options) := ShorthandOptions(args);
    ActsAsSitemap(store, config, [Sym(key), Hash(map["handler" := Hash(options)])], block);
  }

  /** sitemap_segments(*args, &block): acts_as_sitemap(key, segments: options, &block). */
  method SitemapSegments(store: AttributeStore, config: map<string, Value>, args: seq<Value>, block: Option<Value>)
    requires !store.attributesHash.Hash? ==> Copyable(config)
    modifies store
    ensures store.attributesDefined == Some(true)
    ensures var (key, options) := ShorthandOptions(args);
      store.attributesHash ==
      Hash(ActsAsSitemapSpec(if old(store.attributesHash).Hash? then old(store.attributesHash).entries else config,
                             [Sym(key), Hash(map["segments" := Hash(options)])], block))
  {
    var (key, options) := ShorthandOptions(args);
    ActsAsSitemap(store, config, [Sym(key), Hash(map["segments" := Hash(options)])], block);
  }

  /** The :handler of a merged entry: the entry's own handler Hash merged
      with the handler options. */
  lemma MergedHandler(entry: Value, values: map<string, Value>, handler: map<string, Value>,
                      segments: map<string, Value>, block: Option<Value>)
    requires "handler" !in values && "segments" !in values
    ensures var m := Merger(values, handler, segments, block)(entry);
      m.Hash? && "handler" in m.entries &&
      m.entries["handler"] == Hash(Sub(HashOr(entry), "handler") + HandlerOptions(handler, block))
  {
    var merged := MergeEntry(entry, values, handler, segments, block);
    assert Merger(values, handler, segments, block)(entry) == Hash(merged);
  }

  /** sitemap_handler on one key changes only that entry's handler, keeping
      its other handler options, and stores the block there. */
  lemma SitemapHandlerMerges(attrs: map<string, Value>, key: string, options: map<string, Value>, block: Option<Value>)
    requires key != "all"
    ensures var acted := ActsAsSitemapSpec(attrs, [Sym(key), Hash(map["handler" := Hash(options)])], block);
      var before := HashOr(Lookup(HashOr(Lookup(attrs, key)), "handler"));
      var after := acted[key].entries["handler"].entries;
      (forall k :: k in options && !(k == "block" && block.Some?) ==> k in after && after[k] == options[k]) &&
      (forall k :: k in before && k !in options && !(k == "block" && block.Some?) ==> k in after && after[k] == before[k]) &&
      (block.Some? ==> "block" in after && after["block"] == block.value) &&
      (forall k :: k in attrs && k != key ==> acted[k] == attrs[k])
  {
    var args := [Sym(key), Hash(map["handler" := Hash(options)])];
    assert ActsKey(args).0 == key;
    var opts := ActsValues(ActsKey(args).1);
    assert opts == map["handler" := Hash(options)];
    var values := opts - {"handler", "segments"};
    var handler := HashOr(Lookup(opts, "handler"));
    assert handler == options;
    var segments := HashOr(Lookup(opts, "segments"));
    var keys := KeysFor(attrs, ActsKey(args).0);
    assert keys == {key};
    MergedHandler(Lookup(attrs, key), values, handler, segments, block);
  }

  /** The value a capture keeps for an attribute: a Symbol names a method of
      the object, anything else is the value itself. */
  predicate Captures(obj: map<string, Value>, v: Value) {
    if v.Sym? then v.name in obj && !Blank(obj[v.name]) else !Blank(v)
  }

  function CapturedValue(obj: map<string, Value>, v: Value): Value
    requires Captures(obj, v)
  {
    if v.Sym? then obj[v.name] else v
  }

  /** sitemap_capture_attributes: each pair whose value is a Symbol takes
      the object's non-blank value of that method; any other non-blank value
      is copied; blank ones are left out. The object's readable methods are
      the map `obj`. */
  function Captured(obj: map<string, Value>, attributes: map<string, Value>): map<string, Value> {
    map k | k in attributes && Captures(obj, attributes[k]) :: CapturedValue(obj, attributes[k])
  }

  method SitemapCaptureAttributes(obj: map<string, Value>, attributes: map<string, Value>) returns (values: map<string, Value>)
    ensures values == Captured(obj, attributes)
  {
    values := map[];
    var pending := attributes.Keys;
    while pending != {}
      invariant pending <= attributes.Keys
      invariant forall k :: k in values <==> k in attributes && k !in pending && Captures(obj, attributes[k])
      invariant forall k :: k in values ==> values[k] == CapturedValue(obj, attributes[k])
      decreases |pending|
    {
      var k :| k in pending;
      var v := attributes[k];
      if v.Sym? {
        if v.name in obj {
          var value := obj[v.name];
          if !Blank(value) {
            values := values[k := value];
          }
        }
      } else if !Blank(v) {
        values := values[k := v];
      }
      pending := pending - {k};
    }
  }

  /** What a capture holds: keys of the attributes only, no blank value, and
      no Symbol left unresolved unless the object itself returned it. */
  lemma CapturedMeans(obj: map<string, Value>, attributes: map<string, Value>)
    ensures forall k :: k in Captured(obj, attributes) ==> k in attributes && !Blank(Captured(obj, attributes)[k])
    ensures forall k :: k in attributes && attributes[k].Sym? && k in Captured(obj, attributes) ==>
      attributes[k].name in obj && Captured(obj, attributes)[k] == obj[attributes[k].name]
    ensures forall k :: k in attributes && !attributes[k].Sym? ==>
      (k in Captured(obj, attributes) <==> !Blank(attributes[k]))
  {
  }

  /** The segment mappings sitemap_capture_segments can use: blank, or a
      Hash whose values are blank or name a method. */
  predicate Mappings(mappings: Value) {
    Blank(mappings) ||
    (mappings.Hash? && forall k :: k in mappings.entries ==>
       Blank(mappings.entries[k]) || mappings.entries[k].Str? || mappings.entries[k].Sym?)
  }

  /** The method a segment key is read from: its mapping when one is given
      and not blank, else the key itself. */
  function AttributeName(mappings: Value, key: Value): string
    requires Mappings(mappings) && (key.Str? || key.Sym?)
  {
    if Blank(mappings) || Blank(Lookup(mappings.entries, Text(key))) then Text(key)
    else Text(mappings.entries[Text(key)])
  }

  predicate Readable(obj: map<string, Value>, mappings: Value, key: Value)
    requires Mappings(mappings) && (key.Str? || key.Sym?)
  {
    AttributeName(mappings, key) in obj || Text(key) in obj
  }

  function SegmentValue(obj: map<string, Value>, mappings: Value, key: Value): Value
    requires Mappings(mappings) && (key.Str? || key.Sym?) && Readable(obj, mappings, key)
  {
    if AttributeName(mappings, key) in obj then obj[AttributeName(mappings, key)] else obj[Text(key)]
  }

  predicate SegmentKeys(segments: Value) {
    segments.List? ==> forall i :: 0 <= i < |segments.items| ==> segments.items[i].Str? || segments.items[i].Sym?
  }

  /** sitemap_capture_segments: for each segment key the object can answer,
      the value of its mapped method, else of the method of that name. */
  function CapturedSegments(obj: map<string, Value>, mappings: Value, segments: Value): map<Value, Value>
    requires Mappings(mappings) && SegmentKeys(segments)
  {
    if !segments.List? then map[] else
    map key | key in segments.items && (key.Str? || key.Sym?) && Readable(obj, mappings, key) ::
      SegmentValue(obj, mappings, key)
  }

  /** The first loop of sitemap_capture_segments: the segment keys whose
      mapped method the object has, with that method's value. */
  method MappedSegments(obj: map<string, Value>, mappings: Value, items: seq<Value>) returns (values: map<Value, Value>)
    requires Mappings(mappings) && !Blank(mappings)
    requires forall i :: 0 <= i < |items| ==> items[i].Str? || items[i].Sym?
    ensures forall key :: key in values <==> key in items && AttributeName(mappings, key) in obj
    ensures forall key :: key in values ==> values[key] == obj[AttributeName(mappings, key)]
  {
    values := map[];
    for i := 0 to |items|
      invariant forall key :: key in values <==> key in items[..i] && AttributeName(mappings, key) in obj
      invariant forall key :: key in values ==> values[key] == obj[AttributeName(mappings, key)]
    {
      var key := items[i];
      var attributeName := if Blank(Lookup(mappings.entries, Text(key))) then Text(key) else Text(mappings.entries[Text(key)]);
      if attributeName in obj {
        values := values[key := obj[attributeName]];
      }
    }
    assert items[..|items|] == items;
  }

  /** The second loop: every segment key not captured yet whose own method
      the object has, with that method's value. */
  method NamedSegments(obj: map<string, Value>, items: seq<Value>, mapped: map<Value, Value>) returns (values: map<Value, Value>)
    requires forall i :: 0 <= i < |items| ==> items[i].Str? || items[i].Sym?
    ensures forall key :: key in values <==> key in mapped || (key in items && Text(key) in obj)
    ensures forall key :: key in mapped ==> values[key] == mapped[key]
    ensures forall key :: key in values && key !in mapped ==> values[key] == obj[Text(key)]
  {
    values := mapped;
    for i := 0 to |items|
      invariant forall key :: key in values <==> key in mapped || (key in items[..i] && Text(key) in obj)
      invariant forall key :: key in mapped ==> values[key] == mapped[key]
      invariant forall key :: key in values && key !in mapped ==> values[key] == obj[Text(key)]
    {
      var key := items[i];
      if key !in values {
        if Text(key) in obj {
          values := values[key := obj[Text(key)]];
        }
      }
    }
    assert items[..|items|] == items;
  }

  /** The two loops together capture exactly CapturedSegments. */
  lemma SegmentsAssembled(obj: map<string, Value>, mappings: Value, segments: Value,
                          mapped: map<Value, Value>, values: map<Value, Value>)
    requires Mappings(mappings) && SegmentKeys(segments) && segments.List?
    requires Blank(mappings) ==> mapped == map[]
    requires !Blank(mappings) ==> forall key :: key in mapped <==> key in segments.items && AttributeName(mappings, key) in obj
    requires !Blank(mappings) ==> forall key :: key in mapped ==> mapped[key] == obj[AttributeName(mappings, key)]
    requires forall key :: key in values <==> key in mapped || (key in segments.items && Text(key) in obj)
    requires forall key :: key in mapped ==> values[key] == mapped[key]
    requires forall key :: key in values && key !in mapped ==> values[key] == obj[Text(key)]
    ensures values == CapturedSegments(obj, mappings, segments)
  {
    var spec := CapturedSegments(obj, mappings, segments);
    forall key
      ensures key in values <==> key in spec
    {
      if key in segments.items {
        assert key.Str? || key.Sym?;
      }
    }
    assert values.Keys == spec.Keys;
    forall key | key in values
      ensures values[key] == spec[key]
    {
      assert key in segments.items;
    }
  }

  method SitemapCaptureSegments(obj: map<string, Value>, mappings: Value, segments: Value) returns (values: map<Value, Value>)
    requires Mappings(mappings) && SegmentKeys(segments)
    ensures values == CapturedSegments(obj, mappings, segments)
  {
    if !segments.List? {
      return map[];
    }
    var mapped: map<Value, Value> := map[];
    if !Blank(mappings) {
      mapped := MappedSegments(obj, mappings, segments.items);
    }
    values := NamedSegments(obj, segments.items, mapped);
    SegmentsAssembled(obj, mappings, segments, mapped, values);
  }

  /** A mapped method wins over a method named like the segment, the
      result's keys are segment keys, and without mappings only the
      methods named like the segments are read. */
  lemma CapturedSegmentsMeans(obj: map<string, Value>, mappings: Value, segments: Value)
    requires Mappings(mappings) && SegmentKeys(segments)
    ensures !segments.List? ==> CapturedSegments(obj, mappings, segments) == map[]
    ensures segments.List? ==> forall key :: key in CapturedSegments(obj, mappings, segments) ==> key in segments.items
    ensures segments.List? ==> forall key :: key in segments.items && AttributeName(mappings, key) in obj ==>
      key in CapturedSegments(obj, mappings, segments) &&
      CapturedSegments(obj, mappings, segments)[key] == obj[AttributeName(mappings, key)]
    ensures segments.List? && Blank(mappings) ==> forall key :: key in CapturedSegments(obj, mappings, segments) ==>
      CapturedSegments(obj, mappings, segments)[key] == obj[Text(key)]
  {
  }
}
