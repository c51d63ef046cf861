/** DuckMap::Attributes: the class-level sitemap attributes of a controller
    (or of the configuration), keyed by action name, and the lookups an
    instance makes into them. */
module Attributes {

  import opened Values

  /** What the lazy copy needs of the configuration's map: every entry is a
      Hash with a :handler Hash, since Hash#merge raises on anything else. */
  predicate Copyable(source: map<string, Value>) {
    forall k :: k in source ==> source[k].Hash? && Lookup(source[k].entries, "handler").Hash?
  }

  /** sitemap_attributes(key) of an instance: a blank key means :default,
      and a key whose entry is not a Hash falls back to :default. Only a
      String or a Symbol has to_sym. */
  function AttributesFor(attrs: map<string, Value>, key: Value): (entry: Value)
    requires Blank(key) || key.Str? || key.Sym?
    ensures Blank(key) ==> entry == Lookup(attrs, "default")
    ensures !Blank(key) && Lookup(attrs, Text(key)).Hash? ==> entry == attrs[Text(key)]
    ensures !Blank(key) && !Lookup(attrs, Text(key)).Hash? ==> entry == Lookup(attrs, "default")
  {
    var k := if Blank(key) then "default" else Text(key);
    var k' := if Lookup(attrs, k).Hash? then k else "default";
    Lookup(attrs, k')
  }

  /** The pairs of an entry whose value is not a Hash. */
  function Stripped(entries: map<string, Value>): map<string, Value> {
    map k | k in entries && !entries[k].Hash? :: entries[k]
  }

  /** sitemap_stripped_attributes(key): the resolved entry without its
      nested hashes (:handler and :segments among them). An entry that is
      not a Hash (no :default either) has no each: None. */
  method SitemapStrippedAttributes(attrs: map<string, Value>, key: Value) returns (values: Option<map<string, Value>>)
    requires Blank(key) || key.Str? || key.Sym?
    ensures AttributesFor(attrs, key).Hash? <==> values.Some?
    ensures values.Some? ==> values.value == Stripped(AttributesFor(attrs, key).entries)
    ensures values.Some? ==> forall k :: k in values.value ==>
      !values.value[k].Hash? && k in AttributesFor(attrs, key).entries
  {
    var attributes := AttributesFor(attrs, key);
    if !attributes.Hash? {
      return None;
    }
    var entries := attributes.entries;
    var stripped: map<string, Value> := map[];
    var pending := entries.Keys;
    while pending != {}
      invariant pending <= entries.Keys
      invariant forall k :: k in stripped <==> k in entries && k !in pending && !entries[k].Hash?
      invariant forall k :: k in stripped ==> stripped[k] == entries[k]
      decreases |pending|
    {
      var k :| k in pending;
      if !entries[k].Hash? {
        stripped := stripped[k := entries[k]];
      }
      pending := pending - {k};
    }
    return Some(stripped);
  }

  /** Stripping removes exactly the nested hashes and keeps every other pair. */
  lemma StrippedMeans(entries: map<string, Value>)
    ensures forall k :: k in Stripped(entries) <==> k in entries && !entries[k].Hash?
    ensures forall k :: k in Stripped(entries) ==> Stripped(entries)[k] == entries[k]
    ensures "handler" in entries && entries["handler"].Hash? ==> "handler" !in Stripped(entries)
    ensures Stripped(Stripped(entries)) == Stripped(entries)
  {
  }

  /** {}.merge(entry) with {}.merge(entry[:handler]) stored under :handler:
      a new Hash with the same pairs. */
  function CopiedEntry(entry: Value): (copy: Value)
    requires entry.Hash? && Lookup(entry.entries, "handler").Hash?
    ensures copy == entry
  {
    var top := map[] + entry.entries;
    var handler := map[] + Lookup(entry.entries, "handler").entries;
    assert top == entry.entries && handler == entry.entries["handler"].entries;
    assert top["handler" := Hash(handler)] == entry.entries;
    Hash(top["handler" := Hash(handler)])
  }

  /** Maps with the same keys and the same value at each are equal. */
  lemma SameMap(a: map<string, Value>, b: map<string, Value>)
    requires a.Keys == b.Keys && forall k :: k in a ==> a[k] == b[k]
    ensures a == b
  {
  }

  /** The copying loop of the lazy initialisation. */
  method CopyAttributes(source: map<string, Value>) returns (copy: map<string, Value>)
    requires Copyable(source)
    ensures copy == source
  {
    copy := map[];
    var pending := source.Keys;
    while pending != {}
      invariant pending <= source.Keys
      invariant forall k :: k in copy <==> k in source && k !in pending
      invariant forall k :: k in copy ==> copy[k] == source[k]
      decreases |pending|
    {
      var k :| k in pending;
      copy := copy[k := CopiedEntry(source[k])];
      pending := pending - {k};
    }
    SameMap(copy, source);
  }

  /** The class-level state: sitemap_attributes_hash (anything until it is a
      Hash) and the sitemap_attributes_defined flag. */
  class AttributeStore {

    var attributesHash: Value
    var attributesDefined: Option<bool>

    /** A class that has not touched either attribute yet. */
    constructor ()
      ensures attributesHash == Nil && attributesDefined == None
    {
      attributesHash := Nil;
      attributesDefined := None;
    }

    /** is_sitemap_attributes_defined?: an unset flag is stored as false. */
    method IsSitemapAttributesDefined() returns (defined: bool)
      modifies this
      ensures old(attributesDefined).None? ==> !defined
      ensures old(attributesDefined).Some? ==> defined == old(attributesDefined).value
      ensures attributesDefined == Some(defined)
      ensures attributesHash == old(attributesHash)
    {
      if attributesDefined.None? {
        attributesDefined := Some(false);
      }
      defined := attributesDefined.value;
    }

    /** The class-level sitemap_attributes: the first call that finds no Hash
        copies the configuration's map, entry by entry, each with its own
        :handler Hash; later calls return the stored map. */
    method SitemapAttributes(source: map<string, Value>) returns (attrs: map<string, Value>)
      requires !attributesHash.Hash? ==> Copyable(source)
      modifies this
      ensures old(attributesHash).Hash? ==> attributesHash == old(attributesHash)
      ensures !old(attributesHash).Hash? ==> attributesHash == Hash(source)
      ensures attributesHash == Hash(attrs)
      ensures attributesDefined == old(attributesDefined)
    {
      if !attributesHash.Hash? {
        attributesHash := Hash(map[]);
        var copy := CopyAttributes(source);
        attributesHash := Hash(copy);
      }
      attrs := attributesHash.entries;
    }
  }

  /** Two calls of the class-level sitemap_attributes return the same map, and
      the configuration edited in between does not reach the copy. */
  method LazyCopyIsStable(source: map<string, Value>, edited: map<string, Value>) returns (first: map<string, Value>, second: map<string, Value>)
    requires Copyable(source) && Copyable(edited)
    ensures first == second && first == source
  {
    var store := new AttributeStore();
    first := store.SitemapAttributes(source);
    second := store.SitemapAttributes(edited);
  }
}
