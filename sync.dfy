/** DuckMap::Sync#merge_controller: insert the values of one controller into
    the nested locale hash, one level per namespace. */
module Sync {

  import opened Values

  /** The hash stored under a key, or a fresh one when the key is absent; a
      present value that is not a Hash has no Hash to merge into. */
  function Child(content: map<string, Value>, key: string): Value {
    if key in content then content[key] else Hash(map[])
  }

  /** merge_controller(content, namespaces, index, values). A present value
      that is not a Hash along the path raises NoMethodError: None. */
  function MergeController(content: map<string, Value>, namespaces: seq<string>, index: nat, values: map<string, Value>)
    : (merged: Option<map<string, Value>>)
    requires index < |namespaces|
    decreases |namespaces| - index
  {
    var key := namespaces[index];
    var child := Child(content, key);
    if !child.Hash? then None
    else if index == |namespaces| - 1 then Some(content[key := Hash(child.entries + values)])
    else match MergeController(child.entries, namespaces, index + 1, values)
      case None => None
      case Some(inner) => Some(content[key := Hash(inner)])
  }

  /** Every level along the path is absent or a Hash. */
  predicate PathOpen(content: map<string, Value>, namespaces: seq<string>, index: nat)
    requires index <= |namespaces|
    decreases |namespaces| - index
  {
    index == |namespaces| ||
    (Child(content, namespaces[index]).Hash? &&
     PathOpen(Child(content, namespaces[index]).entries, namespaces, index + 1))
  }

  /** Following namespaces[index..] from content, down to the last level. */
  function Reach(content: map<string, Value>, namespaces: seq<string>, index: nat): Option<map<string, Value>>
    requires index < |namespaces|
    decreases |namespaces| - index
  {
    var key := namespaces[index];
    if key !in content || !content[key].Hash? then None
    else if index == |namespaces| - 1 then Some(content[key].entries)
    else Reach(content[key].entries, namespaces, index + 1)
  }

  /** merge_controller succeeds exactly when the path is open; then the
      last level holds every pair of values, keeps its other pairs, and no
      key off the path changes at the top level. */
  lemma {:induction false} MergeControllerMeans(content: map<string, Value>, namespaces: seq<string>, index: nat, values: map<string, Value>)
    requires index < |namespaces|
    ensures MergeController(content, namespaces, index, values).Some? <==> PathOpen(content, namespaces, index)
    ensures var merged := MergeController(content, namespaces, index, values);
      merged.Some? ==>
        Reach(merged.value, namespaces, index).Some? &&
        (forall k :: k in values ==> k in Reach(merged.value, namespaces, index).value &&
                                     Reach(merged.value, namespaces, index).value[k] == values[k])
    ensures var merged := MergeController(content, namespaces, index, values);
      merged.Some? && Reach(content, namespaces, index).Some? ==>
        (forall k :: k in Reach(content, namespaces, index).value && k !in values ==>
           k in Reach(merged.value, namespaces, index).value &&
           Reach(merged.value, namespaces, index).value[k] == Reach(content, namespaces, index).value[k])
    ensures var merged := MergeController(content, namespaces, index, values);
      merged.Some? ==>
        merged.value.Keys == content.Keys + {namespaces[index]} &&
        (forall k :: k in content && k != namespaces[index] ==> merged.value[k] == content[k])
    decreases |namespaces| - index
  {
    var key := namespaces[index];
    var child := Child(content, key);
    if child.Hash? && index < |namespaces| - 1 {
      MergeControllerMeans(child.entries, namespaces, index + 1, values);
    }
  }

  /** Merging the same values twice changes nothing more. */
  lemma {:induction false} MergeControllerIdempotent(content: map<string, Value>, namespaces: seq<string>, index: nat, values: map<string, Value>)
    requires index < |namespaces|
    requires MergeController(content, namespaces, index, values).Some?
    ensures MergeController(MergeController(content, namespaces, index, values).value, namespaces, index, values) ==
            MergeController(content, namespaces, index, values)
    decreases |namespaces| - index
  {
    var key := namespaces[index];
    var child := Child(content, key);
    var once := MergeController(content, namespaces, index, values).value;
    if index == |namespaces| - 1 {
      var leaf := child.entries + values;
      assert once == content[key := Hash(leaf)];
      assert Child(once, key) == Hash(leaf);
      assert leaf + values == leaf;
      assert once[key := Hash(leaf)] == once;
    } else {
      MergeControllerIdempotent(child.entries, namespaces, index + 1, values);
      var inner := MergeController(child.entries, namespaces, index + 1, values).value;
      assert once == content[key := Hash(inner)];
      assert Child(once, key) == Hash(inner);
      assert once[key := Hash(inner)] == once;
    }
  }
}
