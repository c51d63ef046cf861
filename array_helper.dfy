/** DuckMap::ArrayHelper#convert_to: make every element of an Array a String or
    a Symbol. */
module ArrayHelper {

  import opened Values

  /** The element convert_to pushes for one input element, or None when
      nothing is pushed: to_sym raised (and was rescued) or the type argument
      is neither :string nor :symbol. */
  function ConvertOne(v: Value, kind: Value): (r: Option<Value>)
    requires kind == Sym("string") ==> Scalar(v)
  {
    if kind == Sym("string") then Some(Str(ToS(v)))
    else if kind == Sym("symbol") then ToSym(v)
    else None
  }

  /** What convert_to needs of its input: to_s is modelled for scalars only. */
  predicate Convertible(values: Value, kind: Value) {
    values.List? && kind == Sym("string") ==>
      forall i :: 0 <= i < |values.items| ==> Scalar(values.items[i])
  }

  /** The buffer after the loop has seen xs. */
  function Converted(xs: seq<Value>, kind: Value): seq<Value>
    requires kind == Sym("string") ==> forall i :: 0 <= i < |xs| ==> Scalar(xs[i])
  {
    if xs == [] then []
    else
      Converted(xs[..|xs| - 1], kind) +
      match ConvertOne(xs[|xs| - 1], kind)
      case None => []
      case Some(c) => [c]
  }

  /** convert_to as a value: a non-Array is returned unchanged. */
  function ConvertTo(values: Value, kind: Value): Value
    requires Convertible(values, kind)
  {
    if values.List? then List(Converted(values.items, kind)) else values
  }

  /** The loop of array_helper.rb: push each converted element onto a fresh buffer. */
  method ConvertToLoop(values: Value, kind: Value) returns (buffer: Value)
    requires Convertible(values, kind)
    ensures buffer == ConvertTo(values, kind)
    ensures !values.List? ==> buffer == values
    ensures values.List? ==> buffer.List? && |buffer.items| <= |values.items|
  {
    if !values.List? {
      return values;
    }
    var xs := values.items;
    var out: seq<Value> := [];
    for i := 0 to |xs|
      invariant out == Converted(xs[..i], kind)
      invariant |out| <= i
    {
      assert xs[..i + 1][..i] == xs[..i];
      match ConvertOne(xs[i], kind)
      case None =>
      case Some(c) => out := out + [c];
    }
    assert xs[..|xs|] == xs;
    buffer := List(out);
  }

  /** :string converts every element, keeping length and order. */
  lemma {:induction false} ConvertedStrings(xs: seq<Value>)
    requires forall i :: 0 <= i < |xs| ==> Scalar(xs[i])
    ensures |Converted(xs, Sym("string"))| == |xs|
    ensures forall i :: 0 <= i < |xs| ==> Converted(xs, Sym("string"))[i] == Str(ToS(xs[i]))
  {
    if xs != [] {
      ConvertedStrings(xs[..|xs| - 1]);
    }
  }

  /** :symbol converts every String and Symbol, keeping length and order, when
      the Array holds nothing else. */
  lemma {:induction false} ConvertedSymbols(xs: seq<Value>)
    requires forall i :: 0 <= i < |xs| ==> xs[i].Str? || xs[i].Sym?
    ensures |Converted(xs, Sym("symbol"))| == |xs|
    ensures forall i :: 0 <= i < |xs| ==> Converted(xs, Sym("symbol"))[i] == Sym(Text(xs[i]))
  {
    if xs != [] {
      ConvertedSymbols(xs[..|xs| - 1]);
    }
  }

  /** :symbol never yields more elements than it got, and every one is a Symbol. */
  lemma {:induction false} ConvertedSymbolsAreSymbols(xs: seq<Value>)
    ensures |Converted(xs, Sym("symbol"))| <= |xs|
    ensures forall i :: 0 <= i < |Converted(xs, Sym("symbol"))| ==> Converted(xs, Sym("symbol"))[i].Sym?
  {
    if xs != [] {
      ConvertedSymbolsAreSymbols(xs[..|xs| - 1]);
    }
  }

  /** Any type argument other than :string and :symbol gives an empty Array. */
  lemma {:induction false} ConvertedOtherKind(xs: seq<Value>, kind: Value)
    requires kind != Sym("string") && kind != Sym("symbol")
    ensures Converted(xs, kind) == []
  {
    if xs != [] {
      ConvertedOtherKind(xs[..|xs| - 1], kind);
    }
  }

  /** Converting to symbols twice is converting once. */
  lemma {:induction false} ConvertedSymbolsIdempotent(xs: seq<Value>)
    ensures Converted(Converted(xs, Sym("symbol")), Sym("symbol")) == Converted(xs, Sym("symbol"))
  {
    ConvertedSymbolsAreSymbols(xs);
    var ys := Converted(xs, Sym("symbol"));
    ConvertedSymbols(ys);
    assert forall i :: 0 <= i < |ys| ==> Sym(Text(ys[i])) == ys[i];
  }
}
