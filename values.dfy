/** Ruby values as the sitemap core sees them, and the few String and Object
    methods it relies on (blank?, downcase, to_s, start_with?, include?). */
module Values {

  datatype Option<T> = None | Some(value: T)

  /** A Ruby object of the kinds the core handles. Hash keys are symbol names;
      the model does not tell a String key from a Symbol key of the same text.
      A Regexp is kept as its source text; a block (Proc) as an identity. */
  datatype Value =
    | Nil
    | Bool(b: bool)
    | Int(i: int)
    | Str(s: string)
    | Sym(name: string)
    | Pat(source: string)
    | Block(id: nat)
    | List(items: seq<Value>)
    | Hash(entries: map<string, Value>)

  /** ASCII whitespace: space, tab, line feed, vertical tab, form feed, carriage return. */
  predicate IsSpace(c: char) {
    c == ' ' || 9 <= c as int <= 13
  }

  /** String#blank? of ActiveSupport: empty or whitespace only. */
  predicate BlankString(s: string) {
    forall i :: 0 <= i < |s| ==> IsSpace(s[i])
  }

  /** Object#blank? of ActiveSupport: nil, false, an empty or whitespace-only
      String, an empty Symbol, Array or Hash. Numbers, regexps and blocks are
      never blank. */
  predicate Blank(v: Value) {
    match v
    case Nil => true
    case Bool(b) => !b
    case Int(_) => false
    case Str(s) => BlankString(s)
    case Sym(n) => n == ""
    case Pat(_) => false
    case Block(_) => false
    case List(xs) => xs == []
    case Hash(m) => m == map[]
  }

  /** Ruby truthiness: every object except nil and false. */
  predicate Truthy(v: Value) {
    !(v.Nil? || v == Bool(false))
  }

  /** Array#any? without a block: some element is truthy. */
  predicate AnyTruthy(xs: seq<Value>) {
    exists i :: 0 <= i < |xs| && Truthy(xs[i])
  }

  /** blank? of an attribute that holds nil or a String. */
  predicate BlankOpt(s: Option<string>) {
    s.None? || BlankString(s.value)
  }

  /** Hash#[]: nil for a missing key. */
  function Lookup(m: map<string, Value>, k: string): Value {
    if k in m then m[k] else Nil
  }

  /** ASCII-only String#downcase on one character. */
  function LowerChar(c: char): (d: char)
    ensures 'A' <= c <= 'Z' ==> 'a' <= d <= 'z' && d as int == c as int + 32
    ensures !('A' <= c <= 'Z') ==> d == c
  {
    if 'A' <= c <= 'Z' then (c as int + 32) as char else c
  }

  /** ASCII-only String#downcase. */
  function Downcase(s: string): (d: string)
    ensures |d| == |s|
    ensures forall i :: 0 <= i < |s| ==> d[i] == LowerChar(s[i])
  {
    seq(|s|, i requires 0 <= i < |s| => LowerChar(s[i]))
  }

  lemma DowncaseIdempotent(s: string)
    ensures Downcase(Downcase(s)) == Downcase(s)
  {
  }

  /** String#start_with? (and a regexp /^prefix/ over a one-line string whose
      prefix has no metacharacters). */
  predicate StartsWith(s: string, prefix: string) {
    |prefix| <= |s| && s[..|prefix|] == prefix
  }

  /** String#include?: sub occurs somewhere in s. */
  predicate Contains(s: string, sub: string)
    decreases |s|
  {
    StartsWith(s, sub) || (|s| > 0 && Contains(s[1..], sub))
  }

  /** A regexp /^lit/ whose literal has no metacharacters: lit at the start of
      the string or right after a line feed. */
  predicate AtLineStart(s: string, lit: string) {
    StartsWith(s, lit) || Contains(s, "\n" + lit)
  }

  /** The position-based reading of Contains. */
  lemma {:induction false} ContainsAt(s: string, sub: string, i: nat)
    requires i + |sub| <= |s| && s[i..i + |sub|] == sub
    ensures Contains(s, sub)
    decreases i
  {
    if i == 0 {
      assert s[..|sub|] == s[0..|sub|];
    } else {
      assert s[1..][i - 1..i - 1 + |sub|] == s[i..i + |sub|];
      ContainsAt(s[1..], sub, i - 1);
    }
  }

  lemma {:induction false} ContainsWitness(s: string, sub: string) returns (i: nat)
    requires Contains(s, sub)
    ensures i + |sub| <= |s| && s[i..i + |sub|] == sub
    decreases |s|
  {
    if StartsWith(s, sub) {
      i := 0;
    } else {
      var j := ContainsWitness(s[1..], sub);
      assert s[1..][j..j + |sub|] == s[j + 1..j + 1 + |sub|];
      i := j + 1;
    }
  }

  lemma ContainsFits(s: string, sub: string)
    ensures Contains(s, sub) ==> |sub| <= |s|
  {
    if Contains(s, sub) {
      var i := ContainsWitness(s, sub);
    }
  }

  /** In a single-line string, /^lit/ is a prefix test. */
  lemma SingleLine(s: string, lit: string)
    requires forall i :: 0 <= i < |s| ==> s[i] != '\n'
    ensures AtLineStart(s, lit) <==> StartsWith(s, lit)
  {
    if Contains(s, "\n" + lit) {
      LineBreakIn(s, lit);
    }
  }

  lemma LineBreakIn(s: string, lit: string)
    requires Contains(s, "\n" + lit)
    ensures exists i :: 0 <= i < |s| && s[i] == '\n'
  {
    var i := ContainsWitness(s, "\n" + lit);
    assert s[i] == s[i..i + |lit| + 1][0];
  }

  /** A string that contains sub still contains it when something is put in front or behind. */
  lemma ContainsInLonger(pre: string, s: string, post: string, sub: string)
    requires Contains(s, sub)
    ensures Contains(pre + s + post, sub)
  {
    var i := ContainsWitness(s, sub);
    assert (pre + s + post)[|pre| + i..|pre| + i + |sub|] == s[i..i + |sub|];
    ContainsAt(pre + s + post, sub, |pre| + i);
  }

  function DigitChar(d: nat): char
    requires d < 10
  {
    "0123456789"[d]
  }

  function NatToS(n: nat): (s: string)
    ensures |s| >= 1
  {
    if n < 10 then [DigitChar(n)] else NatToS(n / 10) + [DigitChar(n % 10)]
  }

  /** Integer#to_s in base 10. */
  function IntToS(i: int): string {
    if i < 0 then "-" + NatToS(-i) else NatToS(i)
  }

  /** Values whose to_s is their plain text and not Ruby's inspect output. */
  predicate Scalar(v: Value) {
    v.Nil? || v.Bool? || v.Int? || v.Str? || v.Sym? || v.Pat?
  }

  type ScalarValue = v: Value | Scalar(v) witness Nil

  /** Object#to_s for the scalar kinds. A Regexp without options prints as (?-mix:source). */
  function ToS(v: Value): string
    requires Scalar(v)
  {
    match v
    case Nil => ""
    case Bool(b) => if b then "true" else "false"
    case Int(i) => IntToS(i)
    case Str(s) => s
    case Sym(n) => n
    case Pat(src) => "(?-mix:" + src + ")"
  }

  /** The text of a String or Symbol. */
  function Text(v: Value): string
    requires v.Str? || v.Sym?
  {
    if v.Str? then v.s else v.name
  }

  /** to_sym: defined on String and Symbol only; anything else raises NoMethodError (None). */
  function ToSym(v: Value): (r: Option<Value>)
    ensures r.Some? <==> (v.Str? || v.Sym?)
    ensures r.Some? ==> r.value == Sym(Text(v))
  {
    match v
    case Str(s) => Some(Sym(s))
    case Sym(n) => Some(v)
    case _ => None
  }
}

/** Order-preserving selection and search over sequences (Array#find_all, Array#find). */
module Lists {

  import opened Values

  function Select<T(!new)>(s: seq<T>, p: T -> bool): (r: seq<T>)
    ensures |r| <= |s|
    ensures forall x :: x in r <==> x in s && p(x)
  {
    if s == [] then [] else (if p(s[0]) then [s[0]] else []) + Select(s[1..], p)
  }

  lemma {:induction false} SelectAppend<T(!new)>(a: seq<T>, b: seq<T>, p: T -> bool)
    ensures Select(a + b, p) == Select(a, p) + Select(b, p)
  {
    if a == [] {
      assert a + b == b;
    } else {
      assert (a + b)[1..] == a[1..] + b;
      SelectAppend(a[1..], b, p);
    }
  }

  /** The step a loop that pushes the selected elements takes. */
  lemma SelectSnoc<T(!new)>(s: seq<T>, i: nat, p: T -> bool)
    requires i < |s|
    ensures Select(s[..i + 1], p) == Select(s[..i], p) + (if p(s[i]) then [s[i]] else [])
  {
    assert s[..i + 1] == s[..i] + [s[i]];
    SelectAppend(s[..i], [s[i]], p);
  }

  /** Selecting twice is selecting once by both conditions, in the same order. */
  lemma {:induction false} SelectSelect<T(!new)>(s: seq<T>, p: T -> bool, q: T -> bool)
    ensures Select(Select(s, p), q) == Select(s, x => p(x) && q(x))
  {
    if s != [] {
      SelectSelect(s[1..], p, q);
      SelectAppend(if p(s[0]) then [s[0]] else [], Select(s[1..], p), q);
    }
  }

  /** Array#index with a block: the position of the first element that satisfies p. */
  function FirstIndex<T>(s: seq<T>, p: T -> bool): (r: Option<nat>)
    ensures r.Some? ==> r.value < |s| && p(s[r.value])
    ensures r.Some? ==> forall j :: 0 <= j < r.value ==> !p(s[j])
    ensures r.None? ==> forall j :: 0 <= j < |s| ==> !p(s[j])
  {
    if s == [] then None
    else if p(s[0]) then Some(0)
    else match FirstIndex(s[1..], p)
      case None => None
      case Some(k) => Some(k + 1)
  }

  /** Array#find: the first element that satisfies p, or nil. */
  function Find<T(!new)>(s: seq<T>, p: T -> bool): (r: Option<T>)
    ensures r.Some? ==> r.value in s && p(r.value)
    ensures r.None? ==> forall x :: x in s ==> !p(x)
  {
    match FirstIndex(s, p)
    case None => None
    case Some(k) => Some(s[k])
  }

  /** Find returns the element at the first satisfying position. */
  lemma FindIsFirst<T(!new)>(s: seq<T>, p: T -> bool, k: nat)
    requires k < |s| && p(s[k]) && forall j :: 0 <= j < k ==> !p(s[j])
    ensures Find(s, p) == Some(s[k])
  {
  }
}
