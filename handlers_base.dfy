/** DuckMap::Handlers::Base: the helpers a sitemap handler uses to cap the
    rows of one sitemap file and to build the options of its URLs. */
module Handlers {

  import opened Values

  /** The default url_limit of the configuration: the Sitemaps XML protocol
      0.9 allows at most 50,000 URLs in one sitemap file. */
  const DefaultUrlLimit: int := 50000

  /** Array#slice!(start, length) for a start within the array: everything
      from start on is cut off. A negative start counts from the end, and one
      before the beginning cuts nothing. */
  function SliceFrom(rows: seq<Value>, start: int): (kept: seq<Value>)
    ensures |kept| <= |rows| && kept == rows[..|kept|]
    ensures 0 <= start <= |rows| ==> |kept| == start
    ensures start > |rows| ==> kept == rows
    ensures start < 0 && -start <= |rows| ==> |kept| == |rows| + start
    ensures start < 0 && -start > |rows| ==> kept == rows
  {
    if 0 <= start <= |rows| then rows[..start]
    else if start < 0 && -start <= |rows| then rows[..|rows| + start]
    else rows
  }

  /** What sitemap_url_limit leaves of the rows: a blank limit keeps them
      all; otherwise rows beyond the limit are sliced off. The model takes a
      blank or Integer limit; a Float, which Integer#> compares and slice!
      truncates, is not modelled. */
  function UrlLimited(rows: seq<Value>, limit: Value): (kept: seq<Value>)
    requires Blank(limit) || limit.Int?
    ensures |kept| <= |rows| && kept == rows[..|kept|]
    ensures Blank(limit) ==> kept == rows
    ensures limit.Int? && |rows| <= limit.i ==> kept == rows
    ensures limit.Int? && 0 <= limit.i < |rows| ==> |kept| == limit.i
    ensures limit.Int? && limit.i < 0 && -limit.i <= |rows| ==> |kept| == |rows| + limit.i
    ensures limit.Int? && limit.i < 0 && -limit.i > |rows| ==> kept == rows
  {
    if !Blank(limit) && |rows| > limit.i then SliceFrom(rows, limit.i) else rows
  }

  /** A non-negative limit is met after one cut, so a second cut keeps all. */
  lemma UrlLimitIdempotent(rows: seq<Value>, limit: int)
    requires 0 <= limit
    ensures UrlLimited(UrlLimited(rows, Int(limit)), Int(limit)) == UrlLimited(rows, Int(limit))
    ensures |UrlLimited(rows, Int(limit))| <= limit
  {
  }

  /** With the default limit a sitemap file never holds more URLs than the
      protocol allows, and a list within the limit is kept whole. */
  lemma DefaultLimitMeetsProtocol(rows: seq<Value>)
    ensures |UrlLimited(rows, Int(DefaultUrlLimit))| <= 50000
    ensures |rows| <= 50000 ==> UrlLimited(rows, Int(DefaultUrlLimit)) == rows
  {
  }

  /** The rows array a handler builds; sitemap_url_limit truncates it in place. */
  class RowList {

    var rows: seq<Value>

    constructor (rows: seq<Value>)
      ensures this.rows == rows
    {
      this.rows := rows;
    }

    /** sitemap_url_limit(rows, options). */
    method SitemapUrlLimit(options: map<string, Value>)
      requires Blank(Lookup(options, "url_limit")) || Lookup(options, "url_limit").Int?
      modifies this
      ensures rows == UrlLimited(old(rows), Lookup(options, "url_limit"))
    {
      var limit := Lookup(options, "url_limit");
      if !Blank(limit) {
        if |rows| > limit.i {
          rows := SliceFrom(rows, limit.i);
        }
      }
    }
  }

  /** sitemap_host_options: :host and :port from the canonical host and port,
      each only when it is not blank. */
  function HostOptions(options: map<string, Value>): (values: map<string, Value>)
    ensures "host" in values <==> !Blank(Lookup(options, "canonical_host"))
    ensures "port" in values <==> !Blank(Lookup(options, "canonical_port"))
    ensures "host" in values ==> values["host"] == Lookup(options, "canonical_host")
    ensures "port" in values ==> values["port"] == Lookup(options, "canonical_port")
    ensures forall k :: k in values ==> k == "host" || k == "port"
  {
    var host: map<string, Value> :=
      if Blank(Lookup(options, "canonical_host")) then map[] else map["host" := Lookup(options, "canonical_host")];
    if Blank(Lookup(options, "canonical_port")) then host else host["port" := Lookup(options, "canonical_port")]
  }

  /** sitemap_url_options: :format from url_format when it is not blank,
      merged with the host options. */
  function UrlOptions(options: map<string, Value>): (values: map<string, Value>)
    ensures "format" in values <==> !Blank(Lookup(options, "url_format"))
    ensures "format" in values ==> values["format"] == Lookup(options, "url_format")
    ensures forall k :: k in HostOptions(options) ==> k in values && values[k] == HostOptions(options)[k]
    ensures forall k :: k in values ==> k == "format" || k in HostOptions(options)
  {
    var format: map<string, Value> :=
      if Blank(Lookup(options, "url_format")) then map[] else map["format" := Lookup(options, "url_format")];
    format + HostOptions(options)
  }
}
