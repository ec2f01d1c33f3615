/**
 * The list-request URL builder the services share: a filter object becomes
 * `URLSearchParams` entries (dropping `undefined`, `null` and `''`), the
 * entries are serialised as `key=value` pairs joined by `&`, and the query is
 * appended to the path after a `?` only when it is not empty.
 *
 * Percent-encoding is library behaviour and is not modelled: the component
 * escaper is a parameter, and the properties that need it state what they
 * assume of it (it never emits `&` or `=`, and a decoder undoes it).
 */
module Query {
  import opened Wrappers
  import opened Strings

  /** A filter value as `String(value)` tells them apart. */
  datatype FilterValue = Undefined | Null | Str(text: string) | Num(n: int) | Bool(b: bool)

  /** The guard every list request applies before appending an entry. */
  predicate Kept(v: FilterValue) {
    !v.Undefined? && !v.Null? && v != Str("")
  }

  /** `String(value)`; every value that passes the guard renders non-empty. */
  function Stringify(v: FilterValue): (r: string)
    ensures Kept(v) ==> |r| > 0
  {
    match v
    case Undefined => "undefined"
    case Null => "null"
    case Str(t) => t
    case Num(n) => IntToString(n)
    case Bool(b) => if b then "true" else "false"
  }

  /** The entries of a filter object, in `Object.entries` order. */
  type Filters = seq<(string, FilterValue)>

  /** The key/value pairs of a `URLSearchParams`, in append order. */
  type Params = seq<(string, string)>

  /** The parameters a filter object contributes: one per kept entry, in entry order. */
  function ParamsOf(filters: Filters): (r: Params)
    ensures |r| <= |filters|
    decreases |filters|
  {
    if |filters| == 0 then []
    else
      var head := if Kept(filters[0].1) then [(filters[0].0, Stringify(filters[0].1))] else [];
      head + ParamsOf(filters[1..])
  }

  /** Every parameter comes from a kept entry and carries its key and stringified value. */
  lemma {:induction false} ParamsFromKept(filters: Filters, i: nat)
    requires i < |ParamsOf(filters)|
    ensures exists j :: 0 <= j < |filters| && Kept(filters[j].1) && ParamsOf(filters)[i] == (filters[j].0, Stringify(filters[j].1))
    decreases |filters|
  {
    var head := if Kept(filters[0].1) then [(filters[0].0, Stringify(filters[0].1))] else [];
    var rest := ParamsOf(filters[1..]);
    assert ParamsOf(filters) == head + rest;
    if i < |head| {
      assert ParamsOf(filters)[i] == (filters[0].0, Stringify(filters[0].1));
    } else {
      assert ParamsOf(filters)[i] == rest[i - |head|];
      ParamsFromKept(filters[1..], i - |head|);
      var j :| 0 <= j < |filters[1..]| && Kept(filters[1..][j].1)
        && rest[i - |head|] == (filters[1..][j].0, Stringify(filters[1..][j].1));
      assert filters[1..][j] == filters[j + 1];
    }
  }

  /** Filtering distributes over concatenation, so the kept entries keep their order. */
  lemma {:induction false} ParamsAppend(a: Filters, b: Filters)
    ensures ParamsOf(a + b) == ParamsOf(a) + ParamsOf(b)
    decreases |a|
  {
    if |a| > 0 {
      assert (a + b)[1..] == a[1..] + b;
      assert (a + b)[0] == a[0];
      ParamsAppend(a[1..], b);
      var head := if Kept(a[0].1) then [(a[0].0, Stringify(a[0].1))] else [];
      assert ParamsOf(a + b) == head + ParamsOf(a[1..] + b);
      assert ParamsOf(a) == head + ParamsOf(a[1..]);
    } else {
      assert a + b == b;
    }
  }

  /** No parameters remain exactly when every entry is `undefined`, `null` or `''`. */
  lemma {:induction false} ParamsEmptyIff(filters: Filters)
    ensures ParamsOf(filters) == [] <==> forall j :: 0 <= j < |filters| ==> !Kept(filters[j].1)
    decreases |filters|
  {
    if |filters| > 0 {
      ParamsEmptyIff(filters[1..]);
      assert forall j :: 1 <= j < |filters| ==> filters[j] == filters[1..][j - 1];
    }
  }

  /** When every entry passes the guard, every entry becomes a parameter, in place. */
  lemma {:induction false} ParamsKeepAll(filters: Filters)
    requires forall j :: 0 <= j < |filters| ==> Kept(filters[j].1)
    ensures |ParamsOf(filters)| == |filters|
    ensures forall j :: 0 <= j < |filters| ==> ParamsOf(filters)[j] == (filters[j].0, Stringify(filters[j].1))
    decreases |filters|
  {
    if |filters| > 0 {
      var rest := filters[1..];
      assert forall j :: 0 <= j < |rest| ==> rest[j] == filters[j + 1];
      ParamsKeepAll(rest);
      var r := ParamsOf(filters);
      assert r == [(filters[0].0, Stringify(filters[0].1))] + ParamsOf(rest);
      forall j | 0 <= j < |filters|
        ensures r[j] == (filters[j].0, Stringify(filters[j].1))
      {
        if j > 0 {
          assert r[j] == ParamsOf(rest)[j - 1];
          assert rest[j - 1] == filters[j];
        }
      }
    }
  }

  // ---- serialisation ----

  /** One serialised entry. */
  function Pair(p: (string, string), escape: string -> string): string {
    escape(p.0) + "=" + escape(p.1)
  }

  function Pairs(params: Params, escape: string -> string): seq<string> {
    seq(|params|, i requires 0 <= i < |params| => Pair(params[i], escape))
  }

  /** `params.toString()`: empty exactly when there are no parameters. */
  function Serialize(params: Params, escape: string -> string): (r: string)
    ensures r == "" <==> |params| == 0
  {
    var pieces := Pairs(params, escape);
    assert |pieces| > 0 ==> |Join(pieces, "&")| >= |Pair(params[0], escape)| > 0;
    Join(pieces, "&")
  }

  /**
   * Reads a query string back into parameters with the given decoder,
   * splitting on `&` and then on `=`.
   */
  function Parse(query: string, decode: string -> string): Params {
    if query == "" then []
    else
      var pieces := Split(query, '&');
      seq(|pieces|, i requires 0 <= i < |pieces| =>
        var kv := Split(pieces[i], '=');
        (decode(kv[0]), decode(if |kv| > 1 then kv[1] else "")))
  }

  /** The decoder of text that needed no escaping. */
  function Verbatim(s: string): string { s }

  /** What the escaper and decoder must do for the round trip: no separators out, identity back. */
  predicate Reversible(params: Params, escape: string -> string, decode: string -> string) {
    forall i :: 0 <= i < |params| ==>
      && '&' !in escape(params[i].0) && '=' !in escape(params[i].0)
      && '&' !in escape(params[i].1) && '=' !in escape(params[i].1)
      && decode(escape(params[i].0)) == params[i].0
      && decode(escape(params[i].1)) == params[i].1
  }

  /** Parsing a serialised query gives the parameters back. */
  lemma ParseSerialize(params: Params, escape: string -> string, decode: string -> string)
    requires Reversible(params, escape, decode)
    ensures Parse(Serialize(params, escape), decode) == params
  {
    if |params| > 0 {
      var pieces := Pairs(params, escape);
      forall i | 0 <= i < |pieces|
        ensures '&' !in pieces[i]
        ensures Split(pieces[i], '=') == [escape(params[i].0), escape(params[i].1)]
      {
        PairSplits(params[i], escape);
      }
      SplitJoin(pieces, '&');
    }
  }

  /** One entry splits on `=` into its escaped key and value. */
  lemma PairSplits(p: (string, string), escape: string -> string)
    requires '&' !in escape(p.0) && '=' !in escape(p.0)
    requires '&' !in escape(p.1) && '=' !in escape(p.1)
    ensures '&' !in Pair(p, escape)
    ensures Split(Pair(p, escape), '=') == [escape(p.0), escape(p.1)]
  {
    var kv := [escape(p.0), escape(p.1)];
    assert Join(kv, "=") == Pair(p, escape) by {
      assert kv[1..] == [escape(p.1)];
    }
    SplitJoin(kv, '=');
  }

  // ---- the URL ----

  /** Two more segments after a path split off as the last two pieces. */
  lemma TwoMoreSegments(dir: string, a: string, b: string)
    requires '/' !in a && '/' !in b
    ensures Split(dir + "/" + a + "/" + b, '/') == Split(dir, '/') + [a, b]
  {
    var xs := Split(dir, '/');
    SplitSnoc(dir, a, '/');
    SplitSnoc(dir + "/" + a, b, '/');
    SnocTwo(xs, a, b);
  }

  /** Three more segments after a path split off as the last three pieces. */
  lemma ThreeMoreSegments(dir: string, a: string, b: string, c: string)
    requires '/' !in a && '/' !in b && '/' !in c
    ensures Split(dir + "/" + a + "/" + b + "/" + c, '/') == Split(dir, '/') + [a, b, c]
  {
    var xs := Split(dir, '/');
    SplitSnoc(dir, a, '/');
    TwoMoreSegments(dir + "/" + a, b, c);
    SnocThenTwo(xs, a, b, c);
  }

  lemma SnocTwo<T>(xs: seq<T>, a: T, b: T)
    ensures xs + [a] + [b] == xs + [a, b]
  {
  }

  lemma SnocThenTwo<T>(xs: seq<T>, a: T, b: T, c: T)
    ensures xs + [a] + [b, c] == xs + [a, b, c]
  {
  }

  /** `queryString ? path + '?' + queryString : path`. */
  function WithQuery(path: string, query: string): (r: string)
    ensures query == "" <==> r == path
    ensures StartsWith(r, path)
  {
    if query == "" then path else path + "?" + query
  }

  /** Splits a URL at its first `?` into the path and the query. */
  function SplitUrl(url: string): (string, string) {
    if '?' in url then
      var i := FirstIndex(url, '?');
      (url[..i], url[i + 1..])
    else (url, "")
  }

  /** A path without `?` and its query come back apart from the URL built of them. */
  lemma SplitWithQuery(path: string, query: string)
    requires '?' !in path
    ensures SplitUrl(WithQuery(path, query)) == (path, query)
  {
    if query != "" {
      var url := path + "?" + query;
      assert url[|path|] == '?';
      var i := FirstIndex(url, '?');
      assert forall k :: 0 <= k < |path| ==> url[k] == path[k];
      assert i == |path|;
      assert url[..i] == path;
      assert url[i + 1..] == query;
    }
  }

  /** The query of a filter object, empty when there is no filter object at all. */
  function QueryOf(filters: Option<Filters>, escape: string -> string): string {
    match filters
    case None => ""
    case Some(f) => Serialize(ParamsOf(f), escape)
  }

  /**
   * The URL of a list request: the bare path exactly when no filter object
   * is given or every entry of it is dropped, else path `?` query.
   */
  function ListUrl(path: string, filters: Option<Filters>, escape: string -> string): (r: string)
    ensures r == path <==> filters.None? || forall j :: 0 <= j < |filters.value| ==> !Kept(filters.value[j].1)
    ensures StartsWith(r, path)
  {
    assert filters.Some? ==> (ParamsOf(filters.value) == [] <==> forall j :: 0 <= j < |filters.value| ==> !Kept(filters.value[j].1)) by {
      if filters.Some? { ParamsEmptyIff(filters.value); }
    }
    WithQuery(path, QueryOf(filters, escape))
  }

  /**
   * The request a list call makes reads back as its path and the kept
   * entries of its filter object, in order.
   */
  lemma ListUrlRoundTrip(path: string, filters: Filters, escape: string -> string, decode: string -> string)
    requires '?' !in path
    requires Reversible(ParamsOf(filters), escape, decode)
    ensures SplitUrl(ListUrl(path, Some(filters), escape)).0 == path
    ensures Parse(SplitUrl(ListUrl(path, Some(filters), escape)).1, decode) == ParamsOf(filters)
  {
    SplitWithQuery(path, QueryOf(Some(filters), escape));
    ParseSerialize(ParamsOf(filters), escape, decode);
  }
}
