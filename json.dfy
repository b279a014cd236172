/**
 * JSON values: request bodies the API routes parse, the bodies the client
 * components send, the rows `DataTable` walks, and the JSON-LD documents
 * the SEO components emit. A missing key stands for JavaScript's
 * `undefined`; `JNull` is `null`.
 */
module Json {
  import opened Wrappers

  datatype Json =
    | JNull
    | JBool(b: bool)
    | JNum(n: real)
    | JStr(s: string)
    | JArr(items: seq<Json>)
    | JObj(fields: seq<(string, Json)>)

  /** The value bound to `key` in a field list; as `JSON.parse` keeps the last duplicate, the last binding wins. */
  function Lookup(fields: seq<(string, Json)>, key: string): (r: Option<Json>)
    ensures r.None? <==> forall i :: 0 <= i < |fields| ==> fields[i].0 != key
    ensures r.Some? ==> exists i :: 0 <= i < |fields| && fields[i] == (key, r.value)
  {
    if fields == [] then None
    else if fields[|fields| - 1].0 == key then Some(fields[|fields| - 1].1)
    else Lookup(fields[..|fields| - 1], key)
  }

  /** Looking up in a concatenation: the second part's binding wins, else the first part is consulted. */
  lemma {:induction false} LookupConcat(a: seq<(string, Json)>, b: seq<(string, Json)>, key: string)
    ensures Lookup(a + b, key) == if Lookup(b, key).Some? then Lookup(b, key) else Lookup(a, key)
    decreases |b|
  {
    if b == [] {
      assert a + b == a;
    } else {
      var last := |a + b| - 1;
      assert (a + b)[last] == b[|b| - 1];
      assert (a + b)[..last] == a + b[..|b| - 1];
      LookupConcat(a, b[..|b| - 1], key);
    }
  }

  /** `obj?.[key]`: a property of an object; `undefined` for a missing key or a value that is not an object. */
  function Get(j: Option<Json>, key: string): Option<Json> {
    match j
    case Some(JObj(fields)) => Lookup(fields, key)
    case _ => None
  }

  /** The keys of a field list, in order. */
  function Keys(fields: seq<(string, Json)>): (ks: seq<string>)
    ensures |ks| == |fields|
    ensures forall i :: 0 <= i < |fields| ==> ks[i] == fields[i].0
  {
    if fields == [] then [] else [fields[0].0] + Keys(fields[1..])
  }

  /** A field list with pairwise distinct keys, as every object literal of the source has. */
  predicate DistinctKeys(fields: seq<(string, Json)>) {
    forall i, j :: 0 <= i < j < |fields| ==> fields[i].0 != fields[j].0
  }

  /** In an object without duplicate keys, looking up a listed key finds its own value. */
  lemma LookupDistinct(fields: seq<(string, Json)>, i: nat)
    requires DistinctKeys(fields)
    requires i < |fields|
    ensures Lookup(fields, fields[i].0) == Some(fields[i].1)
  {
    var r := Lookup(fields, fields[i].0);
    var j :| 0 <= j < |fields| && fields[j] == (fields[i].0, r.value);
    assert j == i;
  }

  /** A list of strings as a JSON array. */
  function StrArray(xs: seq<string>): (r: Json)
    ensures r.JArr? && |r.items| == |xs|
    ensures forall i :: 0 <= i < |xs| ==> r.items[i] == JStr(xs[i])
  {
    JArr(seq(|xs|, i requires 0 <= i < |xs| => JStr(xs[i])))
  }

  /** Reads a JSON array of strings back; `None` if any element is not a string. */
  function AsStrings(j: Json): (r: Option<seq<string>>)
    ensures r.Some? ==> j.JArr? && |r.value| == |j.items|
    ensures r.Some? ==> forall i :: 0 <= i < |j.items| ==> j.items[i] == JStr(r.value[i])
  {
    match j
    case JArr(items) =>
      if forall i :: 0 <= i < |items| ==> items[i].JStr?
      then Some(seq(|items|, i requires 0 <= i < |items| => items[i].s))
      else None
    case _ => None
  }

  /** Writing a list of strings and reading it back returns it. */
  lemma StrArrayRoundTrip(xs: seq<string>)
    ensures AsStrings(StrArray(xs)) == Some(xs)
  {
    var j := StrArray(xs);
    assert forall i :: 0 <= i < |j.items| ==> j.items[i].JStr?;
    var back := seq(|j.items|, i requires 0 <= i < |j.items| => j.items[i].s);
    assert back == xs;
  }

  /** Object members written only when present, as `JSON.stringify` drops `undefined` values. */
  function Members(ms: seq<(string, Option<Json>)>): seq<(string, Json)> {
    if ms == [] then []
    else Members(ms[..|ms| - 1]) + (if ms[|ms| - 1].1.Some? then [(ms[|ms| - 1].0, ms[|ms| - 1].1.value)] else [])
  }

  /** With distinct keys, each key of the written object holds its member's value, or is absent. */
  lemma {:induction false} MembersLookup(ms: seq<(string, Option<Json>)>, i: nat)
    requires i < |ms|
    requires forall a, b :: 0 <= a < b < |ms| ==> ms[a].0 != ms[b].0
    ensures Lookup(Members(ms), ms[i].0) == ms[i].1
  {
    var n := |ms| - 1;
    var last: seq<(string, Json)> := if ms[n].1.Some? then [(ms[n].0, ms[n].1.value)] else [];
    LookupConcat(Members(ms[..n]), last, ms[i].0);
    if i < n {
      assert ms[..n][i] == ms[i];
      MembersLookup(ms[..n], i);
    } else if ms[n].1.None? {
      forall j | 0 <= j < n ensures ms[..n][j].0 != ms[n].0 {
        assert ms[..n][j] == ms[j];
      }
      MembersAbsent(ms[..n], ms[n].0);
    }
  }

  /** A key no member carries is absent from the written object. */
  lemma {:induction false} MembersAbsent(ms: seq<(string, Option<Json>)>, key: string)
    requires forall j :: 0 <= j < |ms| ==> ms[j].0 != key
    ensures Lookup(Members(ms), key).None?
  {
    if ms != [] {
      var n := |ms| - 1;
      var last: seq<(string, Json)> := if ms[n].1.Some? then [(ms[n].0, ms[n].1.value)] else [];
      LookupConcat(Members(ms[..n]), last, key);
      forall j | 0 <= j < n ensures ms[..n][j].0 != key {
        assert ms[..n][j] == ms[j];
      }
      MembersAbsent(ms[..n], key);
    }
  }
}
