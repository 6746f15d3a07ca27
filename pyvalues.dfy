/** The Python values the client handles, the foreign calls it makes, and the mutable
    dictionary of request parameters. */
module PyValues {
  import opened Wrappers

  /** A decoded JSON document; numbers are integers in this model. */
  datatype Json =
    | JNull
    | JBool(b: bool)
    | JNumber(n: int)
    | JString(s: string)
    | JArray(elems: seq<Json>)
    | JObject(fields: map<string, Json>)

  /** A request parameter value: a string, an integer (the expiry) or a list of strings
      (the event names). */
  datatype Value = Str(s: string) | Int(i: int) | List(elems: seq<string>)

  /** The Python exceptions the core raises and does not catch. */
  datatype PyError = KeyError(key: string) | TypeError | ValueError

  /** A start or end date as `read_events` accepts it: text for `pd.to_datetime` to parse,
      or a calendar date. */
  datatype DateArg = DateText(text: string) | Day(year: int, month: int, day: int)

  /** The calls into code outside the core, as functions supplied by the environment. */
  datatype Library = Library(
    jsonDumps: seq<string> -> string,            // json.dumps of a list of strings
    jsonLoads: string -> Option<Json>,           // json.loads; None where it raises ValueError
    md5Hex: string -> string,                    // md5 of the bytes fed to it, as hex digest
    urlencode: seq<(string, Value)> -> string,   // urllib.urlencode of (key, value) pairs
    urlopen: string -> string,                   // urllib.urlopen(url).read()
    dateText: DateArg -> string)                 // pd.to_datetime(d).strftime('%Y-%m-%d')

  /** A Python dict of request parameters, changed in place by the functions it is passed to. */
  class ParamDict {
    var entries: map<string, Value>

    constructor (m: map<string, Value>)
      ensures entries == m
    {
      entries := m;
    }
  }

  predicate Distinct(s: seq<string>)
  {
    forall i, j :: 0 <= i < j < |s| ==> s[i] != s[j]
  }

  /** `r` lists every element of `s` exactly once. */
  predicate Enumerates(r: seq<string>, s: set<string>)
  {
    Distinct(r) && |r| == |s| && (forall x :: x in r ==> x in s) && (forall x :: x in s ==> x in r)
  }

  /** Iteration over a Python set or over a dict's keys: every element once, in an order the
      runtime chooses. */
  method Enumerate(s: set<string>) returns (r: seq<string>)
    ensures Enumerates(r, s)
  {
    r := [];
    var rest := s;
    while rest != {}
      invariant rest <= s
      invariant forall x :: x in r <==> x in s && x !in rest
      invariant Distinct(r)
      invariant |r| + |rest| == |s|
      decreases rest
    {
      var x :| x in rest;
      r := r + [x];
      rest := rest - {x};
    }
  }

  /** `items` is what `m.items()` may return: each entry once, in some order. */
  predicate IsItemsOf(items: seq<(string, Value)>, m: map<string, Value>)
  {
    && |items| == |m|
    && (forall i :: 0 <= i < |items| ==> items[i].0 in m && items[i].1 == m[items[i].0])
    && (forall k :: k in m ==> exists i :: 0 <= i < |items| && items[i].0 == k)
    && (forall i, j :: 0 <= i < j < |items| ==> items[i].0 != items[j].0)
  }

  /** `d.items()`. */
  method Items(d: ParamDict) returns (items: seq<(string, Value)>)
    ensures IsItemsOf(items, d.entries)
  {
    var m := d.entries;
    var keys := Enumerate(m.Keys);
    items := seq(|keys|, i requires 0 <= i < |keys| => (keys[i], m[keys[i]]));
    forall k | k in m
      ensures exists i :: 0 <= i < |items| && items[i].0 == k
    {
      var i :| 0 <= i < |keys| && keys[i] == k;
      assert items[i].0 == k;
    }
  }

  /** A list value in its JSON text form; other values unchanged. */
  function Serialize(v: Value, dumps: seq<string> -> string): (r: Value)
    ensures !r.List?
  {
    if v.List? then Str(dumps(v.elems)) else v
  }

  predicate NoLists(m: map<string, Value>)
  {
    forall k :: k in m ==> !m[k].List?
  }

  /** Every list value of `m` replaced by its JSON text. */
  function SerializeLists(m: map<string, Value>, dumps: seq<string> -> string): (r: map<string, Value>)
    ensures r.Keys == m.Keys
    ensures NoLists(r)
  {
    map k | k in m :: Serialize(m[k], dumps)
  }

  /** Serializing twice is serializing once, and a map without lists is left as it is. */
  lemma SerializeListsIdempotent(m: map<string, Value>, dumps: seq<string> -> string)
    ensures SerializeLists(SerializeLists(m, dumps), dumps) == SerializeLists(m, dumps)
    ensures NoLists(m) ==> SerializeLists(m, dumps) == m
  {
    var once := SerializeLists(m, dumps);
    assert forall k :: k in once ==> Serialize(once[k], dumps) == once[k];
    if NoLists(m) {
      assert forall k :: k in m ==> Serialize(m[k], dumps) == m[k];
    }
  }

  /** The rewrite of a list of (key, value) pairs that `unicode_urlencode` performs. */
  function SerializePairs(items: seq<(string, Value)>, dumps: seq<string> -> string): (r: seq<(string, Value)>)
  {
    seq(|items|, i requires 0 <= i < |items| => (items[i].0, Serialize(items[i].1, dumps)))
  }

  /** Rewriting the items of a dict gives the items of the rewritten dict. */
  lemma SerializePairsItems(items: seq<(string, Value)>, m: map<string, Value>, dumps: seq<string> -> string)
    requires IsItemsOf(items, m)
    ensures IsItemsOf(SerializePairs(items, dumps), SerializeLists(m, dumps))
  {
    var r := SerializePairs(items, dumps);
    var m' := SerializeLists(m, dumps);
    assert |r| == |m'|;
    forall i | 0 <= i < |r| ensures r[i].0 in m' && r[i].1 == m'[r[i].0] {
      assert r[i] == (items[i].0, Serialize(items[i].1, dumps));
    }
    forall k | k in m'
      ensures exists i :: 0 <= i < |r| && r[i].0 == k
    {
      var i :| 0 <= i < |items| && items[i].0 == k;
      assert r[i].0 == k;
    }
    forall i, j | 0 <= i < j < |r| ensures r[i].0 != r[j].0 {
      assert r[i].0 == items[i].0 && r[j].0 == items[j].0;
    }
  }
}
