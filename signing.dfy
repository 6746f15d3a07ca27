/** Request preparation, signing and the signed HTTP call: `request`, `hash_args` and
    `unicode_urlencode`. */
module Signing {
  import opened Wrappers
  import opened PyText
  import opened Sorting
  import opened PyValues

  /** The API version segment of every URL. */
  const Version: string := "2.0"
  /** Base URL of the raw-data export endpoint. */
  const DataApiBase: string := "http://data.mixpanel.com/api"
  /** Base URL of the standard endpoint. */
  const ApiBase: string := "http://mixpanel.com/api"
  /** Lifetime granted to a request, in seconds. */
  const ExpirySeconds: int := 600

  /** What a call returns: the export body verbatim, or the decoded JSON document. */
  datatype Response = Body(text: string) | Document(doc: Json)

  /** The text `hash_args` appends for a value that is not a list: the string itself (a
      unicode value's UTF-8 encoding has the same characters here) or `str` of the integer. */
  function Text(v: Value): string
    requires !v.List?
  {
    if v.Str? then v.s else IntText(v.i)
  }

  /** `key=value`. */
  function Pair(k: string, v: Value): string
    requires !v.List?
  {
    k + "=" + Text(v)
  }

  /** `key=value` for each key of `order`, concatenated in that order. Every key `hash_args`
      visits has a non-list value; a key without one would contribute nothing. */
  function JoinPairs(m: map<string, Value>, order: seq<string>): string
    decreases |order|
  {
    if order == [] then ""
    else
      var k := order[|order| - 1];
      JoinPairs(m, order[..|order| - 1]) + (if k in m && !m[k].List? then Pair(k, m[k]) else "")
  }

  /** The text `hash_args` feeds to MD5 ahead of the secret: `key=value` over the keys of `m`
      in ascending order. */
  ghost function Canonical(m: map<string, Value>): string
    requires NoLists(m)
  {
    JoinPairs(m, SortedKeys(m.Keys))
  }

  /** Walking the keys in any ascending order produces the canonical text. */
  lemma CanonicalAnyAscendingOrder(m: map<string, Value>, order: seq<string>)
    requires NoLists(m)
    requires StrictlySorted(order)
    requires forall k :: k in order <==> k in m
    ensures JoinPairs(m, order) == Canonical(m)
  {
    SortedUnique(order, SortedKeys(m.Keys));
  }

  lemma Associative(a: string, b: string, c: string)
    ensures (a + b) + c == a + (b + c)
  {
  }

  lemma {:induction false} JoinPairsFront(m: map<string, Value>, k: string, order: seq<string>)
    requires k in m && !m[k].List?
    ensures JoinPairs(m, [k] + order) == Pair(k, m[k]) + JoinPairs(m, order)
    decreases |order|
  {
    if order == [] {
      assert [k] + order == [k];
      assert [k][..0] == [];
    } else {
      var n := |order|;
      var whole := [k] + order;
      assert whole[..n] == [k] + order[..n - 1];
      assert whole[n] == order[n - 1];
      JoinPairsFront(m, k, order[..n - 1]);
      var last := order[n - 1];
      Associative(Pair(k, m[k]), JoinPairs(m, order[..n - 1]),
                  if last in m && !m[last].List? then Pair(last, m[last]) else "");
    }
  }

  lemma {:induction false} JoinPairsOtherKeys(m: map<string, Value>, m': map<string, Value>, order: seq<string>)
    requires forall i :: 0 <= i < |order| ==> order[i] in m && order[i] in m' && m[order[i]] == m'[order[i]]
    ensures JoinPairs(m, order) == JoinPairs(m', order)
    decreases |order|
  {
    if order != [] {
      JoinPairsOtherKeys(m, m', order[..|order| - 1]);
    }
  }

  /** The least key comes first in the canonical text, followed by the canonical text of
      the other entries. */
  lemma CanonicalLeastFirst(m: map<string, Value>, k: string)
    requires NoLists(m)
    requires IsLeast(k, m.Keys)
    ensures Canonical(m) == Pair(k, m[k]) + Canonical(m - {k})
  {
    var rest := m - {k};
    var tail := SortedKeys(rest.Keys);
    LeastKeyOrder(m, k);
    JoinPairsFront(m, k, tail);
    RestAgrees(m, k, tail);
    JoinPairsOtherKeys(m, rest, tail);
  }

  lemma LeastKeyOrder(m: map<string, Value>, k: string)
    requires IsLeast(k, m.Keys)
    ensures SortedKeys(m.Keys) == [k] + SortedKeys((m - {k}).Keys)
  {
    assert (m - {k}).Keys == m.Keys - {k};
    SortedKeysLeast(k, m.Keys);
  }

  lemma RestAgrees(m: map<string, Value>, k: string, tail: seq<string>)
    requires tail == SortedKeys((m - {k}).Keys)
    ensures forall i :: 0 <= i < |tail| ==> tail[i] in m && tail[i] in m - {k} && m[tail[i]] == (m - {k})[tail[i]]
  {
    forall i | 0 <= i < |tail|
      ensures tail[i] in m && tail[i] in m - {k} && m[tail[i]] == (m - {k})[tail[i]]
    {
      assert tail[i] in tail;
      assert tail[i] in (m - {k}).Keys;
    }
  }

  /** The first loop of `hash_args`: every list value of `args` rewritten as JSON text, in place,
      visiting the keys in the order the dict yields them. */
  method SerializeListsInPlace(args: ParamDict, dumps: seq<string> -> string)
    modifies args
    ensures args.entries.Keys == old(args.entries.Keys)
    ensures forall k :: k in args.entries ==> args.entries[k] == Serialize(old(args.entries[k]), dumps)
    ensures args.entries == SerializeLists(old(args.entries), dumps)
  {
    ghost var before := args.entries;
    var keys := Enumerate(args.entries.Keys);
    ghost var done: set<string> := {};
    for i := 0 to |keys|
      invariant args.entries.Keys == before.Keys
      invariant forall j :: 0 <= j < i ==> keys[j] in done
      invariant forall k :: k in args.entries && k in done ==> args.entries[k] == Serialize(before[k], dumps)
      invariant forall k :: k in args.entries && k !in done ==> args.entries[k] == before[k]
    {
      var a := keys[i];
      if args.entries[a].List? {
        args.entries := args.entries[a := Str(dumps(args.entries[a].elems))];
      }
      done := done + {a};
    }
    SerializedEach(before, args.entries, dumps);
  }

  lemma SerializedEach(before: map<string, Value>, after: map<string, Value>, dumps: seq<string> -> string)
    requires after.Keys == before.Keys
    requires forall k :: k in after ==> after[k] == Serialize(before[k], dumps)
    ensures after == SerializeLists(before, dumps)
  {
  }

  lemma JoinPairsSnoc(m: map<string, Value>, order: seq<string>, i: nat)
    requires i < |order|
    requires order[i] in m && !m[order[i]].List?
    ensures JoinPairs(m, order[..i + 1]) == JoinPairs(m, order[..i]) + Pair(order[i], m[order[i]])
  {
    assert order[..i + 1][..i] == order[..i];
  }

  /** The second loop of `hash_args`: `key=value` appended for each key of `sorted(args.keys())`. */
  method JoinSorted(m: map<string, Value>) returns (joined: string)
    requires NoLists(m)
    ensures joined == Canonical(m)
  {
    var order := Sort(m.Keys);
    assert forall j :: 0 <= j < |order| ==> order[j] in m;
    joined := "";
    for i := 0 to |order|
      invariant joined == JoinPairs(m, order[..i])
    {
      var piece := Pair(order[i], m[order[i]]);
      JoinPairsSnoc(m, order, i);
      joined := joined + piece;
    }
    assert order[..|order|] == order;
  }

  /** `hash_args`: rewrites the list values of `args` as JSON text, in place, then returns the
      MD5 hex digest of the canonical text followed by the secret. */
  method HashArgs(args: ParamDict, secret: string, lib: Library) returns (digest: string)
    modifies args
    ensures args.entries.Keys == old(args.entries.Keys)
    ensures forall k :: k in args.entries ==> args.entries[k] == Serialize(old(args.entries[k]), lib.jsonDumps)
    ensures args.entries == SerializeLists(old(args.entries), lib.jsonDumps)
    ensures digest == lib.md5Hex(Canonical(args.entries) + secret)
  {
    SerializeListsInPlace(args, lib.jsonDumps);
    var joined := JoinSorted(args.entries);
    digest := lib.md5Hex(joined + secret);
  }

  /** `unicode_urlencode` of a dict: its items, with list values rewritten as JSON text, handed
      to `urlencode` in the order the dict yields them. */
  method UnicodeUrlencode(params: ParamDict, lib: Library) returns (query: string)
    ensures exists items :: IsItemsOf(items, SerializeLists(params.entries, lib.jsonDumps)) && query == lib.urlencode(items)
  {
    var items := Items(params);
    ghost var original := items;
    for i := 0 to |items|
      invariant |items| == |original|
      invariant forall j :: 0 <= j < i ==> items[j] == (original[j].0, Serialize(original[j].1, lib.jsonDumps))
      invariant forall j :: i <= j < |items| ==> items[j] == original[j]
    {
      if items[i].1.List? {
        items := items[i := (items[i].0, Str(lib.jsonDumps(items[i].1.elems)))];
      }
    }
    assert items == SerializePairs(original, lib.jsonDumps);
    SerializePairsItems(original, params.entries, lib.jsonDumps);
    query := lib.urlencode(items);
  }

  /** The parameters as `request` hands them to `hash_args`: the caller's entries with the API
      key, the expiry and the format set, and without any old signature. */
  function Prepare(m: map<string, Value>, apiKey: string, expire: int, format: string): map<string, Value>
  {
    m["api_key" := Str(apiKey)]["expire" := Int(expire)]["format" := Str(format)] - {"sig"}
  }

  /** The parameters `request` sends, which are also what it leaves in the caller's dict. */
  ghost function Signed(m: map<string, Value>, apiKey: string, secret: string, expire: int,
                        format: string, lib: Library): map<string, Value>
  {
    var hashed := SerializeLists(Prepare(m, apiKey, expire, format), lib.jsonDumps);
    hashed["sig" := Str(lib.md5Hex(Canonical(hashed) + secret))]
  }

  function BaseUrl(dataApi: bool): string
  {
    if dataApi then DataApiBase else ApiBase
  }

  /** `'/'.join([url_base, '2.0'] + methods) + '/?' + query`. */
  function RequestUrl(dataApi: bool, methods: seq<string>, query: string): string
  {
    JoinWith("/", [BaseUrl(dataApi), Version] + methods) + "/?" + query
  }

  /** What `request` returns for the body it read. */
  function Decode(dataApi: bool, data: string, loads: string -> Option<Json>): Result<Response, PyError>
  {
    if dataApi then Ok(Body(data))
    else
      match loads(data)
      case None => Err(ValueError)
      case Some(doc) => Ok(Document(doc))
  }

  /** The first lines of `request`: the API key, the expiry and the format set in `params`,
      and any old signature removed. */
  method PrepareInPlace(params: ParamDict, apiKey: string, expire: int, format: string)
    modifies params
    ensures params.entries == Prepare(old(params.entries), apiKey, expire, format)
  {
    params.entries := params.entries["api_key" := Str(apiKey)];
    params.entries := params.entries["expire" := Int(expire)];
    params.entries := params.entries["format" := Str(format)];
    if "sig" in params.entries {
      params.entries := params.entries - {"sig"};
    }
  }

  /** The URL `request` builds for parameters that hold no lists any more. */
  method BuildUrl(params: ParamDict, dataApi: bool, methods: seq<string>, lib: Library) returns (url: string)
    requires NoLists(params.entries)
    ensures exists items :: IsItemsOf(items, params.entries) && url == RequestUrl(dataApi, methods, lib.urlencode(items))
  {
    var urlBase := if dataApi then DataApiBase else ApiBase;
    var query := UnicodeUrlencode(params, lib);
    SerializeListsIdempotent(params.entries, lib.jsonDumps);
    url := JoinWith("/", [urlBase, Version] + methods) + "/?" + query;
  }

  /** `request`: prepares and signs `params` in place, builds the URL, reads the body at that
      URL and returns it verbatim for the export endpoint or decoded otherwise. `clock` is
      `time.time()`. */
  method Request(keys: (string, string), methods: seq<string>, params: ParamDict, format: string,
                 dataApi: bool, clock: real, lib: Library)
    returns (url: string, reply: Result<Response, PyError>)
    modifies params
    ensures params.entries == Signed(old(params.entries), keys.0, keys.1, Truncate(clock) + ExpirySeconds, format, lib)
    ensures exists items :: IsItemsOf(items, params.entries) && url == RequestUrl(dataApi, methods, lib.urlencode(items))
    ensures reply == Decode(dataApi, lib.urlopen(url), lib.jsonLoads)
  {
    var (apiKey, apiSecret) := keys;
    ghost var caller := params.entries;
    var expire := Truncate(clock) + ExpirySeconds;
    PrepareInPlace(params, apiKey, expire, format);
    var sig := HashArgs(params, apiSecret, lib);
    ghost var hashed := params.entries;
    params.entries := params.entries["sig" := Str(sig)];
    SignedVia(caller, apiKey, apiSecret, expire, format, lib, hashed);

    url := BuildUrl(params, dataApi, methods, lib);

    var data := lib.urlopen(url);
    if dataApi {
      reply := Ok(Body(data));
    } else {
      match lib.jsonLoads(data)
      case None =>
        reply := Err(ValueError);
      case Some(doc) =>
        reply := Ok(Document(doc));
    }
  }

  /** The signed parameters hold the API key, the expiry and the format as given, and a
      signature. */
  lemma SignedFields(m: map<string, Value>, apiKey: string, secret: string, expire: int,
                     format: string, lib: Library)
    ensures var s := Signed(m, apiKey, secret, expire, format, lib);
      && "api_key" in s && s["api_key"] == Str(apiKey)
      && "expire" in s && s["expire"] == Int(expire)
      && "format" in s && s["format"] == Str(format)
      && "sig" in s && s["sig"].Str?
  {
    var p := Prepare(m, apiKey, expire, format);
    var hashed := SerializeLists(p, lib.jsonDumps);
    assert p["api_key"] == Str(apiKey) && p["expire"] == Int(expire) && p["format"] == Str(format);
    assert hashed["api_key"] == Str(apiKey) && hashed["expire"] == Int(expire) && hashed["format"] == Str(format);
  }

  lemma UpdatedKeys(m: map<string, Value>, a: string, va: Value, b: string, vb: Value, c: string, vc: Value,
                    d: string, vd: Value)
    ensures ((m[a := va][b := vb][c := vc] - {d})[d := vd]).Keys == m.Keys + {a, b, c, d}
  {
  }

  /** Every other entry of the caller is sent, a list as its JSON text; nothing else is added. */
  lemma SignedKeepsCallerEntries(m: map<string, Value>, apiKey: string, secret: string, expire: int,
                                 format: string, lib: Library)
    ensures var s := Signed(m, apiKey, secret, expire, format, lib);
      && s.Keys == m.Keys + {"api_key", "expire", "format", "sig"}
      && forall k :: k in m && k != "api_key" && k != "expire" && k != "format" && k != "sig" ==>
           s[k] == Serialize(m[k], lib.jsonDumps)
  {
    var hashed := SerializeLists(Prepare(m, apiKey, expire, format), lib.jsonDumps);
    PreparedEntries(m, apiKey, expire, format, lib.jsonDumps, Str(lib.md5Hex(Canonical(hashed) + secret)));
  }

  /** `SignedKeepsCallerEntries` for any signature value. */
  lemma PreparedEntries(m: map<string, Value>, apiKey: string, expire: int, format: string,
                        dumps: seq<string> -> string, sig: Value)
    ensures var s := SerializeLists(Prepare(m, apiKey, expire, format), dumps)["sig" := sig];
      && s.Keys == m.Keys + {"api_key", "expire", "format", "sig"}
      && forall k :: k in m && k != "api_key" && k != "expire" && k != "format" && k != "sig" ==>
           s[k] == Serialize(m[k], dumps)
  {
    var p := Prepare(m, apiKey, expire, format);
    var hashed := SerializeLists(p, dumps);
    var s := hashed["sig" := sig];
    UpdatedKeys(m, "api_key", Str(apiKey), "expire", Int(expire), "format", Str(format), "sig", sig);
    assert s.Keys == (p["sig" := sig]).Keys;
    forall k | k in m && k != "api_key" && k != "expire" && k != "format" && k != "sig"
      ensures s[k] == Serialize(m[k], dumps)
    {
      assert k in p && p[k] == m[k];
      assert hashed[k] == Serialize(p[k], dumps);
    }
  }

  /** The signature is the digest of the canonical text of everything else that is sent,
      followed by the secret: no signature is part of the signed text, and a receiver holding
      the secret can recompute it from the sent parameters. */
  lemma SignatureOverSentEntries(m: map<string, Value>, apiKey: string, secret: string, expire: int,
                                 format: string, lib: Library)
    ensures var s := Signed(m, apiKey, secret, expire, format, lib);
      && "sig" in s && NoLists(s - {"sig"})
      && s["sig"] == Str(lib.md5Hex(Canonical(s - {"sig"}) + secret))
  {
    var hashed := SerializeLists(Prepare(m, apiKey, expire, format), lib.jsonDumps);
    var sig := Str(lib.md5Hex(Canonical(hashed) + secret));
    assert "sig" !in hashed;
    RemoveAdded(hashed, "sig", sig);
  }

  lemma RemoveAdded(h: map<string, Value>, k: string, v: Value)
    requires k !in h
    ensures h[k := v] - {k} == h
  {
  }

  /** What is sent depends on the caller's dict only through the prepared parameters. */
  lemma SignedThroughPrepare(m: map<string, Value>, m': map<string, Value>, apiKey: string, secret: string,
                             expire: int, format: string, lib: Library)
    requires Prepare(m', apiKey, expire, format) == Prepare(m, apiKey, expire, format)
    ensures Signed(m', apiKey, secret, expire, format, lib) == Signed(m, apiKey, secret, expire, format, lib)
  {
  }

  /** A signature already in the caller's dict has no influence on what is sent. */
  lemma OldSignatureIgnored(m: map<string, Value>, old_sig: Value, apiKey: string, secret: string,
                            expire: int, format: string, lib: Library)
    ensures Signed(m["sig" := old_sig], apiKey, secret, expire, format, lib)
         == Signed(m, apiKey, secret, expire, format, lib)
    ensures Signed(m - {"sig"}, apiKey, secret, expire, format, lib)
         == Signed(m, apiKey, secret, expire, format, lib)
  {
    PrepareDropsSig(m, old_sig, apiKey, expire, format);
    SignedThroughPrepare(m, m["sig" := old_sig], apiKey, secret, expire, format, lib);
    SignedThroughPrepare(m, m - {"sig"}, apiKey, secret, expire, format, lib);
  }

  lemma PrepareDropsSig(m: map<string, Value>, old_sig: Value, apiKey: string, expire: int, format: string)
    ensures Prepare(m["sig" := old_sig], apiKey, expire, format) == Prepare(m, apiKey, expire, format)
    ensures Prepare(m - {"sig"}, apiKey, expire, format) == Prepare(m, apiKey, expire, format)
  {
  }

  /** Preparing already signed parameters again, with the same key, secret, expiry and format,
      changes nothing. */
  lemma ResignStable(m: map<string, Value>, apiKey: string, secret: string, expire: int,
                     format: string, lib: Library)
    ensures var s := Signed(m, apiKey, secret, expire, format, lib);
      Signed(s, apiKey, secret, expire, format, lib) == s
  {
    var hashed := SerializeLists(Prepare(m, apiKey, expire, format), lib.jsonDumps);
    var s := hashed["sig" := Str(lib.md5Hex(Canonical(hashed) + secret))];
    SignedVia(m, apiKey, secret, expire, format, lib, hashed);
    HashedFields(m, apiKey, expire, format, lib.jsonDumps);
    PrepareSigned(hashed, s, apiKey, expire, format);
    SerializeListsIdempotent(hashed, lib.jsonDumps);
    SignedVia(s, apiKey, secret, expire, format, lib, hashed);
  }

  lemma SignedVia(m: map<string, Value>, apiKey: string, secret: string, expire: int,
                  format: string, lib: Library, hashed: map<string, Value>)
    requires SerializeLists(Prepare(m, apiKey, expire, format), lib.jsonDumps) == hashed
    ensures Signed(m, apiKey, secret, expire, format, lib) == hashed["sig" := Str(lib.md5Hex(Canonical(hashed) + secret))]
  {
  }

  lemma HashedFields(m: map<string, Value>, apiKey: string, expire: int, format: string,
                     dumps: seq<string> -> string)
    ensures var hashed := SerializeLists(Prepare(m, apiKey, expire, format), dumps);
      && "sig" !in hashed
      && "api_key" in hashed && hashed["api_key"] == Str(apiKey)
      && "expire" in hashed && hashed["expire"] == Int(expire)
      && "format" in hashed && hashed["format"] == Str(format)
  {
    var p := Prepare(m, apiKey, expire, format);
    assert p["api_key"] == Str(apiKey) && p["expire"] == Int(expire) && p["format"] == Str(format);
  }

  lemma PrepareSigned(hashed: map<string, Value>, s: map<string, Value>, apiKey: string, expire: int, format: string)
    requires "sig" !in hashed
    requires "api_key" in hashed && hashed["api_key"] == Str(apiKey)
    requires "expire" in hashed && hashed["expire"] == Int(expire)
    requires "format" in hashed && hashed["format"] == Str(format)
    requires "sig" in s && s == hashed["sig" := s["sig"]]
    ensures Prepare(s, apiKey, expire, format) == hashed
  {
  }

  lemma Regroup3(b: string, v: string, q: string)
    ensures (b + "/" + v) + "/?" + q == b + ("/" + v + "/?") + q
  {
  }

  lemma Regroup4(b: string, v: string, rest: string, q: string)
    ensures (b + "/" + (v + "/" + rest)) + "/?" + q == b + ("/" + v + "/") + rest + "/?" + q
  {
  }

  /** With no method segments the URL is the base, `/2.0/?` and the query. */
  lemma UrlNoMethods(dataApi: bool, query: string)
    ensures RequestUrl(dataApi, [], query) == BaseUrl(dataApi) + "/2.0/?" + query
  {
    var b := BaseUrl(dataApi);
    var parts: seq<string> := [b, Version];
    assert [b, Version] + [] == parts;
    assert parts[1..] == [Version];
    assert JoinWith("/", parts) == b + "/" + Version;
    Regroup3(b, Version, query);
    assert "/" + Version + "/?" == "/2.0/?";
  }

  /** The URL is the base, `/2.0/`, the method segments joined by `/`, then `/?` and the query. */
  lemma UrlWithMethods(dataApi: bool, methods: seq<string>, query: string)
    requires methods != []
    ensures RequestUrl(dataApi, methods, query) == BaseUrl(dataApi) + "/2.0/" + JoinWith("/", methods) + "/?" + query
  {
    var b := BaseUrl(dataApi);
    var parts := [b, Version] + methods;
    assert parts[1..] == [Version] + methods;
    assert ([Version] + methods)[1..] == methods;
    var rest := JoinWith("/", methods);
    assert JoinWith("/", parts) == b + "/" + (Version + "/" + rest);
    Regroup4(b, Version, rest, query);
    assert "/" + Version + "/" == "/2.0/";
  }

  /** The URL begins with the export base exactly when the export endpoint was selected. */
  lemma UrlSelectsEndpoint(dataApi: bool, methods: seq<string>, query: string)
    ensures DataApiBase <= RequestUrl(dataApi, methods, query) <==> dataApi
  {
    if methods == [] { UrlNoMethods(dataApi, query); } else { UrlWithMethods(dataApi, methods, query); }
    var url := RequestUrl(dataApi, methods, query);
    if dataApi {
      assert url == DataApiBase + (url[|DataApiBase|..]);
    } else {
      assert url[7] == 'm';
      assert DataApiBase[7] == 'd';
    }
  }
}
