/**
 * Query strings: written by webserv/sources/cgi/CGI.cpp (`joinQuery`), read by
 * webserv/sources/request/request.cpp (`parseQueryParams`).
 */
module Query {
  import opened Paths
  import opened Bytes

  /** What `getline` gives one after the other: an empty part at the very end is not one. */
  function Params(s: string): seq<string>
    decreases |s|
  {
    var n := CharAt(s, '&');
    if |s| == 0 then [] else if n == |s| then [s] else [s[..n]] + Params(s[n + 1..])
  }

  /** `params` are taken into `m`, the later ones over the earlier ones; `ok` says that each had an equals sign. */
  datatype Parsed = Parsed(ok: bool, m: map<string, string>)

  function TakeParam(m: map<string, string>, param: string): map<string, string>
    requires CharAt(param, '=') < |param|
  {
    m[param[..CharAt(param, '=')] := param[CharAt(param, '=') + 1..]]
  }

  function TakeAll(m: map<string, string>, params: seq<string>): Parsed
    decreases |params|
  {
    if |params| == 0 then Parsed(true, m)
    else if CharAt(params[0], '=') == |params[0]| then Parsed(false, m)
    else TakeAll(TakeParam(m, params[0]), params[1..])
  }

  /** The path and the parameters of a request target. */
  datatype Target = Target(path: string, params: Parsed)

  function ParseTarget(uri: string, m: map<string, string>): Target {
    var n := CharAt(uri, '?');
    if n == |uri| then Target(uri, Parsed(true, m))
    else Target(Collapse(uri[..n], false), TakeAll(m, Params(uri[n + 1..])))
  }

  /** The entries of `m` in the order of `keys`. */
  function Joined(m: map<string, string>, keys: seq<string>): string
    requires forall k :: 0 <= k < |keys| ==> keys[k] in m
  {
    if |keys| == 0 then ""
    else if |keys| == 1 then Pair(keys[0], m[keys[0]])
    else Pair(keys[0], m[keys[0]]) + (['&'] + Joined(m, keys[1..]))
  }

  function Pair(key: string, value: string): (s: string)
    ensures |s| > 0
  {
    key + (['='] + value)
  }

  // ---------------------------------------------------------------- the round trip

  /** Keys without `=` and `&`, values without `&`. */
  ghost predicate Plain(m: map<string, string>) {
    forall k :: k in m ==> '=' !in k && '&' !in k && '&' !in m[k]
  }

  lemma PairIsParam(key: string, value: string)
    requires '=' !in key && '&' !in key && '&' !in value
    ensures '&' !in Pair(key, value) && CharAt(Pair(key, value), '=') == |key| < |Pair(key, value)|
    ensures forall m :: TakeParam(m, Pair(key, value)) == m[key := value]
  {
    CharAtIs(key, '=', value);
    AroundChar(key, '=', value);
  }

  function Entries(m: map<string, string>, keys: seq<string>): (pairs: seq<string>)
    requires forall k :: 0 <= k < |keys| ==> keys[k] in m
    ensures |pairs| == |keys| && forall k :: 0 <= k < |keys| ==> pairs[k] == Pair(keys[k], m[keys[k]])
  {
    seq(|keys|, k requires 0 <= k < |keys| => Pair(keys[k], m[keys[k]]))
  }

  lemma EntriesStep(m: map<string, string>, keys: seq<string>)
    requires |keys| > 0 && forall k :: 0 <= k < |keys| ==> keys[k] in m
    ensures Entries(m, keys) == [Pair(keys[0], m[keys[0]])] + Entries(m, keys[1..])
    ensures |keys| == 1 ==> Entries(m, keys) == [Pair(keys[0], m[keys[0]])]
  {
  }

  lemma ParamsCut(param: string, rest: string)
    requires '&' !in param
    ensures |param| > 0 ==> Params(param) == [param]
    ensures Params(param + (['&'] + rest)) == [param] + Params(rest)
  {
    CharAtNone(param, '&');
    CharAtIs(param, '&', rest);
    AroundChar(param, '&', rest);
  }

  /** The parameters of a joined query are its entries. */
  lemma {:induction false} ParamsOfJoined(m: map<string, string>, keys: seq<string>)
    requires Plain(m) && forall k :: 0 <= k < |keys| ==> keys[k] in m
    ensures Params(Joined(m, keys)) == Entries(m, keys)
    decreases |keys|
  {
    if |keys| > 0 {
      var p := Pair(keys[0], m[keys[0]]);
      PairIsParam(keys[0], m[keys[0]]);
      hide Params, Pair, Entries, Plain;
      EntriesStep(m, keys);
      if |keys| == 1 {
        ParamsCut(p, "");
      } else {
        ParamsCut(p, Joined(m, keys[1..]));
        ParamsOfJoined(m, keys[1..]);
      }
    }
  }

  /** Entries of `m` are taken into a map as they are. */
  lemma {:induction false} TakeEntries(start: map<string, string>, params: seq<string>, m: map<string, string>, keys: seq<string>)
    requires Plain(m) && |params| == |keys| && forall k :: 0 <= k < |keys| ==> keys[k] in m && params[k] == Pair(keys[k], m[keys[k]])
    ensures var r := TakeAll(start, params);
            && r.ok
            && (forall k :: k in r.m <==> k in start || k in keys)
            && (forall k :: k in r.m ==> r.m[k] == if k in keys then m[k] else start[k])
    decreases |keys|
  {
    if |keys| > 0 {
      PairIsParam(keys[0], m[keys[0]]);
      TakeEntries(start[keys[0] := m[keys[0]]], params[1..], m, keys[1..]);
    }
  }

  /**
   * The round trip: what is joined, in any order of the keys, and put behind a path and a question
   * mark is read back as the same map.
   */
  lemma QueryRoundTrip(path: string, m: map<string, string>, keys: seq<string>)
    requires '?' !in path && Plain(m)
    requires (forall k :: 0 <= k < |keys| ==> keys[k] in m) && (forall k :: k in m ==> k in keys)
    ensures ParseTarget(path + (['?'] + Joined(m, keys)), map[]) == Target(Collapse(path, false), Parsed(true, m))
  {
    var query := Joined(m, keys);
    CharAtIs(path, '?', query);
    AroundChar(path, '?', query);
    ParamsOfJoined(m, keys);
    hide CharAt, Params, Joined, Plain, Collapse;
    TakeEntries(map[], Params(query), m, keys);
    AllTaken(m, keys, TakeAll(map[], Params(query)).m);
  }

  lemma AllTaken(m: map<string, string>, keys: seq<string>, r: map<string, string>)
    requires (forall k :: 0 <= k < |keys| ==> keys[k] in m) && (forall k :: k in m ==> k in keys)
    requires (forall k :: k in r <==> k in keys) && (forall k :: k in r ==> k in m && r[k] == m[k])
    ensures r == m
  {
    forall k ensures k in r <==> k in m {
    }
  }

  /** The first equals sign parts name and value, and of several values for a name the last counts. */
  lemma {:induction false} LastValueCounts(m: map<string, string>, params: seq<string>, key: string, value: string)
    requires '=' !in key && TakeAll(m, params).ok
    ensures TakeAll(m, params + [key + (['='] + value)]) == Parsed(true, TakeAll(m, params).m[key := value])
    decreases |params|
  {
    var last := key + (['='] + value);
    if |params| == 0 {
      assert params + [last] == [last] && [last][1..] == [];
      CharAtIs(key, '=', value);
      AroundChar(key, '=', value);
    } else {
      assert (params + [last])[0] == params[0] && (params + [last])[1..] == params[1..] + [last];
      LastValueCounts(TakeParam(m, params[0]), params[1..], key, value);
    }
  }

  /** Without a question mark the target is the path, as it is. */
  lemma NoQuery(uri: string, m: map<string, string>)
    requires '?' !in uri
    ensures ParseTarget(uri, m) == Target(uri, Parsed(true, m))
  {
    CharAtNone(uri, '?');
  }

  /** A query is refused exactly when some parameter has no equals sign. */
  lemma {:induction false} Refused(m: map<string, string>, params: seq<string>)
    ensures TakeAll(m, params).ok <==> forall k :: 0 <= k < |params| ==> '=' in params[k]
    decreases |params|
  {
    if |params| > 0 {
      var n := CharAt(params[0], '=');
      assert params[0][..n] + params[0][n..] == params[0];
      if n < |params[0]| {
        Refused(TakeParam(m, params[0]), params[1..]);
      }
    }
  }

  // ---------------------------------------------------------------- the loops

  /** `joinQuery`; the order of the keys is that of the map's iteration. */
  method JoinQuery(m: map<string, string>, keys: seq<string>) returns (query: string)
    requires forall k :: 0 <= k < |keys| ==> keys[k] in m
    ensures query == Joined(m, keys)
  {
    query := "";
    assert keys[0..] == keys;
    for i := 0 to |keys|
      invariant Joined(m, keys) == query + (if 0 < i < |keys| then ['&'] else "") + Joined(m, keys[i..])
    {
      JoinedStep(m, keys, i, query);
      if i != 0 {
        query := query + ['&'];
      }
      query := query + Pair(keys[i], m[keys[i]]);
    }
    assert Joined(m, keys[|keys|..]) == "";
  }

  lemma JoinedStep(m: map<string, string>, keys: seq<string>, i: nat, before: string)
    requires i < |keys| && forall k :: 0 <= k < |keys| ==> keys[k] in m
    ensures before + (if 0 < i < |keys| then ['&'] else "") + Joined(m, keys[i..])
         == (if i != 0 then before + ['&'] else before) + Pair(keys[i], m[keys[i]])
            + (if i + 1 < |keys| then ['&'] else "") + Joined(m, keys[i + 1..])
  {
    var rest := keys[i..];
    assert rest[0] == keys[i] && rest[1..] == keys[i + 1..];
  }

  method ParseQueryParams(uri: string, m: map<string, string>) returns (ok: bool, path: string, params: map<string, string>)
    ensures Target(path, Parsed(ok, params)) == ParseTarget(uri, m)
  {
    params := m;
    path := uri;
    var pos := CharAt(uri, '?');
    if pos == |uri| {
      return true, path, params;
    }
    path := Collapse(uri[..pos], false);
    ok, params := ParseQuery(uri[pos + 1..], m);
  }

  /** The `getline` loop. */
  method ParseQuery(query: string, m: map<string, string>) returns (ok: bool, params: map<string, string>)
    ensures Parsed(ok, params) == TakeAll(m, Params(query))
  {
    params := m;
    hide Params, TakeAll;
    var at := 0;
    Bytes.Whole(query);
    while at < |query|
      invariant at <= |query| && TakeAll(m, Params(query)) == TakeAll(params, Params(query[at..]))
      decreases |query| - at
    {
      QueryStep(query, at, params);
      var rest := query[at..];
      var end := CharAt(rest, '&');
      var param := rest[..end];
      var eq := CharAt(param, '=');
      if eq == |param| {
        return false, params;
      }
      params := params[param[..eq] := param[eq + 1..]];
      at := if end == |rest| then |query| else at + end + 1;
    }
    QueryEnd(params, query[at..]);
    return true, params;
  }

  lemma QueryEnd(m: map<string, string>, rest: string)
    ensures rest == "" ==> TakeAll(m, Params(rest)) == Parsed(true, m)
  {
  }

  lemma QueryStep(query: string, at: nat, m: map<string, string>)
    requires at < |query|
    ensures var rest := query[at..]; var end := CharAt(rest, '&'); var param := rest[..end];
            var next := if end == |rest| then |query| else at + end + 1;
            TakeAll(m, Params(rest)) == if CharAt(param, '=') == |param| then Parsed(false, m)
                                        else TakeAll(TakeParam(m, param), Params(query[next..]))
  {
    ParamsStep(query, at);
    hide Params;
  }

  lemma ParamsStep(query: string, at: nat)
    requires at < |query|
    ensures var rest := query[at..]; var end := CharAt(rest, '&');
            && |Params(rest)| > 0 && Params(rest)[0] == rest[..end]
            && Params(rest)[1..] == Params(query[if end == |rest| then |query| else at + end + 1..])
  {
    var rest := query[at..];
    var end := CharAt(rest, '&');
    if end == |rest| {
      assert rest[..end] == rest && query[|query|..] == "";
    } else {
      assert rest[end + 1..] == query[at + end + 1..];
    }
  }
}
