/**
 The request handler: argument guard, fingerprint, cache read, and on a miss
 a forward to the origin whose body is cached and returned.

 The network is abstracted: the outcome of forwarding and reading the body
 is the parameter `origin`, and each call into the cache adapter takes a
 `fault` flag for the store's round trip. The handler's observable actions
 are returned, in order, as `effects`.
 */
module Server {
  import opened Wrappers
  import opened Hex
  import opened Http
  import opened SeqFacts
  import opened Fingerprint
  import opened RedisCache

  /** A port the listener may bind: 1 through 65535. */
  function IsValidPort(port: int): (r: bool)
    ensures r <==> 1 <= port && port < 0x1_0000
  {
    port > 0 && port <= 65535
  }

  /** The outbound request sent to the origin. */
  datatype Outbound = Outbound(verb: string, url: string, header: Values, body: seq<byte>)

  /** The headers of a request that `http.NewRequest` has just built. */
  function EmptyHeader(): Values {
    map[]
  }

  /** `Header.Add`: appends one value under `name`. */
  function AddHeader(h: Values, name: string, value: string): Values {
    h[name := (if name in h then h[name] else []) + [value]]
  }

  /** The inner copy loop: every value of one header, in order. */
  function AddValues(h: Values, name: string, values: seq<string>): Values
    decreases |values|
  {
    if |values| == 0 then h else AddValues(AddHeader(h, name, values[0]), name, values[1..])
  }

  /** The outer copy loop: every header of `src`, visited in `order`. */
  function AddAll(h: Values, src: Values, order: seq<string>): Values
    requires forall k :: k in order ==> k in src
    decreases |order|
  {
    if |order| == 0 then h else AddAll(AddValues(h, order[0], src[order[0]]), src, order[1..])
  }

  /** The headers of `src` that carry at least one value. */
  function NonEmpty(src: Values): Values {
    map k | k in src && |src[k]| > 0 :: src[k]
  }

  lemma {:induction false} AddValuesAppends(h: Values, name: string, values: seq<string>)
    ensures |values| == 0 ==> AddValues(h, name, values) == h
    ensures |values| > 0 ==>
      AddValues(h, name, values) == h[name := (if name in h then h[name] else []) + values]
    decreases |values|
  {
    if |values| > 0 {
      var prior := if name in h then h[name] else [];
      var h' := AddHeader(h, name, values[0]);
      AddValuesAppends(h', name, values[1..]);
      if |values| > 1 {
        assert (prior + [values[0]]) + values[1..] == prior + values;
      } else {
        assert values == [values[0]];
      }
    }
  }

  /**
   Copying every header of `src` onto headers that hold none of the visited
   names adds exactly the visited headers that carry values, unchanged.
   */
  lemma {:induction false} AddAllCopies(h: Values, src: Values, order: seq<string>)
    requires forall k :: k in order ==> k in src
    requires Distinct(order)
    requires forall k :: k in order ==> k !in h
    ensures forall k :: k in AddAll(h, src, order) <==> k in h || (k in order && |src[k]| > 0)
    ensures forall k :: k in AddAll(h, src, order) ==>
      AddAll(h, src, order)[k] == if k in order then src[k] else h[k]
    decreases |order|
  {
    if |order| > 0 {
      var h' := AddValues(h, order[0], src[order[0]]);
      AddValuesAppends(h, order[0], src[order[0]]);
      assert forall k :: k in order[1..] ==> k != order[0] && k in order by {
        forall k | k in order[1..] ensures k != order[0] && k in order {
          var i :| 0 <= i < |order[1..]| && order[1..][i] == k;
          assert order[i + 1] == k;
        }
      }
      AddAllCopies(h', src, order[1..]);
      assert forall k :: k in order <==> k == order[0] || k in order[1..];
    }
  }

  /**
   The outbound request as written: the inbound request variable is reassigned
   to the new request before the header loop, so the loop copies the new
   request's (empty) headers onto themselves.
   */
  function ForwardRequestAsWritten(req: Request, redirectURL: string): (o: Outbound)
    ensures o.verb == req.verb && o.url == redirectURL && o.body == req.body
  {
    var created := EmptyHeader();
    Outbound(req.verb, redirectURL, AddAll(created, created, []), req.body)
  }

  /** A request carrying an `Accept` header reaches the origin without it. */
  lemma ForwardRequestAsWrittenDropsHeaders()
    ensures var req := Request("GET", "/", map[], map["Accept" := ["text/html"]], []);
      && "Accept" in NonEmpty(req.header)
      && ForwardRequestAsWritten(req, "http://origin").header == map[]
  {
  }

  /**
   The outbound request as intended: inbound method and body, every header
   value copied, sent to `redirectURL`; the inbound path and query are not
   appended to it.
   */
  function ForwardRequest(req: Request, redirectURL: string, headerOrder: seq<string>): (o: Outbound)
    requires IsIterationOrder(headerOrder, req.header)
    ensures o.verb == req.verb && o.url == redirectURL && o.body == req.body
    ensures o.header == NonEmpty(req.header)
  {
    var copied := AddAll(map[], req.header, headerOrder);
    AddAllCopies(map[], req.header, headerOrder);
    assert copied == NonEmpty(req.header) by {
      assert copied.Keys == NonEmpty(req.header).Keys;
    }
    Outbound(req.verb, redirectURL, copied, req.body)
  }

  /** Requests that differ only in path and query reach the origin identically. */
  lemma ForwardIgnoresPathAndQuery(r1: Request, r2: Request, url: string, o1: seq<string>, o2: seq<string>)
    requires IsIterationOrder(o1, r1.header) && IsIterationOrder(o2, r2.header)
    requires r1.verb == r2.verb && r1.header == r2.header && r1.body == r2.body
    ensures ForwardRequest(r1, url, o1) == ForwardRequest(r2, url, o2)
    ensures ForwardRequestAsWritten(r1, url) == ForwardRequestAsWritten(r2, url)
  {
  }

  /** What forwarding and reading the body did. */
  datatype Origin = Fetched(body: seq<byte>) | ForwardError | ReadError

  datatype Response = Body(bytes: seq<byte>) | InternalServerError

  /** An observable action of the handler. */
  datatype Effect =
    | CacheGet(key: string)
    | Forward(request: Outbound)
    | CacheSet(key: string, value: seq<byte>, expiration: int)

  datatype Handled = Handled(response: Response, cache: Option<Cache>, effects: seq<Effect>)

  /** A read that the handler serves from the cache: no error and at least one byte. */
  predicate IsHit(g: Result<seq<byte>, CacheError>) {
    g.Success? && |g.value| > 0
  }

  /**
   The handler. A missing cache or origin URL answers 500 and touches
   nothing; a hit answers the cached bytes; anything else (an absent key, an
   empty entry, or a failed read) is a miss: forward, read, cache with the
   default expiration whatever the write's outcome, and answer the body.
   */
  function RootHandler(cache: Option<Cache>, redirectURL: string, req: Request,
                       queryOrder: seq<string>, sha256: string -> Digest,
                       getFault: bool, origin: Origin, setFault: bool): (h: Handled)
    requires IsIterationOrder(queryOrder, req.query)
    ensures cache.None? || redirectURL == "" ==> h == Handled(InternalServerError, cache, [])
    ensures cache.Some? && redirectURL != "" ==>
      var key := GetHashKey(req, queryOrder, sha256);
      var g := GetCachedResponse(cache.value, key, getFault);
      && |h.effects| > 0 && h.effects[0] == CacheGet(key)
      && (IsHit(g) ==> h == Handled(Body(g.value), cache, [CacheGet(key)]))
      && (!IsHit(g) ==> |h.effects| > 1 && h.effects[1] == Forward(ForwardRequestAsWritten(req, redirectURL)))
      && (!IsHit(g) && !origin.Fetched? ==> h.response == InternalServerError && h.cache == cache && |h.effects| == 2)
      && (!IsHit(g) && origin.Fetched? ==>
            && h.response == Body(origin.body)
            && h.effects[2..] == [CacheSet(key, origin.body, DefaultExpiration)]
            && h.cache == Some(SetCachedResponse(cache.value, key, Some(origin.body), DefaultExpiration, setFault).cache))
  {
    if cache.None? || redirectURL == "" then Handled(InternalServerError, cache, [])
    else
      var key := GetHashKey(req, queryOrder, sha256);
      var g := GetCachedResponse(cache.value, key, getFault);
      if g.Success? && |g.value| > 0 then Handled(Body(g.value), cache, [CacheGet(key)])
      else
        var out := ForwardRequestAsWritten(req, redirectURL);
        match origin
        case ForwardError => Handled(InternalServerError, cache, [CacheGet(key), Forward(out)])
        case ReadError => Handled(InternalServerError, cache, [CacheGet(key), Forward(out)])
        case Fetched(body) =>
          var written := SetCachedResponse(cache.value, key, Some(body), DefaultExpiration, setFault);
          Handled(Body(body), Some(written.cache), [CacheGet(key), Forward(out), CacheSet(key, body, DefaultExpiration)])
  }

  /** A failed cache write never changes what the client receives. */
  lemma ResponseIgnoresWriteFailure(cache: Option<Cache>, url: string, req: Request, qo: seq<string>,
                                    sha256: string -> Digest, getFault: bool, origin: Origin)
    requires IsIterationOrder(qo, req.query)
    ensures RootHandler(cache, url, req, qo, sha256, getFault, origin, true).response
         == RootHandler(cache, url, req, qo, sha256, getFault, origin, false).response
  {
  }

  /** A store failure on the read is not reported: the request is forwarded as on a miss. */
  lemma StoreFailureForwards(c: Cache, url: string, req: Request, qo: seq<string>,
                             sha256: string -> Digest, origin: Origin, setFault: bool)
    requires IsIterationOrder(qo, req.query)
    requires url != ""
    ensures var h := RootHandler(Some(c), url, req, qo, sha256, true, origin, setFault);
      Forward(ForwardRequestAsWritten(req, url)) in h.effects
  {
  }

  /**
   Cache-aside round trip: a miss that fetches a non-empty body caches it,
   and a later request with the same method, path and parameters (in any
   order) is answered with that body without reaching the origin.
   */
  lemma SecondEquivalentRequestHits(c: Cache, url: string, r1: Request, r2: Request,
                                    q1: seq<string>, q2: seq<string>,
                                    sha256: string -> Digest, body: seq<byte>, origin2: Origin, setFault2: bool)
    requires IsIterationOrder(q1, r1.query) && IsIterationOrder(q2, r2.query)
    requires c.hasClient && url != "" && |body| > 0
    requires r1.verb == r2.verb && r1.path == r2.path && SameParameters(r1.query, r2.query)
    requires GetHashKey(r1, q1, sha256) !in c.store
    ensures var first := RootHandler(Some(c), url, r1, q1, sha256, false, Fetched(body), false);
      var second := RootHandler(first.cache, url, r2, q2, sha256, false, origin2, setFault2);
      && first.response == Body(body)
      && Forward(ForwardRequestAsWritten(r1, url)) in first.effects
      && second.response == Body(body)
      && second.effects == [CacheGet(GetHashKey(r2, q2, sha256))]
      && second.cache == first.cache
  {
    HashKeyOrderInsensitive(r1, r2, q1, q2, sha256);
    var key := GetHashKey(r1, q1, sha256);
    assert key != "";
    var first := RootHandler(Some(c), url, r1, q1, sha256, false, Fetched(body), false);
    assert first.cache.value.store[key].value == body;
  }

  lemma SwappedValuesSameParameters(q1: Values, q2: Values, name: string, v: string, w: string)
    requires q1 == map[name := [v, w]] && q2 == map[name := [w, v]]
    ensures SameParameters(q1, q2)
    ensures IsIterationOrder([name], q1) && IsIterationOrder([name], q2)
  {
    assert [v, w] == [v] + [w] && [w, v] == [w] + [v];
  }

  /**
   A parameter repeated with two values in one order (`/a?x=2&x=1`) caches a
   response that the same values in the other order (`/a?x=1&x=2`) are then
   served from, without reaching the origin.
   */
  lemma SwappedValuesHit(c: Cache, url: string, sha256: string -> Digest, body: seq<byte>, origin2: Origin,
                         verb: string, path: string, name: string, v: string, w: string)
    requires c.hasClient && url != "" && |body| > 0
    requires GetHashKey(Request(verb, path, map[name := [v, w]], map[], []), [name], sha256) !in c.store
    ensures var first := RootHandler(Some(c), url, Request(verb, path, map[name := [v, w]], map[], []),
                                     [name], sha256, false, Fetched(body), false);
      var second := RootHandler(first.cache, url, Request(verb, path, map[name := [w, v]], map[], []),
                                [name], sha256, false, origin2, false);
      && second.response == Body(body)
      && second.effects == [CacheGet(GetHashKey(Request(verb, path, map[name := [v, w]], map[], []), [name], sha256))]
  {
    var r1 := Request(verb, path, map[name := [v, w]], map[], []);
    var r2 := Request(verb, path, map[name := [w, v]], map[], []);
    SwappedValuesSameParameters(r1.query, r2.query, name, v, w);
    SecondEquivalentRequestHits(c, url, r1, r2, [name], [name], sha256, body, origin2, false);
    HashKeyOrderInsensitive(r1, r2, [name], [name], sha256);
  }

  /**
   An empty body is written to the store but never served from it: the same
   request afterwards is forwarded again.
   */
  lemma EmptyBodyIsNeverAHit(c: Cache, url: string, req: Request, qo: seq<string>,
                             sha256: string -> Digest, origin2: Origin)
    requires IsIterationOrder(qo, req.query)
    requires c.hasClient && url != ""
    requires GetHashKey(req, qo, sha256) !in c.store
    ensures var first := RootHandler(Some(c), url, req, qo, sha256, false, Fetched([]), false);
      var second := RootHandler(first.cache, url, req, qo, sha256, false, origin2, false);
      && GetHashKey(req, qo, sha256) in first.cache.value.store
      && Forward(ForwardRequestAsWritten(req, url)) in second.effects
  {
    var key := GetHashKey(req, qo, sha256);
    assert key != "";
    var first := RootHandler(Some(c), url, req, qo, sha256, false, Fetched([]), false);
    assert first.cache.value.store[key].value == [];
  }
}
