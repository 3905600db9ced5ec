// The offline layer of static/sw.js: how a fetch is routed (passed
// through, network only, or cache first), what the cache keeps, and the
// eviction of old caches on activation. The network is a parameter: the
// response it gives, or None when the fetch fails.

module ServiceWorker {
  import opened Common

  const CacheName: string := "todo-app-v1"

  /** The request fields the worker reads; `url` is absolute. */
  datatype SwRequest = SwRequest(httpMethod: string, url: string, destination: string)

  /** A response: status, `type` ('basic', 'cors', 'opaque', ...), body. */
  datatype SwResponse = SwResponse(status: int, responseType: string, contentType: Option<string>, body: string)

  /** The reply an API request gets when the network is unreachable. */
  const OfflineApiResponse: SwResponse :=
    SwResponse(503, "default", Some("application/json"), "{\"error\":\"Offline - Please check your connection\"}")

  // ---------------------------------------------------------------------
  // Routing

  datatype Route = PassThrough | NetworkOnly | CacheFirst

  /** Non-GET requests are left to the browser, API calls always go to the
      network, everything else is looked up in the cache first. */
  function RouteOf(req: SwRequest): (r: Route)
    ensures r == PassThrough <==> req.httpMethod != "GET"
    ensures r == NetworkOnly <==> req.httpMethod == "GET" && Contains(req.url, "/api/")
    ensures r == CacheFirst <==> req.httpMethod == "GET" && !Contains(req.url, "/api/")
  {
    if req.httpMethod != "GET" then PassThrough
    else if Contains(req.url, "/api/") then NetworkOnly
    else CacheFirst
  }

  /** Whether a fetched response is stored: status 200 from the same origin. */
  predicate Cacheable(resp: SwResponse) {
    resp.status == 200 && resp.responseType == "basic"
  }

  /** `caches.match`: the entry for `key` in the first cache, in creation
      order, that holds one. */
  function MatchIn(names: seq<string>, stores: map<string, map<string, SwResponse>>, key: string): (r: Option<SwResponse>)
    requires forall n :: n in names ==> n in stores
    ensures r.Some? <==> exists k :: 0 <= k < |names| && key in stores[names[k]]
    ensures r.Some? ==> exists k :: 0 <= k < |names| && key in stores[names[k]] && stores[names[k]][key] == r.value
                                    && forall j :: 0 <= j < k ==> key !in stores[names[j]]
    decreases |names|
  {
    if |names| == 0 then None
    else if key in stores[names[0]] then Some(stores[names[0]][key])
    else
      var r := MatchIn(names[1..], stores, key);
      assert forall k :: 1 <= k < |names| ==> names[1..][k - 1] == names[k];
      if r.Some? then
        var k :| 0 <= k < |names| - 1 && key in stores[names[1..][k]] && stores[names[1..][k]][key] == r.value
                 && forall j :: 0 <= j < k ==> key !in stores[names[1..][j]];
        assert forall j :: 0 <= j < k + 1 ==> key !in stores[names[j]];
        r
      else r
  }

  /** What `respondWith` is given: None when the handler returns nothing
      (the browser then reports a network error). */
  datatype FetchResult = NotHandled | Respond(response: Option<SwResponse>)

  predicate IsCurrent(name: string) { name == CacheName }

  /** The worker's caches: names in creation order and their entries, keyed
      by request URL. */
  class CacheStore {
    var names: seq<string>
    var stores: map<string, map<string, SwResponse>>

    predicate Valid()
      reads this
    {
      NoDuplicates(names) && (forall n :: n in stores ==> n in names) && (forall n :: n in names ==> n in stores)
    }

    constructor (names0: seq<string>, stores0: map<string, map<string, SwResponse>>)
      requires NoDuplicates(names0) && forall n :: n in stores0 <==> n in names0
      ensures names == names0 && stores == stores0 && Valid()
    {
      names := names0;
      stores := stores0;
    }

    function Match(key: string): (r: Option<SwResponse>)
      requires Valid()
      reads this
      ensures r.Some? <==> exists n :: n in names && key in stores[n]
    {
      var r := MatchIn(names, stores, key);
      assert r.Some? ==> exists n :: n in names && key in stores[n];
      assert (exists n :: n in names && key in stores[n]) ==> r.Some? by {
        if exists n :: n in names && key in stores[n] {
          var n :| n in names && key in stores[n];
          var k :| 0 <= k < |names| && names[k] == n;
        }
      }
      r
    }

    /** `caches.open(CACHE_NAME)` then `cache.put(key, resp)`. */
    method Put(key: string, resp: SwResponse)
      requires Valid()
      modifies this
      ensures Valid()
      ensures names == if CacheName in old(names) then old(names) else old(names) + [CacheName]
      ensures stores == old(stores)[CacheName := (if CacheName in old(stores) then old(stores)[CacheName] else map[])[key := resp]]
    {
      var current := if CacheName in stores then stores[CacheName] else map[];
      if CacheName !in names {
        names := names + [CacheName];
      }
      stores := stores[CacheName := current[key := resp]];
    }

    /** The `fetch` handler given what the network answers. */
    method HandleFetch(req: SwRequest, network: Option<SwResponse>, origin: string) returns (r: FetchResult)
      requires Valid()
      modifies this
      ensures Valid()
      ensures RouteOf(req) == PassThrough ==> r == NotHandled
      ensures RouteOf(req) == NetworkOnly ==>
                r == Respond(Some(if network.Some? then network.value else OfflineApiResponse))
      ensures RouteOf(req) == CacheFirst && old(Match(req.url)).Some? ==> r == Respond(old(Match(req.url)))
      ensures RouteOf(req) == CacheFirst && old(Match(req.url)).None? && network.Some? ==>
                r == Respond(network)
      ensures RouteOf(req) == CacheFirst && old(Match(req.url)).None? && network.None? ==>
                r == Respond(if req.destination == "document" then old(Match(origin + "/")) else None)
      ensures (RouteOf(req) == CacheFirst && old(Match(req.url)).None? && network.Some? && Cacheable(network.value))
              ==> Match(req.url) == network && old(stores)[CacheName := (if CacheName in old(stores) then old(stores)[CacheName] else map[])[req.url := network.value]] == stores
      ensures !(RouteOf(req) == CacheFirst && old(Match(req.url)).None? && network.Some? && Cacheable(network.value))
              ==> names == old(names) && stores == old(stores)
    {
      var route := RouteOf(req);
      if route == PassThrough {
        return NotHandled;
      }
      if route == NetworkOnly {
        if network.Some? {
          return Respond(network);
        }
        return Respond(Some(OfflineApiResponse));
      }
      var hit := Match(req.url);
      if hit.Some? {
        return Respond(hit);
      }
      if network.None? {
        if req.destination == "document" {
          return Respond(Match(origin + "/"));
        }
        return Respond(None);
      }
      if Cacheable(network.value) {
        ghost var before := stores;
        Put(req.url, network.value);
        StoredEntryIsFound(names, stores, before, req.url, network.value);
      }
      r := Respond(network);
    }

    /** `activate`: delete every cache but the current one. */
    method Activate()
      requires Valid()
      modifies this
      ensures Valid()
      ensures names == Filter(old(names), IsCurrent)
      ensures forall n :: n in stores <==> n in old(stores) && n == CacheName
      ensures CacheName in stores ==> stores[CacheName] == old(stores)[CacheName]
    {
      var kept: seq<string> := [];
      var i := 0;
      while i < |names|
        invariant 0 <= i <= |names|
        invariant names == old(names)
        invariant kept == Filter(names[..i], IsCurrent)
        invariant forall n :: n in stores <==> n in old(stores) && (n in names[..i] ==> n == CacheName)
        invariant forall n :: n in stores ==> stores[n] == old(stores)[n]
      {
        assert names[..i + 1] == names[..i] + [names[i]];
        FilterAppend(names[..i], [names[i]], IsCurrent);
        if names[i] != CacheName {
          stores := stores - {names[i]};
        } else {
          kept := kept + [names[i]];
        }
        i := i + 1;
      }
      assert names[..i] == names;
      FilterKeepsNoDuplicates(names, IsCurrent);
      names := kept;
    }
  }

  /** After a miss stores a response, the stored entry is what the next
      lookup of that URL finds: no older cache held the URL. */
  lemma StoredEntryIsFound(names: seq<string>, stores: map<string, map<string, SwResponse>>,
                           before: map<string, map<string, SwResponse>>, key: string, resp: SwResponse)
    requires forall n :: n in names ==> n in stores
    requires CacheName in names
    requires stores == before[CacheName := (if CacheName in before then before[CacheName] else map[])[key := resp]]
    requires forall n :: n in before && n != CacheName ==> key !in before[n]
    ensures MatchIn(names, stores, key) == Some(resp)
  {
    var r := MatchIn(names, stores, key);
    var k :| 0 <= k < |names| && names[k] == CacheName;
    assert key in stores[names[k]];
  }
}
