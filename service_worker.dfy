/** The request-interception cache of public/sw.js: routing of fetch events,
    the cache-first and network-first strategies, the install precache and the
    activate cleanup. The worker's cache storage is the state of class Worker;
    every network fetch is an input (`FetchOutcome`) instead of a call. */
module ServiceWorker {
  import opened Common
  import opened Fetch
  import opened Caches

  const CacheName := "material-collector-v1"
  const StaticCacheName := "material-collector-static-v1"
  const DynamicCacheName := "material-collector-dynamic-v1"

  /** The install-time manifest, in order. */
  const StaticAssets: seq<Key> := ["/", "/manifest.json", "/icons/icon-192.png", "/icons/icon-512.png"]

  /** The key of the application shell used as the navigation fallback. */
  const RootKey: Key := "/"

  /** Response('离线状态', {status: 503}). A string body gets the content type
      "text/plain;charset=UTF-8" when the Fetch Standard extracts it. */
  const CacheFirstOffline := Response(503, [("Content-Type", "text/plain;charset=UTF-8")], "离线状态")

  /** The network-first fallback, with its explicit content type. */
  const NetworkFirstOffline := Response(503, [("Content-Type", "text/plain; charset=utf-8")], "离线状态 - 请检查网络连接")

  // ---------------------------------------------------------------------------
  // Routing of the fetch event

  /** What the fetch handler does with a request: nothing (the browser fetches
      it itself), or `respondWith` one of the two strategies. */
  datatype Route = PassThrough | CacheFirstRoute | NetworkFirstRoute

  predicate IsApiPath(path: string)
  {
    "/api/" <= path
  }

  predicate IsStaticDestination(d: Destination)
  {
    d == Style || d == Script || d == Image || d == Font
  }

  /** The fetch handler's decision. Only GET requests are answered; an /api/
      path wins over the destination; style, script, image and font go cache
      first; navigations and everything else go network first. */
  function RouteOf(req: Request): (r: Route)
    ensures r == PassThrough <==> req.httpMethod != "GET"
    ensures r == CacheFirstRoute <==>
              req.httpMethod == "GET" && !IsApiPath(req.path) && IsStaticDestination(req.destination)
    ensures r == NetworkFirstRoute <==>
              req.httpMethod == "GET" && (IsApiPath(req.path) || !IsStaticDestination(req.destination))
  {
    if req.httpMethod != "GET" then PassThrough
    else if IsApiPath(req.path) then NetworkFirstRoute
    else if IsStaticDestination(req.destination) then CacheFirstRoute
    else if req.mode == Navigate then NetworkFirstRoute
    else NetworkFirstRoute
  }

  /** The navigation branch and the final branch of the handler pick the same
      strategy, so a request's mode never changes its route. */
  lemma RouteIgnoresMode(req: Request, m: Mode)
    ensures RouteOf(req.(mode := m)) == RouteOf(req)
  {
  }

  // ---------------------------------------------------------------------------
  // Activate: which caches survive

  /** A name the current version owns; these are never deleted. */
  predicate IsCurrentName(name: string)
  {
    name == StaticCacheName || name == DynamicCacheName || name == CacheName
  }

  predicate IsStaleName(name: string)
  {
    !IsCurrentName(name)
  }

  /** The names activate deletes, in `caches.keys()` order. */
  function StaleNames(names: seq<string>): (r: seq<string>)
    ensures forall n :: n in r <==> n in names && !IsCurrentName(n)
  {
    var r := Filter(names, IsStaleName);
    forall n ensures n in r <==> n in names && !IsCurrentName(n) {
      FilterMembership(names, IsStaleName, n);
    }
    r
  }

  // ---------------------------------------------------------------------------
  // Install: Cache.addAll

  /** A fetched manifest entry that `addAll` accepts: a response (not a
      transport failure) with an ok status that `put` would store, so neither
      206 nor varying on `*` (section 5.4.4 of the W3C Service Workers
      specification). */
  predicate AddAllAccepts(o: FetchOutcome)
  {
    o.Received? && IsOk(o.response) && PutAccepts(o.response)
  }

  /** The entries fetched for `keys`, or None when some fetch is not accepted. */
  function FetchedBatch(keys: seq<Key>, fetch: Key -> FetchOutcome): (r: Option<map<Key, Response>>)
    ensures r.Some? <==> forall i :: 0 <= i < |keys| ==> AddAllAccepts(fetch(keys[i]))
    ensures r.Some? ==> forall k :: k in r.value <==> k in keys
    ensures r.Some? ==> forall k :: k in r.value ==> r.value[k] == fetch(k).response
  {
    if keys == [] then Some(map[])
    else
      var rest := FetchedBatch(keys[1..], fetch);
      assert forall k :: k in keys <==> k == keys[0] || k in keys[1..] by {
        assert keys == [keys[0]] + keys[1..];
      }
      if !AddAllAccepts(fetch(keys[0])) then None
      else if rest.None? then
        assert exists i :: 0 <= i < |keys[1..]| && !AddAllAccepts(fetch(keys[1..][i]));
        None
      else
        assert forall i :: 1 <= i < |keys| ==> keys[i] == keys[1..][i - 1];
        Some(rest.value[keys[0] := fetch(keys[0]).response])
  }

  /** The batch that `addAll(keys)` would store, or None when it rejects: a
      request listed twice makes the batch of puts fail with an
      InvalidStateError (section 5.4.4 of the W3C Service Workers
      specification), and so does any entry that is not accepted. */
  function AddAllBatch(keys: seq<Key>, fetch: Key -> FetchOutcome): (r: Option<map<Key, Response>>)
    ensures r.Some? <==> Distinct(keys) && forall i :: 0 <= i < |keys| ==> AddAllAccepts(fetch(keys[i]))
    ensures r.Some? ==> forall k :: k in r.value <==> k in keys
    ensures r.Some? ==> forall k :: k in r.value ==> r.value[k] == fetch(k).response
  {
    if Distinct(keys) then FetchedBatch(keys, fetch) else None
  }

  /** The install manifest lists no request twice. */
  lemma ManifestDistinct()
    ensures Distinct(StaticAssets)
  {
    assert StaticAssets[2][12] != StaticAssets[3][12];
  }

  // ---------------------------------------------------------------------------
  // The worker and its cache storage

  class Worker {
    /** Cache names in creation order (what `caches.keys()` lists). */
    var names: seq<string>
    /** The contents of each cache. */
    var caches: Store

    ghost predicate Valid()
      reads this
    {
      Coherent(names, caches)
    }

    /** `caches.match(key)` on the current storage. */
    function Match(key: Key): Option<Response>
      reads this
    {
      MatchAll(names, caches, key)
    }

    /** A worker starting over whatever caches earlier versions left behind. */
    constructor (initialNames: seq<string>, initialCaches: Store)
      requires Coherent(initialNames, initialCaches)
      ensures Valid() && names == initialNames && caches == initialCaches
    {
      names, caches := initialNames, initialCaches;
    }

    /** `caches.open(name)`: create the cache if it does not exist. */
    method Open(name: string)
      requires Valid()
      modifies this
      ensures Valid()
      ensures names == Opened(old(names), name)
      ensures caches == old(caches)[name := CacheOf(old(caches), name)]
    {
      if name !in names {
        names := names + [name];
        caches := caches[name := map[]];
      }
    }

    /** `(await caches.open(name)).put(key, resp)`: the cache is opened, and
        `put` either stores the entry or rejects the response (`stored`). */
    method Put(name: string, key: Key, resp: Response) returns (stored: bool)
      requires Valid()
      modifies this
      ensures Valid()
      ensures stored <==> PutAccepts(resp)
      ensures names == Opened(old(names), name)
      ensures caches == Stored(old(caches), name, key, resp)
    {
      Open(name);
      stored := PutAccepts(resp);
      if stored {
        caches := caches[name := caches[name][key := resp]];
      }
    }

    /** `caches.delete(name)`: true when there was such a cache. */
    method Delete(name: string) returns (deleted: bool)
      requires Valid()
      modifies this
      ensures Valid()
      ensures deleted == (name in old(caches))
      ensures names == Filter(old(names), Outside([name]))
      ensures caches == old(caches) - {name}
    {
      deleted := name in caches;
      FilterDistinct(names, Outside([name]));
      forall n ensures n in Filter(names, Outside([name])) <==> n in names && n != name {
        FilterMembership(names, Outside([name]), n);
      }
      names := Filter(names, Outside([name]));
      caches := caches - {name};
    }

    /** cacheFirst: answer from any cache; on a miss consult the network, put
        an ok response into the static cache (where `put` may reject it), and
        fall back to a synthetic 503 when the network fails. `fetched` says
        whether the network was used. The response is returned whether or not
        the un-awaited `put` stores it. */
    method CacheFirst(req: Request, net: FetchOutcome) returns (resp: Response, fetched: bool)
      requires Valid()
      modifies this
      ensures Valid()
      ensures fetched <==> old(Match(req.url)).None?
      ensures old(Match(req.url)).Some? ==> resp == old(Match(req.url)).value && unchanged(this)
      ensures fetched && net.NetworkError? ==> resp == CacheFirstOffline && unchanged(this)
      ensures fetched && net.Received? ==> resp == net.response
      ensures fetched && net.Received? && IsOk(net.response) ==>
                names == Opened(old(names), StaticCacheName)
                && caches == Stored(old(caches), StaticCacheName, req.url, net.response)
      ensures fetched && net.Received? && !IsOk(net.response) ==> unchanged(this)
    {
      var cached := Match(req.url);
      if cached.Some? {
        return cached.value, false;
      }
      fetched := true;
      match net
      case NetworkError =>
        resp := CacheFirstOffline;
      case Received(r) =>
        if IsOk(r) {
          var _ := Put(StaticCacheName, req.url, r);
        }
        resp := r;
    }

    /** networkFirst: answer from the network (putting an ok response into the
        dynamic cache, where `put` may reject it); only when the network fails, fall back to any cached
        entry for the request, then (navigations only) the cached "/", then a
        synthetic 503. */
    method NetworkFirst(req: Request, net: FetchOutcome) returns (resp: Response)
      requires Valid()
      modifies this
      ensures Valid()
      ensures net.Received? ==> resp == net.response
      ensures net.Received? && IsOk(net.response) ==>
                names == Opened(old(names), DynamicCacheName)
                && caches == Stored(old(caches), DynamicCacheName, req.url, net.response)
      ensures net.Received? && !IsOk(net.response) ==> unchanged(this)
      ensures net.NetworkError? ==> unchanged(this)
      ensures net.NetworkError? && Match(req.url).Some? ==> resp == Match(req.url).value
      ensures net.NetworkError? && Match(req.url).None? && req.mode == Navigate && Match(RootKey).Some? ==>
                resp == Match(RootKey).value
      ensures net.NetworkError? && Match(req.url).None? && (req.mode != Navigate || Match(RootKey).None?) ==>
                resp == NetworkFirstOffline
    {
      match net
      case Received(r) =>
        if IsOk(r) {
          var _ := Put(DynamicCacheName, req.url, r);
        }
        resp := r;
      case NetworkError =>
        var cached := Match(req.url);
        if cached.Some? {
          return cached.value;
        }
        if req.mode == Navigate {
          var cachedIndex := Match(RootKey);
          if cachedIndex.Some? {
            return cachedIndex.value;
          }
        }
        resp := NetworkFirstOffline;
    }

    /** The fetch handler: no response for a request it passes through,
        otherwise the response of the strategy its route selects. */
    method HandleFetch(req: Request, net: FetchOutcome) returns (resp: Option<Response>, fetched: bool)
      requires Valid()
      modifies this
      ensures Valid()
      ensures resp.None? <==> RouteOf(req) == PassThrough
      ensures RouteOf(req) == PassThrough ==> !fetched && unchanged(this)
      ensures RouteOf(req) == NetworkFirstRoute ==> fetched
      ensures RouteOf(req) == CacheFirstRoute ==> (fetched <==> old(Match(req.url)).None?)
      ensures RouteOf(req) == CacheFirstRoute && !fetched ==> resp == old(Match(req.url)) && unchanged(this)
      ensures RouteOf(req) == CacheFirstRoute && fetched && net.NetworkError? ==>
                resp == Some(CacheFirstOffline) && unchanged(this)
      ensures fetched && net.Received? ==> resp == Some(net.response)
      ensures fetched && net.Received? && !IsOk(net.response) ==> unchanged(this)
      ensures RouteOf(req) == CacheFirstRoute && fetched && net.Received? && IsOk(net.response) ==>
                names == Opened(old(names), StaticCacheName)
                && caches == Stored(old(caches), StaticCacheName, req.url, net.response)
      ensures RouteOf(req) == NetworkFirstRoute && net.Received? && IsOk(net.response) ==>
                names == Opened(old(names), DynamicCacheName)
                && caches == Stored(old(caches), DynamicCacheName, req.url, net.response)
      ensures RouteOf(req) == NetworkFirstRoute && net.NetworkError? ==> unchanged(this)
      ensures RouteOf(req) == NetworkFirstRoute && net.NetworkError? && Match(req.url).Some? ==>
                resp == Match(req.url)
      ensures RouteOf(req) == NetworkFirstRoute && net.NetworkError? && Match(req.url).None?
                && req.mode == Navigate && Match(RootKey).Some? ==>
                resp == Match(RootKey)
      ensures RouteOf(req) == NetworkFirstRoute && net.NetworkError? && Match(req.url).None?
                && (req.mode != Navigate || Match(RootKey).None?) ==>
                resp == Some(NetworkFirstOffline)
    {
      match RouteOf(req)
      case PassThrough =>
        resp, fetched := None, false;
      case CacheFirstRoute =>
        var r;
        r, fetched := CacheFirst(req, net);
        resp := Some(r);
      case NetworkFirstRoute =>
        var r := NetworkFirst(req, net);
        resp, fetched := Some(r), true;
    }

    /** The install handler: open the static cache, then `addAll` the
        manifest, which stores every entry or none of them. */
    method Install(fetch: Key -> FetchOutcome) returns (ok: bool)
      requires Valid()
      modifies this
      ensures Valid()
      ensures ok <==> forall i :: 0 <= i < |StaticAssets| ==> AddAllAccepts(fetch(StaticAssets[i]))
      ensures names == Opened(old(names), StaticCacheName)
      ensures ok ==> caches == old(caches)[StaticCacheName :=
                       CacheOf(old(caches), StaticCacheName) + AddAllBatch(StaticAssets, fetch).value]
      ensures !ok ==> caches == old(caches)[StaticCacheName := CacheOf(old(caches), StaticCacheName)]
    {
      Open(StaticCacheName);
      ManifestDistinct();
      ok := AddAll(StaticCacheName, StaticAssets, fetch);
    }

    /** `cache.addAll(keys)` on an open cache: every entry is stored, or, when
        one fetch is not accepted, none is. */
    method AddAll(name: string, keys: seq<Key>, fetch: Key -> FetchOutcome) returns (ok: bool)
      requires Valid() && name in caches
      modifies this
      ensures Valid() && names == old(names)
      ensures ok <==> Distinct(keys) && forall i :: 0 <= i < |keys| ==> AddAllAccepts(fetch(keys[i]))
      ensures ok ==> caches == old(caches)[name := old(caches)[name] + AddAllBatch(keys, fetch).value]
      ensures !ok ==> caches == old(caches)
    {
      var batch := AddAllBatch(keys, fetch);
      ok := batch.Some?;
      if ok {
        caches := caches[name := caches[name] + batch.value];
      }
    }

    /** The activate handler: delete every cache whose name the current
        version does not own, one `caches.delete` per stale name. */
    method Activate() returns (deleted: seq<string>)
      requires Valid()
      modifies this
      ensures Valid()
      ensures deleted == StaleNames(old(names))
      ensures names == Filter(old(names), IsCurrentName)
      ensures forall n :: n in caches <==> n in old(caches) && IsCurrentName(n)
      ensures forall n :: n in caches ==> caches[n] == old(caches)[n]
    {
      deleted := StaleNames(names);
      ghost var names0 := names;
      FilterAllPass(names, Outside(deleted[..0]));
      var i := 0;
      while i < |deleted|
        invariant Valid()
        invariant 0 <= i <= |deleted|
        invariant names == Filter(names0, Outside(deleted[..i]))
        invariant forall n :: n in caches ==> n in old(caches) && caches[n] == old(caches)[n]
      {
        var _ := Delete(deleted[i]);
        OutsideExtend(deleted, i);
        FilterTwice(names0, Outside(deleted[..i]), Outside([deleted[i]]), Outside(deleted[..i + 1]));
        i := i + 1;
      }
      assert deleted[..i] == deleted;
      assert forall j :: 0 <= j < |names0| ==> Outside(deleted)(names0[j]) == IsCurrentName(names0[j]);
      FilterCongruent(names0, Outside(deleted), IsCurrentName);
      forall n ensures n in caches <==> n in old(caches) && IsCurrentName(n) {
        FilterMembership(names0, IsCurrentName, n);
      }
    }
  }

  // ---------------------------------------------------------------------------
  // Properties across operations

  /** After a successful install every manifest entry, "/" included, is found
      by `caches.match`, so the navigation fallback of network-first has a
      shell to serve. */
  lemma InstalledAssetsMatch(names: seq<string>, caches: Store, batch: map<Key, Response>, k: Key)
    requires Coherent(names, caches)
    requires k in batch
    ensures MatchAll(Opened(names, StaticCacheName),
                     caches[StaticCacheName := CacheOf(caches, StaticCacheName) + batch], k).Some?
  {
  }

  /** Because `match` searches caches in creation order, once the static cache
      (created at install, before the dynamic one) holds "/", a fresher "/"
      that network-first stores in the dynamic cache is not what the offline
      navigation fallback returns: the install-time shell is. */
  lemma StaticShadowsDynamic(names: seq<string>, caches: Store, s: nat, newer: Response)
    requires Coherent(names, caches)
    requires s < |names| && names[s] == StaticCacheName && Holds(caches, StaticCacheName, RootKey)
    requires forall j :: 0 <= j < s ==> names[j] != DynamicCacheName && !Holds(caches, names[j], RootKey)
    ensures MatchAll(Opened(names, DynamicCacheName), PutEntry(caches, DynamicCacheName, RootKey, newer), RootKey)
            == Some(caches[StaticCacheName][RootKey])
  {
    var names' := Opened(names, DynamicCacheName);
    var caches' := PutEntry(caches, DynamicCacheName, RootKey, newer);
    forall m | 0 <= m < s ensures !Holds(caches', names'[m], RootKey) {
      assert names'[m] == names[m];
    }
    MatchIsFirstHit(names', caches', RootKey, s);
  }
}
