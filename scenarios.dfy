/** Clients of the worker that use nothing but the contracts of class Worker:
    each shows an end-to-end behaviour of public/sw.js. */
module Scenarios {
  import opened Common
  import opened Fetch
  import opened Caches
  import opened ServiceWorker

  /** A network on which every manifest entry loads with status 200. */
  function Online(k: Key): FetchOutcome
  {
    Received(Response(200, [], k))
  }

  /** On that network `addAll` accepts the whole manifest. */
  lemma OnlineManifestAccepted()
    ensures AddAllBatch(StaticAssets, Online).Some?
  {
  }

  /** A worker freshly installed on that network, on an origin with no caches. */
  method InstalledOnline() returns (w: Worker)
    ensures fresh(w) && w.Valid()
    ensures w.Match("/icons/icon-192.png") == Some(Response(200, [], "/icons/icon-192.png"))
    ensures w.Match(RootKey) == Some(Response(200, [], "/"))
    ensures w.Match("/about") == None
  {
    w := new Worker([], map[]);
    OnlineManifestAccepted();
    ghost var batch := AddAllBatch(StaticAssets, Online).value;
    var ok := w.Install(Online);
    assert w.names == [StaticCacheName];
    assert w.caches[StaticCacheName] == map[] + batch;
    assert StaticAssets[2] == "/icons/icon-192.png" && StaticAssets[0] == RootKey;
    assert StaticAssets[2] in batch && StaticAssets[0] in batch;
    assert batch[StaticAssets[2]] == Online(StaticAssets[2]).response;
    assert batch[StaticAssets[0]] == Online(StaticAssets[0]).response;
    assert "/about" !in StaticAssets;
    MatchIsFirstHit(w.names, w.caches, "/icons/icon-192.png", 0);
    MatchIsFirstHit(w.names, w.caches, RootKey, 0);
  }

  /** After install, offline: an icon request is answered from the static
      cache without touching the network. */
  method OfflineIcon() returns (icon: Response, fetched: bool)
    ensures !fetched && icon == Response(200, [], "/icons/icon-192.png")
  {
    var w := InstalledOnline();
    var req := Request("GET", "/icons/icon-192.png", "/icons/icon-192.png", Image, NoCors);
    icon, fetched := w.CacheFirst(req, NetworkError);
  }

  /** After install, offline: a navigation to a page never cached gets the
      precached "/", while a non-navigation request for it gets the 503. */
  method OfflineNavigation() returns (page: Response, plain: Response)
    ensures page == Response(200, [], "/")
    ensures plain == NetworkFirstOffline
  {
    var w := InstalledOnline();
    page := w.NetworkFirst(Request("GET", "/about", "/about", Document, Navigate), NetworkError);
    plain := w.NetworkFirst(Request("GET", "/about", "/about", Empty, Cors), NetworkError);
  }

  /** An API request answered 200 online is stored in the dynamic cache and
      served from there when the network later fails; a 500 answer is passed
      through and not stored. */
  method ApiOnlineThenOffline() returns (first: Response, second: Response, failed: Response)
    ensures first == Response(200, [], "[]") && second == first
    ensures failed == Response(500, [], "error")
  {
    var w := new Worker([], map[]);
    var req := Request("GET", "/api/materials", "/api/materials", Empty, Cors);
    assert RouteOf(req) == NetworkFirstRoute;
    first := w.NetworkFirst(req, Received(Response(200, [], "[]")));
    MatchAfterPut([], map[], DynamicCacheName, req.url, first);
    second := w.NetworkFirst(req, NetworkError);
    var other := Request("GET", "/api/tags", "/api/tags", Empty, Cors);
    var before := w.Match(other.url);
    failed := w.NetworkFirst(other, Received(Response(500, [], "error")));
    assert w.Match(other.url) == before;
  }

  /** Activate after an upgrade: the old version's cache goes, the current
      caches stay with their contents. */
  method UpgradeCleanup() returns (deleted: seq<string>, remaining: seq<string>)
    ensures deleted == ["material-collector-static-v0"]
    ensures remaining == [StaticCacheName, DynamicCacheName]
  {
    var old0 := "material-collector-static-v0";
    var w := new Worker([old0, StaticCacheName, DynamicCacheName],
                        map[old0 := map[], StaticCacheName := map[], DynamicCacheName := map[]]);
    ghost var s := [old0, StaticCacheName, DynamicCacheName];
    assert s[1..] == [StaticCacheName, DynamicCacheName] && s[1..][1..] == [DynamicCacheName];
    assert old0[27] != StaticCacheName[27];
    assert !IsCurrentName(old0);
    assert Filter(s[1..][1..], IsCurrentName) == [DynamicCacheName];
    assert Filter(s[1..], IsCurrentName) == [StaticCacheName, DynamicCacheName];
    assert Filter(s[1..][1..], IsStaleName) == [];
    assert Filter(s[1..], IsStaleName) == [];
    deleted := w.Activate();
    remaining := w.names;
  }
}
