/** CacheStorage as the service worker sees it: an ordered collection of named
    caches (creation order, as in the "name to cache map" of the W3C Service
    Workers specification, section 5.5), each a map from request key to
    response. These are the value-level operations; the worker class in
    module ServiceWorker holds the state and updates it in place. */
module Caches {
  import opened Common
  import opened Fetch

  /** Contents of every cache, by cache name. */
  type Store = map<string, map<Key, Response>>

  /** The order of names and the domain of the store describe the same caches. */
  ghost predicate Coherent(names: seq<string>, caches: Store)
  {
    Distinct(names) && forall n :: n in names <==> n in caches
  }

  /** The cache a name denotes; one that does not exist yet is empty. */
  function CacheOf(caches: Store, name: string): (c: map<Key, Response>)
    ensures name !in caches ==> c == map[]
  {
    if name in caches then caches[name] else map[]
  }

  /** The name order after `caches.open(name)`: a new cache is appended last. */
  function Opened(names: seq<string>, name: string): (r: seq<string>)
    ensures name in r && names <= r
    ensures forall n :: n in r ==> n in names || n == name
    ensures Distinct(names) ==> Distinct(r)
  {
    if name in names then names else names + [name]
  }

  /** The store after `cache.put(key, resp)` on the cache opened as `name`. */
  function PutEntry(caches: Store, name: string, key: Key, resp: Response): (r: Store)
    ensures r.Keys == caches.Keys + {name}
    ensures key in r[name] && r[name][key] == resp
    ensures forall k :: k in r[name] && k != key ==> k in CacheOf(caches, name) && r[name][k] == CacheOf(caches, name)[k]
    ensures forall k :: k in CacheOf(caches, name) ==> k in r[name]
    ensures forall n :: n in caches && n != name ==> r[n] == caches[n]
  {
    caches[name := CacheOf(caches, name)[key := resp]]
  }

  /** The store after `(await caches.open(name)).put(key, resp)`: the cache is
      created if missing, and the entry is written only when `put` does not
      reject the response. */
  function Stored(caches: Store, name: string, key: Key, resp: Response): (r: Store)
    ensures PutAccepts(resp) ==> r == PutEntry(caches, name, key, resp)
    ensures !PutAccepts(resp) ==> r.Keys == caches.Keys + {name} && r[name] == CacheOf(caches, name)
                                  && forall n :: n in caches ==> r[n] == caches[n]
  {
    if PutAccepts(resp) then PutEntry(caches, name, key, resp) else caches[name := CacheOf(caches, name)]
  }

  predicate Holds(caches: Store, name: string, key: Key)
  {
    name in caches && key in caches[name]
  }

  /** `caches.match(key)`: the entry of the first cache, in name order, that
      holds the key (section 5.5.1 of the W3C Service Workers specification).
      It is found exactly when some cache holds the key. */
  function MatchAll(names: seq<string>, caches: Store, key: Key): (r: Option<Response>)
    ensures r.Some? <==> exists i :: 0 <= i < |names| && Holds(caches, names[i], key)
  {
    if names == [] then None
    else if Holds(caches, names[0], key) then Some(caches[names[0]][key])
    else
      var r := MatchAll(names[1..], caches, key);
      assert r.Some? ==> exists i :: 0 <= i < |names| && Holds(caches, names[i], key) by {
        if r.Some? {
          var i :| 0 <= i < |names[1..]| && Holds(caches, names[1..][i], key);
          assert names[1..][i] == names[i + 1];
        }
      }
      assert (exists i :: 0 <= i < |names| && Holds(caches, names[i], key)) ==> r.Some? by {
        if exists i :: 0 <= i < |names| && Holds(caches, names[i], key) {
          var i :| 0 <= i < |names| && Holds(caches, names[i], key);
          assert i != 0 && names[1..][i - 1] == names[i];
        }
      }
      r
  }

  /** What `match` returns is what some cache stores under the key. */
  lemma {:induction false} MatchSound(names: seq<string>, caches: Store, key: Key)
    requires MatchAll(names, caches, key).Some?
    ensures exists i :: 0 <= i < |names| && Holds(caches, names[i], key)
                        && caches[names[i]][key] == MatchAll(names, caches, key).value
  {
    if !Holds(caches, names[0], key) {
      MatchSound(names[1..], caches, key);
      var i :| 0 <= i < |names[1..]| && Holds(caches, names[1..][i], key)
               && caches[names[1..][i]][key] == MatchAll(names[1..], caches, key).value;
      assert names[1..][i] == names[i + 1];
    }
  }

  /** The earliest cache holding the key is the one that answers. */
  lemma {:induction false} MatchIsFirstHit(names: seq<string>, caches: Store, key: Key, i: nat)
    requires i < |names| && Holds(caches, names[i], key)
    requires forall j :: 0 <= j < i ==> !Holds(caches, names[j], key)
    ensures MatchAll(names, caches, key) == Some(caches[names[i]][key])
  {
    if i > 0 {
      forall j | 0 <= j < i - 1 ensures !Holds(caches, names[1..][j], key) {
        assert names[1..][j] == names[j + 1];
      }
      MatchIsFirstHit(names[1..], caches, key, i - 1);
    }
  }

  /** Two stores that agree on `key` in every named cache answer `match(key)` alike. */
  lemma {:induction false} MatchFrame(names: seq<string>, c1: Store, c2: Store, key: Key)
    requires forall i :: 0 <= i < |names| ==> (Holds(c1, names[i], key) <==> Holds(c2, names[i], key))
    requires forall i :: 0 <= i < |names| && Holds(c1, names[i], key) && Holds(c2, names[i], key)
                         ==> c1[names[i]][key] == c2[names[i]][key]
    ensures MatchAll(names, c1, key) == MatchAll(names, c2, key)
  {
    if names != [] {
      MatchFrame(names[1..], c1, c2, key);
    }
  }

  /** Round trip of `put` then `match`: the key is found afterwards, and when no
      cache held it before, the value found is exactly the one stored. */
  lemma MatchAfterPut(names: seq<string>, caches: Store, name: string, key: Key, resp: Response)
    requires Coherent(names, caches)
    ensures MatchAll(Opened(names, name), PutEntry(caches, name, key, resp), key).Some?
    ensures MatchAll(names, caches, key).None? ==>
              MatchAll(Opened(names, name), PutEntry(caches, name, key, resp), key) == Some(resp)
  {
    var names', caches' := Opened(names, name), PutEntry(caches, name, key, resp);
    var i :| 0 <= i < |names'| && names'[i] == name;
    assert Holds(caches', names'[i], key);
    if MatchAll(names, caches, key).None? {
      MatchSound(names', caches', key);
      var j :| 0 <= j < |names'| && Holds(caches', names'[j], key)
               && caches'[names'[j]][key] == MatchAll(names', caches', key).value;
      assert names'[j] == name;
    }
  }

  /** `put` under one key leaves the answer of `match` for every other key alone. */
  lemma MatchOtherKeyAfterPut(names: seq<string>, caches: Store, name: string, key: Key, resp: Response, other: Key)
    requires Coherent(names, caches) && other != key
    ensures MatchAll(Opened(names, name), PutEntry(caches, name, key, resp), other)
            == MatchAll(names, caches, other)
  {
    var names', caches' := Opened(names, name), PutEntry(caches, name, key, resp);
    MatchFrame(names', caches', caches, other);
    if name !in names {
      assert names' == names + [name];
      assert !Holds(caches, name, other);
      assert MatchAll(names', caches, other) == MatchAll(names, caches, other) by {
        MatchAppendMissing(names, caches, name, other);
      }
    }
  }

  /** Appending a cache that does not hold the key does not change `match`. */
  lemma {:induction false} MatchAppendMissing(names: seq<string>, caches: Store, name: string, key: Key)
    requires !Holds(caches, name, key)
    ensures MatchAll(names + [name], caches, key) == MatchAll(names, caches, key)
  {
    if names != [] {
      assert (names + [name])[1..] == names[1..] + [name];
      MatchAppendMissing(names[1..], caches, name, key);
    }
  }
}
