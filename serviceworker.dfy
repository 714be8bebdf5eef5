/** The offline service worker (frontend/public/service-worker.js): which fetches it
    answers, its cache-first lookup, what it stores, its fallback for navigations, and how
    installing and activating change the cache storage. The browser's `caches` object is
    the class `CacheStorage`: the cache names in creation order and, per cache, a map from
    request URL to stored response. The network is an input. */
module ServiceWorker {
  import opened Text

  const CacheName := "dhoonhub-cache-v2"
  const UrlsToCache := ["/", "/index.html", "/static/favicon.ico"]
  /** The page served to navigations when the network fails. */
  const OfflinePage := "/index.html"

  datatype ResponseType = Basic | Cors | Opaque | OpaqueRedirect | ErrorType | Default
  datatype Response = Response(status: int, kind: ResponseType, body: string)
  datatype Mode = Navigate | SameOrigin | NoCors | CorsMode
  /** A request; `verb` is its HTTP method. */
  datatype Request = Request(url: string, verb: string, mode: Mode)
  /** What `fetch` gives: a rejected promise or a response. */
  datatype NetResult = NetworkError | Got(response: Response)
  /** What the fetch handler does: leave the request to the browser, or answer it with a
      response (`None` when the promise resolves to `undefined`). */
  datatype FetchOutcome = NotIntercepted | Respond(response: Option<Response>)

  /** The requests the handler lets through untouched: API calls, song files, and every
      method but GET. */
  predicate Bypassed(req: Request) {
    Contains(req.url, "/api/") || Contains(req.url, "/static/songs/") || req.verb != "GET"
  }

  /** A network response is stored only when it is a 200 of type 'basic'. */
  predicate Storable(r: Response) {
    r.status == 200 && r.kind == Basic
  }

  /** `Response.ok`, which `cache.addAll` requires of every response. */
  predicate Ok(r: Response) {
    200 <= r.status <= 299
  }

  type Store = map<string, map<string, Response>>

  predicate HoldsAt(names: seq<string>, entries: Store, k: int, url: string)
    requires 0 <= k < |names|
  {
    names[k] in entries && url in entries[names[k]]
  }

  /** `caches.match(url)`: the response stored for `url` in the first cache, in creation
      order, that holds one. */
  function MatchIn(names: seq<string>, entries: Store, url: string): (r: Option<Response>)
    ensures r.None? <==> forall k :: 0 <= k < |names| ==> !HoldsAt(names, entries, k, url)
    ensures r.Some? ==>
      exists k :: 0 <= k < |names| && HoldsAt(names, entries, k, url) &&
        r.value == entries[names[k]][url] &&
        forall j :: 0 <= j < k ==> !HoldsAt(names, entries, j, url)
  {
    MatchFrom(names, entries, url, 0)
  }

  /** The lookup from the cache at position `i` on. */
  function MatchFrom(names: seq<string>, entries: Store, url: string, i: nat): (r: Option<Response>)
    requires i <= |names|
    ensures r.None? <==> forall k :: i <= k < |names| ==> !HoldsAt(names, entries, k, url)
    ensures r.Some? ==>
      exists k :: i <= k < |names| && HoldsAt(names, entries, k, url) &&
        r.value == entries[names[k]][url] &&
        forall j :: i <= j < k ==> !HoldsAt(names, entries, j, url)
    decreases |names| - i
  {
    if i == |names| then None
    else if HoldsAt(names, entries, i, url) then Some(entries[names[i]][url])
    else MatchFrom(names, entries, url, i + 1)
  }

  predicate Distinct(s: seq<string>) {
    forall i, j :: 0 <= i < j < |s| ==> s[i] != s[j]
  }

  /** The names of `s` other than `x`, in order. */
  function RemoveName(s: seq<string>, x: string): (r: seq<string>)
    ensures forall n :: n in r <==> n in s && n != x
    ensures Distinct(s) ==> Distinct(r)
    decreases |s|
  {
    if s == [] then []
    else
      var rest := RemoveName(s[1..], x);
      if s[0] == x then rest
      else
        assert Distinct(s) ==> s[0] !in s[1..];
        [s[0]] + rest
  }

  /** `cache.addAll(urls)`: every URL is fetched, and only when every fetch gives an ok
      response are they all stored; otherwise nothing is. */
  function AddAll(cache: map<string, Response>, urls: seq<string>, network: string -> NetResult): (r: Option<map<string, Response>>)
    ensures r.Some? <==> forall u :: u in urls ==> network(u).Got? && Ok(network(u).response)
    ensures r.Some? ==> forall u :: u in urls ==> u in r.value && r.value[u] == network(u).response
    ensures r.Some? ==> forall u :: u in cache && u !in urls ==> u in r.value && r.value[u] == cache[u]
    ensures r.Some? ==> forall u :: u in r.value ==> u in cache || u in urls
    decreases |urls|
  {
    if urls == [] then Some(cache)
    else
      var u := urls[|urls| - 1];
      match AddAll(cache, urls[..|urls| - 1], network)
        case None => None
        case Some(m) =>
          if network(u).Got? && Ok(network(u).response) then Some(m[u := network(u).response])
          else None
  }

  /** The contents of a cache after `cache.addAll(urls)`: those `AddAll` gives, or the old
      ones when it fails. */
  function AddAllOrKeep(cache: map<string, Response>, urls: seq<string>, network: string -> NetResult): (r: map<string, Response>)
    ensures (forall u :: u in urls ==> network(u).Got? && Ok(network(u).response)) ==>
      forall u :: u in urls ==> u in r && r[u] == network(u).response
    ensures !(forall u :: u in urls ==> network(u).Got? && Ok(network(u).response)) ==> r == cache
  {
    match AddAll(cache, urls, network)
      case Some(m) => m
      case None => cache
  }

  /** After a miss, storing a response under the worker's cache makes the next lookup of
      that URL a hit on it. */
  lemma StoredThenHit(names: seq<string>, entries: Store, url: string, resp: Response)
    requires MatchIn(names, entries, url).None?
    ensures var names' := if CacheName in names then names else names + [CacheName];
      var cache := if CacheName in entries then entries[CacheName] else map[];
      CacheName in names' &&
      MatchIn(names', entries[CacheName := cache[url := resp]], url) == Some(resp)
  {
    var names' := if CacheName in names then names else names + [CacheName];
    var cache := if CacheName in entries then entries[CacheName] else map[];
    var entries' := entries[CacheName := cache[url := resp]];
    var k :| 0 <= k < |names'| && names'[k] == CacheName;
    assert HoldsAt(names', entries', k, url);
    var r := MatchIn(names', entries', url);
    var i :| 0 <= i < |names'| && HoldsAt(names', entries', i, url) && r.value == entries'[names'[i]][url];
    if names'[i] != CacheName {
      assert i < |names|;
      assert HoldsAt(names, entries, i, url);
    }
  }

  /** The browser's cache storage. */
  class CacheStorage {
    var names: seq<string>
    var entries: Store

    /** Cache names are distinct and each names exactly one cache. */
    predicate Valid()
      reads this
    {
      Distinct(names) && (forall n :: n in names ==> n in entries) && (forall n :: n in entries ==> n in names)
    }

    constructor ()
      ensures Valid() && names == [] && entries == map[]
    {
      names := [];
      entries := map[];
    }

    /** `caches.match(url)`, one cache after the other in creation order. */
    method Match(url: string) returns (r: Option<Response>)
      ensures r == MatchIn(names, entries, url)
    {
      var i := 0;
      while i < |names|
        invariant 0 <= i <= |names|
        invariant MatchIn(names, entries, url) == MatchFrom(names, entries, url, i)
      {
        if names[i] in entries && url in entries[names[i]] {
          return Some(entries[names[i]][url]);
        }
        i := i + 1;
      }
      return None;
    }

    /** `caches.open(name)`: creates the cache, last in order, when it does not exist. */
    method Open(name: string)
      requires Valid()
      modifies this
      ensures Valid()
      ensures name in old(names) ==> names == old(names) && entries == old(entries)
      ensures name !in old(names) ==> names == old(names) + [name] && entries == old(entries)[name := map[]]
    {
      if name !in names {
        names := names + [name];
        entries := entries[name := map[]];
      }
    }

    /** `cache.put(url, response)` on the cache `name`, which is opened first. */
    method Put(name: string, url: string, resp: Response)
      requires Valid()
      modifies this
      ensures Valid()
      ensures names == (if name in old(names) then old(names) else old(names) + [name])
      ensures entries == old(entries)[name := (if name in old(entries) then old(entries)[name] else map[])[url := resp]]
    {
      Open(name);
      entries := entries[name := entries[name][url := resp]];
    }

    /** `caches.delete(name)`: removes the cache, keeping the order of the others, and says
      whether it existed. */
    method Delete(name: string) returns (deleted: bool)
      requires Valid()
      modifies this
      ensures Valid()
      ensures deleted <==> name in old(names)
      ensures names == RemoveName(old(names), name) && entries == old(entries) - {name}
    {
      deleted := name in names;
      names := RemoveName(names, name);
      entries := entries - {name};
    }

    /** The `activate` handler: every cache whose name is not the worker's is deleted; the
        worker's own cache, if there is one, is kept with its contents. */
    method Activate()
      requires Valid()
      modifies this
      ensures Valid()
      ensures forall n :: n in names <==> n == CacheName && n in old(names)
      ensures forall n :: n in entries <==> n == CacheName && n in old(entries)
      ensures CacheName in entries ==> entries[CacheName] == old(entries)[CacheName]
    {
      var keys := names;
      var i := 0;
      while i < |keys|
        invariant 0 <= i <= |keys| && Valid()
        invariant forall n :: n in names <==> n in old(names) && (n == CacheName || n in keys[i..])
        invariant forall n :: n in entries ==> n in old(entries) && entries[n] == old(entries)[n]
      {
        if keys[i] != CacheName {
          var _ := Delete(keys[i]);
        }
        i := i + 1;
      }
    }

    /** The `install` handler: the worker's cache is opened and every URL of the list is
        added to it, all of them or (when a fetch fails or is not ok) none. */
    method Install(network: string -> NetResult)
      requires Valid()
      modifies this
      ensures Valid()
      ensures CacheName in names && old(names) <= names
      ensures CacheName in entries &&
        entries[CacheName] == AddAllOrKeep(if CacheName in old(entries) then old(entries)[CacheName] else map[], UrlsToCache, network)
      ensures forall n :: n in old(entries) && n != CacheName ==> n in entries && entries[n] == old(entries)[n]
      ensures forall n :: n in entries ==> n in old(entries) || n == CacheName
    {
      Open(CacheName);
      AddAllTo(CacheName, UrlsToCache, network);
    }

    /** `cache.addAll(urls)` on the existing cache `name`: its contents become those
        `AddAll` gives, or stay as they are when `AddAll` fails. */
    method AddAllTo(name: string, urls: seq<string>, network: string -> NetResult)
      requires Valid() && name in names
      modifies this
      ensures Valid() && names == old(names)
      ensures entries == old(entries)[name := AddAllOrKeep(old(entries)[name], urls, network)]
    {
      entries := entries[name := AddAllOrKeep(entries[name], urls, network)];
    }

    /** The `fetch` handler. Bypassed requests are left alone. Otherwise a cached response
        is returned without going to the network. On a miss the network's response is
        returned, and stored in the worker's cache when it is a 200 of type 'basic'. When
        the network fails, a navigation gets the cached offline page and anything else
        gets no response. Only a stored network response changes the cache storage. */
    method HandleFetch(req: Request, network: NetResult) returns (out: FetchOutcome)
      requires Valid()
      modifies this
      ensures Valid()
      ensures Bypassed(req) ==> out == NotIntercepted && names == old(names) && entries == old(entries)
      ensures !Bypassed(req) && MatchIn(old(names), old(entries), req.url).Some? ==>
        out == Respond(MatchIn(old(names), old(entries), req.url)) &&
        names == old(names) && entries == old(entries)
      ensures !Bypassed(req) && MatchIn(old(names), old(entries), req.url).None? && network.Got? ==>
        out == Respond(Some(network.response)) &&
        (Storable(network.response) ==>
           names == (if CacheName in old(names) then old(names) else old(names) + [CacheName]) &&
           entries == old(entries)[CacheName :=
             (if CacheName in old(entries) then old(entries)[CacheName] else map[])[req.url := network.response]] &&
           MatchIn(names, entries, req.url) == Some(network.response)) &&
        (!Storable(network.response) ==> names == old(names) && entries == old(entries))
      ensures !Bypassed(req) && MatchIn(old(names), old(entries), req.url).None? && network.NetworkError? ==>
        out == Respond(if req.mode == Navigate then MatchIn(old(names), old(entries), OfflinePage) else None) &&
        names == old(names) && entries == old(entries)
    {
      if Bypassed(req) {
        return NotIntercepted;
      }
      var hit := Match(req.url);
      if hit.Some? {
        return Respond(hit);
      }
      match network
        case Got(resp) =>
          if Storable(resp) {
            StoredThenHit(names, entries, req.url, resp);
            Put(CacheName, req.url, resp);
          }
          out := Respond(Some(resp));
        case NetworkError =>
          if req.mode == Navigate {
            var page := Match(OfflinePage);
            out := Respond(page);
          } else {
            out := Respond(None);
          }
    }
  }
}
