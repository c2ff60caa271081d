/**
 * The service worker (public/sw.js): the cache-generation rules of `install`
 * and `activate`, the `fetch` decision table, and the background-sync drain.
 *
 * The named caches are `CacheStorage`: cache names in creation order (the
 * order `caches.match` searches them in) and, per name, a map from request
 * URL to the stored response. A request's URL is its cache key, as in the
 * Cache API for GET requests. The network is an input.
 */
module ServiceWorker {
  import opened Types

  const CacheName := "time-tracker-v1"
  const OfflineUrl := "/"
  const StaticAssets: seq<string> := ["/", "/manifest.json", "/icon-192.png", "/icon-512.png"]
  const SyncTag := "sync-clock-entries"

  datatype Mode = Navigate | OtherMode
  datatype Request = Request(httpMethod: string, url: string, mode: Mode)
  datatype ResponseType = Basic | Cors | Opaque | Default
  datatype Response = Response(status: int, kind: ResponseType, body: string)

  /** What `fetch(event.request)` does: reject, or resolve with a response. */
  datatype Network = NetworkError | Fetched(response: Response)

  /** What the handler does with the event: not call `respondWith` (the
      browser fetches as usual), respond with a response, or respond with
      `undefined` (which the page sees as a network error). */
  datatype Reply = PassThrough | Respond(response: Response) | RespondNothing

  const OfflineResponse := Response(503, Default, "Offline")

  type Cache = map<string, Response>

  // ---------------------------------------------------------------------
  // Strings

  predicate StartsWith(s: string, prefix: string) {
    |prefix| <= |s| && s[..|prefix|] == prefix
  }

  /** `s.includes(part)` */
  predicate Contains(s: string, part: string)
    decreases |s|
  {
    StartsWith(s, part) || (|s| > 0 && Contains(s[1..], part))
  }

  /** `part` occurs in `s` at position i. */
  predicate OccursAt(s: string, part: string, i: int) {
    0 <= i && i + |part| <= |s| && s[i..i + |part|] == part
  }

  /** `Contains` is "occurs at some position". */
  lemma {:induction false} ContainsAt(s: string, part: string)
    ensures Contains(s, part) <==> exists i :: OccursAt(s, part, i)
  {
    if |s| > 0 {
      ContainsAt(s[1..], part);
      if Contains(s[1..], part) {
        var i :| OccursAt(s[1..], part, i);
        assert OccursAt(s, part, i + 1);
      }
      if StartsWith(s, part) {
        assert OccursAt(s, part, 0);
      }
      if i :| OccursAt(s, part, i) {
        if i > 0 {
          assert OccursAt(s[1..], part, i - 1);
        }
      }
    } else {
      if StartsWith(s, part) {
        assert OccursAt(s, part, 0);
      }
      if i :| OccursAt(s, part, i) {
        assert part == [];
        assert StartsWith(s, part);
      }
    }
  }

  // ---------------------------------------------------------------------
  // The fetch decision table

  /** Only same-origin GET requests are intercepted. */
  predicate Intercepted(req: Request, origin: string) {
    req.httpMethod == "GET" && StartsWith(req.url, origin)
  }

  /** A network response worth caching: status 200 and type `basic`. */
  predicate Storable(r: Response) {
    r.status == 200 && r.kind == Basic
  }

  /** The routes whose responses are cached. */
  predicate AllowListed(url: string) {
    Contains(url, "/api/") || Contains(url, "/_next/static/")
  }

  /** What the handler decides: the reply, whether the network was used,
      whether `caches.open(CACHE_NAME)` runs, and whether the response is
      put into that cache. */
  datatype Decision = Decision(reply: Reply, fetched: bool, opensCache: bool, stores: bool)

  /** `hit` is `caches.match(request)` and `fallback` is
      `caches.match(OFFLINE_URL)`, both over the caches as they are. */
  function Decide(req: Request, origin: string, hit: Option<Response>, network: Network, fallback: Option<Response>): (d: Decision)
    ensures d.reply.PassThrough? <==> !Intercepted(req, origin)
    ensures !Intercepted(req, origin) ==> !d.fetched && !d.opensCache
    ensures Intercepted(req, origin) && hit.Some? ==> d.reply == Respond(hit.value) && !d.fetched && !d.opensCache
    ensures d.fetched <==> Intercepted(req, origin) && hit.None?
    ensures d.fetched && network.Fetched? ==> d.reply == Respond(network.response)
    ensures d.stores ==> d.opensCache
    ensures d.opensCache <==> d.fetched && network.Fetched? && Storable(network.response)
    ensures d.stores <==> d.opensCache && AllowListed(req.url)
    ensures d.fetched && network.NetworkError? ==>
      d.reply == (if req.mode == Navigate then (if fallback.Some? then Respond(fallback.value) else RespondNothing)
                  else Respond(OfflineResponse))
  {
    if !Intercepted(req, origin) then Decision(PassThrough, false, false, false)
    else if hit.Some? then Decision(Respond(hit.value), false, false, false)
    else match network
      case Fetched(response) =>
        if !Storable(response) then Decision(Respond(response), true, false, false)
        else Decision(Respond(response), true, true, AllowListed(req.url))
      case NetworkError =>
        if req.mode == Navigate then
          Decision(if fallback.Some? then Respond(fallback.value) else RespondNothing, true, false, false)
        else Decision(Respond(OfflineResponse), true, false, false)
  }

  // ---------------------------------------------------------------------
  // Looking up the named caches

  predicate Distinct(ns: seq<string>) {
    forall i, j :: 0 <= i < j < |ns| ==> ns[i] != ns[j]
  }

  /** `caches.match(url)`: the first cache, in creation order, holding the URL. */
  function Lookup(names: seq<string>, caches: map<string, Cache>, url: string): (r: Option<Response>)
    ensures r.None? <==> forall i :: 0 <= i < |names| && names[i] in caches ==> url !in caches[names[i]]
    ensures r.Some? ==> exists i :: 0 <= i < |names| && names[i] in caches && url in caches[names[i]] && caches[names[i]][url] == r.value &&
                                    forall j :: 0 <= j < i && names[j] in caches ==> url !in caches[names[j]]
  {
    if names == [] then None
    else if names[0] in caches && url in caches[names[0]] then Some(caches[names[0]][url])
    else
      var r := Lookup(names[1..], caches, url);
      assert forall i :: 1 <= i < |names| ==> names[i] == names[1..][i - 1];
      if r.Some? then
        var i :| 0 <= i < |names[1..]| && names[1..][i] in caches && url in caches[names[1..][i]] &&
                 caches[names[1..][i]][url] == r.value &&
                 forall j :: 0 <= j < i && names[1..][j] in caches ==> url !in caches[names[1..][j]];
        assert names[i + 1] == names[1..][i];
        r
      else r
  }

  /** A URL that no cache holds, once put into one of the caches, is found
      there by the next lookup. */
  lemma {:induction false} LookupAfterPut(names: seq<string>, caches: map<string, Cache>, name: string, url: string, r: Response)
    requires name in names && name in caches
    requires Lookup(names, caches, url).None?
    ensures Lookup(names, caches[name := caches[name][url := r]], url) == Some(r)
  {
    if names[0] != name {
      LookupAfterPut(names[1..], caches, name, url, r);
    }
  }

  /** Every cached response has an ok (2xx) status. */
  ghost predicate CachedOk(caches: map<string, Cache>) {
    forall n, u :: n in caches && u in caches[n] ==> 200 <= caches[n][u].status < 300
  }

  /** A cache hit never serves a failure status. */
  lemma HitIsOk(names: seq<string>, caches: map<string, Cache>, url: string)
    requires CachedOk(caches)
    ensures Lookup(names, caches, url).Some? ==> 200 <= Lookup(names, caches, url).value.status < 300
  {
  }

  // ---------------------------------------------------------------------
  // install: cache.addAll(STATIC_ASSETS)

  /** The outcome of `cache.addAll(paths)` resolved against `origin`: all
      responses, keyed by URL, or nothing when any fetch fails or is not ok. */
  function AddAll(origin: string, paths: seq<string>, fetch: string -> Network): (r: Option<Cache>)
    ensures r.Some? <==> forall k :: 0 <= k < |paths| ==>
      fetch(origin + paths[k]).Fetched? && 200 <= fetch(origin + paths[k]).response.status < 300
    ensures r.Some? ==> forall k :: 0 <= k < |paths| ==>
      origin + paths[k] in r.value && r.value[origin + paths[k]] == fetch(origin + paths[k]).response
    ensures r.Some? ==> forall u :: u in r.value ==> exists k :: 0 <= k < |paths| && u == origin + paths[k]
    ensures r.Some? ==> forall u :: u in r.value ==> 200 <= r.value[u].status < 300
  {
    if paths == [] then Some(map[])
    else
      var url := origin + paths[0];
      var rest := AddAll(origin, paths[1..], fetch);
      assert forall k :: 1 <= k < |paths| ==> paths[k] == paths[1..][k - 1];
      match fetch(url)
      case NetworkError => None
      case Fetched(response) =>
        if !(200 <= response.status < 300) || rest.None? then None
        else Some(rest.value[url := response])
  }

  lemma AppendInjective(origin: string, p: string, q: string)
    requires origin + p == origin + q
    ensures p == q
  {
    assert p == (origin + p)[|origin|..];
    assert q == (origin + q)[|origin|..];
  }

  /** The first path's URL is not among those the remaining paths cache. */
  lemma FirstUrlIsFresh(origin: string, paths: seq<string>, fetch: string -> Network)
    requires |paths| > 0 && paths[0] !in paths[1..] && AddAll(origin, paths[1..], fetch).Some?
    ensures origin + paths[0] !in AddAll(origin, paths[1..], fetch).value
  {
    var tail := paths[1..];
    var url := origin + paths[0];
    if url in AddAll(origin, tail, fetch).value {
      var k :| 0 <= k < |tail| && url == origin + tail[k];
      AppendInjective(origin, paths[0], tail[k]);
    }
  }

  /** A successful `addAll` is the rest's result plus the first URL. */
  lemma AddAllCons(origin: string, paths: seq<string>, fetch: string -> Network)
    requires |paths| > 0 && AddAll(origin, paths, fetch).Some?
    ensures AddAll(origin, paths[1..], fetch).Some?
    ensures AddAll(origin, paths, fetch).value
            == AddAll(origin, paths[1..], fetch).value[origin + paths[0] := fetch(origin + paths[0]).response]
  {
  }

  lemma DistinctTail(ns: seq<string>)
    requires |ns| > 0 && Distinct(ns)
    ensures Distinct(ns[1..]) && ns[0] !in ns[1..]
  {
    assert forall i :: 0 <= i < |ns| - 1 ==> ns[1..][i] == ns[i + 1];
  }

  /** Distinct paths give as many cached URLs as there are paths. */
  lemma {:induction false} AddAllSize(origin: string, paths: seq<string>, fetch: string -> Network)
    requires Distinct(paths) && AddAll(origin, paths, fetch).Some?
    ensures |AddAll(origin, paths, fetch).value.Keys| == |paths|
  {
    if paths != [] {
      DistinctTail(paths);
      AddAllCons(origin, paths, fetch);
      AddAllSize(origin, paths[1..], fetch);
      FirstUrlIsFresh(origin, paths, fetch);
    }
  }

  /** A successful install caches exactly the four static assets. */
  lemma InstallCachesStaticAssets(origin: string, fetch: string -> Network)
    requires AddAll(origin, StaticAssets, fetch).Some?
    ensures var m := AddAll(origin, StaticAssets, fetch).value;
      && |m.Keys| == 4
      && (forall k :: 0 <= k < 4 ==> origin + StaticAssets[k] in m)
  {
    StaticAssetsDistinct();
    AddAllSize(origin, StaticAssets, fetch);
  }

  lemma StaticAssetsDistinct()
    ensures Distinct(StaticAssets)
  {
    assert StaticAssets[0][0] == '/' && |StaticAssets[0]| == 1;
    assert StaticAssets[1][1] == 'm' && StaticAssets[2][1] == 'i' && StaticAssets[3][1] == 'i';
    assert StaticAssets[2][6] == '1' && StaticAssets[3][6] == '5';
  }

  // ---------------------------------------------------------------------
  // The named caches

  function Remove(ns: seq<string>, n: string): (r: seq<string>)
    ensures forall x :: x in r <==> x in ns && x != n
    ensures Distinct(ns) ==> Distinct(r)
  {
    if ns == [] then []
    else if ns[0] == n then Remove(ns[1..], n)
    else
      var rest := Remove(ns[1..], n);
      assert forall i :: 1 <= i < |ns| ==> ns[i] == ns[1..][i - 1];
      assert Distinct(ns) ==> ns[0] !in ns[1..] && Distinct(ns[1..]);
      [ns[0]] + rest
  }

  /** Removing a name that is not there changes nothing. */
  lemma {:induction false} RemoveMissing(ns: seq<string>, n: string)
    requires n !in ns
    ensures Remove(ns, n) == ns
  {
    if ns != [] {
      assert n !in ns[1..];
      RemoveMissing(ns[1..], n);
    }
  }

  /** Removing a name held once cuts it out where it stands, keeping the
      other names in their order. */
  lemma {:induction false} RemoveAt(ns: seq<string>, n: string, i: nat)
    requires i < |ns| && ns[i] == n
    requires forall j :: 0 <= j < |ns| && j != i ==> ns[j] != n
    ensures Remove(ns, n) == ns[..i] + ns[i + 1..]
  {
    var tail := ns[1..];
    if i == 0 {
      assert forall j :: 0 <= j < |tail| ==> tail[j] == ns[j + 1];
      RemoveMissing(tail, n);
    } else {
      assert forall j :: 0 <= j < |tail| ==> tail[j] == ns[j + 1];
      RemoveAt(tail, n, i - 1);
      assert ns[..i] + ns[i + 1..] == [ns[0]] + (tail[..i - 1] + tail[i..]);
    }
  }

  /** A list of distinct names holding exactly one name is that name alone. */
  lemma OnlyName(ns: seq<string>, c: string)
    ensures Distinct(ns) && (forall x :: x in ns <==> x == c) ==> ns == [c]
  {
    if ns == [] {
      assert c !in ns;
    } else {
      assert ns[0] in ns;
      if |ns| > 1 {
        assert ns[1] in ns;
      }
    }
  }

  lemma NoNames(ns: seq<string>)
    ensures (forall x :: x !in ns) ==> ns == []
  {
    if ns != [] {
      assert ns[0] in ns;
    }
  }

  class CacheStorage {
    var names: seq<string>
    var caches: map<string, Cache>

    ghost predicate Valid()
      reads this
    {
      Distinct(names) && (forall n :: n in names <==> n in caches)
    }

    constructor ()
      ensures Valid() && names == [] && caches == map[]
    {
      names := [];
      caches := map[];
    }

    /** `caches.open(name)`: the named cache, created empty when missing. */
    method Open(name: string)
      requires Valid()
      modifies this
      ensures Valid() && name in caches
      ensures caches == if name in old(caches) then old(caches) else old(caches)[name := map[]]
      ensures names == if name in old(caches) then old(names) else old(names) + [name]
    {
      if name !in caches {
        names := names + [name];
        caches := caches[name := map[]];
      }
    }

    /** `caches.delete(name)` */
    method Delete(name: string)
      requires Valid()
      modifies this
      ensures Valid()
      ensures caches == old(caches) - {name}
      ensures names == Remove(old(names), name)
    {
      names := Remove(names, name);
      caches := caches - {name};
    }

    /** The `install` handler: open `CACHE_NAME` (it exists from here on, even
        if what follows fails), then `cache.addAll(STATIC_ASSETS)`, which
        stores all four responses or none. */
    method Install(origin: string, fetch: string -> Network) returns (ok: bool)
      requires Valid()
      modifies this
      ensures Valid() && CacheName in caches
      ensures ok <==> AddAll(origin, StaticAssets, fetch).Some?
      ensures names == if CacheName in old(caches) then old(names) else old(names) + [CacheName]
      ensures var withCache := if CacheName in old(caches) then old(caches) else old(caches)[CacheName := map[]];
        caches == if ok then withCache[CacheName := withCache[CacheName] + AddAll(origin, StaticAssets, fetch).value]
                  else withCache
      ensures CachedOk(old(caches)) ==> CachedOk(caches)
    {
      ok := OpenAndAddAll(CacheName, origin, StaticAssets, fetch);
    }

    /** `caches.open(name).then(cache => cache.addAll(paths))` */
    method OpenAndAddAll(name: string, origin: string, paths: seq<string>, fetch: string -> Network) returns (ok: bool)
      requires Valid()
      modifies this
      ensures Valid() && name in caches
      ensures ok <==> AddAll(origin, paths, fetch).Some?
      ensures names == if name in old(caches) then old(names) else old(names) + [name]
      ensures var withCache := if name in old(caches) then old(caches) else old(caches)[name := map[]];
        caches == if ok then withCache[name := withCache[name] + AddAll(origin, paths, fetch).value]
                  else withCache
      ensures CachedOk(old(caches)) ==> CachedOk(caches)
    {
      Open(name);
      var added := AddAll(origin, paths, fetch);
      ok := added.Some?;
      if ok {
        caches := caches[name := caches[name] + added.value];
      }
    }

    /** The `activate` handler: delete every cache whose name is not
        `CACHE_NAME`; the current generation is kept as it is. */
    method Activate()
      requires Valid()
      modifies this
      ensures Valid()
      ensures caches == if CacheName in old(caches) then map[CacheName := old(caches)[CacheName]] else map[]
      ensures names == if CacheName in old(caches) then [CacheName] else []
      ensures CachedOk(old(caches)) ==> CachedOk(caches)
    {
      var cacheNames := names;
      for i := 0 to |cacheNames|
        invariant Valid()
        invariant forall n :: n in caches <==> n in old(caches) && (n == CacheName || n !in cacheNames[..i])
        invariant forall n :: n in caches ==> caches[n] == old(caches)[n]
      {
        if cacheNames[i] != CacheName {
          Delete(cacheNames[i]);
        }
        assert cacheNames[..i + 1] == cacheNames[..i] + [cacheNames[i]];
      }
      assert cacheNames[..|cacheNames|] == cacheNames;
      if CacheName in old(caches) {
        OnlyName(names, CacheName);
      } else {
        NoNames(names);
      }
    }

    /** The `fetch` handler: the decision table over the caches as they are,
        then `cache.put` into `CACHE_NAME` when the decision says so. */
    method HandleFetch(req: Request, origin: string, network: Network) returns (reply: Reply, fetched: bool)
      requires Valid()
      modifies this
      ensures Valid()
      ensures var d := Decide(req, origin, Lookup(old(names), old(caches), req.url), network,
                              Lookup(old(names), old(caches), origin + OfflineUrl));
        && reply == d.reply && fetched == d.fetched
        && var withCache := if CacheName in old(caches) then old(caches) else old(caches)[CacheName := map[]];
        caches == (if d.stores then withCache[CacheName := withCache[CacheName][req.url := network.response]]
                   else if d.opensCache then withCache
                   else old(caches)) &&
        names == if d.opensCache && CacheName !in old(caches) then old(names) + [CacheName] else old(names)
      ensures CachedOk(old(caches)) ==> CachedOk(caches)
    {
      var hit := Lookup(names, caches, req.url);
      var fallback := Lookup(names, caches, origin + OfflineUrl);
      var d := Decide(req, origin, hit, network, fallback);
      reply, fetched := d.reply, d.fetched;
      if d.opensCache {
        Open(CacheName);
        if d.stores {
          caches := caches[CacheName := caches[CacheName][req.url := network.response]];
        }
      }
    }
  }

  /** Once the fetch handler has stored a response, the next same request is
      answered from the cache without using the network. */
  lemma StoredThenServed(names: seq<string>, caches: map<string, Cache>, req: Request, origin: string,
                         network: Network, later: Network, fallback: Option<Response>)
    requires CacheName in names && CacheName in caches
    requires Decide(req, origin, Lookup(names, caches, req.url), network, fallback).stores
    ensures var after := caches[CacheName := caches[CacheName][req.url := network.response]];
      var d := Decide(req, origin, Lookup(names, after, req.url), later, fallback);
      d.reply == Respond(network.response) && !d.fetched
  {
    LookupAfterPut(names, caches, CacheName, req.url, network.response);
  }

  // ---------------------------------------------------------------------
  // Background sync

  /** What `fetch('/api/sync', ...)` does: reject, or answer with `ok`. */
  datatype SyncReply = SyncFailed | SyncAnswered(ok: bool)

  /** The queue afterwards, the batch POSTed (if any), and the `synced`
      count announced to the clients (if any). */
  datatype SyncEffect = SyncEffect(queue: seq<OfflineClockEntry>, posted: Option<seq<OfflineClockEntry>>, notified: Option<nat>)

  /** The `sync` handler with `syncOfflineEntries`; the queue is what
      `getOfflineEntries` returns and clearing it is `clearOfflineEntries`. */
  function OnSync(tag: string, queue: seq<OfflineClockEntry>, reply: SyncReply): (eff: SyncEffect)
    ensures tag != SyncTag ==> eff == SyncEffect(queue, None, None)
    ensures queue == [] ==> eff == SyncEffect([], None, None)
    ensures eff.posted.Some? <==> tag == SyncTag && queue != []
    ensures eff.posted.Some? ==> eff.posted.value == queue
    ensures eff.queue == queue || eff.queue == []
    ensures eff.queue != queue <==> tag == SyncTag && queue != [] && reply == SyncAnswered(true)
    ensures eff.notified.Some? <==> eff.queue != queue
    ensures eff.notified.Some? ==> eff.notified.value == |queue|
  {
    if tag != SyncTag || queue == [] then SyncEffect(queue, None, None)
    else match reply
      case SyncAnswered(true) => SyncEffect([], Some(queue), Some(|queue|))
      case _ => SyncEffect(queue, Some(queue), None)
  }
}
