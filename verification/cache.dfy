/** The offline cache controller (service-worker.js): a versioned bucket of responses,
    filled at install, pruned at activation, refreshed stale-while-revalidate on every
    same-origin fetch, and cleared on request. Each handler is one atomic step over the
    whole cache storage. */
module OfflineCache {

  import opened Wrappers
  import Text

  datatype Response = Response(status: int, body: string)

  /** One named cache: request URL to stored response. */
  type Bucket = map<string, Response>

  /** All of the origin's caches: bucket name to bucket. */
  type Storage = map<string, Bucket>

  /** A request as the worker sees it: the origin of its URL and the full URL string
      (query string included). */
  datatype Request = Request(origin: string, url: string)

  /** What the network does with the revalidation request. */
  datatype NetOutcome = Fail | Resp(response: Response)

  /** `PassThrough`: the worker does not call `respondWith`, the browser fetches on its
      own. `Respond(None)`: the worker answers with `undefined`, a network error for the
      page. `Respond(Some(r))`: the page receives `r`. */
  datatype Reply = PassThrough | Respond(response: Option<Response>)

  datatype FetchResult = FetchResult(reply: Reply, storage: Storage)

  /** Outcome of the `install` handler. `installed` holds when `cache.addAll` succeeded;
      only then does the handler go on to request skip-waiting, and only then can the
      worker go on to activate. */
  datatype Installation = Installation(storage: Storage, installed: bool)

  /** What a control message did besides changing the storage. */
  datatype MessageResult = MessageResult(storage: Storage, skipWaiting: bool)

  const CacheVersion: string := "v1.0.0"
  const CacheNamePrefix: string := "album-cache-"

  /** Files cached at install, as paths relative to the worker's own URL. */
  const StaticAssets: seq<string> :=
    ["./", "./index.html", "./style.css", "./script.js", "./audio/videoplayback.m4a"]

  /** URL endings whose successful responses are written back to the cache. */
  const ImageExtensions: seq<string> := [".jpg", ".jpeg", ".png", ".gif", ".webp", ".svg"]
  const CodeExtensions: seq<string> := [".css", ".js"]

  /** The bucket a worker of the given version reads and writes. */
  function CacheName(version: string): (name: string)
    ensures |name| == |CacheNamePrefix| + |version|
    ensures name[..|CacheNamePrefix|] == CacheNamePrefix && name[|CacheNamePrefix|..] == version
  {
    CacheNamePrefix + version
  }

  /** `caches.open(name)`: the bucket, created empty when it does not exist. */
  function Open(storage: Storage, name: string): (b: Bucket)
    ensures name in storage ==> b == storage[name]
    ensures name !in storage ==> b == map[]
  {
    if name in storage then storage[name] else map[]
  }

  /** `cache.addAll(urls)` once every fetch has succeeded, where `serve` gives the
      network's response to each URL: every URL is stored with its response and every
      other entry kept. */
  function AddAll(bucket: Bucket, urls: seq<string>, serve: string -> Response): (r: Bucket)
    ensures r.Keys == bucket.Keys + set u | u in urls
    ensures forall u :: u in urls ==> r[u] == serve(u)
    ensures forall u :: u in bucket && u !in urls ==> r[u] == bucket[u]
    decreases |urls|
  {
    if urls == [] then bucket
    else
      var rest := AddAll(bucket, urls[1..], serve);
      assert forall u :: u in urls <==> u == urls[0] || u in urls[1..];
      rest[urls[0] := serve(urls[0])]
  }

  /** A response `cache.addAll` accepts: an ok status (200 to 299) other than 206 Partial
      Content. Any other response makes the whole call reject and store nothing. */
  predicate AddAllAccepts(r: Response)
  {
    200 <= r.status <= 299 && r.status != 206
  }

  /** No two of the URLs are the same: `cache.addAll` rejects a batch holding two requests
      for one URL. */
  predicate DistinctUrls(urls: seq<string>)
  {
    forall i, j :: 0 <= i < j < |urls| ==> urls[i] != urls[j]
  }

  /** The manifest's relative paths resolved, in order, against the worker's URL, as
      `cache.addAll` resolves the strings it is given. */
  function ResolveAll(manifest: seq<string>, resolve: string -> string): (urls: seq<string>)
    ensures |urls| == |manifest|
    ensures forall i :: 0 <= i < |manifest| ==> urls[i] == resolve(manifest[i])
    ensures forall p :: p in manifest ==> resolve(p) in urls
    ensures forall u :: u in urls ==> exists p :: p in manifest && u == resolve(p)
    ensures DistinctUrls(urls) <==>
      forall i, j :: 0 <= i < j < |manifest| ==> resolve(manifest[i]) != resolve(manifest[j])
  {
    seq(|manifest|, i requires 0 <= i < |manifest| => resolve(manifest[i]))
  }

  /** The URLs of the resolved manifest, as a set, are the images of its paths. */
  lemma ResolvedUrls(manifest: seq<string>, resolve: string -> string)
    ensures (set u | u in ResolveAll(manifest, resolve)) == (set p | p in manifest :: resolve(p))
  {
    var urls := ResolveAll(manifest, resolve);
    forall u | u in urls
      ensures u in (set p | p in manifest :: resolve(p))
    {
      var p :| p in manifest && u == resolve(p);
    }
  }

  /** `cache.addAll` of the resolved manifest on an open bucket: `None` when it rejects
      (two paths resolving to one URL, or a response it does not accept), otherwise the
      bucket with every resolved manifest URL holding its response. */
  function AddManifest(bucket: Bucket, manifest: seq<string>, resolve: string -> string,
                       serve: string -> Response): (r: Option<Bucket>)
    ensures r.Some? <==>
      && (forall i, j :: 0 <= i < j < |manifest| ==> resolve(manifest[i]) != resolve(manifest[j]))
      && (forall p :: p in manifest ==> AddAllAccepts(serve(resolve(p))))
    ensures r.Some? ==>
      && r.value.Keys == bucket.Keys + (set p | p in manifest :: resolve(p))
      && (forall p :: p in manifest ==> resolve(p) in r.value && r.value[resolve(p)] == serve(resolve(p)))
      && (forall u :: u in bucket && u !in ResolveAll(manifest, resolve) ==> r.value[u] == bucket[u])
  {
    var urls := ResolveAll(manifest, resolve);
    if DistinctUrls(urls) && forall p :: p in manifest ==> AddAllAccepts(serve(resolve(p))) then
      ResolvedUrls(manifest, resolve);
      Some(AddAll(bucket, urls, serve))
    else
      None
  }

  /** The `install` handler: open (creating) the version's bucket and add the manifest to
      it. `resolve` maps a manifest path to its absolute URL, `serve` gives the network's
      response to a URL. If two paths resolve to the same URL, or any response is one
      `addAll` rejects, the bucket is left as opened and the installation fails. */
  function Install(storage: Storage, version: string, manifest: seq<string>,
                   resolve: string -> string, serve: string -> Response): (r: Installation)
    ensures r.storage.Keys == storage.Keys + {CacheName(version)}
    ensures forall name :: name in storage && name != CacheName(version) ==> r.storage[name] == storage[name]
    ensures r.installed <==>
      && (forall i, j :: 0 <= i < j < |manifest| ==> resolve(manifest[i]) != resolve(manifest[j]))
      && (forall p :: p in manifest ==> AddAllAccepts(serve(resolve(p))))
    ensures !r.installed ==> r.storage[CacheName(version)] == Open(storage, CacheName(version))
    ensures r.installed ==>
      && r.storage[CacheName(version)].Keys == Open(storage, CacheName(version)).Keys + (set p | p in manifest :: resolve(p))
      && (forall p :: p in manifest ==>
            resolve(p) in r.storage[CacheName(version)] && r.storage[CacheName(version)][resolve(p)] == serve(resolve(p)))
      && (forall u :: u in Open(storage, CacheName(version)) && u !in ResolveAll(manifest, resolve) ==>
            r.storage[CacheName(version)][u] == storage[CacheName(version)][u])
  {
    var name := CacheName(version);
    var bucket := Open(storage, name);
    match AddManifest(bucket, manifest, resolve, serve)
    case Some(added) => Installation(storage[name := added], true)
    case None => Installation(storage[name := bucket], false)
  }

  /** The `activate` handler: delete every bucket whose name is not the version's. */
  function Activate(storage: Storage, version: string): (r: Storage)
    ensures r.Keys <= {CacheName(version)}
    ensures CacheName(version) in storage <==> CacheName(version) in r
    ensures CacheName(version) in storage ==> r[CacheName(version)] == storage[CacheName(version)]
  {
    map name | name in storage && name == CacheName(version) :: storage[name]
  }

  /** Responses to these URLs are written back: the URL, compared case-insensitively and
      including any query string, ends with an image, stylesheet or script extension. */
  predicate Persistable(url: string)
    ensures Persistable(url) <==>
      exists ext :: ext in ImageExtensions + CodeExtensions && Text.EndsWithIgnoringCase(url, ext)
  {
    Text.EndsWithAnyIgnoringCase(url, ImageExtensions) || Text.EndsWithAnyIgnoringCase(url, CodeExtensions)
  }

  /** The network outcome is written back to the bucket at this URL: only a status-200
      response, never a failure or another status, and only for a persistable URL. */
  predicate WritesBack(url: string, net: NetOutcome)
    ensures net.Fail? ==> !WritesBack(url, net)
    ensures net.Resp? && net.response.status != 200 ==> !WritesBack(url, net)
    ensures !Persistable(url) ==> !WritesBack(url, net)
    ensures net.Resp? && net.response.status == 200 && Persistable(url) ==> WritesBack(url, net)
  {
    net.Resp? && net.response.status == 200 && Persistable(url)
  }

  /** The `fetch` handler. A cross-origin request is left alone. Otherwise the bucket is
      opened, the network request is issued whatever the lookup finds, and
      - the cached entry, if any, is the answer, whatever the network does;
      - on a miss the network's response is the answer whatever its status, and a failed
        network yields `undefined`, the value the failure handler returns on a miss;
      - a status-200 response to a persistable URL replaces the entry in the bucket, on
        the hit path as well as on the miss path. */
  function Fetch(storage: Storage, version: string, workerOrigin: string, req: Request, net: NetOutcome): (r: FetchResult)
    ensures req.origin != workerOrigin ==> r == FetchResult(PassThrough, storage)
    ensures req.origin == workerOrigin ==> r.reply.Respond?
    ensures req.origin == workerOrigin ==>
      var cached := Open(storage, CacheName(version));
      && (req.url in cached ==> r.reply.response == Some(cached[req.url]))
      && (req.url !in cached && net.Resp? ==> r.reply.response == Some(net.response))
      && (req.url !in cached && net.Fail? ==> r.reply.response == None)
  {
    if req.origin != workerOrigin then FetchResult(PassThrough, storage)
    else
      var name := CacheName(version);
      var bucket := Open(storage, name);
      var cachedResponse := if req.url in bucket then Some(bucket[req.url]) else None;
      var bucket' := if WritesBack(req.url, net) then bucket[req.url := net.response] else bucket;
      var answer := if cachedResponse.Some? then cachedResponse
                    else if net.Resp? then Some(net.response)
                    else None;
      FetchResult(Respond(answer), storage[name := bucket'])
  }

  /** The `message` handler. `kind` is the `type` field of the message's data, `None`
      when there is no data or no such field. */
  function OnMessage(storage: Storage, kind: Option<string>): (r: MessageResult)
    ensures kind == Some("CLEAR_CACHE") ==> r.storage == map[]
    ensures kind != Some("CLEAR_CACHE") ==> r.storage == storage
    ensures r.skipWaiting <==> kind == Some("SKIP_WAITING")
  {
    MessageResult(
      if kind == Some("CLEAR_CACHE") then map[] else storage,
      kind == Some("SKIP_WAITING"))
  }
}
