/** Properties of the offline cache controller: the version lifecycle, the
    stale-while-revalidate policy and the write-back filter. */
module OfflineCacheProperties {

  import opened Wrappers
  import Text
  import opened OfflineCache

  /** Storage holding no bucket but the given version's: what activation leaves. */
  predicate Clean(storage: Storage, version: string)
  {
    storage.Keys <= {CacheName(version)}
  }

  /** Different versions name different buckets. */
  lemma CacheNameInjective(v1: string, v2: string)
    requires v1 != v2
    ensures CacheName(v1) != CacheName(v2)
  {
  }

  /** The shipped worker's bucket name. */
  lemma ShippedCacheName()
    ensures CacheName(CacheVersion) == "album-cache-v1.0.0"
  {
  }

  /** Activation is idempotent. */
  lemma ActivateIdempotent(storage: Storage, version: string)
    ensures Activate(Activate(storage, version), version) == Activate(storage, version)
  {
  }

  /** Activation leaves clean storage, and clean storage is not changed by activation. */
  lemma ActivateCleans(storage: Storage, version: string)
    ensures Clean(Activate(storage, version), version)
    ensures Clean(storage, version) ==> Activate(storage, version) == storage
  {
  }

  /** The upgrade scenario: with a v1 bucket in place, a successful install of v2
      followed by its activation deletes the v1 bucket and leaves every resolved manifest
      URL in the v2 bucket. */
  lemma {:induction false} VersionBump(storage: Storage, v1: string, v2: string, manifest: seq<string>,
                                       resolve: string -> string, serve: string -> Response)
    requires v1 != v2
    requires CacheName(v1) in storage
    requires forall i, j :: 0 <= i < j < |manifest| ==> resolve(manifest[i]) != resolve(manifest[j])
    requires forall p :: p in manifest ==> AddAllAccepts(serve(resolve(p)))
    ensures var i := Install(storage, v2, manifest, resolve, serve);
      var r := Activate(i.storage, v2);
      && i.installed
      && CacheName(v1) !in r
      && r.Keys == {CacheName(v2)}
      && forall p :: p in manifest ==> resolve(p) in r[CacheName(v2)] && r[CacheName(v2)][resolve(p)] == serve(resolve(p))
  {
    CacheNameInjective(v1, v2);
  }

  /** A failed install (one manifest response `addAll` rejects) stores no manifest entry:
      an existing bucket keeps its entries, a missing one is created empty. */
  lemma InstallFailureStoresNothing(storage: Storage, version: string, manifest: seq<string>,
                                    resolve: string -> string, serve: string -> Response, p: string)
    requires p in manifest && serve(resolve(p)).status == 404
    ensures var i := Install(storage, version, manifest, resolve, serve);
      && !i.installed
      && i.storage == storage[CacheName(version) := Open(storage, CacheName(version))]
  {
  }

  /** A manifest listing one path twice is rejected as a whole, whatever the network
      answers. */
  lemma DuplicatePathRejected(storage: Storage, version: string, path: string,
                              resolve: string -> string, serve: string -> Response)
    ensures var i := Install(storage, version, [path, path], resolve, serve);
      && !i.installed
      && i.storage == storage[CacheName(version) := Open(storage, CacheName(version))]
  {
    var manifest := [path, path];
    assert resolve(manifest[0]) == resolve(manifest[1]);
  }

  /** A fresh install of the shipped worker into empty storage, all fetches succeeding:
      exactly one bucket, album-cache-v1.0.0, holding exactly the five resolved static
      assets. */
  lemma {:induction false} FreshInstall(resolve: string -> string, serve: string -> Response)
    requires forall i, j :: 0 <= i < j < |StaticAssets| ==> resolve(StaticAssets[i]) != resolve(StaticAssets[j])
    requires forall p :: p in StaticAssets ==> AddAllAccepts(serve(resolve(p)))
    ensures var i := Install(map[], CacheVersion, StaticAssets, resolve, serve);
      && i.installed
      && i.storage.Keys == {"album-cache-v1.0.0"}
      && i.storage["album-cache-v1.0.0"].Keys == set p | p in StaticAssets :: resolve(p)
  {
    ShippedCacheName();
  }

  /** Installing and fetching for a version keep storage clean for that version; a cache
      reset leaves nothing at all. */
  lemma CleanPreserved(storage: Storage, version: string, manifest: seq<string>, resolve: string -> string,
                       serve: string -> Response, workerOrigin: string, req: Request, net: NetOutcome,
                       kind: Option<string>)
    requires Clean(storage, version)
    ensures Clean(Install(storage, version, manifest, resolve, serve).storage, version)
    ensures Clean(Fetch(storage, version, workerOrigin, req, net).storage, version)
    ensures Clean(OnMessage(storage, kind).storage, version)
  {
  }

  /** A cross-origin request is not intercepted, whatever the network does. */
  lemma CrossOriginUntouched(storage: Storage, version: string, workerOrigin: string, req: Request, net: NetOutcome)
    requires req.origin != workerOrigin
    ensures Fetch(storage, version, workerOrigin, req, net).reply == PassThrough
    ensures Fetch(storage, version, workerOrigin, req, net).storage == storage
  {
  }

  /** What a same-origin fetch writes: the version's bucket gains or replaces exactly the
      request's entry when the network answered 200 for a persistable URL; otherwise the
      bucket's entries are as before. No other bucket changes. */
  lemma FetchWriteBack(storage: Storage, version: string, workerOrigin: string, req: Request, net: NetOutcome)
    requires req.origin == workerOrigin
    ensures var name := CacheName(version);
      var r := Fetch(storage, version, workerOrigin, req, net).storage;
      && r.Keys == storage.Keys + {name}
      && (forall n :: n in storage && n != name ==> r[n] == storage[n])
      && (forall u :: u in Open(storage, name) && u != req.url ==> u in r[name] && r[name][u] == storage[name][u])
      && (forall u :: u in r[name] && u != req.url ==> u in Open(storage, name))
      && (net.Resp? && net.response.status == 200 && Persistable(req.url) ==>
            req.url in r[name] && r[name][req.url] == net.response)
      && (!(net.Resp? && net.response.status == 200 && Persistable(req.url)) ==>
            r[name] == Open(storage, name))
  {
  }

  /** When the bucket already exists, a fetch that writes nothing leaves the storage
      exactly as it was. */
  lemma FetchWithoutWriteKeepsStorage(storage: Storage, version: string, workerOrigin: string, req: Request, net: NetOutcome)
    requires CacheName(version) in storage
    requires !WritesBack(req.url, net)
    ensures Fetch(storage, version, workerOrigin, req, net).storage == storage
  {
  }

  /** Stale-while-revalidate on a hit: the stale entry is the answer while a newer 200
      response to a persistable URL replaces it in the bucket. */
  lemma RevalidateOnHit(storage: Storage, version: string, workerOrigin: string, req: Request, newer: Response)
    requires req.origin == workerOrigin
    requires CacheName(version) in storage && req.url in storage[CacheName(version)]
    requires newer.status == 200 && Persistable(req.url)
    ensures var r := Fetch(storage, version, workerOrigin, req, Resp(newer));
      && r.reply == Respond(Some(storage[CacheName(version)][req.url]))
      && r.storage[CacheName(version)][req.url] == newer
  {
  }

  /** A later fetch of a URL whose response was written back is answered from the cache,
      even when the network is down. */
  lemma {:induction false} WrittenBackServesOffline(storage: Storage, version: string, workerOrigin: string, req: Request, newer: Response)
    requires req.origin == workerOrigin
    requires newer.status == 200 && Persistable(req.url)
    ensures var first := Fetch(storage, version, workerOrigin, req, Resp(newer));
      Fetch(first.storage, version, workerOrigin, req, Fail).reply == Respond(Some(newer))
  {
    FetchWriteBack(storage, version, workerOrigin, req, Resp(newer));
  }

  /** A status other than 200 is returned on a miss but never stored. */
  lemma ErrorStatusNotStored(storage: Storage, version: string, workerOrigin: string, req: Request, resp: Response)
    requires req.origin == workerOrigin
    requires req.url !in Open(storage, CacheName(version))
    requires resp.status != 200
    ensures var r := Fetch(storage, version, workerOrigin, req, Resp(resp));
      && r.reply == Respond(Some(resp))
      && req.url !in r.storage[CacheName(version)]
  {
  }

  /** Every URL ending, in any letter case, with one of the extensions is persistable. */
  lemma {:induction false} ExtensionPersistable(prefix: string, ext: string)
    requires ext in ImageExtensions || ext in CodeExtensions
    ensures Persistable(prefix + ext)
  {
    assert Text.EndsWithIgnoringCase(ext, ext);
    Text.EndsWithExtend(prefix, ext, ext);
    if ext in ImageExtensions {
      var i :| 0 <= i < |ImageExtensions| && ImageExtensions[i] == ext;
      assert Text.EndsWithIgnoringCase(prefix + ext, ImageExtensions[i]);
    } else {
      var i :| 0 <= i < |CodeExtensions| && CodeExtensions[i] == ext;
      assert Text.EndsWithIgnoringCase(prefix + ext, CodeExtensions[i]);
    }
  }

  /** Every persistable URL is at least as long as the shortest extension, and its last
      character is, ignoring case, the last letter of one of them. */
  lemma PersistableLastChar(url: string)
    requires Persistable(url)
    ensures |url| >= 3
    ensures Text.LowerAscii(url[|url| - 1]) in {'g', 'f', 'p', 's'}
  {
    var ext :| ext in ImageExtensions + CodeExtensions && Text.EndsWithIgnoringCase(url, ext);
    ExtensionShapes(ext);
    var k := |ext| - 1;
    assert Text.SameIgnoringCase(url[|url| - |ext| + k], ext[k]);
  }

  /** The write-back filter on the shipped stylesheet and script and on an image. */
  lemma PersistedExamples()
    ensures Persistable("./style.css") && Persistable("./script.js")
    ensures Persistable("./img/cover.webp")
  {
    var css, js, webp := "./style.css", "./script.js", "./img/cover.webp";
    assert css[|css| - 4..] == CodeExtensions[0];
    assert Text.EndsWithIgnoringCase(css, CodeExtensions[0]);
    assert js[|js| - 3..] == CodeExtensions[1];
    assert Text.EndsWithIgnoringCase(js, CodeExtensions[1]);
    assert webp[|webp| - 5..] == ImageExtensions[4];
    assert Text.EndsWithIgnoringCase(webp, ImageExtensions[4]);
  }

  /** Every extension of the filter is at least three characters long and ends in g, f, p
      or s. */
  lemma ExtensionShapes(ext: string)
    requires ext in ImageExtensions + CodeExtensions
    ensures |ext| >= 3 && ext[|ext| - 1] in {'g', 'f', 'p', 's'}
  {
    var all := ImageExtensions + CodeExtensions;
    var i :| 0 <= i < |all| && all[i] == ext;
    assert all == [".jpg", ".jpeg", ".png", ".gif", ".webp", ".svg", ".css", ".js"];
  }

  /** The page, the audio file and a versioned image URL are never written back. */
  lemma NotPersistedExamples()
    ensures !Persistable("./") && !Persistable("./index.html")
    ensures !Persistable("./audio/videoplayback.m4a")
    ensures !Persistable("./img/a.png?v=2")
  {
    NotPersistable("./");
    NotPersistable("./index.html");
    NotPersistable("./audio/videoplayback.m4a");
    NotPersistable("./img/a.png?v=2");
  }

  /** The letter case of the URL does not matter. */
  lemma UpperCaseExtensionPersistable()
    ensures Persistable("./img/PHOTO.JPG")
  {
    var url := "./img/PHOTO.JPG";
    assert url[|url| - 4..] == ".JPG";
    assert Text.EndsWithIgnoringCase(url, ImageExtensions[0]);
  }

  /** A URL ending in a character other than g, f, p or s (any case) is not persistable. */
  lemma NotPersistable(url: string)
    requires |url| > 0 && Text.LowerAscii(url[|url| - 1]) !in {'g', 'f', 'p', 's'}
    ensures !Persistable(url)
  {
    if Persistable(url) {
      PersistableLastChar(url);
    }
  }

  /** An entry whose URL the write-back filter rejects (the page itself, the audio file)
      is never refreshed by any fetch: it stays as installed until the version changes. */
  lemma NonPersistableEntryFrozen(storage: Storage, version: string, workerOrigin: string, req: Request,
                                  net: NetOutcome, url: string)
    requires CacheName(version) in storage && url in storage[CacheName(version)]
    requires !Persistable(url)
    ensures var r := Fetch(storage, version, workerOrigin, req, net).storage;
      url in r[CacheName(version)] && r[CacheName(version)][url] == storage[CacheName(version)][url]
  {
  }
}
