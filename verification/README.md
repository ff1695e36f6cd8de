# Photo album: navigation controller and offline cache

This project models the two stateful parts of a mobile photo-album page and proves
properties of them in Dafny.

- **Navigation controller** (`script.js`). The page keeps the current slide, a
  transition-in-progress flag (`isScrolling`) and the music flag. Touch, keyboard and
  button input becomes `goToSlide`, `nextSlide` and `prevSlide`. Every accepted transition
  scrolls to the slide and updates the page indicator and progress bar. It preloads the
  neighbouring images, may start the music, shows hearts on the first slide and confetti
  on the last, vibrates, and is released by a 600 ms timer.
  Module `Navigation` (`navigation.dfy`) writes each handler as a pure function
  `State × Event → State × effects`. `Step` dispatches one event and `Run` applies a
  sequence of events. Image `complete` flags are an input (`Album`). The 600 ms timer is
  the `Settle` event, and `Date.now()` is the payload of `TouchEnd`.
- **Offline cache controller** (`service-worker.js`). The worker caches a static
  manifest in the bucket `album-cache-<version>` at install. It deletes every other
  bucket at activation. It answers same-origin fetches stale-while-revalidate, writing
  back status-200 responses for image, stylesheet and script URLs. On request it clears
  all buckets.
  Module `OfflineCache` (`cache.dfy`) writes the cache storage as
  `map<bucket name, map<URL, Response>>` and each handler as one atomic function. The
  version is a parameter, so a version bump can be stated. The network's answer to the
  revalidation request is an input (`NetOutcome`). The network request is issued after the
  lookup, on a hit and on a miss alike, and a hit is answered without waiting for the
  network. The handler collapses to one step because the answer depends only on whether
  the lookup hit and on the network outcome.
- `Text` (`text.dfy`) gives the case-insensitive suffix test of the write-back filter.
  `Wrappers` (`wrappers.dfy`) gives `Option`.
- `NavigationProperties` and `OfflineCacheProperties` hold the lemmas.

Behaviour of the code worth noting:

- `caches.open` creates the bucket when it is missing, so a same-origin fetch or an
  install with no current bucket leaves an (empty or filled) current bucket behind.
  "Storage unchanged" holds only once the bucket exists (`FetchWithoutWriteKeepsStorage`).
- `cache.addAll` resolves the relative manifest paths against the worker's URL, and rejects
  as a whole when two requests have the same URL or one response is not an ok status
  (200 to 299) or is 206. `Install`
  takes the resolution as a function, stores nothing from a rejected call and reports
  whether installation succeeded.
- On a miss with a failed network, the failure handler returns the `undefined` cached
  value. The page then gets no response (`Respond(None)`), and the handler rejects nothing.
- `goToSlide(current)` is accepted, not ignored. The restart button relies on this.
- The page has no zoom, flip-book or wheel navigation.

## Model

| member | source | states |
|---|---|---|
| Navigation.PreloadNearby | script.js:181-188 | the preloaded slides are exactly the slides among index-1, index, index+1 that exist and whose image is not complete: at most three, all inside the album |
| Navigation.UpdateUI | script.js:120-123 | the indicator shows the current slide's 1-based number and the progress is (current+1) out of the slide count |
| Navigation.Celebrate | script.js:112-116 | music is requested iff the target is past slide 0 and none plays, hearts iff it is slide 0, confetti iff it is the last slide, and the 10 ms vibration always |
| Navigation.GoToSlide | script.js:98-118 | a call during a transition or with an index outside [0, n) changes nothing and emits nothing; every other call (the current slide included) makes the index current, starts a transition and first scrolls to the slide |
| Navigation.NextSlide | script.js:86-90 | at or past the last slide, next is a no-op |
| Navigation.PrevSlide | script.js:92-96 | at or before the first slide, prev is a no-op |
| Navigation.KeyBinding | script.js:71-79 | ArrowLeft/ArrowUp mean previous, ArrowRight/ArrowDown/space mean next, Home the first slide, End the last, each in both directions, and nothing else is bound |
| Navigation.HandleKeyboard | script.js:69-84 | during a transition or for an unbound key nothing happens, not even suppressing the default; a bound key first suppresses the default |
| Navigation.SwipeCommand | script.js:59-67 | a gesture navigates iff the horizontal travel is strictly above 50 and strictly above the vertical travel; a leftward drag means next and a rightward drag means previous |
| Navigation.HandleSwipe | script.js:51-67 | during a transition or for a non-qualifying gesture nothing happens; a qualifying gesture acts as next or previous; the passive listener never suppresses the default |
| Navigation.HandleTouchMove | script.js:44-49 | outside a transition, a move with more horizontal than vertical travel suppresses the default; it never changes state |
| Navigation.DoubleTapGuard | script.js:281-288 | a touch ending at most 300 ms after the previous one is suppressed, and it becomes the previous touch |
| Navigation.EagerPreload | script.js:175-178 | the start-up preload is exactly the not-yet-complete images among slides 0 .. min(3, n)-1 |
| Navigation.Init | script.js:22-27 | start-up leaves slide 0 current with no transition, preloads eagerly, then shows page 1 and progress 1 out of n |
| Navigation.Step | script.js:29-288 | every listener's event (restart button, touch, keyboard, settle timer, double-tap guard) is dispatched to its handler; every event keeps the current slide inside the album; the settle timer ends a transition and no other event does |
| Navigation.Run | script.js:29-288 | every event sequence keeps the current slide inside the album, and a transition stays in progress through any sequence without a settle event |
| NavigationProperties.AcceptedTransitionEffects | script.js:104-116 | an accepted transition scrolls first, shows the indicator and progress, preloads nearby and vibrates 10 ms; it shows hearts iff the target is 0, confetti iff it is the last slide, and starts music iff the target is past 0 and music is not playing |
| NavigationProperties.ProgressAfterTransition | script.js:120-123 | after an accepted transition the indicator is current+1 and the progress fraction (current+1)/n lies in (0,1], equal to 1 exactly on the last slide, so the bar is in (0%, 100%] and full only there |
| NavigationProperties.TransitionBlocksNavigation | script.js:44-99 | while a transition is running, swipes, moves, keys and direct navigation change nothing and emit nothing |
| NavigationProperties.GoToThenSettle | script.js:98-117 | going to a valid slide and then settling leaves that slide current and the controller free again |
| NavigationProperties.NextMovesByOne | script.js:86-90 | outside a transition and before the last slide, next advances by exactly one |
| NavigationProperties.PrevMovesByOne | script.js:92-96 | outside a transition and after the first slide, prev goes back by exactly one |
| NavigationProperties.PerformPreservesInv | script.js:71-99 | every navigation command keeps the current slide inside the album |
| NavigationProperties.SwipeMovesByOne | script.js:59-67 | a swipe that changes anything was above the strict threshold and moved one slide, forward for a leftward drag and back for a rightward one |
| NavigationProperties.QualifyingSwipeNavigates | script.js:51-67 | outside a transition, a qualifying swipe with room to move navigates by one slide |
| NavigationProperties.SwipeThresholdExamples | script.js:62-65 | 60 across and 10 down navigates; 40 across, exactly 50 across, or more vertical than horizontal travel does not |
| NavigationProperties.KeyboardActsAsCommand | script.js:69-84 | each bound key acts exactly as its command, preceded by suppressing the default; unbound keys and keys during a transition do nothing |
| NavigationProperties.HomeAndEnd | script.js:77-78 | outside a transition, Home reaches slide 0 and End the last slide |
| NavigationProperties.RestartOnFirstSlide | script.js:29-31 | restarting while on slide 0 is accepted and shows the hearts again |
| NavigationProperties.SingleSlideCelebratesTwice | script.js:112-114 | on a one-slide album the only slide gets both hearts and confetti, and no music |
| NavigationProperties.DoubleTapSequence | script.js:281-288 | of two consecutive touches, the second is suppressed iff it ends within 300 ms of the first |
| OfflineCache.CacheName | service-worker.js:2-3 | the bucket name is the prefix album-cache- followed by exactly the version |
| OfflineCache.Open | service-worker.js:57 | opening gives the existing bucket, or an empty one when there is none |
| OfflineCache.AddAll | service-worker.js:21 | afterwards every URL holds its network response, and all other entries are kept |
| OfflineCache.ResolveAll | service-worker.js:21 | the manifest's paths, in order, each replaced by its resolved URL; every resolved URL comes from a manifest path |
| OfflineCache.AddManifest | service-worker.js:21 | `addAll` of the manifest succeeds iff the paths resolve to distinct URLs and every response is accepted; on success every resolved URL holds its response and the other entries are kept |
| OfflineCache.Install | service-worker.js:15-25 | install succeeds iff the manifest paths resolve to distinct URLs and `addAll` accepts every response; then every resolved manifest URL is in the version's bucket with its response and old entries of that bucket are kept; otherwise the bucket is left as opened; no other bucket changes |
| OfflineCache.Activate | service-worker.js:28-44 | after activation only the version's bucket can remain; it remains iff it existed, with its contents |
| OfflineCache.Persistable | service-worker.js:67-69 | a URL is persistable iff, ignoring case, it ends with one of the six image or two css/js extensions |
| OfflineCache.WritesBack | service-worker.js:65-72 | a response is written back iff it is a status-200 response to a persistable URL; failures and other statuses never are |
| OfflineCache.Fetch | service-worker.js:47-86 | cross-origin requests pass through untouched; a hit answers with the cached entry whatever the network does; a miss answers with the network response whatever its status, or with no response when the network fails |
| OfflineCache.OnMessage | service-worker.js:89-103 | CLEAR_CACHE leaves no buckets; every other message leaves storage unchanged; skip-waiting is requested iff the type is SKIP_WAITING |
| OfflineCacheProperties.CacheNameInjective | service-worker.js:2-3 | different versions name different buckets |
| OfflineCacheProperties.ShippedCacheName | service-worker.js:2-3 | the shipped bucket is album-cache-v1.0.0 |
| OfflineCacheProperties.ActivateIdempotent | service-worker.js:31-40 | activating twice equals activating once |
| OfflineCacheProperties.ActivateCleans | service-worker.js:31-40 | activation leaves only the current bucket, and a storage that has only that bucket is kept as is |
| OfflineCacheProperties.VersionBump | service-worker.js:2-44 | with a v1 bucket present, a successful install of v2 and its activation delete v1 and leave exactly the v2 bucket, holding every resolved manifest URL |
| OfflineCacheProperties.DuplicatePathRejected | service-worker.js:21 | a manifest that lists one path twice never installs, and stores nothing |
| OfflineCacheProperties.InstallFailureStoresNothing | service-worker.js:17-24 | an install with a 404 among the manifest responses fails and leaves the bucket as opened: an existing one unchanged, a missing one created empty |
| OfflineCacheProperties.FreshInstall | service-worker.js:6-21 | a successful install of the shipped worker into empty storage creates exactly album-cache-v1.0.0 holding exactly the five resolved static assets |
| OfflineCacheProperties.CleanPreserved | service-worker.js:15-103 | install, fetch and messages never create a bucket other than the current one |
| OfflineCacheProperties.CrossOriginUntouched | service-worker.js:52-54 | a cross-origin request is not intercepted and storage is unchanged |
| OfflineCacheProperties.FetchWriteBack | service-worker.js:62-73 | a same-origin fetch replaces exactly the request's entry when the network answered 200 for a persistable URL, and otherwise keeps the bucket's entries; no other bucket changes |
| OfflineCacheProperties.FetchWithoutWriteKeepsStorage | service-worker.js:57-73 | once the bucket exists, a fetch that writes nothing leaves storage unchanged |
| OfflineCacheProperties.RevalidateOnHit | service-worker.js:60-82 | on a hit, the stale entry is the answer while a 200 response to a persistable URL replaces it |
| OfflineCacheProperties.WrittenBackServesOffline | service-worker.js:59-82 | after a written-back fetch, the same request is answered from cache even when the network fails |
| OfflineCacheProperties.ErrorStatusNotStored | service-worker.js:65-74 | on a miss a non-200 response is returned but not stored |
| OfflineCacheProperties.ExtensionPersistable | service-worker.js:67-69 | any URL ending in one of the image, css or js extensions is written back |
| OfflineCacheProperties.PersistableLastChar | service-worker.js:67-69 | a written-back URL has at least 3 characters and ends, ignoring case, in g, f, p or s |
| OfflineCacheProperties.PersistedExamples | service-worker.js:67-69 | ./style.css, ./script.js and a .webp image are written back |
| OfflineCacheProperties.NotPersistedExamples | service-worker.js:67-69 | ./, ./index.html, the .m4a audio file and a.png?v=2 are never written back |
| OfflineCacheProperties.UpperCaseExtensionPersistable | service-worker.js:67 | the extension test ignores letter case (PHOTO.JPG is written back) |
| OfflineCacheProperties.NotPersistable | service-worker.js:67-69 | a URL whose last character is not g, f, p or s in any case is never written back |
| OfflineCacheProperties.NonPersistableEntryFrozen | service-worker.js:62-73 | a cached entry whose URL fails the filter (the page, the audio file) is never refreshed by any fetch |
| Text.EndsWithIgnoringCase | service-worker.js:67 | the character-by-character case-insensitive suffix match agrees with lower-casing both strings and comparing the tail |

## Left out

- Particle canvas, floating hearts and confetti elements (script.js:190-256): random
  floating-point rendering. Only the `Hearts` and `Confetti` effect tokens are modelled.
- Audio internals (script.js:129-153, 290-296): the `play()` promise, volume, the music
  button, the first-click autoplay and the visibility pause/resume are foreign async
  APIs. `musicPlaying` is kept as state but never changed by the model. `PlayMusic` is the
  call to `playMusic()`, including its missing-element guard.
- `IntersectionObserver` lazy loading and the `loaded` class (script.js:156-173),
  orientation handling, the indicator pulse animation and scroll smoothness: DOM plumbing.
  The `complete` flags are inputs.
- `ScrollTo(i)` stands for `scrollTo({left: innerWidth * i})`. The pixel offset is not modelled.
- `SetProgress(num, den)` carries the fraction; the floating-point percentage string
  written to the bar's width is not modelled.
- Touch coordinates are exact reals. Double-precision rounding of `clientX`/`clientY` is
  not modelled.
- The document `touchend` listener and the container `touchend` listener receive the same
  physical touch. The model takes them as two events, `TouchEnd` and `Swipe`.
- Key lookup is by own key of the action table. Inherited object properties are not
  modelled, because browsers produce no key value named like one.
- Real URL parsing and origin extraction (service-worker.js:49): the origin is a given
  string, and resolving manifest paths is the `resolve` parameter of `Install`.
- Request methods and `Vary` matching: a request is (origin, URL) and the bucket is keyed by URL.
- `waitUntil`, `respondWith`, `clients.claim`, `skipWaiting` and promise concurrency: each
  handler is one atomic step. Skip-waiting is reported as a flag: `installed` for the
  install handler, `skipWaiting` for the message handler.
- `cache.addAll` network errors and opaque or `Vary: *` responses: the network's answer to
  each manifest URL is the response `serve(url)`, checked only for its status.
- Console logging.
