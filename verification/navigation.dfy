/** The album page's navigation controller (script.js): the current slide, a guard flag
    that serialises slide transitions, and the translation of touch, keyboard and button
    input into navigation. Every handler is a pure function from the state and one input
    event to the next state and the list of effects the page performs, in order. */
module Navigation {

  import opened Wrappers

  /** What preloading needs to know of a slide: whether it holds an image element and,
      if so, whether the browser has finished loading it (`img.complete`). The flags are
      an input to each step; `Run` passes one album to every step, so they are fixed for
      the length of a run. */
  datatype Slide = NoImage | Image(complete: bool)

  /** The slides of the page, in document order; their number never changes. */
  datatype Album = Album(slides: seq<Slide>)
  {
    function Count(): nat { |slides| }
  }

  /** The controller's mutable record. `lastTouch` is the time (ms) of the previous
      `touchend` seen by the double-tap guard. */
  datatype State = State(current: int, scrolling: bool, musicPlaying: bool, lastTouch: int)

  /** Observable effects, in the order the handler performs them.
      `SetProgress(num, den)` sets the progress bar to `num / den * 100` percent;
      `Preload(ix)` starts loading the images of the slides `ix`. */
  datatype Effect =
    | ScrollTo(index: int)
    | SetIndicator(page: int)
    | SetProgress(num: int, den: int)
    | Preload(indices: set<int>)
    | PlayMusic
    | Hearts
    | Confetti
    | Vibrate(ms: int)
    | PreventDefault

  /** Input events. `Swipe` is the container's `touchend` with the recorded start point;
      `TouchMove` a `touchmove` with the start point and the current point; `Next`,
      `Prev` and `GoTo` direct calls (the restart button is `GoTo(0)`); `Settle` the
      600 ms timer armed by an accepted transition; `TouchEnd(now)` the document-level
      `touchend` seen by the double-tap guard, with `Date.now()`. */
  datatype Event =
    | Swipe(startX: real, startY: real, endX: real, endY: real)
    | TouchMove(fromX: real, fromY: real, x: real, y: real)
    | Key(key: string)
    | GoTo(index: int)
    | Next
    | Prev
    | Settle
    | TouchEnd(now: int)

  datatype Outcome = Outcome(state: State, effects: seq<Effect>)

  /** Navigation commands a key can be bound to. */
  datatype Command = GoPrev | GoNext | GoFirst | GoLast

  /** A swipe must move strictly further than this, horizontally. */
  const MinSwipe: real := 50.0
  /** Duration of the haptic pulse of every accepted transition. */
  const VibrateMs: int := 10
  /** Two touches at most this far apart (ms) count as a double tap. */
  const DoubleTapMs: int := 300
  /** Number of leading slides whose images are fetched eagerly at start-up. */
  const EagerCount: nat := 3

  function Abs(x: real): real { if x < 0.0 then -x else x }

  function Min(a: int, b: int): int { if a <= b then a else b }

  /** Slide `i` exists, has an image, and that image is not loaded yet. */
  predicate Pending(album: Album, i: int)
  {
    0 <= i < album.Count() && album.slides[i] == Image(false)
  }

  /** The controller's standing invariant: the current slide is a slide of the album
      (or 0 on an empty album, where the page starts). */
  predicate Inv(album: Album, s: State)
  {
    0 <= s.current && (s.current < album.Count() || s.current == 0)
  }

  /** The state the page starts in. */
  function InitialState(): State
  {
    State(0, false, false, 0)
  }

  /** The candidates, in order, whose images would be requested: those that are pending. */
  function PendingAmong(album: Album, candidates: seq<int>): (r: set<int>)
    ensures forall j :: j in r <==> j in candidates && Pending(album, j)
    ensures |r| <= |candidates|
    decreases |candidates|
  {
    if candidates == [] then {}
    else
      var rest := PendingAmong(album, candidates[1..]);
      assert forall j :: j in candidates <==> j == candidates[0] || j in candidates[1..];
      if Pending(album, candidates[0]) then {candidates[0]} + rest else rest
  }

  /** Preloading around a target slide: the neighbours and the slide itself. */
  function PreloadNearby(album: Album, index: int): (r: set<int>)
    ensures forall j :: j in r <==> index - 1 <= j <= index + 1 && Pending(album, j)
    ensures forall j :: j in r ==> 0 <= j < album.Count()
    ensures |r| <= 3
  {
    PendingAmong(album, [index - 1, index, index + 1])
  }

  /** The page indicator and progress bar for the state's current slide. */
  function UpdateUI(album: Album, s: State): (r: seq<Effect>)
    ensures |r| == 2
    ensures r[0].SetIndicator? && r[0].page == s.current + 1
    ensures r[1].SetProgress? && r[1].num == s.current + 1 && r[1].den == album.Count()
  {
    [SetIndicator(s.current + 1), SetProgress(s.current + 1, album.Count())]
  }

  /** The tail of an accepted transition: music on any slide past the first while none
      plays, hearts on the first slide, confetti on the last (both on a one-slide album),
      and always the haptic pulse. */
  function Celebrate(album: Album, musicPlaying: bool, index: int): (r: seq<Effect>)
    ensures PlayMusic in r <==> index > 0 && !musicPlaying
    ensures Hearts in r <==> index == 0
    ensures Confetti in r <==> index == album.Count() - 1
    ensures Vibrate(VibrateMs) in r
    ensures PreventDefault !in r
  {
    (if index > 0 && !musicPlaying then [PlayMusic] else [])
    + (if index == 0 then [Hearts] else [])
    + (if index == album.Count() - 1 then [Confetti] else [])
    + [Vibrate(VibrateMs)]
  }

  /** `goToSlide` accepts a target only between transitions, and only inside the album. */
  predicate Accepts(album: Album, s: State, index: int)
  {
    !s.scrolling && 0 <= index < album.Count()
  }

  /** `goToSlide(index)`. A rejected call does nothing at all; an accepted one (the
      current slide included, which the restart button relies on) starts a transition. */
  function GoToSlide(album: Album, s: State, index: int): (r: Outcome)
    ensures r.effects == [] <==> !Accepts(album, s, index)
    ensures !Accepts(album, s, index) ==> r.state == s
    ensures Accepts(album, s, index) ==>
      && r.state.current == index
      && r.state.scrolling
      && r.state.musicPlaying == s.musicPlaying
      && r.state.lastTouch == s.lastTouch
      && r.effects[0] == ScrollTo(index)
    ensures PreventDefault !in r.effects
  {
    if s.scrolling || index < 0 || index >= album.Count() then Outcome(s, [])
    else
      var s' := s.(scrolling := true, current := index);
      Outcome(s',
        [ScrollTo(index)]
        + UpdateUI(album, s')
        + [Preload(PreloadNearby(album, index))]
        + Celebrate(album, s.musicPlaying, index))
  }

  /** `nextSlide()`: nothing past the last slide. */
  function NextSlide(album: Album, s: State): (r: Outcome)
    ensures s.current >= album.Count() - 1 ==> r == Outcome(s, [])
  {
    if s.current < album.Count() - 1 then GoToSlide(album, s, s.current + 1) else Outcome(s, [])
  }

  /** `prevSlide()`: nothing before the first slide. */
  function PrevSlide(album: Album, s: State): (r: Outcome)
    ensures s.current <= 0 ==> r == Outcome(s, [])
  {
    if s.current > 0 then GoToSlide(album, s, s.current - 1) else Outcome(s, [])
  }

  /** Runs a navigation command. */
  function Perform(album: Album, s: State, c: Command): Outcome
  {
    match c
    case GoPrev => PrevSlide(album, s)
    case GoNext => NextSlide(album, s)
    case GoFirst => GoToSlide(album, s, 0)
    case GoLast => GoToSlide(album, s, album.Count() - 1)
  }

  /** The keyboard table: arrows, space, Home and End; every other key is unbound. */
  function KeyBinding(key: string): (r: Option<Command>)
    ensures r == Some(GoPrev) <==> key == "ArrowLeft" || key == "ArrowUp"
    ensures r == Some(GoNext) <==> key == "ArrowRight" || key == "ArrowDown" || key == " "
    ensures r == Some(GoFirst) <==> key == "Home"
    ensures r == Some(GoLast) <==> key == "End"
  {
    if key == "ArrowLeft" || key == "ArrowUp" then Some(GoPrev)
    else if key == "ArrowRight" || key == "ArrowDown" || key == " " then Some(GoNext)
    else if key == "Home" then Some(GoFirst)
    else if key == "End" then Some(GoLast)
    else None
  }

  /** `handleKeyboard`: ignored entirely during a transition; a bound key suppresses the
      browser's default before running its command. */
  function HandleKeyboard(album: Album, s: State, key: string): (r: Outcome)
    ensures s.scrolling || KeyBinding(key).None? ==> r == Outcome(s, [])
    ensures !s.scrolling && KeyBinding(key).Some? ==>
      |r.effects| > 0 && r.effects[0] == PreventDefault
  {
    if s.scrolling then Outcome(s, [])
    else
      match KeyBinding(key)
      case None => Outcome(s, [])
      case Some(c) =>
        var o := Perform(album, s, c);
        Outcome(o.state, [PreventDefault] + o.effects)
  }

  /** The direction `handleSwipe` reads from a gesture: none unless the horizontal travel
      is strictly above the threshold and strictly above the vertical travel; a drag to
      the left (start right of end) means next. */
  function SwipeCommand(startX: real, startY: real, endX: real, endY: real): (r: Option<Command>)
    ensures r.Some? <==> Abs(startX - endX) > MinSwipe && Abs(startX - endX) > Abs(startY - endY)
    ensures r == Some(GoNext) <==> r.Some? && startX > endX
    ensures r == Some(GoPrev) <==> r.Some? && startX < endX
  {
    var deltaX := startX - endX;
    var deltaY := Abs(startY - endY);
    if Abs(deltaX) > MinSwipe && Abs(deltaX) > deltaY then
      (if deltaX > 0.0 then Some(GoNext) else Some(GoPrev))
    else None
  }

  /** The container's `touchend` handler followed by `handleSwipe`. The listener is
      passive: it never suppresses the browser's default. */
  function HandleSwipe(album: Album, s: State, startX: real, startY: real, endX: real, endY: real): (r: Outcome)
    ensures s.scrolling || SwipeCommand(startX, startY, endX, endY).None? ==> r == Outcome(s, [])
    ensures SwipeCommand(startX, startY, endX, endY) == Some(GoNext) ==> r == NextSlide(album, s) || s.scrolling
    ensures SwipeCommand(startX, startY, endX, endY) == Some(GoPrev) ==> r == PrevSlide(album, s) || s.scrolling
    ensures PreventDefault !in r.effects
  {
    if s.scrolling then Outcome(s, [])
    else
      match SwipeCommand(startX, startY, endX, endY)
      case None => Outcome(s, [])
      case Some(c) => Perform(album, s, c)
  }

  /** The container's `touchmove` handler: outside a transition, a mostly horizontal move
      suppresses the browser's own scrolling. */
  function HandleTouchMove(s: State, fromX: real, fromY: real, x: real, y: real): (r: Outcome)
    ensures r.state == s
    ensures r.effects == [PreventDefault] <==> !s.scrolling && Abs(x - fromX) > Abs(y - fromY)
    ensures r.effects != [PreventDefault] ==> r.effects == []
  {
    if s.scrolling then Outcome(s, [])
    else if Abs(x - fromX) > Abs(y - fromY) then Outcome(s, [PreventDefault])
    else Outcome(s, [])
  }

  /** `preventDoubleTapZoom`: a touch ending within 300 ms of the previous one has its
      default (zooming) suppressed; every touch becomes the new previous one. */
  function DoubleTapGuard(s: State, now: int): (r: Outcome)
    ensures r.state == s.(lastTouch := now)
    ensures r.effects == [PreventDefault] <==> now - s.lastTouch <= DoubleTapMs
    ensures r.effects != [PreventDefault] ==> r.effects == []
  {
    Outcome(s.(lastTouch := now), if now - s.lastTouch <= DoubleTapMs then [PreventDefault] else [])
  }

  /** One event, dispatched to its handler. Every event keeps the current slide inside
      the album, and a running transition is ended by its settle timer and by nothing else. */
  function Step(album: Album, s: State, e: Event): (r: Outcome)
    ensures Inv(album, s) ==> Inv(album, r.state)
    ensures e.Settle? ==> !r.state.scrolling && r.effects == []
    ensures s.scrolling && !e.Settle? ==> r.state.scrolling
  {
    match e
    case Swipe(sx, sy, ex, ey) => HandleSwipe(album, s, sx, sy, ex, ey)
    case TouchMove(fx, fy, x, y) => HandleTouchMove(s, fx, fy, x, y)
    case Key(k) => HandleKeyboard(album, s, k)
    case GoTo(i) => GoToSlide(album, s, i)
    case Next => NextSlide(album, s)
    case Prev => PrevSlide(album, s)
    case Settle => Outcome(s.(scrolling := false), [])
    case TouchEnd(now) => DoubleTapGuard(s, now)
  }

  /** A sequence of events applied in order; the effects are concatenated. Any sequence
      keeps the current slide inside the album, and a transition in progress is still in
      progress after any sequence without a settle event. */
  function Run(album: Album, s: State, events: seq<Event>): (r: Outcome)
    ensures Inv(album, s) ==> Inv(album, r.state)
    ensures s.scrolling && (forall i :: 0 <= i < |events| ==> !events[i].Settle?) ==> r.state.scrolling
    decreases |events|
  {
    if events == [] then Outcome(s, [])
    else
      var first := Step(album, s, events[0]);
      var rest := Run(album, first.state, events[1..]);
      Outcome(rest.state, first.effects + rest.effects)
  }

  /** The eager preload loop of `setupImages`: the first three slides (fewer on a short
      album) whose images are not loaded yet. */
  method EagerPreload(album: Album) returns (targets: set<int>)
    ensures forall j :: j in targets <==> 0 <= j < EagerCount && Pending(album, j)
    ensures forall j :: j in targets ==> 0 <= j < Min(EagerCount, album.Count())
  {
    targets := {};
    var i := 0;
    var bound := Min(EagerCount, album.Count());
    while i < bound
      invariant 0 <= i <= bound
      invariant forall j :: j in targets <==> 0 <= j < i && Pending(album, j)
    {
      if album.slides[i] == Image(false) {
        targets := targets + {i};
      }
      i := i + 1;
    }
  }

  /** Page start-up (`init`): the eager preload, then the indicator and progress bar for
      the first slide, from the initial state. */
  method Init(album: Album) returns (o: Outcome)
    ensures o.state == InitialState()
    ensures Inv(album, o.state)
    ensures |o.effects| == 3
    ensures o.effects[0].Preload?
    ensures forall j :: j in o.effects[0].indices <==> 0 <= j < EagerCount && Pending(album, j)
    ensures o.effects[1] == SetIndicator(1)
    ensures o.effects[2] == SetProgress(1, album.Count())
  {
    var eager := EagerPreload(album);
    var s := InitialState();
    o := Outcome(s, [Preload(eager)] + UpdateUI(album, s));
  }
}
