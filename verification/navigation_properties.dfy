/** Properties of the navigation controller that relate its handlers to each other and to
    the controller's invariant. */
module NavigationProperties {

  import opened Wrappers
  import opened Navigation

  /** Every effect list of an accepted transition, characterised by membership. */
  lemma AcceptedTransitionEffects(album: Album, s: State, i: int)
    requires Accepts(album, s, i)
    ensures var r := GoToSlide(album, s, i);
      && r.effects[0] == ScrollTo(i)
      && SetIndicator(i + 1) in r.effects
      && SetProgress(i + 1, album.Count()) in r.effects
      && Preload(PreloadNearby(album, i)) in r.effects
      && Vibrate(10) in r.effects
      && (Hearts in r.effects <==> i == 0)
      && (Confetti in r.effects <==> i == album.Count() - 1)
      && (PlayMusic in r.effects <==> i > 0 && !s.musicPlaying)
      && PreventDefault !in r.effects
  {
    var s' := s.(scrolling := true, current := i);
    var head := [ScrollTo(i)] + UpdateUI(album, s') + [Preload(PreloadNearby(album, i))];
    var tail := Celebrate(album, s.musicPlaying, i);
    assert GoToSlide(album, s, i).effects == head + tail;
    assert Hearts !in head && Confetti !in head && PlayMusic !in head && PreventDefault !in head;
    assert SetIndicator(i + 1) in head && SetProgress(i + 1, album.Count()) in head;
  }

  /** The indicator and progress bar after an accepted transition: the page number is the
      slide's 1-based position, and the progress fraction is in (0, 1], reaching 1
      exactly on the last slide. */
  lemma ProgressAfterTransition(album: Album, s: State, i: int)
    requires Accepts(album, s, i)
    ensures var r := GoToSlide(album, s, i);
      && r.effects[1] == SetIndicator(r.state.current + 1)
      && r.effects[2].SetProgress?
      && 0 < r.effects[2].num <= r.effects[2].den
      && (r.effects[2].num == r.effects[2].den <==> r.state.current == album.Count() - 1)
  {
  }

  /** While a transition is in progress, no navigation input has any effect at all. */
  lemma TransitionBlocksNavigation(album: Album, s: State, e: Event)
    requires s.scrolling
    requires e.Swipe? || e.Key? || e.GoTo? || e.Next? || e.Prev? || e.TouchMove?
    ensures Step(album, s, e) == Outcome(s, [])
  {
  }

  /** Going to a valid slide and letting the transition settle leaves that slide current
      and the controller ready for the next transition. */
  lemma GoToThenSettle(album: Album, s: State, i: int)
    requires !s.scrolling && 0 <= i < album.Count()
    ensures var r := Run(album, s, [GoTo(i), Settle]);
      && r.state.current == i
      && !r.state.scrolling
      && |r.effects| > 0 && r.effects[0] == ScrollTo(i)
  {
    var first := Step(album, s, GoTo(i));
    assert [GoTo(i), Settle][1..] == [Settle];
    assert Run(album, first.state, [Settle]).state == first.state.(scrolling := false);
  }

  /** `nextSlide` moves forward by exactly one slide, unless already at the last one or a
      transition is running. */
  lemma NextMovesByOne(album: Album, s: State)
    requires Inv(album, s) && !s.scrolling && s.current < album.Count() - 1
    ensures NextSlide(album, s).state.current == s.current + 1
  {
  }

  /** `prevSlide` moves back by exactly one slide, unless already at the first one or a
      transition is running. */
  lemma PrevMovesByOne(album: Album, s: State)
    requires Inv(album, s) && !s.scrolling && s.current > 0
    ensures PrevSlide(album, s).state.current == s.current - 1
  {
  }

  /** Every command changes the current slide only to a slide of the album. */
  lemma PerformPreservesInv(album: Album, s: State, c: Command)
    requires Inv(album, s)
    ensures Inv(album, Perform(album, s, c).state)
  {
  }

  /** A swipe that changes the state was a strict-threshold horizontal gesture and moved
      the current slide by one: forward for a leftward drag, back for a rightward one. */
  lemma SwipeMovesByOne(album: Album, s: State, sx: real, sy: real, ex: real, ey: real)
    requires Inv(album, s)
    requires Step(album, s, Swipe(sx, sy, ex, ey)).state != s
    ensures Abs(sx - ex) > 50.0 && Abs(sx - ex) > Abs(sy - ey)
    ensures var c := Step(album, s, Swipe(sx, sy, ex, ey)).state.current;
      (sx > ex ==> c == s.current + 1) && (sx < ex ==> c == s.current - 1)
  {
  }

  /** Conversely, a qualifying swipe outside a transition, with room to move, navigates. */
  lemma QualifyingSwipeNavigates(album: Album, s: State, sx: real, sy: real, ex: real, ey: real)
    requires Inv(album, s) && !s.scrolling
    requires Abs(sx - ex) > 50.0 && Abs(sx - ex) > Abs(sy - ey)
    requires sx > ex ==> s.current < album.Count() - 1
    requires sx < ex ==> s.current > 0
    ensures var c := Step(album, s, Swipe(sx, sy, ex, ey)).state.current;
      (sx > ex ==> c == s.current + 1) && (sx < ex ==> c == s.current - 1)
  {
  }

  /** Threshold examples: 60 px across and 10 px down navigates; 40 px or exactly 50 px
      across does not. */
  lemma SwipeThresholdExamples()
    ensures SwipeCommand(200.0, 100.0, 140.0, 110.0) == Some(GoNext)
    ensures SwipeCommand(140.0, 100.0, 200.0, 90.0) == Some(GoPrev)
    ensures SwipeCommand(200.0, 100.0, 160.0, 100.0) == None
    ensures SwipeCommand(200.0, 100.0, 150.0, 100.0) == None
    ensures SwipeCommand(200.0, 100.0, 130.0, 180.0) == None
  {
  }

  /** Bound keys act as their commands do, after suppressing the default; unbound keys and
      keys during a transition do nothing at all. */
  lemma KeyboardActsAsCommand(album: Album, s: State, key: string)
    ensures var r := HandleKeyboard(album, s, key);
      && (!s.scrolling && (key == "ArrowLeft" || key == "ArrowUp") ==>
            r == Outcome(PrevSlide(album, s).state, [PreventDefault] + PrevSlide(album, s).effects))
      && (!s.scrolling && (key == "ArrowRight" || key == "ArrowDown" || key == " ") ==>
            r == Outcome(NextSlide(album, s).state, [PreventDefault] + NextSlide(album, s).effects))
      && (!s.scrolling && key == "Home" ==>
            r == Outcome(GoToSlide(album, s, 0).state, [PreventDefault] + GoToSlide(album, s, 0).effects))
      && (!s.scrolling && key == "End" ==>
            r == Outcome(GoToSlide(album, s, album.Count() - 1).state,
                         [PreventDefault] + GoToSlide(album, s, album.Count() - 1).effects))
      && (s.scrolling ==> r == Outcome(s, []))
      && (key !in {"ArrowLeft", "ArrowUp", "ArrowRight", "ArrowDown", " ", "Home", "End"} ==>
            r == Outcome(s, []))
  {
  }

  /** Home and End reach the first and last slide from anywhere, outside a transition. */
  lemma HomeAndEnd(album: Album, s: State)
    requires !s.scrolling && album.Count() > 0
    ensures HandleKeyboard(album, s, "Home").state.current == 0
    ensures HandleKeyboard(album, s, "End").state.current == album.Count() - 1
  {
  }

  /** The restart button's `goToSlide(0)` is accepted even when slide 0 is already
      current, and then shows the hearts again. */
  lemma RestartOnFirstSlide(album: Album, s: State)
    requires !s.scrolling && album.Count() > 0 && s.current == 0
    ensures GoToSlide(album, s, 0).effects != []
    ensures Hearts in GoToSlide(album, s, 0).effects
  {
    AcceptedTransitionEffects(album, s, 0);
  }

  /** On a one-slide album the only slide is both first and last: both celebrations. */
  lemma SingleSlideCelebratesTwice(album: Album, s: State)
    requires !s.scrolling && album.Count() == 1
    ensures Hearts in GoToSlide(album, s, 0).effects
    ensures Confetti in GoToSlide(album, s, 0).effects
    ensures PlayMusic !in GoToSlide(album, s, 0).effects
  {
    AcceptedTransitionEffects(album, s, 0);
  }

  /** Two touches: the second one's default is suppressed exactly when it ends within
      300 ms of the first, whatever happened before the first. */
  lemma {:induction false} DoubleTapSequence(album: Album, s: State, t1: int, t2: int)
    ensures var r := Run(album, s, [TouchEnd(t1), TouchEnd(t2)]);
      && r.state == s.(lastTouch := t2)
      && (PreventDefault in r.effects[|Step(album, s, TouchEnd(t1)).effects|..] <==> t2 - t1 <= 300)
  {
    var first := Step(album, s, TouchEnd(t1));
    var events := [TouchEnd(t1), TouchEnd(t2)];
    assert events[1..] == [TouchEnd(t2)];
    var second := Step(album, first.state, TouchEnd(t2));
    assert Run(album, first.state, [TouchEnd(t2)]) == Outcome(second.state, second.effects + []);
    var r := Run(album, s, events);
    assert r.effects == first.effects + second.effects;
    assert r.effects[|first.effects|..] == second.effects;
  }
}
