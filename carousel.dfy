/** The carousel controller (src/app/components/carousel/carousel.component.ts):
    the looping track with phantom boundary slides, the index / animation state
    machine with its two-frame silent re-anchor, autoplay and the drag / swipe
    handlers. */
module Carousel {
  import opened Wrappers
  import opened SlideModel
  import opened CarouselGesture

  /** The track: a phantom copy of the last slide, the slides, and a phantom
      copy of the first slide; empty when there are no slides. */
  function DisplaySlides<T>(s: seq<T>): (r: seq<T>)
    ensures |s| == 0 ==> r == []
    ensures |s| > 0 ==> |r| == |s| + 2 && r[0] == s[|s| - 1] && r[|s| + 1] == s[0]
    ensures |s| > 0 ==> forall i :: 1 <= i <= |s| ==> r[i] == s[i - 1]
  {
    if |s| == 0 then [] else [s[|s| - 1]] + s + [s[0]]
  }

  /** The real slide shown at track position `idx` when there are `total`
      slides: phantom 0 is the last slide, phantom `total + 1` the first. */
  function RealSlideIndex(idx: int, total: nat): (r: int)
    ensures total >= 1 && 0 <= idx <= total + 1 ==> 0 <= r < total && r == (idx - 1) % total
  {
    if idx == 0 then total - 1
    else if idx == total + 1 then 0
    else idx - 1
  }

  /** Every track position shows the real slide that `RealSlideIndex` names. */
  lemma DisplayShowsRealSlide<T>(s: seq<T>, idx: int)
    requires |s| >= 1 && 0 <= idx <= |s| + 1
    ensures DisplaySlides(s)[idx] == s[RealSlideIndex(idx, |s|)]
  {
  }

  /** Where the silent re-anchor moves the index after a transition ends at
      `idx`: from phantom 0 to the last real slot `total`, from phantom
      `total + 1` to the first real slot 1, and nowhere from any other slot. */
  function ReanchorTarget(idx: int, total: nat): (r: Option<int>)
    ensures r.Some? <==> idx == 0 || idx == total + 1
    ensures total >= 1 && r.Some? ==>
      1 <= r.value <= total && RealSlideIndex(r.value, total) == RealSlideIndex(idx, total)
  {
    if idx == 0 then Some(total)
    else if idx == total + 1 then Some(1)
    else None
  }

  /** The re-anchor is invisible: the real slot it jumps to shows the same
      slide as the phantom slot it leaves. */
  lemma ReanchorShowsSameSlide<T>(s: seq<T>, idx: int)
    requires |s| >= 1 && ReanchorTarget(idx, |s|).Some?
    ensures DisplaySlides(s)[ReanchorTarget(idx, |s|).value] == DisplaySlides(s)[idx]
  {
    var t := ReanchorTarget(idx, |s|).value;
    DisplayShowsRealSlide(s, idx);
    DisplayShowsRealSlide(s, t);
  }

  /** The index the carousel rests at after a transition ends at `idx`. */
  function Settle(idx: int, total: nat): int {
    match ReanchorTarget(idx, total)
    case Some(t) => t
    case None => idx
  }

  /** From a real slot, one step forward or back followed by the end of its
      transition rests on a real slot again, and the real slide shown has
      advanced (or retreated) by one, wrapping around. */
  lemma SettledStep(i: int, n: nat, forward: bool)
    requires n >= 1 && 1 <= i <= n
    ensures var k := Settle(if forward then i + 1 else i - 1, n);
      && 1 <= k <= n
      && RealSlideIndex(k, n) == (RealSlideIndex(i, n) + (if forward then 1 else -1)) % n
  {
    var j := if forward then i + 1 else i - 1;
    assert RealSlideIndex(Settle(j, n), n) == RealSlideIndex(j, n) == (j - 1) % n;
  }

  /** The deferred animation-frame callbacks of the silent re-anchor. */
  datatype FramePhase =
    | NoFrame
      /** The first frame will snap the index to `target`. */
    | AwaitFrame1(target: int)
      /** The second frame will re-enable transitions and end the animation. */
    | AwaitFrame2

  /** Every field of the component at one moment. */
  datatype CarouselState = CarouselState(
    slides: seq<Slide>,
    loading: bool,
    currentIndex: int,
    isAnimating: bool,
    dragOffsetPct: real,
    transitionDisabled: bool,
    swipeHappened: bool,
    autoplayTimerId: Option<nat>,
    nextTimerId: nat,
    pending: FramePhase)

  class CarouselComponent {
    var slides: seq<Slide>
    var loading: bool
    var currentIndex: int
    var isAnimating: bool
    var dragOffsetPct: real
    var transitionDisabled: bool
    var swipeHappened: bool
    /** The id of the running autoplay interval timer, if any. */
    var autoplayTimerId: Option<nat>
    /** The id the next `setInterval` will hand out. */
    var nextTimerId: nat
    var pending: FramePhase

    function Snapshot(): CarouselState
      reads this
    {
      CarouselState(slides, loading, currentIndex, isAnimating, dragOffsetPct,
        transitionDisabled, swipeHappened, autoplayTimerId, nextTimerId, pending)
    }

    /** Timer ids are never reused: a running timer's id was handed out before. */
    ghost predicate Valid()
      reads this
    {
      autoplayTimerId.Some? ==> autoplayTimerId.value < nextTimerId
    }

    /** No transition and no re-anchor in progress. */
    predicate AtRest()
      reads this
    {
      !isAnimating && pending == NoFrame
    }

    predicate AutoplayRunning()
      reads this
    {
      autoplayTimerId.Some?
    }

    function DisplayTrack(): seq<Slide>
      reads this
    {
      DisplaySlides(slides)
    }

    function RealIndex(): int
      reads this
    {
      RealSlideIndex(currentIndex, |slides|)
    }

    constructor ()
      ensures Valid()
      ensures Snapshot() == CarouselState([], true, 1, false, 0.0, false, false, None, 0, NoFrame)
    {
      slides := [];
      loading := true;
      currentIndex := 1;
      isAnimating := false;
      dragOffsetPct := 0.0;
      transitionDisabled := false;
      swipeHappened := false;
      autoplayTimerId := None;
      nextTimerId := 0;
      pending := NoFrame;
    }

    /** The slide list arrived: store it and start autoplay. */
    method OnSlidesLoaded(s: seq<Slide>)
      requires Valid()
      modifies this
      ensures Valid()
      ensures Snapshot() == old(Snapshot()).(slides := s, loading := false,
        autoplayTimerId := Some(old(nextTimerId)), nextTimerId := old(nextTimerId) + 1)
    {
      slides := s;
      loading := false;
      StartAutoplay();
    }

    /** Teardown stops the autoplay timer. */
    method OnDestroy()
      requires Valid()
      modifies this
      ensures Valid()
      ensures Snapshot() == old(Snapshot()).(autoplayTimerId := None)
    {
      StopAutoplay();
    }

    /** Cancels any running timer and schedules a fresh one. */
    method StartAutoplay()
      requires Valid()
      modifies this
      ensures Valid()
      ensures Snapshot() == old(Snapshot()).(autoplayTimerId := Some(old(nextTimerId)),
        nextTimerId := old(nextTimerId) + 1)
    {
      StopAutoplay();
      autoplayTimerId := Some(nextTimerId);
      nextTimerId := nextTimerId + 1;
    }

    method StopAutoplay()
      requires Valid()
      modifies this
      ensures Valid()
      ensures Snapshot() == old(Snapshot()).(autoplayTimerId := None)
    {
      if autoplayTimerId.Some? {
        autoplayTimerId := None;
      }
    }

    method ResetAutoplay()
      requires Valid()
      modifies this
      ensures Valid()
      ensures Snapshot() == old(Snapshot()).(autoplayTimerId := Some(old(nextTimerId)),
        nextTimerId := old(nextTimerId) + 1)
    {
      StartAutoplay();
    }

    /** One firing of the interval timer `id`: advance unless animating or
        there is at most one slide. A timer that was cleared, or replaced by
        a newer one, never fires, so a tick of any other id does nothing. */
    method AutoplayTick(id: nat)
      requires Valid()
      modifies this
      ensures Valid()
      ensures old(autoplayTimerId == Some(id) && !isAnimating && |slides| > 1) ==>
        Snapshot() == old(Snapshot()).(isAnimating := true, currentIndex := old(currentIndex) + 1)
      ensures !old(autoplayTimerId == Some(id) && !isAnimating && |slides| > 1) ==>
        Snapshot() == old(Snapshot())
    {
      if autoplayTimerId != Some(id) {
        return;
      }
      if !isAnimating && |slides| > 1 {
        GoToNextAuto();
      }
    }

    /** The rendering layer reports that the track transition finished. On a
        phantom slot this disables transitions and schedules the re-anchor;
        elsewhere it ends the animation. */
    method OnTransitionEnd()
      requires Valid() && pending == NoFrame
      modifies this
      ensures Valid()
      ensures ReanchorTarget(old(currentIndex), |slides|).Some? ==>
        Snapshot() == old(Snapshot()).(transitionDisabled := true,
          pending := AwaitFrame1(ReanchorTarget(old(currentIndex), |slides|).value))
      ensures ReanchorTarget(old(currentIndex), |slides|).None? ==>
        Snapshot() == old(Snapshot()).(dragOffsetPct := 0.0, isAnimating := false)
    {
      var total := |slides|;
      var idx := currentIndex;
      if idx == 0 {
        transitionDisabled := true;
        pending := AwaitFrame1(total);
        return;
      } else if idx == total + 1 {
        transitionDisabled := true;
        pending := AwaitFrame1(1);
        return;
      }
      dragOffsetPct := 0.0;
      isAnimating := false;
    }

    /** First deferred frame: snap to the real slot, zero the offset and
        schedule the second frame. */
    method Frame1()
      requires Valid() && pending.AwaitFrame1?
      modifies this
      ensures Valid()
      ensures Snapshot() == old(Snapshot()).(currentIndex := old(pending).target,
        dragOffsetPct := 0.0, pending := AwaitFrame2)
    {
      currentIndex := pending.target;
      dragOffsetPct := 0.0;
      pending := AwaitFrame2;
    }

    /** Second deferred frame: re-enable transitions and end the animation. */
    method Frame2()
      requires Valid() && pending.AwaitFrame2?
      modifies this
      ensures Valid()
      ensures Snapshot() == old(Snapshot()).(transitionDisabled := false,
        isAnimating := false, pending := NoFrame)
    {
      transitionDisabled := false;
      isAnimating := false;
      pending := NoFrame;
    }

    /** Jumps to any index, without a range check. */
    method GoToSlide(index: int)
      requires Valid()
      modifies this
      ensures Valid()
      ensures !old(isAnimating) ==> Snapshot() == old(Snapshot()).(isAnimating := true,
        currentIndex := index,
        autoplayTimerId := Some(old(nextTimerId)), nextTimerId := old(nextTimerId) + 1)
      ensures old(isAnimating) ==> Snapshot() == old(Snapshot())
    {
      if isAnimating {
        return;
      }
      isAnimating := true;
      currentIndex := index;
      ResetAutoplay();
    }

    /** The autoplay step: like GoToNext but leaves the timer alone. */
    method GoToNextAuto()
      requires Valid()
      modifies this
      ensures Valid()
      ensures !old(isAnimating) && |slides| > 0 ==>
        Snapshot() == old(Snapshot()).(isAnimating := true, currentIndex := old(currentIndex) + 1)
      ensures old(isAnimating) || |slides| == 0 ==> Snapshot() == old(Snapshot())
    {
      var total := |slides|;
      if total == 0 || isAnimating {
        return;
      }
      isAnimating := true;
      currentIndex := currentIndex + 1;
    }

    method GoToNext()
      requires Valid()
      modifies this
      ensures Valid()
      ensures !old(isAnimating) && |slides| > 0 ==>
        Snapshot() == old(Snapshot()).(isAnimating := true, currentIndex := old(currentIndex) + 1,
          autoplayTimerId := Some(old(nextTimerId)), nextTimerId := old(nextTimerId) + 1)
      ensures old(isAnimating) || |slides| == 0 ==> Snapshot() == old(Snapshot())
    {
      var total := |slides|;
      if total == 0 || isAnimating {
        return;
      }
      isAnimating := true;
      currentIndex := currentIndex + 1;
      ResetAutoplay();
    }

    method GoToPrev()
      requires Valid()
      modifies this
      ensures Valid()
      ensures !old(isAnimating) && |slides| > 0 ==>
        Snapshot() == old(Snapshot()).(isAnimating := true, currentIndex := old(currentIndex) - 1,
          autoplayTimerId := Some(old(nextTimerId)), nextTimerId := old(nextTimerId) + 1)
      ensures old(isAnimating) || |slides| == 0 ==> Snapshot() == old(Snapshot())
    {
      var total := |slides|;
      if total == 0 || isAnimating {
        return;
      }
      isAnimating := true;
      currentIndex := currentIndex - 1;
      ResetAutoplay();
    }

    /** A drag begins: freeze the track under the finger and pause autoplay. */
    method OnDragStart()
      requires Valid()
      modifies this
      ensures Valid()
      ensures !old(isAnimating) ==> Snapshot() == old(Snapshot()).(swipeHappened := false,
        transitionDisabled := true, dragOffsetPct := 0.0, autoplayTimerId := None)
      ensures old(isAnimating) ==> Snapshot() == old(Snapshot())
    {
      if isAnimating {
        return;
      }
      swipeHappened := false;
      transitionDisabled := true;
      dragOffsetPct := 0.0;
      StopAutoplay();
    }

    method OnDragMove(offsetPct: real)
      requires Valid()
      modifies this
      ensures Valid()
      ensures !old(isAnimating) ==> Snapshot() == old(Snapshot()).(dragOffsetPct := offsetPct)
      ensures old(isAnimating) ==> Snapshot() == old(Snapshot())
    {
      if isAnimating {
        return;
      }
      dragOffsetPct := offsetPct;
    }

    /** A recognised swipe: animate one step in its direction. */
    method OnSwipe(direction: SwipeDirection)
      requires Valid()
      modifies this
      ensures Valid()
      ensures !old(isAnimating) ==> Snapshot() == old(Snapshot()).(swipeHappened := true,
        isAnimating := true, transitionDisabled := false, dragOffsetPct := 0.0,
        currentIndex := old(currentIndex) + (if direction == Prev then -1 else 1),
        autoplayTimerId := Some(old(nextTimerId)), nextTimerId := old(nextTimerId) + 1)
      ensures old(isAnimating) ==> Snapshot() == old(Snapshot())
    {
      if isAnimating {
        return;
      }
      swipeHappened := true;
      isAnimating := true;
      transitionDisabled := false;
      dragOffsetPct := 0.0;
      if direction == Prev {
        currentIndex := currentIndex - 1;
      } else {
        currentIndex := currentIndex + 1;
      }
      ResetAutoplay();
    }

    /** A drag ended (with or without a swipe). Not gated by `isAnimating`. */
    method OnDragEnd()
      requires Valid()
      modifies this
      ensures Valid()
      ensures !old(swipeHappened) ==> Snapshot() == old(Snapshot()).(dragOffsetPct := 0.0,
        transitionDisabled := false,
        autoplayTimerId := Some(old(nextTimerId)), nextTimerId := old(nextTimerId) + 1)
      ensures old(swipeHappened) ==> Snapshot() == old(Snapshot()).(dragOffsetPct := 0.0,
        transitionDisabled := false)
    {
      dragOffsetPct := 0.0;
      transitionDisabled := false;
      if !swipeHappened {
        StartAutoplay();
      }
    }
  }

  /** Every navigation entry point, and the drag-start / drag-move handlers,
      leave the whole state unchanged while an animation runs. */
  method NavigationIgnoredWhileAnimating(c: CarouselComponent, index: int, d: SwipeDirection, offsetPct: real, id: nat)
    requires c.Valid() && c.isAnimating
    modifies c
    ensures c.Snapshot() == old(c.Snapshot())
  {
    c.GoToSlide(index);
    c.GoToNext();
    c.GoToPrev();
    c.GoToNextAuto();
    c.AutoplayTick(id);
    c.OnSwipe(d);
    c.OnDragStart();
    c.OnDragMove(offsetPct);
  }

  /** The rendering layer ends a transition and, when that schedules a
      re-anchor, both of its frames run: the carousel comes to rest at
      `Settle` of the index it was animating to, with the offset zeroed and,
      after a re-anchor, transitions enabled again. */
  method CompleteTransition(c: CarouselComponent)
    requires c.Valid() && c.pending == NoFrame
    modifies c
    ensures c.Valid() && c.AtRest()
    ensures c.Snapshot() == old(c.Snapshot()).(
      currentIndex := Settle(old(c.currentIndex), |c.slides|),
      isAnimating := false, dragOffsetPct := 0.0,
      transitionDisabled := old(c.transitionDisabled) && ReanchorTarget(old(c.currentIndex), |c.slides|).None?)
  {
    c.OnTransitionEnd();
    if c.pending.AwaitFrame1? {
      c.Frame1();
      c.Frame2();
    }
  }

  /** From rest on a real slot, an accepted step followed by the end of its
      transition (and the re-anchor frames, when one is scheduled) returns to
      rest on a real slot, showing the neighbouring slide; the autoplay timer
      has been restarted. */
  method StepAndSettle(c: CarouselComponent, forward: bool)
    requires c.Valid() && c.AtRest()
    requires |c.slides| >= 1 && 1 <= c.currentIndex <= |c.slides|
    modifies c
    ensures c.Valid() && c.AtRest()
    ensures 1 <= c.currentIndex <= |c.slides|
    ensures c.RealIndex() == (old(c.RealIndex()) + (if forward then 1 else -1)) % |c.slides|
    ensures var j := old(c.currentIndex) + (if forward then 1 else -1);
      c.Snapshot() == old(c.Snapshot()).(currentIndex := Settle(j, |c.slides|), dragOffsetPct := 0.0,
        transitionDisabled := old(c.transitionDisabled) && ReanchorTarget(j, |c.slides|).None?,
        autoplayTimerId := Some(old(c.nextTimerId)), nextTimerId := old(c.nextTimerId) + 1)
  {
    ghost var i, n := c.currentIndex, |c.slides|;
    if forward {
      c.GoToNext();
    } else {
      c.GoToPrev();
    }
    assert c.slides == old(c.slides) && c.pending == NoFrame;
    CompleteTransition(c);
    SettledStep(i, n, forward);
  }

  /** From rest on a real slot with more than one slide, a firing of the
      running autoplay timer and the end of its transition rest on the next
      real slide, wrapping, with the same timer still running. */
  method TickAndSettle(c: CarouselComponent, id: nat)
    requires c.Valid() && c.AtRest() && c.autoplayTimerId == Some(id)
    requires |c.slides| > 1 && 1 <= c.currentIndex <= |c.slides|
    modifies c
    ensures c.Valid() && c.AtRest() && c.autoplayTimerId == Some(id)
    ensures 1 <= c.currentIndex <= |c.slides|
    ensures c.RealIndex() == (old(c.RealIndex()) + 1) % |c.slides|
    ensures var j := old(c.currentIndex) + 1;
      c.Snapshot() == old(c.Snapshot()).(currentIndex := Settle(j, |c.slides|), dragOffsetPct := 0.0,
        transitionDisabled := old(c.transitionDisabled) && ReanchorTarget(j, |c.slides|).None?)
  {
    ghost var i, n := c.currentIndex, |c.slides|;
    c.AutoplayTick(id);
    CompleteTransition(c);
    SettledStep(i, n, true);
  }

  /** The swipe path from rest on a real slot: drag start, drag move, the
      swipe, the drag end that follows it, and the end of the transition. The
      carousel rests on the neighbouring real slide with transitions on; the
      timer was stopped at drag start and restarted once, by the swipe (the
      drag end does not restart it again). */
  method SwipeAndSettle(c: CarouselComponent, offsetPct: real, d: SwipeDirection)
    requires c.Valid() && c.AtRest()
    requires |c.slides| >= 1 && 1 <= c.currentIndex <= |c.slides|
    modifies c
    ensures c.Valid() && c.AtRest()
    ensures 1 <= c.currentIndex <= |c.slides|
    ensures c.RealIndex() == (old(c.RealIndex()) + (if d == Next then 1 else -1)) % |c.slides|
    ensures c.Snapshot() == old(c.Snapshot()).(
      currentIndex := Settle(old(c.currentIndex) + (if d == Prev then -1 else 1), |c.slides|),
      dragOffsetPct := 0.0, transitionDisabled := false, swipeHappened := true,
      autoplayTimerId := Some(old(c.nextTimerId)), nextTimerId := old(c.nextTimerId) + 1)
  {
    ghost var i, n := c.currentIndex, |c.slides|;
    c.OnDragStart();
    c.OnDragMove(offsetPct);
    c.OnSwipe(d);
    c.OnDragEnd();
    CompleteTransition(c);
    SettledStep(i, n, d == Next);
  }

  /** A drag that has started stops autoplay: while it is held and moved, no
      firing of any timer advances the carousel. */
  method NoAutoplayDuringDrag(c: CarouselComponent, offsetPct: real, id: nat)
    requires c.Valid() && !c.isAnimating
    modifies c
    ensures c.Valid() && !c.AutoplayRunning()
    ensures c.Snapshot() == old(c.Snapshot()).(swipeHappened := false, transitionDisabled := true,
      dragOffsetPct := offsetPct, autoplayTimerId := None)
  {
    c.OnDragStart();
    c.AutoplayTick(id);
    c.OnDragMove(offsetPct);
    c.AutoplayTick(id);
  }

  /** Three slides: starting on the first, three `GoToNext` calls (each
      transition completing) show the slides in order and then the first one
      again, the last step landing on the phantom slot and re-anchoring to 1. */
  method ThreeSlideScenario(s: seq<Slide>) returns (shown: seq<int>, finalIndex: int)
    requires |s| == 3
    ensures shown == [s[0].id, s[1].id, s[2].id, s[0].id]
    ensures finalIndex == 1
  {
    var c := new CarouselComponent();
    c.OnSlidesLoaded(s);
    var track := DisplaySlides(s);
    assert track[1] == s[0] && track[2] == s[1] && track[3] == s[2] && track[4] == s[0];
    assert c.slides == s && c.currentIndex == 1 && c.AtRest();
    shown := [c.DisplayTrack()[c.currentIndex].id];
    c.GoToNext();
    assert c.slides == s && c.currentIndex == 2;
    shown := shown + [c.DisplayTrack()[c.currentIndex].id];
    CompleteTransition(c);
    assert c.slides == s && c.currentIndex == 2 && c.AtRest();
    c.GoToNext();
    assert c.slides == s && c.currentIndex == 3;
    shown := shown + [c.DisplayTrack()[c.currentIndex].id];
    CompleteTransition(c);
    assert c.slides == s && c.currentIndex == 3 && c.AtRest();
    c.GoToNext();
    assert c.slides == s && c.currentIndex == 4;
    shown := shown + [c.DisplayTrack()[c.currentIndex].id];
    CompleteTransition(c);
    finalIndex := c.currentIndex;
  }

  /** `OnDragEnd` is not gated by `isAnimating`: a drag released between a
      transition's end and the re-anchor's first frame re-enables transitions
      before the index snaps back, and restarts autoplay unless the last drag
      that the carousel accepted ended in a swipe. */
  method DragEndDuringReanchor(c: CarouselComponent)
    requires c.Valid() && c.isAnimating && c.pending.AwaitFrame1?
    modifies c
    ensures c.Valid() && c.pending == old(c.pending) && c.isAnimating
    ensures !old(c.swipeHappened) ==> c.Snapshot() == old(c.Snapshot()).(dragOffsetPct := 0.0,
      transitionDisabled := false,
      autoplayTimerId := Some(old(c.nextTimerId)), nextTimerId := old(c.nextTimerId) + 1)
    ensures old(c.swipeHappened) ==> c.Snapshot() == old(c.Snapshot()).(dragOffsetPct := 0.0,
      transitionDisabled := false)
  {
    c.OnDragStart();
    c.OnDragEnd();
  }
}
