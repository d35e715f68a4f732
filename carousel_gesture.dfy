/** The gesture recogniser directive: turns pointer and touch input on the host
    surface into drag-start / drag-move / drag-end / swipe outputs
    (src/app/components/carousel/carousel-gesture.directive.ts).
    Outputs are appended, in emission order, to an event log. */
module CarouselGesture {
  import opened Wrappers

  /** Default of the `swipeThresholdPx` input, in pixels. */
  const DEFAULT_SWIPE_THRESHOLD_PX: int := 50

  datatype SwipeDirection = Prev | Next

  /** One emitted output. `DragMove` carries the horizontal displacement in
      pixels from which the directive computes its percentage. */
  datatype Event = DragStart | DragMove(deltaX: int) | DragEnd | Swipe(direction: SwipeDirection)

  /** The swipe, if any, that finishing a gesture with net displacement
      `deltaX` emits: only an uncancelled gesture moved by strictly more than
      the threshold swipes; rightward motion is `Prev`, anything else `Next`. */
  function SwipeFor(deltaX: int, cancelled: bool, threshold: int): (r: Option<SwipeDirection>)
    ensures r.Some? <==> !cancelled && (deltaX > threshold || -deltaX > threshold)
    ensures r == Some(Prev) ==> deltaX > 0
    ensures r == Some(Next) ==> deltaX <= 0
  {
    var magnitude := if deltaX < 0 then -deltaX else deltaX;
    if !cancelled && magnitude > threshold then
      Some(if deltaX > 0 then Prev else Next)
    else
      None
  }

  /** With a non-negative threshold: `Prev` exactly when the displacement exceeds
      the threshold to the right, `Next` exactly when it exceeds it to the left,
      and nothing when it is within the threshold (inclusive). */
  lemma SwipeForThresholds(deltaX: int, cancelled: bool, threshold: int)
    requires threshold >= 0
    ensures SwipeFor(deltaX, cancelled, threshold) == Some(Prev) <==> !cancelled && deltaX > threshold
    ensures SwipeFor(deltaX, cancelled, threshold) == Some(Next) <==> !cancelled && deltaX < -threshold
    ensures -threshold <= deltaX <= threshold ==> SwipeFor(deltaX, cancelled, threshold) == None
  {
  }

  /** The events a finished gesture emits: the swipe, if any, then `DragEnd`. */
  function FinishEvents(deltaX: int, cancelled: bool, threshold: int): (es: seq<Event>)
    ensures |es| >= 1 && es[|es| - 1] == DragEnd
    ensures cancelled ==> es == [DragEnd]
    ensures |es| == (if SwipeFor(deltaX, cancelled, threshold).Some? then 2 else 1)
    ensures |es| == 2 ==> es[0] == Swipe(SwipeFor(deltaX, cancelled, threshold).value)
  {
    match SwipeFor(deltaX, cancelled, threshold)
    case Some(d) => [Swipe(d), DragEnd]
    case None => [DragEnd]
  }

  /** Whether the log ends inside a gesture: its last start/end marker is a
      `DragStart`. */
  function Open(log: seq<Event>): bool
    decreases |log|
  {
    if log == [] then false
    else match log[|log| - 1]
      case DragStart => true
      case DragEnd => false
      case _ => Open(log[..|log| - 1])
  }

  /** The event at position `i` of the log is where it may be: a drag-move or
      drag-end inside a started gesture, a swipe inside a started gesture and
      immediately followed by that gesture's drag-end. */
  ghost predicate WellPlaced(log: seq<Event>, i: nat)
    requires i < |log|
  {
    && (log[i].DragMove? || log[i] == DragEnd ==> Open(log[..i]))
    && (log[i].Swipe? ==> i + 1 < |log| && log[i + 1] == DragEnd && Open(log[..i]))
  }

  /** A well-formed output log: every event is well placed. */
  ghost predicate WellFormedLog(log: seq<Event>) {
    forall i: nat :: i < |log| ==> WellPlaced(log, i)
  }

  /** An event of `log` keeps its placement when events are appended, unless
      it is a swipe at the very end. */
  lemma WellPlacedExtend(log: seq<Event>, more: seq<Event>, i: nat)
    requires i < |log| && WellPlaced(log, i) && !(log[i].Swipe? && i + 1 == |log|)
    ensures WellPlaced(log + more, i)
  {
    assert (log + more)[..i] == log[..i];
    assert (log + more)[i] == log[i];
    if log[i].Swipe? {
      assert (log + more)[i + 1] == log[i + 1];
    }
  }

  /** Appending one start, move or end event keeps the log well formed, provided
      moves and ends are appended inside a gesture. */
  lemma {:induction false} AppendEvent(log: seq<Event>, e: Event)
    requires WellFormedLog(log)
    requires !e.Swipe?
    requires e.DragMove? || e == DragEnd ==> Open(log)
    ensures WellFormedLog(log + [e])
    ensures Open(log + [e]) == (e == DragStart || (e.DragMove? && Open(log)))
  {
    var log' := log + [e];
    assert log'[..|log|] == log;
    forall i: nat | i < |log'|
      ensures WellPlaced(log', i)
    {
      if i < |log| {
        WellPlacedExtend(log, [e], i);
      }
    }
  }

  /** Appending a finished gesture's events to an open log closes it and keeps
      it well formed. */
  lemma {:induction false} AppendFinish(log: seq<Event>, deltaX: int, cancelled: bool, threshold: int)
    requires WellFormedLog(log) && Open(log)
    ensures WellFormedLog(log + FinishEvents(deltaX, cancelled, threshold))
    ensures !Open(log + FinishEvents(deltaX, cancelled, threshold))
  {
    var es := FinishEvents(deltaX, cancelled, threshold);
    if |es| == 1 {
      AppendEvent(log, DragEnd);
    } else {
      var log' := log + es;
      assert log'[..|log|] == log;
      assert log'[..|log| + 1] == log + [es[0]];
      assert Open(log + [es[0]]) == Open(log);
      assert log'[..|log| + 2] == log';
      forall i: nat | i < |log'|
        ensures WellPlaced(log', i)
      {
        if i < |log| {
          WellPlacedExtend(log, es, i);
        }
      }
    }
  }

  /** Every field of the directive at one moment. */
  datatype GestureState = GestureState(
    swipeThresholdPx: int,
    dragging: bool,
    startX: int,
    lastX: int,
    pointerId: Option<int>,
    pointerActive: bool,
    events: seq<Event>)

  class GestureRecognizer {
    var swipeThresholdPx: int
    var dragging: bool
    var startX: int
    var lastX: int
    var pointerId: Option<int>
    var pointerActive: bool
    /** Everything emitted so far, oldest first. */
    var events: seq<Event>

    function Snapshot(): GestureState
      reads this
    {
      GestureState(swipeThresholdPx, dragging, startX, lastX, pointerId, pointerActive, events)
    }

    /** A pointer interaction is tracked exactly when a pointer id is recorded,
        only while dragging, and the log is open exactly while dragging. */
    ghost predicate Valid()
      reads this
    {
      && (pointerActive <==> pointerId.Some?)
      && (pointerActive ==> dragging)
      && dragging == Open(events)
      && WellFormedLog(events)
    }

    constructor (threshold: int)
      ensures Valid()
      ensures Snapshot() == GestureState(threshold, false, 0, 0, None, false, [])
    {
      swipeThresholdPx := threshold;
      dragging := false;
      startX, lastX := 0, 0;
      pointerId := None;
      pointerActive := false;
      events := [];
    }

    method OnPointerDown(id: int, clientX: int)
      requires Valid()
      modifies this
      ensures Valid()
      ensures Snapshot() == old(Snapshot()).(dragging := true, pointerActive := true,
        startX := clientX, lastX := clientX, pointerId := Some(id),
        events := old(events) + [DragStart])
    {
      AppendEvent(events, DragStart);
      pointerActive := true;
      dragging := true;
      startX := clientX;
      lastX := clientX;
      pointerId := Some(id);
      events := events + [DragStart];
    }

    /** True when a pointer event with this id belongs to the tracked gesture. */
    predicate Tracks(id: int)
      reads this
    {
      dragging && pointerId == Some(id)
    }

    method OnPointerMove(id: int, clientX: int)
      requires Valid()
      modifies this
      ensures Valid()
      ensures old(Tracks(id)) ==> Snapshot() == old(Snapshot()).(lastX := clientX,
        events := old(events) + [DragMove(clientX - old(startX))])
      ensures !old(Tracks(id)) ==> Snapshot() == old(Snapshot())
    {
      if !dragging || pointerId != Some(id) {
        return;
      }
      AppendEvent(events, DragMove(clientX - startX));
      lastX := clientX;
      events := events + [DragMove(lastX - startX)];
    }

    method OnPointerUp(id: int, clientX: int)
      requires Valid()
      modifies this
      ensures Valid()
      ensures old(Tracks(id)) ==> Snapshot() == old(Snapshot()).(dragging := false,
        pointerId := None, pointerActive := false,
        events := old(events) + FinishEvents(old(lastX) - old(startX), false, swipeThresholdPx))
      ensures !old(Tracks(id)) ==> Snapshot() == old(Snapshot())
    {
      if !dragging || pointerId != Some(id) {
        return;
      }
      FinishPointer(false);
    }

    method OnPointerCancel(id: int, clientX: int)
      requires Valid()
      modifies this
      ensures Valid()
      ensures old(Tracks(id)) ==> Snapshot() == old(Snapshot()).(dragging := false,
        pointerId := None, pointerActive := false, events := old(events) + [DragEnd])
      ensures !old(Tracks(id)) ==> Snapshot() == old(Snapshot())
    {
      if !dragging || pointerId != Some(id) {
        return;
      }
      FinishPointer(true);
    }

    method OnPointerLeave(id: int, clientX: int)
      requires Valid()
      modifies this
      ensures Valid()
      ensures old(Tracks(id)) ==> Snapshot() == old(Snapshot()).(dragging := false,
        pointerId := None, pointerActive := false, events := old(events) + [DragEnd])
      ensures !old(Tracks(id)) ==> Snapshot() == old(Snapshot())
    {
      if !dragging || pointerId != Some(id) {
        return;
      }
      FinishPointer(true);
    }

    /** `firstTouch` is the clientX of `event.touches[0]`, None when the event
        carries no touch point. */
    method OnTouchStart(firstTouch: Option<int>)
      requires Valid()
      modifies this
      ensures Valid()
      ensures Snapshot() == if old(pointerActive) || firstTouch.None? then old(Snapshot())
        else old(Snapshot()).(dragging := true, startX := firstTouch.value,
          lastX := firstTouch.value, events := old(events) + [DragStart])
    {
      if !pointerActive && firstTouch.Some? {
        var x := firstTouch.value;
        AppendEvent(events, DragStart);
        dragging := true;
        startX := x;
        lastX := x;
        events := events + [DragStart];
      }
    }

    method OnTouchMove(firstTouch: Option<int>)
      requires Valid()
      modifies this
      ensures Valid()
      ensures !old(pointerActive) && old(dragging) && firstTouch.Some? ==> Snapshot() == old(Snapshot()).(
        lastX := firstTouch.value,
        events := old(events) + [DragMove(firstTouch.value - old(startX))])
      ensures old(pointerActive) || !old(dragging) || firstTouch.None? ==> Snapshot() == old(Snapshot())
    {
      if pointerActive || !dragging {
        return;
      }
      if firstTouch.None? {
        return;
      }
      AppendEvent(events, DragMove(firstTouch.value - startX));
      lastX := firstTouch.value;
      events := events + [DragMove(lastX - startX)];
    }

    method OnTouchEnd()
      requires Valid()
      modifies this
      ensures Valid()
      ensures !old(pointerActive) && old(dragging) ==> Snapshot() == old(Snapshot()).(dragging := false,
        events := old(events) + FinishEvents(old(lastX) - old(startX), false, swipeThresholdPx))
      ensures old(pointerActive) || !old(dragging) ==> Snapshot() == old(Snapshot())
    {
      if pointerActive || !dragging {
        return;
      }
      FinishTouch(false);
    }

    method OnTouchCancel()
      requires Valid()
      modifies this
      ensures Valid()
      ensures !old(pointerActive) && old(dragging) ==> Snapshot() == old(Snapshot()).(dragging := false,
        events := old(events) + [DragEnd])
      ensures old(pointerActive) || !old(dragging) ==> Snapshot() == old(Snapshot())
    {
      if pointerActive || !dragging {
        return;
      }
      FinishTouch(true);
    }

    /** Ends a tracked pointer gesture. The displacement is taken from the last
        move, not from the releasing event. */
    method FinishPointer(cancelled: bool)
      requires Valid() && dragging && pointerActive
      modifies this
      ensures Valid()
      ensures Snapshot() == old(Snapshot()).(dragging := false,
        pointerId := None, pointerActive := false,
        events := old(events) + FinishEvents(old(lastX) - old(startX), cancelled, swipeThresholdPx))
    {
      var deltaX := lastX - startX;
      ReleasePointer();
      FinishGesture(deltaX, cancelled);
    }

    method FinishTouch(cancelled: bool)
      requires Valid() && dragging && !pointerActive
      modifies this
      ensures Valid()
      ensures Snapshot() == old(Snapshot()).(dragging := false,
        events := old(events) + FinishEvents(old(lastX) - old(startX), cancelled, swipeThresholdPx))
    {
      var deltaX := lastX - startX;
      FinishGesture(deltaX, cancelled);
    }

    method FinishGesture(deltaX: int, cancelled: bool)
      requires Valid() && dragging && !pointerActive
      modifies this
      ensures Valid()
      ensures Snapshot() == old(Snapshot()).(dragging := false,
        events := old(events) + FinishEvents(deltaX, cancelled, swipeThresholdPx))
    {
      AppendFinish(events, deltaX, cancelled, swipeThresholdPx);
      ghost var finished := events + FinishEvents(deltaX, cancelled, swipeThresholdPx);
      dragging := false;
      var swipe := SwipeFor(deltaX, cancelled, swipeThresholdPx);
      if swipe.Some? {
        events := events + [Swipe(swipe.value)];
      }
      events := events + [DragEnd];
      assert events == finished;
    }

    /** Forgets the captured pointer; does nothing when none is recorded. */
    method ReleasePointer()
      modifies this
      ensures old(pointerId).Some? ==> Snapshot() == old(Snapshot()).(pointerId := None, pointerActive := false)
      ensures old(pointerId).None? ==> Snapshot() == old(Snapshot())
    {
      if pointerId.None? {
        return;
      }
      pointerId := None;
      pointerActive := false;
    }
  }

  /** A mouse drag from `x0` through `x1`, released at `x2`: what the
      directive emits. The release coordinate plays no part. */
  method PointerDragScenario(id: int, x0: int, x1: int, x2: int) returns (log: seq<Event>)
    ensures log == [DragStart, DragMove(x1 - x0)] + FinishEvents(x1 - x0, false, DEFAULT_SWIPE_THRESHOLD_PX)
    ensures x1 - x0 > DEFAULT_SWIPE_THRESHOLD_PX ==> log == [DragStart, DragMove(x1 - x0), Swipe(Prev), DragEnd]
  {
    var g := new GestureRecognizer(DEFAULT_SWIPE_THRESHOLD_PX);
    g.OnPointerDown(id, x0);
    g.OnPointerMove(id, x1);
    g.OnPointerUp(id, x2);
    log := g.events;
  }

  /** Touch events are ignored while a pointer gesture is tracked, and handled
      again once it has finished. */
  method PointerPriorityScenario(id: int, x0: int, t: int) returns (during: seq<Event>, after: seq<Event>)
    ensures during == [DragStart]
    ensures after == [DragStart, DragEnd, DragStart]
  {
    var g := new GestureRecognizer(DEFAULT_SWIPE_THRESHOLD_PX);
    g.OnPointerDown(id, x0);
    assert g.pointerActive && g.events == [DragStart];
    g.OnTouchStart(Some(t));
    assert g.pointerActive && g.events == [DragStart];
    g.OnTouchEnd();
    during := g.events;
    assert g.Tracks(id);
    g.OnPointerCancel(id, x0);
    assert !g.pointerActive && g.events == [DragStart, DragEnd];
    g.OnTouchStart(Some(t));
    after := g.events;
  }
}
