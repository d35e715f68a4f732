# Looping carousel: a verified model

A Dafny model of the logic inside a looping image/text carousel widget (an
Angular component). It covers three pieces:

- **The carousel controller** (`carousel.dfy`, module `Carousel`). It keeps a track of
  `n + 2` slides: a phantom copy of the last slide at position 0, the real slides at
  1..n, and a phantom copy of the first slide at `n + 1`.
  - `currentIndex` starts at 1 and moves by one per step. Every navigation entry
    point is a no-op while `isAnimating` is set.
  - When a transition ends on a phantom slot, a *silent re-anchor* runs over two
    animation frames: disable transitions, snap to the real slot, then re-enable
    transitions and end the animation.
  - The component is a class whose fields mirror the component's signals and
    private fields. The autoplay interval timer is reduced to its id.
  - The two `requestAnimationFrame` callbacks are an explicit pending phase,
    advanced by `Frame1` and `Frame2`.
- **The gesture recogniser** (`carousel_gesture.dfy`, module `CarouselGesture`). It is
  a class with the directive's private fields. Its outputs (drag-start, drag-move,
  drag-end, swipe) are appended to an event log.
  - Pointer input takes priority over touch. Move, up, cancel and leave events from
    a pointer other than the tracked one are ignored; a pointer-down from any
    pointer starts a new gesture and takes over tracking.
  - A swipe fires only for an uncancelled gesture whose net horizontal movement is
    strictly greater than the threshold. A drag-end always follows.
- **The slide renderer's highlight splitter** (`carousel_slide.dfy`, module
  `CarouselSlide`). It is a pure function that splits a text at the first
  occurrence of a highlight substring. `IndexOf` and `Includes` model JavaScript's
  `String.prototype.indexOf` and `includes`.

`slide_model.dfy` holds the slide record. `wrappers.dfy` holds `Option`, which
stands in for `undefined` / `null`.

Every method of the two classes, and every client method that drives the
carousel through several handlers, states the object's whole new state. It does
so through `Snapshot()`, a datatype of all fields, written as an update of
`old(Snapshot())`. So "nothing else changes" is part of those contracts.

## Model

| member | source | states |
|---|---|---|
| `Carousel.DisplaySlides` | src/app/components/carousel/carousel.component.ts:35-39 | empty for no slides; otherwise length n+2, position 0 is the last slide, position n+1 the first, positions 1..n are the slides in order |
| `Carousel.RealSlideIndex` | src/app/components/carousel/carousel.component.ts:46-52 | for n ≥ 1 and a track position in [0, n+1], the real index lies in [0, n-1] and equals (idx − 1) mod n, so phantom 0 maps to n−1 and phantom n+1 to 0 |
| `Carousel.DisplayShowsRealSlide` | src/app/components/carousel/carousel.component.ts:35-52 | every track position shows exactly the real slide that the indicator index names |
| `Carousel.ReanchorTarget` | src/app/components/carousel/carousel.component.ts:99-121 | a re-anchor is scheduled exactly at positions 0 and n+1; for n ≥ 1 its target is a real slot showing the same real slide |
| `Carousel.ReanchorShowsSameSlide` | src/app/components/carousel/carousel.component.ts:99-120 | the re-anchor is invisible: the slot it jumps to displays the same slide as the phantom it leaves |
| `Carousel.SettledStep` | src/app/components/carousel/carousel.component.ts:95-155 | from a real slot, a ±1 step and the end of its transition rest on a real slot again, and the real slide advances (retreats) by one modulo n, wrapping from n−1 to 0 and from 0 to n−1 |
| `Carousel.CarouselComponent.constructor` | src/app/components/carousel/carousel.component.ts:23-33 | no slides, loading, index 1, not animating, offset 0, transitions on, no swipe, no timer, no pending frame |
| `Carousel.CarouselComponent.OnSlidesLoaded` | src/app/components/carousel/carousel.component.ts:65-73 | stores the slides, clears loading, starts a fresh autoplay timer; nothing else changes |
| `Carousel.CarouselComponent.OnDestroy` | src/app/components/carousel/carousel.component.ts:60-63 | the autoplay timer is stopped; nothing else changes |
| `Carousel.CarouselComponent.StartAutoplay` | src/app/components/carousel/carousel.component.ts:75-82 | any running timer is replaced by one with a fresh id |
| `Carousel.CarouselComponent.StopAutoplay` | src/app/components/carousel/carousel.component.ts:84-89 | no timer runs afterwards; nothing else changes |
| `Carousel.CarouselComponent.ResetAutoplay` | src/app/components/carousel/carousel.component.ts:91-93 | same as a fresh start of the timer |
| `Carousel.CarouselComponent.AutoplayTick` | src/app/components/carousel/carousel.component.ts:75-89 | a firing of timer `id` advances by exactly one (without touching the timer) iff `id` is the running timer, not animating and more than one slide; a cleared or replaced timer's firing, like any other, changes nothing |
| `Carousel.CarouselComponent.OnTransitionEnd` | src/app/components/carousel/carousel.component.ts:95-125 | on a phantom slot only disables transitions and schedules frame 1 towards the real slot (isAnimating untouched); elsewhere keeps the index, zeroes the offset and clears isAnimating |
| `Carousel.CarouselComponent.Frame1` | src/app/components/carousel/carousel.component.ts:101-114 | snaps the index to the scheduled real slot (n from phantom 0, 1 from phantom n+1), zeroes the offset, schedules frame 2; transitions stay disabled and isAnimating stays set |
| `Carousel.CarouselComponent.Frame2` | src/app/components/carousel/carousel.component.ts:104-107 | re-enables transitions and clears isAnimating; nothing else changes |
| `Carousel.CarouselComponent.GoToSlide` | src/app/components/carousel/carousel.component.ts:127-132 | when not animating: index set to the argument with no range check, isAnimating set, timer restarted; otherwise no state changes |
| `Carousel.CarouselComponent.GoToNextAuto` | src/app/components/carousel/carousel.component.ts:134-139 | when slides exist and not animating: index +1 and isAnimating set, timer untouched; otherwise no state changes |
| `Carousel.CarouselComponent.GoToNext` | src/app/components/carousel/carousel.component.ts:141-147 | when slides exist and not animating: index +1, isAnimating set, timer restarted; otherwise no state changes |
| `Carousel.CarouselComponent.GoToPrev` | src/app/components/carousel/carousel.component.ts:149-155 | when slides exist and not animating: index −1, isAnimating set, timer restarted; otherwise no state changes |
| `Carousel.CarouselComponent.OnDragStart` | src/app/components/carousel/carousel.component.ts:157-163 | when not animating: clears swipeHappened, disables transitions, zeroes the offset, stops autoplay; otherwise no state changes |
| `Carousel.CarouselComponent.OnDragMove` | src/app/components/carousel/carousel.component.ts:165-168 | when not animating the offset becomes the given value; otherwise no state changes |
| `Carousel.CarouselComponent.OnSwipe` | src/app/components/carousel/carousel.component.ts:170-184 | when not animating: swipeHappened and isAnimating set, transitions on, offset 0, index −1 for prev and +1 for next, timer restarted; otherwise no state changes |
| `Carousel.CarouselComponent.OnDragEnd` | src/app/components/carousel/carousel.component.ts:186-193 | always zeroes the offset and re-enables transitions; restarts autoplay iff no swipe happened |
| `Carousel.NavigationIgnoredWhileAnimating` | src/app/components/carousel/carousel.component.ts:127-171 | while animating, goToSlide, goToNext, goToPrev, goToNextAuto, the autoplay tick, onSwipe, onDragStart and onDragMove together leave every field unchanged |
| `Carousel.CompleteTransition` | src/app/components/carousel/carousel.component.ts:95-125 | transition end plus any scheduled frames bring the carousel to rest at the settled index with offset 0; transitions are on again after a re-anchor and untouched otherwise; nothing else changes |
| `Carousel.StepAndSettle` | src/app/components/carousel/carousel.component.ts:141-155 | from rest on a real slot, an accepted next/prev and its completed transition return to rest on a real slot in [1, n], showing the neighbouring slide (wrapping), with the timer restarted; the whole final state is given |
| `Carousel.TickAndSettle` | src/app/components/carousel/carousel.component.ts:75-81 | from rest on a real slot with more than one slide, a firing of the running timer and its completed transition rest on the next real slide (wrapping), the same timer still running; the whole final state is given |
| `Carousel.SwipeAndSettle` | src/app/components/carousel/carousel.component.ts:157-193 | drag start, move, swipe, drag end and the completed transition rest on the neighbouring real slide in the swipe's direction, transitions on, offset 0; the timer is restarted once, by the swipe and not by the drag end |
| `Carousel.NoAutoplayDuringDrag` | src/app/components/carousel/carousel.component.ts:75-89 | once a drag has started, no firing of any timer advances the carousel while it is held and moved; the timer stays stopped |
| `Carousel.ThreeSlideScenario` | src/app/components/carousel/carousel.component.ts:35-147 | with three slides, three steps forward show slides 1, 2, 3 and then 1 again, ending on index 1 after one re-anchor |
| `Carousel.DragEndDuringReanchor` | src/app/components/carousel/carousel.component.ts:186-193 | a drag released while a re-anchor waits for its first frame re-enables transitions before the snap, zeroes the offset, and restarts autoplay unless the last accepted drag swiped; nothing else changes |
| `CarouselGesture.SwipeFor` | src/app/components/carousel/carousel-gesture.directive.ts:128-133 | a swipe iff not cancelled and the movement is strictly beyond the threshold either way; prev only for rightward (positive) movement, next otherwise |
| `CarouselGesture.SwipeForThresholds` | src/app/components/carousel/carousel-gesture.directive.ts:131-132 | for a non-negative threshold: prev iff delta > threshold, next iff delta < −threshold, none when \|delta\| ≤ threshold (equality gives no swipe) |
| `CarouselGesture.FinishEvents` | src/app/components/carousel/carousel-gesture.directive.ts:128-136 | a finish emits exactly one drag-end, last, preceded by the swipe iff one is due; a cancelled finish emits only the drag-end |
| `CarouselGesture.AppendEvent` | src/app/components/carousel/carousel-gesture.directive.ts:41-52 | appending a start, or a move/end inside a gesture, keeps the output log well formed and leaves it open exactly after a start or an in-gesture move |
| `CarouselGesture.AppendFinish` | src/app/components/carousel/carousel-gesture.directive.ts:128-136 | appending a finish to an open, well-formed log keeps it well formed and closes the gesture |
| `CarouselGesture.GestureRecognizer.constructor` | src/app/components/carousel/carousel-gesture.directive.ts:17-28 | not dragging, coordinates 0, no pointer, empty log, the given threshold |
| `CarouselGesture.GestureRecognizer.OnPointerDown` | src/app/components/carousel/carousel-gesture.directive.ts:32-42 | sets dragging and pointerActive, startX = lastX = clientX, records the pointer id, appends exactly one drag-start |
| `CarouselGesture.GestureRecognizer.OnPointerMove` | src/app/components/carousel/carousel-gesture.directive.ts:44-53 | for the tracked pointer only lastX changes and one drag-move is appended; any other event changes nothing |
| `CarouselGesture.GestureRecognizer.OnPointerUp` | src/app/components/carousel/carousel-gesture.directive.ts:55-60 | for the tracked pointer: gesture finished with delta lastX − startX (not the release coordinate), pointer released; otherwise nothing changes |
| `CarouselGesture.GestureRecognizer.OnPointerCancel` | src/app/components/carousel/carousel-gesture.directive.ts:62-67 | for the tracked pointer: only a drag-end is appended (never a swipe), pointer released; otherwise nothing changes |
| `CarouselGesture.GestureRecognizer.OnPointerLeave` | src/app/components/carousel/carousel-gesture.directive.ts:69-74 | as pointer-cancel |
| `CarouselGesture.GestureRecognizer.OnTouchStart` | src/app/components/carousel/carousel-gesture.directive.ts:76-87 | no-op while a pointer is active or without a first touch point; otherwise starts dragging at the touch's x and appends one drag-start, leaving the pointer fields alone |
| `CarouselGesture.GestureRecognizer.OnTouchMove` | src/app/components/carousel/carousel-gesture.directive.ts:89-101 | no-op while a pointer is active, when not dragging, or without a touch point; otherwise only lastX changes and one drag-move is appended |
| `CarouselGesture.GestureRecognizer.OnTouchEnd` | src/app/components/carousel/carousel-gesture.directive.ts:103-108 | no-op while a pointer is active or not dragging; otherwise finishes with delta lastX − startX |
| `CarouselGesture.GestureRecognizer.OnTouchCancel` | src/app/components/carousel/carousel-gesture.directive.ts:110-115 | no-op while a pointer is active or not dragging; otherwise stops dragging and appends only a drag-end |
| `CarouselGesture.GestureRecognizer.FinishPointer` | src/app/components/carousel/carousel-gesture.directive.ts:117-121 | delta is taken before release; pointer id and pointerActive cleared; finish events appended |
| `CarouselGesture.GestureRecognizer.FinishTouch` | src/app/components/carousel/carousel-gesture.directive.ts:123-126 | finish events for lastX − startX appended; pointer fields untouched |
| `CarouselGesture.GestureRecognizer.FinishGesture` | src/app/components/carousel/carousel-gesture.directive.ts:128-136 | dragging cleared; swipe (if due) then exactly one drag-end appended; the log stays well formed |
| `CarouselGesture.GestureRecognizer.ReleasePointer` | src/app/components/carousel/carousel-gesture.directive.ts:138-149 | with a recorded pointer, clears it and pointerActive; without one, changes nothing |
| `CarouselGesture.PointerDragScenario` | src/app/components/carousel/carousel-gesture.directive.ts:33-59 | down at x0, move to x1, up at x2 emits start, move, the swipe due for x1 − x0, end; x2 plays no part |
| `CarouselGesture.PointerPriorityScenario` | src/app/components/carousel/carousel-gesture.directive.ts:76-115 | touch events are ignored during a pointer gesture and handled again after it finishes |
| `CarouselSlide.IndexOf` | src/app/components/carousel-slide/carousel-slide.component.ts:21 | the result is an occurrence of the pattern and no earlier position is one; None iff the pattern occurs nowhere |
| `CarouselSlide.Includes` | src/app/components/carousel-slide/carousel-slide.component.ts:17 | true iff the pattern occurs somewhere in the text |
| `CarouselSlide.FormattedText` | src/app/components/carousel-slide/carousel-slide.component.ts:13-27 | before ++ highlight ++ after == text always; (text, "", "") iff the highlight is absent, empty or not contained; otherwise the highlight is the input, starts at its first occurrence at \|before\|, and after is the rest of the text |
| `CarouselSlide.SlideFormattedText` | src/app/components/carousel-slide/carousel-slide.component.ts:13-16 | the parts of a slide's text concatenate back to it, and a non-empty highlight part is the slide's own highlighted text |
| `CarouselSlide.FormattedTextAtFirstOccurrence` | src/app/components/carousel-slide/carousel-slide.component.ts:21-26 | the result is determined: a highlight first occurring at i yields (text[..i], highlight, text[i+\|highlight\|..]) |
| `CarouselSlide.FirstOccurrenceExample` | src/app/components/carousel-slide/carousel-slide.component.ts:21 | in "Get 35% off", "35%" first occurs at position 4 |
| `CarouselSlide.FormattedTextFoundExample` | src/app/components/carousel-slide/carousel-slide.component.ts:21-26 | "Get 35% off" with "35%" splits into "Get ", "35%", " off" |
| `CarouselSlide.FormattedTextMissingExample` | src/app/components/carousel-slide/carousel-slide.component.ts:17-19 | "Get 35% off" with "xyz" yields the whole text and two empty parts |

## Left out

- The slide data service is not modelled. The slide list arrives as the argument of `OnSlidesLoaded`. The rxjs subscription, its 800 ms delay and its teardown are not modelled either.
- The autoplay interval (10 s) and real timers are not modelled. A running timer is represented by its id. A firing is the `AutoplayTick` method with a timer id, which the environment calls; only the running timer's id has an effect.
- Real animation frames are not modelled. `Frame1` and `Frame2` run only when their phase is pending.
- Carousel.CarouselComponent.OnTransitionEnd: requires that no re-anchor is already pending, so two overlapping chains of frame callbacks are not modelled. A drag end can re-enable transitions while frame 1 is pending (`DragEndDuringReanchor`), but no animated property changes before frame 1 snaps the index. A snap that such a drag end lets animate lasts longer than the single frame before frame 2, so its transition-end arrives after frame 2 has run and the re-anchor is no longer pending.
- The drag-move payload is the pixel displacement `lastX − startX`. The percentage of the host width (a float division by a DOM measurement) is not modelled.
- The carousel's drag offset is a `real`. It is only ever set to the given value or to 0.
- Coordinates and pointer ids are integers.
- Pointer capture and its release (`setPointerCapture`, `releasePointerCapture`) are not modelled, nor is the swallowed exception.
- `trackTransform` (a CSS string), the `loading` flag's rendering, templates, styles, and Angular signals, `computed`, `EventEmitter` and `@HostListener` are not modelled.
- `realSlideIndex` with zero slides is modelled as written (index 0 gives −1, index 1 gives 0). No range property is claimed for it.
- The slide record keeps id, title, text, optional highlight, call-to-action label and image URLs. The optional layout hints (single-line flags, background size and position) are dropped.
- Strings are sequences of characters, compared as such. JavaScript compares UTF-16 code units, which matches when one character is one code unit.
