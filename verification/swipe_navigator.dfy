/**
 The swipe navigator: renders the screens as one horizontal strip and turns swipes, arrow
 keys, edge-arrow clicks and progress-dot clicks into navigation requests for its owner. It
 holds no step of its own; it only derives the strip's visual offset from the step it is
 given and the live drag.
 */
module SwipeNavigator {

  import opened Options
  import SwipeGesture

  /** What the navigator asks its owner to do. */
  datatype Request = Next | Prev | GoTo(step: int)

  /** The tracker tuning the navigator uses. */
  const Tuning := SwipeGesture.Config(80.0, 0.2)

  /**
   Swiping left asks for the next screen and swiping right for the previous one; each
   callback is registered only while its move is allowed.
   */
  function SwipeCallbacks(canGoNext: bool, canGoPrev: bool): (cbs: SwipeGesture.Callbacks)
    ensures cbs.onLeft == canGoNext && cbs.onRight == canGoPrev
  {
    SwipeGesture.Callbacks(onLeft := canGoNext, onRight := canGoPrev)
  }

  function SwipeRequest(d: SwipeGesture.Direction): Request {
    match d
    case Left => Next
    case Right => Prev
  }

  /** The tracker's next state and the request an input produced, if any. */
  datatype Response = Response(gesture: SwipeGesture.Gesture, request: Option<Request>)

  /** A pointer event goes to the tracker; a classified swipe becomes a request. */
  function OnPointer(g: SwipeGesture.Gesture, e: SwipeGesture.Event, canGoNext: bool, canGoPrev: bool)
    : (r: Response)
    ensures r.request == Some(Next) ==> canGoNext
    ensures r.request == Some(Prev) ==> canGoPrev
    ensures r.request.Some? ==> !r.request.value.GoTo? && SwipeGesture.IsRelease(e)
  {
    var rel := SwipeGesture.Handle(g, e, Tuning, SwipeCallbacks(canGoNext, canGoPrev));
    Response(rel.next, if rel.fired.Some? then Some(SwipeRequest(rel.fired.value)) else None)
  }

  /** A drag released past 80 px (raw travel beyond 80 px) asks to move, when allowed. */
  lemma DragPastThresholdRequests(g: SwipeGesture.Gesture, canGoNext: bool, canGoPrev: bool)
    requires g.dragging && g.origin.Some?
    ensures var r := OnPointer(g, SwipeGesture.TouchEnded, canGoNext, canGoPrev);
      && r.gesture == SwipeGesture.Idle
      && (r.request == Some(Next) <==> g.offset < -80.0 && canGoNext)
      && (r.request == Some(Prev) <==> g.offset > 80.0 && canGoPrev)
  {
  }

  /** What a key press does: whether its default is prevented, and the request it makes. */
  datatype KeyResult = KeyResult(preventDefault: bool, request: Option<Request>)

  /**
   Arrow keys are captured globally: both arrows have their default prevented even at a
   boundary, and request a move only when it is allowed; other keys are ignored.
   */
  function OnKey(key: string, canGoNext: bool, canGoPrev: bool): (r: KeyResult)
    ensures r.preventDefault <==> key == "ArrowLeft" || key == "ArrowRight"
    ensures r.request == Some(Prev) <==> key == "ArrowLeft" && canGoPrev
    ensures r.request == Some(Next) <==> key == "ArrowRight" && canGoNext
    ensures r.request.Some? ==> r.request.value.Prev? || r.request.value.Next?
  {
    if key == "ArrowLeft" then KeyResult(true, if canGoPrev then Some(Prev) else None)
    else if key == "ArrowRight" then KeyResult(true, if canGoNext then Some(Next) else None)
    else KeyResult(false, None)
  }

  /**
   The strip's shift as a percentage of its own width. The strip is four screens wide, so a
   step is 25%; while dragging, the live offset (pixels) is added in the same unit.
   */
  function TranslateX(step: int, dragging: bool, offset: real, width: real): (pct: real)
    requires 0.0 < width
    ensures !dragging ==> pct == -25.0 * step as real
    ensures dragging ==> (pct + 25.0 * step as real) * width == 100.0 * offset
  {
    var base := -(step as real) * 25.0;
    var drag := if dragging then (offset / (width / 4.0)) * 25.0 else 0.0;
    base + drag
  }

  /** At rest the four steps sit at 0, -25, -50 and -75 percent, and a zero drag rests too. */
  lemma TranslatePositions(width: real, offset: real)
    requires 0.0 < width
    ensures TranslateX(0, false, offset, width) == 0.0
    ensures TranslateX(1, false, offset, width) == -25.0
    ensures TranslateX(2, false, offset, width) == -50.0
    ensures TranslateX(3, false, offset, width) == -75.0
    ensures forall k :: TranslateX(k, true, 0.0, width) == TranslateX(k, false, offset, width)
  {
    forall k
      ensures TranslateX(k, true, 0.0, width) == TranslateX(k, false, offset, width)
    {
      assert (0.0 / (width / 4.0)) * 25.0 == 0.0;
    }
  }

  /** Easing is switched off while dragging, so the strip follows the pointer directly. */
  function EasedTransition(dragging: bool): (eased: bool)
    ensures eased <==> !dragging
  {
    !dragging
  }

  /**
   For a tracker in its invariant, the strip eases exactly when no interaction is live, and
   then it sits at its step's resting position.
   */
  lemma EasedExactlyAtRest(g: SwipeGesture.Gesture, step: int, width: real)
    requires SwipeGesture.Inv(g, Tuning)
    requires 0.0 < width
    ensures EasedTransition(g.dragging) <==> g == SwipeGesture.Idle
    ensures EasedTransition(g.dragging) ==> TranslateX(step, g.dragging, g.offset, width) == -25.0 * step as real
  {
  }

  /** The edge arrows: present only when their move is allowed. */
  datatype Arrows = Arrows(prev: Option<Request>, next: Option<Request>)

  function ArrowButtons(canGoNext: bool, canGoPrev: bool): (a: Arrows)
    ensures a.prev.Some? <==> canGoPrev
    ensures a.next.Some? <==> canGoNext
    ensures a.prev.Some? ==> a.prev.value == Prev
    ensures a.next.Some? ==> a.next.value == Next
  {
    Arrows(if canGoPrev then Some(Prev) else None, if canGoNext then Some(Next) else None)
  }

  /** A progress dot: the request its click makes (none without a jump handler) and whether it is lit. */
  datatype Dot = Dot(onClick: Option<Request>, active: bool)

  function Dots(total: nat, step: int, canJump: bool): (ds: seq<Dot>)
    ensures |ds| == total
    ensures forall i :: 0 <= i < total ==> (ds[i].active <==> i == step)
    ensures forall i :: 0 <= i < total ==>
              ds[i].onClick == (if canJump then Some(GoTo(i)) else None)
  {
    seq(total, i requires 0 <= i < total => Dot(if canJump then Some(GoTo(i)) else None, i == step))
  }

  function CountActive(ds: seq<Dot>): nat {
    if ds == [] then 0 else (if ds[0].active then 1 else 0) + CountActive(ds[1..])
  }

  lemma {:induction false} NoneActive(ds: seq<Dot>)
    requires forall i :: 0 <= i < |ds| ==> !ds[i].active
    ensures CountActive(ds) == 0
    decreases |ds|
  {
    if ds != [] {
      NoneActive(ds[1..]);
    }
  }

  lemma {:induction false} OneActive(ds: seq<Dot>, k: int)
    requires 0 <= k < |ds|
    requires forall i :: 0 <= i < |ds| ==> (ds[i].active <==> i == k)
    ensures CountActive(ds) == 1
    decreases |ds|
  {
    if k == 0 {
      NoneActive(ds[1..]);
    } else {
      OneActive(ds[1..], k - 1);
    }
  }

  /** Exactly one dot is lit when the step is in range, and none otherwise. */
  lemma ExactlyOneActiveDot(total: nat, step: int, canJump: bool)
    ensures 0 <= step < total ==> CountActive(Dots(total, step, canJump)) == 1
    ensures !(0 <= step < total) ==> CountActive(Dots(total, step, canJump)) == 0
  {
    if 0 <= step < total {
      OneActive(Dots(total, step, canJump), step);
    } else {
      NoneActive(Dots(total, step, canJump));
    }
  }

  /** Everything the navigator feeds into: pointer events, keys, dot and edge-arrow clicks. */
  datatype Input =
    | Pointer(event: SwipeGesture.Event)
    | Key(key: string)
    | DotClick(index: int)
    | ArrowClick(forward: bool)

  /**
   All input channels converge on the same three requests, each within what the owner
   allows: next only when it can go next, back only when it can go back, and a jump only to
   an existing step. Only pointer events touch the tracker's state.
   */
  function OnInput(g: SwipeGesture.Gesture, input: Input, step: int, totalSteps: nat,
                   canGoNext: bool, canGoPrev: bool, canJump: bool): (r: Response)
    ensures r.request == Some(Next) ==> canGoNext
    ensures r.request == Some(Prev) ==> canGoPrev
    ensures r.request.Some? && r.request.value.GoTo? ==>
              canJump && 0 <= r.request.value.step < totalSteps
    ensures !input.Pointer? ==> r.gesture == g
  {
    match input
    case Pointer(e) => OnPointer(g, e, canGoNext, canGoPrev)
    case Key(k) => Response(g, OnKey(k, canGoNext, canGoPrev).request)
    case DotClick(i) =>
      Response(g, if 0 <= i < totalSteps then Dots(totalSteps, step, canJump)[i].onClick else None)
    case ArrowClick(forward) =>
      var a := ArrowButtons(canGoNext, canGoPrev);
      Response(g, if forward then a.next else a.prev)
  }
}
