/**
 The swipe gesture tracker behind the wizard's horizontal strip: a drag origin, a dragging
 flag and a signed horizontal offset damped past a threshold ("rubber band"), classified on
 release as a swipe to the left, to the right, or nothing. Touch and mouse input share the
 algorithm; the mouse listeners exist only while a drag is in progress.
 */
module SwipeGesture {

  import opened Options

  datatype Point = Point(x: real, y: real)

  /** Minimum horizontal travel that counts as a swipe, and the damping applied beyond it. */
  datatype Config = Config(threshold: real, resistance: real)

  /** A configuration whose curve is a rubber band: non-negative threshold, damping in [0, 1]. */
  predicate Damping(cfg: Config) {
    0.0 <= cfg.threshold && 0.0 <= cfg.resistance <= 1.0
  }

  /**
   Tracker state: the origin of the current interaction (null between interactions; the
   hook keeps x and y in two refs that are always set and cleared together), the
   dragging flag and the damped offset shown while dragging.
   */
  datatype Gesture = Gesture(origin: Option<Point>, dragging: bool, offset: real)

  const Idle := Gesture(None, false, 0.0)

  datatype Direction = Left | Right

  /** Which callbacks the caller registered; a missing callback is never invoked. */
  datatype Callbacks = Callbacks(onLeft: bool, onRight: bool)

  function Abs(x: real): (r: real)
    ensures 0.0 <= r && (r == x || r == -x)
  {
    if x < 0.0 then -x else x
  }

  /**
   The offset's magnitude for a drag of `travel` pixels beyond the threshold: the threshold
   plus the excess scaled by the resistance.
   */
  function Damped(travel: real, threshold: real, resistance: real): real {
    threshold + (travel - threshold) * resistance
  }

  /** The rubber-band curve applied to a raw horizontal displacement. */
  function Resist(dx: real, cfg: Config): (r: real)
    ensures Abs(dx) <= cfg.threshold ==> r == dx
    ensures Abs(dx) > cfg.threshold && dx > 0.0 ==> r == Damped(Abs(dx), cfg.threshold, cfg.resistance)
    ensures Abs(dx) > cfg.threshold && dx < 0.0 ==> r == -Damped(Abs(dx), cfg.threshold, cfg.resistance)
  {
    if Abs(dx) > cfg.threshold then
      var magnitude := Damped(Abs(dx), cfg.threshold, cfg.resistance);
      if dx > 0.0 then magnitude else -magnitude
    else
      dx
  }

  lemma MulNonNeg(a: real, b: real)
    requires 0.0 <= a && 0.0 <= b
    ensures 0.0 <= a * b
  {
  }

  lemma MulPos(a: real, b: real)
    requires 0.0 < a && 0.0 < b
    ensures 0.0 < a * b
  {
  }

  /**
   Beyond a non-negative threshold, a non-negative resistance never damps below the
   threshold, passes it exactly when the resistance is positive, and never goes past the raw
   travel for a resistance of at most 1.
   */
  lemma DampedBounds(travel: real, threshold: real, resistance: real)
    requires 0.0 <= threshold < travel && 0.0 <= resistance
    ensures threshold <= Damped(travel, threshold, resistance)
    ensures threshold < Damped(travel, threshold, resistance) <==> 0.0 < resistance
    ensures resistance <= 1.0 ==> Damped(travel, threshold, resistance) <= travel
  {
    assert Damped(travel, threshold, resistance) - threshold == (travel - threshold) * resistance;
    MulNonNeg(travel - threshold, resistance);
    assert threshold <= Damped(travel, threshold, resistance);
    if 0.0 < resistance {
      MulPos(travel - threshold, resistance);
      assert threshold < Damped(travel, threshold, resistance);
    } else {
      assert resistance == 0.0;
      assert (travel - threshold) * resistance == 0.0;
      assert threshold == Damped(travel, threshold, resistance);
    }
    if resistance <= 1.0 {
      MulNonNeg(travel - threshold, 1.0 - resistance);
      assert travel - Damped(travel, threshold, resistance) == (travel - threshold) * (1.0 - resistance);
    }
  }

  /** A longer travel is never damped to a shorter offset. */
  lemma DampedMonotone(x: real, y: real, threshold: real, resistance: real)
    requires x <= y && 0.0 <= resistance
    ensures Damped(x, threshold, resistance) <= Damped(y, threshold, resistance)
  {
    MulNonNeg(y - x, resistance);
    assert (y - threshold) * resistance - (x - threshold) * resistance == (y - x) * resistance;
  }

  /**
   Beyond the threshold, for a non-negative tuning: the offset's magnitude is the damped
   travel and it points the way of the drag.
   */
  lemma ResistMagnitude(dx: real, cfg: Config)
    requires 0.0 <= cfg.threshold && 0.0 <= cfg.resistance
    requires Abs(dx) > cfg.threshold
    ensures Abs(Resist(dx, cfg)) == Damped(Abs(dx), cfg.threshold, cfg.resistance)
    ensures dx > 0.0 ==> Resist(dx, cfg) == Abs(Resist(dx, cfg))
    ensures dx < 0.0 ==> Resist(dx, cfg) == -Abs(Resist(dx, cfg))
    ensures cfg.threshold <= Abs(Resist(dx, cfg))
    ensures cfg.threshold < Abs(Resist(dx, cfg)) <==> 0.0 < cfg.resistance
    ensures cfg.resistance <= 1.0 ==> Abs(Resist(dx, cfg)) <= Abs(dx)
  {
    DampedBounds(Abs(dx), cfg.threshold, cfg.resistance);
  }

  /** Worked example of the curve: threshold 80, resistance 0.2, a 130 px drag shows 90 px. */
  lemma ResistExample()
    ensures Resist(130.0, Config(80.0, 0.2)) == 90.0
    ensures Resist(-130.0, Config(80.0, 0.2)) == -90.0
  {
  }

  /** The curve is odd: dragging the other way mirrors the offset. */
  lemma ResistOdd(dx: real, cfg: Config)
    requires 0.0 <= cfg.threshold
    ensures Resist(-dx, cfg) == -Resist(dx, cfg)
  {
  }

  /** Damping never moves the strip further than the finger, and keeps the direction. */
  lemma ResistBounded(dx: real, cfg: Config)
    requires Damping(cfg)
    ensures Abs(Resist(dx, cfg)) <= Abs(dx)
    ensures dx > 0.0 ==> Resist(dx, cfg) >= 0.0
    ensures dx < 0.0 ==> Resist(dx, cfg) <= 0.0
    ensures 0.0 < cfg.threshold ==> (dx > 0.0 <==> Resist(dx, cfg) > 0.0)
    ensures 0.0 < cfg.threshold ==> (dx < 0.0 <==> Resist(dx, cfg) < 0.0)
  {
    if Abs(dx) > cfg.threshold {
      ResistMagnitude(dx, cfg);
    }
  }

  /** A longer drag never shows a shorter offset. */
  lemma ResistMonotone(a: real, b: real, cfg: Config)
    requires 0.0 <= cfg.threshold && 0.0 <= cfg.resistance
    requires Abs(a) <= Abs(b)
    ensures Abs(Resist(a, cfg)) <= Abs(Resist(b, cfg))
  {
    if Abs(b) > cfg.threshold {
      ResistMagnitude(b, cfg);
      if Abs(a) > cfg.threshold {
        ResistMagnitude(a, cfg);
        DampedMonotone(Abs(a), Abs(b), cfg.threshold, cfg.resistance);
      }
    }
  }

  /**
   The damped offset passes the threshold exactly when the raw drag does and the
   resistance is positive; with zero resistance it stops at the threshold.
   */
  lemma ResistExceedsThreshold(dx: real, cfg: Config)
    requires 0.0 <= cfg.threshold && 0.0 <= cfg.resistance
    ensures Abs(Resist(dx, cfg)) > cfg.threshold <==> 0.0 < cfg.resistance && Abs(dx) > cfg.threshold
  {
    if Abs(dx) > cfg.threshold {
      ResistMagnitude(dx, cfg);
    }
  }

  /**
   Release classification: a callback fires only when the offset has passed the threshold,
   the right one for a positive offset and the left one for a negative offset, and only if
   it was registered.
   */
  function Classify(offset: real, cfg: Config, cbs: Callbacks): (fired: Option<Direction>)
    ensures fired == Some(Right) <==> Abs(offset) > cfg.threshold && offset > 0.0 && cbs.onRight
    ensures fired == Some(Left) <==> Abs(offset) > cfg.threshold && offset < 0.0 && cbs.onLeft
  {
    if Abs(offset) > cfg.threshold then
      if offset > 0.0 && cbs.onRight then Some(Right)
      else if offset < 0.0 && cbs.onLeft then Some(Left)
      else None
    else
      None
  }

  /** A touch start is accepted only with exactly one touch point. */
  function TouchStart(g: Gesture, touches: seq<Point>): (g': Gesture)
    ensures |touches| != 1 ==> g' == g
    ensures |touches| == 1 ==> g'.dragging && g'.offset == 0.0 && g'.origin == Some(touches[0])
  {
    if |touches| != 1 then g else Gesture(Some(touches[0]), true, 0.0)
  }

  /** The touch-move guard tests the stored coordinates for truthiness, so a 0 coordinate fails it. */
  predicate TouchOriginSet(g: Gesture) {
    g.origin.Some? && g.origin.value.x != 0.0 && g.origin.value.y != 0.0
  }

  /** A touch move updates the offset whatever the vertical travel; only the guard can stop it. */
  function TouchMove(g: Gesture, at: Point, cfg: Config): (g': Gesture)
    ensures g'.origin == g.origin && g'.dragging == g.dragging
    ensures !(g.dragging && TouchOriginSet(g)) ==> g' == g
    ensures g.dragging && TouchOriginSet(g) ==> g'.offset == Resist(at.x - g.origin.value.x, cfg)
  {
    if !g.dragging || !TouchOriginSet(g) then g
    else g.(offset := Resist(at.x - g.origin.value.x, cfg))
  }

  /** A touch move suppresses the page's scrolling only when horizontal travel dominates. */
  predicate TouchMoveSuppressesScroll(g: Gesture, at: Point) {
    g.dragging && TouchOriginSet(g) && Abs(at.x - g.origin.value.x) > Abs(at.y - g.origin.value.y)
  }

  /**
   Scrolling is suppressed only during a live touch drag, and then the move takes the
   damped horizontal travel as its offset, the same offset a mouse move to that point gives.
   */
  lemma TouchScrollSuppression(g: Gesture, at: Point, cfg: Config)
    ensures !(g.dragging && TouchOriginSet(g)) ==> !TouchMoveSuppressesScroll(g, at)
    ensures TouchMoveSuppressesScroll(g, at) ==>
              && TouchMove(g, at, cfg).offset == Resist(at.x - g.origin.value.x, cfg)
              && MouseMove(g, at, cfg) == TouchMove(g, at, cfg)
  {
  }

  /** A mouse press always starts an interaction. */
  function MouseDown(g: Gesture, at: Point): (g': Gesture)
    ensures g'.dragging && g'.offset == 0.0 && g'.origin == Some(at)
  {
    Gesture(Some(at), true, 0.0)
  }

  /** A mouse move is ignored unless dragging, and also when vertical travel dominates. */
  function MouseMove(g: Gesture, at: Point, cfg: Config): (g': Gesture)
    ensures g'.origin == g.origin && g'.dragging == g.dragging
    ensures g.dragging && g.origin.Some?
            && Abs(at.x - g.origin.value.x) >= Abs(at.y - g.origin.value.y)
            ==> g'.offset == Resist(at.x - g.origin.value.x, cfg)
    ensures !g.dragging || g.origin.None?
            || Abs(at.x - g.origin.value.x) < Abs(at.y - g.origin.value.y)
            ==> g' == g
  {
    if !g.dragging || g.origin.None? then g
    else
      var dx := at.x - g.origin.value.x;
      var dy := at.y - g.origin.value.y;
      if Abs(dx) < Abs(dy) then g
      else g.(offset := Resist(dx, cfg))
  }

  /** What a release produces: the next state and the callback that fired, if any. */
  datatype Release = Release(next: Gesture, fired: Option<Direction>)

  /**
   Touch end and mouse up: ignored outside an interaction; otherwise classify the offset and
   reset unconditionally, whether or not a callback fired.
   */
  function End(g: Gesture, cfg: Config, cbs: Callbacks): (r: Release)
    ensures !g.dragging || g.origin.None? ==> r == Release(g, None)
    ensures g.dragging && g.origin.Some? ==> r.next == Idle
    ensures r.fired == Some(Right) <==>
      g.dragging && g.origin.Some? && Abs(g.offset) > cfg.threshold && g.offset > 0.0 && cbs.onRight
    ensures r.fired == Some(Left) <==>
      g.dragging && g.origin.Some? && Abs(g.offset) > cfg.threshold && g.offset < 0.0 && cbs.onLeft
  {
    if !g.dragging || g.origin.None? then Release(g, None)
    else Release(Idle, Classify(g.offset, cfg, cbs))
  }

  /** The raw input events the strip listens to. */
  datatype Event =
    | TouchBegan(touches: seq<Point>)
    | TouchMoved(at: Point)
    | TouchEnded
    | MousePressed(at: Point)
    | MouseMoved(at: Point)
    | MouseReleased
    | MouseLeft

  /** The mouse move, up and leave listeners are attached only while dragging. */
  predicate Attached(g: Gesture, e: Event) {
    match e
    case MouseMoved(_) => g.dragging
    case MouseReleased => g.dragging
    case MouseLeft => g.dragging
    case _ => true
  }

  predicate IsRelease(e: Event) {
    e.TouchEnded? || e.MouseReleased? || e.MouseLeft?
  }

  /** Dispatch of one event to its handler; leaving the strip is handled as a mouse up. */
  function Handle(g: Gesture, e: Event, cfg: Config, cbs: Callbacks): (r: Release)
    ensures !Attached(g, e) ==> r == Release(g, None)
    ensures r.fired.Some? ==> IsRelease(e) && g.dragging && r.next == Idle
    ensures IsRelease(e) && g.dragging && g.origin.Some? ==> r.next == Idle
    ensures !IsRelease(e) ==> r.fired == None
  {
    if !Attached(g, e) then Release(g, None)
    else
      match e
      case TouchBegan(ts) => Release(TouchStart(g, ts), None)
      case TouchMoved(p) => Release(TouchMove(g, p, cfg), None)
      case TouchEnded => End(g, cfg, cbs)
      case MousePressed(p) => Release(MouseDown(g, p), None)
      case MouseMoved(p) => Release(MouseMove(g, p, cfg), None)
      case MouseReleased => End(g, cfg, cbs)
      case MouseLeft => End(g, cfg, cbs)
  }

  /** Pointer leave behaves exactly like pointer up, in every state. */
  lemma MouseLeaveIsMouseUp(g: Gesture, cfg: Config, cbs: Callbacks)
    ensures Handle(g, MouseLeft, cfg, cbs) == Handle(g, MouseReleased, cfg, cbs)
  {
  }

  /** The number of release events in a stream. */
  function Releases(es: seq<Event>): nat {
    if es == [] then 0 else (if IsRelease(es[0]) then 1 else 0) + Releases(es[1..])
  }

  /** The state after a stream of events, and the callbacks fired along the way, in order. */
  datatype Trace = Trace(final: Gesture, fired: seq<Direction>)

  function Run(g: Gesture, es: seq<Event>, cfg: Config, cbs: Callbacks): (t: Trace)
    ensures |t.fired| <= Releases(es)
    ensures !cbs.onLeft ==> Left !in t.fired
    ensures !cbs.onRight ==> Right !in t.fired
    decreases |es|
  {
    if es == [] then Trace(g, [])
    else
      var r := Handle(g, es[0], cfg, cbs);
      var rest := Run(r.next, es[1..], cfg, cbs);
      Trace(rest.final, (if r.fired.Some? then [r.fired.value] else []) + rest.fired)
  }

  /** One step of a run: the first event's handler, then the rest of the stream. */
  lemma RunStep(g: Gesture, e: Event, rest: seq<Event>, cfg: Config, cbs: Callbacks)
    ensures var r := Handle(g, e, cfg, cbs);
      Run(g, [e] + rest, cfg, cbs) ==
        Trace(Run(r.next, rest, cfg, cbs).final,
              (if r.fired.Some? then [r.fired.value] else []) + Run(r.next, rest, cfg, cbs).fired)
  {
    assert ([e] + rest)[1..] == rest;
  }

  /**
   The tracker's invariant: an origin is recorded exactly while dragging, the offset is zero
   between interactions, and with zero resistance the offset never passes the threshold.
   */
  predicate Inv(g: Gesture, cfg: Config) {
    && (g.dragging <==> g.origin.Some?)
    && (!g.dragging ==> g.offset == 0.0)
    && (cfg.resistance == 0.0 ==> Abs(g.offset) <= cfg.threshold)
  }

  lemma IdleInv(cfg: Config)
    requires 0.0 <= cfg.threshold
    ensures Inv(Idle, cfg)
  {
  }

  lemma HandleInv(g: Gesture, e: Event, cfg: Config, cbs: Callbacks)
    requires 0.0 <= cfg.threshold && 0.0 <= cfg.resistance
    requires Inv(g, cfg)
    ensures Inv(Handle(g, e, cfg, cbs).next, cfg)
  {
    match e
    case TouchMoved(p) =>
      if g.dragging && TouchOriginSet(g) {
        ResistExceedsThreshold(p.x - g.origin.value.x, cfg);
      }
    case MouseMoved(p) =>
      if g.dragging && g.origin.Some? {
        ResistExceedsThreshold(p.x - g.origin.value.x, cfg);
      }
    case _ =>
  }

  /** Every event stream keeps the invariant. */
  lemma {:induction false} RunInv(g: Gesture, es: seq<Event>, cfg: Config, cbs: Callbacks)
    requires 0.0 <= cfg.threshold && 0.0 <= cfg.resistance
    requires Inv(g, cfg)
    ensures Inv(Run(g, es, cfg, cbs).final, cfg)
    decreases |es|
  {
    if es != [] {
      HandleInv(g, es[0], cfg, cbs);
      RunInv(Handle(g, es[0], cfg, cbs).next, es[1..], cfg, cbs);
    }
  }

  /** With zero resistance no stream of events, from a reachable state, ever produces a swipe. */
  lemma {:induction false} NoSwipeWithoutResistance(g: Gesture, es: seq<Event>, cfg: Config, cbs: Callbacks)
    requires 0.0 <= cfg.threshold && cfg.resistance == 0.0
    requires Inv(g, cfg)
    ensures Run(g, es, cfg, cbs).fired == []
    decreases |es|
  {
    if es != [] {
      HandleInv(g, es[0], cfg, cbs);
      NoSwipeWithoutResistance(Handle(g, es[0], cfg, cbs).next, es[1..], cfg, cbs);
    }
  }

  /**
   With positive resistance a drag is a swipe exactly when the raw travel of the last accepted
   move passed the threshold, in the direction of that travel.
   */
  lemma SwipeExactlyBeyondThreshold(dx: real, cfg: Config)
    requires 0.0 <= cfg.threshold && 0.0 < cfg.resistance
    ensures Classify(Resist(dx, cfg), cfg, Callbacks(true, true)) ==
      if dx > cfg.threshold then Some(Right)
      else if dx < -cfg.threshold then Some(Left)
      else None
  {
    ResistExceedsThreshold(dx, cfg);
    if Abs(dx) > cfg.threshold {
      ResistMagnitude(dx, cfg);
    }
  }

  /** A complete mouse drag: press, one horizontal move, release. */
  lemma MouseDragClassified(g: Gesture, from: Point, to: Point, cfg: Config, cbs: Callbacks)
    requires 0.0 <= cfg.threshold && 0.0 < cfg.resistance
    requires Abs(to.x - from.x) >= Abs(to.y - from.y)
    ensures var t := Run(g, [MousePressed(from), MouseMoved(to), MouseReleased], cfg, cbs);
      && t.final == Idle
      && (t.fired == [Right] <==> to.x - from.x > cfg.threshold && cbs.onRight)
      && (t.fired == [Left] <==> from.x - to.x > cfg.threshold && cbs.onLeft)
      && (Abs(to.x - from.x) <= cfg.threshold ==> t.fired == [])
  {
    var g1 := MouseDown(g, from);
    var g2 := MouseMove(g1, to, cfg);
    var fired := Classify(g2.offset, cfg, cbs);
    MouseDragRun(g, from, to, cfg, cbs);
    assert g2.offset == Resist(to.x - from.x, cfg);
    SwipeExactlyBeyondThreshold(to.x - from.x, cfg);
    ResistExceedsThreshold(to.x - from.x, cfg);
  }

  lemma MouseDragRun(g: Gesture, from: Point, to: Point, cfg: Config, cbs: Callbacks)
    ensures var g2 := MouseMove(MouseDown(g, from), to, cfg);
      var fired := Classify(g2.offset, cfg, cbs);
      Run(g, [MousePressed(from), MouseMoved(to), MouseReleased], cfg, cbs) ==
        Trace(Idle, if fired.Some? then [fired.value] else [])
  {
    var g1 := MouseDown(g, from);
    var g2 := MouseMove(g1, to, cfg);
    var fired := Classify(g2.offset, cfg, cbs);
    var last := if fired.Some? then [fired.value] else [];
    assert g2.dragging && g2.origin.Some?;
    assert Handle(g2, MouseReleased, cfg, cbs) == Release(Idle, fired);
    RunStep(g2, MouseReleased, [], cfg, cbs);
    assert [MouseReleased] + [] == [MouseReleased];
    assert Run(g2, [MouseReleased], cfg, cbs) == Trace(Idle, last);
    assert Handle(g1, MouseMoved(to), cfg, cbs) == Release(g2, None);
    RunStep(g1, MouseMoved(to), [MouseReleased], cfg, cbs);
    assert [MouseMoved(to)] + [MouseReleased] == [MouseMoved(to), MouseReleased];
    assert Run(g1, [MouseMoved(to), MouseReleased], cfg, cbs) == Trace(Idle, last);
    assert Handle(g, MousePressed(from), cfg, cbs) == Release(g1, None);
    RunStep(g, MousePressed(from), [MouseMoved(to), MouseReleased], cfg, cbs);
    assert [MousePressed(from)] + [MouseMoved(to), MouseReleased] == [MousePressed(from), MouseMoved(to), MouseReleased];
  }

  /**
   The touch-move guard tests the origin for truthiness: a touch that starts at x = 0 or
   y = 0 never moves the offset, so it can never be classified as a swipe.
   */
  lemma TouchAtZeroOriginNeverSwipes(x: real, y: real, to: Point, cfg: Config, cbs: Callbacks)
    requires x == 0.0 || y == 0.0
    requires 0.0 <= cfg.threshold
    ensures var t := Run(Idle, [TouchBegan([Point(x, y)]), TouchMoved(to), TouchEnded], cfg, cbs);
      t.final == Idle && t.fired == []
  {
    var g1 := TouchStart(Idle, [Point(x, y)]);
    assert g1 == Gesture(Some(Point(x, y)), true, 0.0);
    assert !TouchOriginSet(g1);
    assert Handle(g1, TouchEnded, cfg, cbs) == Release(Idle, None);
    RunStep(g1, TouchEnded, [], cfg, cbs);
    assert [TouchEnded] + [] == [TouchEnded];
    assert Run(g1, [TouchEnded], cfg, cbs) == Trace(Idle, []);
    assert Handle(g1, TouchMoved(to), cfg, cbs) == Release(g1, None);
    RunStep(g1, TouchMoved(to), [TouchEnded], cfg, cbs);
    assert [TouchMoved(to)] + [TouchEnded] == [TouchMoved(to), TouchEnded];
    assert Run(g1, [TouchMoved(to), TouchEnded], cfg, cbs) == Trace(Idle, []);
    assert Handle(Idle, TouchBegan([Point(x, y)]), cfg, cbs) == Release(g1, None);
    RunStep(Idle, TouchBegan([Point(x, y)]), [TouchMoved(to), TouchEnded], cfg, cbs);
    assert [TouchBegan([Point(x, y)])] + [TouchMoved(to), TouchEnded] == [TouchBegan([Point(x, y)]), TouchMoved(to), TouchEnded];
  }

  /**
   Touch and mouse differ on vertical drags: the touch offset follows the horizontal travel
   even when vertical travel dominates, the mouse offset stays put.
   */
  lemma VerticalDragTouchVersusMouse(g: Gesture, at: Point, cfg: Config)
    requires g.dragging && TouchOriginSet(g)
    requires Abs(at.x - g.origin.value.x) < Abs(at.y - g.origin.value.y)
    ensures TouchMove(g, at, cfg).offset == Resist(at.x - g.origin.value.x, cfg)
    ensures MouseMove(g, at, cfg) == g
    ensures !TouchMoveSuppressesScroll(g, at)
  {
  }
}
