/** The touch-gesture recognizer of EventListenerGesture as values.

    A listener classifies one continuous touch as a tap, a long tap or a swipe.
    Every touch handler is modelled here as a pure transition from the
    listener's fields before the call to its fields after the call, together
    with the user callbacks the call fires. The class in module
    GestureListener updates its fields in place and is specified by these
    transitions; module GestureProperties proves what they add up to over a
    whole touch.
 */
module GestureModel {

  /** EventListenerGesture::SwipeDirection. */
  datatype SwipeDirection = NoSwipe | Up | Down | Left | Right {
    predicate IsHorizontal() { this == Left || this == Right }
    predicate IsVertical() { this == Up || this == Down }
  }

  /** EventListenerGesture::GestureType. EventListenerGesture declares Tap
      but never assigns it; Valid below records that no reachable state holds it. */
  datatype GestureType = NoGesture | Tap | LongTap | Swipe

  /** A touch location. EventListenerGesture casts coordinate differences to
      int before it compares them, so integer coordinates are enough. */
  datatype Vec2 = Vec2(x: int, y: int)

  /** Which of the four user callbacks (onTap, onLongTapBegan, onLongTapEnded,
      onSwipe) are set; a callback that is not set is skipped. */
  datatype Handlers = Handlers(onTap: bool, onLongTapBegan: bool, onLongTapEnded: bool, onSwipe: bool)

  /** One invocation of a user callback, as recorded in the listener's log.
      onSwipe receives the direction and the displacement since touch-down. */
  datatype Callback =
    | TapCalled
    | LongTapBeganCalled(pos: Vec2)
    | LongTapEndedCalled
    | SwipeCalled(dir: SwipeDirection, delta: Vec2)
  {
    /** The callbacks that announce a classification while the finger is down. */
    predicate StartsGesture() { LongTapBeganCalled? || SwipeCalled? }
  }

  const DefaultLongTapThresholdSeconds: real := 0.1
  const DefaultSwipeThresholdDistance: real := 10.0

  /** The fields of one listener. `polling` says whether _updateInTouch is
      scheduled with the engine's scheduler. */
  datatype State = State(
    longTapThresholdSeconds: real,
    swipeThresholdDistance: real,
    handlers: Handlers,
    touchStartTime: real,
    touchStartPos: Vec2,
    touchNowPos: Vec2,
    gestureType: GestureType,
    isTouched: bool,
    polling: bool)

  /** The new fields after a handler, and the callbacks it fired, in order. */
  datatype Step = Step(next: State, fired: seq<Callback>)

  /** The listener invariant: both thresholds positive, Tap never held. */
  predicate Valid(s: State) {
    s.longTapThresholdSeconds > 0.0 && s.swipeThresholdDistance > 0.0 && s.gestureType != Tap
  }

  /** No touch in progress and no gesture recognised. */
  predicate Idle(s: State) {
    !s.isTouched && s.gestureType == NoGesture
  }

  /** The thresholds and the callbacks: the part of a listener that no touch handler changes. */
  predicate SameConfig(s: State, t: State) {
    s.longTapThresholdSeconds == t.longTapThresholdSeconds
    && s.swipeThresholdDistance == t.swipeThresholdDistance
    && s.handlers == t.handlers
  }

  function Abs(n: int): nat {
    if n < 0 then -n else n
  }

  /** The displacement along the dominant axis. */
  function Dominant(dx: int, dy: int): nat {
    if Abs(dx) >= Abs(dy) then Abs(dx) else Abs(dy)
  }

  /** A listener as the constructor leaves it: default thresholds, no touch. */
  function Initial(handlers: Handlers): (s: State)
    ensures Valid(s) && Idle(s) && !s.polling
    ensures s.handlers == handlers
    ensures s.touchStartTime == 0.0 && s.touchStartPos == Vec2(0, 0) && s.touchNowPos == Vec2(0, 0)
    ensures s.longTapThresholdSeconds == DefaultLongTapThresholdSeconds
    ensures s.swipeThresholdDistance == DefaultSwipeThresholdDistance
  {
    State(DefaultLongTapThresholdSeconds, DefaultSwipeThresholdDistance, handlers,
          0.0, Vec2(0, 0), Vec2(0, 0), NoGesture, false, false)
  }

  /** The swipe rule of onTouchMoved: the dominant axis decides (a tie goes
      to the horizontal axis), the displacement along it must strictly exceed
      the threshold, and its sign gives the direction. */
  function SwipeDirectionOf(dx: int, dy: int, threshold: real): (d: SwipeDirection)
    ensures d != NoSwipe <==> Dominant(dx, dy) as real > threshold
    ensures d.IsHorizontal() ==> Abs(dy) <= Abs(dx) && Abs(dx) as real > threshold
    ensures d.IsVertical() ==> Abs(dx) < Abs(dy) && Abs(dy) as real > threshold
    ensures d == Right ==> dx >= 0
    ensures d == Left ==> dx < 0
    ensures d == Up ==> dy >= 0
    ensures d == Down ==> dy < 0
  {
    if Abs(dx) >= Abs(dy) then
      if Abs(dx) as real > threshold then (if dx >= 0 then Right else Left) else NoSwipe
    else
      if Abs(dy) as real > threshold then (if dy >= 0 then Up else Down) else NoSwipe
  }

  /** Mirroring a direction across the vertical axis. */
  function MirrorX(d: SwipeDirection): SwipeDirection {
    match d
    case Left => Right
    case Right => Left
    case _ => d
  }

  /** onTouchBegan: refused (and nothing changes) while a touch is in progress;
      otherwise the touch is claimed, its start time and position recorded
      and the poll scheduled. The gesture type is not reset here. */
  function TouchBegan(s: State, location: Vec2, now: real): (r: State)
    ensures s.isTouched ==> r == s
    ensures !s.isTouched ==>
      r.isTouched && r.polling
      && r.touchStartPos == location && r.touchNowPos == location && r.touchStartTime == now
      && r.gestureType == s.gestureType && SameConfig(s, r)
    ensures Valid(s) ==> Valid(r)
  {
    if s.isTouched then s
    else s.(isTouched := true, touchStartTime := now, touchStartPos := location,
            touchNowPos := location, polling := true)
  }

  /** onTouchCancelled: the touch is released and the classification cleared,
      without any callback. The poll is left scheduled, as EventListenerGesture
      does it. */
  function TouchCancelled(s: State): (r: State)
    ensures Idle(r) && SameConfig(s, r)
    ensures r.polling == s.polling
    ensures r == s.(isTouched := false, gestureType := NoGesture)
    ensures Valid(s) ==> Valid(r)
  {
    s.(isTouched := false, gestureType := NoGesture)
  }

  /** onTouchMoved: ignored once a gesture is recognised; otherwise the
      current position is recorded and, when the displacement since
      touch-down crosses the swipe threshold, the touch becomes a swipe and
      onSwipe receives the direction and the displacement. */
  function TouchMoved(s: State, location: Vec2): (r: Step)
    ensures s.gestureType != NoGesture ==> r == Step(s, [])
    ensures s.gestureType == NoGesture ==>
      var delta := Vec2(location.x - s.touchStartPos.x, location.y - s.touchStartPos.y);
      var d := SwipeDirectionOf(delta.x, delta.y, s.swipeThresholdDistance);
      && r.next.touchNowPos == location
      && (r.next.gestureType == Swipe <==> d != NoSwipe)
      && (r.next.gestureType == NoGesture <==> d == NoSwipe)
      && r.fired == (if d != NoSwipe && s.handlers.onSwipe then [SwipeCalled(d, delta)] else [])
    ensures r.next.isTouched == s.isTouched && r.next.polling == s.polling
    ensures r.next.touchStartPos == s.touchStartPos && r.next.touchStartTime == s.touchStartTime
    ensures SameConfig(s, r.next)
    ensures Valid(s) ==> Valid(r.next)
  {
    if s.gestureType != NoGesture then Step(s, [])
    else
      var now := location;
      var xDiff := now.x - s.touchStartPos.x;
      var yDiff := now.y - s.touchStartPos.y;
      var d := SwipeDirectionOf(xDiff, yDiff, s.swipeThresholdDistance);
      if d != NoSwipe then
        Step(s.(touchNowPos := now, gestureType := Swipe),
             if s.handlers.onSwipe then [SwipeCalled(d, Vec2(xDiff, yDiff))] else [])
      else
        Step(s.(touchNowPos := now), [])
  }

  /** _updateInTouch, the scheduled poll: once a gesture is recognised it
      unschedules itself and changes nothing else; otherwise, when the time
      since touch-down strictly exceeds the long-tap threshold, the touch
      becomes a long tap and onLongTapBegan receives the current position. */
  function UpdateInTouch(s: State, now: real): (r: Step)
    ensures s.gestureType != NoGesture ==> r == Step(s.(polling := false), [])
    ensures s.gestureType == NoGesture ==>
      var crossed := now - s.touchStartTime > s.longTapThresholdSeconds;
      && (r.next.gestureType == LongTap <==> crossed)
      && (r.next.gestureType == NoGesture <==> !crossed)
      && r.next.polling == s.polling
      && r.fired == (if crossed && s.handlers.onLongTapBegan then [LongTapBeganCalled(s.touchNowPos)] else [])
    ensures r.next == s.(gestureType := r.next.gestureType, polling := r.next.polling)
    ensures Valid(s) ==> Valid(r.next)
  {
    if s.gestureType != NoGesture then Step(s.(polling := false), [])
    else if now - s.touchStartTime > s.longTapThresholdSeconds then
      Step(s.(gestureType := LongTap),
           if s.handlers.onLongTapBegan then [LongTapBeganCalled(s.touchNowPos)] else [])
    else Step(s, [])
  }

  /** onTouchEnded: onTap when nothing was recognised, onLongTapEnded after a
      long tap, nothing after a swipe; in every case the poll is unscheduled
      and the listener returns to idle. */
  function TouchEnded(s: State): (r: Step)
    ensures (TapCalled in r.fired) <==> s.gestureType == NoGesture && s.handlers.onTap
    ensures (LongTapEndedCalled in r.fired) <==> s.gestureType == LongTap && s.handlers.onLongTapEnded
    ensures |r.fired| <= 1 && (forall c :: c in r.fired ==> !c.StartsGesture())
    ensures s.gestureType == Swipe ==> r.fired == []
    ensures Idle(r.next) && !r.next.polling
    ensures r.next == s.(isTouched := false, gestureType := NoGesture, polling := false)
    ensures Valid(s) ==> Valid(r.next)
  {
    var fired :=
      if s.gestureType == NoGesture then (if s.handlers.onTap then [TapCalled] else [])
      else if s.gestureType == LongTap then (if s.handlers.onLongTapEnded then [LongTapEndedCalled] else [])
      else [];
    Step(s.(polling := false, gestureType := NoGesture, isTouched := false), fired)
  }

  /** setLongTapThreshouldSeconds: only a positive value is accepted. */
  function SetLongTapThreshold(s: State, threshold: real): (r: State)
    ensures r.longTapThresholdSeconds == if threshold > 0.0 then threshold else s.longTapThresholdSeconds
    ensures r == s.(longTapThresholdSeconds := r.longTapThresholdSeconds)
    ensures s.longTapThresholdSeconds > 0.0 ==> r.longTapThresholdSeconds > 0.0
  {
    if threshold > 0.0 then s.(longTapThresholdSeconds := threshold) else s
  }

  /** setSwipeThreshouldDistance: only a positive value is accepted. */
  function SetSwipeThreshold(s: State, threshold: real): (r: State)
    ensures r.swipeThresholdDistance == if threshold > 0.0 then threshold else s.swipeThresholdDistance
    ensures r == s.(swipeThresholdDistance := r.swipeThresholdDistance)
    ensures s.swipeThresholdDistance > 0.0 ==> r.swipeThresholdDistance > 0.0
  {
    if threshold > 0.0 then s.(swipeThresholdDistance := threshold) else s
  }

  /** clone: a fresh listener with the callbacks and thresholds of `s`. */
  function Cloned(s: State): (r: State)
    ensures Idle(r) && !r.polling && SameConfig(s, r)
    ensures Valid(s) ==> Valid(r)
  {
    Initial(s.handlers).(longTapThresholdSeconds := s.longTapThresholdSeconds,
                         swipeThresholdDistance := s.swipeThresholdDistance)
  }

  /** What the engine and the application can do to a listener. */
  datatype Input =
    | Began(location: Vec2, now: real)
    | Moved(location: Vec2)
    | Ended
    | Cancelled
    | Tick(now: real)
    | SetLongTap(threshold: real)
    | SetSwipe(threshold: real)
  {
    /** Inputs that close a touch. */
    predicate ClosesTouch() { Ended? || Cancelled? }
  }

  /** One input. The scheduler runs the poll only while it is scheduled:
      touch-began schedules it, touch-ended and the poll's own first run after
      a gesture is recorded unschedule it. Every input fires at most one
      callback and none reassigns the callbacks. */
  function Dispatch(s: State, i: Input): (r: Step)
    ensures i.Tick? && !s.polling ==> r == Step(s, [])
    ensures i.Tick? && s.polling ==> r == UpdateInTouch(s, i.now)
    ensures |r.fired| <= 1 && r.next.handlers == s.handlers
    ensures Valid(s) ==> Valid(r.next)
  {
    match i
    case Began(location, now) => Step(TouchBegan(s, location, now), [])
    case Moved(location) => TouchMoved(s, location)
    case Ended => TouchEnded(s)
    case Cancelled => Step(TouchCancelled(s), [])
    case Tick(now) => if s.polling then UpdateInTouch(s, now) else Step(s, [])
    case SetLongTap(threshold) => Step(SetLongTapThreshold(s, threshold), [])
    case SetSwipe(threshold) => Step(SetSwipeThreshold(s, threshold), [])
  }

  /** A sequence of inputs, from left to right, with every callback fired. */
  function Run(s: State, inputs: seq<Input>): (r: Step)
    ensures |r.fired| <= |inputs|
    ensures r.next.handlers == s.handlers
    decreases |inputs|
  {
    if inputs == [] then Step(s, [])
    else
      var first := Dispatch(s, inputs[0]);
      var rest := Run(first.next, inputs[1..]);
      Step(rest.next, first.fired + rest.fired)
  }
}
