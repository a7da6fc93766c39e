/** EventListenerGesture as an object whose handlers update its fields in
    place. Each user callback the listener invokes is appended to `log`;
    whether _updateInTouch is scheduled is the field `polling`. Every method
    is specified by the matching transition of module GestureModel.
 */
module GestureListener {
  import opened GestureModel

  class Listener {
    var longTapThresholdSeconds: real
    var swipeThresholdDistance: real
    /** Which of onTap, onLongTapBegan, onLongTapEnded and onSwipe the
        application has set; the application may assign it at any time. */
    var handlers: Handlers
    var touchStartTime: real
    var touchStartPos: Vec2
    var touchNowPos: Vec2
    var gestureType: GestureType
    var isTouched: bool
    var polling: bool
    /** The user callbacks invoked so far, oldest first. */
    var log: seq<Callback>

    /** The fields as one value. */
    function Snapshot(): State
      reads this
    {
      State(longTapThresholdSeconds, swipeThresholdDistance, handlers, touchStartTime,
            touchStartPos, touchNowPos, gestureType, isTouched, polling)
    }

    predicate Valid()
      reads this
    {
      GestureModel.Valid(Snapshot())
    }

    /** The default thresholds, no callback set, no touch. */
    constructor ()
      ensures Snapshot() == Initial(Handlers(false, false, false, false)) && log == []
      ensures Valid()
    {
      longTapThresholdSeconds := DefaultLongTapThresholdSeconds;
      swipeThresholdDistance := DefaultSwipeThresholdDistance;
      handlers := Handlers(false, false, false, false);
      touchStartTime := 0.0;
      touchStartPos := Vec2(0, 0);
      touchNowPos := Vec2(0, 0);
      gestureType := NoGesture;
      isTouched := false;
      polling := false;
      log := [];
    }

    /** onTouchBegan; `claimed` is the value returned to the dispatcher. */
    method OnTouchBegan(location: Vec2, now: real) returns (claimed: bool)
      modifies this
      ensures claimed == !old(isTouched)
      ensures !claimed ==> unchanged(this)
      ensures Snapshot() == TouchBegan(old(Snapshot()), location, now)
      ensures log == old(log)
      ensures old(Valid()) ==> Valid()
    {
      if isTouched {
        return false;
      }
      isTouched := true;
      touchStartTime := now;
      touchStartPos := location;
      touchNowPos := location;
      polling := true;
      claimed := true;
    }

    /** onTouchCancelled. */
    method OnTouchCancelled()
      modifies this
      ensures Snapshot() == TouchCancelled(old(Snapshot()))
      ensures !isTouched && gestureType == NoGesture && polling == old(polling)
      ensures log == old(log)
      ensures old(Valid()) ==> Valid()
    {
      isTouched := false;
      gestureType := NoGesture;
    }

    /** onTouchMoved. */
    method OnTouchMoved(location: Vec2)
      modifies this
      ensures old(gestureType) != NoGesture ==> unchanged(this)
      ensures var r := TouchMoved(old(Snapshot()), location);
        Snapshot() == r.next && log == old(log) + r.fired
      ensures old(Valid()) ==> Valid()
    {
      if gestureType != NoGesture {
        return;
      }
      touchNowPos := location;
      var xDiff := touchNowPos.x - touchStartPos.x;
      var yDiff := touchNowPos.y - touchStartPos.y;
      var swipeDirection := SwipeDirectionOf(xDiff, yDiff, swipeThresholdDistance);
      if swipeDirection != NoSwipe {
        gestureType := Swipe;
        if handlers.onSwipe {
          log := log + [SwipeCalled(swipeDirection, Vec2(xDiff, yDiff))];
        }
      }
    }

    /** onTouchEnded. */
    method OnTouchEnded()
      modifies this
      ensures var r := TouchEnded(old(Snapshot()));
        Snapshot() == r.next && log == old(log) + r.fired
      ensures !isTouched && gestureType == NoGesture && !polling
      ensures old(Valid()) ==> Valid()
    {
      if gestureType == NoGesture {
        if handlers.onTap {
          log := log + [TapCalled];
        }
      } else if gestureType == LongTap {
        if handlers.onLongTapEnded {
          log := log + [LongTapEndedCalled];
        }
      }
      polling := false;
      gestureType := NoGesture;
      isTouched := false;
    }

    /** _updateInTouch, called by the scheduler at `now` while scheduled. */
    method UpdateInTouch(now: real)
      modifies this
      ensures var r := GestureModel.UpdateInTouch(old(Snapshot()), now);
        Snapshot() == r.next && log == old(log) + r.fired
      ensures old(gestureType) != NoGesture ==> !polling && log == old(log)
      ensures old(Valid()) ==> Valid()
    {
      if gestureType != NoGesture {
        polling := false;
        return;
      }
      var duration := now - touchStartTime;
      if duration > longTapThresholdSeconds {
        gestureType := LongTap;
        if handlers.onLongTapBegan {
          log := log + [LongTapBeganCalled(touchNowPos)];
        }
      }
    }

    /** setLongTapThreshouldSeconds. */
    method SetLongTapThresholdSeconds(threshold: real)
      modifies this
      ensures Snapshot() == SetLongTapThreshold(old(Snapshot()), threshold)
      ensures threshold > 0.0 ==> longTapThresholdSeconds == threshold
      ensures threshold <= 0.0 ==> unchanged(this)
      ensures log == old(log)
      ensures old(Valid()) ==> Valid()
    {
      if threshold > 0.0 {
        longTapThresholdSeconds := threshold;
      }
    }

    /** setSwipeThreshouldDistance. */
    method SetSwipeThresholdDistance(threshold: real)
      modifies this
      ensures Snapshot() == SetSwipeThreshold(old(Snapshot()), threshold)
      ensures threshold > 0.0 ==> swipeThresholdDistance == threshold
      ensures threshold <= 0.0 ==> unchanged(this)
      ensures log == old(log)
      ensures old(Valid()) ==> Valid()
    {
      if threshold > 0.0 {
        swipeThresholdDistance := threshold;
      }
    }

    /** clone: a new listener with this one's callbacks and thresholds and
        none of its touch state. */
    method Clone() returns (c: Listener)
      ensures fresh(c)
      ensures c.Snapshot() == Cloned(Snapshot()) && c.log == []
      ensures c.handlers == handlers
      ensures c.longTapThresholdSeconds == longTapThresholdSeconds
      ensures c.swipeThresholdDistance == swipeThresholdDistance
      ensures Valid() ==> c.Valid()
    {
      c := new Listener();
      c.handlers := handlers;
      c.longTapThresholdSeconds := longTapThresholdSeconds;
      c.swipeThresholdDistance := swipeThresholdDistance;
    }
  }

  /** A client: with every callback set, a touch that moves 30 units to the
      left is reported once, as a left swipe, and its touch-up reports nothing. */
  method SwipeLeftScenario() returns (events: seq<Callback>)
    ensures events == [SwipeCalled(Left, Vec2(-30, 2))]
  {
    var g := new Listener();
    g.handlers := Handlers(true, true, true, true);
    var claimed := g.OnTouchBegan(Vec2(100, 100), 0.0);
    assert claimed;
    g.OnTouchMoved(Vec2(95, 101));
    g.OnTouchMoved(Vec2(70, 102));
    g.UpdateInTouch(0.5);
    g.OnTouchMoved(Vec2(10, 102));
    g.OnTouchEnded();
    events := g.log;
  }
}
