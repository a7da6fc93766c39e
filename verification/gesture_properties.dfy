/** What the handlers of EventListenerGesture add up to: the swipe rule's
    symmetries, the listener invariant over any sequence of inputs, at most
    one classification per touch, the three possible outcomes of a complete
    touch, and the consequence of onTouchCancelled leaving the poll scheduled.
 */
module GestureProperties {
  import opened GestureModel

  /** Every user callback is set. */
  predicate AllSet(h: Handlers) {
    h.onTap && h.onLongTapBegan && h.onLongTapEnded && h.onSwipe
  }

  /** Nothing that releases the finger: neither onTouchEnded nor onTouchCancelled. */
  predicate WithinTouch(inputs: seq<Input>) {
    forall k :: 0 <= k < |inputs| ==> !inputs[k].ClosesTouch()
  }

  /** What can happen between two touches: polls and threshold changes. */
  predicate BetweenTouches(inputs: seq<Input>) {
    forall k :: 0 <= k < |inputs| ==> inputs[k].Tick? || inputs[k].SetLongTap? || inputs[k].SetSwipe?
  }

  /** The callbacks of one complete touch when every callback is set: a tap,
      a swipe with a real direction, or a long tap that began and ended. */
  predicate OneGesture(fired: seq<Callback>) {
    || fired == [TapCalled]
    || (|fired| == 1 && fired[0].SwipeCalled? && fired[0].dir != NoSwipe)
    || (|fired| == 2 && fired[0].LongTapBeganCalled? && fired[1] == LongTapEndedCalled)
  }

  // ---------------------------------------------------------------------
  // The swipe rule

  /** A detected swipe moved strictly past the threshold in its own direction. */
  lemma SwipePastThreshold(dx: int, dy: int, threshold: real)
    ensures SwipeDirectionOf(dx, dy, threshold) == Right ==> dx as real > threshold
    ensures SwipeDirectionOf(dx, dy, threshold) == Left ==> -dx as real > threshold
    ensures SwipeDirectionOf(dx, dy, threshold) == Up ==> dy as real > threshold
    ensures SwipeDirectionOf(dx, dy, threshold) == Down ==> -dy as real > threshold
  {
  }

  /** Mirroring the displacement horizontally mirrors the direction. */
  lemma SwipeMirror(dx: int, dy: int, threshold: real)
    requires threshold >= 0.0
    ensures SwipeDirectionOf(-dx, dy, threshold) == MirrorX(SwipeDirectionOf(dx, dy, threshold))
  {
  }

  /** Lowering the threshold never changes a swipe already detected. */
  lemma SwipeThresholdMonotone(dx: int, dy: int, lo: real, hi: real)
    requires lo <= hi
    requires SwipeDirectionOf(dx, dy, hi) != NoSwipe
    ensures SwipeDirectionOf(dx, dy, lo) == SwipeDirectionOf(dx, dy, hi)
  {
  }

  /** What the setters' guard buys: with a positive swipe threshold, a
      finger that has not moved since touch-down is never a swipe. (With a
      negative threshold the swipe rule would call it a swipe to the right.) */
  lemma StillFingerIsNoSwipe(s: State)
    requires Valid(s) && s.gestureType == NoGesture
    ensures TouchMoved(s, s.touchStartPos) == Step(s.(touchNowPos := s.touchStartPos), [])
  {
  }

  /** A non-positive threshold would turn a finger that never moved into a swipe. */
  lemma NonPositiveThresholdSwipesInPlace()
    ensures SwipeDirectionOf(0, 0, -1.0) == Right && SwipeDirectionOf(0, 0, 0.0) == NoSwipe
  {
  }

  /** With a positive long-tap threshold, a poll at the very instant of
      touch-down never announces a long tap. */
  lemma NoLongTapAtTouchDown(s: State)
    requires Valid(s) && s.gestureType == NoGesture
    ensures UpdateInTouch(s, s.touchStartTime) == Step(s, [])
  {
  }

  // ---------------------------------------------------------------------
  // Runs of inputs

  /** Running two sequences one after the other is running their concatenation. */
  lemma {:induction false} RunAppend(s: State, a: seq<Input>, b: seq<Input>)
    ensures Run(s, a + b) == Step(Run(Run(s, a).next, b).next, Run(s, a).fired + Run(Run(s, a).next, b).fired)
    decreases |a|
  {
    if a == [] {
      assert a + b == b;
    } else {
      var first := Dispatch(s, a[0]);
      assert (a + b)[0] == a[0];
      assert (a + b)[1..] == a[1..] + b;
      RunAppend(first.next, a[1..], b);
    }
  }

  /** The invariant holds after any sequence of inputs: both thresholds stay
      positive and Tap is never the recorded gesture. */
  lemma {:induction false} RunPreservesValid(s: State, inputs: seq<Input>)
    requires Valid(s)
    ensures Valid(Run(s, inputs).next)
    decreases |inputs|
  {
    if inputs != [] {
      RunPreservesValid(Dispatch(s, inputs[0]).next, inputs[1..]);
    }
  }

  /** No input changes the thresholds except the two setters, and none
      changes the callbacks. */
  lemma {:induction false} RunKeepsConfig(s: State, inputs: seq<Input>)
    requires forall k :: 0 <= k < |inputs| ==> !inputs[k].SetLongTap? && !inputs[k].SetSwipe?
    ensures SameConfig(s, Run(s, inputs).next)
    decreases |inputs|
  {
    if inputs != [] {
      RunKeepsConfig(Dispatch(s, inputs[0]).next, inputs[1..]);
    }
  }

  /** One input that does not release the finger fires at most one callback,
      which announces a classification and leaves one recorded; once a
      gesture is recorded such an input fires nothing and keeps it. */
  lemma DispatchWithinTouch(s: State, i: Input)
    requires !i.ClosesTouch()
    ensures var r := Dispatch(s, i);
      && |r.fired| <= 1
      && (forall c :: c in r.fired ==> c.StartsGesture())
      && (r.fired != [] ==> s.gestureType == NoGesture && r.next.gestureType != NoGesture)
      && (s.gestureType != NoGesture ==> r.fired == [] && r.next.gestureType == s.gestureType)
      && r.next.handlers == s.handlers
  {
  }

  /** At most one classification per touch: until the finger is released,
      the listener fires at most one callback, a swipe or the beginning of a
      long tap, never both; once a gesture is recorded it fires nothing. */
  lemma {:induction false} AtMostOneGesturePerTouch(s: State, inputs: seq<Input>)
    requires WithinTouch(inputs)
    ensures var r := Run(s, inputs);
      && |r.fired| <= 1
      && (forall c :: c in r.fired ==> c.StartsGesture())
      && (s.gestureType != NoGesture ==> r.fired == [] && r.next.gestureType == s.gestureType)
      && (r.fired != [] ==> r.next.gestureType != NoGesture)
    decreases |inputs|
  {
    if inputs != [] {
      var first := Dispatch(s, inputs[0]);
      DispatchWithinTouch(s, inputs[0]);
      assert WithinTouch(inputs[1..]) by {
        forall k | 0 <= k < |inputs[1..]| ensures !inputs[1..][k].ClosesTouch() {
          assert inputs[1..][k] == inputs[k + 1];
        }
      }
      AtMostOneGesturePerTouch(first.next, inputs[1..]);
    }
  }

  /** While the finger is down and every callback is set, the recorded
      gesture and the callbacks agree: either nothing was recognised and
      nothing fired, or exactly one announcement fired and the gesture it
      announces is recorded. */
  lemma {:induction false} ClassifiedWithinTouch(s: State, inputs: seq<Input>)
    requires AllSet(s.handlers) && s.gestureType != Tap
    requires WithinTouch(inputs)
    ensures var r := Run(s, inputs);
      && r.next.handlers == s.handlers
      && r.next.gestureType != Tap
      && (r.fired == [] ==> r.next.gestureType == s.gestureType)
      && (r.fired != [] ==>
            && s.gestureType == NoGesture && |r.fired| == 1
            && (r.fired[0].SwipeCalled? ==> r.fired[0].dir != NoSwipe && r.next.gestureType == Swipe)
            && (r.fired[0].LongTapBeganCalled? ==> r.next.gestureType == LongTap))
      && (r.fired != [] ==> r.fired[0].StartsGesture())
    decreases |inputs|
  {
    AtMostOneGesturePerTouch(s, inputs);
    if inputs != [] {
      var first := Dispatch(s, inputs[0]);
      DispatchWithinTouch(s, inputs[0]);
      assert WithinTouch(inputs[1..]) by {
        forall k | 0 <= k < |inputs[1..]| ensures !inputs[1..][k].ClosesTouch() {
          assert inputs[1..][k] == inputs[k + 1];
        }
      }
      ClassifiedWithinTouch(first.next, inputs[1..]);
      AtMostOneGesturePerTouch(first.next, inputs[1..]);
    }
  }

  /** A complete touch from an idle listener, with every callback set, fires
      exactly one of: onTap; onSwipe with a real direction; onLongTapBegan
      followed by onLongTapEnded. Afterwards the listener is idle again and
      the poll is unscheduled. */
  lemma TouchOutcome(s: State, location: Vec2, now: real, moves: seq<Input>)
    requires Idle(s) && AllSet(s.handlers)
    requires WithinTouch(moves)
    ensures var r := Run(s, [Began(location, now)] + moves + [Ended]);
      OneGesture(r.fired) && Idle(r.next) && !r.next.polling
  {
    var began := Dispatch(s, Began(location, now));
    var middle := Run(began.next, moves);
    var ended := Dispatch(middle.next, Ended);
    RunAppend(s, [Began(location, now)], moves);
    RunAppend(s, [Began(location, now)] + moves, [Ended]);
    assert Run(middle.next, [Ended]) == Step(ended.next, ended.fired);
    ClassifiedWithinTouch(began.next, moves);
    assert began.fired == [];
  }

  // ---------------------------------------------------------------------
  // onTouchCancelled leaves the poll scheduled

  /** Between touches, an idle listener whose poll is unscheduled fires
      nothing and stays idle and unscheduled. */
  lemma {:induction false} QuietBetweenTouches(s: State, inputs: seq<Input>)
    requires Idle(s) && !s.polling
    requires BetweenTouches(inputs)
    ensures var r := Run(s, inputs);
      r.fired == [] && Idle(r.next) && !r.next.polling && r.next.handlers == s.handlers
    decreases |inputs|
  {
    if inputs != [] {
      assert BetweenTouches(inputs[1..]) by {
        forall k | 0 <= k < |inputs[1..]|
          ensures inputs[1..][k].Tick? || inputs[1..][k].SetLongTap? || inputs[1..][k].SetSwipe?
        {
          assert inputs[1..][k] == inputs[k + 1];
        }
      }
      QuietBetweenTouches(Dispatch(s, inputs[0]).next, inputs[1..]);
    }
  }

  /** As written: after a cancelled touch the poll keeps running, announces a
      long tap although no finger is down, and the next quick tap (touch-down
      immediately followed by touch-up) is then reported through
      onLongTapEnded instead of onTap. */
  lemma CancelledTouchSpoilsNextTap()
    ensures var s := Initial(Handlers(true, true, true, true));
      var r := Run(s, [Began(Vec2(0, 0), 0.0), Cancelled, Tick(1.0), Began(Vec2(3, 4), 2.0), Ended]);
      r.fired == [LongTapBeganCalled(Vec2(0, 0)), LongTapEndedCalled]
  {
    var s := Initial(Handlers(true, true, true, true));
    var s1 := TouchBegan(s, Vec2(0, 0), 0.0);
    var s2 := TouchCancelled(s1);
    assert s2.polling && s2.gestureType == NoGesture;
    var t3 := UpdateInTouch(s2, 1.0);
    assert t3.fired == [LongTapBeganCalled(Vec2(0, 0))] && t3.next.gestureType == LongTap;
    var s4 := TouchBegan(t3.next, Vec2(3, 4), 2.0);
    var t5 := TouchEnded(s4);
    assert t5.fired == [LongTapEndedCalled];
  }

  /** onTouchCancelled as evidently intended: like onTouchEnded it also
      unschedules the poll, but fires nothing. */
  function TouchCancelledIntended(s: State): (r: State)
    ensures Idle(r) && !r.polling && SameConfig(s, r)
    ensures r == s.(isTouched := false, gestureType := NoGesture, polling := false)
    ensures Valid(s) ==> Valid(r)
  {
    s.(isTouched := false, gestureType := NoGesture, polling := false)
  }

  /** With the intended cancellation, whatever happens between touches, the
      next complete touch is classified afresh: it fires exactly one of the
      three outcomes of TouchOutcome. */
  lemma CancelThenTouchIntended(s: State, waits: seq<Input>, location: Vec2, now: real, moves: seq<Input>)
    requires AllSet(s.handlers)
    requires BetweenTouches(waits) && WithinTouch(moves)
    ensures var c := TouchCancelledIntended(s);
      var w := Run(c, waits);
      var r := Run(w.next, [Began(location, now)] + moves + [Ended]);
      w.fired == [] && OneGesture(r.fired) && Idle(r.next)
  {
    var c := TouchCancelledIntended(s);
    QuietBetweenTouches(c, waits);
    TouchOutcome(Run(c, waits).next, location, now, moves);
  }
}
