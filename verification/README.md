# EventListenerGesture in Dafny

EventListenerGesture is a cocos2d-x touch listener. It sorts one continuous touch into one of three gestures and invokes the user callback for it:

- a **tap**: the finger is lifted before either threshold is crossed;
- a **long tap**: the finger is held past a time threshold (default 0.1 s);
- a **swipe**: the finger moves past a distance threshold (default 10) along the dominant axis. The sign of the displacement gives the direction.

The listener has a few fields: a reentrancy guard `_isTouched`, the recognised `_gestureType`, the start and current positions, the start time and the two thresholds. Five handlers update them: touch-began, touch-moved, touch-ended, touch-cancelled, and a poll run by the engine's scheduler. Touch-began schedules the poll (EventListenerGesture.cpp:52). Touch-ended unschedules it (cpp:105-106), and so does the poll's own first run after a gesture is recorded (cpp:189-190). Touch-cancelled does not, so the poll can keep running with no finger down (see Findings).

The project has three modules:

- `GestureModel` (gesture_model.dfy) holds the value types and the swipe rule `SwipeDirectionOf`. It writes each handler as a pure transition from the listener's fields to new fields plus the callbacks fired. `Dispatch` and `Run` drive the listener with any sequence of inputs. In `Run`, the scheduler delivers a poll only while the poll is scheduled.
- `GestureListener` (gesture_listener.dfy) holds the class `Listener`. It has the source's fields plus `polling` (is the poll scheduled?) and `log` (every user callback invoked so far). Each method updates the fields in place. Its `ensures` ties the new fields and the new log to the matching transition. The method `SwipeLeftScenario` is a client example that drives one listener through a swipe; it models no source function.
- `GestureProperties` (gesture_properties.dfy) holds what the transitions add up to. The thresholds stay positive. A touch is classified at most once. A complete touch ends in exactly one of three outcomes. It also holds the consequence of touch-cancelled leaving the poll running (see Findings).

Modelling choices:

- The wall clock is a `now: real` argument to touch-began and to the poll. The poll's duration is `now - touchStartTime`.
- Coordinates are integers. The source casts the displacement to `int` before comparing it. Thresholds and times are reals.
- A user callback (`std::function`) counts only as "set or not set" (`Handlers`). A set callback that is invoked appends one `Callback` entry to the log.
- `onSwipe` is declared with only a direction (EventListenerGesture.h:48). It is called with a direction and the displacement vector (EventListenerGesture.cpp:90). The model follows the call: `SwipeCalled(dir, delta)`.
- `GestureType::TAP` is declared (EventListenerGesture.h:30) but never assigned. `Valid` states that no state holds it, and every transition preserves `Valid`.

## Model

| member | source | states |
|---|---|---|
| GestureModel.Initial | EventListenerGesture.cpp:13-26 | a new listener has thresholds 0.1 s and 10, exactly the given callbacks, zero start time and positions, no touch, no gesture and no poll scheduled, and satisfies the invariant |
| GestureModel.SwipeDirectionOf | EventListenerGesture.cpp:69-85 | a swipe is detected exactly when the displacement along the dominant axis strictly exceeds the threshold; a horizontal direction only when the horizontal displacement is at least the vertical one (ties go horizontal), a vertical one only when it is strictly smaller; Right/Left and Up/Down follow the sign of that axis's displacement |
| GestureModel.TouchBegan | EventListenerGesture.cpp:40-54 | while a touch is in progress nothing changes; otherwise the touch is claimed, start and current position become the location, the start time is recorded and the poll is scheduled, leaving the gesture and configuration unchanged; the invariant is preserved |
| GestureModel.TouchCancelled | EventListenerGesture.cpp:56-60 | the listener becomes untouched with no gesture and fires nothing; every other field is kept, including the start time, both positions and the poll schedule |
| GestureModel.TouchMoved | EventListenerGesture.cpp:62-92 | once a gesture is recorded nothing changes and nothing fires; otherwise the current position is recorded, the gesture becomes Swipe exactly when the swipe rule gives a direction, and onSwipe (if set) receives that direction and the displacement since touch-down; touch, start and configuration are untouched |
| GestureModel.UpdateInTouch | EventListenerGesture.cpp:185-200 | once a gesture is recorded the poll unschedules itself and nothing else changes; otherwise the gesture becomes LongTap exactly when the elapsed time strictly exceeds the long-tap threshold, and then onLongTapBegan (if set) receives the current position |
| GestureModel.TouchEnded | EventListenerGesture.cpp:94-109 | onTap fires exactly when no gesture was recorded, onLongTapEnded exactly after a long tap, nothing after a swipe and never a gesture announcement; the listener always ends untouched, with no gesture and no poll |
| GestureModel.SetLongTapThreshold | EventListenerGesture.cpp:128-138 | a positive value replaces the long-tap threshold, any other value leaves it as it was; nothing else changes and a positive threshold stays positive |
| GestureModel.SetSwipeThreshold | EventListenerGesture.cpp:140-150 | a positive value replaces the swipe threshold, any other value leaves it as it was; nothing else changes and a positive threshold stays positive |
| GestureModel.Cloned | EventListenerGesture.cpp:163-183 | the copy has the same callbacks and thresholds, no touch, no gesture and no poll, and satisfies the invariant whenever the original does |
| GestureModel.Dispatch | EventListenerGesture.cpp:40-109 | one input drives the matching handler; a poll is delivered only while it is scheduled and is then exactly `_updateInTouch`; every input fires at most one callback, keeps the callbacks and preserves the invariant |
| GestureModel.Run | EventListenerGesture.cpp:40-109 | a sequence of inputs fires at most one callback per input and never changes which callbacks are set |
| GestureProperties.SwipePastThreshold | EventListenerGesture.cpp:76-85 | a detected direction means the displacement in that direction strictly exceeds the threshold |
| GestureProperties.StillFingerIsNoSwipe | EventListenerGesture.cpp:142-145 | with the positive swipe threshold the setter guarantees, a move back to the touch-down position records nothing and fires nothing |
| GestureProperties.NonPositiveThresholdSwipesInPlace | EventListenerGesture.cpp:142-145 | without that guard a zero displacement would be a right swipe at threshold -1, while at threshold 0 it is none |
| GestureProperties.NoLongTapAtTouchDown | EventListenerGesture.cpp:130-133 | with the positive long-tap threshold the setter guarantees, a poll at the instant of touch-down records nothing and fires nothing |
| GestureProperties.SwipeMirror | EventListenerGesture.cpp:76-85 | negating the horizontal displacement swaps Left and Right and leaves every other outcome unchanged |
| GestureProperties.SwipeThresholdMonotone | EventListenerGesture.cpp:76-85 | a swipe detected at some threshold is detected, in the same direction, at every lower threshold |
| GestureProperties.RunPreservesValid | EventListenerGesture.cpp:128-150 | after any sequence of touches, polls and setter calls, both thresholds are still positive and the Tap gesture is never recorded |
| GestureProperties.RunKeepsConfig | EventListenerGesture.cpp:40-109 | no touch handler and no poll changes the thresholds or the callbacks |
| GestureProperties.DispatchWithinTouch | EventListenerGesture.cpp:62-92 | one touch-began, touch-moved, poll or setter call fires at most one callback, a gesture announcement made only when moving from no gesture to a recorded one; once a gesture is recorded it fires nothing and keeps the gesture |
| GestureProperties.AtMostOneGesturePerTouch | EventListenerGesture.cpp:62-92 | until touch-ended or touch-cancelled, any inputs fire at most one callback, a swipe or a long-tap beginning, so a long tap never follows a swipe in the same touch and a swipe never follows a long tap |
| GestureProperties.ClassifiedWithinTouch | EventListenerGesture.cpp:187-199 | with every callback set, while the finger is down either nothing fired and the gesture is unchanged, or exactly one announcement fired and the recorded gesture is the one announced (Swipe with a real direction, or LongTap) |
| GestureProperties.TouchOutcome | EventListenerGesture.cpp:94-109 | a complete touch from an idle listener with every callback set fires exactly onTap, or exactly one onSwipe with a real direction, or onLongTapBegan followed by onLongTapEnded, and leaves the listener idle with the poll unscheduled |
| GestureProperties.QuietBetweenTouches | EventListenerGesture.cpp:185-200 | an idle listener whose poll is unscheduled fires nothing and stays idle through any polls and setter calls |
| GestureProperties.CancelledTouchSpoilsNextTap | EventListenerGesture.cpp:56-60 | a concrete run: touch-down, cancel, a poll one second later, then a quick touch-down/touch-up fires onLongTapBegan with no finger down and then onLongTapEnded instead of onTap |
| GestureProperties.TouchCancelledIntended | EventListenerGesture.cpp:56-60 | the corrected cancellation leaves the listener idle with the poll unscheduled, configuration kept, invariant preserved |
| GestureProperties.CancelThenTouchIntended | EventListenerGesture.cpp:56-60 | after the corrected cancellation and any polls or setter calls, nothing fires until the next touch, and that touch ends in exactly one of the three outcomes of TouchOutcome |
| GestureListener.Listener.constructor | EventListenerGesture.cpp:16-26 | the fields are those of a new listener with no callback set, the log is empty and the invariant holds |
| GestureListener.Listener.OnTouchBegan | EventListenerGesture.cpp:40-54 | returns true exactly when no touch was in progress; when it returns false nothing changes; the new fields are those of TouchBegan; no callback is invoked |
| GestureListener.Listener.OnTouchCancelled | EventListenerGesture.cpp:56-60 | the new fields are those of TouchCancelled: untouched, no gesture, poll schedule kept, no callback invoked |
| GestureListener.Listener.OnTouchMoved | EventListenerGesture.cpp:62-92 | once a gesture is recorded nothing changes; otherwise the new fields and the callbacks appended to the log are those of TouchMoved |
| GestureListener.Listener.OnTouchEnded | EventListenerGesture.cpp:94-109 | the new fields and the callbacks appended to the log are those of TouchEnded; afterwards untouched, no gesture, no poll |
| GestureListener.Listener.UpdateInTouch | EventListenerGesture.cpp:185-200 | the new fields and the callbacks appended to the log are those of the UpdateInTouch transition; once a gesture is recorded it only unschedules itself |
| GestureListener.Listener.SetLongTapThresholdSeconds | EventListenerGesture.cpp:128-138 | a positive value becomes the long-tap threshold; any other value changes nothing; the invariant is kept |
| GestureListener.Listener.SetSwipeThresholdDistance | EventListenerGesture.cpp:140-150 | a positive value becomes the swipe threshold; any other value changes nothing; the invariant is kept |
| GestureListener.Listener.Clone | EventListenerGesture.cpp:163-183 | returns a new listener with this one's callbacks and thresholds, no touch state and an empty log, valid whenever this one is |

## Left out

- `create`, `autorelease`, `new (std::nothrow)`, `CC_SAFE_DELETE` and the destructor are left out. They are engine memory management. The failure of the base class's `init` is left out with them.
- `checkAvailable`, its `CCASSERT`, and the `CCLOGWARN`/`CCLOGINFO` logging are left out. They are engine interface and diagnostics.
- The scheduler is reduced to the `polling` flag. The poll interval of 0.05 s is not modelled: a poll may arrive at any time argument while scheduled.
- `std::chrono::system_clock` is replaced by the `now` argument. The model does not require successive `now` values to increase.
- Floating point is not modelled. `Vec2` coordinates are integers. Times, thresholds and the `duration<float>` count are exact reals. The model does not capture the float-to-int truncation of a fractional displacement.
- The arguments that onTap and onLongTapEnded receive (`touch->getDelta()`) are supplied by the engine and are not recorded. The bodies of user callbacks are foreign code: the log records only that a callback was invoked.
- The unused field `_beforeTapEndTime` is left out.
- The Touch and Event arguments of the handlers are reduced to the touch location. Delivery order across several listeners is the engine's and is left out.
- GestureModel.Run has no input that reassigns the callbacks. In EventListenerGesture they are public members (EventListenerGesture.h:45-48) that the application may assign at any time; the `Listener` class allows that, but the trace lemmas assume the callbacks stay as they are for the whole run.
- GestureProperties.ClassifiedWithinTouch, GestureProperties.TouchOutcome and GestureProperties.CancelThenTouchIntended are stated only for a listener with every callback set. With a callback unset, the source skips that callback and the gesture is still recorded (see TouchMoved, UpdateInTouch and TouchEnded).

## Findings

| source | as written | input that shows it | evidently intended | confidence | as-written member | corrected member |
|---|---|---|---|---|---|---|
| EventListenerGesture.cpp:56-60 | onTouchCancelled clears `_isTouched` and `_gestureType` but does not unschedule `_updateInTouch`. The poll keeps running after the touch is gone, can record a long tap and fire onLongTapBegan with no finger down. onTouchBegan does not reset `_gestureType`, so the next touch starts as LONG_TAP. A quick tap then ends with onLongTapEnded instead of onTap. | touch-down at time 0; cancel; poll at time 1; touch-down at time 2; touch-up | cancellation also unschedules the poll, as onTouchEnded does (cpp:105-106), so the next touch is classified afresh | medium, not executed | GestureProperties.CancelledTouchSpoilsNextTap | GestureProperties.CancelThenTouchIntended |

The `Listener` class and `GestureModel.TouchCancelled` keep the code's behaviour, because they model the source as written. The corrected transition is `GestureProperties.TouchCancelledIntended`. The lemma `CancelThenTouchIntended` proves the intended property about it.
