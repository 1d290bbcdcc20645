/** What the invariants mean for a user of the service, and where a guarantee has a condition, the exact one. */
module ServiceGuarantees {
  import opened CTypes
  import opened Handler
  import opened PopupCamera
  import opened ServiceInvariants

  // ----- runs -----

  /** A run can be continued by one more step. */
  lemma {:induction false} Extend(s: State, events: seq<Event>, e: Event)
    requires Admits(s, events) && Enabled(Execute(s, events), e)
    ensures Admits(s, events + [e]) && Execute(s, events + [e]) == Next(Execute(s, events), e)
    decreases |events|
  {
    if events == [] {
      assert [e][1..] == [];
    } else {
      Extend(Next(s, events[0]), events[1..], e);
      assert (events + [e])[1..] == events[1..] + [e];
    }
  }

  /** A state the service can be in. */
  ghost predicate Reachable(t: State) {
    exists s: State, events: seq<Event> :: IsInitial(s) && Admits(s, events) && Execute(s, events) == t
  }

  lemma InitialReachable(s: State)
    requires IsInitial(s)
    ensures Reachable(s)
  {
    assert Admits(s, []) && Execute(s, []) == s;
  }

  lemma ReachableNext(t: State, e: Event)
    requires Reachable(t) && Enabled(t, e)
    ensures Reachable(Next(t, e))
  {
    var s: State, events: seq<Event> :| IsInitial(s) && Admits(s, events) && Execute(s, events) == t;
    Extend(s, events, e);
  }

  lemma ReachableFacts(t: State) returns (first: Led)
    requires Reachable(t)
    ensures Invariant(t, first)
  {
    var s: State, events: seq<Event> :| IsInitial(s) && Admits(s, events) && Execute(s, events) == t;
    first := s.led;
    ReachableInvariant(s, events);
  }

  // ----- requests and the busy window -----

  /** Each call of `updateMotor` has run, waits to run or waits to be retried; busy ends within 1200 ms. */
  lemma RequestsConserved(t: State)
    requires Reachable(t)
    ensures |t.log.asked| == |t.log.ran| + |t.queue.runs| + |t.queue.retries|
    ensures t.motorBusy ==> t.queue.resets != [] && t.queue.resets[0] <= t.now + BUSY_TIME
  {
    var first := ReachableFacts(t);
  }

  // ----- the free-fall listener -----

  lemma ListenerAgrees(t: State)
    requires Reachable(t)
    ensures t.listening <==> t.log.lastMove == Some(Popup)
  {
    var first := ReachableFacts(t);
  }

  // ----- the latches -----

  lemma CalibrationsSpaced(t: State)
    requires Reachable(t)
    ensures Spaced(t.log.calibrations, CALIBRATION_TIME)
    ensures |t.queue.releases| == (if t.motorCalibrating then 1 else 0)
  {
    var first := ReachableFacts(t);
  }

  /** At most one error or result dialog is posted or showing, and one is exactly when the flag is set. */
  lemma OneDialog(t: State)
    requires Reachable(t)
    ensures |t.queue.dialogs| + t.dialogs == (if t.errorDialogShowing then 1 else 0)
  {
    var first := ReachableFacts(t);
  }

  // ----- debouncing -----

  /**
   * With `c` the last camera event: messages of the other kind are due already, the last message of kind `c` is due
   * after them, and once no message is left the last one handled was of kind `c`.
   */
  lemma LatestEventWins(t: State, c: CameraState)
    requires Reachable(t) && t.log.lastEvent == Some(c)
    ensures var mine, other := Messages(t, c), Messages(t, Other(c));
      && (forall i :: 0 <= i < |other| ==> other[i] <= EventTime(t, c) <= t.now)
      && (other != [] ==> mine != [] && mine[|mine| - 1] == EventTime(t, c) + CAMERA_EVENT_DELAY_TIME)
      && (mine == [] && other == [] ==> t.log.lastHandled == Some(c))
  {
    var first := ReachableFacts(t);
  }

  // ----- the LED -----

  /** One effect and its restore bring back what an idle LED showed exactly if writing brightness stops breathing or it breathed. */
  lemma RestoreIff(s: State)
    requires !s.ledBusy
    ensures Look(RunRestoreLed(LightUp(s)).led) == Look(s.led) <==> s.led.stops || Look(s.led) == Breathing
  {
  }

  /** After `events` a LED that no effect has claimed shows what it did at first. */
  predicate LedBack(s: State, events: seq<Event>)
    requires Admits(s, events)
  {
    var t := Execute(s, events);
    !t.ledBusy ==> Look(t.led) == Look(s.led)
  }

  /** However effects and restores overlap, provided the driver stops breathing on brightness or the LED breathed. */
  lemma LedRestored(s: State, events: seq<Event>)
    requires IsInitial(s) && Admits(s, events) && (s.led.stops || s.led.breathing)
    ensures LedBack(s, events)
    ensures var t := Execute(s, events);
      && (t.ledBusy || t.queue.restores != [] ==> Saved(t) == Look(s.led))
      && (t.ledBusy ==> t.queue.restores != [])
  {
    ReachableInvariant(s, events);
  }

  const MOVE_OPEN := Env(Some(MOTOR_STATUS_TAKEBACK_OK), true, true, false)
  const MOVE_CLOSE := Env(Some(MOTOR_STATUS_POPUP_OK), true, true, false)

  /** A pop-up with its LED effect, from the request to the restore, 1400 ms later. */
  lemma OneEffect(s: State) returns (events: seq<Event>)
    requires IsInitial(s) && !s.led.stops && !s.led.breathing
    ensures Admits(s, events) && !LedBack(s, events)
  {
    events := [];
    var found := CalibrateMotor(s, true);
    Extend(s, events, CalibrateClicked(true));
    events := events + [CalibrateClicked(true)];
    assert Execute(s, events) == found;

    var asked := UpdateMotor(found, Open);
    Extend(s, events, RaiseClicked);
    events := events + [RaiseClicked];

    var lit := Dispatch(asked, Runs, MOVE_OPEN);
    assert IsFirst(asked.queue, Runs);
    Extend(s, events, Dispatched(Runs, MOVE_OPEN));
    events := events + [Dispatched(Runs, MOVE_OPEN)];

    var later := lit.(now := s.now + BUSY_TIME);
    Extend(s, events, Tick(s.now + BUSY_TIME));
    events := events + [Tick(s.now + BUSY_TIME)];

    var free := Dispatch(later, Resets, MOVE_OPEN);
    assert IsFirst(later.queue, Resets);
    Extend(s, events, Dispatched(Resets, MOVE_OPEN));
    events := events + [Dispatched(Resets, MOVE_OPEN)];

    var over := free.(now := s.now + LED_EFFECT_TIME);
    Extend(s, events, Tick(s.now + LED_EFFECT_TIME));
    events := events + [Tick(s.now + LED_EFFECT_TIME)];

    assert IsFirst(over.queue, Restores);
    Extend(s, events, Dispatched(Restores, MOVE_OPEN));
    events := events + [Dispatched(Restores, MOVE_OPEN)];
  }

  /** Exactly which LEDs every run restores. */
  lemma LedRestoredIff(s: State)
    requires IsInitial(s)
    ensures (forall events :: Admits(s, events) ==> LedBack(s, events)) <==> s.led.stops || s.led.breathing
  {
    if s.led.stops || s.led.breathing {
      forall events | Admits(s, events) ensures LedBack(s, events) {
        LedRestored(s, events);
      }
    } else {
      var events := OneEffect(s);
    }
  }
}
