/** Whether the motor ends as it was asked last: requests may overtake one another, unless none is made past a retry. */
module MotorOrder {
  import opened CTypes
  import opened Handler
  import opened MotorSteps
  import opened PopupCamera
  import opened ServiceGuarantees
  import opened ServiceInvariants

  // ----- requests can overtake -----

  /** The service at `at` ms, with requests to close due for another try at 1250 ms and the effect's end at 1400 ms. */
  predicate Waits(s: State, t: State, at: int, busy: bool, asked: seq<CameraState>, ran: seq<CameraState>) {
    && t.hasMotor && t.now == s.now + at && t.motorBusy == busy
    && t.queue == NOTHING.(retries := [Request(s.now + 1250, Close)], restores := [s.now + LED_EFFECT_TIME],
                           resets := if busy then [s.now + BUSY_TIME] else [])
    && t.log.asked == asked && t.log.ran == ran
  }

  lemma AtStart(s: State)
    ensures Admits(s, []) && Execute(s, []) == s
  {
  }

  /** The motor is popping up when it is asked to close. */
  lemma AskedToClose(s: State) returns (events: seq<Event>)
    requires IsInitial(s) && s.hasMotor
    ensures Admits(s, events) && Waits(s, Execute(s, events), 1150, true, [Open, Close], [Open])
  {
    hide Execute, Admits;
    AtStart(s);
    events := [];
    var asked := UpdateMotor(s, Open);
    Extend(s, events, RaiseClicked);
    events := events + [RaiseClicked];

    assert IsFirst(asked.queue, Runs);
    var up := Dispatch(asked, Runs, MOVE_OPEN);
    Extend(s, events, Dispatched(Runs, MOVE_OPEN));
    events := events + [Dispatched(Runs, MOVE_OPEN)];

    var soon := up.(now := s.now + 1150);
    Extend(s, events, Tick(s.now + 1150));
    events := events + [Tick(s.now + 1150)];

    var pressed := UpdateMotor(soon, Close);
    Extend(s, events, Notified(MOTOR_STATUS_PRESSED));
    events := events + [Notified(MOTOR_STATUS_PRESSED)];
  }

  /** It is free again, and asked to pop up once more before the request to close is retried. */
  lemma AskedToOpen(s: State, before: seq<Event>) returns (events: seq<Event>)
    requires Admits(s, before) && Waits(s, Execute(s, before), 1150, true, [Open, Close], [Open])
    ensures Admits(s, events) && Waits(s, Execute(s, events), BUSY_TIME, false, [Open, Close, Open], [Open, Open])
  {
    hide Execute, Admits;
    events := before;
    var start := Execute(s, before);
    var later := start.(now := s.now + BUSY_TIME);
    Extend(s, events, Tick(s.now + BUSY_TIME));
    events := events + [Tick(s.now + BUSY_TIME)];

    assert IsFirst(later.queue, Resets);
    var free := Dispatch(later, Resets, MOVE_OPEN);
    Extend(s, events, Dispatched(Resets, MOVE_OPEN));
    events := events + [Dispatched(Resets, MOVE_OPEN)];

    var again := UpdateMotor(free, Open);
    Extend(s, events, RaiseClicked);
    events := events + [RaiseClicked];

    assert IsFirst(again.queue, Runs);
    var still := Dispatch(again, Runs, MOVE_CLOSE);
    Extend(s, events, Dispatched(Runs, MOVE_CLOSE));
    events := events + [Dispatched(Runs, MOVE_CLOSE)];
  }

  lemma ClosedLast(s: State, before: seq<Event>) returns (events: seq<Event>)
    requires Admits(s, before) && Waits(s, Execute(s, before), BUSY_TIME, false, [Open, Close, Open], [Open, Open])
    ensures Admits(s, events)
    ensures var t := Execute(s, events);
      && t.log.asked == [Open, Close, Open] && t.log.ran == [Open, Open, Close]
      && Outstanding(t) == 0 && t.log.lastMove == Some(Takeback)
  {
    hide Execute, Admits;
    events := before;
    var start := Execute(s, before);
    var due := start.(now := s.now + 1250);
    Extend(s, events, Tick(s.now + 1250));
    events := events + [Tick(s.now + 1250)];

    assert IsFirst(due.queue, Retries);
    var posted := Dispatch(due, Retries, MOVE_CLOSE);
    Extend(s, events, Dispatched(Retries, MOVE_CLOSE));
    events := events + [Dispatched(Retries, MOVE_CLOSE)];

    assert IsFirst(posted.queue, Runs);
    var down := Dispatch(posted, Runs, MOVE_CLOSE);
    Extend(s, events, Dispatched(Runs, MOVE_CLOSE));
    events := events + [Dispatched(Runs, MOVE_CLOSE)];
  }

  /** A later request to pop up runs before an earlier one to close, which then takes the motor back. */
  lemma Overtaken(s: State) returns (events: seq<Event>)
    requires IsInitial(s) && s.hasMotor
    ensures Admits(s, events)
    ensures var t := Execute(s, events);
      && t.log.asked == [Open, Close, Open] && t.log.ran == [Open, Open, Close]
      && Outstanding(t) == 0 && t.log.lastMove == Some(Takeback)
  {
    events := AskedToClose(s);
    events := AskedToOpen(s, events);
    events := ClosedLast(s, events);
  }

  // ----- when they cannot -----

  function Wants(requests: seq<Request>): seq<CameraState> {
    seq(|requests|, i requires 0 <= i < |requests| => requests[i].want)
  }

  /** The requests that have run, then those posted, then those waiting to be retried are all, in the order made. */
  predicate InLine(m: Motor) {
    m.asked == m.ran + Wants(m.runs) + Wants(m.retries)
  }

  /** In line, with one retry at most, so that no turn of another can change places with it. */
  predicate InOrder(m: Motor) {
    |m.retries| <= 1 && InLine(m)
  }

  /** No request is made while another waits to be retried. */
  predicate Patient(s: State, events: seq<Event>)
    requires Admits(s, events)
    decreases |events|
  {
    events == [] ||
    ((AsksNothing(s, events[0]) || s.queue.retries == []) && Patient(Next(s, events[0]), events[1..]))
  }

  lemma WantsAppend(requests: seq<Request>, r: Request)
    ensures Wants(requests + [r]) == Wants(requests) + [r.want]
  {
  }

  lemma WantsDrop(requests: seq<Request>)
    requires requests != []
    ensures Wants(requests) == [requests[0].want] + Wants(requests[1..])
  {
  }

  lemma OrderAsked(m: Motor, want: CameraState)
    requires InOrder(m) && m.retries == []
    ensures InOrder(Asked(m, want))
  {
    WantsAppend(m.runs, Request(m.now, want));
    WantsAppend([], Request(m.now + RETRY_DELAY, want));
    assert Wants(m.retries) == [];
  }

  lemma LineRan(m: Motor, env: Env)
    requires InLine(m) && m.runs != []
    ensures InLine(Ran(m, env))
  {
    WantsDrop(m.runs);
    var want, rest, last := m.runs[0].want, Wants(m.runs[1..]), Wants(m.retries);
    assert m.ran + ([want] + rest) + last == (m.ran + [want]) + rest + last;
  }

  /** The first retry goes from the head of those that wait to the end of those posted. */
  lemma LineFreeRetry(m: Motor)
    requires InLine(m) && m.retries != [] && !m.busy
    ensures InLine(Retried(m))
  {
    var want, first, rest := m.retries[0].want, Wants(m.runs), Wants(m.retries[1..]);
    WantsDrop(m.retries);
    WantsAppend(m.runs, Request(m.now, want));
    assert m.ran + first + ([want] + rest) == m.ran + (first + [want]) + rest;
  }

  lemma OrderRetried(m: Motor)
    requires InOrder(m) && m.retries != []
    ensures InOrder(Retried(m))
  {
    if m.busy {
      WantsDrop(m.retries);
      assert m.retries[1..] == [];
      WantsAppend([], Request(m.now + RETRY_DELAY, m.retries[0].want));
      assert Wants([]) == [];
    } else {
      LineFreeRetry(m);
    }
  }

  lemma OrderTask(s: State, k: Kind, env: Env)
    requires Waiting(s.queue, k) && IsMotorTask(k) && InOrder(MotorOf(s))
    ensures InOrder(MotorOf(Dispatch(s, k, env)))
  {
    match k
    case Runs =>
      MotorRan(s, env);
      LineRan(MotorOf(s), env);
    case Retries =>
      MotorRetried(s, env);
      OrderRetried(MotorOf(s));
    case Resets =>
      MotorFreed(s, env);
  }

  lemma OrderStep(s: State, e: Event)
    requires Enabled(s, e) && InOrder(MotorOf(s)) && (AsksNothing(s, e) || s.queue.retries == [])
    ensures InOrder(MotorOf(Next(s, e)))
  {
    if !AsksNothing(s, e) {
      var want := MotorAsked(s, e);
      OrderAsked(MotorOf(s), want);
    } else if e.Dispatched? && IsMotorTask(e.k) {
      OrderTask(s, e.k, e.env);
    } else if !e.Tick? {
      MotorKept(s, e);
    }
  }

  lemma {:induction false} OrderRun(s: State, events: seq<Event>)
    requires Admits(s, events) && Patient(s, events) && InOrder(MotorOf(s))
    ensures InOrder(MotorOf(Execute(s, events)))
    decreases |events|
  {
    if events != [] {
      OrderStep(s, events[0]);
      OrderRun(Next(s, events[0]), events[1..]);
    }
  }

  /**
   * In every run in which no request is made while another waits to be retried, requests run in the order in which
   * they were made; so once none is outstanding the last to run was the last made.
   */
  lemma RunsInOrder(s: State, events: seq<Event>)
    requires IsInitial(s) && Admits(s, events) && Patient(s, events)
    ensures var t := Execute(s, events);
      && t.log.ran <= t.log.asked
      && (Outstanding(t) == 0 ==> t.log.ran == t.log.asked)
  {
    OrderRun(s, events);
    var t := Execute(s, events);
    assert t.log.asked == t.log.ran + (Wants(t.queue.runs) + Wants(t.queue.retries));
  }
}
