/** The condition for making a request is exact: whenever it fails, one more request can bring two commands together. */
module MotorSharpness {
  import opened CTypes
  import opened Handler
  import opened MotorSpacing
  import opened MotorSteps
  import opened PopupCamera
  import opened ServiceGuarantees
  import opened ServiceInvariants

  // ----- continuations without requests -----

  lemma {:induction false} Concat(s: State, a: seq<Event>, b: seq<Event>)
    requires Admits(s, a) && AsksNone(s, a)
    requires Admits(Execute(s, a), b) && AsksNone(Execute(s, a), b)
    ensures Admits(s, a + b) && AsksNone(s, a + b) && Execute(s, a + b) == Execute(Execute(s, a), b)
    decreases |a|
  {
    if a == [] {
      assert a + b == b;
    } else {
      Concat(Next(s, a[0]), a[1..], b);
      assert (a + b)[0] == a[0] && (a + b)[1..] == a[1..] + b;
    }
  }

  /** Without further requests the service can go from `s` to `t`. */
  ghost predicate Leads(s: State, t: State) {
    exists events :: Admits(s, events) && AsksNone(s, events) && Execute(s, events) == t
  }

  lemma LeadsSelf(s: State)
    ensures Leads(s, s)
  {
    assert Admits(s, []) && AsksNone(s, []) && Execute(s, []) == s;
  }

  lemma LeadsStep(s: State, e: Event)
    requires Enabled(s, e) && AsksNothing(s, e)
    ensures Leads(s, Next(s, e))
  {
    var t := Next(s, e);
    assert Admits(t, []) && AsksNone(t, []) && Execute(t, []) == t;
    assert [e][0] == e && [e][1..] == [];
    assert Admits(s, [e]) && AsksNone(s, [e]) && Execute(s, [e]) == t;
  }

  lemma LeadsOn(s: State, t: State, u: State)
    requires Leads(s, t) && Leads(t, u)
    ensures Leads(s, u)
  {
    var a :| Admits(s, a) && AsksNone(s, a) && Execute(s, a) == t;
    var b :| Admits(t, b) && AsksNone(t, b) && Execute(t, b) == u;
    Concat(s, a, b);
  }

  // ----- taking motor tasks, whatever else is waiting -----

  /** Of the motor tasks `k` is due first, and it is due. */
  predicate Ready(s: State, k: Kind) {
    && IsMotorTask(k) && Waiting(s.queue, k) && FirstDue(s.queue, k) <= s.now
    && forall other :: IsMotorTask(other) && Waiting(s.queue, other) ==> FirstDue(s.queue, k) <= FirstDue(s.queue, other)
  }

  function Endings(q: Queues): nat {
    |q.restores| + |q.releases| + |q.dialogs|
  }

  lemma EndingTaken(s: State, k: Kind, env: Env)
    requires (k == Restores || k == Releases || k == Dialogs) && Waiting(s.queue, k)
    ensures Endings(Dispatch(s, k, env).queue) == Endings(s.queue) - 1
  {
  }

  lemma TakeEnding(s: State, k: Kind, env: Env) returns (t: State)
    requires Quiet(s) && IsFirst(s.queue, k) && !IsMotorTask(k) && FirstDue(s.queue, k) <= s.now
    ensures Leads(s, t) && Quiet(t) && MotorOf(t) == MotorOf(s) && Endings(t.queue) == Endings(s.queue) - 1
  {
    t := Dispatch(s, k, env);
    FrameEnding(s, k, env);
    KeptByTask(s, k, env);
    EndingTaken(s, k, env);
    LeadsStep(s, Dispatched(k, env));
  }

  lemma TakeMotorTask(s: State, k: Kind, env: Env) returns (t: State)
    requires Quiet(s) && IsFirst(s.queue, k) && IsMotorTask(k) && FirstDue(s.queue, k) <= s.now
    ensures Leads(s, t) && Quiet(t) && t == Dispatch(s, k, env)
  {
    t := Dispatch(s, k, env);
    match k {
      case Runs => FrameRun(s, env);
      case Retries => FrameRetry(s, env);
      case Resets => FrameEnding(s, Resets, env);
    }
    LeadsStep(s, Dispatched(k, env));
  }

  lemma ReadySame(s: State, t: State, k: Kind)
    requires Ready(s, k) && MotorOf(t) == MotorOf(s)
    ensures Ready(t, k)
  {
    assert forall j :: IsMotorTask(j) ==> (Waiting(t.queue, j) <==> Waiting(s.queue, j));
  }

  /** The tasks that end an effect, a calibration or a dialog's wait can be got out of the way first. */
  lemma {:induction false} Clear(s: State, k: Kind, env: Env) returns (t: State)
    requires Quiet(s) && Ready(s, k)
    ensures Leads(s, t) && Quiet(t) && MotorOf(t) == MotorOf(s) && IsFirst(t.queue, k) && FirstDue(t.queue, k) <= t.now
    decreases Endings(s.queue)
  {
    var least := SomethingFirst(s.queue, k);
    assert FirstDue(s.queue, least) <= FirstDue(s.queue, k);
    if IsMotorTask(least) {
      t := s;
      LeadsSelf(s);
      forall other | Waiting(s.queue, other) ensures FirstDue(s.queue, k) <= FirstDue(s.queue, other) {
        assert FirstDue(s.queue, k) <= FirstDue(s.queue, least) <= FirstDue(s.queue, other);
      }
    } else {
      var u := TakeEnding(s, least, env);
      ReadySame(s, u, k);
      t := Clear(u, k, env);
      LeadsOn(s, u, t);
    }
  }

  lemma TakeRun(s: State, env: Env) returns (t: State)
    requires Quiet(s) && Ready(s, Runs)
    ensures Leads(s, t) && Quiet(t) && MotorOf(t) == Ran(MotorOf(s), env)
  {
    var u := Clear(s, Runs, env);
    t := TakeMotorTask(u, Runs, env);
    MotorRan(u, env);
    LeadsOn(s, u, t);
  }

  lemma TakeRetry(s: State) returns (t: State)
    requires Quiet(s) && Ready(s, Retries)
    ensures Leads(s, t) && Quiet(t) && MotorOf(t) == Retried(MotorOf(s))
  {
    var u := Clear(s, Retries, MOVE_OPEN);
    t := TakeMotorTask(u, Retries, MOVE_OPEN);
    MotorRetried(u, MOVE_OPEN);
    LeadsOn(s, u, t);
  }

  lemma TakeReset(s: State) returns (t: State)
    requires Quiet(s) && Ready(s, Resets)
    ensures Leads(s, t) && Quiet(t) && MotorOf(t) == Freed(MotorOf(s))
  {
    var u := Clear(s, Resets, MOVE_OPEN);
    t := TakeMotorTask(u, Resets, MOVE_OPEN);
    MotorFreed(u, MOVE_OPEN);
    LeadsOn(s, u, t);
  }

  lemma Wait(s: State, to: int) returns (t: State)
    requires Quiet(s) && s.now <= to
    ensures Leads(s, t) && Quiet(t) && MotorOf(t) == MotorOf(s).(now := to)
  {
    t := s.(now := to);
    LeadsStep(s, Tick(to));
  }

  // ----- two runnables, two commands -----

  /** Answers on which the motor moves. */
  function Moving(want: CameraState): Env {
    if want == Open then MOVE_OPEN else MOVE_CLOSE
  }

  /** Two commands at the same time. */
  lemma Together(s: State, times: seq<int>, x: int)
    requires s.log.commands == times + [x] + [x]
    ensures !Spaced(s.log.commands, BUSY_TIME)
  {
    var all := s.log.commands;
    assert all[|times|] == x && all[|times| + 1] == x;
  }

  lemma ReadyRun(s: State)
    requires s.queue.runs != [] && s.queue.runs[0].due <= s.now
    requires s.queue.retries == [] || s.queue.runs[0].due <= s.queue.retries[0].due
    requires s.queue.resets == [] || s.queue.runs[0].due <= s.queue.resets[0]
    ensures Ready(s, Runs)
  {
  }

  lemma ReadyRetry(s: State)
    requires s.queue.retries != [] && s.queue.retries[0].due <= s.now
    requires s.queue.runs == [] || s.queue.retries[0].due <= s.queue.runs[0].due
    requires s.queue.resets == [] || s.queue.retries[0].due <= s.queue.resets[0]
    ensures Ready(s, Retries)
  {
  }

  lemma ReadyReset(s: State)
    requires s.queue.resets != [] && s.queue.resets[0] <= s.now
    requires s.queue.runs == [] || s.queue.resets[0] <= s.queue.runs[0].due
    requires s.queue.retries == [] || s.queue.resets[0] <= s.queue.retries[0].due
    ensures Ready(s, Resets)
  {
  }

  /** The state breaks the spacing or leads to one that does. */
  ghost predicate Breaks(s: State) {
    exists t :: Leads(s, t) && !Spaced(t.log.commands, BUSY_TIME)
  }

  lemma BreaksBefore(s: State, t: State)
    requires Leads(s, t) && Breaks(t)
    ensures Breaks(s)
  {
    var u :| Leads(t, u) && !Spaced(u.log.commands, BUSY_TIME);
    LeadsOn(s, t, u);
  }

  lemma SecondRun(s: State, times: seq<int>)
    requires Quiet(s) && Ready(s, Runs) && s.log.commands == times + [s.now]
    ensures Breaks(s)
  {
    var t := TakeRun(s, Moving(s.queue.runs[0].want));
    Together(t, times, s.now);
  }

  /** Two posted runnables move the motor at the same moment, though a retry may be due between them. */
  lemma TwoRuns(s: State)
    requires Quiet(s) && |s.queue.runs| == 2 && s.queue.resets == []
    requires s.queue.runs[0].due <= s.queue.runs[1].due <= s.now
    requires s.queue.retries == [] || (|s.queue.retries| == 1 && s.queue.runs[0].due <= s.queue.retries[0].due)
    ensures Breaks(s)
  {
    ReadyRun(s);
    var t := TakeRun(s, Moving(s.queue.runs[0].want));
    var m := MotorOf(t);
    assert m.commands == s.log.commands + [s.now] && m.busy && m.resets == [s.now + BUSY_TIME];
    if m.retries != [] && m.retries[0].due < m.runs[0].due {
      ReadyRetry(t);
      var u := TakeRetry(t);
      ReadyRun(u);
      SecondRun(u, s.log.commands);
      BreaksBefore(t, u);
    } else {
      ReadyRun(t);
      SecondRun(t, s.log.commands);
    }
    BreaksBefore(s, t);
  }

  // ----- the three ways to ask too early -----

  /** An overdue retry is taken before the new runnable and posts its own behind it. */
  lemma OverdueRetry(s: State)
    requires Quiet(s) && !s.motorBusy && s.queue.resets == []
    requires |s.queue.runs| == 1 && |s.queue.retries| == 1
    requires s.queue.retries[0].due <= s.queue.runs[0].due <= s.now
    ensures Breaks(s)
  {
    ReadyRetry(s);
    var t := TakeRetry(s);
    TwoRuns(t);
    BreaksBefore(s, t);
  }

  /** Two retries that find the motor free post two runnables. */
  lemma TwoRetries(s: State)
    requires Quiet(s) && !s.motorBusy && s.queue.resets == [] && s.queue.runs == [] && |s.queue.retries| == 2
    requires s.queue.retries[0].due <= s.now && s.queue.retries[1].due <= s.now
    ensures Breaks(s)
  {
    ReadyRetry(s);
    var t := TakeRetry(s);
    ReadyRetry(t);
    var u := TakeRetry(t);
    TwoRuns(u);
    BreaksBefore(t, u);
    BreaksBefore(s, t);
  }

  /** A busy motor with its reset overdue and two retries, each due soon. */
  predicate LateReset(s: State) {
    && Quiet(s) && s.motorBusy && s.queue.runs == []
    && |s.queue.resets| == 1 && s.queue.resets[0] <= s.now
    && |s.queue.retries| == 2
    && s.queue.retries[0].due <= s.now + RETRY_DELAY && s.queue.retries[1].due <= s.now + RETRY_DELAY
  }

  lemma ResetBreaks(s: State)
    requires LateReset(s) && s.queue.resets[0] <= s.queue.retries[0].due
    ensures Breaks(s)
  {
    ReadyReset(s);
    var t := TakeReset(s);
    var u := Wait(t, t.now + RETRY_DELAY);
    TwoRetries(u);
    BreaksBefore(t, u);
    BreaksBefore(s, t);
  }

  /** A retry due before the reset is put off, past the reset. */
  lemma PutOff(s: State) returns (t: State)
    requires LateReset(s) && s.queue.retries[0].due < s.queue.resets[0]
    ensures Leads(s, t) && LateReset(t) && t.queue.resets == s.queue.resets
    ensures t.queue.retries[0] == s.queue.retries[1] && t.queue.resets[0] < t.queue.retries[1].due
  {
    ReadyRetry(s);
    t := TakeRetry(s);
  }

  /** One late reset frees both retries. */
  lemma LateResetBreaks(s: State)
    requires LateReset(s)
    ensures Breaks(s)
  {
    if s.queue.resets[0] <= s.queue.retries[0].due {
      ResetBreaks(s);
    } else {
      var t := PutOff(s);
      if t.queue.resets[0] <= t.queue.retries[0].due {
        ResetBreaks(t);
      } else {
        var u := PutOff(t);
        ResetBreaks(u);
        BreaksBefore(t, u);
      }
      BreaksBefore(s, t);
    }
  }

  // ----- the exact condition -----

  lemma AskedTooEarly(s: State, want: CameraState)
    requires Reachable(s) && Quiet(s) && s.hasMotor && Tidy(MotorOf(s)) && !Free(MotorOf(s))
    ensures Breaks(UpdateMotor(s, want))
  {
    var first := ReachableFacts(s);
    MotorUpdated(s, want);
    var t := UpdateMotor(s, want);
    assert Quiet(t);
    if s.motorBusy {
      var u := Wait(t, Max(t.now, t.queue.resets[0]));
      LateResetBreaks(u);
      BreaksBefore(t, u);
    } else if s.queue.runs != [] {
      TwoRuns(t);
    } else {
      OverdueRetry(t);
    }
  }

  lemma {:induction false} NoneIsDisciplined(s: State, events: seq<Event>)
    requires Admits(s, events) && AsksNone(s, events)
    ensures Disciplined(s, events)
    decreases |events|
  {
    if events != [] {
      NoneIsDisciplined(Next(s, events[0]), events[1..]);
    }
  }

  lemma AskedInTime(s: State, want: CameraState)
    requires s.hasMotor && Orderly(MotorOf(s)) && Free(MotorOf(s))
    ensures !Breaks(UpdateMotor(s, want))
  {
    MotorUpdated(s, want);
    OrderlyAsked(MotorOf(s), want);
    var t := UpdateMotor(s, want);
    forall u | Leads(t, u) ensures Spaced(u.log.commands, BUSY_TIME) {
      var events :| Admits(t, events) && AsksNone(t, events) && Execute(t, events) == u;
      NoneIsDisciplined(t, events);
      OrderlyRun(t, events);
    }
  }

  /**
   * The exact condition on a caller. After any run that kept the discipline, with no camera message waiting: one more
   * request can bring two commands less than 1200 ms apart, without a further request, if and only if it is made
   * while `Free` does not hold.
   */
  lemma RequestSafeIff(s: State, events: seq<Event>, want: CameraState)
    requires IsInitial(s) && Admits(s, events) && Disciplined(s, events)
    requires Execute(s, events).hasMotor && Quiet(Execute(s, events))
    ensures Free(MotorOf(Execute(s, events))) <==> !Breaks(UpdateMotor(Execute(s, events), want))
  {
    var t := Execute(s, events);
    OrderlyRun(s, events);
    assert Reachable(t);
    if Free(MotorOf(t)) {
      AskedInTime(t, want);
    } else {
      AskedTooEarly(t, want);
    }
  }

  /** Busy is not a mutex: two requests made while it is clear both move the motor, at the same moment. */
  lemma OverlappingRequests(s: State) returns (events: seq<Event>)
    requires IsInitial(s) && s.hasMotor
    ensures Admits(s, events) && Execute(s, events).log.commands == [s.now, s.now]
  {
    events := [];
    var one := UpdateMotor(s, Open);
    Extend(s, events, RaiseClicked);
    events := events + [RaiseClicked];

    var two := UpdateMotor(one, Close);
    Extend(s, events, Notified(MOTOR_STATUS_PRESSED));
    events := events + [Notified(MOTOR_STATUS_PRESSED)];

    var up := Dispatch(two, Runs, MOVE_OPEN);
    assert IsFirst(two.queue, Runs);
    Extend(s, events, Dispatched(Runs, MOVE_OPEN));
    events := events + [Dispatched(Runs, MOVE_OPEN)];

    assert IsFirst(up.queue, Runs);
    Extend(s, events, Dispatched(Runs, MOVE_CLOSE));
    events := events + [Dispatched(Runs, MOVE_CLOSE)];
  }
}
