/** When a motor request may be made so that the motor's commands stay 1200 ms apart: the exact condition on the caller. */
module MotorSpacing {
  import opened Handler
  import opened MotorSteps
  import opened PopupCamera
  import opened ServiceInvariants

  // ----- the discipline -----

  /**
   * A request may be made: no runnable is posted, and either none waits to be retried or the motor is free and the
   * only one that waits is not due yet.
   */
  predicate Free(m: Motor) {
    m.runs == [] && (m.retries == [] || (!m.busy && |m.retries| == 1 && m.now < m.retries[0].due))
  }

  /** Every request is made while `Free` holds. */
  predicate Disciplined(s: State, events: seq<Event>)
    requires Admits(s, events)
    decreases |events|
  {
    events == [] ||
    ((AsksNothing(s, events[0]) || Free(MotorOf(s))) && Disciplined(Next(s, events[0]), events[1..]))
  }

  /** What it keeps: one runnable and one retry at most, which run in turn, and one reset exactly while busy. */
  predicate Tidy(m: Motor) {
    && |m.runs| <= 1 && |m.retries| <= 1
    && |m.resets| == (if m.busy then 1 else 0)
    && (m.runs != [] ==> !m.busy)
    && (m.runs != [] && m.retries != [] ==> m.runs[0].due < m.retries[0].due)
  }

  /** All windows opened at `times` are over at `t`. */
  ghost predicate Over(times: seq<int>, t: int) {
    forall i :: 0 <= i < |times| ==> times[i] + BUSY_TIME <= t
  }

  /** Windows do not overlap, and the last one is over unless the motor is busy, when its reset is at its end. */
  ghost predicate Windows(m: Motor)
    requires Tidy(m)
  {
    && Spaced(m.armed, BUSY_TIME) && Over(m.armed, if m.busy then m.resets[0] else m.now)
    && Spaced(m.commands, BUSY_TIME) && Over(m.commands, if m.busy then m.resets[0] else m.now)
  }

  ghost predicate Orderly(m: Motor) {
    Tidy(m) && Windows(m)
  }

  lemma SpacedAppend(times: seq<int>, x: int)
    requires Spaced(times, BUSY_TIME) && Over(times, x)
    ensures Spaced(times + [x], BUSY_TIME) && Over(times + [x], x + BUSY_TIME)
  {
  }

  lemma OverLater(times: seq<int>, t: int, u: int)
    requires Over(times, t) && t <= u
    ensures Over(times, u)
  {
  }

  lemma OrderlyAsked(m: Motor, want: CameraState)
    requires Orderly(m) && Free(m)
    ensures Orderly(Asked(m, want))
  {
  }

  lemma OrderlyRan(m: Motor, env: Env)
    requires Orderly(m) && m.runs != []
    ensures Orderly(Ran(m, env))
  {
    SpacedAppend(m.armed, m.now);
    SpacedAppend(m.commands, m.now);
    OverLater(m.commands, m.now, m.now + BUSY_TIME);
  }

  /** A retry is taken only if no runnable is due before it. */
  lemma OrderlyRetried(m: Motor)
    requires Orderly(m) && m.retries != [] && (m.runs != [] ==> m.retries[0].due <= m.runs[0].due)
    ensures Orderly(Retried(m))
  {
  }

  lemma OrderlyFreed(m: Motor)
    requires Orderly(m) && m.resets != [] && m.resets[0] <= m.now
    ensures Orderly(Freed(m))
  {
    OverLater(m.armed, m.resets[0], m.now);
    OverLater(m.commands, m.resets[0], m.now);
  }

  lemma OrderlyTick(m: Motor, to: int)
    requires Orderly(m) && m.now <= to
    ensures Orderly(m.(now := to))
  {
    if !m.busy {
      OverLater(m.armed, m.now, to);
      OverLater(m.commands, m.now, to);
    }
  }

  lemma FirstRetry(q: Queues)
    requires IsFirst(q, Retries)
    ensures q.runs != [] ==> q.retries[0].due <= q.runs[0].due
  {
    if Waiting(q, Runs) {
      assert FirstDue(q, Retries) <= FirstDue(q, Runs);
    }
  }

  lemma OrderlyTask(s: State, k: Kind, env: Env)
    requires IsFirst(s.queue, k) && FirstDue(s.queue, k) <= s.now && IsMotorTask(k) && Orderly(MotorOf(s))
    ensures Orderly(MotorOf(Dispatch(s, k, env)))
  {
    match k
    case Runs =>
      MotorRan(s, env);
      OrderlyRan(MotorOf(s), env);
    case Retries =>
      MotorRetried(s, env);
      FirstRetry(s.queue);
      OrderlyRetried(MotorOf(s));
    case Resets =>
      MotorFreed(s, env);
      OrderlyFreed(MotorOf(s));
  }

  lemma OrderlyStep(s: State, e: Event)
    requires Enabled(s, e) && Orderly(MotorOf(s)) && (AsksNothing(s, e) || Free(MotorOf(s)))
    ensures Orderly(MotorOf(Next(s, e)))
  {
    if !AsksNothing(s, e) {
      var want := MotorAsked(s, e);
      OrderlyAsked(MotorOf(s), want);
    } else if e.Tick? {
      OrderlyTick(MotorOf(s), e.to);
    } else if e.Dispatched? && IsMotorTask(e.k) {
      OrderlyTask(s, e.k, e.env);
    } else {
      MotorKept(s, e);
    }
  }

  lemma {:induction false} OrderlyRun(s: State, events: seq<Event>)
    requires Admits(s, events) && Disciplined(s, events) && Orderly(MotorOf(s))
    ensures Orderly(MotorOf(Execute(s, events)))
    decreases |events|
  {
    if events != [] {
      OrderlyStep(s, events[0]);
      OrderlyRun(Next(s, events[0]), events[1..]);
    }
  }

  /** Requests made only while `Free` holds keep commands 1200 ms apart, and failed readings of the status too. */
  lemma DisciplinedSpaced(s: State, events: seq<Event>)
    requires IsInitial(s) && Admits(s, events) && Disciplined(s, events)
    ensures var t := Execute(s, events); Spaced(t.log.commands, BUSY_TIME) && Spaced(t.log.resets, BUSY_TIME)
  {
    OrderlyRun(s, events);
  }

  // ----- a simpler discipline -----

  /** Each request is made only once the previous request's runnable has run. */
  predicate OneAtATime(s: State, events: seq<Event>)
    requires Admits(s, events)
    decreases |events|
  {
    events == [] ||
    ((AsksNothing(s, events[0]) || Outstanding(s) == 0) && OneAtATime(Next(s, events[0]), events[1..]))
  }

  lemma {:induction false} OneAtATimeDisciplined(s: State, events: seq<Event>)
    requires Admits(s, events) && OneAtATime(s, events)
    ensures Disciplined(s, events)
    decreases |events|
  {
    if events != [] {
      OneAtATimeDisciplined(Next(s, events[0]), events[1..]);
    }
  }

  /** Requests made one at a time move the motor at least 1200 ms apart. */
  lemma OneAtATimeSpaced(s: State, events: seq<Event>)
    requires IsInitial(s) && Admits(s, events) && OneAtATime(s, events)
    ensures var t := Execute(s, events); Spaced(t.log.commands, BUSY_TIME) && Spaced(t.log.resets, BUSY_TIME)
  {
    OneAtATimeDisciplined(s, events);
    DisciplinedSpaced(s, events);
  }
}
