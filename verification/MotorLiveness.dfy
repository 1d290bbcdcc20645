/** When tasks run as soon as they are due and no new request is made, every request runs in bounded time. */
module MotorLiveness {
  import opened CTypes
  import opened Handler
  import opened MotorSteps
  import opened PopupCamera
  import opened ServiceGuarantees
  import opened ServiceInvariants

  const SLOT := BUSY_TIME + RETRY_DELAY

  // ----- prompt delivery -----

  /** The clock passes the due time of no waiting task. Anything else may happen at any time. */
  ghost predicate Prompt(s: State, e: Event) {
    e.Tick? ==> forall k :: Waiting(s.queue, k) ==> e.to <= Max(s.now, FirstDue(s.queue, k))
  }

  /** Tasks are delivered promptly and no request is made. */
  ghost predicate Calm(s: State, events: seq<Event>)
    requires Admits(s, events)
    decreases |events|
  {
    events == [] ||
    (AsksNothing(s, events[0]) && Prompt(s, events[0]) && Calm(Next(s, events[0]), events[1..]))
  }

  // ----- some request runs by a deadline -----

  /** If a request is outstanding, one runs no later than `t`. */
  predicate RunsBy(s: State, t: int) {
    var q := s.queue;
    s.now <= t &&
    (|| (q.runs != [] && q.runs[0].due <= t)
     || (!s.motorBusy && q.retries != [] && q.retries[0].due <= t)
     || (s.motorBusy && q.retries != [] && s.now + RETRY_DELAY <= t
         && q.resets != [] && q.resets[0] + RETRY_DELAY <= t))
  }

  lemma RunsWithinSlot(s: State)
    requires Reachable(s) && 0 < Outstanding(s)
    ensures RunsBy(s, s.now + SLOT)
  {
    var first := ReachableFacts(s);
  }

  /** The clock does not pass the deadline. */
  lemma DeadlineKept(s: State, to: int, t: int)
    requires s.now <= to && Prompt(s, Tick(to)) && RunsBy(s, t)
    ensures RunsBy(s.(now := to), t)
  {
    var q := s.queue;
    assert Waiting(q, Runs) ==> to <= Max(s.now, FirstDue(q, Runs));
    assert Waiting(q, Retries) ==> to <= Max(s.now, FirstDue(q, Retries));
    assert Waiting(q, Resets) ==> to <= Max(s.now, FirstDue(q, Resets));
  }

  lemma RunTaken(s: State, env: Env)
    requires Waiting(s.queue, Runs)
    ensures Outstanding(Dispatch(s, Runs, env)) == Outstanding(s) - 1
    ensures Dispatch(s, Runs, env).now == s.now
  {
  }

  lemma RetryTaken(s: State, env: Env, t: int)
    requires Waiting(s.queue, Retries) && RunsBy(s, t) && Reachable(s)
    ensures Outstanding(Dispatch(s, Retries, env)) == Outstanding(s)
    ensures RunsBy(Dispatch(s, Retries, env), t)
  {
    var first := ReachableFacts(s);
  }

  lemma ResetTaken(s: State, env: Env)
    requires Waiting(s.queue, Resets)
    ensures Outstanding(Dispatch(s, Resets, env)) == Outstanding(s)
  {
  }

  lemma ResetFrees(s: State, env: Env, t: int)
    requires Waiting(s.queue, Resets) && RunsBy(s, t) && Reachable(s)
    ensures RunsBy(Dispatch(s, Resets, env), t)
  {
    var first := ReachableFacts(s);
  }

  lemma SameDeadline(s: State, u: State, t: int)
    requires MotorOf(u) == MotorOf(s)
    ensures Outstanding(u) == Outstanding(s) && (RunsBy(s, t) ==> RunsBy(u, t))
  {
  }

  /** From `s` to `u` a request has run by `t`, or all are outstanding and the deadline stays in force. */
  predicate Progress(s: State, u: State, t: int) {
    || (Outstanding(u) == Outstanding(s) && RunsBy(u, t))
    || (Outstanding(u) == Outstanding(s) - 1 && u.now <= t && (0 < Outstanding(u) ==> RunsBy(u, u.now + SLOT)))
  }

  lemma DeadlineTask(s: State, k: Kind, env: Env, t: int)
    requires Waiting(s.queue, k) && Dispatch(s, k, env).log.asked == s.log.asked
    requires Reachable(s) && Reachable(Dispatch(s, k, env)) && 0 < Outstanding(s) && RunsBy(s, t)
    ensures Progress(s, Dispatch(s, k, env), t)
  {
    match k
    case Runs =>
      RunTaken(s, env);
      if 0 < Outstanding(Dispatch(s, Runs, env)) {
        RunsWithinSlot(Dispatch(s, Runs, env));
      }
    case Retries => RetryTaken(s, env, t);
    case Resets =>
      ResetTaken(s, env);
      ResetFrees(s, env, t);
    case _ =>
      KeptByTask(s, k, env);
      SameDeadline(s, Dispatch(s, k, env), t);
  }

  /** Each prompt step without a request makes progress: a task, a tick or anything else. */
  lemma DeadlineStep(s: State, e: Event, t: int)
    requires Enabled(s, e) && AsksNothing(s, e) && Prompt(s, e)
    requires Reachable(s) && 0 < Outstanding(s) && RunsBy(s, t)
    ensures Progress(s, Next(s, e), t)
  {
    match e
    case Tick(to) => DeadlineKept(s, to, t);
    case Dispatched(k, env) =>
      ReachableNext(s, e);
      DeadlineTask(s, k, env, t);
    case _ =>
      MotorKept(s, e);
      SameDeadline(s, Next(s, e), t);
  }

  lemma NoneOutstandingKept(s: State, e: Event)
    requires Enabled(s, e) && AsksNothing(s, e) && Outstanding(s) == 0
    ensures Outstanding(Next(s, e)) == 0
  {
    if e.Dispatched? && e.k == Resets {
      ResetTaken(s, e.env);
    } else if !e.Tick? {
      MotorKept(s, e);
    }
  }

  // ----- all requests run by theirs -----

  /** `t` is the current deadline; all requests still outstanding run by `last`. */
  predicate OnTime(s: State, t: int, last: int) {
    0 < Outstanding(s) ==> RunsBy(s, t) && t + SLOT * (Outstanding(s) - 1) <= last
  }

  lemma NextDeadline(s: State, u: State, t: int, last: int) returns (t1: int)
    requires 0 < Outstanding(s) && OnTime(s, t, last) && Progress(s, u, t)
    ensures OnTime(u, t1, last)
  {
    t1 := if Outstanding(u) == Outstanding(s) then t else u.now + SLOT;
  }

  lemma OnTimeStep(s: State, e: Event, t: int, last: int) returns (t1: int)
    requires Enabled(s, e) && AsksNothing(s, e) && Prompt(s, e)
    requires Reachable(s) && OnTime(s, t, last)
    ensures OnTime(Next(s, e), t1, last)
  {
    t1 := t;
    if 0 < Outstanding(s) {
      DeadlineStep(s, e, t);
      t1 := NextDeadline(s, Next(s, e), t, last);
    } else {
      NoneOutstandingKept(s, e);
    }
  }

  lemma {:induction false} OnTimeRun(s: State, events: seq<Event>, t: int, last: int) returns (t1: int)
    requires Admits(s, events) && Calm(s, events) && Reachable(s) && OnTime(s, t, last)
    ensures OnTime(Execute(s, events), t1, last)
    decreases |events|
  {
    t1 := t;
    if events != [] {
      t1 := OnTimeStep(s, events[0], t, last);
      ReachableNext(s, events[0]);
      t1 := OnTimeRun(Next(s, events[0]), events[1..], t1, last);
    }
  }

  lemma OnTimeAtStart(s: State, last: int)
    requires Reachable(s) && last == s.now + SLOT * Outstanding(s)
    ensures OnTime(s, s.now + SLOT, last)
  {
    if 0 < Outstanding(s) {
      RunsWithinSlot(s);
    }
  }

  lemma {:induction false} CalmKeeps(s: State, events: seq<Event>)
    requires Admits(s, events) && Calm(s, events) && Reachable(s)
    ensures Reachable(Execute(s, events)) && Execute(s, events).log.asked == s.log.asked
    decreases |events|
  {
    if events != [] {
      ReachableNext(s, events[0]);
      CalmKeeps(Next(s, events[0]), events[1..]);
    }
  }

  lemma AllCounted(s: State, u: State)
    requires Reachable(s) && Reachable(u) && u.log.asked == s.log.asked
    ensures |u.log.ran| + Outstanding(u) == |s.log.ran| + Outstanding(s)
  {
    RequestsConserved(s);
    RequestsConserved(u);
  }

  lemma StillOnTime(s: State, u: State, t: int, k: nat)
    requires OnTime(u, t, s.now + SLOT * Outstanding(s)) && k <= Outstanding(s)
    requires |u.log.ran| + Outstanding(u) == |s.log.ran| + Outstanding(s)
    ensures u.now > s.now + SLOT * k ==> |u.log.ran| >= |s.log.ran| + k
  {
  }

  /**
   * Bounded liveness: in every run with prompt delivery and without new requests, whatever else happens, whatever
   * the motor reports and whichever calls throw, the clock passes 1300 ms times `k` only once `k` of the outstanding
   * requests have run, for every `k`.
   */
  lemma RequestsRunInTime(s: State, events: seq<Event>, k: nat)
    requires Reachable(s) && Admits(s, events) && Calm(s, events) && k <= Outstanding(s)
    ensures var u := Execute(s, events); u.now > s.now + SLOT * k ==> |u.log.ran| >= |s.log.ran| + k
  {
    var last := s.now + SLOT * Outstanding(s);
    OnTimeAtStart(s, last);
    var t := OnTimeRun(s, events, s.now + SLOT, last);
    CalmKeeps(s, events);
    AllCounted(s, Execute(s, events));
    StillOnTime(s, Execute(s, events), t, k);
  }
}
