/**
 * With prompt delivery, when only waiting tasks run, the whole queue drains, camera messages and the requests they
 * make included, after a bounded number of tasks and in bounded time.
 */
module MotorDrain {
  import opened CTypes
  import opened Handler
  import opened MotorLiveness
  import opened MotorSteps
  import opened PopupCamera
  import opened ServiceEffects
  import opened ServiceGuarantees
  import opened ServiceInvariants

  // ----- runs made of waiting tasks -----

  /** Which of the first tasks is taken, and what the outside world answers. */
  datatype Choice = Choice(k: Kind, env: Env)

  function PromptTime(s: State, k: Kind): int
    requires Waiting(s.queue, k)
  {
    Max(s.now, FirstDue(s.queue, k))
  }

  /** The clock moves no further than to the first due time, and that task runs. */
  function PromptNext(s: State, c: Choice): State
    requires Waiting(s.queue, c.k)
  {
    Dispatch(s.(now := PromptTime(s, c.k)), c.k, c.env)
  }

  predicate PromptAdmits(s: State, cs: seq<Choice>)
    decreases |cs|
  {
    cs == [] || (IsFirst(s.queue, cs[0].k) && PromptAdmits(PromptNext(s, cs[0]), cs[1..]))
  }

  function PromptRun(s: State, cs: seq<Choice>): State
    requires PromptAdmits(s, cs)
    decreases |cs|
  {
    if cs == [] then s else PromptRun(PromptNext(s, cs[0]), cs[1..])
  }

  /** A prompt step is a prompt tick and a dispatch of the service. */
  lemma PromptIsRun(s: State, c: Choice)
    requires IsFirst(s.queue, c.k)
    ensures Enabled(s, Tick(PromptTime(s, c.k))) && Prompt(s, Tick(PromptTime(s, c.k)))
    ensures var u := Next(s, Tick(PromptTime(s, c.k))); var e := Dispatched(c.k, c.env);
      Enabled(u, e) && Next(u, e) == PromptNext(s, c)
  {
  }

  lemma PromptReachable(s: State, c: Choice)
    requires Reachable(s) && IsFirst(s.queue, c.k)
    ensures Reachable(s.(now := PromptTime(s, c.k))) && Reachable(PromptNext(s, c))
  {
    PromptIsRun(s, c);
    ReachableNext(s, Tick(PromptTime(s, c.k)));
    ReachableNext(s.(now := PromptTime(s, c.k)), Dispatched(c.k, c.env));
  }

  // ----- camera messages may make requests -----

  function Coming(s: State): nat {
    |s.queue.opens| + |s.queue.closes|
  }

  /** Requests made and not yet run, and those that may be made. */
  function Load(s: State): nat {
    Outstanding(s) + Coming(s)
  }

  predicate IsMessage(k: Kind) {
    k == Opens || k == Closes
  }

  lemma HandlingLeaves(s: State, camera: CameraState, env: Env)
    ensures var u := HandleMessage(s, camera, env);
      u.now == s.now && u.queue.opens == s.queue.opens && u.queue.closes == s.queue.closes
  {
    FrameUpdateMotor(s.(log := s.log.(lastHandled := Some(camera))), camera);
  }

  lemma OthersLeave(s: State, k: Kind, env: Env)
    requires Waiting(s.queue, k) && !IsMessage(k)
    ensures var u := Dispatch(s, k, env);
      u.now == s.now && u.queue.opens == s.queue.opens && u.queue.closes == s.queue.closes
  {
    match k
    case Runs => FrameRun(s, env);
    case Retries => FrameRetry(s, env);
    case _ => FrameEnding(s, k, env);
  }

  /** The messages wait as before but for the one taken, if one is. */
  lemma MessagesLeft(s: State, k: Kind, env: Env)
    requires Waiting(s.queue, k)
    ensures var u := Dispatch(s, k, env);
      && u.now == s.now
      && u.queue.opens == (if k == Opens then s.queue.opens[1..] else s.queue.opens)
      && u.queue.closes == (if k == Closes then s.queue.closes[1..] else s.queue.closes)
  {
    hide HandleMessage, RunMotor, RunRetry, RunRestoreLed;
    match k
    case Opens => HandlingLeaves(s.(queue := Dropped(s.queue, Opens)), Open, env);
    case Closes => HandlingLeaves(s.(queue := Dropped(s.queue, Closes)), Close, env);
    case _ => OthersLeave(s, k, env);
  }

  lemma TaskAsksNothing(s: State, k: Kind, env: Env)
    requires Waiting(s.queue, k) && !IsMessage(k)
    ensures Dispatch(s, k, env).log.asked == s.log.asked
  {
    match k
    case Runs => FrameRun(s, env);
    case Retries => FrameRetry(s, env);
    case _ => FrameEnding(s, k, env);
  }

  // ----- deadlines -----

  ghost predicate By(dues: seq<int>, limit: int) {
    forall i :: 0 <= i < |dues| ==> dues[i] <= limit
  }

  /**
   * `t` is the deadline of the next request to run, `close` that of all messages; all requests made, and all that the
   * messages may still make, run by `last`.
   */
  ghost predicate Timely(s: State, t: int, close: int, last: int) {
    && (0 < Outstanding(s) ==> RunsBy(s, t) && t + SLOT * (Load(s) - 1) <= last)
    && (0 < Coming(s) ==> s.now <= close && By(s.queue.opens, close) && By(s.queue.closes, close)
                          && close + SLOT * Coming(s) <= last)
  }

  lemma TimelyClock(s: State, c: Choice, t: int, close: int, last: int)
    requires IsFirst(s.queue, c.k) && Timely(s, t, close, last)
    ensures Timely(s.(now := PromptTime(s, c.k)), t, close, last)
  {
    PromptIsRun(s, c);
    if 0 < Outstanding(s) {
      DeadlineKept(s, PromptTime(s, c.k), t);
    }
    assert Waiting(s.queue, Opens) ==> FirstDue(s.queue, c.k) <= FirstDue(s.queue, Opens);
    assert Waiting(s.queue, Closes) ==> FirstDue(s.queue, c.k) <= FirstDue(s.queue, Closes);
  }

  lemma AskedDeadline(s: State, u: State, want: CameraState, t: int)
    requires MotorOf(u) == Asked(MotorOf(s), want)
    ensures Outstanding(u) == Outstanding(s) + 1
    ensures 0 < Outstanding(s) && RunsBy(s, t) ==> RunsBy(u, t)
  {
  }

  /** A message makes a request by the deadline of the messages, or none. */
  lemma MessageTaken(s: State, k: Kind, env: Env, t: int, close: int) returns (t1: int)
    requires Waiting(s.queue, k) && IsMessage(k) && s.now <= close && Reachable(Dispatch(s, k, env))
    requires 0 < Outstanding(s) ==> RunsBy(s, t)
    ensures var u := Dispatch(s, k, env);
      && (Outstanding(u) == Outstanding(s) || Outstanding(u) == Outstanding(s) + 1)
      && (0 < Outstanding(u) ==> RunsBy(u, t1))
      && (if 0 < Outstanding(s) then t1 == t else t1 <= close + SLOT)
  {
    var u := Dispatch(s, k, env);
    t1 := if 0 < Outstanding(s) then t else s.now + SLOT;
    MessagesLeft(s, k, env);
    if u.log.asked == s.log.asked {
      KeptByTask(s, k, env);
      SameDeadline(s, u, t);
    } else {
      var want := AskedByTask(s, k, env);
      AskedDeadline(s, u, want, t);
      if Outstanding(s) == 0 {
        RunsWithinSlot(u);
      }
    }
  }

  /** One message fewer, and at most one request more, with its deadline `t1`. */
  lemma TimelyOneLess(s: State, u: State, k: Kind, t: int, t1: int, close: int, last: int)
    requires Waiting(s.queue, k) && IsMessage(k) && Timely(s, t, close, last) && u.now == s.now
    requires u.queue.opens == (if k == Opens then s.queue.opens[1..] else s.queue.opens)
    requires u.queue.closes == (if k == Closes then s.queue.closes[1..] else s.queue.closes)
    requires Outstanding(u) == Outstanding(s) || Outstanding(u) == Outstanding(s) + 1
    requires 0 < Outstanding(u) ==> RunsBy(u, t1)
    requires if 0 < Outstanding(s) then t1 == t else t1 <= close + SLOT
    ensures Timely(u, t1, close, last)
  {
    hide RunsBy;
    assert Coming(u) == Coming(s) - 1;
  }

  lemma TimelyMessage(s: State, k: Kind, env: Env, t: int, close: int, last: int) returns (t1: int)
    requires Waiting(s.queue, k) && IsMessage(k) && Timely(s, t, close, last) && Reachable(Dispatch(s, k, env))
    ensures Timely(Dispatch(s, k, env), t1, close, last)
  {
    hide RunsBy, Dispatch, Reachable;
    t1 := MessageTaken(s, k, env, t, close);
    MessagesLeft(s, k, env);
    TimelyOneLess(s, Dispatch(s, k, env), k, t, t1, close, last);
  }

  lemma DeadlineMoves(s: State, u: State, t: int) returns (t1: int)
    requires 0 < Outstanding(s) && Progress(s, u, t)
    ensures Outstanding(s) - 1 <= Outstanding(u) <= Outstanding(s)
    ensures 0 < Outstanding(u) ==> RunsBy(u, t1) && t1 + SLOT * Outstanding(u) <= t + SLOT * Outstanding(s)
  {
    hide RunsBy;
    t1 := if Outstanding(u) < Outstanding(s) then u.now + SLOT else t;
  }

  lemma NoneTaken(s: State, k: Kind, env: Env)
    requires Waiting(s.queue, k) && !IsMessage(k) && Outstanding(s) == 0
    ensures Outstanding(Dispatch(s, k, env)) == 0
  {
    if k == Resets {
      ResetTaken(s, env);
    } else {
      TaskAsksNothing(s, k, env);
      KeptByTask(s, k, env);
      SameDeadline(s, Dispatch(s, k, env), s.now);
    }
  }

  lemma TaskTaken(s: State, k: Kind, env: Env, t: int) returns (t1: int)
    requires Waiting(s.queue, k) && !IsMessage(k) && Reachable(s) && Reachable(Dispatch(s, k, env))
    requires 0 < Outstanding(s) ==> RunsBy(s, t)
    ensures var u := Dispatch(s, k, env);
      && Outstanding(s) - 1 <= Outstanding(u) <= Outstanding(s)
      && (0 < Outstanding(u) ==> RunsBy(u, t1) && t1 + SLOT * Outstanding(u) <= t + SLOT * Outstanding(s))
  {
    hide RunsBy, Dispatch, Reachable, Progress;
    t1 := t;
    if 0 < Outstanding(s) {
      TaskAsksNothing(s, k, env);
      DeadlineTask(s, k, env, t);
      t1 := DeadlineMoves(s, Dispatch(s, k, env), t);
    } else {
      NoneTaken(s, k, env);
    }
  }

  lemma TimelyTask(s: State, k: Kind, env: Env, t: int, close: int, last: int) returns (t1: int)
    requires Waiting(s.queue, k) && !IsMessage(k) && Timely(s, t, close, last)
    requires Reachable(s) && Reachable(Dispatch(s, k, env))
    ensures Timely(Dispatch(s, k, env), t1, close, last)
  {
    hide RunsBy, Dispatch, Reachable;
    t1 := TaskTaken(s, k, env, t);
    MessagesLeft(s, k, env);
  }

  lemma TimelyStep(s: State, c: Choice, t: int, close: int, last: int) returns (t1: int)
    requires IsFirst(s.queue, c.k) && Reachable(s) && Timely(s, t, close, last)
    ensures Timely(PromptNext(s, c), t1, close, last)
  {
    hide Timely, Reachable;
    TimelyClock(s, c, t, close, last);
    PromptReachable(s, c);
    var v := s.(now := PromptTime(s, c.k));
    if IsMessage(c.k) {
      t1 := TimelyMessage(v, c.k, c.env, t, close, last);
    } else {
      t1 := TimelyTask(v, c.k, c.env, t, close, last);
    }
  }

  /** By when all messages are due. */
  function AllDue(s: State): int {
    if Coming(s) == 0 then s.now else s.now + CAMERA_EVENT_DELAY_TIME
  }

  lemma TimelyAtStart(s: State)
    requires Reachable(s)
    ensures Timely(s, s.now + SLOT, AllDue(s), AllDue(s) + SLOT * Load(s))
  {
    if 0 < Outstanding(s) {
      RunsWithinSlot(s);
    }
    var first := ReachableFacts(s);
  }

  /** The next task is not late while a request or a message is waiting. */
  lemma TimelyNext(s: State, c: Choice, t: int, close: int, last: int)
    requires IsFirst(s.queue, c.k) && Timely(s, t, close, last)
    ensures 0 < Outstanding(s) ==> PromptTime(s, c.k) <= last
    ensures 0 < Coming(s) ==> PromptTime(s, c.k) <= close
  {
    TimelyClock(s, c, t, close, last);
  }

  // ----- requests are counted -----

  lemma CountedTask(s: State, k: Kind, env: Env)
    requires Waiting(s.queue, k)
    ensures var u := Dispatch(s, k, env);
      |s.log.asked| <= |u.log.asked| && |u.log.asked| + Coming(u) <= |s.log.asked| + Coming(s)
  {
    hide Dispatch;
    MessagesLeft(s, k, env);
    if !IsMessage(k) {
      TaskAsksNothing(s, k, env);
    } else if Dispatch(s, k, env).log.asked != s.log.asked {
      var want := AskedByTask(s, k, env);
    }
  }

  lemma {:induction false} PromptRunKeeps(s: State, cs: seq<Choice>)
    requires PromptAdmits(s, cs) && Reachable(s)
    ensures var u := PromptRun(s, cs);
      Reachable(u) && |s.log.asked| <= |u.log.asked| && |u.log.asked| + Coming(u) <= |s.log.asked| + Coming(s)
    decreases |cs|
  {
    if cs != [] {
      PromptReachable(s, cs[0]);
      CountedTask(s.(now := PromptTime(s, cs[0].k)), cs[0].k, cs[0].env);
      PromptRunKeeps(PromptNext(s, cs[0]), cs[1..]);
    }
  }

  // ----- the number of tasks is bounded -----

  /** A retry due at `d` is worth its distance from the horizon `h`: trying again costs some of it. */
  function RetryWeight(retries: seq<Request>, h: int): nat {
    if retries == [] then 0 else Max(0, h - retries[0].due) + 5 + RetryWeight(retries[1..], h)
  }

  lemma {:induction false} RetryWeightAppend(retries: seq<Request>, r: Request, h: int)
    ensures RetryWeight(retries + [r], h) == RetryWeight(retries, h) + Max(0, h - r.due) + 5
  {
    if retries == [] {
      assert ([r])[1..] == [];
    } else {
      RetryWeightAppend(retries[1..], r, h);
      assert (retries + [r])[1..] == retries[1..] + [r];
    }
  }

  /** A message is worth more than the retry it can post. */
  function MessageWeight(dues: seq<int>, h: int): nat {
    if dues == [] then 0 else Max(0, h - dues[0]) + 6 + MessageWeight(dues[1..], h)
  }

  /** A runnable is worth more than what it can post, a retry more than the runnable it posts. */
  function Weight(q: Queues, h: int): nat {
    MessageWeight(q.opens, h) + MessageWeight(q.closes, h) +
    RetryWeight(q.retries, h) + 4 * |q.runs| + |q.resets| + |q.restores| + |q.releases| + |q.dialogs|
  }

  lemma WeightUpdate(s: State, want: CameraState, h: int)
    ensures Weight(UpdateMotor(s, want).queue, h) <= Weight(s.queue, h) + Max(0, h - s.now) + 5
  {
    RetryWeightAppend(s.queue.retries, Request(s.now + RETRY_DELAY, want), h);
  }

  lemma WeightHandled(s: State, camera: CameraState, env: Env, h: int)
    ensures Weight(HandleMessage(s, camera, env).queue, h) <= Weight(s.queue, h) + Max(0, h - s.now) + 5
  {
    WeightUpdate(s.(log := s.log.(lastHandled := Some(camera))), camera, h);
  }

  lemma WeightMessage(s: State, k: Kind, env: Env, h: int)
    requires IsMessage(k) && Waiting(s.queue, k) && FirstDue(s.queue, k) <= s.now
    ensures Weight(Dispatch(s, k, env).queue, h) < Weight(s.queue, h)
  {
    var rest := s.(queue := Dropped(s.queue, k));
    if k == Opens {
      WeightHandled(rest, Open, env, h);
    } else {
      WeightHandled(rest, Close, env, h);
    }
  }

  lemma WeightRun(s: State, env: Env, h: int)
    requires Waiting(s.queue, Runs)
    ensures Weight(Dispatch(s, Runs, env).queue, h) < Weight(s.queue, h)
  {
  }

  lemma WeightRetry(s: State, env: Env, h: int)
    requires Waiting(s.queue, Retries) && s.queue.retries[0].due <= s.now && s.now + RETRY_DELAY <= h
    ensures Weight(Dispatch(s, Retries, env).queue, h) < Weight(s.queue, h)
  {
    var retry := Request(s.now + RETRY_DELAY, s.queue.retries[0].want);
    RetryWeightAppend(s.queue.retries[1..], retry, h);
  }

  lemma WeightEnding(s: State, k: Kind, env: Env, h: int)
    requires (k == Resets || k == Restores || k == Releases || k == Dialogs) && Waiting(s.queue, k)
    ensures Weight(Dispatch(s, k, env).queue, h) < Weight(s.queue, h)
  {
  }

  lemma WeightStep(s: State, c: Choice, h: int)
    requires Waiting(s.queue, c.k)
    requires 0 < Outstanding(s) ==> PromptTime(s, c.k) + RETRY_DELAY <= h
    ensures Weight(PromptNext(s, c).queue, h) < Weight(s.queue, h)
  {
    var v := s.(now := PromptTime(s, c.k));
    match c.k
    case Opens => WeightMessage(v, Opens, c.env, h);
    case Closes => WeightMessage(v, Closes, c.env, h);
    case Runs => WeightRun(v, c.env, h);
    case Retries => WeightRetry(v, c.env, h);
    case Resets => WeightEnding(v, Resets, c.env, h);
    case Restores => WeightEnding(v, Restores, c.env, h);
    case Releases => WeightEnding(v, Releases, c.env, h);
    case Dialogs => WeightEnding(v, Dialogs, c.env, h);
  }

  lemma {:induction false} WeightRunBound(s: State, cs: seq<Choice>, t: int, close: int, last: int)
    requires PromptAdmits(s, cs) && Reachable(s) && Timely(s, t, close, last)
    ensures |cs| + Weight(PromptRun(s, cs).queue, last + RETRY_DELAY) <= Weight(s.queue, last + RETRY_DELAY)
    decreases |cs|
  {
    if cs != [] {
      TimelyNext(s, cs[0], t, close, last);
      WeightStep(s, cs[0], last + RETRY_DELAY);
      var t1 := TimelyStep(s, cs[0], t, close, last);
      PromptReachable(s, cs[0]);
      WeightRunBound(PromptNext(s, cs[0]), cs[1..], t1, close, last);
    }
  }

  // ----- the time is bounded -----

  /** Nothing is due later than `limit`, and the clock has not passed it. */
  ghost predicate Within(s: State, limit: int) {
    var q := s.queue;
    && s.now <= limit && RequestsBy(q.runs, limit) && RequestsBy(q.retries, limit)
    && By(q.resets, limit) && By(q.restores, limit) && By(q.releases, limit) && By(q.dialogs, limit)
    && By(q.opens, limit) && By(q.closes, limit)
  }

  lemma WithinClock(s: State, k: Kind, limit: int)
    requires Waiting(s.queue, k) && Within(s, limit)
    ensures Within(s.(now := PromptTime(s, k)), limit)
  {
  }

  lemma WithinUpdate(s: State, want: CameraState, limit: int)
    requires Within(s, limit) && s.now + RETRY_DELAY <= limit
    ensures Within(UpdateMotor(s, want), limit)
  {
  }

  lemma WithinMessage(s: State, k: Kind, env: Env, limit: int)
    requires IsMessage(k) && Waiting(s.queue, k) && Within(s, limit) && s.now + RETRY_DELAY <= limit
    ensures Within(Dispatch(s, k, env), limit)
  {
    var camera := if k == Opens then Open else Close;
    WithinUpdate(s.(queue := Dropped(s.queue, k), log := s.log.(lastHandled := Some(camera))), camera, limit);
  }

  lemma WithinRun(s: State, env: Env, limit: int)
    requires Waiting(s.queue, Runs) && Within(s, limit) && s.now + LED_EFFECT_TIME <= limit
    ensures Within(Dispatch(s, Runs, env), limit)
  {
  }

  lemma WithinRetry(s: State, env: Env, limit: int)
    requires Waiting(s.queue, Retries) && Within(s, limit) && s.now + RETRY_DELAY <= limit
    ensures Within(Dispatch(s, Retries, env), limit)
  {
  }

  lemma WithinReset(s: State, env: Env, limit: int)
    requires Waiting(s.queue, Resets) && Within(s, limit)
    ensures Within(Dispatch(s, Resets, env), limit)
  {
  }

  lemma WithinRestore(s: State, env: Env, limit: int)
    requires Waiting(s.queue, Restores) && Within(s, limit)
    ensures Within(Dispatch(s, Restores, env), limit)
  {
  }

  lemma WithinRelease(s: State, env: Env, limit: int)
    requires Waiting(s.queue, Releases) && Within(s, limit)
    ensures Within(Dispatch(s, Releases, env), limit)
  {
  }

  lemma WithinDialog(s: State, env: Env, limit: int)
    requires Waiting(s.queue, Dialogs) && Within(s, limit)
    ensures Within(Dispatch(s, Dialogs, env), limit)
  {
  }

  lemma WithinStep(s: State, c: Choice, limit: int)
    requires Waiting(s.queue, c.k) && Within(s, limit)
    requires 0 < Outstanding(s) ==> PromptTime(s, c.k) + LED_EFFECT_TIME <= limit
    requires 0 < Coming(s) ==> PromptTime(s, c.k) + RETRY_DELAY <= limit
    ensures Within(PromptNext(s, c), limit)
  {
    var v := s.(now := PromptTime(s, c.k));
    WithinClock(s, c.k, limit);
    match c.k
    case Opens => WithinMessage(v, Opens, c.env, limit);
    case Closes => WithinMessage(v, Closes, c.env, limit);
    case Runs => WithinRun(v, c.env, limit);
    case Retries => WithinRetry(v, c.env, limit);
    case Resets => WithinReset(v, c.env, limit);
    case Restores => WithinRestore(v, c.env, limit);
    case Releases => WithinRelease(v, c.env, limit);
    case Dialogs => WithinDialog(v, c.env, limit);
  }

  lemma WithinAtStart(s: State, limit: int)
    requires Reachable(s) && s.now + CALIBRATION_TIME <= limit
    ensures Within(s, limit)
  {
    var first := ReachableFacts(s);
  }

  lemma WithinClockBound(s: State, limit: int)
    requires Within(s, limit)
    ensures s.now <= limit
  {
  }

  lemma {:induction false} WithinRuns(s: State, cs: seq<Choice>, t: int, close: int, last: int, limit: int)
    requires PromptAdmits(s, cs) && Reachable(s) && Timely(s, t, close, last)
    requires Within(s, limit) && last + LED_EFFECT_TIME <= limit && close + RETRY_DELAY <= limit
    ensures Within(PromptRun(s, cs), limit)
    decreases |cs|
  {
    if cs != [] {
      TimelyNext(s, cs[0], t, close, last);
      WithinStep(s, cs[0], limit);
      var t1 := TimelyStep(s, cs[0], t, close, last);
      PromptReachable(s, cs[0]);
      WithinRuns(PromptNext(s, cs[0]), cs[1..], t1, close, last, limit);
    }
  }

  // ----- the queue drains -----

  lemma AtRest(u: State)
    ensures Idle(u.queue) || exists k :: IsFirst(u.queue, k)
    ensures Idle(u.queue) ==> Outstanding(u) == 0 && u.queue.resets == [] && Coming(u) == 0
  {
    if k :| Waiting(u.queue, k) {
      var least := SomethingFirst(u.queue, k);
    } else {
      assert !Waiting(u.queue, Runs) && !Waiting(u.queue, Retries) && !Waiting(u.queue, Resets);
      assert !Waiting(u.queue, Opens) && !Waiting(u.queue, Closes);
    }
  }

  /** Every prompt run made of waiting tasks ends: their number is bounded from the start. */
  lemma DrainsInBoundedSteps(s: State, cs: seq<Choice>)
    requires Reachable(s) && PromptAdmits(s, cs)
    ensures |cs| <= Weight(s.queue, AllDue(s) + SLOT * Load(s) + RETRY_DELAY)
  {
    hide Weight, Timely, PromptAdmits, PromptRun, Reachable;
    TimelyAtStart(s);
    WeightRunBound(s, cs, s.now + SLOT, AllDue(s), AllDue(s) + SLOT * Load(s));
  }

  /** The clock never goes past 1300 ms for each request made or still to come, plus 7000 ms. */
  lemma DrainsInBoundedTime(s: State, cs: seq<Choice>)
    requires Reachable(s) && PromptAdmits(s, cs)
    ensures PromptRun(s, cs).now <= s.now + SLOT * Load(s) + CALIBRATION_TIME
  {
    hide Within, Timely, PromptAdmits, PromptRun, Reachable;
    var limit := s.now + SLOT * Load(s) + CALIBRATION_TIME;
    TimelyAtStart(s);
    WithinAtStart(s, limit);
    WithinRuns(s, cs, s.now + SLOT, AllDue(s), AllDue(s) + SLOT * Load(s), limit);
    WithinClockBound(PromptRun(s, cs), limit);
  }

  // ----- with the screen on, camera messages are answered -----

  /** The always-on dialog is not wanted while any of these runs. */
  predicate NoDialog(cs: seq<Choice>) {
    forall i :: 0 <= i < |cs| ==> !cs[i].env.alwaysOnDialog
  }

  /** The last request made is for the last camera message handled. */
  predicate Answered(s: State) {
    s.log.asked != [] && s.log.lastHandled == Some(s.log.asked[|s.log.asked| - 1])
  }

  lemma EventKeptByMessage(s: State, camera: CameraState, env: Env)
    ensures HandleMessage(s, camera, env).log.lastEvent == s.log.lastEvent
  {
    hide UpdateMotor;
    FrameUpdateMotor(s.(log := s.log.(lastHandled := Some(camera))), camera);
  }

  lemma MessageAnswered(s: State, k: Kind, env: Env)
    requires IsMessage(k) && Waiting(s.queue, k) && s.hasMotor && s.screenOn && !env.alwaysOnDialog
    ensures var u := Dispatch(s, k, env);
      Answered(u) && |u.log.asked| == |s.log.asked| + 1 && u.log.lastEvent == s.log.lastEvent
  {
    hide HandleMessage;
    MessageEffect(s, env);
    MessageHandled(s, env);
    EventKeptByMessage(s.(queue := Dropped(s.queue, k)), if k == Opens then Open else Close, env);
  }

  lemma TaskAnswersNothing(s: State, k: Kind, env: Env)
    requires Waiting(s.queue, k) && !IsMessage(k)
    ensures var u := Dispatch(s, k, env);
      u.log.asked == s.log.asked && u.log.lastHandled == s.log.lastHandled && u.log.lastEvent == s.log.lastEvent
  {
    match k
    case Runs => FrameRun(s, env);
    case Retries => FrameRetry(s, env);
    case _ => FrameEnding(s, k, env);
  }

  /** From `s` to `u` each message taken has made a request, the last of them the last. */
  predicate Answers(s: State, u: State) {
    && u.log.lastEvent == s.log.lastEvent
    && |u.log.asked| + Coming(u) == |s.log.asked| + Coming(s)
    && (Coming(u) < Coming(s) || Answered(s) ==> Answered(u))
    && Coming(u) <= Coming(s)
  }

  lemma AnswersOn(s: State, t: State, u: State)
    requires Answers(s, t) && Answers(t, u)
    ensures Answers(s, u)
  {
    hide Answered, Coming;
  }

  lemma AnsweredStep(s: State, k: Kind, env: Env)
    requires Waiting(s.queue, k) && s.hasMotor && s.screenOn && !env.alwaysOnDialog
    ensures var u := Dispatch(s, k, env); u.hasMotor && u.screenOn && Answers(s, u)
  {
    hide Dispatch;
    ScreenKeptByTask(s, k, env);
    MessagesLeft(s, k, env);
    if IsMessage(k) {
      MessageAnswered(s, k, env);
    } else {
      TaskAnswersNothing(s, k, env);
    }
  }

  lemma PromptAnswered(s: State, c: Choice)
    requires Waiting(s.queue, c.k) && s.hasMotor && s.screenOn && !c.env.alwaysOnDialog
    ensures var u := PromptNext(s, c); u.hasMotor && u.screenOn && Answers(s, u)
  {
    hide Dispatch, PromptTime;
    AnsweredStep(s.(now := PromptTime(s, c.k)), c.k, c.env);
  }

  lemma {:induction false} AnsweredRun(s: State, cs: seq<Choice>)
    requires PromptAdmits(s, cs) && NoDialog(cs) && s.hasMotor && s.screenOn
    ensures Answers(s, PromptRun(s, cs))
    decreases |cs|
  {
    hide PromptNext;
    if cs != [] {
      hide Answers;
      PromptAnswered(s, cs[0]);
      AnsweredRun(PromptNext(s, cs[0]), cs[1..]);
      AnswersOn(s, PromptNext(s, cs[0]), PromptRun(s, cs));
    }
  }

  lemma EventBeforeMessage(s: State)
    requires Reachable(s) && 0 < Coming(s)
    ensures s.log.lastEvent.Some?
  {
    var first := ReachableFacts(s);
  }

  /** With the screen on and no dialog wanted each message makes a request, and the last is for the last camera event. */
  lemma LastEventAnswered(s: State, cs: seq<Choice>)
    requires Reachable(s) && PromptAdmits(s, cs) && NoDialog(cs) && s.hasMotor && s.screenOn
    requires Coming(PromptRun(s, cs)) == 0
    ensures var u := PromptRun(s, cs);
      && |u.log.asked| == |s.log.asked| + Coming(s)
      && (0 < Coming(s) ==> u.log.asked != [] && u.log.lastEvent == Some(u.log.asked[|u.log.asked| - 1]))
  {
    var u := PromptRun(s, cs);
    AnsweredRun(s, cs);
    if 0 < Coming(s) {
      EventBeforeMessage(s);
      PromptRunKeeps(s, cs);
      LatestEventWins(u, u.log.lastEvent.value);
    }
  }

  /**
   * While anything waits the run can go on. When nothing does, every request has run, those the messages made included,
   * the motor is free, and the last camera message handled was of the last camera event. If the screen was on and no
   * dialog wanted, each message has made a request, and the last request made is for the last camera event.
   */
  lemma DrainsCompletely(s: State, cs: seq<Choice>)
    requires Reachable(s) && PromptAdmits(s, cs)
    ensures var u := PromptRun(s, cs);
      if Idle(u.queue) then
        && |u.log.ran| == |u.log.asked| && |s.log.asked| <= |u.log.asked| <= |s.log.asked| + Coming(s)
        && !u.motorBusy && (u.log.lastEvent.Some? ==> u.log.lastHandled == u.log.lastEvent)
        && (s.hasMotor && s.screenOn && NoDialog(cs) ==>
              && |u.log.asked| == |s.log.asked| + Coming(s)
              && (0 < Coming(s) ==> u.log.asked != [] && u.log.lastEvent == Some(u.log.asked[|u.log.asked| - 1])))
      else exists k :: IsFirst(u.queue, k)
  {
    hide PromptRun, PromptAdmits, Reachable, NoDialog;
    var u := PromptRun(s, cs);
    PromptRunKeeps(s, cs);
    AtRest(u);
    RequestsConserved(u);
    if u.log.lastEvent.Some? {
      LatestEventWins(u, u.log.lastEvent.value);
    }
    if Idle(u.queue) && s.hasMotor && s.screenOn && NoDialog(cs) {
      LastEventAnswered(s, cs);
    }
  }
}
