/** What keeps two requests that wait to be retried in the order in which they were made: how their turns can fall. */
module MotorTurns {
  import opened Handler
  import opened MotorOrder
  import opened MotorSteps
  import opened PopupCamera
  import opened ServiceGuarantees
  import opened ServiceInvariants

  // ----- the condition on a request -----

  /** By the reset due at `r` the runnables posted to run up to `a` have run, so that nothing makes the motor busy until `a`. */
  predicate Clears(m: Motor, a: int, r: int) {
    r < a && forall j :: 0 <= j < |m.runs| && m.runs[j].due <= a ==> m.runs[j].due < r
  }

  /** A retry due at `a` finds the motor free. */
  predicate Released(m: Motor, a: int) {
    exists i :: 0 <= i < |m.resets| && Clears(m, a, m.resets[i])
  }

  predicate NoneWithin(resets: seq<int>, from: int, to: int) {
    forall i :: 0 <= i < |resets| ==> !(from <= resets[i] <= to)
  }

  predicate SomeBetween(resets: seq<int>, after: int, before: int) {
    exists i :: 0 <= i < |resets| && after < resets[i] < before
  }

  /** A retry due at `a` and one asked for now may take turns, but take them in pairs, until a reset ends it. */
  predicate Gap(m: Motor, a: int) {
    && m.now < a
    && SomeBetween(m.resets, m.now + RETRY_DELAY, a + RETRY_DELAY)
    && NoneWithin(m.resets, a, m.now + RETRY_DELAY)
  }

  /** A request may be made: none waits to be retried, or the motor is busy and the one that waits runs first all the same. */
  predicate MayAsk(m: Motor) {
    m.retries == [] || (m.busy && (Released(m, m.retries[0].due) || Gap(m, m.retries[0].due)))
  }

  // ----- which motor task is due first -----

  predicate RunFirst(m: Motor) {
    && m.runs != []
    && (m.retries != [] ==> m.runs[0].due <= m.retries[0].due)
    && (m.resets != [] ==> m.runs[0].due <= m.resets[0])
  }

  predicate RetryFirst(m: Motor) {
    && m.retries != []
    && (m.runs != [] ==> m.retries[0].due <= m.runs[0].due)
    && (m.resets != [] ==> m.retries[0].due <= m.resets[0])
  }

  predicate ResetFirst(m: Motor) {
    && m.resets != []
    && (m.runs != [] ==> m.resets[0] <= m.runs[0].due)
    && (m.retries != [] ==> m.resets[0] <= m.retries[0].due)
  }

  /** The motor's tasks wait in the order in which they fall due. */
  ghost predicate Sorted(m: Motor) {
    && OrderedRequests(m.runs, m.now) && OrderedRequests(m.retries, m.now + RETRY_DELAY)
    && Ordered(m.resets, m.now + BUSY_TIME)
  }

  // ----- the turns of two retries -----

  /** Both wait in line, and the first finds the motor free. */
  predicate FirstRuns(m: Motor) {
    && |m.retries| == 2 && InLine(m)
    && var a := m.retries[0].due;
       || (!m.busy && forall j :: 0 <= j < |m.runs| ==> a < m.runs[j].due)
       || Released(m, a)
  }

  /** Both wait in line, and if the first finds the motor busy so does the second, before a reset frees the first. */
  predicate BothTurn(m: Motor) {
    && |m.retries| == 2 && InLine(m)
    && var a, b := m.retries[0].due, m.retries[1].due;
       && a <= b < m.now + BUSY_TIME
       && (forall j :: 0 <= j < |m.runs| ==> m.runs[j].due < a)
       && NoneWithin(m.resets, a, b) && SomeBetween(m.resets, b, a + RETRY_DELAY)
  }

  /** They have changed places, and the second is about to find the motor busy too. */
  predicate TurnedOnce(m: Motor) {
    && |m.retries| == 2 && m.busy && m.runs == []
    && m.asked == m.ran + [m.retries[1].want, m.retries[0].want]
    && (forall i :: 0 <= i < |m.resets| ==> m.retries[0].due < m.resets[i])
    && exists i :: 0 <= i < |m.resets| && m.resets[i] < m.retries[1].due
  }

  predicate Turns(m: Motor) {
    InOrder(m) || FirstRuns(m) || BothTurn(m) || TurnedOnce(m)
  }

  lemma TurnsInOrder(m: Motor)
    requires Turns(m)
    ensures m.ran <= m.asked
  {
    if InLine(m) {
      assert m.asked == m.ran + (Wants(m.runs) + Wants(m.retries));
    }
  }

  // ----- a runnable runs -----

  lemma ReleasedRan(m: Motor, env: Env, a: int)
    requires m.runs != [] && m.runs[0].due <= a && Released(m, a)
    ensures Released(Ran(m, env), a)
  {
    var i :| 0 <= i < |m.resets| && Clears(m, a, m.resets[i]);
    var n := Ran(m, env);
    assert n.resets[i] == m.resets[i] && Clears(n, a, n.resets[i]);
  }

  lemma FirstRunsRan(m: Motor, env: Env)
    requires FirstRuns(m) && RunFirst(m)
    ensures FirstRuns(Ran(m, env))
  {
    LineRan(m, env);
    ReleasedRan(m, env, m.retries[0].due);
  }

  lemma BothTurnRan(m: Motor, env: Env)
    requires BothTurn(m) && m.runs != []
    ensures BothTurn(Ran(m, env))
  {
    LineRan(m, env);
    var b, c := m.retries[1].due, m.retries[0].due + RETRY_DELAY;
    var i :| 0 <= i < |m.resets| && b < m.resets[i] < c;
    assert Ran(m, env).resets[i] == m.resets[i];
  }

  lemma TurnsRan(m: Motor, env: Env)
    requires Turns(m) && RunFirst(m)
    ensures Turns(Ran(m, env))
  {
    if InOrder(m) {
      LineRan(m, env);
    } else if FirstRuns(m) {
      FirstRunsRan(m, env);
    } else {
      BothTurnRan(m, env);
    }
  }

  // ----- a retry has its turn -----

  lemma FreeTurn(m: Motor)
    requires |m.retries| == 2 && InLine(m) && !m.busy
    ensures InOrder(Retried(m))
  {
    LineFreeRetry(m);
  }

  /** A released retry is not due before the reset that releases it. */
  lemma ReleasedFirst(m: Motor)
    requires RetryFirst(m) && Sorted(m)
    ensures !Released(m, m.retries[0].due)
  {
  }

  lemma FirstTurn(m: Motor)
    requires BothTurn(m) && RetryFirst(m) && Sorted(m) && m.busy && m.retries[0].due <= m.now
    ensures TurnedOnce(Retried(m))
  {
    var a, b := m.retries[0].due, m.retries[1].due;
    var i :| 0 <= i < |m.resets| && b < m.resets[i] < a + RETRY_DELAY;
    assert m.runs == [] && Wants(m.runs) == [] && Wants(m.retries) == [m.retries[0].want, m.retries[1].want];
    var n := Retried(m);
    assert n.retries == [m.retries[1], Request(m.now + RETRY_DELAY, m.retries[0].want)];
    assert n.resets[i] < n.retries[1].due;
    forall k | 0 <= k < |n.resets| ensures b < n.resets[k] {
      assert a <= m.resets[0] <= m.resets[k];
    }
  }

  lemma SecondTurn(m: Motor)
    requires TurnedOnce(m)
    ensures FirstRuns(Retried(m))
  {
    var i :| 0 <= i < |m.resets| && m.resets[i] < m.retries[1].due;
    var n := Retried(m);
    assert n.retries == [m.retries[1], Request(m.now + RETRY_DELAY, m.retries[0].want)];
    assert Wants(n.runs) == [] && Wants(n.retries) == [m.retries[1].want, m.retries[0].want];
    assert Clears(n, n.retries[0].due, n.resets[i]);
  }

  lemma TurnsRetried(m: Motor)
    requires Turns(m) && RetryFirst(m) && Sorted(m) && m.retries[0].due <= m.now
    ensures Turns(Retried(m))
  {
    if InOrder(m) {
      OrderRetried(m);
    } else if TurnedOnce(m) {
      SecondTurn(m);
    } else if !m.busy {
      FreeTurn(m);
    } else {
      ReleasedFirst(m);
      FirstTurn(m);
    }
  }

  // ----- a reset frees the motor -----

  lemma ReleasedFreed(m: Motor, i: nat)
    requires |m.retries| == 2 && ResetFirst(m) && Sorted(m) && i < |m.resets| && Clears(m, m.retries[0].due, m.resets[i])
    ensures var n, a := Freed(m), m.retries[0].due;
      Released(n, a) || forall j :: 0 <= j < |n.runs| ==> a < n.runs[j].due
  {
    var n, a := Freed(m), m.retries[0].due;
    if 0 < i {
      assert n.resets[i - 1] == m.resets[i] && Clears(n, a, n.resets[i - 1]);
    }
  }

  lemma FirstRunsFreed(m: Motor)
    requires FirstRuns(m) && ResetFirst(m) && Sorted(m)
    ensures FirstRuns(Freed(m))
  {
    if Released(m, m.retries[0].due) {
      var i :| 0 <= i < |m.resets| && Clears(m, m.retries[0].due, m.resets[i]);
      ReleasedFreed(m, i);
    }
  }

  lemma BothTurnFreed(m: Motor)
    requires BothTurn(m) && ResetFirst(m)
    ensures BothTurn(Freed(m))
  {
    var i :| 0 <= i < |m.resets| && m.retries[1].due < m.resets[i] < m.retries[0].due + RETRY_DELAY;
    assert 0 < i && Freed(m).resets[i - 1] == m.resets[i];
  }

  lemma TurnsFreed(m: Motor)
    requires Turns(m) && ResetFirst(m) && Sorted(m)
    ensures Turns(Freed(m))
  {
    if InOrder(m) {
      assert InOrder(Freed(m));
    } else if FirstRuns(m) {
      FirstRunsFreed(m);
    } else {
      BothTurnFreed(m);
    }
  }

  // ----- every step, and a request that may be made -----

  lemma FirstMotorTask(q: Queues, m: Motor, k: Kind)
    requires m.runs == q.runs && m.retries == q.retries && m.resets == q.resets && IsFirst(q, k)
    ensures k == Runs ==> RunFirst(m)
    ensures k == Retries ==> RetryFirst(m)
    ensures k == Resets ==> ResetFirst(m)
  {
    assert Waiting(q, Runs) ==> FirstDue(q, k) <= FirstDue(q, Runs);
    assert Waiting(q, Retries) ==> FirstDue(q, k) <= FirstDue(q, Retries);
    assert Waiting(q, Resets) ==> FirstDue(q, k) <= FirstDue(q, Resets);
  }

  lemma ReachableSorted(s: State)
    requires Reachable(s)
    ensures Sorted(MotorOf(s)) && (s.motorBusy ==> s.queue.resets != [])
  {
    var first := ReachableFacts(s);
  }

  lemma TurnsTask(s: State, k: Kind, env: Env)
    requires IsFirst(s.queue, k) && FirstDue(s.queue, k) <= s.now && IsMotorTask(k) && Sorted(MotorOf(s)) && Turns(MotorOf(s))
    ensures Turns(MotorOf(Dispatch(s, k, env)))
  {
    hide Turns, Sorted;
    FirstMotorTask(s.queue, MotorOf(s), k);
    match k
    case Runs =>
      MotorRan(s, env);
      TurnsRan(MotorOf(s), env);
    case Retries =>
      MotorRetried(s, env);
      TurnsRetried(MotorOf(s));
    case Resets =>
      MotorFreed(s, env);
      TurnsFreed(MotorOf(s));
  }

  lemma TurnsTick(m: Motor, to: int)
    requires Turns(m) && m.now <= to
    ensures Turns(m.(now := to))
  {
    var n := m.(now := to);
    if FirstRuns(m) && Released(m, m.retries[0].due) {
      var i :| 0 <= i < |m.resets| && Clears(m, m.retries[0].due, m.resets[i]);
      assert Clears(n, n.retries[0].due, n.resets[i]);
    }
  }

  lemma ReleasedAsked(m: Motor, want: CameraState, a: int)
    requires Released(m, a) && m.busy
    ensures Released(Asked(m, want), a)
  {
    var i :| 0 <= i < |m.resets| && Clears(m, a, m.resets[i]);
    assert Clears(Asked(m, want), a, Asked(m, want).resets[i]);
  }

  /** A request made while `MayAsk` holds starts the turns of the two, if there are two. */
  lemma TurnsAsked(m: Motor, want: CameraState)
    requires InOrder(m) && Sorted(m) && MayAsk(m)
    ensures Turns(Asked(m, want))
  {
    if m.retries == [] {
      OrderAsked(m, want);
    } else {
      var a, n := m.retries[0].due, Asked(m, want);
      WantsAppend(m.retries, Request(m.now + RETRY_DELAY, want));
      assert n.asked == m.ran + Wants(m.runs) + (Wants(m.retries) + [want]);
      if Released(m, a) {
        ReleasedAsked(m, want, a);
      } else {
        assert BothTurn(n);
      }
    }
  }

  // ----- runs -----

  /** Every request is made while one at most waits to be retried and `MayAsk` holds. */
  predicate Courteous(s: State, events: seq<Event>)
    requires Admits(s, events)
    decreases |events|
  {
    events == [] ||
    ((AsksNothing(s, events[0]) || (|s.queue.retries| <= 1 && MayAsk(MotorOf(s))))
     && Courteous(Next(s, events[0]), events[1..]))
  }

  lemma OneRetryInOrder(m: Motor)
    requires Turns(m) && |m.retries| <= 1
    ensures InOrder(m)
  {
  }

  lemma TurnsRequest(s: State, e: Event)
    requires Enabled(s, e) && !AsksNothing(s, e) && Reachable(s)
    requires Turns(MotorOf(s)) && |s.queue.retries| <= 1 && MayAsk(MotorOf(s))
    ensures Turns(MotorOf(Next(s, e)))
  {
    hide Turns, Sorted, Reachable, MayAsk, InOrder;
    var want := MotorAsked(s, e);
    ReachableSorted(s);
    OneRetryInOrder(MotorOf(s));
    TurnsAsked(MotorOf(s), want);
  }

  lemma TurnsStep(s: State, e: Event)
    requires Enabled(s, e) && Reachable(s) && Turns(MotorOf(s))
    requires AsksNothing(s, e) || (|s.queue.retries| <= 1 && MayAsk(MotorOf(s)))
    ensures Turns(MotorOf(Next(s, e)))
  {
    hide Turns, Sorted, Reachable, MayAsk;
    if !AsksNothing(s, e) {
      TurnsRequest(s, e);
    } else if e.Tick? {
      TurnsTick(MotorOf(s), e.to);
    } else if e.Dispatched? && IsMotorTask(e.k) {
      ReachableSorted(s);
      TurnsTask(s, e.k, e.env);
    } else {
      MotorKept(s, e);
    }
  }

  lemma {:induction false} TurnsRun(s: State, events: seq<Event>)
    requires Admits(s, events) && Courteous(s, events) && Reachable(s) && Turns(MotorOf(s))
    ensures Turns(MotorOf(Execute(s, events)))
    decreases |events|
  {
    if events != [] {
      TurnsStep(s, events[0]);
      ReachableNext(s, events[0]);
      TurnsRun(Next(s, events[0]), events[1..]);
    }
  }

  /** Requests made only while `MayAsk` holds run in the order in which they were made, past one that waits or not. */
  lemma CourteousInOrder(s: State, events: seq<Event>)
    requires IsInitial(s) && Admits(s, events) && Courteous(s, events)
    ensures var t := Execute(s, events);
      && t.log.ran <= t.log.asked
      && (Outstanding(t) == 0 ==> t.log.ran == t.log.asked)
  {
    InitialReachable(s);
    TurnsRun(s, events);
    TurnsInOrder(MotorOf(Execute(s, events)));
  }
}
