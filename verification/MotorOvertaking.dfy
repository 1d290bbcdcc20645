/** The condition for keeping requests in order is exact: whenever it fails, one more request can overtake another. */
module MotorOvertaking {
  import opened CTypes
  import opened Handler
  import opened MotorOrder
  import opened MotorSharpness
  import opened MotorSteps
  import opened MotorTurns
  import opened PopupCamera
  import opened ServiceGuarantees

  /** Without further requests, the service can come to run requests in another order than they were made in. */
  ghost predicate Misorders(s: State) {
    exists t :: Leads(s, t) && !(t.log.ran <= t.log.asked)
  }

  lemma MisordersBefore(s: State, t: State)
    requires Leads(s, t) && Misorders(t)
    ensures Misorders(s)
  {
    var u :| Leads(t, u) && !(u.log.ran <= u.log.asked);
    LeadsOn(s, t, u);
  }

  lemma {:induction false} ReachableRun(s: State, events: seq<Event>)
    requires Reachable(s) && Admits(s, events)
    ensures Reachable(Execute(s, events))
    decreases |events|
  {
    if events != [] {
      ReachableNext(s, events[0]);
      ReachableRun(Next(s, events[0]), events[1..]);
    }
  }

  lemma ReachableLeads(s: State, t: State)
    requires Reachable(s) && Leads(s, t)
    ensures Reachable(t)
  {
    var events :| Admits(s, events) && AsksNone(s, events) && Execute(s, events) == t;
    ReachableRun(s, events);
  }

  // ----- motor tasks one by one -----

  /** An answer on which the motor is left alone, and free. */
  const STILL := Env(Some(MOTOR_STATUS_PRESSED), true, true, false)

  /** Everything the steps below start from. */
  ghost predicate Settled(s: State) {
    Reachable(s) && Quiet(s)
  }

  lemma NextRun(s: State, env: Env) returns (t: State)
    requires Settled(s) && RunFirst(MotorOf(s)) && s.queue.runs[0].due <= s.now
    ensures Leads(s, t) && Settled(t) && MotorOf(t) == Ran(MotorOf(s), env)
  {
    ReadyRun(s);
    t := TakeRun(s, env);
    ReachableLeads(s, t);
  }

  lemma NextRetry(s: State) returns (t: State)
    requires Settled(s) && RetryFirst(MotorOf(s)) && s.queue.retries[0].due <= s.now
    ensures Leads(s, t) && Settled(t) && MotorOf(t) == Retried(MotorOf(s))
  {
    ReadyRetry(s);
    t := TakeRetry(s);
    ReachableLeads(s, t);
  }

  lemma NextReset(s: State) returns (t: State)
    requires Settled(s) && ResetFirst(MotorOf(s)) && s.queue.resets[0] <= s.now
    ensures Leads(s, t) && Settled(t) && MotorOf(t) == Freed(MotorOf(s))
  {
    ReadyReset(s);
    t := TakeReset(s);
    ReachableLeads(s, t);
  }

  lemma Later(s: State, to: int) returns (t: State)
    requires Settled(s) && s.now <= to
    ensures Leads(s, t) && Settled(t) && MotorOf(t) == MotorOf(s).(now := to)
  {
    t := Wait(s, to);
    ReachableLeads(s, t);
  }

  // ----- a runnable posted out of order will run out of order -----

  function Late(retries: seq<Request>, now: int): nat {
    (if 0 < |retries| && retries[0].due <= now then 1 else 0) +
    (if 1 < |retries| && retries[1].due <= now then 1 else 0)
  }

  /** Of motor tasks one of which is posted, one is due first. */
  lemma PostedFirst(m: Motor)
    requires m.runs != [] && !RunFirst(m)
    ensures RetryFirst(m) || ResetFirst(m)
    ensures RetryFirst(m) ==> m.retries[0].due <= m.runs[0].due
    ensures ResetFirst(m) ==> m.resets[0] <= m.runs[0].due
  {
  }

  lemma StillRun(m: Motor)
    requires m.runs != []
    ensures var n := Ran(m, STILL);
      n.ran + Wants(n.runs) == m.ran + Wants(m.runs) && n.resets == m.resets && n.retries == m.retries && n.asked == m.asked
  {
    WantsDrop(m.runs);
    assert m.ran + ([m.runs[0].want] + Wants(m.runs[1..])) == (m.ran + [m.runs[0].want]) + Wants(m.runs[1..]);
  }

  /** Taking a late retry makes it wait again, or posts it behind all others. */
  lemma LateTurn(m: Motor, target: seq<CameraState>)
    requires 0 < |m.retries| <= 2 && m.retries[0].due <= m.now && target <= m.ran + Wants(m.runs)
    ensures var n := Retried(m);
      && Late(n.retries, n.now) < Late(m.retries, m.now) && |n.retries| <= 2
      && target <= n.ran + Wants(n.runs) && n.ran == m.ran && n.resets == m.resets && n.asked == m.asked
  {
    var want := m.retries[0].want;
    WantsAppend(m.runs, Request(m.now, want));
    assert m.ran + (Wants(m.runs) + [want]) == (m.ran + Wants(m.runs)) + [want];
  }

  /** What is posted will run, in that order, whatever is put behind it meanwhile. */
  lemma {:induction false} AllRun(s: State, target: seq<CameraState>)
    requires Settled(s) && |s.queue.retries| <= 2
    requires target <= s.log.ran + Wants(s.queue.runs) && !(target <= s.log.asked)
    ensures Misorders(s)
    decreases Max(0, |target| - |s.log.ran|) + |s.queue.resets| + Late(s.queue.retries, s.now)
  {
    var m := MotorOf(s);
    if |target| <= |s.log.ran| {
      assert target == s.log.ran[..|target|];
      LeadsSelf(s);
    } else {
      ReachableSorted(s);
      var t;
      if RunFirst(m) {
        t := NextRun(s, STILL);
        StillRun(m);
      } else {
        PostedFirst(m);
        if RetryFirst(m) {
          LateTurn(m, target);
          t := NextRetry(s);
        } else {
          t := NextReset(s);
        }
      }
      AllRun(t, target);
      MisordersBefore(s, t);
    }
  }

  // ----- the later of two retries finds the motor free first -----

  /** The two requests made last, in that order, have not been posted. */
  predicate Pair(m: Motor, first: CameraState, second: CameraState) {
    |m.retries| == 2 && first != second && m.asked == m.ran + Wants(m.runs) + [first, second]
  }

  lemma PairRan(m: Motor, env: Env, first: CameraState, second: CameraState)
    requires Pair(m, first, second) && m.runs != []
    ensures Pair(Ran(m, env), first, second)
  {
    WantsDrop(m.runs);
    var want, rest, last := m.runs[0].want, Wants(m.runs[1..]), [first, second];
    assert m.ran + ([want] + rest) + last == (m.ran + [want]) + rest + last;
  }

  lemma PostedAhead(s: State, first: CameraState, second: CameraState)
    requires Settled(s) && Pair(MotorOf(s), first, second) && s.queue.retries[0].want == second
    requires RetryFirst(MotorOf(s)) && s.queue.retries[0].due <= s.now && !s.motorBusy && s.queue.runs == []
    ensures Misorders(s)
  {
    var t := NextRetry(s);
    var target := s.log.ran + [second];
    assert Wants(s.queue.runs) == [] && Wants(t.queue.runs) == [second];
    assert s.log.asked == s.log.ran + [first, second];
    assert target[|s.log.ran|] != s.log.asked[|s.log.ran|];
    AllRun(t, target);
    MisordersBefore(s, t);
  }

  /** Some task due by then frees the motor before the turn of the first retry, which is of the later request. */
  predicate FreedByTurn(m: Motor) {
    && m.retries != [] && m.retries[0].due <= m.now
    && (forall j :: 0 <= j < |m.runs| ==> m.runs[j].due <= m.retries[0].due)
    && (!m.busy || m.runs != [] || (m.resets != [] && m.resets[0] <= m.retries[0].due))
  }

  lemma {:induction false} LaterFirst(s: State, first: CameraState, second: CameraState)
    requires Settled(s) && Pair(MotorOf(s), first, second) && s.queue.retries[0].want == second && FreedByTurn(MotorOf(s))
    ensures Misorders(s)
    decreases |s.queue.runs| + |s.queue.resets|
  {
    var m := MotorOf(s);
    var d := m.retries[0].due;
    if m.runs != [] && (m.resets == [] || m.runs[0].due <= m.resets[0]) {
      var t := NextRun(s, STILL);
      PairRan(m, STILL, first, second);
      LaterFirst(t, first, second);
      MisordersBefore(s, t);
    } else if m.resets != [] && m.resets[0] <= d {
      var t := NextReset(s);
      LaterFirst(t, first, second);
      MisordersBefore(s, t);
    } else {
      PostedAhead(s, first, second);
    }
  }

  // ----- turns until a reset falls at the right one -----

  /** Both are due before the next reset and wait in turn, the later request ahead. */
  predicate Swapped(m: Motor, first: CameraState, second: CameraState) {
    && Pair(m, first, second) && m.busy && m.runs == []
    && m.retries[0].want == second && m.retries[1].want == first
    && m.resets != [] && m.retries[0].due <= m.retries[1].due <= m.resets[0]
  }

  lemma BusyTurn(m: Motor)
    requires |m.retries| == 2 && m.busy
    ensures Retried(m) == m.(retries := [m.retries[1], Request(m.now + RETRY_DELAY, m.retries[0].want)])
  {
  }

  lemma TwoTurns(s: State, first: CameraState, second: CameraState) returns (t: State)
    requires Settled(s) && Swapped(MotorOf(s), first, second) && s.queue.retries[1].due <= s.now
    ensures Leads(s, t) && Settled(t) && t.now == s.now
    ensures var next := s.now + RETRY_DELAY;
      MotorOf(t) == MotorOf(s).(retries := [Request(next, second), Request(next, first)])
  {
    BusyTurn(MotorOf(s));
    var u := NextRetry(s);
    BusyTurn(MotorOf(u));
    t := NextRetry(u);
    LeadsOn(s, u, t);
  }

  /** Both turn at a time from which the later is due again only when the reset is due. */
  lemma SwappedMisorders(s: State, first: CameraState, second: CameraState)
    requires Settled(s) && Swapped(MotorOf(s), first, second)
    ensures Misorders(s)
  {
    var t := Later(s, Max(s.now, Max(s.queue.retries[1].due, s.queue.resets[0] - RETRY_DELAY)));
    var u := TwoTurns(t, first, second);
    var v := Later(u, u.now + RETRY_DELAY);
    LaterFirst(v, first, second);
    MisordersBefore(u, v);
    MisordersBefore(t, u);
    MisordersBefore(s, t);
  }

  // ----- the earlier of two retries finds the motor busy -----

  /** The first retry, due at `a`, need not find the motor free. */
  predicate Blockable(m: Motor, a: int) {
    && m.retries != [] && m.retries[0].due == a && !Released(m, a)
    && (m.busy || exists j :: 0 <= j < |m.runs| && m.runs[j].due <= a)
  }

  /** No reset from `a` on falls before `to`. */
  predicate Far(resets: seq<int>, a: int, to: int) {
    forall i :: 0 <= i < |resets| ==> resets[i] < a || to <= resets[i]
  }

  lemma BlockableFreed(m: Motor, a: int)
    requires Blockable(m, a) && m.resets != [] && m.resets[0] < a
    ensures Blockable(Freed(m), a)
  {
    var n := Freed(m);
    assert !Clears(m, a, m.resets[0]);
    forall i | 0 <= i < |n.resets| ensures !Clears(n, a, n.resets[i]) {
      assert n.resets[i] == m.resets[i + 1] && !Clears(m, a, m.resets[i + 1]);
    }
  }

  lemma BlockableRan(m: Motor, env: Env, a: int)
    requires Blockable(m, a) && Sorted(m) && a <= m.now && m.runs != [] && Arms(m.runs[0].want, env)
    requires m.resets != [] && m.resets[0] < a ==> m.runs[0].due < m.resets[0]
    ensures Blockable(Ran(m, env), a)
  {
    var n := Ran(m, env);
    forall i | 0 <= i < |n.resets| ensures !Clears(n, a, n.resets[i]) {
      if i < |m.resets| && m.resets[i] < a {
        assert !Clears(m, a, m.resets[i]);
        var j :| 0 <= j < |m.runs| && m.runs[j].due <= a && m.resets[i] <= m.runs[j].due;
        assert m.resets[0] <= m.resets[i];
        assert 0 < j && n.runs[j - 1] == m.runs[j];
      }
    }
  }

  /** What the way to the turn of a retry due at `a` leaves as it was. */
  predicate Kept(m: Motor, n: Motor, a: int, lim: int, to: int) {
    && n.now == m.now && n.retries == m.retries
    && (to <= m.now + BUSY_TIME && Far(m.resets, a, to) ==> Far(n.resets, a, to))
    && (NoneWithin(n.resets, a, lim) ==> NoneWithin(m.resets, a, lim))
    && (RequestsBy(m.runs, lim) ==> RequestsBy(n.runs, lim))
  }

  lemma KeptRan(m: Motor, env: Env, a: int, lim: int, to: int)
    requires m.runs != []
    ensures Kept(m, Ran(m, env), a, lim, to)
  {
    var n := Ran(m, env);
    if NoneWithin(n.resets, a, lim) {
      forall i | 0 <= i < |m.resets| ensures !(a <= m.resets[i] <= lim) {
        assert n.resets[i] == m.resets[i];
      }
    }
  }

  lemma KeptFreed(m: Motor, a: int, lim: int, to: int)
    requires m.resets != [] && m.resets[0] < a
    ensures Kept(m, Freed(m), a, lim, to)
  {
    var n := Freed(m);
    if NoneWithin(n.resets, a, lim) {
      forall i | 0 <= i < |m.resets| ensures !(a <= m.resets[i] <= lim) {
        if 0 < i {
          assert n.resets[i - 1] == m.resets[i];
        }
      }
    }
  }

  lemma KeptTwice(m: Motor, n: Motor, o: Motor, a: int, lim: int, to: int)
    requires Kept(m, n, a, lim, to) && Kept(n, o, a, lim, to)
    ensures Kept(m, o, a, lim, to)
  {
  }

  /** Until its turn, every reset due before it is followed by a runnable that makes the motor busy again. */
  predicate ResetNext(m: Motor, a: int) {
    m.resets != [] && m.resets[0] < a && (m.runs == [] || m.resets[0] <= m.runs[0].due)
  }

  lemma BlockableRunNext(m: Motor, a: int)
    requires Blockable(m, a) && Sorted(m) && !ResetNext(m, a) && !(m.busy && RetryFirst(m))
    ensures RunFirst(m) && m.runs[0].due <= a
    ensures m.resets != [] && m.resets[0] < a ==> m.runs[0].due < m.resets[0]
  {
    if !m.busy {
      var j :| 0 <= j < |m.runs| && m.runs[j].due <= a;
      assert m.runs[0].due <= m.runs[j].due;
    }
  }

  lemma {:induction false} ToBusyTurn(s: State, a: int, first: CameraState, second: CameraState, lim: int, to: int)
    returns (t: State)
    requires Settled(s) && Pair(MotorOf(s), first, second) && Blockable(MotorOf(s), a) && a <= s.now
    ensures Leads(s, t) && Settled(t) && Pair(MotorOf(t), first, second)
    ensures t.motorBusy && RetryFirst(MotorOf(t)) && Kept(MotorOf(s), MotorOf(t), a, lim, to)
    decreases |s.queue.runs|, |s.queue.resets|
  {
    var m := MotorOf(s);
    ReachableSorted(s);
    if m.busy && RetryFirst(m) {
      t := s;
      LeadsSelf(s);
    } else {
      var u;
      if ResetNext(m, a) {
        u := NextReset(s);
        BlockableFreed(m, a);
        KeptFreed(m, a, lim, to);
      } else {
        BlockableRunNext(m, a);
        u := NextRun(s, Moving(m.runs[0].want));
        BlockableRan(m, Moving(m.runs[0].want), a);
        PairRan(m, Moving(m.runs[0].want), first, second);
        KeptRan(m, Moving(m.runs[0].want), a, lim, to);
      }
      t := ToBusyTurn(u, a, first, second, lim, to);
      KeptTwice(m, MotorOf(u), MotorOf(t), a, lim, to);
      LeadsOn(s, u, t);
    }
  }

  // ----- the exact condition -----

  /** With the places changed, the later request is ahead: it finds the motor free, or the turns can be led on to that. */
  lemma ChangedPlaces(s: State, first: CameraState, second: CameraState)
    requires Settled(s) && Pair(MotorOf(s), first, second) && s.motorBusy
    requires s.queue.retries[0].want == second && s.queue.retries[1].want == first
    requires s.queue.retries[0].due <= s.queue.retries[1].due && RequestsBy(s.queue.runs, s.queue.retries[0].due)
    requires s.queue.resets != [] && s.queue.retries[0].due < s.queue.resets[0] ==> s.queue.retries[1].due <= s.queue.resets[0]
    ensures Misorders(s)
  {
    ReachableSorted(s);
    var d := s.queue.retries[0].due;
    if s.queue.runs == [] && d < s.queue.resets[0] {
      SwappedMisorders(s, first, second);
    } else {
      var t := Later(s, Max(s.now, d));
      LaterFirst(t, first, second);
      MisordersBefore(s, t);
    }
  }

  lemma UpdatedSettled(s: State, want: CameraState)
    requires Settled(s) && s.hasMotor
    ensures Settled(UpdateMotor(s, want))
  {
    ReachableNext(s, if want == Open then RaiseClicked else Notified(MOTOR_STATUS_PRESSED));
  }

  /** A request past one that waits for a free motor is posted ahead of it. */
  lemma FreeMisorders(s: State, want: CameraState)
    requires Settled(s) && s.hasMotor && InOrder(MotorOf(s)) && !s.motorBusy
    requires s.queue.retries != [] && s.queue.retries[0].want != want
    ensures Misorders(UpdateMotor(s, want))
  {
    var t, m := UpdateMotor(s, want), MotorOf(s);
    MotorUpdated(s, want);
    UpdatedSettled(s, want);
    WantsAppend(m.runs, Request(m.now, want));
    assert Wants(m.retries) == [m.retries[0].want];
    var target := m.ran + Wants(m.runs) + [want];
    assert target == m.ran + (Wants(m.runs) + [want]);
    assert t.log.asked == m.ran + Wants(m.runs) + [m.retries[0].want] + [want];
    assert target[|target| - 1] != t.log.asked[|target| - 1];
    AllRun(t, target);
  }

  lemma PairAsked(m: Motor, want: CameraState)
    requires InOrder(m) && m.busy && m.retries != [] && m.retries[0].want != want
    ensures Pair(Asked(m, want), m.retries[0].want, want)
  {
    assert Wants(m.retries) == [m.retries[0].want];
    assert m.ran + Wants(m.runs) + [m.retries[0].want] + [want] == m.ran + Wants(m.runs) + [m.retries[0].want, want];
  }

  lemma BlockableAsked(m: Motor, want: CameraState, now: int)
    requires m.busy && m.retries != [] && !Released(m, m.retries[0].due)
    ensures Blockable(Asked(m, want).(now := now), m.retries[0].due)
  {
    var n, a := Asked(m, want).(now := now), m.retries[0].due;
    forall i | 0 <= i < |n.resets| ensures !Clears(n, a, n.resets[i]) {
      assert !Clears(m, a, m.resets[i]);
    }
  }

  /** Without a gap a reset falls within the turns, or none before both are over. */
  lemma NoGap(m: Motor, n: Motor, a: int)
    requires m.now < a && !Gap(m, a) && Kept(m.(now := a), n, a, m.now + RETRY_DELAY, a + RETRY_DELAY)
    requires Sorted(n) && n.resets != [] && a <= n.resets[0]
    ensures m.now + RETRY_DELAY < n.resets[0] ==> a + RETRY_DELAY <= n.resets[0]
  {
    var lim := m.now + RETRY_DELAY;
    if lim < n.resets[0] {
      assert NoneWithin(n.resets, a, lim);
      assert Far(m.resets, a, a + RETRY_DELAY);
    }
  }

  /** The turn of a retry that has found the motor busy puts the later request ahead. */
  lemma TurnMisorders(s: State, m: Motor, first: CameraState, second: CameraState)
    requires Settled(s) && Pair(MotorOf(s), first, second) && s.motorBusy && RetryFirst(MotorOf(s))
    requires m.retries != [] && Sorted(m) && !Gap(m, m.retries[0].due)
    requires var a, lim := m.retries[0].due, m.now + RETRY_DELAY;
      && s.now == Max(m.now, a)
      && s.queue.retries == [Request(a, first), Request(lim, second)] && RequestsBy(s.queue.runs, lim)
      && Kept(m.(now := s.now, retries := s.queue.retries), MotorOf(s), a, lim, a + RETRY_DELAY)
    ensures Misorders(s)
  {
    var a := m.retries[0].due;
    ReachableSorted(s);
    if m.now < a {
      NoGap(m.(retries := s.queue.retries), MotorOf(s), a);
    }
    BusyTurn(MotorOf(s));
    var t := NextRetry(s);
    ChangedPlaces(t, first, second);
    MisordersBefore(s, t);
  }

  lemma BusyMisorders(s: State, want: CameraState)
    requires Settled(s) && s.hasMotor && InOrder(MotorOf(s)) && s.motorBusy
    requires s.queue.retries != [] && s.queue.retries[0].want != want && !MayAsk(MotorOf(s))
    ensures Misorders(UpdateMotor(s, want))
  {
    hide Reachable, Leads, Misorders, InLine, Released, Gap, UpdateMotor;
    var m, t := MotorOf(s), UpdateMotor(s, want);
    var a, lim, first := m.retries[0].due, m.now + RETRY_DELAY, m.retries[0].want;
    ReachableSorted(s);
    MotorUpdated(s, want);
    UpdatedSettled(s, want);
    PairAsked(m, want);
    BlockableAsked(m, want, Max(m.now, a));
    var u := Later(t, Max(m.now, a));
    var v := ToBusyTurn(u, a, first, want, lim, a + RETRY_DELAY);
    assert m.retries == [Request(a, first)];
    TurnMisorders(v, m, first, want);
    MisordersBefore(u, v);
    MisordersBefore(t, u);
  }

  lemma MayNotAsk(s: State, want: CameraState)
    requires Settled(s) && s.hasMotor && InOrder(MotorOf(s)) && !MayAsk(MotorOf(s)) && s.queue.retries[0].want != want
    ensures Misorders(UpdateMotor(s, want))
  {
    if s.motorBusy {
      BusyMisorders(s, want);
    } else {
      FreeMisorders(s, want);
    }
  }

  lemma {:induction false} NoneIsCourteous(s: State, events: seq<Event>)
    requires Admits(s, events) && AsksNone(s, events)
    ensures Courteous(s, events)
    decreases |events|
  {
    if events != [] {
      NoneIsCourteous(Next(s, events[0]), events[1..]);
    }
  }

  lemma AskedInTurn(s: State, want: CameraState)
    requires Settled(s) && s.hasMotor && InOrder(MotorOf(s)) && MayAsk(MotorOf(s))
    ensures !Misorders(UpdateMotor(s, want))
  {
    var t := UpdateMotor(s, want);
    ReachableSorted(s);
    MotorUpdated(s, want);
    UpdatedSettled(s, want);
    TurnsAsked(MotorOf(s), want);
    forall u | Leads(t, u) ensures u.log.ran <= u.log.asked {
      var events :| Admits(t, events) && AsksNone(t, events) && Execute(t, events) == u;
      NoneIsCourteous(t, events);
      TurnsRun(t, events);
      TurnsInOrder(MotorOf(u));
    }
  }

  /**
   * The exact condition on a caller. After any run whose requests kept to it, with no camera message and one retry at
   * most waiting: a request, for something else than one that waits, can come to run out of order, without a further
   * request, if and only if it is made while `MayAsk` does not hold.
   */
  lemma RequestInOrderIff(s: State, events: seq<Event>, want: CameraState)
    requires IsInitial(s) && Admits(s, events) && Courteous(s, events)
    requires var t := Execute(s, events);
      && t.hasMotor && Quiet(t) && |t.queue.retries| <= 1
      && (t.queue.retries != [] ==> t.queue.retries[0].want != want)
    ensures MayAsk(MotorOf(Execute(s, events))) <==> !Misorders(UpdateMotor(Execute(s, events), want))
  {
    var t := Execute(s, events);
    InitialReachable(s);
    TurnsRun(s, events);
    OneRetryInOrder(MotorOf(t));
    assert Reachable(t);
    if MayAsk(MotorOf(t)) {
      AskedInTurn(t, want);
    } else {
      MayNotAsk(t, want);
    }
  }
}
