/** What a step does to the motor's share of the state: only requests, their tasks and the busy reset touch it. */
module MotorSteps {
  import opened CTypes
  import opened Handler
  import opened PopupCamera

  datatype Motor = Motor(
    now: int,
    runs: seq<Request>,
    retries: seq<Request>,
    resets: seq<int>,
    busy: bool,
    asked: seq<CameraState>,
    ran: seq<CameraState>,
    armed: seq<int>,
    commands: seq<int>)

  function MotorOf(s: State): Motor {
    Motor(s.now, s.queue.runs, s.queue.retries, s.queue.resets, s.motorBusy,
          s.log.asked, s.log.ran, s.log.resets, s.log.commands)
  }

  predicate RequestsBy(requests: seq<Request>, limit: int) {
    forall i :: 0 <= i < |requests| ==> requests[i].due <= limit
  }

  // ----- what changes it -----

  function Posted(m: Motor, want: CameraState): Motor {
    if m.busy then m.(retries := m.retries + [Request(m.now + RETRY_DELAY, want)])
    else m.(runs := m.runs + [Request(m.now, want)])
  }

  function Asked(m: Motor, want: CameraState): Motor {
    Posted(m, want).(asked := m.asked + [want])
  }

  function Ran(m: Motor, env: Env): Motor
    requires m.runs != []
  {
    var want := m.runs[0].want;
    m.(runs := m.runs[1..],
       resets := if Arms(want, env) then m.resets + [m.now + BUSY_TIME] else m.resets,
       busy := Arms(want, env),
       ran := m.ran + [want],
       armed := if Arms(want, env) then m.armed + [m.now] else m.armed,
       commands := if Moves(want, env) then m.commands + [m.now] else m.commands)
  }

  function Retried(m: Motor): Motor
    requires m.retries != []
  {
    Posted(m.(retries := m.retries[1..]), m.retries[0].want)
  }

  function Freed(m: Motor): Motor
    requires m.resets != []
  {
    m.(resets := m.resets[1..], busy := false)
  }

  lemma MotorRan(s: State, env: Env)
    requires Waiting(s.queue, Runs)
    ensures MotorOf(Dispatch(s, Runs, env)) == Ran(MotorOf(s), env)
  {
  }

  lemma MotorRetried(s: State, env: Env)
    requires Waiting(s.queue, Retries)
    ensures MotorOf(Dispatch(s, Retries, env)) == Retried(MotorOf(s))
  {
  }

  lemma MotorFreed(s: State, env: Env)
    requires Waiting(s.queue, Resets)
    ensures MotorOf(Dispatch(s, Resets, env)) == Freed(MotorOf(s))
  {
  }

  lemma MotorUpdated(s: State, want: CameraState)
    ensures MotorOf(UpdateMotor(s, want)) == if s.hasMotor then Asked(MotorOf(s), want) else MotorOf(s)
  {
  }

  // ----- what does not -----

  predicate IsMotorTask(k: Kind) {
    k == Runs || k == Retries || k == Resets
  }

  /** The step makes no request. */
  predicate AsksNothing(s: State, e: Event)
    requires Enabled(s, e)
  {
    Next(s, e).log.asked == s.log.asked
  }

  lemma KeptByUpdate(s: State, want: CameraState)
    ensures UpdateMotor(s, want).log.asked == s.log.asked ==> UpdateMotor(s, want) == s
  {
    assert |s.log.asked + [want]| != |s.log.asked|;
  }

  lemma KeptByDialog(s: State)
    ensures MotorOf(ShowDialog(s)) == MotorOf(s)
  {
  }

  lemma NotifyIs(s: State, status: int)
    ensures Notify(s, status) == UpdateMotor(s, Close) || Notify(s, status) == ShowDialog(s) || Notify(s, status) == s
    ensures Notify(s, status).log.asked == s.log.asked || Notify(s, status) == UpdateMotor(s, Close)
  {
    assert ShowDialog(s).log == s.log;
  }

  lemma KeptByNotify(s: State, status: int)
    requires Notify(s, status).log.asked == s.log.asked
    ensures MotorOf(Notify(s, status)) == MotorOf(s)
  {
    NotifyIs(s, status);
    KeptByUpdate(s, Close);
    KeptByDialog(s);
  }

  lemma KeptByMessage(s: State, camera: CameraState, env: Env)
    requires HandleMessage(s, camera, env).log.asked == s.log.asked
    ensures MotorOf(HandleMessage(s, camera, env)) == MotorOf(s)
  {
    KeptByUpdate(s.(log := s.log.(lastHandled := Some(camera))), camera);
  }

  lemma KeptByCamera(s: State, cameraId: string)
    ensures MotorOf(CameraOpened(s, cameraId)) == MotorOf(s) && MotorOf(CameraClosed(s, cameraId)) == MotorOf(s)
  {
  }

  lemma KeptByTask(s: State, k: Kind, env: Env)
    requires Waiting(s.queue, k) && !IsMotorTask(k) && Dispatch(s, k, env).log.asked == s.log.asked
    ensures MotorOf(Dispatch(s, k, env)) == MotorOf(s)
  {
    hide HandleMessage, RunMotor, RunRetry;
    match k
    case Opens => KeptByMessage(s.(queue := Dropped(s.queue, Opens)), Open, env);
    case Closes => KeptByMessage(s.(queue := Dropped(s.queue, Closes)), Close, env);
    case _ =>
  }

  /** Apart from the clock, nothing that makes no request and is no motor task touches the motor's share. */
  lemma MotorKept(s: State, e: Event)
    requires Enabled(s, e) && AsksNothing(s, e)
    requires !e.Tick? && (e.Dispatched? ==> !IsMotorTask(e.k))
    ensures MotorOf(Next(s, e)) == MotorOf(s)
  {
    match e
    case Opened(cameraId) => KeptByCamera(s, cameraId);
    case Closed(cameraId) => KeptByCamera(s, cameraId);
    case Notified(status) => KeptByNotify(s, status);
    case RaiseClicked => KeptByUpdate(s, Open);
    case Dispatched(k, env) => KeptByTask(s, k, env);
    case _ =>
  }

  // ----- requests -----

  lemma AskedByNotify(s: State, status: int)
    requires Notify(s, status).log.asked != s.log.asked
    ensures MotorOf(Notify(s, status)) == Asked(MotorOf(s), Close)
  {
    NotifyIs(s, status);
    MotorUpdated(s, Close);
  }

  lemma OthersAskNothing(s: State, e: Event)
    requires Enabled(s, e) && !e.Notified? && !e.RaiseClicked? && !e.Dispatched?
    ensures AsksNothing(s, e)
  {
  }

  lemma AskedByMessage(s: State, camera: CameraState, env: Env)
    requires HandleMessage(s, camera, env).log.asked != s.log.asked
    ensures MotorOf(HandleMessage(s, camera, env)) == Asked(MotorOf(s), camera)
  {
    MotorUpdated(s.(log := s.log.(lastHandled := Some(camera))), camera);
  }

  lemma KeptLog(s: State, k: Kind, env: Env)
    requires (k == Resets || k == Restores || k == Releases || k == Dialogs) && Waiting(s.queue, k)
    ensures Dispatch(s, k, env).log == s.log
  {
    hide HandleMessage, RunMotor, RunRetry;
  }

  lemma AskedByTask(s: State, k: Kind, env: Env) returns (want: CameraState)
    requires Waiting(s.queue, k) && Dispatch(s, k, env).log.asked != s.log.asked
    ensures MotorOf(Dispatch(s, k, env)) == Asked(MotorOf(s), want)
  {
    hide HandleMessage, RunMotor, RunRetry, RunRestoreLed;
    want := if k == Opens then Open else Close;
    match k
    case Opens => AskedByMessage(s.(queue := Dropped(s.queue, Opens)), Open, env);
    case Closes => AskedByMessage(s.(queue := Dropped(s.queue, Closes)), Close, env);
    case Runs => MotorRan(s, env);
    case Retries => MotorRetried(s, env);
    case _ => KeptLog(s, k, env);
  }

  /** A step that makes a request does nothing else to the motor's share. */
  lemma MotorAsked(s: State, e: Event) returns (want: CameraState)
    requires Enabled(s, e) && !AsksNothing(s, e)
    ensures MotorOf(Next(s, e)) == Asked(MotorOf(s), want)
  {
    want := Close;
    match e
    case Notified(status) => AskedByNotify(s, status);
    case RaiseClicked =>
      want := Open;
      MotorUpdated(s, Open);
    case Dispatched(k, env) => want := AskedByTask(s, k, env);
    case _ => OthersAskNothing(s, e);
  }

  // ----- runs without requests -----

  /** No step makes a request. */
  predicate AsksNone(s: State, events: seq<Event>)
    requires Admits(s, events)
    decreases |events|
  {
    events == [] || (AsksNothing(s, events[0]) && AsksNone(Next(s, events[0]), events[1..]))
  }

  /** No camera message is waiting, so nothing in the queue makes a new request. */
  predicate Quiet(s: State) {
    s.queue.opens == [] && s.queue.closes == []
  }
}
