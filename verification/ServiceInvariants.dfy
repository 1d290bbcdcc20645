/** What every run of the service keeps, whatever happens and whichever calls throw. */
module ServiceInvariants {
  import opened CTypes
  import opened Handler
  import opened PopupCamera

  // ----- requests, flags and the LED -----

  /** Motor requests made and not yet run. */
  function Outstanding(s: State): nat {
    |s.queue.runs| + |s.queue.retries|
  }

  /** The listener is registered exactly while the last successful move is popping up. */
  predicate ListenerInv(s: State) {
    s.listening <==> s.log.lastMove == Some(Popup)
  }

  /** Each flag is set exactly while one task or dialog that will clear it exists. */
  predicate LatchInv(s: State) {
    && |s.queue.releases| == (if s.motorCalibrating then 1 else 0)
    && |s.queue.dialogs| + s.dialogs == (if s.errorDialogShowing then 1 else 0)
  }

  function Saved(s: State): Visible {
    if s.ledBreathing then Breathing else Steady(s.ledBrightness)
  }

  /** `first` is the LED before the first effect. */
  predicate LedInv(s: State, first: Led) {
    && s.led.stops == first.stops
    && (first.stops || first.breathing ==>
          && (!s.ledBusy ==> Look(s.led) == Look(first))
          && (s.ledBusy || s.queue.restores != [] ==> Saved(s) == Look(first))
          && (s.ledBusy ==> s.queue.restores != []))
  }

  /** No request is lost or doubled, and a busy motor is to be released. `taken` requests are off the queue but not run. */
  predicate FlagInv(s: State, first: Led, taken: nat) {
    && |s.log.asked| == |s.log.ran| + Outstanding(s) + taken
    && (s.motorBusy ==> s.queue.resets != [])
    && ListenerInv(s) && LatchInv(s) && LedInv(s, first)
  }

  lemma FlagUpdateMotor(s: State, want: CameraState, first: Led)
    requires FlagInv(s, first, 0)
    ensures FlagInv(UpdateMotor(s, want), first, 0)
  {
  }

  lemma FlagRetry(s: State, want: CameraState, first: Led)
    requires FlagInv(s, first, 1)
    ensures FlagInv(RunRetry(s, want), first, 0)
  {
  }

  lemma FlagLightUp(s: State, first: Led, due: nat)
    requires FlagInv(s, first, due)
    ensures FlagInv(LightUp(s), first, due)
  {
  }

  lemma FlagDriveMotor(s: State, want: CameraState, env: Env, first: Led)
    requires FlagInv(s, first, 1)
    ensures FlagInv(DriveMotor(s, want, env), first, 0)
  {
  }

  lemma FlagRunMotor(s: State, want: CameraState, env: Env, first: Led)
    requires FlagInv(s, first, 1)
    ensures FlagInv(RunMotor(s, want, env), first, 0)
  {
    FlagLightUp(s, first, 1);
    FlagDriveMotor(if Moves(want, env) && env.ledAllowed then LightUp(s) else s, want, env, first);
  }

  lemma FlagShowDialog(s: State, first: Led)
    requires FlagInv(s, first, 0)
    ensures FlagInv(ShowDialog(s), first, 0)
  {
  }

  lemma FlagCalibrateMotor(s: State, found: bool, first: Led)
    requires FlagInv(s, first, 0)
    ensures FlagInv(CalibrateMotor(s, found), first, 0)
  {
  }

  lemma FlagCameraOpened(s: State, cameraId: string, first: Led)
    requires FlagInv(s, first, 0)
    ensures FlagInv(CameraOpened(s, cameraId), first, 0)
  {
  }

  lemma FlagCameraClosed(s: State, cameraId: string, first: Led)
    requires FlagInv(s, first, 0)
    ensures FlagInv(CameraClosed(s, cameraId), first, 0)
  {
  }

  lemma FlagHandleMessage(s: State, camera: CameraState, env: Env, first: Led)
    requires FlagInv(s, first, 0)
    ensures FlagInv(HandleMessage(s, camera, env), first, 0)
  {
    FlagUpdateMotor(s.(log := s.log.(lastHandled := Some(camera))), camera, first);
  }

  lemma FlagMessage(s: State, k: Kind, env: Env, first: Led)
    requires (k == Opens || k == Closes) && Waiting(s.queue, k) && FlagInv(s, first, 0)
    ensures FlagInv(Dispatch(s, k, env), first, 0)
  {
    var q := s.queue;
    if k == Opens {
      FlagHandleMessage(s.(queue := q.(opens := q.opens[1..])), Open, env, first);
    } else {
      FlagHandleMessage(s.(queue := q.(closes := q.closes[1..])), Close, env, first);
    }
  }

  lemma FlagRequest(s: State, k: Kind, env: Env, first: Led)
    requires (k == Runs || k == Retries) && Waiting(s.queue, k) && FlagInv(s, first, 0)
    ensures FlagInv(Dispatch(s, k, env), first, 0)
  {
    var q := s.queue;
    if k == Runs {
      FlagRunMotor(s.(queue := q.(runs := q.runs[1..])), q.runs[0].want, env, first);
    } else {
      FlagRetry(s.(queue := q.(retries := q.retries[1..])), q.retries[0].want, first);
    }
  }

  lemma FlagReset(s: State, env: Env, first: Led)
    requires Waiting(s.queue, Resets) && FlagInv(s, first, 0)
    ensures FlagInv(Dispatch(s, Resets, env), first, 0)
  {
  }

  lemma FlagRestore(s: State, env: Env, first: Led)
    requires Waiting(s.queue, Restores) && FlagInv(s, first, 0)
    ensures FlagInv(Dispatch(s, Restores, env), first, 0)
  {
  }

  lemma FlagRelease(s: State, env: Env, first: Led)
    requires Waiting(s.queue, Releases) && FlagInv(s, first, 0)
    ensures FlagInv(Dispatch(s, Releases, env), first, 0)
  {
  }

  lemma FlagDialog(s: State, env: Env, first: Led)
    requires Waiting(s.queue, Dialogs) && FlagInv(s, first, 0)
    ensures FlagInv(Dispatch(s, Dialogs, env), first, 0)
  {
  }

  lemma FlagDispatch(s: State, k: Kind, env: Env, first: Led)
    requires Waiting(s.queue, k) && FlagInv(s, first, 0)
    ensures FlagInv(Dispatch(s, k, env), first, 0)
  {
    match k
    case Opens => FlagMessage(s, Opens, env, first);
    case Closes => FlagMessage(s, Closes, env, first);
    case Runs => FlagRequest(s, Runs, env, first);
    case Retries => FlagRequest(s, Retries, env, first);
    case Resets => FlagReset(s, env, first);
    case Restores => FlagRestore(s, env, first);
    case Releases => FlagRelease(s, env, first);
    case Dialogs => FlagDialog(s, env, first);
  }

  lemma FlagStep(s: State, e: Event, first: Led)
    requires Enabled(s, e) && FlagInv(s, first, 0)
    ensures FlagInv(Next(s, e), first, 0)
  {
    match e
    case Opened(cameraId) => FlagCameraOpened(s, cameraId, first);
    case Closed(cameraId) => FlagCameraClosed(s, cameraId, first);
    case Notified(status) =>
      FlagShowDialog(s, first);
      FlagUpdateMotor(s, Close, first);
    case RaiseClicked => FlagUpdateMotor(s, Open, first);
    case CalibrateClicked(found) => FlagCalibrateMotor(s, found, first);
    case Dispatched(k, env) => FlagDispatch(s, k, env, first);
    case _ =>
  }

  // ----- due times -----

  /** In order, none later than `limit`. */
  ghost predicate Ordered(dues: seq<int>, limit: int) {
    && (forall i :: 0 <= i < |dues| ==> dues[i] <= limit)
    && (forall i, j :: 0 <= i < j < |dues| ==> dues[i] <= dues[j])
  }

  ghost predicate OrderedRequests(requests: seq<Request>, limit: int) {
    && (forall i :: 0 <= i < |requests| ==> requests[i].due <= limit)
    && (forall i, j :: 0 <= i < j < |requests| ==> requests[i].due <= requests[j].due)
  }

  ghost predicate DueInv(s: State) {
    && Ordered(s.queue.opens, s.now + CAMERA_EVENT_DELAY_TIME)
    && Ordered(s.queue.closes, s.now + CAMERA_EVENT_DELAY_TIME)
    && OrderedRequests(s.queue.runs, s.now)
    && OrderedRequests(s.queue.retries, s.now + RETRY_DELAY)
    && Ordered(s.queue.resets, s.now + BUSY_TIME)
    && Ordered(s.queue.restores, s.now + LED_EFFECT_TIME)
    && Ordered(s.queue.releases, s.now + CALIBRATION_TIME)
    && Ordered(s.queue.dialogs, s.now)
  }

  lemma DueRequest(s: State, want: CameraState)
    requires DueInv(s)
    ensures DueInv(s.(queue := Enqueued(s, want)))
  {
  }

  lemma DueUpdateMotor(s: State, want: CameraState)
    requires DueInv(s)
    ensures DueInv(UpdateMotor(s, want))
  {
    DueRequest(s, want);
  }

  lemma DueLightUp(s: State)
    requires DueInv(s)
    ensures DueInv(LightUp(s))
  {
  }

  lemma DueDriveMotor(s: State, want: CameraState, env: Env)
    requires DueInv(s)
    ensures DueInv(DriveMotor(s, want, env))
  {
  }

  lemma DueShowDialog(s: State)
    requires DueInv(s)
    ensures DueInv(ShowDialog(s))
  {
  }

  lemma DueCalibrateMotor(s: State, found: bool)
    requires DueInv(s)
    ensures DueInv(CalibrateMotor(s, found))
  {
  }

  lemma DueOpened(s: State, cameraId: string)
    requires DueInv(s)
    ensures DueInv(CameraOpened(s, cameraId))
  {
  }

  lemma DueClosed(s: State, cameraId: string)
    requires DueInv(s)
    ensures DueInv(CameraClosed(s, cameraId))
  {
  }

  lemma DueHandleMessage(s: State, camera: CameraState, env: Env)
    requires DueInv(s)
    ensures DueInv(HandleMessage(s, camera, env))
  {
    DueUpdateMotor(s.(log := s.log.(lastHandled := Some(camera))), camera);
  }

  lemma DueMessage(s: State, k: Kind, env: Env)
    requires (k == Opens || k == Closes) && Waiting(s.queue, k) && DueInv(s)
    ensures DueInv(Dispatch(s, k, env))
  {
    if k == Opens {
      DueHandleMessage(s.(queue := s.queue.(opens := s.queue.opens[1..])), Open, env);
    } else {
      DueHandleMessage(s.(queue := s.queue.(closes := s.queue.closes[1..])), Close, env);
    }
  }

  lemma DueRun(s: State, env: Env)
    requires Waiting(s.queue, Runs) && DueInv(s)
    ensures DueInv(Dispatch(s, Runs, env))
  {
    var q := s.queue;
    var s1, want := s.(queue := q.(runs := q.runs[1..])), q.runs[0].want;
    DueLightUp(s1);
    DueDriveMotor(if Moves(want, env) && env.ledAllowed then LightUp(s1) else s1, want, env);
  }

  lemma DueRetry(s: State, env: Env)
    requires Waiting(s.queue, Retries) && DueInv(s)
    ensures DueInv(Dispatch(s, Retries, env))
  {
    var q := s.queue;
    DueRequest(s.(queue := q.(retries := q.retries[1..])), q.retries[0].want);
  }

  lemma DueReset(s: State, env: Env)
    requires Waiting(s.queue, Resets) && DueInv(s)
    ensures DueInv(Dispatch(s, Resets, env))
  {
  }

  lemma DueRestore(s: State, env: Env)
    requires Waiting(s.queue, Restores) && DueInv(s)
    ensures DueInv(Dispatch(s, Restores, env))
  {
  }

  lemma DueRelease(s: State, env: Env)
    requires Waiting(s.queue, Releases) && DueInv(s)
    ensures DueInv(Dispatch(s, Releases, env))
  {
  }

  lemma DueDialog(s: State, env: Env)
    requires Waiting(s.queue, Dialogs) && DueInv(s)
    ensures DueInv(Dispatch(s, Dialogs, env))
  {
  }

  lemma DueDispatch(s: State, k: Kind, env: Env)
    requires Waiting(s.queue, k) && DueInv(s)
    ensures DueInv(Dispatch(s, k, env))
  {
    match k
    case Opens => DueMessage(s, Opens, env);
    case Closes => DueMessage(s, Closes, env);
    case Runs => DueRun(s, env);
    case Retries => DueRetry(s, env);
    case Resets => DueReset(s, env);
    case Restores => DueRestore(s, env);
    case Releases => DueRelease(s, env);
    case Dialogs => DueDialog(s, env);
  }

  lemma DueStep(s: State, e: Event)
    requires Enabled(s, e) && DueInv(s)
    ensures DueInv(Next(s, e))
  {
    match e
    case Opened(cameraId) => DueOpened(s, cameraId);
    case Closed(cameraId) => DueClosed(s, cameraId);
    case Notified(status) =>
      DueShowDialog(s);
      DueUpdateMotor(s, Close);
    case RaiseClicked => DueUpdateMotor(s, Open);
    case CalibrateClicked(found) => DueCalibrateMotor(s, found);
    case Dispatched(k, env) => DueDispatch(s, k, env);
    case _ =>
  }

  // ----- what most steps leave alone -----

  /** Neither a reset nor a release is armed or run. */
  predicate SameArmed(s: State, t: State) {
    && t.queue.resets == s.queue.resets && t.log.resets == s.log.resets
    && t.queue.releases == s.queue.releases && t.log.calibrations == s.log.calibrations
    && s.now <= t.now
  }

  /** No camera event happens and no camera message is handled. */
  predicate SameCamera(s: State, t: State) {
    && t.queue.opens == s.queue.opens && t.queue.closes == s.queue.closes
    && t.openEvent == s.openEvent && t.closedEvent == s.closedEvent
    && t.log.lastEvent == s.log.lastEvent && t.log.lastHandled == s.log.lastHandled
    && s.now <= t.now
  }

  lemma FrameUpdateMotor(s: State, want: CameraState)
    ensures SameArmed(s, UpdateMotor(s, want)) && SameCamera(s, UpdateMotor(s, want))
  {
  }

  lemma FrameShowDialog(s: State)
    ensures SameArmed(s, ShowDialog(s)) && SameCamera(s, ShowDialog(s))
  {
  }

  lemma FrameOpened(s: State, cameraId: string)
    ensures SameArmed(s, CameraOpened(s, cameraId))
  {
    var t := CameraOpened(s, cameraId);
    assert t.queue.resets == s.queue.resets && t.queue.releases == s.queue.releases;
  }

  lemma FrameClosed(s: State, cameraId: string)
    ensures SameArmed(s, CameraClosed(s, cameraId))
  {
    var t := CameraClosed(s, cameraId);
    assert t.queue.resets == s.queue.resets && t.queue.releases == s.queue.releases;
  }

  lemma FrameNotify(s: State, status: int)
    ensures SameArmed(s, Notify(s, status)) && SameCamera(s, Notify(s, status))
  {
    FrameUpdateMotor(s, Close);
    FrameShowDialog(s);
  }

  lemma FrameStep(s: State, e: Event)
    requires Enabled(s, e)
    requires !e.Opened? && !e.Closed? && !e.CalibrateClicked? && !e.Dispatched?
    ensures SameArmed(s, Next(s, e)) && SameCamera(s, Next(s, e))
  {
    match e
    case Notified(status) => FrameNotify(s, status);
    case RaiseClicked => FrameUpdateMotor(s, Open);
    case _ =>
  }

  lemma FrameMessage(s: State, k: Kind, env: Env)
    requires (k == Opens || k == Closes) && Waiting(s.queue, k)
    ensures SameArmed(s, Dispatch(s, k, env))
  {
  }

  lemma FrameRun(s: State, env: Env)
    requires Waiting(s.queue, Runs)
    ensures SameCamera(s, Dispatch(s, Runs, env)) && Dispatch(s, Runs, env).log.asked == s.log.asked
  {
  }

  lemma FrameRetry(s: State, env: Env)
    requires Waiting(s.queue, Retries)
    ensures SameArmed(s, Dispatch(s, Retries, env)) && SameCamera(s, Dispatch(s, Retries, env))
    ensures Dispatch(s, Retries, env).log.asked == s.log.asked
  {
  }

  lemma FrameEnding(s: State, k: Kind, env: Env)
    requires (k == Resets || k == Restores || k == Releases || k == Dialogs) && Waiting(s.queue, k)
    ensures SameCamera(s, Dispatch(s, k, env)) && Dispatch(s, k, env).log.asked == s.log.asked
    ensures k == Restores || k == Dialogs ==> SameArmed(s, Dispatch(s, k, env))
  {
  }

  // ----- resets and releases follow what armed them -----

  /**
   * `pending` holds, `delay` later, the end of what happened at the last `|pending|` of `times`;
   * those for all earlier times have run.
   */
  ghost predicate Trailing(pending: seq<int>, times: seq<int>, delay: nat, now: int) {
    && |pending| <= |times|
    && (forall i :: 0 <= i < |pending| ==> pending[i] == times[|times| - |pending| + i] + delay)
    && (forall i :: 0 <= i < |times| - |pending| ==> times[i] + delay <= now)
  }

  ghost predicate ArmedInv(s: State) {
    && Trailing(s.queue.resets, s.log.resets, BUSY_TIME, s.now)
    && Trailing(s.queue.releases, s.log.calibrations, CALIBRATION_TIME, s.now)
  }

  lemma ArmedFrame(s: State, t: State)
    requires ArmedInv(s) && SameArmed(s, t)
    ensures ArmedInv(t)
  {
  }

  lemma ArmedRun(s: State, env: Env)
    requires Waiting(s.queue, Runs) && ArmedInv(s)
    ensures ArmedInv(Dispatch(s, Runs, env))
  {
  }

  lemma ArmedReset(s: State, env: Env)
    requires Waiting(s.queue, Resets) && FirstDue(s.queue, Resets) <= s.now && ArmedInv(s)
    ensures ArmedInv(Dispatch(s, Resets, env))
  {
  }

  lemma ArmedRelease(s: State, env: Env)
    requires Waiting(s.queue, Releases) && FirstDue(s.queue, Releases) <= s.now && ArmedInv(s)
    ensures ArmedInv(Dispatch(s, Releases, env))
  {
  }

  lemma ArmedCalibrateMotor(s: State, found: bool)
    requires ArmedInv(s)
    ensures ArmedInv(CalibrateMotor(s, found))
  {
  }

  lemma ArmedDispatch(s: State, k: Kind, env: Env)
    requires Waiting(s.queue, k) && FirstDue(s.queue, k) <= s.now && ArmedInv(s)
    ensures ArmedInv(Dispatch(s, k, env))
  {
    match k
    case Runs => ArmedRun(s, env);
    case Resets => ArmedReset(s, env);
    case Releases => ArmedRelease(s, env);
    case Opens =>
      FrameMessage(s, Opens, env);
      ArmedFrame(s, Dispatch(s, Opens, env));
    case Closes =>
      FrameMessage(s, Closes, env);
      ArmedFrame(s, Dispatch(s, Closes, env));
    case Retries =>
      FrameRetry(s, env);
      ArmedFrame(s, Dispatch(s, Retries, env));
    case _ =>
      FrameEnding(s, k, env);
      ArmedFrame(s, Dispatch(s, k, env));
  }

  lemma ArmedStep(s: State, e: Event)
    requires Enabled(s, e) && ArmedInv(s)
    ensures ArmedInv(Next(s, e))
  {
    match e
    case Opened(cameraId) =>
      FrameOpened(s, cameraId);
      ArmedFrame(s, CameraOpened(s, cameraId));
    case Closed(cameraId) =>
      FrameClosed(s, cameraId);
      ArmedFrame(s, CameraClosed(s, cameraId));
    case CalibrateClicked(found) => ArmedCalibrateMotor(s, found);
    case Dispatched(k, env) => ArmedDispatch(s, k, env);
    case _ =>
      FrameStep(s, e);
      ArmedFrame(s, Next(s, e));
  }

  // ----- debouncing -----

  function EventTime(s: State, c: CameraState): int {
    if c == Open then s.openEvent else s.closedEvent
  }

  function Messages(s: State, c: CameraState): seq<int> {
    if c == Open then s.queue.opens else s.queue.closes
  }

  function Other(c: CameraState): CameraState {
    if c == Open then Close else Open
  }

  /**
   * With `c` the last event: opposite messages were due by then, and either its own message is still the last of
   * its kind or it was handled last and no opposite message is left.
   */
  ghost predicate LatestWins(s: State, c: CameraState) {
    var mine, other := Messages(s, c), Messages(s, Other(c));
    && Ordered(other, EventTime(s, c))
    && (|| (mine != [] && mine[|mine| - 1] == EventTime(s, c) + CAMERA_EVENT_DELAY_TIME)
        || (s.log.lastHandled == Some(c) && other == []))
  }

  ghost predicate DebounceInv(s: State) {
    && s.openEvent <= s.now && s.closedEvent <= s.now
    && Ordered(s.queue.opens, s.openEvent + CAMERA_EVENT_DELAY_TIME)
    && Ordered(s.queue.closes, s.closedEvent + CAMERA_EVENT_DELAY_TIME)
    && (s.log.lastEvent.None? ==> s.queue.opens == [] && s.queue.closes == [])
    && (s.log.lastEvent.Some? ==> LatestWins(s, s.log.lastEvent.value))
  }

  lemma DebounceFrame(s: State, t: State)
    requires DebounceInv(s) && SameCamera(s, t)
    ensures DebounceInv(t)
  {
  }

  lemma DebounceOpened(s: State, cameraId: string)
    requires DebounceInv(s)
    ensures DebounceInv(CameraOpened(s, cameraId))
  {
  }

  lemma DebounceClosed(s: State, cameraId: string)
    requires DebounceInv(s)
    ensures DebounceInv(CameraClosed(s, cameraId))
  {
  }

  /** Handling an open message, before the motor is asked. */
  lemma DebounceOpenTaken(s: State, t: State)
    requires IsFirst(s.queue, Opens) && DebounceInv(s)
    requires t == s.(queue := s.queue.(opens := s.queue.opens[1..]), log := s.log.(lastHandled := Some(Open)))
    ensures DebounceInv(t)
  {
    assert Waiting(s.queue, Closes) <==> s.queue.closes != [];
  }

  lemma DebounceCloseTaken(s: State, t: State)
    requires IsFirst(s.queue, Closes) && DebounceInv(s)
    requires t == s.(queue := s.queue.(closes := s.queue.closes[1..]), log := s.log.(lastHandled := Some(Close)))
    ensures DebounceInv(t)
  {
    assert Waiting(s.queue, Opens) <==> s.queue.opens != [];
  }

  lemma DebounceHandled(s: State, camera: CameraState, env: Env)
    requires DebounceInv(s.(log := s.log.(lastHandled := Some(camera))))
    ensures DebounceInv(HandleMessage(s, camera, env))
  {
    var t := s.(log := s.log.(lastHandled := Some(camera)));
    FrameUpdateMotor(t, camera);
    DebounceFrame(t, HandleMessage(s, camera, env));
  }

  lemma DebounceOpenMessage(s: State, env: Env)
    requires IsFirst(s.queue, Opens) && DebounceInv(s)
    ensures DebounceInv(Dispatch(s, Opens, env))
  {
    var t := s.(queue := s.queue.(opens := s.queue.opens[1..]));
    assert Dispatch(s, Opens, env) == HandleMessage(t, Open, env);
    DebounceOpenTaken(s, t.(log := t.log.(lastHandled := Some(Open))));
    DebounceHandled(t, Open, env);
  }

  lemma DebounceCloseMessage(s: State, env: Env)
    requires IsFirst(s.queue, Closes) && DebounceInv(s)
    ensures DebounceInv(Dispatch(s, Closes, env))
  {
    var t := s.(queue := s.queue.(closes := s.queue.closes[1..]));
    assert Dispatch(s, Closes, env) == HandleMessage(t, Close, env);
    DebounceCloseTaken(s, t.(log := t.log.(lastHandled := Some(Close))));
    DebounceHandled(t, Close, env);
  }

  lemma DebounceDispatch(s: State, k: Kind, env: Env)
    requires IsFirst(s.queue, k) && DebounceInv(s)
    ensures DebounceInv(Dispatch(s, k, env))
  {
    match k
    case Opens => DebounceOpenMessage(s, env);
    case Closes => DebounceCloseMessage(s, env);
    case Runs =>
      FrameRun(s, env);
      DebounceFrame(s, Dispatch(s, Runs, env));
    case Retries =>
      FrameRetry(s, env);
      DebounceFrame(s, Dispatch(s, Retries, env));
    case _ =>
      FrameEnding(s, k, env);
      DebounceFrame(s, Dispatch(s, k, env));
  }

  lemma DebounceStep(s: State, e: Event)
    requires Enabled(s, e) && DebounceInv(s)
    ensures DebounceInv(Next(s, e))
  {
    match e
    case Opened(cameraId) => DebounceOpened(s, cameraId);
    case Closed(cameraId) => DebounceClosed(s, cameraId);
    case CalibrateClicked(found) => DebounceFrame(s, CalibrateMotor(s, found));
    case Dispatched(k, env) => DebounceDispatch(s, k, env);
    case _ =>
      FrameStep(s, e);
      DebounceFrame(s, Next(s, e));
  }

  // ----- calibrations are spaced -----

  /** In order and at least `gap` apart. */
  ghost predicate Spaced(times: seq<int>, gap: nat) {
    forall i, j :: 0 <= i < j < |times| ==> times[i] + gap <= times[j]
  }

  lemma SpacedStep(s: State, e: Event)
    requires Enabled(s, e) && LatchInv(s) && ArmedInv(s) && Spaced(s.log.calibrations, CALIBRATION_TIME)
    ensures Spaced(Next(s, e).log.calibrations, CALIBRATION_TIME)
  {
    match e
    case Opened(cameraId) => FrameOpened(s, cameraId);
    case Closed(cameraId) => FrameClosed(s, cameraId);
    case CalibrateClicked(found) =>
    case Dispatched(k, env) => CalibrationsKept(s, k, env);
    case _ => FrameStep(s, e);
  }

  lemma CalibrationsKept(s: State, k: Kind, env: Env)
    requires Waiting(s.queue, k)
    ensures Dispatch(s, k, env).log.calibrations == s.log.calibrations
  {
    match k
    case Opens => FrameMessage(s, Opens, env);
    case Closes => FrameMessage(s, Closes, env);
    case Runs =>
    case Retries => FrameRetry(s, env);
    case _ =>
  }

  // ----- every run -----

  ghost predicate Invariant(s: State, first: Led) {
    FlagInv(s, first, 0) && DueInv(s) && ArmedInv(s) && DebounceInv(s)
    && Spaced(s.log.calibrations, CALIBRATION_TIME)
  }

  lemma InitialInvariant(s: State)
    requires IsInitial(s)
    ensures Invariant(s, s.led)
  {
  }

  lemma InvariantStep(s: State, e: Event, first: Led)
    requires Enabled(s, e) && Invariant(s, first)
    ensures Invariant(Next(s, e), first)
  {
    FlagStep(s, e, first);
    DueStep(s, e);
    ArmedStep(s, e);
    DebounceStep(s, e);
    SpacedStep(s, e);
  }

  lemma {:induction false} InvariantRun(s: State, events: seq<Event>, first: Led)
    requires Admits(s, events) && Invariant(s, first)
    ensures Invariant(Execute(s, events), first)
    decreases |events|
  {
    if events != [] {
      InvariantStep(s, events[0], first);
      InvariantRun(Next(s, events[0]), events[1..], first);
    }
  }

  /** Everything above holds after every run from a service that has just been created. */
  lemma ReachableInvariant(s: State, events: seq<Event>)
    requires IsInitial(s) && Admits(s, events)
    ensures Invariant(Execute(s, events), s.led)
  {
    InitialInvariant(s);
    InvariantRun(s, events, s.led);
  }
}
