/** The pop-up camera service as a state machine: what each callback, user action and queued task does. */
module PopupCamera {
  import opened CTypes
  import opened Handler

  const FRONT_CAMERA_ID := "1"

  const CAMERA_EVENT_DELAY_TIME := 100
  const RETRY_DELAY := 100
  const BUSY_TIME := 1200
  const LED_EFFECT_TIME := 1400
  const CALIBRATION_TIME := 7000
  const STARTUP_WAIT := 1200

  const MOTOR_STATUS_POPUP_OK := 11
  const MOTOR_STATUS_POPUP_JAMMED := 12
  const MOTOR_STATUS_TAKEBACK_OK := 13
  const MOTOR_STATUS_TAKEBACK_JAMMED := 14
  const MOTOR_STATUS_PRESSED := 15
  const MOTOR_STATUS_CALIB_OK := 17
  const MOTOR_STATUS_CALIB_ERROR := 18
  const MOTOR_STATUS_REQUEST_CALIB := 19

  // ----- the left LED -----

  /** The two files of the LED. `stops` says whether the driver stops breathing when brightness is written. */
  datatype Led = Led(breathing: bool, brightness: string, stops: bool)

  /** What one can see: brightness shows only on a LED that is not breathing. */
  datatype Visible = Breathing | Steady(brightness: string)

  function Look(led: Led): Visible {
    if led.breathing then Breathing else Steady(led.brightness)
  }

  function WriteBreath(led: Led, on: bool): Led {
    led.(breathing := on)
  }

  function WriteBrightness(led: Led, value: string): Led {
    led.(brightness := value, breathing := led.breathing && !led.stops)
  }

  // ----- the state -----

  datatype Move = Popup | Takeback | TakebackShortly

  /** What happened so far; the service itself keeps none of this. */
  datatype History = History(
    asked: seq<CameraState>,           // what updateMotor was called for, with a motor present
    ran: seq<CameraState>,             // what the motor runnables executed so far were for
    resets: seq<int>,                  // when a runnable armed the busy reset
    commands: seq<int>,                // when a runnable called popupMotor or takebackMotor
    calibrations: seq<int>,            // when calibration was called
    lastMove: Option<Move>,            // last popup, takeback or short takeback that did not throw
    lastEvent: Option<CameraState>,    // last front camera event
    lastHandled: Option<CameraState>)  // last camera message handled

  datatype State = State(
    now: int,
    queue: Queues,
    hasMotor: bool,
    motorBusy: bool,
    openEvent: int,
    closedEvent: int,
    screenOn: bool,
    motorCalibrating: bool,
    errorDialogShowing: bool,
    ledBusy: bool,
    ledBreathing: bool,
    ledBrightness: string,
    led: Led,           // the LED itself
    listening: bool,    // whether the free-fall listener is registered
    dialogs: nat,       // error and result dialogs on screen
    log: History)

  /** What the outside world answers while one task runs. */
  datatype Env = Env(
    status: Option<int>,  // getMotorStatus; None when it throws
    commandOk: bool,      // whether the motor command returns normally
    ledAllowed: bool,
    alwaysOnDialog: bool)

  /** A new service; `lastMove` is the take-back it may have begun with. */
  function Initial(now: int, hasMotor: bool, screenOn: bool, led: Led, lastMove: Option<Move>): State {
    State(now, NOTHING, hasMotor, false, 0, 0, screenOn, false, false, false, false, "0", led, false, 0,
          History([], [], [], [], [], lastMove, None, None))
  }

  // ----- the steps -----

  /** Posts the runnable, or a retry if the motor is busy. */
  function Enqueued(s: State, want: CameraState): Queues {
    if s.motorBusy then s.queue.(retries := s.queue.retries + [Request(s.now + RETRY_DELAY, want)])
    else s.queue.(runs := s.queue.runs + [Request(s.now, want)])
  }

  function UpdateMotor(s: State, want: CameraState): State {
    if !s.hasMotor then s
    else s.(queue := Enqueued(s, want), log := s.log.(asked := s.log.asked + [want]))
  }

  function RunRetry(s: State, want: CameraState): State {
    s.(queue := Enqueued(s, want))
  }

  predicate PopsUp(want: CameraState, status: int) {
    want == Open && (status == MOTOR_STATUS_TAKEBACK_OK || status == MOTOR_STATUS_CALIB_OK)
  }

  predicate TakesBack(want: CameraState, status: int) {
    want == Close && status == MOTOR_STATUS_POPUP_OK
  }

  predicate NeedsCalibration(status: int) {
    || status == MOTOR_STATUS_POPUP_JAMMED
    || status == MOTOR_STATUS_TAKEBACK_JAMMED
    || status == MOTOR_STATUS_CALIB_ERROR
    || status == MOTOR_STATUS_REQUEST_CALIB
  }

  /** The runnable goes on to move the motor. */
  predicate Moves(want: CameraState, env: Env) {
    env.status.Some? && (PopsUp(want, env.status.value) || TakesBack(want, env.status.value))
  }

  /** The runnable leaves the motor busy and arms the reset. */
  predicate Arms(want: CameraState, env: Env) {
    env.status.None? || Moves(want, env)
  }

  /** The runnable's call of `showErrorDialog` gets past the flag. */
  predicate ShowsError(s: State, want: CameraState, env: Env) {
    !Arms(want, env) && NeedsCalibration(env.status.value) && !s.errorDialogShowing
  }

  function MoveOf(want: CameraState): Move {
    if want == Open then Popup else Takeback
  }

  /** The LED with the service's own effect on it. */
  function Lit(led: Led): Led {
    WriteBreath(WriteBrightness(WriteBreath(led, false), "0"), true)
  }

  /** `lightUp`: saves what the LED showed unless an effect is already on, and posts the restore. */
  function LightUp(s: State): State {
    s.(ledBreathing := if s.ledBusy then s.ledBreathing else s.led.breathing,
       ledBrightness := if s.ledBusy then s.ledBrightness else s.led.brightness,
       ledBusy := true,
       led := Lit(s.led),
       queue := s.queue.(restores := s.queue.restores + [s.now + LED_EFFECT_TIME]))
  }

  /** The motor's share of the runnable: the LED's is `LightUp`, done first when the motor moves. */
  function DriveMotor(s: State, want: CameraState, env: Env): State {
    var done := Moves(want, env) && env.commandOk;
    s.(motorBusy := Arms(want, env),
       listening := if done then want == Open else s.listening,
       errorDialogShowing := s.errorDialogShowing || ShowsError(s, want, env),
       queue := if Arms(want, env) then s.queue.(resets := s.queue.resets + [s.now + BUSY_TIME])
                else if ShowsError(s, want, env) then s.queue.(dialogs := s.queue.dialogs + [s.now])
                else s.queue,
       log := s.log.(ran := s.log.ran + [want],
                     resets := if Arms(want, env) then s.log.resets + [s.now] else s.log.resets,
                     commands := if Moves(want, env) then s.log.commands + [s.now] else s.log.commands,
                     lastMove := if done then Some(MoveOf(want)) else s.log.lastMove))
  }

  function RunMotor(s: State, want: CameraState, env: Env): State {
    DriveMotor(if Moves(want, env) && env.ledAllowed then LightUp(s) else s, want, env)
  }

  function RunRestoreLed(s: State): State {
    var off := WriteBrightness(s.led, "0");
    s.(led := if s.ledBreathing then WriteBreath(off, true) else WriteBrightness(off, s.ledBrightness),
       ledBusy := false)
  }

  /** `showErrorDialog` and `showCalibrationResult`: at most one dialog is posted or showing. */
  function ShowDialog(s: State): State {
    s.(errorDialogShowing := true,
       queue := if s.errorDialogShowing then s.queue else s.queue.(dialogs := s.queue.dialogs + [s.now]))
  }

  function HandleMessage(s: State, camera: CameraState, env: Env): State {
    var s1 := s.(log := s.log.(lastHandled := Some(camera)));
    if camera == Open && (env.alwaysOnDialog || !s1.screenOn) then s1 else UpdateMotor(s1, camera)
  }

  /** What a task of kind `k`, asked for `want` if it asks for anything, does once it is off the queue. */
  function Perform(s: State, k: Kind, want: CameraState, env: Env): State {
    match k
    case Opens => HandleMessage(s, Open, env)
    case Closes => HandleMessage(s, Close, env)
    case Runs => RunMotor(s, want, env)
    case Retries => RunRetry(s, want)
    case Resets => s.(motorBusy := false)
    case Restores => RunRestoreLed(s)
    case Releases => s.(motorCalibrating := false)
    case Dialogs => s.(dialogs := s.dialogs + 1)
  }

  /** The handler takes the first task of a kind off its queue and runs it. */
  function Dispatch(s: State, k: Kind, env: Env): State
    requires Waiting(s.queue, k)
  {
    Perform(s.(queue := Dropped(s.queue, k)), k, FirstWant(s.queue, k), env)
  }

  /** Withdraws the messages of a kind whose last event is recent. */
  function Debounce(s: State, messages: seq<int>, lastEvent: int): seq<int> {
    if s.now - lastEvent < CAMERA_EVENT_DELAY_TIME && messages != [] then [] else messages
  }

  function CameraClosed(s: State, cameraId: string): State {
    if cameraId != FRONT_CAMERA_ID then s
    else
      s.(closedEvent := s.now,
         queue := s.queue.(opens := Debounce(s, s.queue.opens, s.openEvent),
                           closes := s.queue.closes + [s.now + CAMERA_EVENT_DELAY_TIME]),
         log := s.log.(lastEvent := Some(Close)))
  }

  function CameraOpened(s: State, cameraId: string): State {
    if cameraId != FRONT_CAMERA_ID then s
    else
      s.(openEvent := s.now,
         queue := s.queue.(closes := Debounce(s, s.queue.closes, s.closedEvent),
                           opens := s.queue.opens + [s.now + CAMERA_EVENT_DELAY_TIME]),
         log := s.log.(lastEvent := Some(Open)))
  }

  function Notify(s: State, status: int): State {
    if status == MOTOR_STATUS_CALIB_OK || status == MOTOR_STATUS_CALIB_ERROR then ShowDialog(s)
    else if status == MOTOR_STATUS_PRESSED then UpdateMotor(s, Close)
    else if status == MOTOR_STATUS_POPUP_JAMMED || status == MOTOR_STATUS_TAKEBACK_JAMMED then ShowDialog(s)
    else s
  }

  /** The sensor reports a free fall; `ok` is false when the short takeback throws. */
  function FreeFall(s: State, ok: bool): State {
    s.(listening := s.listening && !ok,
       log := s.log.(lastMove := if ok then Some(TakebackShortly) else s.log.lastMove))
  }

  /** `found` says whether a motor service turns up if there was none. */
  function CalibrateMotor(s: State, found: bool): State {
    if s.motorCalibrating || !(s.hasMotor || found) then s
    else
      s.(hasMotor := true,
         motorCalibrating := true,
         queue := s.queue.(releases := s.queue.releases + [s.now + CALIBRATION_TIME]),
         log := s.log.(calibrations := s.log.calibrations + [s.now]))
  }

  function Dismissed(s: State): State
    requires 0 < s.dialogs
  {
    s.(dialogs := s.dialogs - 1, errorDialogShowing := false)
  }

  // ----- runs -----

  datatype Event =
    | Opened(cameraId: string)
    | Closed(cameraId: string)
    | Notified(status: int)
    | Fell(ok: bool)
    | ScreenTurned(on: bool)
    | RaiseClicked
    | CalibrateClicked(found: bool)
    | DialogDismissed
    | Tick(to: int)
    | Dispatched(k: Kind, env: Env)

  /** What can happen next: motor callbacks need a motor, the clock never goes back, tasks run once due. */
  predicate Enabled(s: State, e: Event) {
    match e
    case Notified(_) => s.hasMotor
    case Fell(_) => s.hasMotor
    case DialogDismissed => 0 < s.dialogs
    case Tick(to) => s.now <= to
    case Dispatched(k, _) => IsFirst(s.queue, k) && FirstDue(s.queue, k) <= s.now
    case _ => true
  }

  function Next(s: State, e: Event): State
    requires Enabled(s, e)
  {
    match e
    case Opened(cameraId) => CameraOpened(s, cameraId)
    case Closed(cameraId) => CameraClosed(s, cameraId)
    case Notified(status) => Notify(s, status)
    case Fell(ok) => FreeFall(s, ok)
    case ScreenTurned(on) => s.(screenOn := on)
    case RaiseClicked => UpdateMotor(s, Open)
    case CalibrateClicked(found) => CalibrateMotor(s, found)
    case DialogDismissed => Dismissed(s)
    case Tick(to) => s.(now := to)
    case Dispatched(k, env) => Dispatch(s, k, env)
  }

  predicate Admits(s: State, events: seq<Event>)
    decreases |events|
  {
    events == [] || (Enabled(s, events[0]) && Admits(Next(s, events[0]), events[1..]))
  }

  function Execute(s: State, events: seq<Event>): State
    requires Admits(s, events)
    decreases |events|
  {
    if events == [] then s else Execute(Next(s, events[0]), events[1..])
  }

  ghost predicate IsInitial(s: State) {
    && 0 <= s.now && s == Initial(s.now, s.hasMotor, s.screenOn, s.led, s.log.lastMove)
    && (s.log.lastMove == None || (s.hasMotor && s.log.lastMove == Some(Takeback)))
  }
}
