/**
 * The service as the object it is: fields changed step by step by callbacks and queued tasks.
 * Each method's new state is the one the state machine gives, so every result about its runs holds here.
 */
module PopupCameraServiceClass {
  import opened CTypes
  import opened Handler
  import opened MessageQueue
  import opened PopupCamera

  function Delay(t: Task): nat {
    match MessageQueue.KindOf(t)
    case Opens => CAMERA_EVENT_DELAY_TIME
    case Closes => CAMERA_EVENT_DELAY_TIME
    case Runs => 0
    case Retries => RETRY_DELAY
    case Resets => BUSY_TIME
    case Restores => LED_EFFECT_TIME
    case Releases => CALIBRATION_TIME
    case Dialogs => 0
  }

  /** Nothing is due later than its delay from now. */
  ghost predicate OnSchedule(ms: seq<Message>, now: int) {
    forall i :: 0 <= i < |ms| ==> ms[i].due <= now + Delay(ms[i].task)
  }

  lemma OnScheduleTail(ms: seq<Message>, now: int)
    requires ms != [] && InOrder(ms) && OnSchedule(ms, now)
    ensures InOrder(ms[1..]) && OnSchedule(ms[1..], now)
  {
  }

  lemma OnScheduleWithout(ms: seq<Message>, c: CameraState, now: int)
    requires InOrder(ms) && OnSchedule(ms, now)
    ensures InOrder(Without(ms, c)) && OnSchedule(Without(ms, c), now)
  {
    WithoutMembers(ms, c);
    var rest := Without(ms, c);
    forall i | 0 <= i < |rest| ensures rest[i].due <= now + Delay(rest[i].task) {
      assert rest[i] in ms;
    }
  }

  /** One kind has one delay, so what is due later than a message posted now is of another kind. */
  lemma LaterIsOtherKind(ms: seq<Message>, p: nat, m: Message, now: int)
    requires p <= |ms| && InOrder(ms) && (p < |ms| ==> m.due < ms[p].due)
    requires OnSchedule(ms, now)
    requires m.due == now + Delay(m.task)
    ensures FitsAt(ms, p, m)
  {
    forall i | p <= i < |ms| ensures MessageQueue.KindOf(ms[i].task) != MessageQueue.KindOf(m.task) {
      assert ms[p].due <= ms[i].due;
    }
  }

  /** A message posted now, put after everything due no later, leaves the list in order and sorted by kind. */
  lemma Inserted(ms: seq<Message>, q: Queues, p: nat, m: Message, now: int)
    requires p <= |ms| && InOrder(ms) && AllMatch(ms, q)
    requires OnSchedule(ms, now)
    requires m.due == now + Delay(m.task)
    requires forall i :: 0 <= i < p ==> ms[i].due <= m.due
    requires p < |ms| ==> m.due < ms[p].due
    ensures InOrder(InsertAt(ms, p, m)) && AllMatch(InsertAt(ms, p, m), Appended(q, m))
    ensures OnSchedule(InsertAt(ms, p, m), now)
  {
    LaterIsOtherKind(ms, p, m, now);
    InsertInOrder(ms, p, m);
    AllMatchInsert(ms, q, p, m);
  }

  /** The list with one more message, somewhere. */
  ghost predicate Placed(before: seq<Message>, m: Message, after: seq<Message>) {
    exists p: nat :: p <= |before| && after == InsertAt(before, p, m)
  }

  /** The motor is jammed, or its calibration failed or is missing. */
  predicate FailedStatus(env: Env) {
    env.status.Some? && var n := env.status.value; n == 12 || n == 14 || n == 18 || n == 19
  }

  /** The motor moves or its status cannot be read: busy until the reset. */
  function Moved(s: State, want: CameraState, moves: bool, done: bool): State {
    s.(motorBusy := true,
       listening := if done then want == Open else s.listening,
       queue := s.queue.(resets := s.queue.resets + [s.now + BUSY_TIME]),
       log := s.log.(ran := s.log.ran + [want], resets := s.log.resets + [s.now],
                     commands := if moves then s.log.commands + [s.now] else s.log.commands,
                     lastMove := if done then Some(MoveOf(want)) else s.log.lastMove))
  }

  /** Nothing to move: the motor is free, and the error dialog is posted if the status calls for it. */
  function Left(s: State, want: CameraState, report: bool): State {
    s.(motorBusy := false,
       errorDialogShowing := s.errorDialogShowing || report,
       queue := if report && !s.errorDialogShowing then s.queue.(dialogs := s.queue.dialogs + [s.now]) else s.queue,
       log := s.log.(ran := s.log.ran + [want]))
  }

  lemma DriveMotorCases(s: State, want: CameraState, env: Env)
    ensures Arms(want, env) ==>
      PopupCamera.DriveMotor(s, want, env) == Moved(s, want, Moves(want, env), Moves(want, env) && env.commandOk)
    ensures !Arms(want, env) ==>
      PopupCamera.DriveMotor(s, want, env) == Left(s, want, NeedsCalibration(env.status.value))
  {
  }

  class PopupCameraService {
    var now: int
    var messages: seq<Message>
    ghost var queue: Queues  // the messages by kind
    var hasMotor: bool
    var mMotorBusy: bool
    var mOpenEvent: int
    var mClosedEvent: int
    var mScreenOn: bool
    var mMotorCalibrating: bool
    var mErrorDialogShowing: bool
    var mLedBusy: bool
    var mLedBreathing: bool
    var mLedBrightness: string
    var leftLed: Led
    var listening: bool
    var dialogs: nat
    ghost var log: History

    ghost function View(): State
      reads this
    {
      State(now, queue, hasMotor, mMotorBusy, mOpenEvent, mClosedEvent, mScreenOn, mMotorCalibrating,
            mErrorDialogShowing, mLedBusy, mLedBreathing, mLedBrightness, leftLed, listening, dialogs, log)
    }

    /** The list is in order and nothing is due later than its delay from now. */
    ghost predicate Valid()
      reads this`messages, this`now, this`queue
    {
      InOrder(messages) && AllMatch(messages, queue) && OnSchedule(messages, now)
    }

    /** `onCreate`: a motor found popped up or jammed is taken back, and only if that does not throw waited for. */
    constructor (now: nat, found: bool, status: Option<int>, commandOk: bool, screenOn: bool, led: Led)
      ensures Valid() && IsInitial(View()) && messages == []
      ensures hasMotor == found && mScreenOn == screenOn && leftLed == led
      ensures var up := status == Some(11) || status == Some(14);
        if found && up && commandOk then this.now == now + 1200 && log.lastMove == Some(Takeback)
        else this.now == now && log.lastMove == None
    {
      var takenBack := false;
      if found && status.Some? {
        if status.value == MOTOR_STATUS_POPUP_OK || status.value == MOTOR_STATUS_TAKEBACK_JAMMED {
          takenBack := commandOk;
        }
      }
      this.now := if takenBack then now + STARTUP_WAIT else now;
      messages := [];
      queue := NOTHING;
      hasMotor := found;
      mMotorBusy := false;
      mOpenEvent := 0;
      mClosedEvent := 0;
      mScreenOn := screenOn;
      mMotorCalibrating := false;
      mErrorDialogShowing := false;
      mLedBusy := false;
      mLedBreathing := false;
      mLedBrightness := "0";
      leftLed := led;
      listening := false;
      dialogs := 0;
      log := History([], [], [], [], [], if takenBack then Some(Takeback) else None, None, None);
    }

    /** Past every message due no later. */
    method PlaceFor(due: int) returns (p: nat)
      ensures p <= |messages|
      ensures forall i :: 0 <= i < p ==> messages[i].due <= due
      ensures p < |messages| ==> due < messages[p].due
    {
      p := 0;
      while p < |messages| && messages[p].due <= due
        invariant p <= |messages|
        invariant forall i :: 0 <= i < p ==> messages[i].due <= due
      {
        p := p + 1;
      }
    }

    /** `post` and `postDelayed`. */
    method Put(task: Task)
      requires Valid()
      modifies this`messages, this`queue
      ensures Valid()
      ensures queue == Appended(old(queue), Message(now + Delay(task), task))
      ensures Placed(old(messages), Message(now + Delay(task), task), messages)
    {
      var m := Message(now + Delay(task), task);
      var p := PlaceFor(m.due);
      Inserted(messages, queue, p, m, now);
      messages := InsertAt(messages, p, m);
      queue := Appended(queue, m);
    }

    /** The same, for callers to whom only its place among its kind matters. */
    method Post(task: Task)
      requires Valid()
      modifies this`messages, this`queue
      ensures Valid() && queue == Appended(old(queue), Message(now + Delay(task), task))
    {
      Put(task);
    }

    /** The runnable that asks again while the motor is busy, and its first posting. */
    method PostRequest(want: CameraState)
      requires Valid()
      modifies this`messages, this`queue
      ensures Valid() && queue == Enqueued(old(View()), want)
    {
      if mMotorBusy {
        Post(MotorRetry(want));
      } else {
        Post(MotorRun(want));
      }
    }

    method UpdateMotor(want: CameraState)
      requires Valid()
      modifies this`messages, this`queue, this`log
      ensures Valid() && View() == PopupCamera.UpdateMotor(old(View()), want)
    {
      if !hasMotor {
        return;
      }
      log := log.(asked := log.asked + [want]);
      PostRequest(want);
    }

    /** Remembers what the LED shows, unless that is the service's own effect, and marks it busy. */
    method ClaimLed()
      modifies this`mLedBusy, this`mLedBreathing, this`mLedBrightness
      ensures mLedBusy
      ensures mLedBreathing == if old(mLedBusy) then old(mLedBreathing) else leftLed.breathing
      ensures mLedBrightness == if old(mLedBusy) then old(mLedBrightness) else leftLed.brightness
    {
      if !mLedBusy {
        mLedBreathing := leftLed.breathing;
        mLedBrightness := leftLed.brightness;
      }
      mLedBusy := true;
    }

    method Breathe()
      modifies this`leftLed
      ensures leftLed == Lit(old(leftLed))
    {
      leftLed := WriteBreath(leftLed, false);
      leftLed := WriteBrightness(leftLed, "0");
      leftLed := WriteBreath(leftLed, true);
    }

    /** The effect and the end it will have, field by field. */
    method StartEffect()
      requires Valid()
      modifies this`messages, this`queue, this`mLedBusy, this`mLedBreathing, this`mLedBrightness, this`leftLed
      ensures Valid() && mLedBusy && leftLed == Lit(old(leftLed))
      ensures mLedBreathing == if old(mLedBusy) then old(mLedBreathing) else old(leftLed).breathing
      ensures mLedBrightness == if old(mLedBusy) then old(mLedBrightness) else old(leftLed).brightness
      ensures queue == old(queue).(restores := old(queue).restores + [now + LED_EFFECT_TIME])
    {
      ClaimLed();
      Breathe();
      Post(RestoreLed);
    }

    /** `lightUp` once the preference allows it. */
    method LightUp()
      requires Valid()
      modifies this`messages, this`queue, this`mLedBusy, this`mLedBreathing, this`mLedBrightness, this`leftLed
      ensures Valid() && View() == PopupCamera.LightUp(old(View()))
    {
      StartEffect();
    }

    method RestoreLeds()
      requires Valid()
      modifies this`mLedBusy, this`leftLed
      ensures Valid() && View() == RunRestoreLed(old(View()))
    {
      leftLed := WriteBrightness(leftLed, "0");
      if mLedBreathing {
        leftLed := WriteBreath(leftLed, true);
      } else {
        leftLed := WriteBrightness(leftLed, mLedBrightness);
      }
      mLedBusy := false;
    }

    /** `showErrorDialog` and `showCalibrationResult`, by the task they post. */
    method PostDialog(dialog: Task)
      requires Valid() && MessageQueue.KindOf(dialog) == Dialogs
      modifies this`messages, this`queue, this`mErrorDialogShowing
      ensures Valid() && View() == ShowDialog(old(View()))
      ensures if old(mErrorDialogShowing) then messages == old(messages)
              else Placed(old(messages), Message(now, dialog), messages)
    {
      hide Placed, AllMatch, InOrder, OnSchedule;
      if mErrorDialogShowing {
        return;
      }
      mErrorDialogShowing := true;
      Put(dialog);
    }

    /** The motor command and the change of listener, which an exception skips. */
    method Command(want: CameraState, done: bool)
      modifies this`listening, this`log
      ensures listening == if done then want == Open else old(listening)
      ensures log == old(log).(lastMove := if done then Some(MoveOf(want)) else old(log).lastMove)
    {
      if done {
        listening := want == Open;
        log := log.(lastMove := Some(MoveOf(want)));
      }
    }

    /** The motor is busy from here to the reset. */
    method Arm(want: CameraState, moves: bool, done: bool)
      requires Valid()
      modifies this`messages, this`queue, this`mMotorBusy, this`listening, this`log
      ensures Valid() && mMotorBusy
      ensures listening == if done then want == Open else old(listening)
      ensures queue == old(queue).(resets := old(queue).resets + [now + BUSY_TIME])
      ensures log == old(log).(ran := old(log).ran + [want], resets := old(log).resets + [now],
                               commands := if moves then old(log).commands + [now] else old(log).commands,
                               lastMove := if done then Some(MoveOf(want)) else old(log).lastMove)
    {
      mMotorBusy := true;
      Command(want, done);
      log := log.(ran := log.ran + [want], resets := log.resets + [now],
                  commands := if moves then log.commands + [now] else log.commands);
      Post(ClearBusy);
    }

    method MoveMotor(want: CameraState, moves: bool, done: bool)
      requires Valid()
      modifies this`messages, this`queue, this`mMotorBusy, this`listening, this`log
      ensures Valid() && View() == Moved(old(View()), want, moves, done)
    {
      Arm(want, moves, done);
    }

    /** Nothing to move: the motor is free again at once, and a jam or a missing calibration is reported. */
    method LeaveMotor(want: CameraState, report: bool)
      requires Valid()
      modifies this`messages, this`queue, this`mMotorBusy, this`mErrorDialogShowing, this`log
      ensures Valid() && View() == Left(old(View()), want, report)
      ensures if report && !old(mErrorDialogShowing) then Placed(old(messages), Message(now, ShowErrorDialog), messages)
              else messages == old(messages)
    {
      hide Placed, AllMatch, InOrder, OnSchedule;
      mMotorBusy := false;
      log := log.(ran := log.ran + [want]);
      if report {
        PostDialog(ShowErrorDialog);
      }
    }

    method DriveMotor(want: CameraState, env: Env)
      requires Valid()
      modifies this`messages, this`queue, this`mMotorBusy, this`mErrorDialogShowing, this`listening, this`log
      ensures Valid() && View() == PopupCamera.DriveMotor(old(View()), want, env)
      ensures FailedStatus(env) && !old(mErrorDialogShowing) ==>
        Placed(old(messages), Message(now, ShowErrorDialog), messages)
    {
      hide Placed;
      DriveMotorCases(View(), want, env);
      if env.status == None {
        MoveMotor(want, false, false);
        return;
      }
      var status := env.status.value;
      if want == Open && (status == MOTOR_STATUS_TAKEBACK_OK || status == MOTOR_STATUS_CALIB_OK) {
        MoveMotor(Open, true, env.commandOk);
      } else if want == Close && status == MOTOR_STATUS_POPUP_OK {
        MoveMotor(Close, true, env.commandOk);
      } else {
        LeaveMotor(want,
                   status == MOTOR_STATUS_POPUP_JAMMED || status == MOTOR_STATUS_TAKEBACK_JAMMED ||
                   status == MOTOR_STATUS_CALIB_ERROR || status == MOTOR_STATUS_REQUEST_CALIB);
      }
    }

    /** The motor runnable. No other step sees the flag it sets before it has decided. */
    method RunMotor(want: CameraState, env: Env)
      requires Valid()
      modifies this
      ensures Valid() && View() == PopupCamera.RunMotor(old(View()), want, env)
      ensures FailedStatus(env) && !old(mErrorDialogShowing) ==>
        Placed(old(messages), Message(now, ShowErrorDialog), messages)
    {
      hide Placed;
      if Moves(want, env) && env.ledAllowed {
        LightUp();
      }
      DriveMotor(want, env);
    }

    method HandleMessage(camera: CameraState, env: Env)
      requires Valid()
      modifies this`messages, this`queue, this`log
      ensures Valid() && View() == PopupCamera.HandleMessage(old(View()), camera, env)
    {
      log := log.(lastHandled := Some(camera));
      if camera == Close {
        UpdateMotor(Close);
      } else if !(env.alwaysOnDialog || !mScreenOn) {
        UpdateMotor(Open);
      }
    }

    method EndBusy()
      modifies this`mMotorBusy
      ensures View() == old(View()).(motorBusy := false)
    {
      mMotorBusy := false;
    }

    method EndCalibrating()
      modifies this`mMotorCalibrating
      ensures View() == old(View()).(motorCalibrating := false)
    {
      mMotorCalibrating := false;
    }

    method Show()
      modifies this`dialogs
      ensures View() == old(View()).(dialogs := old(dialogs) + 1)
    {
      dialogs := dialogs + 1;
    }

    /** The tasks that end a busy window, an effect or the calibration latch, and those that show a dialog. */
    method RunEnding(task: Task, env: Env)
      requires Valid() && !task.CameraMessage? && !task.MotorRun? && !task.MotorRetry?
      modifies this`mMotorBusy, this`mLedBusy, this`leftLed, this`mMotorCalibrating, this`dialogs
      ensures Valid() && View() == Perform(old(View()), MessageQueue.KindOf(task), WantOf(task), env)
    {
      match task
      case ClearBusy => EndBusy();
      case RestoreLed => RestoreLeds();
      case ClearCalibrating => EndCalibrating();
      case ShowErrorDialog => Show();
      case ShowResultDialog(_) => Show();
    }

    method RunTask(task: Task, env: Env)
      requires Valid()
      modifies this
      ensures Valid() && View() == Perform(old(View()), MessageQueue.KindOf(task), WantOf(task), env)
    {
      match task
      case CameraMessage(camera) => HandleMessage(camera, env);
      case MotorRun(want) => RunMotor(want, env);
      case MotorRetry(want) => PostRequest(want);
      case _ => RunEnding(task, env);
    }

    /** The looper takes the head of the list, whose turn it is. */
    method TakeHead() returns (task: Task)
      requires Valid() && messages != [] && messages[0].due <= now
      modifies this`messages, this`queue
      ensures Valid() && task == old(messages)[0].task
      ensures var q, k := old(queue), MessageQueue.KindOf(task);
        IsFirst(q, k) && FirstDue(q, k) <= now && FirstWant(q, k) == WantOf(task) && queue == Dropped(q, k)
    {
      task := messages[0].task;
      HeadIsFirst(messages, queue);
      AllMatchTail(messages, queue);
      MatchesHead(messages, queue);
      OnScheduleTail(messages, now);
      queue := Dropped(queue, MessageQueue.KindOf(task));
      messages := messages[1..];
    }

    /** Taking the head and running it is a step of the state machine. */
    method Dispatch(env: Env)
      requires Valid() && messages != [] && messages[0].due <= now
      modifies this
      ensures Valid()
      ensures var e := Dispatched(MessageQueue.KindOf(old(messages)[0].task), env);
        Enabled(old(View()), e) && View() == Next(old(View()), e)
    {
      hide Perform;
      var task := TakeHead();
      RunTask(task, env);
    }

    /** `hasMessages` and `removeMessages` together: without a match nothing is removed. */
    method Withdraw(camera: CameraState)
      requires Valid()
      modifies this`messages, this`queue
      ensures Valid() && queue == Withdrawn(old(queue), camera)
    {
      AllMatchWithout(messages, queue, camera);
      OnScheduleWithout(messages, camera, now);
      messages := Without(messages, camera);
      queue := Withdrawn(queue, camera);
    }

    /** Messages of kind `camera` are withdrawn if their last event is recent. */
    method WithdrawRecent(camera: CameraState, lastEvent: int)
      requires Valid()
      modifies this`messages, this`queue
      ensures Valid()
      ensures queue == if now - lastEvent < CAMERA_EVENT_DELAY_TIME then Withdrawn(old(queue), camera) else old(queue)
    {
      if now - lastEvent < CAMERA_EVENT_DELAY_TIME {
        Withdraw(camera);
      }
    }

    method CameraClose()
      requires Valid()
      modifies this`messages, this`queue, this`mClosedEvent, this`log
      ensures Valid() && mClosedEvent == now && log == old(log).(lastEvent := Some(Close))
      ensures queue == old(queue).(opens := Debounce(old(View()), old(queue).opens, mOpenEvent),
                                   closes := old(queue).closes + [now + CAMERA_EVENT_DELAY_TIME])
    {
      mClosedEvent := now;
      log := log.(lastEvent := Some(Close));
      WithdrawRecent(Open, mOpenEvent);
      Post(CameraMessage(Close));
    }

    method OnCameraClosed(cameraId: string)
      requires Valid()
      modifies this`messages, this`queue, this`mClosedEvent, this`log
      ensures Valid() && View() == CameraClosed(old(View()), cameraId)
    {
      if cameraId == FRONT_CAMERA_ID {
        CameraClose();
      }
    }

    method CameraOpen()
      requires Valid()
      modifies this`messages, this`queue, this`mOpenEvent, this`log
      ensures Valid() && mOpenEvent == now && log == old(log).(lastEvent := Some(Open))
      ensures queue == old(queue).(closes := Debounce(old(View()), old(queue).closes, mClosedEvent),
                                   opens := old(queue).opens + [now + CAMERA_EVENT_DELAY_TIME])
    {
      mOpenEvent := now;
      log := log.(lastEvent := Some(Open));
      WithdrawRecent(Close, mClosedEvent);
      Post(CameraMessage(Open));
    }

    method OnCameraOpened(cameraId: string)
      requires Valid()
      modifies this`messages, this`queue, this`mOpenEvent, this`log
      ensures Valid() && View() == CameraOpened(old(View()), cameraId)
    {
      if cameraId == FRONT_CAMERA_ID {
        CameraOpen();
      }
    }

    method OnNotify(status: int)
      requires Valid()
      modifies this`messages, this`queue, this`mErrorDialogShowing, this`log
      ensures Valid() && View() == Notify(old(View()), status)
      ensures (status == 17 || status == 18) && !old(mErrorDialogShowing) ==>
        Placed(old(messages), Message(now, ShowResultDialog(status)), messages)
      ensures (status == 12 || status == 14) && !old(mErrorDialogShowing) ==>
        Placed(old(messages), Message(now, ShowErrorDialog), messages)
    {
      hide Placed;
      if status == MOTOR_STATUS_CALIB_OK || status == MOTOR_STATUS_CALIB_ERROR {
        PostDialog(ShowResultDialog(status));
      } else if status == MOTOR_STATUS_PRESSED {
        UpdateMotor(Close);
      } else if status == MOTOR_STATUS_POPUP_JAMMED || status == MOTOR_STATUS_TAKEBACK_JAMMED {
        PostDialog(ShowErrorDialog);
      }
    }

    /** A free fall; `ok` is false when the short takeback throws. */
    method OnFreeFall(ok: bool)
      requires Valid() && hasMotor
      modifies this`listening, this`log
      ensures Valid() && View() == FreeFall(old(View()), ok)
    {
      if ok {
        listening := false;
        log := log.(lastMove := Some(TakebackShortly));
      }
    }

    method Latch()
      requires Valid()
      modifies this`messages, this`queue, this`hasMotor, this`mMotorCalibrating, this`log
      ensures Valid() && hasMotor && mMotorCalibrating
      ensures log == old(log).(calibrations := old(log).calibrations + [now])
      ensures queue == old(queue).(releases := old(queue).releases + [now + CALIBRATION_TIME])
    {
      hasMotor := true;
      mMotorCalibrating := true;
      log := log.(calibrations := log.calibrations + [now]);
      Post(ClearCalibrating);
    }

    /** The latch is set before the motor is called, so an exception does not matter to it. */
    method CalibrateMotor(found: bool)
      requires Valid()
      modifies this`messages, this`queue, this`hasMotor, this`mMotorCalibrating, this`log
      ensures Valid() && View() == PopupCamera.CalibrateMotor(old(View()), found)
    {
      if mMotorCalibrating {
        return;
      }
      if !hasMotor && !found {
        return;
      }
      Latch();
    }

    method OnDismiss()
      requires Valid() && 0 < dialogs
      modifies this`dialogs, this`mErrorDialogShowing
      ensures Valid() && View() == Dismissed(old(View()))
    {
      dialogs := dialogs - 1;
      mErrorDialogShowing := false;
    }

    method OnScreen(on: bool)
      requires Valid()
      modifies this`mScreenOn
      ensures Valid() && View() == Next(old(View()), ScreenTurned(on))
    {
      mScreenOn := on;
    }

    method Advance(to: int)
      requires Valid() && now <= to
      modifies this`now
      ensures Valid() && View() == Next(old(View()), Tick(to))
    {
      now := to;
    }
  }
}
