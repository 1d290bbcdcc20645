/** What each event does to what one can see of the service, in the numbers and statuses the devices use. */
module ServiceEffects {
  import opened CTypes
  import opened Handler
  import opened PopupCamera

  // ----- the motor runnable -----

  /** The motor is moved: raised from rest or after a calibration, taken back from raised. */
  predicate Moved(want: CameraState, status: Option<int>) {
    status.Some? && if want == Open then status.value == 13 || status.value == 17 else status.value == 11
  }

  lemma LightUpKeeps(s: State)
    ensures var t := LightUp(s);
      && t.now == s.now && t.log == s.log && t.listening == s.listening && t.errorDialogShowing == s.errorDialogShowing
      && t.queue.runs == s.queue.runs && t.queue.retries == s.queue.retries
      && t.queue.resets == s.queue.resets && t.queue.dialogs == s.queue.dialogs
  {
  }

  /** It is commanded exactly when it is moved, and the command is on record unless it throws. */
  lemma RunnableCommands(s: State, env: Env)
    requires Waiting(s.queue, Runs)
    ensures var t, want := Dispatch(s, Runs, env), s.queue.runs[0].want;
      && t.log.commands == (if Moved(want, env.status) then s.log.commands + [s.now] else s.log.commands)
      && t.log.lastMove == (if !Moved(want, env.status) || !env.commandOk then s.log.lastMove
                            else Some(if want == Open then Popup else Takeback))
      && t.listening == (if !Moved(want, env.status) || !env.commandOk then s.listening else want == Open)
      && t.log.ran == s.log.ran + [want] && t.log.asked == s.log.asked
  {
    hide LightUp;
    LightUpKeeps(s.(queue := Dropped(s.queue, Runs)));
  }

  /** It is busy for 1200 ms exactly when it is moved or its status cannot be read, and free at once otherwise. */
  lemma RunnableBusy(s: State, env: Env)
    requires Waiting(s.queue, Runs)
    ensures var t, arms := Dispatch(s, Runs, env), env.status == None || Moved(s.queue.runs[0].want, env.status);
      && t.motorBusy == arms
      && t.queue.resets == (if arms then s.queue.resets + [s.now + 1200] else s.queue.resets)
      && t.queue.runs == s.queue.runs[1..] && t.queue.retries == s.queue.retries
  {
    hide LightUp;
    LightUpKeeps(s.(queue := Dropped(s.queue, Runs)));
  }

  /** An error is shown exactly for a jam, a failed calibration or a missing one, found when the motor is not moved. */
  lemma RunnableError(s: State, env: Env)
    requires Waiting(s.queue, Runs)
    ensures var t := Dispatch(s, Runs, env);
      var fails := env.status.Some? && !Moved(s.queue.runs[0].want, env.status) && env.status.value in {12, 14, 18, 19};
      && (t.errorDialogShowing <==> s.errorDialogShowing || fails)
      && t.queue.dialogs == (if fails && !s.errorDialogShowing then s.queue.dialogs + [s.now] else s.queue.dialogs)
  {
    hide LightUp;
    LightUpKeeps(s.(queue := Dropped(s.queue, Runs)));
  }

  /** An effect is shown exactly when the motor is moved and the user allows it; what it hides is saved once, for 1400 ms. */
  lemma RunnableEffect(s: State, env: Env)
    requires Waiting(s.queue, Runs)
    ensures var t, shows := Dispatch(s, Runs, env), Moved(s.queue.runs[0].want, env.status) && env.ledAllowed;
      && (shows ==> Look(t.led) == Breathing && t.ledBusy && t.queue.restores == s.queue.restores + [s.now + 1400])
      && (shows && !s.ledBusy ==> t.ledBreathing == s.led.breathing && t.ledBrightness == s.led.brightness)
      && (shows && s.ledBusy ==> t.ledBreathing == s.ledBreathing && t.ledBrightness == s.ledBrightness)
      && (!shows ==> t.led == s.led && t.ledBusy == s.ledBusy && t.queue.restores == s.queue.restores
                     && t.ledBreathing == s.ledBreathing && t.ledBrightness == s.ledBrightness)
  {
  }

  // ----- requests -----

  /** A request is posted for now, or for another try in 100 ms while the motor is busy; without a motor there is none. */
  lemma RequestEffect(s: State, want: CameraState)
    ensures var t := UpdateMotor(s, want);
      && t.log.asked == (if s.hasMotor then s.log.asked + [want] else s.log.asked)
      && t.queue.runs == (if s.hasMotor && !s.motorBusy then s.queue.runs + [Request(s.now, want)] else s.queue.runs)
      && t.queue.retries ==
         (if s.hasMotor && s.motorBusy then s.queue.retries + [Request(s.now + 100, want)] else s.queue.retries)
  {
  }

  /** A retry is the same request once more, and not counted as another. */
  lemma RetryEffect(s: State, env: Env)
    requires Waiting(s.queue, Retries)
    ensures var t, want := Dispatch(s, Retries, env), s.queue.retries[0].want;
      && t.log.asked == s.log.asked
      && t.queue.runs == (if s.motorBusy then s.queue.runs else s.queue.runs + [Request(s.now, want)])
      && t.queue.retries ==
         (if s.motorBusy then s.queue.retries[1..] + [Request(s.now + 100, want)] else s.queue.retries[1..])
  {
  }

  /** The message of an opened camera asks to pop up if the screen is on and no dialog is wanted; of a closed one, to close. */
  lemma MessageEffect(s: State, env: Env)
    requires s.hasMotor
    ensures Waiting(s.queue, Opens) ==>
      var asks := s.screenOn && !env.alwaysOnDialog;
      Dispatch(s, Opens, env).log.asked == (if asks then s.log.asked + [Open] else s.log.asked)
    ensures Waiting(s.queue, Closes) ==> Dispatch(s, Closes, env).log.asked == s.log.asked + [Close]
  {
  }

  lemma MessageHandled(s: State, env: Env)
    ensures Waiting(s.queue, Opens) ==> Dispatch(s, Opens, env).log.lastHandled == Some(Open)
    ensures Waiting(s.queue, Closes) ==> Dispatch(s, Closes, env).log.lastHandled == Some(Close)
  {
  }

  /** The "raise" button of the dialog asks to pop up. */
  lemma RaiseEffect(s: State)
    requires s.hasMotor
    ensures Next(s, RaiseClicked).log.asked == s.log.asked + [Open]
  {
  }

  // ----- camera events -----

  /** Only camera "1" matters: its message is due 100 ms later, and withdraws those of the other kind not 100 ms old. */
  lemma OpenedEffect(s: State, cameraId: string)
    ensures var t := Next(s, Opened(cameraId));
      if cameraId == "1" then
        && t.openEvent == s.now && t.log.lastEvent == Some(Open) && t.queue.opens == s.queue.opens + [s.now + 100]
        && t.queue.closes == (if s.now - s.closedEvent < 100 then [] else s.queue.closes)
      else t == s
  {
  }

  lemma ClosedEffect(s: State, cameraId: string)
    ensures var t := Next(s, Closed(cameraId));
      if cameraId == "1" then
        && t.closedEvent == s.now && t.log.lastEvent == Some(Close) && t.queue.closes == s.queue.closes + [s.now + 100]
        && t.queue.opens == (if s.now - s.openEvent < 100 then [] else s.queue.opens)
      else t == s
  {
  }

  // ----- motor events, free falls and clicks -----

  /** A dialog is posted, and the flag set, unless the flag is set already. */
  lemma DialogEffect(s: State)
    ensures var t := ShowDialog(s);
      && t.errorDialogShowing && t.log == s.log
      && t.queue.dialogs == (if s.errorDialogShowing then s.queue.dialogs else s.queue.dialogs + [s.now])
  {
  }

  /** A jam or the end of a calibration shows a dialog if none is posted or showing; pressing the camera down closes it. */
  lemma NotifyEffect(s: State, status: int)
    requires s.hasMotor
    ensures var t, shows := Next(s, Notified(status)), status == 12 || status == 14 || status == 17 || status == 18;
      && (t.errorDialogShowing <==> s.errorDialogShowing || shows)
      && t.queue.dialogs == (if shows && !s.errorDialogShowing then s.queue.dialogs + [s.now] else s.queue.dialogs)
      && t.log.asked == (if status == 15 then s.log.asked + [Close] else s.log.asked)
  {
    hide ShowDialog;
    DialogEffect(s);
  }

  /** A free fall takes the motor back shortly and ends listening for another, unless the call throws. */
  lemma FreeFallEffect(s: State, ok: bool)
    requires s.hasMotor
    ensures var t := Next(s, Fell(ok));
      if ok then !t.listening && t.log.lastMove == Some(TakebackShortly)
      else t.listening == s.listening && t.log.lastMove == s.log.lastMove
  {
  }

  /** A click calibrates exactly if the latch is open and there is or turns up a motor; then the latch closes for 7000 ms. */
  lemma CalibrateEffect(s: State, found: bool)
    ensures var t, goes := Next(s, CalibrateClicked(found)), !s.motorCalibrating && (s.hasMotor || found);
      && t.log.calibrations == (if goes then s.log.calibrations + [s.now] else s.log.calibrations)
      && t.queue.releases == (if goes then s.queue.releases + [s.now + 7000] else s.queue.releases)
      && t.motorCalibrating == (s.motorCalibrating || goes) && t.hasMotor == (s.hasMotor || goes)
  {
  }

  // ----- the tasks that end something -----

  lemma EndingEffects(s: State, env: Env)
    ensures Waiting(s.queue, Resets) ==> !Dispatch(s, Resets, env).motorBusy
    ensures Waiting(s.queue, Releases) ==> !Dispatch(s, Releases, env).motorCalibrating
    ensures Waiting(s.queue, Dialogs) ==> Dispatch(s, Dialogs, env).dialogs == s.dialogs + 1
  {
  }

  /** The LED breathes again if it did when saved; else it gets its brightness back, which shows if breathing stops. */
  lemma RestoreEffect(s: State, env: Env)
    requires Waiting(s.queue, Restores)
    ensures var t := Dispatch(s, Restores, env);
      && !t.ledBusy
      && (s.ledBreathing ==> Look(t.led) == Breathing)
      && (!s.ledBreathing ==> t.led.brightness == s.ledBrightness)
      && (!s.ledBreathing && (s.led.stops || !s.led.breathing) ==> Look(t.led) == Steady(s.ledBrightness))
  {
  }

  lemma DismissEffect(s: State)
    requires 0 < s.dialogs
    ensures var t := Next(s, DialogDismissed); t.dialogs == s.dialogs - 1 && !t.errorDialogShowing
  {
  }

  // ----- the screen -----

  /** What the last screen event said, or `before`. */
  function LastScreen(events: seq<Event>, before: bool): bool
    decreases |events|
  {
    if events == [] then before
    else LastScreen(events[1..], if events[0].ScreenTurned? then events[0].on else before)
  }

  lemma ScreenKeptByRun(s: State, env: Env)
    requires Waiting(s.queue, Runs)
    ensures var t := Dispatch(s, Runs, env); t.screenOn == s.screenOn && t.hasMotor == s.hasMotor
  {
  }

  lemma ScreenKeptByRetry(s: State, env: Env)
    requires Waiting(s.queue, Retries)
    ensures var t := Dispatch(s, Retries, env); t.screenOn == s.screenOn && t.hasMotor == s.hasMotor
  {
  }

  lemma ScreenKeptByEnding(s: State, k: Kind, env: Env)
    requires (k == Resets || k == Restores || k == Releases || k == Dialogs) && Waiting(s.queue, k)
    ensures var t := Dispatch(s, k, env); t.screenOn == s.screenOn && t.hasMotor == s.hasMotor
  {
  }

  lemma ScreenKeptByUpdate(s: State, want: CameraState)
    ensures var t := UpdateMotor(s, want); t.screenOn == s.screenOn && t.hasMotor == s.hasMotor
  {
  }

  lemma ScreenKeptByDialog(s: State)
    ensures ShowDialog(s).screenOn == s.screenOn
  {
  }

  lemma ScreenKeptByOpened(s: State, cameraId: string)
    ensures var t := CameraOpened(s, cameraId); t.screenOn == s.screenOn
  {
  }

  lemma ScreenKeptByClosed(s: State, cameraId: string)
    ensures var t := CameraClosed(s, cameraId); t.screenOn == s.screenOn
  {
  }

  lemma ScreenKeptByMessage(s: State, camera: CameraState, env: Env)
    ensures HandleMessage(s, camera, env).screenOn == s.screenOn && HandleMessage(s, camera, env).hasMotor == s.hasMotor
  {
    hide UpdateMotor;
    ScreenKeptByUpdate(s.(log := s.log.(lastHandled := Some(camera))), camera);
  }

  lemma ScreenKeptByTask(s: State, k: Kind, env: Env)
    requires Waiting(s.queue, k)
    ensures Dispatch(s, k, env).screenOn == s.screenOn && Dispatch(s, k, env).hasMotor == s.hasMotor
  {
    match k
    case Opens => ScreenKeptByHandling(s, Opens, env);
    case Closes => ScreenKeptByHandling(s, Closes, env);
    case Runs => ScreenKeptByRun(s, env);
    case Retries => ScreenKeptByRetry(s, env);
    case _ => ScreenKeptByEnding(s, k, env);
  }

  lemma ScreenKeptByHandling(s: State, k: Kind, env: Env)
    requires (k == Opens || k == Closes) && Waiting(s.queue, k)
    ensures var t := Dispatch(s, k, env); t.screenOn == s.screenOn && t.hasMotor == s.hasMotor
  {
    hide HandleMessage;
    ScreenKeptByMessage(s.(queue := Dropped(s.queue, k)), if k == Opens then Open else Close, env);
  }

  lemma ScreenStep(s: State, e: Event)
    requires Enabled(s, e)
    ensures Next(s, e).screenOn == if e.ScreenTurned? then e.on else s.screenOn
  {
    hide UpdateMotor, ShowDialog, CameraOpened, CameraClosed, Dispatch;
    match e
    case Opened(cameraId) => ScreenKeptByOpened(s, cameraId);
    case Closed(cameraId) => ScreenKeptByClosed(s, cameraId);
    case Notified(_) =>
      ScreenKeptByUpdate(s, Close);
      ScreenKeptByDialog(s);
    case RaiseClicked => ScreenKeptByUpdate(s, Open);
    case Dispatched(k, env) => ScreenKeptByTask(s, k, env);
    case _ =>
  }

  /** In every run the service holds the screen to be as the last screen event said. */
  lemma {:induction false} ScreenFollows(s: State, events: seq<Event>)
    requires Admits(s, events)
    ensures Execute(s, events).screenOn == LastScreen(events, s.screenOn)
    decreases |events|
  {
    if events != [] {
      ScreenStep(s, events[0]);
      ScreenFollows(Next(s, events[0]), events[1..]);
    }
  }
}
