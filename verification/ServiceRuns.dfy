/** The object goes through exactly the runs of the state machine, so the guarantees for reachable states hold of it. */
module ServiceRuns {
  import opened CTypes
  import opened Handler
  import MessageQueue
  import opened PopupCamera
  import opened PopupCameraServiceClass
  import opened ServiceGuarantees

  method Create(now: nat, found: bool, status: Option<int>, commandOk: bool, screenOn: bool, led: Led)
    returns (service: PopupCameraService)
    ensures fresh(service) && service.Valid() && Reachable(service.View())
  {
    service := new PopupCameraService(now, found, status, commandOk, screenOn, led);
    InitialReachable(service.View());
  }

  /** Any enabled event, by the method that handles it; a task only as the head of the message list. */
  method Handle(service: PopupCameraService, e: Event)
    requires service.Valid() && Reachable(service.View()) && Enabled(service.View(), e)
    requires e.Dispatched? ==> service.messages != [] && service.messages[0].due <= service.now
    requires e.Dispatched? ==> e.k == MessageQueue.KindOf(service.messages[0].task)
    modifies service
    ensures service.Valid() && service.View() == Next(old(service.View()), e) && Reachable(service.View())
  {
    ReachableNext(service.View(), e);
    match e
    case Opened(cameraId) => service.OnCameraOpened(cameraId);
    case Closed(cameraId) => service.OnCameraClosed(cameraId);
    case Notified(status) => service.OnNotify(status);
    case Fell(ok) => service.OnFreeFall(ok);
    case ScreenTurned(on) => service.OnScreen(on);
    case RaiseClicked => service.UpdateMotor(Open);
    case CalibrateClicked(found) => service.CalibrateMotor(found);
    case DialogDismissed => service.OnDismiss();
    case Tick(to) => service.Advance(to);
    case Dispatched(k, env) => service.Dispatch(env);
  }
}
