/** Pending work of the service's handler: for each kind of task those posted and not yet run. */
module Handler {
  datatype CameraState = Open | Close

  /** A motor request waiting to run or to be retried. */
  datatype Request = Request(due: int, want: CameraState)

  /** Due times, or requests, in the order of posting; a kind has one delay, so this is also the order of due times. */
  datatype Queues = Queues(
    opens: seq<int>,         // MSG_CAMERA_OPEN
    closes: seq<int>,        // MSG_CAMERA_CLOSED
    runs: seq<Request>,      // motor runnables
    retries: seq<Request>,   // runnables that try again while the motor is busy
    resets: seq<int>,        // ends of the busy window
    restores: seq<int>,      // ends of a LED effect
    releases: seq<int>,      // ends of the calibration latch
    dialogs: seq<int>)       // error and result dialogs to show

  const NOTHING := Queues([], [], [], [], [], [], [], [])

  datatype Kind = Opens | Closes | Runs | Retries | Resets | Restores | Releases | Dialogs

  predicate Waiting(q: Queues, k: Kind) {
    match k
    case Opens => q.opens != []
    case Closes => q.closes != []
    case Runs => q.runs != []
    case Retries => q.retries != []
    case Resets => q.resets != []
    case Restores => q.restores != []
    case Releases => q.releases != []
    case Dialogs => q.dialogs != []
  }

  /** When the first task of a kind falls due. */
  function FirstDue(q: Queues, k: Kind): int
    requires Waiting(q, k)
  {
    match k
    case Opens => q.opens[0]
    case Closes => q.closes[0]
    case Runs => q.runs[0].due
    case Retries => q.retries[0].due
    case Resets => q.resets[0]
    case Restores => q.restores[0]
    case Releases => q.releases[0]
    case Dialogs => q.dialogs[0]
  }

  /** A first task of some kind that no other is due before: what the handler takes next, ties aside. */
  predicate IsFirst(q: Queues, k: Kind) {
    Waiting(q, k) && forall other :: Waiting(q, other) ==> FirstDue(q, k) <= FirstDue(q, other)
  }

  /** While anything is waiting something can be taken. */
  lemma SomethingFirst(q: Queues, k: Kind) returns (least: Kind)
    requires Waiting(q, k)
    ensures IsFirst(q, least)
  {
    least := k;
    var kinds := [Opens, Closes, Runs, Retries, Resets, Restores, Releases, Dialogs];
    for i := 0 to |kinds|
      invariant Waiting(q, least)
      invariant forall j :: 0 <= j < i && Waiting(q, kinds[j]) ==> FirstDue(q, least) <= FirstDue(q, kinds[j])
    {
      if Waiting(q, kinds[i]) && FirstDue(q, kinds[i]) < FirstDue(q, least) {
        least := kinds[i];
      }
    }
    forall other | Waiting(q, other) ensures FirstDue(q, least) <= FirstDue(q, other) {
      assert other in kinds;
    }
  }

  predicate Idle(q: Queues) {
    forall k :: !Waiting(q, k)
  }

  /** The queues once the first task of a kind has been taken. */
  function Dropped(q: Queues, k: Kind): Queues
    requires Waiting(q, k)
  {
    match k
    case Opens => q.(opens := q.opens[1..])
    case Closes => q.(closes := q.closes[1..])
    case Runs => q.(runs := q.runs[1..])
    case Retries => q.(retries := q.retries[1..])
    case Resets => q.(resets := q.resets[1..])
    case Restores => q.(restores := q.restores[1..])
    case Releases => q.(releases := q.releases[1..])
    case Dialogs => q.(dialogs := q.dialogs[1..])
  }

  /** What the first task of a kind is for; only requests carry it in the queue. */
  function FirstWant(q: Queues, k: Kind): CameraState
    requires Waiting(q, k)
  {
    match k
    case Opens => Open
    case Runs => q.runs[0].want
    case Retries => q.retries[0].want
    case _ => Close
  }
}
