/** The handler's message queue as the platform keeps it: one list in the order in which the tasks will run. */
module MessageQueue {
  import opened Handler

  datatype Task =
    | CameraMessage(camera: CameraState)
    | MotorRun(want: CameraState)
    | MotorRetry(want: CameraState)
    | ClearBusy
    | RestoreLed
    | ClearCalibrating
    | ShowErrorDialog
    | ShowResultDialog(status: int)

  datatype Message = Message(due: int, task: Task)

  function KindOf(t: Task): Kind {
    match t
    case CameraMessage(c) => if c == Open then Opens else Closes
    case MotorRun(_) => Runs
    case MotorRetry(_) => Retries
    case ClearBusy => Resets
    case RestoreLed => Restores
    case ClearCalibrating => Releases
    case ShowErrorDialog => Dialogs
    case ShowResultDialog(_) => Dialogs
  }

  function WantOf(t: Task): CameraState {
    match t
    case CameraMessage(camera) => camera
    case MotorRun(want) => want
    case MotorRetry(want) => want
    case _ => Close
  }

  /** The message by itself, if it is of that kind. */
  function Only(m: Message, k: Kind): seq<Message> {
    if KindOf(m.task) == k then [m] else []
  }

  /** The messages of one kind, in order. */
  function Of(ms: seq<Message>, k: Kind): seq<Message> {
    if ms == [] then [] else Only(ms[0], k) + Of(ms[1..], k)
  }

  function Dues(ms: seq<Message>): seq<int> {
    seq(|ms|, i requires 0 <= i < |ms| => ms[i].due)
  }

  function Requests(ms: seq<Message>): seq<Request> {
    seq(|ms|, i requires 0 <= i < |ms| => Request(ms[i].due, WantOf(ms[i].task)))
  }

  /** The queue of kind `k` lists that kind's messages. */
  ghost predicate Matches(ms: seq<Message>, q: Queues, k: Kind) {
    match k
    case Opens => q.opens == Dues(Of(ms, k))
    case Closes => q.closes == Dues(Of(ms, k))
    case Runs => q.runs == Requests(Of(ms, k))
    case Retries => q.retries == Requests(Of(ms, k))
    case Resets => q.resets == Dues(Of(ms, k))
    case Restores => q.restores == Dues(Of(ms, k))
    case Releases => q.releases == Dues(Of(ms, k))
    case Dialogs => q.dialogs == Dues(Of(ms, k))
  }

  /** `q` is the list sorted into one queue for each kind. */
  ghost predicate AllMatch(ms: seq<Message>, q: Queues) {
    forall k :: Matches(ms, q, k)
  }

  /** The queues with one more message at the end of its kind. */
  function Appended(q: Queues, m: Message): Queues {
    match KindOf(m.task)
    case Opens => q.(opens := q.opens + [m.due])
    case Closes => q.(closes := q.closes + [m.due])
    case Runs => q.(runs := q.runs + [Request(m.due, WantOf(m.task))])
    case Retries => q.(retries := q.retries + [Request(m.due, WantOf(m.task))])
    case Resets => q.(resets := q.resets + [m.due])
    case Restores => q.(restores := q.restores + [m.due])
    case Releases => q.(releases := q.releases + [m.due])
    case Dialogs => q.(dialogs := q.dialogs + [m.due])
  }

  ghost predicate InOrder(ms: seq<Message>) {
    forall i, j :: 0 <= i < j < |ms| ==> ms[i].due <= ms[j].due
  }

  lemma {:induction false} OfConcat(a: seq<Message>, b: seq<Message>, k: Kind)
    ensures Of(a + b, k) == Of(a, k) + Of(b, k)
  {
    if a == [] {
      assert a + b == b;
    } else {
      OfConcat(a[1..], b, k);
      var all := a + b;
      assert all[0] == a[0] && all[1..] == a[1..] + b;
      Associate(Only(a[0], k), Of(a[1..], k), Of(b, k));
    }
  }

  lemma Associate(a: seq<Message>, b: seq<Message>, c: seq<Message>)
    ensures a + (b + c) == (a + b) + c
  {
  }

  lemma {:induction false} OfNone(ms: seq<Message>, k: Kind)
    requires forall i :: 0 <= i < |ms| ==> KindOf(ms[i].task) != k
    ensures Of(ms, k) == []
  {
    if ms != [] {
      OfNone(ms[1..], k);
    }
  }

  /** `m` fits in at `p`, after all messages of its own kind. */
  predicate FitsAt(ms: seq<Message>, p: nat, m: Message) {
    p <= |ms| && forall i :: p <= i < |ms| ==> KindOf(ms[i].task) != KindOf(m.task)
  }

  function InsertAt(ms: seq<Message>, p: nat, m: Message): seq<Message>
    requires p <= |ms|
  {
    ms[..p] + [m] + ms[p..]
  }

  /** Where the platform inserts `m`: after everything due no later, before everything due later. */
  lemma InsertInOrder(ms: seq<Message>, p: nat, m: Message)
    requires p <= |ms| && InOrder(ms)
    requires forall i :: 0 <= i < p ==> ms[i].due <= m.due
    requires p < |ms| ==> m.due < ms[p].due
    ensures InOrder(InsertAt(ms, p, m))
    ensures forall x :: x in InsertAt(ms, p, m) ==> x == m || x in ms
  {
  }

  lemma OfInsert(ms: seq<Message>, p: nat, m: Message, k: Kind)
    requires FitsAt(ms, p, m)
    ensures Of(InsertAt(ms, p, m), k) == Of(ms, k) + Only(m, k)
  {
    hide Of;
    var front, back := ms[..p], ms[p..];
    assert ms == front + back;
    OfConcat(front, back, k);
    OfBetween(front, m, back, k);
    if KindOf(m.task) == k {
      OfNone(back, k);
    }
  }

  lemma OfBetween(front: seq<Message>, m: Message, back: seq<Message>, k: Kind)
    ensures Of(front + [m] + back, k) == Of(front, k) + Only(m, k) + Of(back, k)
  {
    OfConcat(front + [m], back, k);
    OfConcat(front, [m], k);
    OfOne(m, k);
  }

  lemma OfOne(m: Message, k: Kind)
    ensures Of([m], k) == Only(m, k)
  {
    assert Of([m][1..], k) == [];
  }

  lemma DuesAppend(ms: seq<Message>, m: Message)
    ensures Dues(ms + [m]) == Dues(ms) + [m.due]
    ensures Requests(ms + [m]) == Requests(ms) + [Request(m.due, WantOf(m.task))]
  {
  }

  lemma MatchesInsert(ms: seq<Message>, q: Queues, p: nat, m: Message, k: Kind)
    requires FitsAt(ms, p, m) && Matches(ms, q, k)
    ensures Matches(InsertAt(ms, p, m), Appended(q, m), k)
  {
    hide Of, InsertAt;
    OfInsert(ms, p, m, k);
    DuesAppend(Of(ms, k), m);
  }

  /** Inserting after its kind appends to the queue of that kind and to no other. */
  lemma AllMatchInsert(ms: seq<Message>, q: Queues, p: nat, m: Message)
    requires FitsAt(ms, p, m) && AllMatch(ms, q)
    ensures AllMatch(InsertAt(ms, p, m), Appended(q, m))
  {
    forall k ensures Matches(InsertAt(ms, p, m), Appended(q, m), k) {
      assert Matches(ms, q, k);
      MatchesInsert(ms, q, p, m, k);
    }
  }

  lemma DuesDrop(ms: seq<Message>)
    requires ms != []
    ensures Dues(ms)[1..] == Dues(ms[1..]) && Requests(ms)[1..] == Requests(ms[1..])
  {
  }

  /** The head of the list heads the queue of its kind. */
  lemma MatchesHead(ms: seq<Message>, q: Queues)
    requires ms != [] && Matches(ms, q, KindOf(ms[0].task))
    ensures Waiting(q, KindOf(ms[0].task)) && FirstDue(q, KindOf(ms[0].task)) == ms[0].due
    ensures FirstWant(q, KindOf(ms[0].task)) == WantOf(ms[0].task)
  {
    assert Of(ms, KindOf(ms[0].task))[0] == ms[0];
  }

  lemma MatchesTail(ms: seq<Message>, q: Queues, k: Kind)
    requires ms != [] && Matches(ms, q, k) && Waiting(q, KindOf(ms[0].task))
    ensures Matches(ms[1..], Dropped(q, KindOf(ms[0].task)), k)
  {
    if k == KindOf(ms[0].task) {
      assert Of(ms, k)[1..] == Of(ms[1..], k);
      DuesDrop(Of(ms, k));
    } else {
      assert Of(ms, k) == Of(ms[1..], k);
    }
  }

  lemma AllMatchTail(ms: seq<Message>, q: Queues)
    requires ms != [] && AllMatch(ms, q)
    ensures Waiting(q, KindOf(ms[0].task)) && AllMatch(ms[1..], Dropped(q, KindOf(ms[0].task)))
  {
    assert Matches(ms, q, KindOf(ms[0].task));
    MatchesHead(ms, q);
    forall k ensures Matches(ms[1..], Dropped(q, KindOf(ms[0].task)), k) {
      assert Matches(ms, q, k);
      MatchesTail(ms, q, k);
    }
  }

  lemma {:induction false} OfMember(ms: seq<Message>, k: Kind)
    requires Of(ms, k) != []
    ensures Of(ms, k)[0] in ms
  {
    if KindOf(ms[0].task) != k {
      OfMember(ms[1..], k);
    }
  }

  lemma FirstOfKind(ms: seq<Message>, q: Queues, k: Kind)
    requires Matches(ms, q, k) && Waiting(q, k)
    ensures Of(ms, k) != [] && FirstDue(q, k) == Of(ms, k)[0].due
  {
  }

  /** The head of the list is a first task: no kind has one due before it. */
  lemma HeadIsFirst(ms: seq<Message>, q: Queues)
    requires ms != [] && InOrder(ms) && AllMatch(ms, q)
    ensures IsFirst(q, KindOf(ms[0].task)) && FirstDue(q, KindOf(ms[0].task)) == ms[0].due
  {
    assert Matches(ms, q, KindOf(ms[0].task));
    MatchesHead(ms, q);
    forall other | Waiting(q, other) ensures ms[0].due <= FirstDue(q, other) {
      assert Matches(ms, q, other);
      FirstOfKind(ms, q, other);
      OfMember(ms, other);
    }
  }

  /** `removeMessages`: drops every camera message of one kind. */
  function Without(ms: seq<Message>, c: CameraState): seq<Message> {
    if ms == [] then []
    else (if ms[0].task == CameraMessage(c) then [] else [ms[0]]) + Without(ms[1..], c)
  }

  lemma {:induction false} OfWithout(ms: seq<Message>, c: CameraState, k: Kind)
    ensures Of(Without(ms, c), k) == if k == (if c == Open then Opens else Closes) then [] else Of(ms, k)
  {
    if ms != [] {
      OfWithout(ms[1..], c, k);
      if ms[0].task == CameraMessage(c) {
        assert Without(ms, c) == Without(ms[1..], c);
      } else {
        assert Without(ms, c)[1..] == Without(ms[1..], c);
      }
    }
  }

  /** The queues with the messages of one camera event withdrawn. */
  function Withdrawn(q: Queues, c: CameraState): Queues {
    if c == Open then q.(opens := []) else q.(closes := [])
  }

  lemma MatchesWithout(ms: seq<Message>, q: Queues, c: CameraState, k: Kind)
    requires Matches(ms, q, k)
    ensures Matches(Without(ms, c), Withdrawn(q, c), k)
  {
    OfWithout(ms, c, k);
  }

  lemma AllMatchWithout(ms: seq<Message>, q: Queues, c: CameraState)
    requires AllMatch(ms, q)
    ensures AllMatch(Without(ms, c), Withdrawn(q, c))
  {
    forall k ensures Matches(Without(ms, c), Withdrawn(q, c), k) {
      assert Matches(ms, q, k);
      MatchesWithout(ms, q, c, k);
    }
  }

  lemma {:induction false} WithoutMembers(ms: seq<Message>, c: CameraState)
    ensures forall x :: x in Without(ms, c) ==> x in ms
    ensures InOrder(ms) ==> InOrder(Without(ms, c))
  {
    if ms != [] {
      WithoutMembers(ms[1..], c);
      var tail := Without(ms[1..], c);
      assert Without(ms, c) == (if ms[0].task == CameraMessage(c) then [] else [ms[0]]) + tail;
      assert ms == [ms[0]] + ms[1..];
      forall i | 0 <= i < |tail| && InOrder(ms) ensures ms[0].due <= tail[i].due {
        assert tail[i] in ms[1..];
      }
    }
  }
}
