/** One eye of the pipeline: its ticket counter, frame queue, processing thread, frame map, sending
    thread and pair of encoders. A lane moves by labelled acts; the label resolves every choice that
    the scheduler, a timeout or a notification makes. */
module Lanes {
  import opened Frames
  import opened Waiting
  import Q = FrameQueues
  import M = FrameMaps

  /** Each lane has one popper and inserter, and one getter. */
  const PROCESSOR: nat := 0
  const SENDER: nat := 0

  datatype Processor =
    | ProcTop
    | Popping
    | Loaded(frame: Frame)
    | Inserting(frame: Frame)
    | Crashed(frame: Frame)
    | ProcExited

  datatype Sender =
    | SendTop
    | Getting
    | Holding(frame: Frame)
    | SceneSent(frame: Frame)
    | Decided
    | SendExited

  /** `pushed`, `popped` and `attempted` record the frames that entered the queue, left it, and were
      handed to the map; `scene` and `depth` are the encoders' submission logs; `skipped` holds the
      indices the sender gave up on. */
  datatype Lane = Lane(
    eye: Eye,
    issued: nat,
    queue: Q.Queue,
    pushed: seq<Frame>,
    popped: seq<Frame>,
    processor: Processor,
    attempted: seq<Frame>,
    store: M.Store,
    cursor: nat,
    sender: Sender,
    scene: seq<Frame>,
    depth: seq<Frame>,
    skipped: set<nat>)

  function Init(eye: Eye): Lane {
    Lane(eye, 0, Q.EMPTY, [], [], ProcTop, [], M.EMPTY, 0, SendTop, [], [], {})
  }

  datatype Act =
    | Issue
    | Accept(client: nat, frame: Frame, expired: bool, choice: nat)
    | CheckProcessor(stop: bool)
    | Pop(expired: bool, choice: nat)
    | Convert
    | Insert(expired: bool)
    | CheckSender(stop: bool)
    | Get(expired: bool, choice: nat)
    | SubmitScene
    | SubmitDepth
    | Advance

  predicate Enabled(l: Lane, a: Act) {
    match a
    case Issue => true
    case Accept(c, f, expired, choice) =>
      && f.eye == l.eye && !f.converted
      && l.queue.poppers.MayNotify(choice)
      && (expired ==> l.queue.pushers.Has(c))
    case CheckProcessor(_) => l.processor.ProcTop?
    case Pop(expired, choice) =>
      && l.processor.Popping?
      && l.queue.pushers.MayNotify(choice)
      && (expired ==> l.queue.poppers.Has(PROCESSOR))
    case Convert => l.processor.Loaded?
    case Insert(expired) => l.processor.Inserting? && (expired ==> l.store.inserters.Has(PROCESSOR))
    case CheckSender(_) => l.sender.SendTop?
    case Get(expired, choice) =>
      && l.sender.Getting?
      && l.store.inserters.MayNotify(choice)
      && (expired ==> SENDER in l.store.sleepers || SENDER in l.store.woken)
    case SubmitScene => l.sender.Holding?
    case SubmitDepth => l.sender.SceneSent?
    case Advance => l.sender.Decided?
  }

  /** What the push region of an `Accept` did to the caller. */
  function Accepted(l: Lane, a: Act): Attempt
    requires a.Accept? && Enabled(l, a)
  {
    Q.PushStep(l.queue, a.client, a.frame, a.expired, a.choice).1
  }

  function PopOutcome(l: Lane, a: Act): Q.Popped
    requires a.Pop? && Enabled(l, a)
  {
    Q.PopStep(l.queue, PROCESSOR, a.expired, a.choice).1
  }

  function InsertOutcome(l: Lane, a: Act): Attempt
    requires a.Insert? && Enabled(l, a)
  {
    M.InsertStep(l.store, PROCESSOR, l.processor.frame.index, l.processor.frame, a.expired).1
  }

  function GetOutcome(l: Lane, a: Act): M.Fetched
    requires a.Get? && Enabled(l, a)
  {
    M.GetStep(l.store, SENDER, l.cursor, a.expired, a.choice).1
  }

  function NextQueue(l: Lane, a: Act): Q.Queue
    requires Enabled(l, a)
  {
    match a
    case Accept(c, f, expired, choice) => Q.PushStep(l.queue, c, f, expired, choice).0
    case Pop(expired, choice) => Q.PopStep(l.queue, PROCESSOR, expired, choice).0
    case _ => l.queue
  }

  function NextStore(l: Lane, a: Act): M.Store
    requires Enabled(l, a)
  {
    match a
    case Insert(expired) => M.InsertStep(l.store, PROCESSOR, l.processor.frame.index, l.processor.frame, expired).0
    case Get(expired, choice) => M.GetStep(l.store, SENDER, l.cursor, expired, choice).0
    case _ => l.store
  }

  /** `convert_frame` throws, and nothing catches it, when the frame was converted before. */
  function NextProcessor(l: Lane, a: Act): Processor
    requires Enabled(l, a)
  {
    match a
    case CheckProcessor(stop) => if stop then ProcExited else Popping
    case Pop(_, _) => (match PopOutcome(l, a)
                       case Popped(f) => Loaded(f)
                       case PopSlept => Popping
                       case PopTimedOut => ProcTop)
    case Convert =>
      var (f, threw) := ConvertStep(l.processor.frame);
      if threw then Crashed(f) else Inserting(f)
    case Insert(_) => if InsertOutcome(l, a) == Slept then l.processor else ProcTop
    case _ => l.processor
  }

  function NextSender(l: Lane, a: Act): Sender
    requires Enabled(l, a)
  {
    match a
    case CheckSender(stop) => if stop then SendExited else Getting
    case Get(_, _) => (match GetOutcome(l, a)
                       case Found(f) => Holding(f)
                       case GetSlept => Getting
                       case GetTimedOut => Decided)
    case SubmitScene => SceneSent(l.sender.frame)
    case SubmitDepth => Decided
    case Advance => SendTop
    case _ => l.sender
  }

  function Apply(l: Lane, a: Act): Lane
    requires Enabled(l, a)
  {
    Lane(
      l.eye,
      if a.Issue? then l.issued + 1 else l.issued,
      NextQueue(l, a),
      if a.Accept? && Accepted(l, a) == Done then l.pushed + [a.frame] else l.pushed,
      if a.Pop? && PopOutcome(l, a).Popped? then l.popped + [PopOutcome(l, a).frame] else l.popped,
      NextProcessor(l, a),
      if a.Convert? && !ConvertStep(l.processor.frame).1 then l.attempted + [ConvertStep(l.processor.frame).0] else l.attempted,
      NextStore(l, a),
      if a.Advance? then l.cursor + 1 else l.cursor,
      NextSender(l, a),
      if a.SubmitScene? then l.scene + [l.sender.frame] else l.scene,
      if a.SubmitDepth? then l.depth + [l.sender.frame] else l.depth,
      if a.Get? && GetOutcome(l, a).GetTimedOut? then l.skipped + {l.cursor} else l.skipped)
  }

  function Tickets(items: map<nat, Frame>, keys: set<nat>): set<Ticket>
    requires keys <= items.Keys
  {
    set k | k in keys :: items[k].ticket
  }

  /** The tickets whose frames an act destroys, with the cause. */
  function Losses(l: Lane, a: Act): map<Ticket, Cause>
    requires Enabled(l, a)
  {
    match a
    case Accept(_, f, _, _) => if Accepted(l, a) == TimedOut then map[f.ticket := QueueTimeout] else map[]
    case Insert(_) =>
      var f := l.processor.frame;
      var r := InsertOutcome(l, a);
      if r == TimedOut then map[f.ticket := MapTimeout]
      else if r == Done && f.index in l.store.items then map[f.ticket := DuplicateKey]
      else map[]
    case Get(_, _) =>
      if l.cursor in l.store.items
      then map t | t in Tickets(l.store.items, M.Stale(l.store.items, l.cursor)) :: Purged
      else map[]
    case _ => map[]
  }

  predicate Valid(l: Lane, acts: seq<Act>)
    decreases |acts|
  {
    acts == [] || (Enabled(l, acts[0]) && Valid(Apply(l, acts[0]), acts[1..]))
  }

  function Final(l: Lane, acts: seq<Act>): Lane
    requires Valid(l, acts)
    decreases |acts|
  {
    if acts == [] then l else Final(Apply(l, acts[0]), acts[1..])
  }

  /** The least index the sender has not yet decided. */
  function Upcoming(l: Lane): nat {
    if l.sender.Holding? || l.sender.SceneSent? || l.sender.Decided? then l.cursor + 1 else l.cursor
  }

  // ---- The invariant ----

  predicate Bounded(l: Lane) {
    Q.Inv(l.queue) && M.Inv(l.store) && M.LoneInserter(l.store, PROCESSOR)
  }

  /** Frames leave the queue, and reach the map, in the order they were pushed. */
  predicate Fifo(l: Lane) {
    && l.pushed == l.popped + l.queue.items
    && match l.processor
       case Loaded(f) => l.popped != [] && l.popped[|l.popped| - 1] == f && l.attempted == MarkAll(l.popped[..|l.popped| - 1])
       case Inserting(f) => l.attempted != [] && l.attempted[|l.attempted| - 1] == f && l.attempted == MarkAll(l.popped)
       case Crashed(_) => false
       case _ => l.attempted == MarkAll(l.popped)
  }

  predicate Stored(l: Lane, k: nat, f: Frame) {
    f.index == k && f.eye == l.eye && f.converted
  }

  /** Frames are unconverted up to the processor and converted beyond it, always carry the lane's
      eye, and sit in the map under their own index. */
  predicate Tagged(l: Lane) {
    && (forall i :: 0 <= i < |l.pushed| ==> l.pushed[i].eye == l.eye && !l.pushed[i].converted)
    && (forall k :: k in l.store.items ==> Stored(l, k, l.store.items[k]))
    && (forall i :: 0 <= i < |l.scene| ==> Stored(l, l.scene[i].index, l.scene[i]))
    && (l.sender.Holding? || l.sender.SceneSent? ==> Stored(l, l.cursor, l.sender.frame))
  }

  predicate StrictlyIncreasing(s: seq<Frame>) {
    forall i, j :: 0 <= i < j < |s| ==> s[i].index < s[j].index
  }

  /** Submission order, and the lag of the depth encoder behind the scene encoder. */
  predicate Ordered(l: Lane) {
    && StrictlyIncreasing(l.scene)
    && l.scene == if l.sender.SceneSent? then l.depth + [l.sender.frame] else l.depth
  }

  predicate Submitted(l: Lane, k: nat) {
    exists i :: 0 <= i < |l.scene| && l.scene[i].index == k
  }

  /** Every index below `Upcoming` was decided exactly once. */
  predicate Accounted(l: Lane) {
    && (forall k :: k in l.skipped ==> k < Upcoming(l) && !Submitted(l, k))
    && (forall i :: 0 <= i < |l.scene| ==> l.scene[i].index < Upcoming(l))
    && (l.sender.Holding? ==> l.cursor !in l.skipped && !Submitted(l, l.cursor))
    && (forall k: nat :: k < Upcoming(l) ==> k in l.skipped || Submitted(l, k) || (l.sender.Holding? && k == l.cursor))
    && |l.scene| + |l.skipped| + (if l.sender.Holding? then 1 else 0) == Upcoming(l)
  }

  /** Only the lane's own threads wait on its monitors, each in the matching phase, and the sender
      waits for the index it is at. */
  predicate Parked(l: Lane) {
    && l.queue.poppers.asleep + l.queue.poppers.notified <= (if l.processor.Popping? then {PROCESSOR} else {})
    && l.store.inserters.asleep + l.store.inserters.notified <= (if l.processor.Inserting? then {PROCESSOR} else {})
    && (forall t :: t in l.store.sleepers ==> t == SENDER && l.sender.Getting? && l.store.sleepers[t] == l.cursor)
    && (forall t :: t in l.store.woken ==> t == SENDER && l.sender.Getting? && l.store.woken[t] == l.cursor)
  }

  predicate Inv(l: Lane) {
    Bounded(l) && Parked(l) && Fifo(l) && Tagged(l) && Ordered(l) && Accounted(l)
  }

  lemma InitInv(eye: Eye)
    ensures Inv(Init(eye))
  {
    var l := Init(eye);
    assert MarkAll([]) == [];
    assert Fifo(l);
    assert Accounted(l);
  }

  lemma StepKeepsBounded(l: Lane, a: Act)
    requires Bounded(l) && Enabled(l, a)
    ensures Bounded(Apply(l, a))
  {
    match a {
      case Accept(c, f, expired, choice) => Q.PushKeepsInv(l.queue, c, f, expired, choice);
      case Pop(expired, choice) => Q.PopKeepsInv(l.queue, PROCESSOR, expired, choice);
      case Insert(expired) =>
        M.InsertKeepsInv(l.store, PROCESSOR, l.processor.frame.index, l.processor.frame, expired);
      case Get(expired, choice) => M.GetKeepsInv(l.store, SENDER, l.cursor, expired, choice);
      case _ =>
    }
  }

  lemma InsertKeepsParked(l: Lane, a: Act)
    requires Parked(l) && Enabled(l, a) && a.Insert?
    ensures Parked(Apply(l, a))
  {
  }

  lemma GetKeepsParked(l: Lane, a: Act)
    requires Parked(l) && Enabled(l, a) && a.Get?
    ensures Parked(Apply(l, a))
  {
  }

  lemma QueueActKeepsParked(l: Lane, a: Act)
    requires Parked(l) && Enabled(l, a) && (a.Accept? || a.Pop?)
    ensures Parked(Apply(l, a))
  {
  }

  lemma StepKeepsParked(l: Lane, a: Act)
    requires Parked(l) && Enabled(l, a)
    ensures Parked(Apply(l, a))
  {
    if a.Insert? {
      InsertKeepsParked(l, a);
    } else if a.Get? {
      GetKeepsParked(l, a);
    } else if a.Accept? || a.Pop? {
      QueueActKeepsParked(l, a);
    }
  }

  lemma PopKeepsFifo(l: Lane, expired: bool, choice: nat)
    requires Fifo(l) && Enabled(l, Pop(expired, choice))
    ensures Fifo(Apply(l, Pop(expired, choice)))
  {
    var l' := Apply(l, Pop(expired, choice));
    if l'.processor.Loaded? {
      assert l.queue.items == [l'.processor.frame] + l'.queue.items;
      assert l'.popped[..|l'.popped| - 1] == l.popped;
      assert l'.attempted == MarkAll(l.popped);
    }
  }

  lemma ConvertKeepsFifo(l: Lane)
    requires Fifo(l) && Tagged(l) && Enabled(l, Convert)
    ensures Fifo(Apply(l, Convert))
  {
    var n := |l.popped| - 1;
    assert l.pushed[n] == l.popped[n] == l.processor.frame;
    assert MarkAll(l.popped) == MarkAll(l.popped[..n]) + [l.popped[n].(converted := true)];
  }

  lemma StepKeepsFifo(l: Lane, a: Act)
    requires Fifo(l) && Tagged(l) && Enabled(l, a)
    ensures Fifo(Apply(l, a))
  {
    match a {
      case Pop(expired, choice) => PopKeepsFifo(l, expired, choice);
      case Convert => ConvertKeepsFifo(l);
      case _ => assert Apply(l, a).pushed == Apply(l, a).popped + Apply(l, a).queue.items;
    }
  }

  lemma StepKeepsTagged(l: Lane, a: Act)
    requires Fifo(l) && Tagged(l) && Enabled(l, a)
    ensures Tagged(Apply(l, a))
  {
  }

  lemma StepKeepsOrdered(l: Lane, a: Act)
    requires Tagged(l) && Ordered(l) && Accounted(l) && Enabled(l, a)
    ensures Ordered(Apply(l, a))
  {
  }

  lemma SubmitKeepsAccounted(l: Lane)
    requires Tagged(l) && Accounted(l) && Enabled(l, SubmitScene)
    ensures Accounted(Apply(l, SubmitScene))
  {
    var l' := Apply(l, SubmitScene);
    forall k: nat
      ensures Submitted(l', k) <==> Submitted(l, k) || k == l.cursor
    {
      if k == l.cursor {
        assert l'.scene[|l.scene|].index == k;
      } else if Submitted(l, k) {
        var i :| 0 <= i < |l.scene| && l.scene[i].index == k;
        assert l'.scene[i].index == k;
      }
    }
  }

  lemma GetKeepsAccounted(l: Lane, a: Act)
    requires a.Get? && Tagged(l) && Accounted(l) && Enabled(l, a)
    ensures Accounted(Apply(l, a))
  {
  }

  lemma StepKeepsAccounted(l: Lane, a: Act)
    requires Tagged(l) && Accounted(l) && Enabled(l, a)
    ensures Accounted(Apply(l, a))
  {
    if a.SubmitScene? {
      SubmitKeepsAccounted(l);
    } else if a.Get? {
      GetKeepsAccounted(l, a);
    } else {
      assert forall k: nat :: Submitted(Apply(l, a), k) <==> Submitted(l, k);
    }
  }

  lemma StepKeepsInv(l: Lane, a: Act)
    requires Inv(l) && Enabled(l, a)
    ensures Inv(Apply(l, a))
  {
    StepKeepsBounded(l, a);
    StepKeepsParked(l, a);
    StepKeepsFifo(l, a);
    StepKeepsTagged(l, a);
    StepKeepsOrdered(l, a);
    StepKeepsAccounted(l, a);
  }

  lemma {:induction false} RunKeepsInv(l: Lane, acts: seq<Act>)
    requires Inv(l) && Valid(l, acts)
    ensures Inv(Final(l, acts))
    decreases |acts|
  {
    if acts != [] {
      StepKeepsInv(l, acts[0]);
      RunKeepsInv(Apply(l, acts[0]), acts[1..]);
    }
  }
}
