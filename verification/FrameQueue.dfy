/** The bounded FIFO between the clients and a processing thread. Each function is one region
    executed with the queue's mutex held: the region either completes, goes (back) to sleep, or
    gives up because its timed wait has expired. */
module FrameQueues {
  import opened Frames
  import opened Waiting

  const MAX_SIZE: nat := 100

  datatype Queue = Queue(items: seq<Frame>, pushers: Waiters, poppers: Waiters)

  const EMPTY := Queue([], NOBODY, NOBODY)

  datatype Popped = Popped(frame: Frame) | PopSlept | PopTimedOut

  function PushStep(q: Queue, t: nat, f: Frame, expired: bool, choice: nat): (Queue, Attempt)
    requires q.poppers.MayNotify(choice)
  {
    if |q.items| < MAX_SIZE then
      (Queue(q.items + [f], q.pushers.Without(t), q.poppers.NotifyOne(choice)), Done)
    else if expired then
      (q.(pushers := q.pushers.Without(t)), TimedOut)
    else
      (q.(pushers := q.pushers.Sleep(t)), Slept)
  }

  function PopStep(q: Queue, t: nat, expired: bool, choice: nat): (Queue, Popped)
    requires q.pushers.MayNotify(choice)
  {
    if |q.items| > 0 then
      (Queue(q.items[1..], q.pushers.NotifyOne(choice), q.poppers.Without(t)), Popped(q.items[0]))
    else if expired then
      (q.(poppers := q.poppers.Without(t)), PopTimedOut)
    else
      (q.(poppers := q.poppers.Sleep(t)), PopSlept)
  }

  /** While someone sleeps unnotified, every resource it waits for is already spoken for by a
      notified thread of the same side. */
  predicate NoLostWakeups(q: Queue) {
    && (q.pushers.asleep != {} ==> MAX_SIZE - |q.items| <= |q.pushers.notified|)
    && (q.poppers.asleep != {} ==> |q.items| <= |q.poppers.notified|)
  }

  predicate Inv(q: Queue) {
    && |q.items| <= MAX_SIZE
    && NoLostWakeups(q)
    && q.pushers.asleep !! q.pushers.notified
    && q.poppers.asleep !! q.poppers.notified
  }

  lemma PushKeepsInv(q: Queue, t: nat, f: Frame, expired: bool, choice: nat)
    requires Inv(q) && q.poppers.MayNotify(choice)
    ensures Inv(PushStep(q, t, f, expired, choice).0)
  {
  }

  lemma PopKeepsInv(q: Queue, t: nat, expired: bool, choice: nat)
    requires Inv(q) && q.pushers.MayNotify(choice)
    ensures Inv(PopStep(q, t, expired, choice).0)
  {
  }

  /** A push succeeds exactly when fewer than a hundred frames are queued, gives up exactly on a full
      queue after its deadline, and otherwise sleeps, unnotified. */
  lemma PushMeans(q: Queue, t: nat, f: Frame, expired: bool, choice: nat)
    requires Inv(q) && q.poppers.MayNotify(choice)
    ensures var (q', outcome) := PushStep(q, t, f, expired, choice);
            && (outcome == Done <==> |q.items| < 100)
            && (outcome == TimedOut <==> |q.items| == 100 && expired)
            && (outcome == Slept <==> |q.items| == 100 && !expired)
            && q'.items == (if outcome == Done then q.items + [f] else q.items)
            && (t in q'.pushers.asleep <==> outcome == Slept) && t !in q'.pushers.notified
            && OthersUnchanged(q.pushers, q'.pushers, t)
            && (if outcome == Done then OneNotified(q.poppers, q'.poppers) else q'.poppers == q.poppers)
  {
  }

  /** A pop takes the oldest frame exactly when there is one, gives up exactly on an empty queue after
      its deadline, and otherwise sleeps, unnotified. */
  lemma PopMeans(q: Queue, t: nat, expired: bool, choice: nat)
    requires Inv(q) && q.pushers.MayNotify(choice)
    ensures var (q', outcome) := PopStep(q, t, expired, choice);
            && (outcome.Popped? <==> q.items != [])
            && (outcome == PopTimedOut <==> q.items == [] && expired)
            && (outcome == PopSlept <==> q.items == [] && !expired)
            && q.items == (if outcome.Popped? then [outcome.frame] + q'.items else q'.items)
            && (t in q'.poppers.asleep <==> outcome == PopSlept) && t !in q'.poppers.notified
            && OthersUnchanged(q.poppers, q'.poppers, t)
            && (if outcome.Popped? then OneNotified(q.pushers, q'.pushers) else q'.pushers == q.pushers)
  {
  }

  /** Lock-held regions run by any number of pushing and popping threads, in any order. */
  datatype Region =
    | PushRegion(t: nat, frame: Frame, expired: bool, choice: nat)
    | PopRegion(t: nat, expired: bool, choice: nat)

  predicate Enabled(q: Queue, r: Region) {
    match r
    case PushRegion(t, _, expired, choice) => q.poppers.MayNotify(choice) && (expired ==> q.pushers.Has(t))
    case PopRegion(t, expired, choice) => q.pushers.MayNotify(choice) && (expired ==> q.poppers.Has(t))
  }

  function Apply(q: Queue, r: Region): Queue
    requires Enabled(q, r)
  {
    match r
    case PushRegion(t, f, expired, choice) => PushStep(q, t, f, expired, choice).0
    case PopRegion(t, expired, choice) => PopStep(q, t, expired, choice).0
  }

  predicate Valid(q: Queue, rs: seq<Region>)
    decreases |rs|
  {
    rs == [] || (Enabled(q, rs[0]) && Valid(Apply(q, rs[0]), rs[1..]))
  }

  function Final(q: Queue, rs: seq<Region>): Queue
    requires Valid(q, rs)
    decreases |rs|
  {
    if rs == [] then q else Final(Apply(q, rs[0]), rs[1..])
  }

  /** No schedule of any number of pushers and poppers, with spurious wake-ups and timeouts
      anywhere, loses a wake-up or overfills the queue. */
  lemma {:induction false} QueueRunsAreSafe(q: Queue, rs: seq<Region>)
    requires Inv(q) && Valid(q, rs)
    ensures Inv(Final(q, rs))
    decreases |rs|
  {
    if rs != [] {
      match rs[0] {
        case PushRegion(t, f, expired, choice) => PushKeepsInv(q, t, f, expired, choice);
        case PopRegion(t, expired, choice) => PopKeepsInv(q, t, expired, choice);
      }
      QueueRunsAreSafe(Apply(q, rs[0]), rs[1..]);
    }
  }

  /** The mutable queue; its methods are the lock-held regions. */
  class FrameQueue {
    var items: seq<Frame>
    var pushers: Waiters
    var poppers: Waiters

    function State(): Queue
      reads this
    {
      Queue(items, pushers, poppers)
    }

    constructor ()
      ensures State() == EMPTY && Inv(State())
    {
      items, pushers, poppers := [], NOBODY, NOBODY;
    }

    method Push(t: nat, f: Frame, expired: bool, choice: nat) returns (outcome: Attempt)
      requires Inv(State()) && poppers.MayNotify(choice)
      modifies this
      ensures (State(), outcome) == PushStep(old(State()), t, f, expired, choice)
      ensures Inv(State())
    {
      PushKeepsInv(State(), t, f, expired, choice);
      if |items| < MAX_SIZE {
        items := items + [f];
        pushers := pushers.Without(t);
        poppers := poppers.NotifyOne(choice);
        return Done;
      } else if expired {
        pushers := pushers.Without(t);
        return TimedOut;
      }
      pushers := pushers.Sleep(t);
      return Slept;
    }

    method Pop(t: nat, expired: bool, choice: nat) returns (outcome: Popped)
      requires Inv(State()) && pushers.MayNotify(choice)
      modifies this
      ensures (State(), outcome) == PopStep(old(State()), t, expired, choice)
      ensures Inv(State())
    {
      PopKeepsInv(State(), t, expired, choice);
      if |items| > 0 {
        outcome := Popped(items[0]);
        items := items[1..];
        poppers := poppers.Without(t);
        pushers := pushers.NotifyOne(choice);
        return;
      } else if expired {
        poppers := poppers.Without(t);
        return PopTimedOut;
      }
      poppers := poppers.Sleep(t);
      return PopSlept;
    }
  }
}
