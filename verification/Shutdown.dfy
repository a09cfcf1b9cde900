/** Shutdown: what sets the flag, and that once it is set every thread exits within a fixed number of
    its own steps, whatever the other threads do. */
module Shutdown {
  import opened Frames
  import opened Waiting
  import opened Pipeline
  import M = FrameMaps
  import Q = FrameQueues
  import L = Lanes
  import R = LaneRuns
  import Server

  datatype Thread = ProcessorOf(eye: Eye) | SenderOf(eye: Eye) | ReceiverOf(id: nat) | ClientOf(id: nat) | StatsThread

  function ProcessorRank(l: L.Lane): nat {
    match l.processor
    case ProcExited => 0
    case Crashed(_) => 0
    case ProcTop => 1
    case Inserting(_) => if l.store.inserters.Has(L.PROCESSOR) then 2 else 3
    case Loaded(_) => 4
    case Popping => if l.queue.poppers.Has(L.PROCESSOR) then 5 else 6
  }

  function SenderRank(l: L.Lane): nat {
    match l.sender
    case SendExited => 0
    case SendTop => 1
    case Decided => 2
    case SceneSent(_) => 3
    case Holding(_) => 4
    case Getting => if R.GetterParked(l) then 5 else 6
  }

  function ReceiverRank(r: Receiver): nat {
    match r
    case RecvExited => 0
    case RecvTop => 1
    case Failed => 2
    case InHandler => 3
    case Calling => 4
  }

  function ClientRank(s: State, c: nat): nat {
    if c !in s.clients then 0
    else
      match s.clients[c]
      case AtTop => 1
      case Broken => 1
      case Pushing(f) => if s.At(f.eye).queue.pushers.Has(c) then 2 else 3
      case Awaiting(_) => 4
      case Ticketed(_) => 5
      case Toggled(_) => 6
      case Entered => 7
  }

  function StatsRank(phase: StatsPhase): nat {
    match phase
    case StatsExited => 0
    case StatsTop => 1
    case LoadedBoth(_, _) => 2
    case LoadedOne(_, _) => 3
    case Counting => 4
  }

  function Rank(s: State, th: Thread): (n: nat)
    ensures n <= 7
  {
    match th
    case ProcessorOf(e) => ProcessorRank(s.At(e))
    case SenderOf(e) => SenderRank(s.At(e))
    case ReceiverOf(r) => if r in s.receivers then ReceiverRank(s.receivers[r]) else 0
    case ClientOf(c) => ClientRank(s, c)
    case StatsThread => StatsRank(s.stats.phase)
  }

  predicate Own(ev: Event, th: Thread) {
    match th
    case ProcessorOf(e) => ev.OfLane? && ev.eye == e && R.ProcessorAct(ev.step)
    case SenderOf(e) => ev.OfLane? && ev.eye == e && R.SenderAct(ev.step)
    case ReceiverOf(r) => ev.OfReceiver? && ev.receiver == r
    case ClientOf(c) => ev.OfClient? && ev.client == c
    case StatsThread => ev.OfStats?
  }

  /** The thread, already parked in a timed wait, wakes before its deadline, finds its condition still
      false and goes back to sleep. */
  predicate WakesInVain(l: L.Lane, a: L.Act) {
    || (a.Pop? && !a.expired && l.queue.poppers.Has(L.PROCESSOR) && l.queue.items == [])
    || (a.Insert? && !a.expired && l.store.inserters.Has(L.PROCESSOR) && |l.store.items| >= M.MAX_SIZE)
    || (a.Get? && !a.expired && R.GetterParked(l) && l.cursor !in l.store.items)
  }

  /** The same for a client that waits to push. */
  predicate ClientWakesInVain(s: State, c: nat, what: ClientAct) {
    && what.Push? && !what.expired && c in s.clients && s.clients[c].Pushing?
    && var q := s.At(s.clients[c].frame.eye).queue; q.pushers.Has(c) && |q.items| >= Q.MAX_SIZE
  }

  /** A step of the thread's own other than waking in vain. */
  predicate Advances(s: State, ev: Event, th: Thread) {
    && Own(ev, th)
    && (ev.OfLane? ==> !WakesInVain(s.At(ev.eye), ev.step))
    && (ev.OfClient? ==> !ClientWakesInVain(s, ev.client, ev.what))
  }

  lemma ProcessorStep(l: L.Lane, a: L.Act)
    requires L.Parked(l) && L.Enabled(l, a) && (a.CheckProcessor? ==> a.stop)
    ensures if R.ProcessorAct(a) && !WakesInVain(l, a) then ProcessorRank(L.Apply(l, a)) < ProcessorRank(l)
            else ProcessorRank(L.Apply(l, a)) == ProcessorRank(l)
  {
  }

  lemma GetStepRank(l: L.Lane, a: L.Act)
    requires L.Enabled(l, a) && a.Get?
    ensures if WakesInVain(l, a) then SenderRank(L.Apply(l, a)) == SenderRank(l) else SenderRank(L.Apply(l, a)) < SenderRank(l)
  {
  }

  /** Others' acts leave the sender's phase alone and may wake it, but not end its wait. */
  lemma OthersKeepSender(l: L.Lane, a: L.Act)
    requires L.Enabled(l, a) && !R.SenderAct(a)
    ensures L.Apply(l, a).sender == l.sender && R.GetterParked(L.Apply(l, a)) == R.GetterParked(l)
  {
  }

  lemma SenderStep(l: L.Lane, a: L.Act)
    requires L.Parked(l) && L.Enabled(l, a) && (a.CheckSender? ==> a.stop)
    ensures if R.SenderAct(a) && !WakesInVain(l, a) then SenderRank(L.Apply(l, a)) < SenderRank(l)
            else SenderRank(L.Apply(l, a)) == SenderRank(l)
  {
    if a.Get? {
      GetStepRank(l, a);
    } else if !R.SenderAct(a) {
      OthersKeepSender(l, a);
    } else {
      assert L.NextStore(l, a) == l.store;
    }
  }

  /** Every call on a lane that is not its own thread's is a client's. */
  lemma LaneRankStep(s: State, ev: Event, e: Eye)
    requires s.shutdown && L.Parked(s.At(e)) && Enabled(s, ev)
    ensures if Advances(s, ev, ProcessorOf(e)) then ProcessorRank(NextLane(s, ev, e)) < ProcessorRank(s.At(e))
            else ProcessorRank(NextLane(s, ev, e)) == ProcessorRank(s.At(e))
    ensures if Advances(s, ev, SenderOf(e)) then SenderRank(NextLane(s, ev, e)) < SenderRank(s.At(e))
            else SenderRank(NextLane(s, ev, e)) == SenderRank(s.At(e))
  {
    var call := CallOf(s, ev);
    if call.Call? && call.eye == e {
      ProcessorStep(s.At(e), call.act);
      SenderStep(s.At(e), call.act);
    }
  }

  lemma ServiceRankStep(s: State, ev: Event, th: Thread)
    requires s.shutdown && Enabled(s, ev) && (th.ReceiverOf? || th.StatsThread?)
    ensures if Advances(s, ev, th) then Rank(Apply(s, ev), th) < Rank(s, th) else Rank(Apply(s, ev), th) == Rank(s, th)
  {
  }

  /** Nobody else ends a client's wait. */
  lemma OthersKeepWaiting(s: State, ev: Event, c: nat, e: Eye)
    requires Enabled(s, ev) && !(ev.OfClient? && ev.client == c)
    ensures Apply(s, ev).At(e).queue.pushers.Has(c) == s.At(e).queue.pushers.Has(c)
  {
  }

  lemma ClientRankStep(s: State, ev: Event, c: nat)
    requires s.shutdown && Enabled(s, ev) && ev != Spawn(c)
    ensures if Advances(s, ev, ClientOf(c)) then ClientRank(Apply(s, ev), c) < ClientRank(s, c)
            else ClientRank(Apply(s, ev), c) == ClientRank(s, c)
  {
    if ev.OfClient? && ev.client == c {
      if ev.what.Push? {
        PushRankStep(s, c, ev.what);
      }
    } else {
      OthersKeepWaiting(s, ev, c, Left);
      OthersKeepWaiting(s, ev, c, Right);
    }
  }

  lemma PushRankStep(s: State, c: nat, what: ClientAct)
    requires Enabled(s, OfClient(c, what)) && what.Push?
    ensures var s' := Apply(s, OfClient(c, what));
            if ClientWakesInVain(s, c, what) then ClientRank(s', c) == ClientRank(s, c)
            else ClientRank(s', c) < ClientRank(s, c)
  {
  }

  predicate ThreadsParked(s: State) {
    L.Parked(s.left) && L.Parked(s.right)
  }

  lemma ParkedStep(s: State, ev: Event)
    requires ThreadsParked(s) && Enabled(s, ev)
    ensures ThreadsParked(Apply(s, ev))
  {
    var call := CallOf(s, ev);
    if call.Call? {
      L.StepKeepsParked(s.At(call.eye), call.act);
    }
  }

  lemma RankStep(s: State, ev: Event, th: Thread)
    requires s.shutdown && ThreadsParked(s) && Enabled(s, ev) && !Begins(ev, th)
    ensures Apply(s, ev).shutdown
    ensures if Advances(s, ev, th) then Rank(Apply(s, ev), th) < Rank(s, th) else Rank(Apply(s, ev), th) == Rank(s, th)
  {
    if th.ProcessorOf? || th.SenderOf? {
      LaneRankStep(s, ev, th.eye);
      assert Apply(s, ev).At(th.eye) == NextLane(s, ev, th.eye);
    } else if th.ClientOf? {
      ClientRankStep(s, ev, th.id);
    } else {
      ServiceRankStep(s, ev, th);
    }
  }

  /** The event starts the thread; only clients are started during a run. */
  predicate Begins(ev: Event, th: Thread) {
    th.ClientOf? && ev == Spawn(th.id)
  }

  lemma BeginRank(s: State, ev: Event, th: Thread)
    requires Enabled(s, ev) && Begins(ev, th)
    ensures Rank(s, th) == 0 && Rank(Apply(s, ev), th) == 1 && Apply(s, ev).shutdown == s.shutdown
  {
  }

  /** Own steps are paid for with rank, and a start brings one unit of it. */
  lemma RankPays(s: State, ev: Event, th: Thread)
    requires s.shutdown && ThreadsParked(s) && Enabled(s, ev)
    ensures Apply(s, ev).shutdown
    ensures (if Advances(s, ev, th) then 1 else 0) + Rank(Apply(s, ev), th)
         <= Rank(s, th) + if Begins(ev, th) then 1 else 0
  {
    if Begins(ev, th) {
      BeginRank(s, ev, th);
    } else {
      RankStep(s, ev, th);
    }
  }

  function CountBegins(run: seq<Event>, th: Thread): nat {
    if run == [] then 0 else (if Begins(run[0], th) then 1 else 0) + CountBegins(run[1..], th)
  }

  function CountAdvances(s: State, run: seq<Event>, th: Thread): nat
    requires Valid(s, run)
    decreases |run|
  {
    if run == [] then 0
    else (if Advances(s, run[0], th) then 1 else 0) + CountAdvances(Apply(s, run[0]), run[1..], th)
  }

  /** After shutdown is requested the flag stays set, and no interleaving lets a thread take more
      than seven steps of its own, not counting wake-ups in vain; when it has no rank left it has
      exited. A client that is only started then gets one step, in which it exits. */
  lemma {:induction false} ShutdownIsBounded(s: State, run: seq<Event>, th: Thread)
    requires ThreadsParked(s) && s.shutdown && Valid(s, run)
    ensures Final(s, run).shutdown
    ensures CountAdvances(s, run, th) + Rank(Final(s, run), th) <= Rank(s, th) + CountBegins(run, th)
    ensures Rank(s, th) <= 7
    decreases |run|
  {
    if run != [] {
      ParkedStep(s, run[0]);
      RankPays(s, run[0], th);
      ShutdownIsBounded(Apply(s, run[0]), run[1..], th);
    }
  }

  ghost function NextProcessorAct(l: L.Lane, stop: bool): (a: L.Act)
    requires ProcessorRank(l) > 0
    ensures L.Enabled(l, a) && R.ProcessorAct(a) && !WakesInVain(l, a) && (a.CheckProcessor? ==> a.stop == stop)
  {
    match l.processor
    case ProcTop => L.CheckProcessor(stop)
    case Popping => L.Pop(l.queue.poppers.Has(L.PROCESSOR), R.Anyone(l.queue.pushers))
    case Loaded(_) => L.Convert
    case Inserting(_) => L.Insert(l.store.inserters.Has(L.PROCESSOR))
  }

  /** Until it has exited, a thread always has a step other than waking in vain: at worst the end of
      its timed wait. Under shutdown, such a step brings it closer to its exit. */
  lemma ThreadsNeverStall(s: State, th: Thread) returns (ev: Event)
    requires Rank(s, th) > 0
    requires th.ClientOf? ==> s.left.eye == Left && s.right.eye == Right && Server.FreshFrames(s)
    ensures Enabled(s, ev) && Advances(s, ev, th)
  {
    match th {
      case ProcessorOf(e) => ev := OfLane(e, NextProcessorAct(s.At(e), s.shutdown));
      case SenderOf(e) => ev := OfLane(e, R.NextSenderAct(s.At(e), s.shutdown));
      case ReceiverOf(r) =>
        ev := OfReceiver(r, match s.receivers[r]
                            case RecvTop => CheckOuter
                            case InHandler => CheckInner
                            case Calling => Receive(Packet)
                            case _ => RequestStop);
      case ClientOf(c) => ev := OfClient(c, NextClientAct(s, c));
      case StatsThread =>
        ev := OfStats(match s.stats.phase
                      case StatsTop => StatsCheck
                      case Counting => LoadFirst(Left)
                      case LoadedOne(_, _) => LoadSecond
                      case _ => Log);
    }
  }

  /** No client is ever stuck either: with a frame in hand it can always enter the queue's lock, and
      once asleep there its wait can end. */
  lemma ClientsNeverStall(run: seq<Event>, c: nat) returns (what: ClientAct)
    requires Valid(INIT, run) && c in Final(INIT, run).clients
    ensures Enabled(Final(INIT, run), OfClient(c, what))
    ensures what.Push? && what.expired ==> !NextPhase(Final(INIT, run), c, what).Pushing?
    ensures what.Push? && !what.expired ==> !PushersOf(Final(INIT, run), c).Has(c)
  {
    Server.EveryRunIsSafe(run);
    what := NextClientAct(Final(INIT, run), c);
  }

  function PushersOf(s: State, c: nat): Waiters
    requires c in s.clients && s.clients[c].Pushing?
  {
    s.At(s.clients[c].frame.eye).queue.pushers
  }

  ghost function NextClientAct(s: State, c: nat): (what: ClientAct)
    requires c in s.clients && s.left.eye == Left && s.right.eye == Right && Server.FreshFrames(s)
    ensures Enabled(s, OfClient(c, what))
    ensures what.Push? && what.expired ==> !NextPhase(s, c, what).Pushing?
    ensures what.Push? && !what.expired ==> !PushersOf(s, c).Has(c)
  {
    match s.clients[c]
    case AtTop => Check
    case Broken => Leave
    case Entered => Toggle
    case Toggled(_) => Take
    case Ticketed(_) => Send(true)
    case Awaiting(_) => Fail
    case Pushing(f) => Push(PushersOf(s, c).Has(c), R.Anyone(s.At(f.eye).queue.poppers))
  }

  /** Rank zero means exited. */
  lemma RankZeroIsExited(s: State, e: Eye)
    requires L.Fifo(s.At(e))
    ensures Rank(s, ProcessorOf(e)) == 0 <==> s.At(e).processor.ProcExited?
    ensures Rank(s, SenderOf(e)) == 0 <==> s.At(e).sender.SendExited?
    ensures forall r :: r in s.receivers ==> (Rank(s, ReceiverOf(r)) == 0 <==> s.receivers[r].RecvExited?)
    ensures forall c :: Rank(s, ClientOf(c)) == 0 <==> c !in s.clients
    ensures Rank(s, StatsThread) == 0 <==> s.stats.phase.StatsExited?
  {
  }

  // ---- What starts and what follows a shutdown ----

  /** The frames an eye has taken, counting the get that is under way as one more. */
  function Claim(l: L.Lane): nat {
    R.Taken(l) + if l.sender.Getting? then 1 else 0
  }

  lemma ClaimStep(s: State, ev: Event, e: Eye)
    requires s.shutdown && Enabled(s, ev)
    ensures Apply(s, ev).shutdown && Claim(Apply(s, ev).At(e)) <= Claim(s.At(e))
  {
  }

  /** After shutdown an eye takes at most one more frame, and none unless its get is under way. */
  lemma {:induction false} AtMostOneMoreFrame(s: State, run: seq<Event>, e: Eye)
    requires s.shutdown && Valid(s, run)
    ensures R.Taken(Final(s, run).At(e)) <= Claim(Final(s, run).At(e)) <= Claim(s.At(e))
    decreases |run|
  {
    if run != [] {
      ClaimStep(s, run[0], e);
      AtMostOneMoreFrame(Apply(s, run[0]), run[1..], e);
    }
  }

  /** The two events that store into the flag. */
  predicate SetsFlag(ev: Event) {
    ev.Signal? || (ev.OfReceiver? && ev.poll.RequestStop?)
  }

  /** In every run from every state, the flag is set at the end exactly when it was set before or some
      event of the run set it. */
  lemma {:induction false} FlagIsSetExactlyByStores(s: State, run: seq<Event>)
    requires Valid(s, run)
    ensures Final(s, run).shutdown <==> s.shutdown || exists i :: 0 <= i < |run| && SetsFlag(run[i])
    decreases |run|
  {
    if run != [] {
      FlagIsSetExactlyByStores(Apply(s, run[0]), run[1..]);
      assert forall i :: 0 < i < |run| ==> run[i] == run[1..][i - 1];
      assert forall i :: 0 <= i < |run| - 1 ==> run[1..][i] == run[i + 1];
    }
  }

  predicate BadCode(ev: Event, r: nat) {
    ev.OfReceiver? && ev.receiver == r && ev.poll.Receive? && (ev.poll.code.Flushed? || ev.poll.code.OtherError?)
  }

  /** No event of the run is the thread's own or starts it. */
  predicate Idle(run: seq<Event>, th: Thread) {
    forall i :: 0 <= i < |run| ==> !Own(run[i], th) && !Begins(run[i], th)
  }

  lemma {:induction false} IdleReceiverStays(s: State, run: seq<Event>, r: nat)
    requires Valid(s, run) && Idle(run, ReceiverOf(r)) && r in s.receivers
    ensures r in Final(s, run).receivers && Final(s, run).receivers[r] == s.receivers[r]
    decreases |run|
  {
    if run != [] {
      IdleReceiverStays(Apply(s, run[0]), run[1..], r);
    }
  }

  /** After a failed or flushed encoder the receiver's next own step, whenever it comes, sets the flag. */
  lemma FailureStopsTheServer(s: State, bad: Event, between: seq<Event>, next: Event, r: nat)
    requires Enabled(s, bad) && BadCode(bad, r) && Valid(Apply(s, bad), between) && Idle(between, ReceiverOf(r))
    requires Own(next, ReceiverOf(r)) && Enabled(Final(Apply(s, bad), between), next)
    ensures SetsFlag(next) && Apply(Final(Apply(s, bad), between), next).shutdown
  {
    IdleReceiverStays(Apply(s, bad), between, r);
  }

  /** The receiver's last own event was a bad code. */
  predicate EndsBadly(run: seq<Event>, r: nat) {
    exists i :: 0 <= i < |run| && BadCode(run[i], r) && Idle(run[i + 1..], ReceiverOf(r))
  }

  lemma EndsBadlyTail(run: seq<Event>, r: nat)
    requires run != []
    ensures EndsBadly(run, r) <==> (BadCode(run[0], r) && Idle(run[1..], ReceiverOf(r))) || EndsBadly(run[1..], r)
  {
    var tail := run[1..];
    if EndsBadly(tail, r) {
      var i :| 0 <= i < |tail| && BadCode(tail[i], r) && Idle(tail[i + 1..], ReceiverOf(r));
      assert run[i + 1] == tail[i] && run[i + 1 + 1..] == tail[i + 1..];
    }
    if EndsBadly(run, r) {
      var i :| 0 <= i < |run| && BadCode(run[i], r) && Idle(run[i + 1..], ReceiverOf(r));
      if i > 0 {
        assert tail[i - 1] == run[i] && tail[i - 1 + 1..] == run[i + 1..];
      }
    }
  }

  lemma IdleTail(run: seq<Event>, th: Thread)
    requires run != []
    ensures Idle(run, th) <==> !Own(run[0], th) && !Begins(run[0], th) && Idle(run[1..], th)
  {
    assert forall i :: 0 < i < |run| ==> run[i] == run[1..][i - 1];
    assert forall i :: 0 <= i < |run| - 1 ==> run[1..][i] == run[i + 1];
  }

  lemma {:induction false} FailedReceivers(s: State, run: seq<Event>, r: nat)
    requires Valid(s, run) && r in s.receivers && !Final(s, run).shutdown
    ensures r in Final(s, run).receivers
    ensures Final(s, run).receivers[r].Failed? <==> (s.receivers[r].Failed? && Idle(run, ReceiverOf(r))) || EndsBadly(run, r)
    decreases |run|
  {
    if run != [] {
      FlagIsSetExactlyByStores(s, run);
      FailedReceivers(Apply(s, run[0]), run[1..], r);
      EndsBadlyTail(run, r);
      IdleTail(run, ReceiverOf(r));
    }
  }

  /** While the flag is clear, a receiver can set it if and only if its last own event was a failed or
      flushed encoder. */
  lemma StopRequestsHaveACause(run: seq<Event>, r: nat)
    requires Valid(INIT, run) && r < 4 && !Final(INIT, run).shutdown
    ensures Enabled(Final(INIT, run), OfReceiver(r, RequestStop)) <==> EndsBadly(run, r)
  {
    FailedReceivers(INIT, run, r);
  }

  /** A signal, or an encoder that fails or is flushed. */
  predicate Stops(ev: Event) {
    ev.Signal? || (ev.OfReceiver? && ev.poll.Receive? && (ev.poll.code.Flushed? || ev.poll.code.OtherError?))
  }

  predicate Running(s: State) {
    !s.shutdown && forall r :: r in s.receivers ==> !s.receivers[r].Failed? && !s.receivers[r].RecvExited?
  }

  /** Without such a cause the flag stays clear. */
  lemma {:induction false} OnlyCausesStopTheServer(s: State, run: seq<Event>)
    requires Running(s) && Valid(s, run) && forall i :: 0 <= i < |run| ==> !Stops(run[i])
    ensures Running(Final(s, run))
    decreases |run|
  {
    if run != [] {
      OnlyCausesStopTheServer(Apply(s, run[0]), run[1..]);
    }
  }

  /** Clients that have passed the shutdown check but not yet taken a ticket. */
  function Committed(s: State): set<nat> {
    set c | c in s.clients && (s.clients[c].Entered? || s.clients[c].Toggled?)
  }

  lemma CommittedStep(s: State, ev: Event)
    requires Enabled(s, ev) && s.shutdown
    ensures Committed(Apply(s, ev)) == if ev.OfClient? && ev.what.Take? then Committed(s) - {ev.client} else Committed(s)
    ensures ev.OfClient? && ev.what.Take? ==> ev.client in Committed(s)
  {
  }

  /** After shutdown is requested, new tickets go only to clients that had already passed the check. */
  lemma {:induction false} RequestsDryUp(s: State, run: seq<Event>)
    requires s.shutdown && Valid(s, run)
    ensures var s' := Final(s, run);
            s'.left.issued + s'.right.issued + |Committed(s')| == s.left.issued + s.right.issued + |Committed(s)|
    decreases |run|
  {
    if run != [] {
      CommittedStep(s, run[0]);
      Server.IssuedStep(s, run[0], Left);
      Server.IssuedStep(s, run[0], Right);
      RequestsDryUp(Apply(s, run[0]), run[1..]);
    }
  }
}
