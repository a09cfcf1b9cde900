/** The order in which clients, packet receivers and the statistics thread take their steps: for any two
    consecutive steps of a thread, whatever happens in between, which second step is possible. */
module ProgramOrder {
  import opened Pipeline
  import opened Shutdown
  import Driving

  lemma {:induction false} IdleThreadStays(s: State, run: seq<Event>, r: nat, c: nat)
    requires Valid(s, run)
    ensures Idle(run, ReceiverOf(r)) && r in s.receivers ==>
              r in Final(s, run).receivers && Final(s, run).receivers[r] == s.receivers[r]
    ensures Idle(run, ClientOf(c)) ==> (c in s.clients <==> c in Final(s, run).clients)
    ensures Idle(run, ClientOf(c)) && c in s.clients ==> Final(s, run).clients[c] == s.clients[c]
    ensures Idle(run, StatsThread) ==> Final(s, run).stats == s.stats
    decreases |run|
  {
    if run != [] {
      IdleTail(run, ReceiverOf(r));
      IdleTail(run, ClientOf(c));
      IdleTail(run, StatsThread);
      IdleThreadStays(Apply(s, run[0]), run[1..], r, c);
    }
  }

  // ---- Packet receivers ----

  /** What may follow a step taken while the shutdown flag was `stop`. */
  predicate ReceiverFollows(first: ReceiverAct, stop: bool, second: ReceiverAct) {
    match first
    case CheckOuter => !stop && second == CheckInner
    case CheckInner => if stop then second == RequestStop else second.Receive?
    case Receive(Again) => second == CheckInner
    case Receive(Packet) => second == CheckOuter
    case Receive(_) => second == RequestStop
    case RequestStop => second == CheckOuter
  }

  lemma ReceiverOrder(s: State, r: nat, first: ReceiverAct, between: seq<Event>, second: ReceiverAct)
    requires Enabled(s, OfReceiver(r, first)) && Valid(Apply(s, OfReceiver(r, first)), between)
    requires Idle(between, ReceiverOf(r))
    ensures Enabled(Final(Apply(s, OfReceiver(r, first)), between), OfReceiver(r, second))
       <==> ReceiverFollows(first, s.shutdown, second)
  {
    IdleThreadStays(Apply(s, OfReceiver(r, first)), between, r, 0);
  }

  // ---- The statistics thread ----

  predicate StatsFollows(first: StatsAct, stop: bool, second: StatsAct) {
    match first
    case StatsCheck => !stop && second.LoadFirst?
    case LoadFirst(_) => second == LoadSecond
    case LoadSecond => second == Log
    case Log => second == StatsCheck
  }

  lemma StatsOrder(s: State, first: StatsAct, between: seq<Event>, second: StatsAct)
    requires Enabled(s, OfStats(first)) && Valid(Apply(s, OfStats(first)), between) && Idle(between, StatsThread)
    ensures Enabled(Final(Apply(s, OfStats(first)), between), OfStats(second)) <==> StatsFollows(first, s.shutdown, second)
  {
    IdleThreadStays(Apply(s, OfStats(first)), between, 0, 0);
  }

  function CountTicks(run: seq<Event>): nat {
    if run == [] then 0 else (if run[0] == OfStats(Log) then 1 else 0) + CountTicks(run[1..])
  }

  /** The thread has completed `n` ticks. */
  predicate Ticked(st: Stats, n: nat) {
    && |st.logged| == n / 10
    && st.seconds == n % 10 + if st.phase.StatsTop? || st.phase.StatsExited? then 0 else 1
  }

  lemma {:induction false} TicksAdd(s: State, run: seq<Event>, n: nat)
    requires Valid(s, run) && Ticked(s.stats, n)
    ensures Ticked(Final(s, run).stats, n + CountTicks(run))
    decreases |run|
  {
    if run != [] {
      TicksAdd(Apply(s, run[0]), run[1..], n + if run[0] == OfStats(Log) then 1 else 0);
    }
  }

  /** Every tenth completed tick, and no other, logs a difference. */
  lemma EveryTenthTickIsLogged(run: seq<Event>)
    requires Valid(INIT, run)
    ensures |Final(INIT, run).stats.logged| == CountTicks(run) / 10
  {
    TicksAdd(INIT, run, 0);
  }

  // ---- Clients ----

  /** The push of the client's frame does not end: the queue has its hundred frames and the deadline
      has not passed. */
  predicate PushWaits(s: State, c: nat, what: ClientAct)
    requires c in s.clients
  {
    what.Push? && s.clients[c].Pushing? && |s.At(s.clients[c].frame.eye).queue.items| >= 100 && !what.expired
  }

  /** What may follow a step taken while the shutdown flag was `stop`; `waits` marks a push that goes to
      sleep. */
  predicate ClientFollows(first: ClientAct, stop: bool, waits: bool, second: ClientAct) {
    match first
    case Check => !stop && second == Toggle
    case Leave => false
    case Toggle => second == Take
    case Take => second.Send?
    case Send(ok) => if ok then second.Reply? || second == Fail else second == Leave
    case Reply(_, _) => second.Push?
    case Fail => second == Check
    case Push(_, _) => if waits then second.Push? else second == Check
  }

  lemma ClientOrder(s: State, c: nat, first: ClientAct, between: seq<Event>, second: ClientAct)
    requires Enabled(s, OfClient(c, first)) && Valid(Apply(s, OfClient(c, first)), between)
    requires Idle(between, ClientOf(c))
    ensures Ready(Final(Apply(s, OfClient(c, first)), between), OfClient(c, second))
       <==> ClientFollows(first, s.shutdown, PushWaits(s, c, first), second)
  {
    IdleThreadStays(Apply(s, OfClient(c, first)), between, 0, c);
  }

  lemma NewClientsCheckFirst(s: State, c: nat, between: seq<Event>, what: ClientAct)
    requires Enabled(s, Spawn(c)) && Valid(Apply(s, Spawn(c)), between) && Idle(between, ClientOf(c))
    ensures Ready(Final(Apply(s, Spawn(c)), between), OfClient(c, what)) <==> what == Check
  {
    IdleThreadStays(Apply(s, Spawn(c)), between, 0, c);
  }

  /** A client whose send failed only leaves: no ticket is ever taken under its name again, unless a new
      client gets that name. */
  lemma {:induction false} BrokenClientsOnlyLeave(s: State, run: seq<Event>, c: nat)
    requires Valid(s, run) && (c in s.clients ==> s.clients[c].Broken?)
    requires forall i :: 0 <= i < |run| ==> run[i] != Spawn(c)
    ensures forall i :: 0 <= i < |run| && run[i].OfClient? && run[i].client == c ==> run[i].what == Leave
    ensures c in Final(s, run).clients ==> Final(s, run).clients[c].Broken?
    decreases |run|
  {
    if run != [] {
      BrokenClientsOnlyLeave(Apply(s, run[0]), run[1..], c);
      assert forall i :: 0 < i < |run| ==> run[i] == run[1..][i - 1];
    }
  }

  lemma FailedSendEndsTheClient(s: State, run: seq<Event>, c: nat)
    requires Enabled(s, OfClient(c, Send(false))) && Valid(Apply(s, OfClient(c, Send(false))), run)
    requires forall i :: 0 <= i < |run| ==> run[i] != Spawn(c)
    ensures forall i :: 0 <= i < |run| ==> run[i] != OfClient(c, Take)
  {
    BrokenClientsOnlyLeave(Apply(s, OfClient(c, Send(false))), run, c);
  }

  /** A client whose reply failed, or whose push timed out, goes on: while the flag is clear it can take
      the next ticket and ask again at once. */
  lemma FailedReplyIsRetried(s: State, c: nat, what: ClientAct) returns (run: seq<Event>)
    requires Enabled(s, OfClient(c, what)) && !s.shutdown
    requires what == Fail || (what.Push? && what.expired)
    ensures var s' := Apply(s, OfClient(c, what));
            && Valid(s', run) && c in Final(s', run).clients
            && Final(s', run).clients[c] == Awaiting(Driving.NextTicket(s'))
  {
    run := Driving.Request(Apply(s, OfClient(c, what)), c);
  }
}
