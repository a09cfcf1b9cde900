/** The whole server as a transition system: any number of socket clients, two lanes, the packet
    receivers, the statistics thread and the shutdown flag. An event is one atomic step of one
    thread; every interleaving of events is a run. */
module Pipeline {
  import opened Frames
  import opened Waiting
  import opened Words
  import L = Lanes

  datatype Client =
    | AtTop
    | Broken
    | Entered
    | Toggled(eye: Eye)
    | Ticketed(ticket: Ticket)
    | Awaiting(ticket: Ticket)
    | Pushing(frame: Frame)

  datatype Receiver = RecvTop | InHandler | Calling | Failed | RecvExited

  datatype Code = Again | Packet | Flushed | OtherError

  datatype StatsPhase =
    | StatsTop
    | Counting
    | LoadedOne(first: Eye, value: nat)
    | LoadedBoth(left: nat, right: nat)
    | StatsExited

  /** `previous` is the thread's own variable; `seenLeft` and `seenRight` are the counter values
      behind it, and `logged` the differences it reported. */
  datatype Stats = Stats(phase: StatsPhase, seconds: nat, previous: nat, seenLeft: nat, seenRight: nat, logged: seq<nat>)

  datatype State = State(
    isLeft: bool,
    toggles: nat,
    shutdown: bool,
    clients: map<nat, Client>,
    left: L.Lane,
    right: L.Lane,
    lost: map<Ticket, Cause>,
    receivers: map<nat, Receiver>,
    stats: Stats)
  {
    function At(e: Eye): L.Lane {
      if e == Left then left else right
    }
  }

  const INIT := State(
    false, 0, false, map[], L.Init(Left), L.Init(Right), map[],
    map[0 := RecvTop, 1 := RecvTop, 2 := RecvTop, 3 := RecvTop],
    Stats(StatsTop, 0, 0, 0, 0, []))

  datatype ClientAct =
    | Check
    | Leave
    | Toggle
    | Take
    | Send(ok: bool)
    | Reply(index: nat, eye: Eye)
    | Fail
    | Push(expired: bool, choice: nat)

  datatype ReceiverAct = CheckOuter | CheckInner | Receive(code: Code) | RequestStop

  datatype StatsAct = StatsCheck | LoadFirst(first: Eye) | LoadSecond | Log

  datatype Event =
    | Spawn(client: nat)
    | OfClient(client: nat, what: ClientAct)
    | OfLane(eye: Eye, step: L.Act)
    | OfReceiver(receiver: nat, poll: ReceiverAct)
    | OfStats(tick: StatsAct)
    | Signal

  /** The act, if any, that an event performs on a lane. */
  datatype Call = NoCall | Call(eye: Eye, act: L.Act)

  predicate ClientReady(s: State, c: nat, what: ClientAct) {
    c in s.clients &&
    match what
    case Check => s.clients[c].AtTop?
    case Leave => s.clients[c].Broken?
    case Toggle => s.clients[c].Entered?
    case Take => s.clients[c].Toggled?
    case Send(_) => s.clients[c].Ticketed?
    case Reply(_, _) => s.clients[c].Awaiting?
    case Fail => s.clients[c].Awaiting?
    case Push(_, _) => s.clients[c].Pushing?
  }

  predicate ReceiverReady(s: State, r: nat, poll: ReceiverAct) {
    r in s.receivers &&
    match poll
    case CheckOuter => s.receivers[r].RecvTop?
    case CheckInner => s.receivers[r].InHandler?
    case Receive(_) => s.receivers[r].Calling?
    case RequestStop => s.receivers[r].Failed?
  }

  predicate StatsReady(s: State, tick: StatsAct) {
    match tick
    case StatsCheck => s.stats.phase.StatsTop?
    case LoadFirst(_) => s.stats.phase.Counting?
    case LoadSecond => s.stats.phase.LoadedOne?
    case Log => s.stats.phase.LoadedBoth?
  }

  /** The acting thread is at the right program point. A lane's own threads never touch the ticket
      counter or push, and they read the shutdown flag as it is. */
  predicate Ready(s: State, ev: Event) {
    match ev
    case Spawn(c) => c !in s.clients
    case OfClient(c, what) => ClientReady(s, c, what)
    case OfLane(_, a) =>
      && !a.Issue? && !a.Accept?
      && (a.CheckProcessor? || a.CheckSender? ==> a.stop == s.shutdown)
    case OfReceiver(r, poll) => ReceiverReady(s, r, poll)
    case OfStats(tick) => StatsReady(s, tick)
    case Signal => true
  }

  function CallOf(s: State, ev: Event): Call
    requires Ready(s, ev)
  {
    match ev
    case OfLane(e, a) => Call(e, a)
    case OfClient(c, Take) => Call(s.clients[c].eye, L.Issue)
    case OfClient(c, Push(expired, choice)) =>
      Call(s.clients[c].frame.eye, L.Accept(c, s.clients[c].frame, expired, choice))
    case _ => NoCall
  }

  predicate Enabled(s: State, ev: Event) {
    Ready(s, ev) && var call := CallOf(s, ev); call.Call? ==> L.Enabled(s.At(call.eye), call.act)
  }

  function NextPhase(s: State, c: nat, what: ClientAct): Client
    requires Enabled(s, OfClient(c, what))
  {
    match what
    case Check => Entered
    case Leave => Broken
    case Toggle => Toggled(if s.isLeft then Left else Right)
    case Take => Ticketed(Ticket(s.clients[c].eye, s.At(s.clients[c].eye).issued))
    case Send(ok) => if ok then Awaiting(s.clients[c].ticket) else Broken
    case Reply(index, eye) => Pushing(Frame(s.clients[c].ticket, index, eye, false))
    case Fail => AtTop
    case Push(_, _) =>
      var call := CallOf(s, OfClient(c, what));
      if L.Accepted(s.At(call.eye), call.act) == Slept then s.clients[c] else AtTop
  }

  /** A client leaves at the top of its loop when shutdown was requested, or after a failed send. */
  function NextClients(s: State, ev: Event): map<nat, Client>
    requires Enabled(s, ev)
  {
    match ev
    case Spawn(c) => s.clients[c := AtTop]
    case OfClient(c, what) =>
      if what == Leave || (what == Check && s.shutdown) then s.clients - {c} else s.clients[c := NextPhase(s, c, what)]
    case _ => s.clients
  }

  function NextLane(s: State, ev: Event, e: Eye): L.Lane
    requires Enabled(s, ev)
  {
    var call := CallOf(s, ev);
    if call.Call? && call.eye == e then L.Apply(s.At(e), call.act) else s.At(e)
  }

  /** The tickets that the event loses. */
  function NewLosses(s: State, ev: Event): map<Ticket, Cause>
    requires Enabled(s, ev)
  {
    var call := CallOf(s, ev);
    if call.Call? then L.Losses(s.At(call.eye), call.act)
    else if ev.OfClient? && (ev.what == Send(false) || ev.what == Fail) then map[s.clients[ev.client].ticket := SocketFailure]
    else map[]
  }

  function NextReceiver(s: State, poll: ReceiverAct): Receiver {
    match poll
    case CheckOuter => if s.shutdown then RecvExited else InHandler
    case CheckInner => if s.shutdown then Failed else Calling
    case Receive(code) => (match code case Again => InHandler case Packet => RecvTop case _ => Failed)
    case RequestStop => RecvTop
  }

  const LOG_INTERVAL: nat := 10

  function NextStats(s: State, tick: StatsAct): Stats
    requires StatsReady(s, tick)
  {
    var st := s.stats;
    match tick
    case StatsCheck => if s.shutdown then st.(phase := StatsExited) else st.(phase := Counting, seconds := st.seconds + 1)
    case LoadFirst(e) => st.(phase := LoadedOne(e, s.At(e).issued))
    case LoadSecond =>
      var v, w := st.phase.value, s.At(st.phase.first.Other()).issued;
      st.(phase := if st.phase.first == Left then LoadedBoth(v, w) else LoadedBoth(w, v))
    case Log =>
      var current := U64(st.phase.left + st.phase.right);
      if st.seconds == LOG_INTERVAL
      then Stats(StatsTop, 0, current, st.phase.left, st.phase.right, st.logged + [U64(current - st.previous)])
      else st.(phase := StatsTop)
  }

  predicate Toggles(ev: Event) {
    ev.OfClient? && ev.what.Toggle?
  }

  function Apply(s: State, ev: Event): State
    requires Enabled(s, ev)
  {
    State(
      if Toggles(ev) then !s.isLeft else s.isLeft,
      if Toggles(ev) then s.toggles + 1 else s.toggles,
      s.shutdown || ev.Signal? || (ev.OfReceiver? && ev.poll.RequestStop?),
      NextClients(s, ev),
      NextLane(s, ev, Left),
      NextLane(s, ev, Right),
      s.lost + NewLosses(s, ev),
      if ev.OfReceiver? then s.receivers[ev.receiver := NextReceiver(s, ev.poll)] else s.receivers,
      if ev.OfStats? then NextStats(s, ev.tick) else s.stats)
  }

  predicate Valid(s: State, run: seq<Event>)
    decreases |run|
  {
    run == [] || (Enabled(s, run[0]) && Valid(Apply(s, run[0]), run[1..]))
  }

  function Final(s: State, run: seq<Event>): State
    requires Valid(s, run)
    decreases |run|
  {
    if run == [] then s else Final(Apply(s, run[0]), run[1..])
  }

  // ---- Every run of the server is, seen from one eye, a run of that lane ----

  function Project(s: State, ev: Event, e: Eye): seq<L.Act>
    requires Enabled(s, ev)
  {
    var call := CallOf(s, ev);
    if call.Call? && call.eye == e then [call.act] else []
  }

  function ProjectRun(s: State, run: seq<Event>, e: Eye): seq<L.Act>
    requires Valid(s, run)
    decreases |run|
  {
    if run == [] then [] else Project(s, run[0], e) + ProjectRun(Apply(s, run[0]), run[1..], e)
  }

  lemma ProjectStep(s: State, ev: Event, e: Eye)
    requires Enabled(s, ev)
    ensures L.Valid(s.At(e), Project(s, ev, e))
    ensures Apply(s, ev).At(e) == L.Final(s.At(e), Project(s, ev, e))
  {
  }

  lemma {:induction false} RunIsLaneRun(s: State, run: seq<Event>, e: Eye)
    requires Valid(s, run)
    ensures L.Valid(s.At(e), ProjectRun(s, run, e))
    ensures Final(s, run).At(e) == L.Final(s.At(e), ProjectRun(s, run, e))
    decreases |run|
  {
    if run != [] {
      var s' := Apply(s, run[0]);
      ProjectStep(s, run[0], e);
      RunIsLaneRun(s', run[1..], e);
      var first, rest := Project(s, run[0], e), ProjectRun(s', run[1..], e);
      if first == [] {
        assert first + rest == rest;
      } else {
        assert (first + rest)[1..] == rest && first[1..] == [];
      }
    }
  }
}
