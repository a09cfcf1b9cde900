/** Pieces from which runs of the whole server are built. */
module Driving {
  import opened Frames
  import opened Pipeline
  import L = Lanes
  import R = LaneRuns
  import Q = FrameQueues
  import Echo
  import Shutdown

  // ---- Runs in which nothing goes wrong ----

  /** No connection breaks, no encoder fails and nobody asks for shutdown. */
  predicate Harmless(ev: Event) {
    !Shutdown.Stops(ev) && (ev.OfClient? ==> ev.what != Send(false) && ev.what != Fail)
  }

  /** A harmless step in which renderers answer what they were asked and no frame is lost. */
  predicate CleanStep(s: State, ev: Event)
    requires Enabled(s, ev)
  {
    Harmless(ev) && Echo.EchoStep(s, ev) && NewLosses(s, ev) == map[]
  }

  predicate Clean(s: State, run: seq<Event>)
    requires Valid(s, run)
    decreases |run|
  {
    run == [] || (CleanStep(s, run[0]) && Clean(Apply(s, run[0]), run[1..]))
  }

  lemma {:induction false} CleanMeans(s: State, run: seq<Event>)
    requires Valid(s, run) && Clean(s, run)
    ensures Echo.Echoing(s, run) && Final(s, run).lost == s.lost
    ensures forall i :: 0 <= i < |run| ==> Harmless(run[i])
    decreases |run|
  {
    if run != [] {
      CleanMeans(Apply(s, run[0]), run[1..]);
      assert forall i :: 0 < i < |run| ==> run[i] == run[1..][i - 1];
    }
  }

  lemma {:induction false} Join(s: State, first: seq<Event>, second: seq<Event>)
    requires Valid(s, first) && Valid(Final(s, first), second)
    ensures Valid(s, first + second) && Final(s, first + second) == Final(Final(s, first), second)
    ensures Clean(s, first) && Clean(Final(s, first), second) ==> Clean(s, first + second)
    decreases |first|
  {
    if first == [] {
      assert first + second == second;
    } else {
      Join(Apply(s, first[0]), first[1..], second);
      assert (first + second)[1..] == first[1..] + second;
    }
  }

  lemma One(s: State, ev: Event)
    requires Enabled(s, ev)
    ensures Valid(s, [ev]) && Final(s, [ev]) == Apply(s, ev)
    ensures Clean(s, [ev]) <==> CleanStep(s, ev)
  {
    assert [ev][1..] == [];
  }

  // ---- A lane's own threads ----

  /** Everything that steps of a lane's own threads leave alone. */
  predicate SameOutside(s: State, s': State, e: Eye) {
    && s'.clients == s.clients && s'.isLeft == s.isLeft && s'.shutdown == s.shutdown
    && s'.At(e.Other()) == s.At(e.Other())
  }

  lemma LaneEvent(s: State, e: Eye, a: L.Act)
    requires R.Own(a, s.shutdown) && L.Enabled(s.At(e), a)
    ensures var ev := OfLane(e, a);
            && Enabled(s, ev) && (CleanStep(s, ev) <==> L.Losses(s.At(e), a) == map[])
            && Apply(s, ev).At(e) == L.Apply(s.At(e), a) && SameOutside(s, Apply(s, ev), e)
  {
  }

  /** A run of a lane's own threads is a run of the server. */
  lemma {:induction false} Lift(s: State, e: Eye, acts: seq<L.Act>) returns (run: seq<Event>)
    requires L.Valid(s.At(e), acts) && forall i :: 0 <= i < |acts| ==> R.Own(acts[i], s.shutdown)
    ensures Valid(s, run) && (R.Lossless(s.At(e), acts) ==> Clean(s, run))
    ensures Final(s, run).At(e) == L.Final(s.At(e), acts) && SameOutside(s, Final(s, run), e)
    decreases |acts|
  {
    run := [];
    if acts != [] {
      var ev := OfLane(e, acts[0]);
      LaneEvent(s, e, acts[0]);
      var rest := Lift(Apply(s, ev), e, acts[1..]);
      One(s, ev);
      Join(s, [ev], rest);
      run := [ev] + rest;
    }
  }

  // ---- One request of a client ----

  /** The eye whose turn it is. */
  function Turn(s: State): Eye {
    if s.isLeft then Left else Right
  }

  /** The lane of an eye once the next ticket is taken. */
  function Ticketing(s: State, e: Eye): L.Lane {
    if e == Turn(s) then s.At(e).(issued := s.At(e).issued + 1) else s.At(e)
  }

  function NextTicket(s: State): Ticket {
    Ticket(Turn(s), s.At(Turn(s)).issued)
  }

  lemma PassCheck(s: State, c: nat) returns (run: seq<Event>)
    requires c in s.clients && s.clients[c].AtTop? && !s.shutdown
    ensures Valid(s, run) && Clean(s, run)
    ensures var s' := Final(s, run);
            && s'.clients == s.clients[c := Toggled(Turn(s))] && !s'.shutdown && s'.isLeft == !s.isLeft
            && s'.left == s.left && s'.right == s.right
  {
    var s1 := Apply(s, OfClient(c, Check));
    One(s, OfClient(c, Check));
    One(s1, OfClient(c, Toggle));
    Join(s, [OfClient(c, Check)], [OfClient(c, Toggle)]);
    run := [OfClient(c, Check)] + [OfClient(c, Toggle)];
  }

  lemma TakeTicket(s: State, c: nat, e: Eye)
    requires c in s.clients && s.clients[c] == Toggled(e)
    ensures var ev := OfClient(c, Take);
            && Enabled(s, ev) && CleanStep(s, ev)
            && var s' := Apply(s, ev);
               && s'.clients == s.clients[c := Ticketed(Ticket(e, s.At(e).issued))]
               && s'.shutdown == s.shutdown && s'.isLeft == s.isLeft
               && s'.At(e) == s.At(e).(issued := s.At(e).issued + 1) && s'.At(e.Other()) == s.At(e.Other())
  {
  }

  lemma SendRequest(s: State, c: nat, t: Ticket)
    requires c in s.clients && s.clients[c] == Ticketed(t)
    ensures var ev := OfClient(c, Send(true));
            && Enabled(s, ev) && CleanStep(s, ev)
            && var s' := Apply(s, ev);
               && s'.clients == s.clients[c := Awaiting(t)] && s'.shutdown == s.shutdown && s'.isLeft == s.isLeft
               && s'.left == s.left && s'.right == s.right
  {
  }

  /** The client takes a ticket of the eye whose turn it is and sends the request. */
  lemma Request(s: State, c: nat) returns (run: seq<Event>)
    requires c in s.clients && s.clients[c].AtTop? && !s.shutdown
    ensures Valid(s, run) && Clean(s, run)
    ensures var s' := Final(s, run);
            && s'.clients == s.clients[c := Awaiting(NextTicket(s))] && !s'.shutdown && s'.isLeft == !s.isLeft
            && s'.left == Ticketing(s, Left) && s'.right == Ticketing(s, Right)
  {
    var e := Turn(s);
    run := PassCheck(s, c);
    var s1 := Final(s, run);
    TakeTicket(s1, c, e);
    One(s1, OfClient(c, Take));
    Join(s, run, [OfClient(c, Take)]);
    run := run + [OfClient(c, Take)];
    var s2 := Final(s, run);
    SendRequest(s2, c, NextTicket(s));
    One(s2, OfClient(c, Send(true)));
    Join(s, run, [OfClient(c, Send(true))]);
    run := run + [OfClient(c, Send(true))];
  }

  /** The push of frame `f` by client `c` that wakes some waiting processor. */
  ghost function PushOf(l: L.Lane, c: nat, f: Frame): L.Act {
    L.Accept(c, f, false, R.Anyone(l.queue.poppers))
  }

  lemma HearReply(s: State, c: nat, t: Ticket, index: nat, e: Eye)
    requires c in s.clients && s.clients[c] == Awaiting(t)
    ensures var ev := OfClient(c, Reply(index, e));
            && Enabled(s, ev) && (t == Ticket(e, index) ==> CleanStep(s, ev))
            && var s' := Apply(s, ev);
               && s'.clients == s.clients[c := Pushing(Frame(t, index, e, false))]
               && s'.shutdown == s.shutdown && s'.isLeft == s.isLeft && s'.left == s.left && s'.right == s.right
  {
  }

  lemma PushFrame(s: State, c: nat, f: Frame)
    requires c in s.clients && s.clients[c] == Pushing(f) && !f.converted
    requires s.At(f.eye).eye == f.eye && |s.At(f.eye).queue.items| < Q.MAX_SIZE
    ensures var a := PushOf(s.At(f.eye), c, f);
            var ev := OfClient(c, Push(false, a.choice));
            && L.Enabled(s.At(f.eye), a) && Enabled(s, ev) && CleanStep(s, ev)
            && var s' := Apply(s, ev);
               && s'.clients == s.clients[c := AtTop] && s'.shutdown == s.shutdown && s'.isLeft == s.isLeft
               && s'.At(f.eye) == L.Apply(s.At(f.eye), a) && s'.At(f.eye.Other()) == s.At(f.eye.Other())
  {
  }

  /** A renderer answers and the client pushes the frame into a queue that has room. */
  lemma Answer(s: State, c: nat, t: Ticket, index: nat, e: Eye) returns (run: seq<Event>)
    requires c in s.clients && s.clients[c] == Awaiting(t)
    requires s.At(e).eye == e && |s.At(e).queue.items| < Q.MAX_SIZE
    ensures Valid(s, run) && (t == Ticket(e, index) ==> Clean(s, run))
    ensures var a, s' := PushOf(s.At(e), c, Frame(t, index, e, false)), Final(s, run);
            && s'.clients == s.clients[c := AtTop] && s'.shutdown == s.shutdown && s'.isLeft == s.isLeft
            && L.Enabled(s.At(e), a) && s'.At(e) == L.Apply(s.At(e), a) && s'.At(e.Other()) == s.At(e.Other())
  {
    var hear := OfClient(c, Reply(index, e));
    HearReply(s, c, t, index, e);
    One(s, hear);
    var s1 := Apply(s, hear);
    PushFrame(s1, c, Frame(t, index, e, false));
    var push := OfClient(c, Push(false, PushOf(s1.At(e), c, Frame(t, index, e, false)).choice));
    One(s1, push);
    Join(s, [hear], [push]);
    run := [hear] + [push];
  }

  /** One whole turn of a client: it takes a ticket, and a reply for eye `e` arrives and is pushed. */
  lemma Serve(s: State, c: nat, index: nat, e: Eye) returns (run: seq<Event>)
    requires c in s.clients && s.clients[c].AtTop? && !s.shutdown
    requires s.At(e).eye == e && |s.At(e).queue.items| < Q.MAX_SIZE
    ensures Valid(s, run) && (NextTicket(s) == Ticket(e, index) ==> Clean(s, run))
    ensures var l, f, s' := Ticketing(s, e), Frame(NextTicket(s), index, e, false), Final(s, run);
            && s'.clients == s.clients && !s'.shutdown && s'.isLeft == !s.isLeft
            && L.Enabled(l, PushOf(l, c, f)) && s'.At(e) == L.Apply(l, PushOf(l, c, f))
            && s'.At(e.Other()) == Ticketing(s, e.Other())
  {
    var ask := Request(s, c);
    var answer := Answer(Final(s, ask), c, NextTicket(s), index, e);
    Join(s, ask, answer);
    run := ask + answer;
  }
}
