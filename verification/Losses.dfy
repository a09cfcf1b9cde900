/** Why a ticket is lost: each loss has exactly one kind of event as its cause. */
module Losses {
  import opened Frames
  import opened Pipeline
  import L = Lanes
  import C = Custody
  import Server

  /** The event, happening in state `s`, destroys ticket `t` for the given cause. */
  predicate Explains(s: State, ev: Event, t: Ticket, cause: Cause) {
    match cause
    case SocketFailure =>
      && ev.OfClient? && ev.client in s.clients
      && (|| (ev.what == Send(false) && s.clients[ev.client] == Ticketed(t))
          || (ev.what == Fail && s.clients[ev.client] == Awaiting(t)))
    case QueueTimeout =>
      && ev.OfClient? && ev.client in s.clients && s.clients[ev.client].Pushing?
      && s.clients[ev.client].frame.ticket == t && ev.what.Push? && ev.what.expired
      && var q := s.At(s.clients[ev.client].frame.eye).queue; |q.items| == 100 && q.pushers.Has(ev.client)
    case MapTimeout =>
      && Inserts(s, ev, t) && ev.step.expired
      && |s.At(ev.eye).store.items| == 100 && s.At(ev.eye).store.inserters.Has(L.PROCESSOR)
    case DuplicateKey =>
      && Inserts(s, ev, t)
      && |s.At(ev.eye).store.items| < 100 && s.At(ev.eye).processor.frame.index in s.At(ev.eye).store.items
    case Purged =>
      && ev.OfLane? && ev.step.Get?
      && var l := s.At(ev.eye);
         && l.cursor in l.store.items && l.cursor % 1000 == 0
         && exists k :: k in l.store.items && k < l.cursor && l.store.items[k].ticket == t
  }

  predicate Inserts(s: State, ev: Event, t: Ticket) {
    ev.OfLane? && ev.step.Insert? && s.At(ev.eye).processor.Inserting? && s.At(ev.eye).processor.frame.ticket == t
  }

  predicate InLost(lost: map<Ticket, Cause>, t: Ticket, cause: Cause) {
    t in lost && lost[t] == cause
  }

  lemma LaneLossesAreExplained(s: State, ev: Event, t: Ticket, cause: Cause)
    requires Enabled(s, ev) && ev.OfLane? && L.Bounded(s.At(ev.eye))
    ensures InLost(NewLosses(s, ev), t, cause) <==> Explains(s, ev, t, cause)
  {
  }

  lemma ClientLossesAreExplained(s: State, ev: Event, t: Ticket, cause: Cause)
    requires Enabled(s, ev) && ev.OfClient? && L.Bounded(s.left) && L.Bounded(s.right)
    ensures InLost(NewLosses(s, ev), t, cause) <==> Explains(s, ev, t, cause)
  {
  }

  lemma NewLossesAreExplained(s: State, ev: Event, t: Ticket, cause: Cause)
    requires Enabled(s, ev) && L.Bounded(s.left) && L.Bounded(s.right)
    ensures InLost(NewLosses(s, ev), t, cause) <==> Explains(s, ev, t, cause)
  {
    if ev.OfLane? {
      LaneLossesAreExplained(s, ev, t, cause);
    } else if ev.OfClient? {
      ClientLossesAreExplained(s, ev, t, cause);
    }
  }

  /** Nothing is lost twice. */
  lemma LossesStay(s: State, ev: Event, t: Ticket)
    requires Enabled(s, ev) && C.Unique(s, t) && t in s.lost
    ensures t in NewLosses(s, ev) ==> NewLosses(s, ev)[t] == s.lost[t]
  {
    if t in NewLosses(s, ev) {
      var h := C.WhoLost(s, ev, t);
      assert C.Holds(s, C.LostTo(s.lost[t]), t);
    }
  }

  lemma LossStep(s: State, ev: Event, t: Ticket, cause: Cause)
    requires Enabled(s, ev) && L.Bounded(s.left) && L.Bounded(s.right) && C.Unique(s, t)
    ensures InLost(Apply(s, ev).lost, t, cause) <==> InLost(s.lost, t, cause) || Explains(s, ev, t, cause)
  {
    NewLossesAreExplained(s, ev, t, cause);
    if t in s.lost {
      LossesStay(s, ev, t);
    }
  }

  /** Some event of the run destroyed the ticket for that cause. */
  predicate Happened(s: State, run: seq<Event>, t: Ticket, cause: Cause)
    requires Valid(s, run)
    decreases |run|
  {
    run != [] && (Explains(s, run[0], t, cause) || Happened(Apply(s, run[0]), run[1..], t, cause))
  }

  lemma {:induction false} LossesAddUp(s: State, run: seq<Event>, t: Ticket, cause: Cause)
    requires Server.Inv(s) && Valid(s, run)
    ensures InLost(Final(s, run).lost, t, cause) <==> InLost(s.lost, t, cause) || Happened(s, run, t, cause)
    decreases |run|
  {
    if run != [] {
      Server.StepKeepsInv(s, run[0]);
      LossStep(s, run[0], t, cause);
      LossesAddUp(Apply(s, run[0]), run[1..], t, cause);
    }
  }

  /** In every run from start-up a ticket is recorded as lost, with its cause, if and only if an event of
      the run explains it. */
  lemma LossesAreExplained(run: seq<Event>, t: Ticket, cause: Cause)
    requires Valid(INIT, run)
    ensures InLost(Final(INIT, run).lost, t, cause) <==> Happened(INIT, run, t, cause)
  {
    Server.InitInv();
    LossesAddUp(INIT, run, t, cause);
  }
}
