/** Conservation: every ticket ever issued is in exactly one place. */
module Custody {
  import opened Frames
  import opened Waiting
  import L = Lanes
  import M = FrameMaps
  import P = Pipeline

  /** A place inside one lane. Queue slots and submissions are numbered from the start of the run. */
  datatype Spot = QueueSlot(n: nat) | WithProcessor | MapKey(key: nat) | WithSender | SubmittedAs(n: nat)

  datatype Holder = WithClient(client: nat) | InLane(eye: Eye, spot: Spot) | LostTo(cause: Cause)

  predicate InSpot(l: L.Lane, p: Spot, t: Ticket) {
    match p
    case QueueSlot(n) => |l.popped| <= n < |l.pushed| && l.pushed[n].ticket == t
    case WithProcessor =>
      (l.processor.Loaded? || l.processor.Inserting? || l.processor.Crashed?) && l.processor.frame.ticket == t
    case MapKey(k) => k in l.store.items && l.store.items[k].ticket == t
    case WithSender => l.sender.Holding? && l.sender.frame.ticket == t
    case SubmittedAs(n) => n < |l.scene| && l.scene[n].ticket == t
  }

  predicate Carries(c: P.Client, t: Ticket) {
    ((c.Ticketed? || c.Awaiting?) && c.ticket == t) || (c.Pushing? && c.frame.ticket == t)
  }

  predicate Holds(s: P.State, h: Holder, t: Ticket) {
    match h
    case WithClient(c) => c in s.clients && Carries(s.clients[c], t)
    case InLane(e, p) => InSpot(s.At(e), p, t)
    case LostTo(cause) => t in s.lost && s.lost[t] == cause
  }

  predicate Issued(s: P.State, t: Ticket) {
    t.number < s.At(t.eye).issued
  }

  /** Exactly the issued tickets are held, each by exactly one holder. */
  ghost predicate Conserved(s: P.State) {
    && (forall t :: Issued(s, t) ==> exists h :: Holds(s, h, t))
    && (forall h, t :: Holds(s, h, t) ==> Issued(s, t))
    && (forall t, h, h' :: Holds(s, h, t) && Holds(s, h', t) ==> h == h')
  }

  // ---- Where a step moves things, inside a lane ----

  datatype Fate = Stays(spot: Spot) | Dropped(cause: Cause)

  function Goes(l: L.Lane, a: L.Act, p: Spot): Fate
    requires L.Enabled(l, a)
  {
    match a
    case Pop(_, _) =>
      if l.queue.items != [] && p == QueueSlot(|l.popped|) then Stays(WithProcessor) else Stays(p)
    case Insert(expired) =>
      if p != WithProcessor then Stays(p)
      else if |l.store.items| < M.MAX_SIZE then
        if l.processor.frame.index in l.store.items then Dropped(DuplicateKey) else Stays(MapKey(l.processor.frame.index))
      else if expired then Dropped(MapTimeout) else Stays(p)
    case Get(_, _) =>
      if !p.MapKey? || l.cursor !in l.store.items then Stays(p)
      else if p.key == l.cursor then Stays(WithSender)
      else if p.key in M.Stale(l.store.items, l.cursor) then Dropped(Purged)
      else Stays(p)
    case SubmitScene => if p == WithSender then Stays(SubmittedAs(|l.scene|)) else Stays(p)
    case _ => Stays(p)
  }

  predicate Lands(l: L.Lane, a: L.Act, p: Spot, t: Ticket)
    requires L.Enabled(l, a)
  {
    match Goes(l, a, p)
    case Stays(p') => InSpot(L.Apply(l, a), p', t)
    case Dropped(cause) => t in L.Losses(l, a) && L.Losses(l, a)[t] == cause
  }

  lemma MapForward(l: L.Lane, a: L.Act, p: Spot, t: Ticket)
    requires L.Enabled(l, a) && (a.Insert? || a.Get?) && InSpot(l, p, t)
    ensures Lands(l, a, p, t)
  {
    if a.Get? && p.MapKey? && l.cursor in l.store.items && p.key in M.Stale(l.store.items, l.cursor) {
      assert t in L.Tickets(l.store.items, M.Stale(l.store.items, l.cursor));
    }
  }

  lemma QueueForward(l: L.Lane, a: L.Act, p: Spot, t: Ticket)
    requires L.Fifo(l) && L.Enabled(l, a) && (a.Accept? || a.Pop?) && InSpot(l, p, t)
    ensures Lands(l, a, p, t)
  {
  }

  lemma LaneForward(l: L.Lane, a: L.Act, p: Spot, t: Ticket)
    requires L.Fifo(l) && L.Enabled(l, a) && InSpot(l, p, t)
    ensures Lands(l, a, p, t)
  {
    if a.Insert? || a.Get? {
      MapForward(l, a, p, t);
    } else if a.Accept? || a.Pop? {
      QueueForward(l, a, p, t);
    }
  }

  /** The spot a push fills. */
  predicate Arrives(l: L.Lane, a: L.Act, p': Spot, t: Ticket)
    requires L.Enabled(l, a)
  {
    a.Accept? && L.Accepted(l, a) == Done && p' == QueueSlot(|l.pushed|) && t == a.frame.ticket
  }

  lemma MapBackward(l: L.Lane, a: L.Act, p': Spot, t: Ticket) returns (p: Spot)
    requires L.Enabled(l, a) && (a.Insert? || a.Get?) && InSpot(L.Apply(l, a), p', t)
    ensures InSpot(l, p, t) && Goes(l, a, p) == Stays(p')
  {
    if a.Insert? {
      return if p'.MapKey? && p'.key !in l.store.items then WithProcessor else p';
    } else {
      return if p' == WithSender then MapKey(l.cursor) else p';
    }
  }

  lemma LaneBackward(l: L.Lane, a: L.Act, p': Spot, t: Ticket) returns (p: Spot)
    requires L.Fifo(l) && L.Enabled(l, a) && InSpot(L.Apply(l, a), p', t)
    ensures (InSpot(l, p, t) && Goes(l, a, p) == Stays(p')) || Arrives(l, a, p', t)
  {
    if a.Insert? || a.Get? {
      p := MapBackward(l, a, p', t);
    } else if a.Pop? && p' == WithProcessor {
      p := QueueSlot(|l.popped|);
    } else if a.SubmitScene? && p' == SubmittedAs(|l.scene|) {
      p := WithSender;
    } else {
      p := p';
    }
  }

  lemma LossBackward(l: L.Lane, a: L.Act, t: Ticket) returns (p: Spot)
    requires L.Enabled(l, a) && !a.Accept? && t in L.Losses(l, a)
    ensures InSpot(l, p, t) && Goes(l, a, p) == Dropped(L.Losses(l, a)[t])
  {
    if a.Insert? {
      p := WithProcessor;
    } else {
      var stale := M.Stale(l.store.items, l.cursor);
      assert t in L.Tickets(l.store.items, stale);
      var k :| k in stale && l.store.items[k].ticket == t;
      p := MapKey(k);
    }
  }

  // ---- Where a step moves things, in the whole server ----

  function GoesTo(s: P.State, ev: P.Event, h: Holder): Holder
    requires P.Enabled(s, ev)
  {
    match h
    case InLane(e, p) =>
      var call := P.CallOf(s, ev);
      if call.Call? && call.eye == e then
        match Goes(s.At(e), call.act, p)
        case Stays(p') => InLane(e, p')
        case Dropped(cause) => LostTo(cause)
      else h
    case WithClient(c) => if ev.OfClient? && ev.client == c then ClientGoes(s, c, ev.what) else h
    case LostTo(_) => h
  }

  function ClientGoes(s: P.State, c: nat, what: P.ClientAct): Holder
    requires P.Enabled(s, P.OfClient(c, what))
  {
    match what
    case Send(ok) => if ok then WithClient(c) else LostTo(SocketFailure)
    case Fail => LostTo(SocketFailure)
    case Push(_, _) =>
      var call := P.CallOf(s, P.OfClient(c, what));
      (match L.Accepted(s.At(call.eye), call.act)
       case Done => InLane(call.eye, QueueSlot(|s.At(call.eye).pushed|))
       case Slept => WithClient(c)
       case TimedOut => LostTo(QueueTimeout))
    case _ => WithClient(c)
  }

  ghost predicate LanesFifo(s: P.State) {
    L.Fifo(s.left) && L.Fifo(s.right)
  }

  ghost predicate Unique(s: P.State, t: Ticket) {
    forall h, h' :: Holds(s, h, t) && Holds(s, h', t) ==> h == h'
  }

  predicate IssuesNow(s: P.State, ev: P.Event, t: Ticket)
    requires P.Enabled(s, ev)
  {
    var call := P.CallOf(s, ev);
    call.Call? && call.act.Issue? && t == Ticket(call.eye, s.At(call.eye).issued)
  }

  /** A loss comes out of a lane spot or out of the hands of the acting client. */
  lemma WhoLost(s: P.State, ev: P.Event, t: Ticket) returns (h: Holder)
    requires P.Enabled(s, ev) && t in P.NewLosses(s, ev)
    ensures Holds(s, h, t) && GoesTo(s, ev, h) == LostTo(P.NewLosses(s, ev)[t])
  {
    var call := P.CallOf(s, ev);
    if call.Call? && !call.act.Accept? {
      var p := LossBackward(s.At(call.eye), call.act, t);
      h := InLane(call.eye, p);
    } else {
      h := WithClient(ev.client);
    }
  }

  lemma ClientForward(s: P.State, c: nat, what: P.ClientAct, t: Ticket)
    requires LanesFifo(s) && P.Enabled(s, P.OfClient(c, what)) && Carries(s.clients[c], t)
    ensures Holds(P.Apply(s, P.OfClient(c, what)), ClientGoes(s, c, what), t)
  {
  }

  /** Everything held before a step is held after it, where `GoesTo` says. */
  lemma Forward(s: P.State, ev: P.Event, h: Holder, t: Ticket)
    requires LanesFifo(s) && Unique(s, t) && P.Enabled(s, ev) && Holds(s, h, t)
    ensures Holds(P.Apply(s, ev), GoesTo(s, ev, h), t)
  {
    var call := P.CallOf(s, ev);
    match h {
      case InLane(e, p) =>
        if call.Call? && call.eye == e {
          LaneForward(s.At(e), call.act, p, t);
        }
      case WithClient(c) =>
        if ev.OfClient? && ev.client == c {
          ClientForward(s, c, ev.what, t);
        }
      case LostTo(_) =>
        if t in P.NewLosses(s, ev) {
          var h' := WhoLost(s, ev, t);
        }
    }
  }

  lemma ClientBackward(s: P.State, c: nat, what: P.ClientAct, t: Ticket)
    requires P.Enabled(s, P.OfClient(c, what)) && Holds(P.Apply(s, P.OfClient(c, what)), WithClient(c), t)
    ensures IssuesNow(s, P.OfClient(c, what), t) || (Carries(s.clients[c], t) && ClientGoes(s, c, what) == WithClient(c))
  {
  }

  /** Everything held after a step was held before it and moved there, except a ticket just issued. */
  lemma Backward(s: P.State, ev: P.Event, h': Holder, t: Ticket) returns (h: Holder)
    requires LanesFifo(s) && P.Enabled(s, ev) && Holds(P.Apply(s, ev), h', t)
    ensures (Holds(s, h, t) && GoesTo(s, ev, h) == h') || (IssuesNow(s, ev, t) && h' == WithClient(ev.client))
  {
    h := h';
    var call := P.CallOf(s, ev);
    match h' {
      case InLane(e, p') =>
        if call.Call? && call.eye == e {
          if Arrives(s.At(e), call.act, p', t) {
            h := WithClient(ev.client);
          } else {
            var p := LaneBackward(s.At(e), call.act, p', t);
            h := InLane(e, p);
          }
        }
      case WithClient(c) =>
        if ev.OfClient? && ev.client == c {
          ClientBackward(s, c, ev.what, t);
        }
      case LostTo(_) =>
        if t in P.NewLosses(s, ev) {
          h := WhoLost(s, ev, t);
        }
    }
  }

  lemma IssuedStep(s: P.State, ev: P.Event, t: Ticket)
    requires P.Enabled(s, ev)
    ensures Issued(P.Apply(s, ev), t) <==> Issued(s, t) || IssuesNow(s, ev, t)
  {
  }

  lemma StepConserves(s: P.State, ev: P.Event)
    requires LanesFifo(s) && Conserved(s) && P.Enabled(s, ev)
    ensures Conserved(P.Apply(s, ev))
  {
    var s' := P.Apply(s, ev);
    forall t
      ensures Issued(s', t) <==> Issued(s, t) || IssuesNow(s, ev, t)
    {
      IssuedStep(s, ev, t);
    }
    forall t | Issued(s', t)
      ensures exists h :: Holds(s', h, t)
    {
      if Issued(s, t) {
        var h :| Holds(s, h, t);
        Forward(s, ev, h, t);
      } else {
        assert Holds(s', WithClient(ev.client), t);
      }
    }
    forall h', t | Holds(s', h', t)
      ensures Issued(s', t)
    {
      var h := Backward(s, ev, h', t);
    }
    forall t, h1, h2 | Holds(s', h1, t) && Holds(s', h2, t)
      ensures h1 == h2
    {
      var b1 := Backward(s, ev, h1, t);
      var b2 := Backward(s, ev, h2, t);
    }
  }

  lemma InitConserved()
    ensures Conserved(P.INIT)
  {
  }
}
