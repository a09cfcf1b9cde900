/** Renderers that answer the request they were given: then an index names its ticket, and the map's
    duplicate-key drop never happens. */
module Echo {
  import opened Frames
  import opened Pipeline
  import L = Lanes
  import C = Custody
  import Server

  predicate LaneEchoes(l: L.Lane) {
    && (forall i :: 0 <= i < |l.pushed| ==> l.pushed[i].Echoes())
    && (l.processor.Loaded? || l.processor.Inserting? ==> l.processor.frame.Echoes())
    && (forall k :: k in l.store.items ==> l.store.items[k].Echoes())
    && (l.sender.Holding? || l.sender.SceneSent? ==> l.sender.frame.Echoes())
    && (forall i :: 0 <= i < |l.scene| ==> l.scene[i].Echoes())
  }

  predicate Faithful(s: State) {
    && LaneEchoes(s.left) && LaneEchoes(s.right)
    && (forall c :: c in s.clients && s.clients[c].Pushing? ==> s.clients[c].frame.Echoes())
    && (forall t :: t in s.lost ==> s.lost[t] != DuplicateKey)
  }

  /** Every reply of the run carries the index and the eye that were asked for. */
  predicate Echoing(s: State, run: seq<Event>)
    requires Valid(s, run)
    decreases |run|
  {
    run == [] || (EchoStep(s, run[0]) && Echoing(Apply(s, run[0]), run[1..]))
  }

  predicate EchoStep(s: State, ev: Event)
    requires Enabled(s, ev)
  {
    ev.OfClient? && ev.what.Reply? ==> Ticket(ev.what.eye, ev.what.index) == s.clients[ev.client].ticket
  }

  lemma QueueActKeepsEchoes(l: L.Lane, a: L.Act)
    requires L.Fifo(l) && LaneEchoes(l) && L.Enabled(l, a) && (a.Accept? ==> a.frame.Echoes())
    requires a.Accept? || a.Pop?
    ensures LaneEchoes(L.Apply(l, a))
  {
    if a.Pop? && l.queue.items != [] {
      assert l.queue.items[0] == l.pushed[|l.popped|];
    }
  }

  lemma MapActKeepsEchoes(l: L.Lane, a: L.Act)
    requires LaneEchoes(l) && L.Enabled(l, a) && (a.Insert? || a.Get?)
    ensures LaneEchoes(L.Apply(l, a))
  {
  }

  lemma LaneKeepsEchoes(l: L.Lane, a: L.Act)
    requires L.Fifo(l) && LaneEchoes(l) && L.Enabled(l, a) && (a.Accept? ==> a.frame.Echoes())
    ensures LaneEchoes(L.Apply(l, a))
  {
    if a.Accept? || a.Pop? {
      QueueActKeepsEchoes(l, a);
    } else if a.Insert? || a.Get? {
      MapActKeepsEchoes(l, a);
    }
  }

  /** Two frames with the same index would be one ticket in two places. */
  lemma SameIndexSameTicket(l: L.Lane)
    requires L.Fifo(l) && L.Tagged(l) && LaneEchoes(l) && l.processor.Inserting?
    requires l.processor.frame.index in l.store.items
    ensures C.InSpot(l, C.WithProcessor, l.processor.frame.ticket)
    ensures C.InSpot(l, C.MapKey(l.processor.frame.index), l.processor.frame.ticket)
  {
    var f := l.processor.frame;
    assert L.Stored(l, f.index, l.store.items[f.index]);
    assert f.eye == l.pushed[|l.popped| - 1].eye == l.eye by {
      assert f == MarkAll(l.popped)[|l.popped| - 1];
      assert l.pushed[|l.popped| - 1] == l.popped[|l.popped| - 1];
    }
  }

  lemma NoDuplicate(s: State, e: Eye, expired: bool)
    requires C.Conserved(s) && L.Fifo(s.At(e)) && L.Tagged(s.At(e)) && LaneEchoes(s.At(e))
    requires L.Enabled(s.At(e), L.Insert(expired))
    ensures s.At(e).processor.frame.index !in s.At(e).store.items
  {
    var l := s.At(e);
    if l.processor.frame.index in l.store.items {
      SameIndexSameTicket(l);
      assert C.Holds(s, C.InLane(e, C.WithProcessor), l.processor.frame.ticket);
      assert C.Holds(s, C.InLane(e, C.MapKey(l.processor.frame.index)), l.processor.frame.ticket);
      assert false;
    }
  }

  lemma OtherLosses(l: L.Lane, a: L.Act, t: Ticket)
    requires L.Enabled(l, a) && (a.Insert? ==> l.processor.frame.index !in l.store.items) && t in L.Losses(l, a)
    ensures L.Losses(l, a)[t] != DuplicateKey
  {
  }

  lemma LossesAreNotDuplicates(s: State, ev: Event, t: Ticket)
    requires Enabled(s, ev) && t in NewLosses(s, ev) && C.Conserved(s)
    requires forall e: Eye :: L.Fifo(s.At(e)) && L.Tagged(s.At(e)) && LaneEchoes(s.At(e))
    ensures NewLosses(s, ev)[t] != DuplicateKey
  {
    var call := CallOf(s, ev);
    if call.Call? {
      if call.act.Insert? {
        NoDuplicate(s, call.eye, call.act.expired);
      }
      OtherLosses(s.At(call.eye), call.act, t);
    }
  }

  lemma ClientsStayFaithful(s: State, ev: Event)
    requires Faithful(s) && Enabled(s, ev) && EchoStep(s, ev)
    ensures forall c :: c in NextClients(s, ev) && NextClients(s, ev)[c].Pushing? ==> NextClients(s, ev)[c].frame.Echoes()
  {
  }

  lemma LaneStaysFaithful(s: State, ev: Event, e: Eye)
    requires L.Fifo(s.At(e)) && Faithful(s) && Enabled(s, ev)
    ensures LaneEchoes(NextLane(s, ev, e))
  {
    var call := CallOf(s, ev);
    if call.Call? && call.eye == e {
      LaneKeepsEchoes(s.At(e), call.act);
    }
  }

  lemma StepKeepsFaithful(s: State, ev: Event)
    requires C.Conserved(s) && L.Fifo(s.left) && L.Fifo(s.right) && L.Tagged(s.left) && L.Tagged(s.right)
    requires Faithful(s) && Enabled(s, ev) && EchoStep(s, ev)
    ensures Faithful(Apply(s, ev))
  {
    forall t | t in NewLosses(s, ev)
      ensures NewLosses(s, ev)[t] != DuplicateKey
    {
      LossesAreNotDuplicates(s, ev, t);
    }
    ClientsStayFaithful(s, ev);
    LaneStaysFaithful(s, ev, Left);
    LaneStaysFaithful(s, ev, Right);
  }

  lemma {:induction false} RunKeepsFaithful(s: State, run: seq<Event>)
    requires Server.Inv(s) && Faithful(s) && Valid(s, run) && Echoing(s, run)
    ensures Faithful(Final(s, run))
    decreases |run|
  {
    if run != [] {
      StepKeepsFaithful(s, run[0]);
      Server.StepKeepsInv(s, run[0]);
      RunKeepsFaithful(Apply(s, run[0]), run[1..]);
    }
  }

  /** With echoing renderers no frame is ever dropped for a duplicate key, and every submitted frame
      answers the ticket with its own eye and index. */
  lemma EchoingRunsHaveNoDuplicates(run: seq<Event>)
    requires Valid(INIT, run) && Echoing(INIT, run)
    ensures var s := Final(INIT, run);
            && (forall t :: t in s.lost ==> s.lost[t] != DuplicateKey)
            && (forall e: Eye, i :: 0 <= i < |s.At(e).scene| ==> s.At(e).scene[i].ticket == Ticket(e, s.At(e).scene[i].index))
  {
    Server.InitInv();
    RunKeepsFaithful(INIT, run);
    forall e: Eye, i | 0 <= i < |Final(INIT, run).At(e).scene|
      ensures Final(INIT, run).At(e).scene[i].ticket == Ticket(e, Final(INIT, run).At(e).scene[i].index)
    {
      Server.EveryLaneIsSafe(run, e);
      SubmittedAnswersItsTicket(Final(INIT, run).At(e), i);
    }
  }

  lemma SubmittedAnswersItsTicket(l: L.Lane, i: nat)
    requires L.Tagged(l) && LaneEchoes(l) && i < |l.scene|
    ensures l.scene[i].ticket == Ticket(l.eye, l.scene[i].index)
  {
  }

  /** The frame at a place of a lane. */
  predicate FrameIn(l: L.Lane, p: C.Spot, f: Frame) {
    match p
    case QueueSlot(n) => |l.popped| <= n < |l.pushed| && l.pushed[n] == f
    case WithProcessor => (l.processor.Loaded? || l.processor.Inserting?) && l.processor.frame == f
    case MapKey(k) => k in l.store.items && l.store.items[k] == f
    case WithSender => l.sender.Holding? && l.sender.frame == f
    case SubmittedAs(n) => n < |l.scene| && l.scene[n] == f
  }

  lemma IndexIsTicket(l: L.Lane, p: C.Spot, f: Frame)
    requires L.Fifo(l) && L.Tagged(l) && LaneEchoes(l) && FrameIn(l, p, f)
    ensures f.ticket == Ticket(l.eye, f.index) && C.InSpot(l, p, f.ticket)
  {
    match p {
      case QueueSlot(n) =>
      case WithProcessor =>
        assert f.eye == l.pushed[|l.popped| - 1].eye by {
          assert l.popped[|l.popped| - 1] == l.pushed[|l.popped| - 1];
          assert l.processor.Inserting? ==> f == MarkAll(l.popped)[|l.popped| - 1];
        }
      case MapKey(k) => assert L.Stored(l, k, f);
      case WithSender => assert L.Stored(l, l.cursor, f);
      case SubmittedAs(n) => assert L.Stored(l, l.scene[n].index, l.scene[n]);
    }
  }

  /** Holder `h` has a frame `f` of eye `e`: a client about to push it, or a place in the lane. */
  predicate HasFrame(s: State, h: C.Holder, e: Eye, f: Frame) {
    match h
    case WithClient(c) => c in s.clients && s.clients[c] == Pushing(f) && f.eye == e
    case InLane(e', p) => e' == e && FrameIn(s.At(e), p, f)
    case LostTo(_) => false
  }

  lemma HolderOfIndex(s: State, h: C.Holder, e: Eye, f: Frame)
    requires Faithful(s) && L.Fifo(s.At(e)) && L.Tagged(s.At(e)) && s.At(e).eye == e && HasFrame(s, h, e, f)
    ensures C.Holds(s, h, Ticket(e, f.index))
  {
    if h.InLane? {
      IndexIsTicket(s.At(e), h.spot, f);
    }
  }

  /** With echoing renderers no index of an eye is ever in two places, in a client's hands or in the
      lane. */
  lemma NoIndexInTwoPlaces(run: seq<Event>, e: Eye, h: C.Holder, f: Frame, h': C.Holder, f': Frame)
    requires Valid(INIT, run) && Echoing(INIT, run)
    requires HasFrame(Final(INIT, run), h, e, f) && HasFrame(Final(INIT, run), h', e, f')
    ensures f.index == f'.index ==> h == h'
  {
    Server.InitInv();
    RunKeepsFaithful(INIT, run);
    Server.EveryLaneIsSafe(run, e);
    var s := Final(INIT, run);
    HolderOfIndex(s, h, e, f);
    HolderOfIndex(s, h', e, f');
    Server.EveryTicketIsHeldOnce(run);
  }
}
