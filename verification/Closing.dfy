/** What an eye can still obtain once shutdown has been requested: at most the frame its sender is
    already waiting for, and only if that frame is next to arrive. */
module Closing {
  import opened Frames
  import opened Pipeline
  import opened Driving
  import M = FrameMaps
  import L = Lanes
  import R = LaneRuns
  import Doom
  import Server

  /** A client past the shutdown check that can still push a frame with index `k` to eye `e`. */
  predicate CanBring(cl: Client, e: Eye, k: nat) {
    match cl
    case AtTop => false
    case Broken => false
    case Pushing(f) => f.eye == e && f.index == k
    case _ => true
  }

  predicate Fed(s: State, e: Eye, k: nat) {
    exists c :: c in s.clients && CanBring(s.clients[c], e, k)
  }

  /** The next frame to reach the map can be the one with index `k`; `fed` says that a client can bring
      it to an empty queue. */
  predicate Arriving(l: L.Lane, k: nat, fed: bool) {
    match l.processor
    case Loaded(f) => f.index == k
    case Inserting(f) => f.index == k
    case Popping => if l.queue.items == [] then fed else l.queue.items[0].index == k
    case _ => false
  }

  predicate Chance(l: L.Lane, fed: bool) {
    && l.sender.Getting?
    && (l.cursor in l.store.items || (|l.store.items| < M.MAX_SIZE && Arriving(l, l.cursor, fed)))
  }

  predicate LastChance(s: State, e: Eye) {
    Chance(s.At(e), Fed(s, e, s.At(e).cursor))
  }

  // ---- Without a chance nothing comes ----

  lemma QueueActGivesNoChance(l: L.Lane, a: L.Act, fed: bool)
    requires L.Enabled(l, a) && (a.Accept? || a.Pop?) && !Chance(l, fed)
    requires a.Accept? && a.frame.index == l.cursor ==> fed
    ensures !Chance(L.Apply(l, a), fed) && !R.Fetches(l, a)
  {
  }

  lemma OtherActGivesNoChance(l: L.Lane, a: L.Act, fed: bool)
    requires L.Enabled(l, a) && !a.Pop? && (a.Issue? || R.Own(a, true)) && !Chance(l, fed)
    ensures !Chance(L.Apply(l, a), fed) && !R.Fetches(l, a)
  {
  }

  /** No client acquires the ability to bring a frame once shutdown is requested. */
  lemma BringersStay(s: State, ev: Event, e: Eye, k: nat)
    requires Enabled(s, ev) && s.shutdown && Fed(Apply(s, ev), e, k)
    ensures Fed(s, e, k)
  {
    var s' := Apply(s, ev);
    var c :| c in s'.clients && CanBring(s'.clients[c], e, k);
    assert c in s.clients && CanBring(s.clients[c], e, k);
  }

  lemma ChanceNeedsFood(l: L.Lane, fed: bool, fed': bool)
    requires Chance(l, fed') && (fed' ==> fed)
    ensures Chance(l, fed)
  {
  }

  lemma LaneGivesNoChance(s: State, ev: Event, e: Eye)
    requires Enabled(s, ev) && s.shutdown && !LastChance(s, e)
    ensures !Chance(Apply(s, ev).At(e), Fed(s, e, s.At(e).cursor))
    ensures R.Taken(Apply(s, ev).At(e)) == R.Taken(s.At(e))
  {
    var call := CallOf(s, ev);
    if call.Call? && call.eye == e {
      if call.act.Accept? || call.act.Pop? {
        QueueActGivesNoChance(s.At(e), call.act, Fed(s, e, s.At(e).cursor));
      } else {
        OtherActGivesNoChance(s.At(e), call.act, Fed(s, e, s.At(e).cursor));
      }
    }
  }

  lemma StepGivesNoChance(s: State, ev: Event, e: Eye)
    requires Enabled(s, ev) && s.shutdown && !LastChance(s, e)
    ensures Apply(s, ev).shutdown && !LastChance(Apply(s, ev), e)
    ensures R.Taken(Apply(s, ev).At(e)) == R.Taken(s.At(e))
  {
    LaneGivesNoChance(s, ev, e);
    var s', k := Apply(s, ev), s.At(e).cursor;
    if LastChance(s', e) {
      GettingStays(s, ev, e);
      if Fed(s', e, k) {
        BringersStay(s, ev, e, k);
      }
      ChanceNeedsFood(s'.At(e), Fed(s, e, k), Fed(s', e, k));
    }
  }

  lemma GettingStays(s: State, ev: Event, e: Eye)
    requires Enabled(s, ev) && s.shutdown && Apply(s, ev).At(e).sender.Getting?
    ensures Apply(s, ev).At(e).cursor == s.At(e).cursor
  {
  }

  lemma {:induction false} NoChanceIsFinal(s: State, run: seq<Event>, e: Eye)
    requires Valid(s, run) && s.shutdown && !LastChance(s, e)
    ensures R.Taken(Final(s, run).At(e)) == R.Taken(s.At(e))
    decreases |run|
  {
    if run != [] {
      StepGivesNoChance(s, run[0], e);
      NoChanceIsFinal(Apply(s, run[0]), run[1..], e);
    }
  }

  // ---- A chance can be used ----

  ghost function NextAct(l: L.Lane): (a: L.Act)
    requires Chance(l, false)
    ensures L.Enabled(l, a) && R.Own(a, true)
  {
    if l.cursor in l.store.items then L.Get(false, R.Anyone(l.store.inserters)) else Doom.NextProcessorAct(l)
  }

  lemma NextActHelps(l: L.Lane)
    requires Chance(l, false) && Doom.Raw(l) && l.cursor !in l.store.items
    ensures var l' := L.Apply(l, NextAct(l));
            && Chance(l', false) && Doom.Raw(l') && R.Taken(l') == R.Taken(l)
            && (l.cursor in l'.store.items || Doom.StepsToMap(l'.processor) < Doom.StepsToMap(l.processor))
            && l'.cursor == l.cursor
  {
  }

  /** With the awaited frame next to arrive, the lane's own threads bring it to the sender. */
  lemma {:induction false} UseChance(l: L.Lane) returns (acts: seq<L.Act>)
    requires Chance(l, false) && Doom.Raw(l)
    ensures L.Valid(l, acts) && (forall i :: 0 <= i < |acts| ==> R.Own(acts[i], true))
    ensures R.Taken(L.Final(l, acts)) == R.Taken(l) + 1
    decreases l.cursor !in l.store.items, Doom.StepsToMap(l.processor)
  {
    acts := [];
    var a := NextAct(l);
    if l.cursor !in l.store.items {
      NextActHelps(l);
      acts := UseChance(L.Apply(l, a));
    }
    R.Prepend(l, a, acts);
    acts := [a] + acts;
  }

  /** The sender waits, the processor waits, the map has room and the queue is empty. */
  predicate Hungry(l: L.Lane) {
    && l.sender.Getting? && |l.store.items| < M.MAX_SIZE
    && l.processor.Popping? && l.queue.items == []
  }

  lemma PushHelps(l: L.Lane, c: nat, f: Frame)
    requires Hungry(l) && f.index == l.cursor && f.eye == l.eye && !f.converted
    ensures var l' := L.Apply(l, PushOf(l, c, f));
            Chance(l', false) && Doom.Raw(l') && R.Taken(l') == R.Taken(l)
  {
  }

  function StepsToPush(cl: Client): nat {
    match cl
    case Entered => 4
    case Toggled(_) => 3
    case Ticketed(_) => 2
    case Awaiting(_) => 1
    case _ => 0
  }

  /** The eye's lane is the same up to its ticket counter. */
  predicate OnlyIssued(s: State, s': State, e: Eye) {
    s'.At(e) == s.At(e).(issued := s'.At(e).issued) && s'.shutdown == s.shutdown
  }

  /** One step of a client towards a reply. */
  lemma ClientApproaches(s: State, c: nat, e: Eye) returns (ev: Event)
    requires c in s.clients && (s.clients[c].Entered? || s.clients[c].Toggled? || s.clients[c].Ticketed?)
    ensures Enabled(s, ev) && OnlyIssued(s, Apply(s, ev), e)
    ensures var s' := Apply(s, ev);
            c in s'.clients && 0 < StepsToPush(s'.clients[c]) < StepsToPush(s.clients[c])
  {
    match s.clients[c] {
      case Entered => ev := OfClient(c, Toggle);
      case Toggled(t) =>
        ev := OfClient(c, Take);
        TakeTicket(s, c, t);
      case Ticketed(t) =>
        ev := OfClient(c, Send(true));
        SendRequest(s, c, t);
    }
  }

  /** A client past the check brings the awaited frame. */
  lemma {:induction false} Bring(s: State, e: Eye, c: nat) returns (run: seq<Event>)
    requires c in s.clients && CanBring(s.clients[c], e, s.At(e).cursor)
    requires s.clients[c].Pushing? ==> !s.clients[c].frame.converted
    requires Hungry(s.At(e)) && s.At(e).eye == e
    ensures Valid(s, run) && Final(s, run).shutdown == s.shutdown
    ensures var l' := Final(s, run).At(e); Chance(l', false) && Doom.Raw(l') && R.Taken(l') == R.Taken(s.At(e))
    decreases StepsToPush(s.clients[c])
  {
    var cl, k := s.clients[c], s.At(e).cursor;
    if cl.Pushing? {
      PushFrame(s, c, cl.frame);
      PushHelps(s.At(e), c, cl.frame);
      run := [OfClient(c, Push(false, PushOf(s.At(e), c, cl.frame).choice))];
      One(s, run[0]);
    } else if cl.Awaiting? {
      run := Answer(s, c, cl.ticket, k, e);
      PushHelps(s.At(e), c, Frame(cl.ticket, k, e, false));
    } else {
      var ev := ClientApproaches(s, c, e);
      run := Bring(Apply(s, ev), e, c);
      One(s, ev);
      Join(s, [ev], run);
      run := [ev] + run;
    }
  }

  lemma TakeLastFrame(s: State, e: Eye) returns (run: seq<Event>)
    requires s.shutdown && LastChance(s, e) && Doom.Raw(s.At(e)) && s.At(e).eye == e && Server.FreshFrames(s)
    ensures Valid(s, run) && R.Taken(Final(s, run).At(e)) == R.Taken(s.At(e)) + 1
  {
    var first := [];
    if !Chance(s.At(e), false) {
      var c :| c in s.clients && CanBring(s.clients[c], e, s.At(e).cursor);
      first := Bring(s, e, c);
    }
    var s1 := Final(s, first);
    var acts := UseChance(s1.At(e));
    var rest := Lift(s1, e, acts);
    Join(s, first, rest);
    run := first + rest;
  }
}
