/** What the invariant of the server means for its users, stated for every run from start-up, and
    what the lane results mean for every continuation of any state. */
module Guarantees {
  import opened Frames
  import opened Words
  import opened Pipeline
  import Q = FrameQueues
  import M = FrameMaps
  import L = Lanes
  import R = LaneRuns
  import C = Custody
  import Server

  /** The tickets of an eye that exist anywhere are exactly 0, 1, ... up to its counter, and each is in
      exactly one place. */
  lemma TicketsAreConserved(run: seq<Event>, e: Eye, n: nat)
    requires Valid(INIT, run)
    ensures var s := Final(INIT, run);
            && ((exists h :: C.Holds(s, h, Ticket(e, n))) <==> n < s.At(e).issued)
            && (forall h, h' :: C.Holds(s, h, Ticket(e, n)) && C.Holds(s, h', Ticket(e, n)) ==> h == h')
  {
    Server.EveryRunIsSafe(run);
    var s := Final(INIT, run);
    assert C.Issued(s, Ticket(e, n)) <==> n < s.At(e).issued;
  }

  /** The two counters differ by at most one plus the clients between toggle and increment. */
  lemma CountersStayClose(run: seq<Event>)
    requires Valid(INIT, run)
    ensures var s := Final(INIT, run);
            && s.left.issued <= s.right.issued + |Server.Gap(s, Right)|
            && s.right.issued <= s.left.issued + |Server.Gap(s, Left)| + 1
            && s.left.issued + s.right.issued + |Server.Gap(s, Left)| + |Server.Gap(s, Right)| == s.toggles
  {
    Server.EveryRunIsSafe(run);
  }

  /** Per eye, each encoder receives strictly increasing indices of converted frames of that eye,
      and the depth encoder lags the scene encoder by at most the frame between the two calls. */
  lemma EncodersSeeOrderedFrames(run: seq<Event>, e: Eye)
    requires Valid(INIT, run)
    ensures var l := Final(INIT, run).At(e);
            && L.StrictlyIncreasing(l.scene) && L.StrictlyIncreasing(l.depth)
            && (forall i :: 0 <= i < |l.scene| ==> l.scene[i].eye == e && l.scene[i].converted)
            && (l.scene == l.depth || (l.sender.SceneSent? && l.scene == l.depth + [l.sender.frame]))
  {
    Server.EveryLaneIsSafe(run, e);
    var l := Final(INIT, run).At(e);
    assert L.Ordered(l) && L.Tagged(l);
    forall i, j | 0 <= i < j < |l.depth|
      ensures l.depth[i].index < l.depth[j].index
    {
      assert l.depth[i] == l.scene[i] && l.depth[j] == l.scene[j];
    }
    assert forall i :: 0 <= i < |l.scene| ==> L.Stored(l, l.scene[i].index, l.scene[i]);
  }

  /** Whoever sleeps unnotified has nothing to do: the clients' resource is claimed, and the lane's
      own threads face an empty queue, a full map or a missing key. */
  lemma NobodySleepsThroughWork(run: seq<Event>, e: Eye)
    requires Valid(INIT, run)
    ensures var l := Final(INIT, run).At(e);
            && (l.queue.pushers.asleep != {} ==> Q.MAX_SIZE - |l.queue.items| <= |l.queue.pushers.notified|)
            && (L.PROCESSOR in l.queue.poppers.asleep ==> l.queue.items == [])
            && (L.PROCESSOR in l.store.inserters.asleep ==> |l.store.items| == M.MAX_SIZE)
            && (L.SENDER in l.store.sleepers ==> l.cursor !in l.store.items)
  {
    Server.EveryLaneIsSafe(run, e);
    var l := Final(INIT, run).At(e);
    assert L.Bounded(l) && L.Parked(l);
    if L.PROCESSOR in l.queue.poppers.asleep {
      assert l.queue.poppers.notified == {};
    }
  }

  /** Sizes never exceed their bounds; the queue is first-in first-out; frames reach the map in the
      order in which they were pushed. */
  lemma BoundedAndInOrder(run: seq<Event>, e: Eye)
    requires Valid(INIT, run)
    ensures var l := Final(INIT, run).At(e);
            && |l.queue.items| <= 100 && |l.store.items| <= 100
            && l.pushed == l.popped + l.queue.items
            && |l.attempted| <= |l.pushed| && l.attempted == MarkAll(l.pushed[..|l.attempted|])
            && |l.popped| == |l.attempted| + if l.processor.Loaded? then 1 else 0
  {
    Server.EveryLaneIsSafe(run, e);
    var l := Final(INIT, run).At(e);
    InOrder(l);
  }

  lemma InOrder(l: L.Lane)
    requires L.Fifo(l)
    ensures |l.attempted| <= |l.pushed| && l.attempted == MarkAll(l.pushed[..|l.attempted|])
    ensures |l.popped| == |l.attempted| + if l.processor.Loaded? then 1 else 0
  {
  }

  /** No frame is converted twice, so the processor never dies of it, and only converted frames are
      in the map or submitted. */
  lemma ConversionHappensOnce(run: seq<Event>, e: Eye)
    requires Valid(INIT, run)
    ensures var l := Final(INIT, run).At(e);
            && !l.processor.Crashed?
            && (l.processor.Loaded? ==> !l.processor.frame.converted)
            && (forall i :: 0 <= i < |l.queue.items| ==> !l.queue.items[i].converted)
            && (forall k :: k in l.store.items ==> l.store.items[k].converted && l.store.items[k].index == k)
            && (l.sender.Holding? ==> l.sender.frame.converted)
  {
    Server.EveryLaneIsSafe(run, e);
    ConvertedPastProcessor(Final(INIT, run).At(e));
  }

  lemma ConvertedPastProcessor(l: L.Lane)
    requires L.Fifo(l) && L.Tagged(l)
    ensures l.processor.Loaded? ==> !l.processor.frame.converted
    ensures forall i :: 0 <= i < |l.queue.items| ==> !l.queue.items[i].converted
    ensures forall k :: k in l.store.items ==> l.store.items[k].converted && l.store.items[k].index == k
  {
    assert forall i :: 0 <= i < |l.queue.items| ==> l.queue.items[i] == l.pushed[|l.popped| + i];
    if l.processor.Loaded? {
      assert l.processor.frame == l.pushed[|l.popped| - 1];
    }
    assert forall k :: k in l.store.items ==> L.Stored(l, k, l.store.items[k]);
  }

  /** At the top of its loop the sender has decided every earlier index exactly once. */
  lemma EveryIndexIsDecidedOnce(run: seq<Event>, e: Eye)
    requires Valid(INIT, run) && Final(INIT, run).At(e).sender.SendTop?
    ensures var l := Final(INIT, run).At(e);
            && |l.scene| + |l.skipped| == l.cursor
            && forall k: nat :: (k < l.cursor <==> k in l.skipped || L.Submitted(l, k)) && !(k in l.skipped && L.Submitted(l, k))
  {
    Server.EveryLaneIsSafe(run, e);
    var l := Final(INIT, run).At(e);
    assert L.Accounted(l);
  }

  /** While the counters fit in 64 bits, the logged frame counts add up to the last logged total, and
      the next one will not wrap either. */
  lemma RatesTelescope(run: seq<Event>)
    requires Valid(INIT, run)
    ensures var s := Final(INIT, run);
            s.left.issued + s.right.issued < TWO_64 ==>
              && Server.Sum(s.stats.logged) == s.stats.previous
              && (s.stats.phase.LoadedBoth? ==> NextLogIsExact(s.stats))
  {
    Server.EveryRunIsSafe(run);
    var s := Final(INIT, run);
    if s.left.issued + s.right.issued < TWO_64 {
      ReadingsFit(s);
    }
  }

  predicate NextLogIsExact(st: Stats)
    requires st.phase.LoadedBoth?
  {
    var total := st.phase.left + st.phase.right;
    st.previous <= total && U64(U64(total) - st.previous) == total - st.previous
  }

  lemma ReadingsFit(s: State)
    requires Server.StatsSound(s) && s.left.issued + s.right.issued < TWO_64
    ensures Server.Sum(s.stats.logged) == s.stats.previous
    ensures s.stats.phase.LoadedBoth? ==> NextLogIsExact(s.stats)
  {
  }

  // ---- Continuations of any state ----

  /** A frame stored before its index was decided stays, whatever the server does next, until it is
      in the sender's hands or submitted. */
  lemma OnTimeFramesReachTheEncoder(s: State, run: seq<Event>, e: Eye, k: nat)
    requires Valid(s, run) && k in s.At(e).store.items && L.Upcoming(s.At(e)) <= k
    ensures var f, l := s.At(e).store.items[k], Final(s, run).At(e);
            R.OnTime(l, k, f) || R.Delivered(l, f)
  {
    RunIsLaneRun(s, run, e);
    R.OnTimeFramesAreDelivered(s.At(e), ProjectRun(s, run, e), k, s.At(e).store.items[k]);
  }

  /** Keys that the sender has passed are in the map only because they were inserted too late. */
  lemma LeftoversCameLate(run: seq<Event>, e: Eye, k: nat)
    requires Valid(INIT, run)
    requires k in Final(INIT, run).At(e).store.items && k < L.Upcoming(Final(INIT, run).At(e))
    ensures L.Valid(L.Init(e), ProjectRun(INIT, run, e)) && R.LateInsert(L.Init(e), ProjectRun(INIT, run, e), k)
  {
    RunIsLaneRun(INIT, run, e);
    assert INIT.At(e) == L.Init(e);
    R.StaleKeysWereLate(L.Init(e), ProjectRun(INIT, run, e), k);
  }

  /** Once a map is full of passed keys, that eye is finished for good. */
  lemma JammedEyeNeverRecovers(s: State, run: seq<Event>, e: Eye)
    requires Valid(s, run) && R.Jammed(s.At(e))
    ensures var l, l' := s.At(e), Final(s, run).At(e);
            && l'.store.items == l.store.items
            && |l'.scene| <= |l.scene| + 1
            && (!l.sender.Holding? ==> l'.scene == l.scene)
  {
    RunIsLaneRun(s, run, e);
    R.JamIsPermanent(s.At(e), ProjectRun(s, run, e));
  }

  /** With a key at or above the sender's position in the map, only boundedly many timeouts can pass
      before the sender takes a frame. */
  lemma SkippingIsBounded(s: State, run: seq<Event>, e: Eye, k: nat)
    requires Valid(s, run) && k in s.At(e).store.items && L.Upcoming(s.At(e)) <= k
    ensures var acts := ProjectRun(s, run, e);
            && L.Valid(s.At(e), acts)
            && (R.CountFetches(s.At(e), acts) > 0 || R.CountTimeouts(s.At(e), acts) <= k - L.Upcoming(s.At(e)))
  {
    RunIsLaneRun(s, run, e);
    R.TimeoutsBeforeFetchAreBounded(s.At(e), ProjectRun(s, run, e), k);
  }
}
