/** When exactly an eye can still obtain a frame. A map full of passed keys is the end, but the end may
    be settled earlier: the frames already in the queue can be enough to fill the map. */
module Doom {
  import opened Frames
  import opened Waiting
  import opened Lanes
  import M = FrameMaps
  import R = LaneRuns

  function Indices(frames: seq<Frame>): seq<nat> {
    seq(|frames|, i requires 0 <= i < |frames| => frames[i].index)
  }

  /** The indices on their way to the map, in the order in which they will reach it. */
  function Pending(l: Lane): seq<nat> {
    (if l.processor.Loaded? || l.processor.Inserting? then [l.processor.frame.index] else []) + Indices(l.queue.items)
  }

  /** Inserting `pending` in order fills a map that has `keys`, before any index at or above `position`
      gets in. */
  predicate Fills(keys: set<nat>, pending: seq<nat>, position: nat)
    decreases |pending|
  {
    || |keys| >= M.MAX_SIZE
    || (pending != [] && pending[0] < position && Fills(keys + {pending[0]}, pending[1..], position))
  }

  function FirstOf(pending: seq<nat>, n: nat): set<nat>
    requires n <= |pending|
  {
    set i | 0 <= i < n :: pending[i]
  }

  /** The first `n` pending indices are all passed and bring the map to its limit. */
  predicate FilledBy(keys: set<nat>, pending: seq<nat>, position: nat, n: nat) {
    && n <= |pending| && (forall i :: 0 <= i < n ==> pending[i] < position)
    && |keys + FirstOf(pending, n)| >= M.MAX_SIZE
  }

  lemma FilledByTail(keys: set<nat>, pending: seq<nat>, position: nat, n: nat)
    requires 0 < n <= |pending|
    ensures FilledBy(keys, pending, position, n)
       <==> pending[0] < position && FilledBy(keys + {pending[0]}, pending[1..], position, n - 1)
  {
    var all, tail := FirstOf(pending, n), FirstOf(pending[1..], n - 1);
    forall k
      ensures k in all <==> k == pending[0] || k in tail
    {
      if k in all && k != pending[0] {
        var i :| 0 <= i < n && pending[i] == k;
        assert pending[1..][i - 1] == k;
      }
    }
    assert keys + all == keys + {pending[0]} + tail;
    assert forall i :: 0 < i < n ==> pending[i] == pending[1..][i - 1];
  }

  /** What filling means: some first part of the pending indices does it. */
  lemma {:induction false} FillsMeans(keys: set<nat>, pending: seq<nat>, position: nat)
    ensures Fills(keys, pending, position) <==> exists n: nat :: FilledBy(keys, pending, position, n)
    decreases |pending|
  {
    assert keys + FirstOf(pending, 0) == keys;
    assert FilledBy(keys, pending, position, 0) <==> |keys| >= M.MAX_SIZE;
    if pending != [] {
      FillsMeans(keys + {pending[0]}, pending[1..], position);
      forall n | 0 < n <= |pending|
        ensures FilledBy(keys, pending, position, n)
           <==> pending[0] < position && FilledBy(keys + {pending[0]}, pending[1..], position, n - 1)
      {
        FilledByTail(keys, pending, position, n);
      }
      if pending[0] < position && Fills(keys + {pending[0]}, pending[1..], position) {
        var n: nat :| FilledBy(keys + {pending[0]}, pending[1..], position, n);
        FilledByTail(keys, pending, position, n + 1);
      }
    }
  }

  predicate Passed(l: Lane) {
    forall k :: k in l.store.items ==> k < Upcoming(l)
  }

  predicate Stopped(p: Processor) {
    p.ProcExited? || p.Crashed?
  }

  /** The sender is gone, or it has passed every key and no other key can arrive. */
  predicate Spent(l: Lane) {
    || l.sender.SendExited?
    || (Passed(l) && (Stopped(l.processor) || Fills(l.store.items.Keys, Pending(l), Upcoming(l))))
  }

  // ---- A spent eye stays spent ----

  lemma {:induction false} FillsMonotone(keys: set<nat>, pending: seq<nat>, more: seq<nat>, position: nat, position': nat)
    requires Fills(keys, pending, position) && position <= position'
    ensures Fills(keys, pending + more, position')
    decreases |pending|
  {
    if |keys| < M.MAX_SIZE {
      FillsMonotone(keys + {pending[0]}, pending[1..], more, position, position');
      assert (pending + more)[1..] == pending[1..] + more;
    }
  }

  lemma AcceptOnlyAppends(l: Lane, a: Act)
    requires Enabled(l, a) && a.Accept?
    ensures Pending(Apply(l, a)) == Pending(l) + if Accepted(l, a) == Done then [a.frame.index] else []
  {
    var l' := Apply(l, a);
    if Accepted(l, a) == Done {
      assert Indices(l'.queue.items) == Indices(l.queue.items) + [a.frame.index];
    }
  }

  lemma PopKeepsPending(l: Lane, a: Act)
    requires Enabled(l, a) && a.Pop?
    ensures Pending(Apply(l, a)) == Pending(l)
  {
    if l.queue.items != [] {
      assert Indices(l.queue.items) == [l.queue.items[0].index] + Indices(l.queue.items[1..]);
    }
  }

  /** An insert takes the first pending index: into the map if there is room, and nowhere if it gives up. */
  lemma InsertTakesFirst(l: Lane, a: Act)
    requires Enabled(l, a) && a.Insert?
    ensures var l' := Apply(l, a);
            && Pending(l) != [] && Upcoming(l') == Upcoming(l)
            && Pending(l') == (if InsertOutcome(l, a) == Slept then Pending(l) else Pending(l)[1..])
            && l'.store.items.Keys == l.store.items.Keys + if |l.store.items| < M.MAX_SIZE then {Pending(l)[0]} else {}
  {
  }

  /** The remaining steps bring nothing into the map and take nothing out of what is pending. */
  lemma OthersKeepPending(l: Lane, a: Act)
    requires Enabled(l, a) && !a.Accept? && !a.Pop? && !a.Insert?
    ensures Pending(Apply(l, a)) == Pending(l) || Apply(l, a).processor.Crashed?
  {
  }

  lemma InsertKeepsSpent(l: Lane, a: Act)
    requires Enabled(l, a) && a.Insert? && Spent(l)
    ensures Spent(Apply(l, a))
  {
    InsertTakesFirst(l, a);
    assert |l.store.items| == |l.store.items.Keys|;
  }

  lemma GetKeepsPassed(l: Lane, a: Act)
    requires Enabled(l, a) && !a.Insert? && Passed(l)
    ensures !R.Fetches(l, a) && Apply(l, a).store.items == l.store.items && Passed(Apply(l, a))
    ensures Upcoming(l) <= Upcoming(Apply(l, a))
    ensures Stopped(l.processor) ==> Stopped(Apply(l, a).processor)
  {
  }

  lemma PendingGrows(l: Lane, a: Act) returns (more: seq<nat>)
    requires Enabled(l, a) && !a.Insert?
    ensures Pending(Apply(l, a)) == Pending(l) + more || Apply(l, a).processor.Crashed?
  {
    more := [];
    if a.Accept? {
      AcceptOnlyAppends(l, a);
      more := if Accepted(l, a) == Done then [a.frame.index] else [];
    } else if a.Pop? {
      PopKeepsPending(l, a);
    } else {
      OthersKeepPending(l, a);
    }
  }

  lemma StepKeepsSpent(l: Lane, a: Act)
    requires Enabled(l, a) && Spent(l)
    ensures Spent(Apply(l, a)) && !R.Fetches(l, a)
  {
    if a.Insert? {
      InsertKeepsSpent(l, a);
    } else if !l.sender.SendExited? {
      GetKeepsPassed(l, a);
      var l' := Apply(l, a);
      if !Stopped(l'.processor) {
        var more := PendingGrows(l, a);
        FillsMonotone(l.store.items.Keys, Pending(l), more, Upcoming(l), Upcoming(l'));
      }
    }
  }

  /** A spent eye takes no further frame, whatever happens. */
  lemma {:induction false} SpentIsFinal(l: Lane, acts: seq<Act>)
    requires Valid(l, acts) && Spent(l)
    ensures Spent(Final(l, acts)) && R.CountFetches(l, acts) == 0
    decreases |acts|
  {
    if acts != [] {
      StepKeepsSpent(l, acts[0]);
      SpentIsFinal(Apply(l, acts[0]), acts[1..]);
    }
  }

  // ---- An eye that is not spent can be saved ----

  /** Frames are unconverted up to the conversion. */
  predicate Raw(l: Lane) {
    && (l.processor.Loaded? ==> !l.processor.frame.converted)
    && forall i :: 0 <= i < |l.queue.items| ==> !l.queue.items[i].converted
  }

  /** The processor has nothing left to do. */
  predicate Starved(l: Lane) {
    l.processor.Popping? && l.queue.items == []
  }

  /** All keys are passed, but there is still a way for another one. */
  predicate Open(l: Lane) {
    !Spent(l) && Passed(l) && Raw(l)
  }

  /** The processor's next step on its own. */
  ghost function NextProcessorAct(l: Lane): (a: Act)
    requires !Stopped(l.processor) && !Starved(l)
    ensures Enabled(l, a) && R.Own(a, false)
  {
    match l.processor
    case ProcTop => CheckProcessor(false)
    case Popping => Pop(false, R.Anyone(l.queue.pushers))
    case Loaded(_) => Convert
    case Inserting(_) => Insert(false)
  }

  function StepsToMap(p: Processor): nat {
    match p
    case ProcTop => 4
    case Popping => 3
    case Loaded(_) => 2
    case Inserting(_) => 1
    case _ => 0
  }

  /** Some pending index is one the sender has not passed. */
  predicate Hope(l: Lane) {
    Reaches(Pending(l), Upcoming(l))
  }

  predicate Reaches(pending: seq<nat>, position: nat) {
    exists i :: 0 <= i < |pending| && position <= pending[i]
  }

  lemma ReachesTail(pending: seq<nat>, position: nat)
    requires pending != [] && pending[0] < position && Reaches(pending, position)
    ensures Reaches(pending[1..], position)
  {
    var i :| 0 <= i < |pending| && position <= pending[i];
    assert pending[1..][i - 1] == pending[i];
  }

  /** How far `l'` is ahead of `l` on the way to a key that the sender has not passed. */
  predicate Closer(l: Lane, l': Lane) {
    if Hope(l) != Hope(l') then Hope(l')
    else if |Pending(l)| != |Pending(l')| then |Pending(l')| < |Pending(l)|
    else StepsToMap(l'.processor) < StepsToMap(l.processor)
  }

  predicate SameSender(l: Lane, l': Lane) {
    l'.eye == l.eye && l'.cursor == l.cursor && l'.sender == l.sender && l'.scene == l.scene
  }

  /** `l'` is `l` after its processor has moved the first pending index into the map. */
  predicate Filed(l: Lane, l': Lane) {
    && SameSender(l, l') && l'.processor.ProcTop? && l'.queue == l.queue
    && Pending(l) != [] && Pending(l') == Pending(l)[1..]
    && l'.store.items.Keys == l.store.items.Keys + {Pending(l)[0]}
  }

  lemma InsertFiles(l: Lane)
    requires l.processor.Inserting? && |l.store.items| < M.MAX_SIZE
    ensures Filed(l, Apply(l, Insert(false)))
  {
    InsertTakesFirst(l, Insert(false));
  }

  lemma FillsTail(keys: set<nat>, pending: seq<nat>, position: nat)
    requires pending != [] && pending[0] < position && !Fills(keys, pending, position)
    ensures !Fills(keys + {pending[0]}, pending[1..], position)
  {
  }

  lemma FilingLeavesOpen(l: Lane, l': Lane)
    requires Open(l) && Filed(l, l')
    ensures !Spent(l') && Raw(l') && (Passed(l') ==> Pending(l)[0] < Upcoming(l))
  {
    assert Pending(l)[0] in l'.store.items.Keys;
    if Passed(l') {
      FillsTail(l.store.items.Keys, Pending(l), Upcoming(l));
    }
  }

  lemma FilingIsCloser(l: Lane, l': Lane)
    requires Filed(l, l') && Pending(l)[0] < Upcoming(l)
    ensures Closer(l, l')
  {
    if Hope(l) {
      ReachesTail(Pending(l), Upcoming(l));
    }
  }

  lemma OtherProgress(l: Lane)
    requires Open(l) && !l.processor.Inserting? && !Starved(l)
    ensures var l' := Apply(l, NextProcessorAct(l));
            && Open(l') && SameSender(l, l') && Pending(l') == Pending(l)
            && StepsToMap(l'.processor) < StepsToMap(l.processor)
  {
    var a := NextProcessorAct(l);
    if a.Pop? {
      PopKeepsPending(l, a);
    } else {
      OthersKeepPending(l, a);
    }
  }

  /** The processor's own step leads closer to a key that the sender has not passed. */
  lemma Progress(l: Lane)
    requires Open(l) && !Starved(l)
    ensures var l' := Apply(l, NextProcessorAct(l));
            !Spent(l') && Raw(l') && SameSender(l, l') && (Passed(l') ==> Closer(l, l'))
  {
    if l.processor.Inserting? {
      assert |l.store.items| == |l.store.items.Keys|;
      InsertFiles(l);
      FilingLeavesOpen(l, Apply(l, Insert(false)));
      if Passed(Apply(l, Insert(false))) {
        FilingIsCloser(l, Apply(l, Insert(false)));
      }
    } else {
      OtherProgress(l);
    }
  }

  predicate Feeds(l: Lane, a: Act) {
    a.Accept? && a.frame.index == Upcoming(l) && Enabled(l, a)
  }

  /** A starved processor needs a frame with an index that the sender has not passed. */
  lemma FeedingProgress(l: Lane, a: Act)
    requires Open(l) && Starved(l) && Feeds(l, a)
    ensures var l' := Apply(l, a); Open(l') && SameSender(l, l') && Closer(l, l')
  {
    AcceptOnlyAppends(l, a);
    assert Pending(Apply(l, a))[0] == Upcoming(l);
  }

  lemma DeliverNext(l: Lane) returns (acts: seq<Act>)
    requires !l.sender.SendExited? && !Passed(l)
    ensures Valid(l, acts) && (forall i :: 0 <= i < |acts| ==> R.Own(acts[i], false))
    ensures R.CountFetches(l, acts) == 1
  {
    var k :| k in l.store.items && Upcoming(l) <= k;
    var key;
    acts, key := R.SenderDelivers(l, k);
    assert R.Delivers(l, acts, key);
  }

  /** An eye that is not spent has a continuation in which the sender takes a frame. */
  lemma {:induction false} NotSpentIsFruitful(l: Lane) returns (acts: seq<Act>)
    requires Raw(l) && !Spent(l)
    ensures Valid(l, acts) && R.CountFetches(l, acts) == 1
    decreases Passed(l), !Hope(l), |Pending(l)|, StepsToMap(l.processor)
  {
    if !Passed(l) {
      acts := DeliverNext(l);
      return;
    }
    var a: Act;
    if Starved(l) {
      a := Accept(0, Frame(Ticket(l.eye, 0), Upcoming(l), l.eye, false), false, R.Anyone(l.queue.poppers));
      FeedingProgress(l, a);
    } else {
      a := NextProcessorAct(l);
      Progress(l);
    }
    acts := NotSpentIsFruitful(Apply(l, a));
    R.Prepend(l, a, acts);
    acts := [a] + acts;
  }

  /** The exact condition, for every state with unconverted frames up to the conversion. */
  lemma FruitlessIsSpent(l: Lane)
    requires Raw(l)
    ensures R.Fruitless(l) <==> Spent(l)
  {
    if Spent(l) {
      forall acts | Valid(l, acts)
        ensures R.CountFetches(l, acts) == 0
      {
        SpentIsFinal(l, acts);
      }
    } else {
      var acts := NotSpentIsFruitful(l);
      assert R.CountFetches(l, acts) == 1;
    }
  }

  /** With nothing on the way, an eye whose threads run is spent exactly when it is jammed. */
  lemma JamIsTheIdleCase(l: Lane)
    requires Bounded(l) && Pending(l) == [] && !Stopped(l.processor) && !l.sender.SendExited?
    ensures Spent(l) <==> R.Jammed(l)
  {
    assert |l.store.items| == |l.store.items.Keys|;
  }
}
