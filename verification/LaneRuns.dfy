/** What holds over whole runs of one lane, under every interleaving of its threads. */
module LaneRuns {
  import opened Frames
  import opened Waiting
  import opened Lanes
  import M = FrameMaps

  predicate Fetches(l: Lane, a: Act) {
    a.Get? && l.cursor in l.store.items
  }

  predicate GivesUp(l: Lane, a: Act) {
    a.Get? && l.cursor !in l.store.items && a.expired
  }

  /** The act puts a new frame into the map under key `k`. */
  predicate Stores(l: Lane, a: Act, k: nat) {
    && a.Insert? && l.processor.Inserting? && l.processor.frame.index == k
    && |l.store.items| < M.MAX_SIZE && k !in l.store.items
  }

  function CountFetches(l: Lane, acts: seq<Act>): nat
    requires Valid(l, acts)
    decreases |acts|
  {
    if acts == [] then 0
    else (if Fetches(l, acts[0]) then 1 else 0) + CountFetches(Apply(l, acts[0]), acts[1..])
  }

  function CountTimeouts(l: Lane, acts: seq<Act>): nat
    requires Valid(l, acts)
    decreases |acts|
  {
    if acts == [] then 0
    else (if GivesUp(l, acts[0]) then 1 else 0) + CountTimeouts(Apply(l, acts[0]), acts[1..])
  }

  /** The sender's position moves by one for each frame taken and each timeout, and by nothing else. */
  lemma {:induction false} PositionCountsDecisions(l: Lane, acts: seq<Act>)
    requires Valid(l, acts)
    ensures Upcoming(Final(l, acts)) == Upcoming(l) + CountFetches(l, acts) + CountTimeouts(l, acts)
    decreases |acts|
  {
    if acts != [] {
      PositionCountsDecisions(Apply(l, acts[0]), acts[1..]);
    }
  }

  /** How many frames the sender has taken out of the map and submitted or still holds. */
  function Taken(l: Lane): nat {
    |l.scene| + if l.sender.Holding? then 1 else 0
  }

  lemma {:induction false} TakenCountsFetches(l: Lane, acts: seq<Act>)
    requires Valid(l, acts)
    ensures Taken(Final(l, acts)) == Taken(l) + CountFetches(l, acts)
    decreases |acts|
  {
    if acts != [] {
      TakenCountsFetches(Apply(l, acts[0]), acts[1..]);
    }
  }

  // ---- Frames that arrive in time ----

  predicate OnTime(l: Lane, k: nat, f: Frame) {
    k in l.store.items && l.store.items[k] == f && Upcoming(l) <= k
  }

  predicate Delivered(l: Lane, f: Frame) {
    l.sender == Holding(f) || f in l.scene
  }

  lemma OnTimeStep(l: Lane, a: Act, k: nat, f: Frame)
    requires Enabled(l, a) && OnTime(l, k, f)
    ensures OnTime(Apply(l, a), k, f) || Delivered(Apply(l, a), f)
    ensures !Fetches(l, a) ==> OnTime(Apply(l, a), k, f)
  {
  }

  lemma DeliveredStep(l: Lane, a: Act, f: Frame)
    requires Enabled(l, a) && Delivered(l, f)
    ensures Delivered(Apply(l, a), f)
  {
  }

  /** A frame that reaches the map before the sender has decided its index is never lost there:
      no purge and no timeout touches it, and it leaves only for the encoders. */
  lemma {:induction false} OnTimeFramesAreDelivered(l: Lane, acts: seq<Act>, k: nat, f: Frame)
    requires Valid(l, acts) && (OnTime(l, k, f) || Delivered(l, f))
    ensures OnTime(Final(l, acts), k, f) || Delivered(Final(l, acts), f)
    ensures OnTime(l, k, f) && CountFetches(l, acts) == 0 ==> OnTime(Final(l, acts), k, f)
    decreases |acts|
  {
    if acts != [] {
      if OnTime(l, k, f) {
        OnTimeStep(l, acts[0], k, f);
      } else {
        DeliveredStep(l, acts[0], f);
      }
      OnTimeFramesAreDelivered(Apply(l, acts[0]), acts[1..], k, f);
    }
  }

  /** Some insert of the run stored key `k` after the sender had already decided it. */
  predicate LateInsert(l: Lane, acts: seq<Act>, k: nat)
    requires Valid(l, acts)
    decreases |acts|
  {
    acts != [] &&
    ((Stores(l, acts[0], k) && k < Upcoming(l)) || LateInsert(Apply(l, acts[0]), acts[1..], k))
  }

  lemma OnlyInsertsAdd(l: Lane, a: Act)
    requires Enabled(l, a) && !a.Insert?
    ensures Apply(l, a).store.items.Keys <= l.store.items.Keys
    ensures Upcoming(l) <= Upcoming(Apply(l, a)) <= Upcoming(l) + 1
    ensures Upcoming(Apply(l, a)) == Upcoming(l) + 1 ==> Upcoming(l) !in Apply(l, a).store.items
  {
  }

  lemma InsertAddsItsKey(l: Lane, a: Act, k: nat)
    requires Enabled(l, a) && a.Insert? && k in Apply(l, a).store.items
    ensures k in l.store.items || Stores(l, a, k)
    ensures Upcoming(Apply(l, a)) == Upcoming(l)
  {
  }

  /** Every key left behind in the map was inserted late. */
  lemma {:induction false} StaleKeysWereLate(l: Lane, acts: seq<Act>, k: nat)
    requires Valid(l, acts) && !(k in l.store.items && k < Upcoming(l))
    requires k in Final(l, acts).store.items && k < Upcoming(Final(l, acts))
    ensures LateInsert(l, acts, k)
    decreases |acts|
  {
    var l' := Apply(l, acts[0]);
    if k in l'.store.items && k < Upcoming(l') {
      if acts[0].Insert? {
        InsertAddsItsKey(l, acts[0], k);
      } else {
        OnlyInsertsAdd(l, acts[0]);
      }
    } else {
      StaleKeysWereLate(l', acts[1..], k);
    }
  }

  // ---- A full map ----

  /** The map is full of keys the sender will never ask for again. */
  predicate Jammed(l: Lane) {
    |l.store.items| == M.MAX_SIZE && forall k :: k in l.store.items ==> k < Upcoming(l)
  }

  lemma JammedStep(l: Lane, a: Act)
    requires Enabled(l, a) && Jammed(l)
    ensures Jammed(Apply(l, a)) && Apply(l, a).store.items == l.store.items && !Fetches(l, a)
  {
  }

  /** A jam is permanent: in every continuation the map keeps exactly its contents, no get succeeds,
      and at most the frame already in the sender's hands is still submitted. */
  lemma {:induction false} JamIsPermanent(l: Lane, acts: seq<Act>)
    requires Valid(l, acts) && Jammed(l)
    ensures Jammed(Final(l, acts)) && Final(l, acts).store.items == l.store.items
    ensures CountFetches(l, acts) == 0
    ensures Final(l, acts).scene == l.scene
            || (l.sender.Holding? && Final(l, acts).scene == l.scene + [l.sender.frame])
    ensures !l.sender.Holding? ==> !Final(l, acts).sender.Holding?
    decreases |acts|
  {
    if acts != [] {
      JammedStep(l, acts[0]);
      JamIsPermanent(Apply(l, acts[0]), acts[1..]);
    }
  }

  /** With a deliverable key `k` in the map, fewer than `k - Upcoming` + 1 timeouts can pass, under
      any interleaving, before the sender takes a frame. */
  lemma TimeoutsBeforeFetchAreBounded(l: Lane, acts: seq<Act>, k: nat)
    requires Valid(l, acts) && k in l.store.items && Upcoming(l) <= k
    ensures CountFetches(l, acts) > 0 || CountTimeouts(l, acts) <= k - Upcoming(l)
  {
    OnTimeFramesAreDelivered(l, acts, k, l.store.items[k]);
    PositionCountsDecisions(l, acts);
  }

  predicate ProcessorAct(a: Act) {
    a.CheckProcessor? || a.Pop? || a.Convert? || a.Insert?
  }

  predicate SenderAct(a: Act) {
    a.CheckSender? || a.Get? || a.SubmitScene? || a.SubmitDepth? || a.Advance?
  }

  /** The sender is in the middle of a timed wait on the map. */
  predicate GetterParked(l: Lane) {
    SENDER in l.store.sleepers || SENDER in l.store.woken
  }

  /** A step of the lane's own threads that sees the shutdown flag as given. */
  predicate Own(a: Act, shutdown: bool) {
    !a.Issue? && !a.Accept? && (a.CheckProcessor? || a.CheckSender? ==> a.stop == shutdown)
  }

  predicate Lossless(l: Lane, acts: seq<Act>)
    requires Valid(l, acts)
    decreases |acts|
  {
    acts == [] || (Losses(l, acts[0]) == map[] && Lossless(Apply(l, acts[0]), acts[1..]))
  }

  lemma Prepend(l: Lane, a: Act, acts: seq<Act>)
    requires Enabled(l, a) && Valid(Apply(l, a), acts)
    ensures Valid(l, [a] + acts)
    ensures Final(l, [a] + acts) == Final(Apply(l, a), acts)
    ensures CountFetches(l, [a] + acts) == (if Fetches(l, a) then 1 else 0) + CountFetches(Apply(l, a), acts)
    ensures CountTimeouts(l, [a] + acts) == (if GivesUp(l, a) then 1 else 0) + CountTimeouts(Apply(l, a), acts)
    ensures Lossless(l, [a] + acts) <==> Losses(l, a) == map[] && Lossless(Apply(l, a), acts)
  {
  }

  /** How far the sender is from its next decision. */
  function StepsToDecision(l: Lane): nat {
    match l.sender
    case SendExited => 0
    case Getting => if GetterParked(l) then 1 else 2
    case SendTop => 3
    case Decided => 4
    case SceneSent(_) => 5
    case Holding(_) => 6
  }

  ghost function Anyone(w: Waiters): (choice: nat)
    ensures w.MayNotify(choice)
  {
    if w.asleep == {} then 0 else var t :| t in w.asleep; t
  }

  /** The sender's next step on its own, ending its timed wait if it is in one. */
  ghost function NextSenderAct(l: Lane, stop: bool): (a: Act)
    requires !l.sender.SendExited?
    ensures SenderAct(a) && Enabled(l, a) && (a.CheckSender? ==> a.stop == stop)
  {
    match l.sender
    case SendTop => CheckSender(stop)
    case Getting => Get(GetterParked(l), Anyone(l.store.inserters))
    case Holding(_) => SubmitScene
    case SceneSent(_) => SubmitDepth
    case Decided => Advance
  }

  lemma SenderStep(l: Lane)
    requires !l.sender.SendExited? && !Fetches(l, NextSenderAct(l, false))
    ensures var a := NextSenderAct(l, false);
            var l' := Apply(l, a);
            && !l'.sender.SendExited? && l'.store.items == l.store.items
            && (if GivesUp(l, a) then Upcoming(l') == Upcoming(l) + 1 && Upcoming(l) !in l.store.items
                else Upcoming(l') == Upcoming(l) && StepsToDecision(l') < StepsToDecision(l))
  {
  }

  lemma FetchAndSubmit(l: Lane, a: Act)
    requires Enabled(l, a) && Fetches(l, a)
    ensures Valid(l, [a] + [SubmitScene])
    ensures CountFetches(l, [a] + [SubmitScene]) == 1 && CountTimeouts(l, [a] + [SubmitScene]) == 0
    ensures Upcoming(l) == l.cursor && Final(l, [a] + [SubmitScene]).scene == l.scene + [l.store.items[l.cursor]]
  {
    Prepend(Apply(l, a), SubmitScene, []);
    Prepend(l, a, [SubmitScene]);
  }

  /** `key` is the first index in the map that the sender has not passed. */
  predicate NextInMap(l: Lane, key: nat) {
    key in l.store.items && Upcoming(l) <= key && forall k :: k in l.store.items && Upcoming(l) <= k ==> key <= k
  }

  /** A run of the sender alone that submits the frame under `key`, the first it has not passed, after
      exactly one timeout for each index before it. */
  predicate Delivers(l: Lane, acts: seq<Act>, key: nat) {
    && Valid(l, acts) && (forall i :: 0 <= i < |acts| ==> SenderAct(acts[i]) && Own(acts[i], false))
    && NextInMap(l, key)
    && CountFetches(l, acts) == 1 && CountTimeouts(l, acts) == key - Upcoming(l)
    && var scene := Final(l, acts).scene; scene != [] && scene[|scene| - 1] == l.store.items[key]
  }

  lemma DeliversStep(l: Lane, acts: seq<Act>, key: nat)
    requires !l.sender.SendExited? && !Fetches(l, NextSenderAct(l, false))
    requires Delivers(Apply(l, NextSenderAct(l, false)), acts, key)
    ensures Delivers(l, [NextSenderAct(l, false)] + acts, key)
  {
    SenderStep(l);
    Prepend(l, NextSenderAct(l, false), acts);
  }

  /** From any state with a key at or above the sender's position, the sender's own steps deliver. */
  lemma {:induction false} SenderDelivers(l: Lane, k: nat) returns (acts: seq<Act>, key: nat)
    requires !l.sender.SendExited? && k in l.store.items && Upcoming(l) <= k
    ensures Delivers(l, acts, key)
    decreases k - Upcoming(l), StepsToDecision(l)
  {
    var a := NextSenderAct(l, false);
    if Fetches(l, a) {
      FetchAndSubmit(l, a);
      acts, key := [a] + [SubmitScene], l.cursor;
    } else {
      SenderStep(l);
      acts, key := SenderDelivers(Apply(l, a), k);
      DeliversStep(l, acts, key);
      acts := [a] + acts;
    }
  }

  /** The sender obtains no frame, whatever happens next. */
  ghost predicate Fruitless(l: Lane) {
    forall acts :: Valid(l, acts) ==> CountFetches(l, acts) == 0
  }

  /** A full map either never yields another frame, or the sender can still reach one: which of the
      two is decided by whether some key is at or above the sender's position. */
  lemma FullMapDichotomy(l: Lane)
    requires |l.store.items| == M.MAX_SIZE && !l.sender.SendExited?
    ensures Jammed(l) <==> Fruitless(l)
  {
    if Jammed(l) {
      forall acts | Valid(l, acts)
        ensures CountFetches(l, acts) == 0
      {
        JamIsPermanent(l, acts);
      }
    } else {
      var k :| k in l.store.items && Upcoming(l) <= k;
      var acts, key := SenderDelivers(l, k);
      assert Delivers(l, acts, key);
    }
  }

  // ---- Pieces of a run that jams ----

  /** The sender is at the top of its loop, nobody waits, and the map holds exactly 0..n-1. */
  ghost predicate Quiet(l: Lane, n: nat, queued: seq<Frame>) {
    && l.sender.SendTop?
    && l.queue.items == queued && l.queue.pushers == NOBODY && l.queue.poppers == NOBODY
    && l.store.inserters == NOBODY && l.store.sleepers == map[] && l.store.woken == map[]
    && |l.store.items| == n && forall k: nat :: k in l.store.items <==> k < n
  }

  /** A run of the lane's own threads that sees no shutdown request and loses no frame. */
  predicate Quietly(l: Lane, acts: seq<Act>) {
    Valid(l, acts) && Lossless(l, acts) && forall i :: 0 <= i < |acts| ==> Own(acts[i], false)
  }

  ghost predicate Resting(l: Lane, n: nat) {
    Quiet(l, n, []) && l.processor.ProcTop?
  }

  /** With nothing in the map the sender gives up on an index and moves on. */
  lemma SkipOne(l: Lane) returns (acts: seq<Act>)
    requires Resting(l, 0)
    ensures Quietly(l, acts) && Resting(Final(l, acts), 0)
    ensures Final(l, acts).cursor == l.cursor + 1 && Final(l, acts).issued == l.issued && Final(l, acts).eye == l.eye
  {
    var l1 := Apply(l, CheckSender(false));
    var l2 := Apply(l1, Get(false, 0));
    acts := GiveUpOne(l2);
    Prepend(l1, Get(false, 0), acts);
    Prepend(l, CheckSender(false), [Get(false, 0)] + acts);
    acts := [CheckSender(false)] + ([Get(false, 0)] + acts);
  }

  lemma GiveUpOne(l: Lane) returns (acts: seq<Act>)
    requires l.sender.Getting? && l.store.sleepers == map[SENDER := l.cursor]
    requires Resting(l.(sender := SendTop, store := l.store.(sleepers := map[])), 0)
    ensures Quietly(l, acts) && Resting(Final(l, acts), 0)
    ensures Final(l, acts).cursor == l.cursor + 1 && Final(l, acts).issued == l.issued && Final(l, acts).eye == l.eye
  {
    Prepend(Apply(l, Get(true, 0)), Advance, []);
    Prepend(l, Get(true, 0), [Advance]);
    acts := [Get(true, 0)] + [Advance];
  }

  lemma LoadOne(l: Lane, n: nat, f: Frame) returns (acts: seq<Act>)
    requires Quiet(l, n, [f]) && l.processor.ProcTop?
    ensures Quietly(l, acts) && Quiet(Final(l, acts), n, [])
    ensures Final(l, acts).processor == Loaded(f)
    ensures Final(l, acts).cursor == l.cursor && Final(l, acts).issued == l.issued && Final(l, acts).eye == l.eye
  {
    var l1 := Apply(l, CheckProcessor(false));
    Prepend(l1, Pop(false, 0), []);
    Prepend(l, CheckProcessor(false), [Pop(false, 0)]);
    acts := [CheckProcessor(false)] + [Pop(false, 0)];
  }

  lemma InsertOne(l: Lane, n: nat) returns (acts: seq<Act>)
    requires Quiet(l, n, []) && n < M.MAX_SIZE && l.processor.Loaded?
    requires l.processor.frame.index == n && !l.processor.frame.converted
    ensures Quietly(l, acts) && Resting(Final(l, acts), n + 1)
    ensures Final(l, acts).cursor == l.cursor && Final(l, acts).issued == l.issued && Final(l, acts).eye == l.eye
  {
    var l1 := Apply(l, Convert);
    var l2 := Apply(l1, Insert(false));
    assert l2.store.items.Keys == l.store.items.Keys + {n};
    assert |l2.store.items.Keys| == |l2.store.items|;
    Prepend(l1, Insert(false), []);
    Prepend(l, Convert, [Insert(false)]);
    acts := [Convert] + [Insert(false)];
  }
}
