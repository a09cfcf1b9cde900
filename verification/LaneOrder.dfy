/** The order in which a processing and a sending thread take their steps: for any two consecutive steps
    of the thread, whatever the rest of the server does to the lane in between, which second step is
    possible. In particular a timed wait expires only for a thread that has gone to sleep before. */
module LaneOrder {
  import opened Lanes
  import R = LaneRuns

  /** The act names a thread that it may notify, if it notifies one. */
  predicate NotifiesSomeone(l: Lane, a: Act) {
    && (a.Pop? ==> l.queue.pushers.MayNotify(a.choice))
    && (a.Get? ==> l.store.inserters.MayNotify(a.choice))
  }

  // ---- The processing thread ----

  /** What may follow a processing step taken in state `l`. */
  predicate ProcessorFollows(l: Lane, first: Act, second: Act) {
    match first
    case CheckProcessor(stop) => !stop && second.Pop? && !second.expired
    case Pop(expired, _) =>
      if l.queue.items != [] then second.Convert?
      else if expired then second.CheckProcessor?
      else second.Pop?
    case Convert => second.Insert? && !second.expired && l.processor.Loaded? && !l.processor.frame.converted
    case Insert(expired) => if |l.store.items| == 100 && !expired then second.Insert? else second.CheckProcessor?
    case _ => false
  }

  lemma {:induction false} ProcessorUndisturbed(l: Lane, acts: seq<Act>)
    requires Valid(l, acts) && forall i :: 0 <= i < |acts| ==> !R.ProcessorAct(acts[i])
    ensures var l' := Final(l, acts);
            && l'.processor == l.processor
            && l'.queue.poppers.Has(PROCESSOR) == l.queue.poppers.Has(PROCESSOR)
            && l'.store.inserters.Has(PROCESSOR) == l.store.inserters.Has(PROCESSOR)
    decreases |acts|
  {
    if acts != [] {
      ProcessorUndisturbed(Apply(l, acts[0]), acts[1..]);
    }
  }

  lemma AfterProcessorStep(l: Lane, first: Act, second: Act)
    requires Bounded(l) && Parked(l) && Enabled(l, first) && R.ProcessorAct(first) && R.ProcessorAct(second)
    ensures var l' := Apply(l, first);
            ProcessorFollows(l, first, second)
            <==> match second
                 case CheckProcessor(_) => l'.processor.ProcTop?
                 case Pop(expired, _) => l'.processor.Popping? && (expired ==> l'.queue.poppers.Has(PROCESSOR))
                 case Convert => l'.processor.Loaded?
                 case Insert(expired) => l'.processor.Inserting? && (expired ==> l'.store.inserters.Has(PROCESSOR))
                 case _ => false
  {
  }

  lemma ProcessorOrder(l: Lane, first: Act, between: seq<Act>, second: Act)
    requires Bounded(l) && Parked(l) && Enabled(l, first) && R.ProcessorAct(first) && R.ProcessorAct(second)
    requires Valid(Apply(l, first), between) && forall i :: 0 <= i < |between| ==> !R.ProcessorAct(between[i])
    requires NotifiesSomeone(Final(Apply(l, first), between), second)
    ensures Enabled(Final(Apply(l, first), between), second) <==> ProcessorFollows(l, first, second)
  {
    AfterProcessorStep(l, first, second);
    ProcessorUndisturbed(Apply(l, first), between);
  }

  // ---- The sending thread ----

  /** What may follow a sending step taken in state `l`. */
  predicate SenderFollows(l: Lane, first: Act, second: Act) {
    match first
    case CheckSender(stop) => !stop && second.Get? && !second.expired
    case Get(expired, _) =>
      if l.cursor in l.store.items then second.SubmitScene?
      else if expired then second.Advance?
      else second.Get?
    case SubmitScene => second.SubmitDepth?
    case SubmitDepth => second.Advance?
    case Advance => second.CheckSender?
    case _ => false
  }

  lemma {:induction false} SenderUndisturbed(l: Lane, acts: seq<Act>)
    requires Valid(l, acts) && forall i :: 0 <= i < |acts| ==> !R.SenderAct(acts[i])
    ensures Final(l, acts).sender == l.sender && R.GetterParked(Final(l, acts)) == R.GetterParked(l)
    decreases |acts|
  {
    if acts != [] {
      SenderUndisturbed(Apply(l, acts[0]), acts[1..]);
    }
  }

  lemma AfterSenderStep(l: Lane, first: Act, second: Act)
    requires Parked(l) && Enabled(l, first) && R.SenderAct(first) && R.SenderAct(second)
    ensures var l' := Apply(l, first);
            SenderFollows(l, first, second)
            <==> match second
                 case CheckSender(_) => l'.sender.SendTop?
                 case Get(expired, _) => l'.sender.Getting? && (expired ==> R.GetterParked(l'))
                 case SubmitScene => l'.sender.Holding?
                 case SubmitDepth => l'.sender.SceneSent?
                 case Advance => l'.sender.Decided?
                 case _ => false
  {
  }

  lemma SenderOrder(l: Lane, first: Act, between: seq<Act>, second: Act)
    requires Parked(l) && Enabled(l, first) && R.SenderAct(first) && R.SenderAct(second)
    requires Valid(Apply(l, first), between) && forall i :: 0 <= i < |between| ==> !R.SenderAct(between[i])
    requires NotifiesSomeone(Final(Apply(l, first), between), second)
    ensures Enabled(Final(Apply(l, first), between), second) <==> SenderFollows(l, first, second)
  {
    AfterSenderStep(l, first, second);
    SenderUndisturbed(Apply(l, first), between);
  }
}
