/** Safety of the whole server over every run from start-up, and what follows from it. */
module Server {
  import opened Frames
  import opened Waiting
  import opened Words
  import opened Pipeline
  import L = Lanes
  import C = Custody

  /** Clients between the toggle and the increment of eye `e`'s counter. */
  function Gap(s: State, e: Eye): set<nat> {
    set c | c in s.clients && s.clients[c] == Toggled(e)
  }

  /** The toggle alternates, right eye first, and each toggle is either counted or still in the gap. */
  predicate Balanced(s: State) {
    && s.isLeft == (s.toggles % 2 == 1)
    && s.right.issued + |Gap(s, Right)| == (s.toggles + 1) / 2
    && s.left.issued + |Gap(s, Left)| == s.toggles / 2
  }

  function Sum(xs: seq<nat>): nat {
    if xs == [] then 0 else Sum(xs[..|xs| - 1]) + xs[|xs| - 1]
  }

  /** Successive readings of the two counters never go down, although they are not read together. */
  predicate StatsSound(s: State) {
    var st := s.stats;
    && st.seenLeft <= s.left.issued && st.seenRight <= s.right.issued
    && st.previous == U64(st.seenLeft + st.seenRight)
    && (st.seenLeft + st.seenRight < TWO_64 ==> Sum(st.logged) == st.previous)
    && match st.phase
       case LoadedOne(Left, v) => st.seenLeft <= v <= s.left.issued
       case LoadedOne(Right, v) => st.seenRight <= v <= s.right.issued
       case LoadedBoth(a, b) => st.seenLeft <= a <= s.left.issued && st.seenRight <= b <= s.right.issued
       case _ => true
  }

  /** A client pushes its frame unconverted. */
  predicate FreshFrames(s: State) {
    forall c :: c in s.clients && s.clients[c].Pushing? ==> !s.clients[c].frame.converted
  }

  /** Only clients in the middle of a push to eye `e` wait to push there. */
  predicate PushersArePushing(s: State, e: Eye) {
    forall c :: c in s.At(e).queue.pushers.asleep + s.At(e).queue.pushers.notified ==>
      c in s.clients && s.clients[c].Pushing? && s.clients[c].frame.eye == e
  }

  ghost predicate Inv(s: State) {
    && s.left.eye == Left && s.right.eye == Right
    && L.Inv(s.left) && L.Inv(s.right)
    && C.Conserved(s)
    && Balanced(s)
    && StatsSound(s)
    && FreshFrames(s)
    && PushersArePushing(s, Left) && PushersArePushing(s, Right)
  }

  predicate Takes(s: State, ev: Event, e: Eye)
    requires Enabled(s, ev)
  {
    ev.OfClient? && ev.what.Take? && s.clients[ev.client].eye == e
  }

  lemma LaneStep(s: State, ev: Event, e: Eye)
    requires Enabled(s, ev) && L.Inv(s.At(e))
    ensures L.Inv(Apply(s, ev).At(e))
  {
    ProjectStep(s, ev, e);
    L.RunKeepsInv(s.At(e), Project(s, ev, e));
  }

  lemma IssuedStep(s: State, ev: Event, e: Eye)
    requires Enabled(s, ev)
    ensures Apply(s, ev).At(e).issued == s.At(e).issued + if Takes(s, ev, e) then 1 else 0
    ensures Apply(s, ev).At(e).eye == s.At(e).eye
  {
  }

  lemma GapStep(s: State, ev: Event, e: Eye)
    requires Enabled(s, ev)
    ensures var g, g' := Gap(s, e), Gap(Apply(s, ev), e);
            if Toggles(ev) && s.isLeft == (e == Left) then ev.client !in g && g' == g + {ev.client}
            else if Takes(s, ev, e) then ev.client in g && g' == g - {ev.client}
            else g' == g
  {
  }

  lemma StepKeepsBalanced(s: State, ev: Event)
    requires Enabled(s, ev) && Balanced(s)
    ensures Balanced(Apply(s, ev))
  {
    IssuedStep(s, ev, Left);
    IssuedStep(s, ev, Right);
    GapStep(s, ev, Left);
    GapStep(s, ev, Right);
  }

  lemma SumAppend(xs: seq<nat>, x: nat)
    ensures Sum(xs + [x]) == Sum(xs) + x
  {
    assert (xs + [x])[..|xs|] == xs;
  }

  /** The reported difference, in wrapping arithmetic, is the true growth while the total fits. */
  lemma LogTelescopes(logged: seq<nat>, seen: nat, total: nat)
    requires seen <= total && (seen < TWO_64 ==> Sum(logged) == seen)
    ensures total < TWO_64 ==> Sum(logged + [U64(U64(total) - U64(seen))]) == U64(total) == total
  {
    SumAppend(logged, U64(U64(total) - U64(seen)));
    if total < TWO_64 {
      WrapDifference(seen, total);
    }
  }

  lemma LogStep(s: State)
    requires StatsReady(s, Log) && StatsSound(s)
    ensures StatsSound(s.(stats := NextStats(s, Log)))
  {
    var st := s.stats;
    if st.seenLeft + st.seenRight < TWO_64 {
      WrapDifference(st.seenLeft + st.seenRight, st.seenLeft + st.seenRight);
    }
    LogTelescopes(st.logged, st.seenLeft + st.seenRight, st.phase.left + st.phase.right);
  }

  lemma StatsActKeepsSound(s: State, tick: StatsAct)
    requires StatsReady(s, tick) && StatsSound(s)
    ensures StatsSound(s.(stats := NextStats(s, tick)))
  {
    if tick == Log {
      LogStep(s);
    }
  }

  lemma CountersMayGrow(s: State, s': State)
    requires StatsSound(s) && s'.stats == s.stats
    requires s.left.issued <= s'.left.issued && s.right.issued <= s'.right.issued
    ensures StatsSound(s')
  {
  }

  lemma StepKeepsStats(s: State, ev: Event)
    requires Enabled(s, ev) && StatsSound(s)
    ensures StatsSound(Apply(s, ev))
  {
    if ev.OfStats? {
      StatsActKeepsSound(s, ev.tick);
      assert Apply(s, ev) == s.(stats := NextStats(s, ev.tick));
    } else {
      IssuedStep(s, ev, Left);
      IssuedStep(s, ev, Right);
      CountersMayGrow(s, Apply(s, ev));
    }
  }

  lemma StepKeepsFresh(s: State, ev: Event)
    requires Enabled(s, ev) && FreshFrames(s)
    ensures FreshFrames(Apply(s, ev))
  {
  }

  /** A lane act adds at most the acting client to the waiting pushers, and only if it slept. */
  lemma PushersStep(l: L.Lane, a: L.Act, c: nat)
    requires L.Enabled(l, a) && c in L.Apply(l, a).queue.pushers.asleep + L.Apply(l, a).queue.pushers.notified
    ensures if a.Accept? && a.client == c then L.Accepted(l, a) == Slept
            else c in l.queue.pushers.asleep + l.queue.pushers.notified
  {
  }

  lemma StepKeepsPushers(s: State, ev: Event, e: Eye)
    requires Enabled(s, ev) && PushersArePushing(s, e)
    ensures PushersArePushing(Apply(s, ev), e)
  {
    var call, s' := CallOf(s, ev), Apply(s, ev);
    forall c | c in s'.At(e).queue.pushers.asleep + s'.At(e).queue.pushers.notified
      ensures c in s'.clients && s'.clients[c].Pushing? && s'.clients[c].frame.eye == e
    {
      if call.Call? && call.eye == e {
        PushersStep(s.At(e), call.act, c);
      }
    }
  }

  lemma StepKeepsInv(s: State, ev: Event)
    requires Inv(s) && Enabled(s, ev)
    ensures Inv(Apply(s, ev))
  {
    LaneStep(s, ev, Left);
    LaneStep(s, ev, Right);
    IssuedStep(s, ev, Left);
    IssuedStep(s, ev, Right);
    C.StepConserves(s, ev);
    StepKeepsBalanced(s, ev);
    StepKeepsStats(s, ev);
    StepKeepsFresh(s, ev);
    StepKeepsPushers(s, ev, Left);
    StepKeepsPushers(s, ev, Right);
  }

  lemma {:induction false} RunKeepsInv(s: State, run: seq<Event>)
    requires Inv(s) && Valid(s, run)
    ensures Inv(Final(s, run))
    decreases |run|
  {
    if run != [] {
      StepKeepsInv(s, run[0]);
      RunKeepsInv(Apply(s, run[0]), run[1..]);
    }
  }

  lemma InitBookkeeping()
    ensures Balanced(INIT) && StatsSound(INIT) && FreshFrames(INIT)
    ensures PushersArePushing(INIT, Left) && PushersArePushing(INIT, Right)
  {
  }

  lemma InitInv()
    ensures Inv(INIT)
  {
    L.InitInv(Left);
    L.InitInv(Right);
    C.InitConserved();
    InitBookkeeping();
  }

  /** In every run of the server, from start-up, under every interleaving and whatever the renderers
      reply. */
  lemma EveryRunIsSafe(run: seq<Event>)
    requires Valid(INIT, run)
    ensures Inv(Final(INIT, run))
  {
    InitInv();
    RunKeepsInv(INIT, run);
  }

  lemma EveryLaneIsSafe(run: seq<Event>, e: Eye)
    requires Valid(INIT, run)
    ensures L.Inv(Final(INIT, run).At(e)) && Final(INIT, run).At(e).eye == e
  {
    EveryRunIsSafe(run);
  }

  lemma EveryTicketIsHeldOnce(run: seq<Event>)
    requires Valid(INIT, run)
    ensures C.Conserved(Final(INIT, run))
  {
    EveryRunIsSafe(run);
  }
}
