/** The exact condition under which the server can still show a frame of an eye. */
module Recovery {
  import opened Frames
  import opened Pipeline
  import opened Driving
  import opened Doom
  import L = Lanes
  import R = LaneRuns
  import Closing
  import Server
  import Guarantees

  lemma FreshClient(used: set<nat>) returns (c: nat)
    ensures c !in used && forall u :: u in used ==> u < c
    decreases |used|
  {
    c := 0;
    if used != {} {
      var u :| u in used;
      var rest := used - {u};
      c := FreshClient(rest);
      c := if u < c then c else u + 1;
      assert forall v :: v in used ==> v == u || v in rest;
    }
  }

  lemma FeedingTicketed(l: L.Lane, a: L.Act, issued: nat)
    requires Open(l) && Starved(l) && Feeds(l.(issued := issued), a)
    ensures var l' := L.Apply(l.(issued := issued), a); Open(l') && SameSender(l, l') && Closer(l, l')
  {
    FeedingProgress(l.(issued := issued), a);
  }

  /** A new client connects and brings the frame that a starved eye needs. */
  lemma Feed(s: State, e: Eye) returns (run: seq<Event>)
    requires !s.shutdown && s.At(e).eye == e && Open(s.At(e)) && Starved(s.At(e))
    ensures Valid(s, run) && !Final(s, run).shutdown
    ensures var l, l' := s.At(e), Final(s, run).At(e); Open(l') && SameSender(l, l') && Closer(l, l')
  {
    var c := FreshClient(s.clients.Keys);
    var s1 := Apply(s, Spawn(c));
    One(s, Spawn(c));
    var serve := Serve(s1, c, L.Upcoming(s.At(e)), e);
    var f := Frame(NextTicket(s1), L.Upcoming(s.At(e)), e, false);
    FeedingTicketed(s.At(e), PushOf(Ticketing(s1, e), c, f), Ticketing(s1, e).issued);
    Join(s, [Spawn(c)], serve);
    run := [Spawn(c)] + serve;
  }

  lemma ProcessorStep(s: State, e: Eye)
    requires !s.shutdown && Open(s.At(e)) && !Starved(s.At(e))
    ensures var ev := OfLane(e, NextProcessorAct(s.At(e)));
            && Enabled(s, ev) && !Apply(s, ev).shutdown
            && var l, l' := s.At(e), Apply(s, ev).At(e);
               !Spent(l') && Raw(l') && SameSender(l, l') && (Passed(l') ==> Closer(l, l'))
  {
    LaneEvent(s, e, NextProcessorAct(s.At(e)));
    Progress(s.At(e));
  }

  lemma {:induction false} Obtain(s: State, e: Eye) returns (run: seq<Event>)
    requires !s.shutdown && s.At(e).eye == e && Raw(s.At(e)) && !Spent(s.At(e))
    ensures Valid(s, run) && R.Taken(Final(s, run).At(e)) == R.Taken(s.At(e)) + 1
    decreases Passed(s.At(e)), !Hope(s.At(e)), |Pending(s.At(e))|, StepsToMap(s.At(e).processor)
  {
    var l := s.At(e);
    if !Passed(l) {
      var acts := DeliverNext(l);
      R.TakenCountsFetches(l, acts);
      run := Lift(s, e, acts);
      return;
    }
    if Starved(l) {
      run := Feed(s, e);
    } else {
      ProcessorStep(s, e);
      run := [OfLane(e, NextProcessorAct(l))];
      One(s, run[0]);
    }
    var rest := Obtain(Final(s, run), e);
    Join(s, run, rest);
    run := run + rest;
  }

  /** Whatever the rest of the server does, shutdown included, a spent eye takes no further frame. */
  lemma SpentEyeNeverRecovers(s: State, run: seq<Event>, e: Eye)
    requires Valid(s, run) && Spent(s.At(e))
    ensures Spent(Final(s, run).At(e)) && R.Taken(Final(s, run).At(e)) == R.Taken(s.At(e))
  {
    RunIsLaneRun(s, run, e);
    SpentIsFinal(s.At(e), ProjectRun(s, run, e));
    R.TakenCountsFetches(s.At(e), ProjectRun(s, run, e));
  }

  /** No continuation of the whole server gives the eye another frame. */
  ghost predicate Dead(s: State, e: Eye) {
    forall more :: Valid(s, more) ==> R.Taken(Final(s, more).At(e)) == R.Taken(s.At(e))
  }

  /** In every state that the server can reach, an eye is dead if and only if it is spent or, once
      shutdown is requested, its sender is not waiting for the frame that is next to arrive. */
  lemma EyeIsDeadExactlyWhen(run: seq<Event>, e: Eye)
    requires Valid(INIT, run)
    ensures var s := Final(INIT, run);
            Dead(s, e) <==> if s.shutdown then !Closing.LastChance(s, e) else Spent(s.At(e))
  {
    var s := Final(INIT, run);
    Server.EveryRunIsSafe(run);
    Server.EveryLaneIsSafe(run, e);
    Guarantees.ConvertedPastProcessor(s.At(e));
    if s.shutdown {
      DeadAfterShutdown(s, e);
    } else {
      DeadWithoutShutdown(s, e);
    }
  }

  lemma DeadAfterShutdown(s: State, e: Eye)
    requires s.shutdown && s.At(e).eye == e && Raw(s.At(e)) && Server.FreshFrames(s)
    ensures Dead(s, e) <==> !Closing.LastChance(s, e)
  {
    if Closing.LastChance(s, e) {
      var more := Closing.TakeLastFrame(s, e);
      assert Valid(s, more) && R.Taken(Final(s, more).At(e)) > R.Taken(s.At(e));
    } else {
      forall more | Valid(s, more)
        ensures R.Taken(Final(s, more).At(e)) == R.Taken(s.At(e))
      {
        Closing.NoChanceIsFinal(s, more, e);
      }
    }
  }

  lemma DeadWithoutShutdown(s: State, e: Eye)
    requires !s.shutdown && s.At(e).eye == e && Raw(s.At(e))
    ensures Dead(s, e) <==> Spent(s.At(e))
  {
    if Spent(s.At(e)) {
      forall more | Valid(s, more)
        ensures R.Taken(Final(s, more).At(e)) == R.Taken(s.At(e))
      {
        SpentEyeNeverRecovers(s, more, e);
      }
    } else {
      var more := Obtain(s, e);
      assert Valid(s, more) && R.Taken(Final(s, more).At(e)) > R.Taken(s.At(e));
    }
  }
}
