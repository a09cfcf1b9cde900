/** A run of the whole server in which nothing goes wrong except that one eye's frames come too late,
    and after which that eye never shows another frame. */
module JamRun {
  import opened Frames
  import opened Pipeline
  import opened Driving
  import M = FrameMaps
  import L = Lanes
  import R = LaneRuns
  import Q = FrameQueues
  import Doom
  import Guarantees
  import Echo

  /** One client at the top of its loop, the right eye's turn, and `n` requests of each eye behind it:
      the right-eye frames are in the map, the left-eye frames in their queue. */
  ghost predicate Ready(s: State, n: nat) {
    && s.clients == map[0 := AtTop] && !s.shutdown && !s.isLeft
    && s.right.eye == Right && s.right.issued == n && R.Resting(s.right, n)
    && s.left.eye == Left && s.left.issued == n && |s.left.queue.items| == n
  }

  lemma PushSettles(l: L.Lane, n: nat, c: nat, f: Frame)
    requires R.Resting(l, n) && f.eye == l.eye && !f.converted
    ensures var a := PushOf(l, c, f);
            && L.Enabled(l, a) && R.Quiet(L.Apply(l, a), n, [f])
            && L.Apply(l, a).processor.ProcTop? && L.Apply(l, a).cursor == l.cursor
            && L.Apply(l, a).issued == l.issued && L.Apply(l, a).eye == l.eye
  {
  }

  lemma PushLengthens(l: L.Lane, c: nat, f: Frame)
    requires |l.queue.items| < Q.MAX_SIZE && f.eye == l.eye && !f.converted
    ensures var a := PushOf(l, c, f);
            && L.Enabled(l, a) && |L.Apply(l, a).queue.items| == |l.queue.items| + 1
            && L.Apply(l, a).issued == l.issued && L.Apply(l, a).eye == l.eye
  {
  }

  function FrameOf(e: Eye, n: nat): Frame {
    Frame(Ticket(e, n), n, e, false)
  }

  /** A right-eye frame is asked for, rendered and queued. */
  lemma QueueRight(s: State, n: nat) returns (run: seq<Event>)
    requires Ready(s, n)
    ensures Valid(s, run) && Clean(s, run)
    ensures var s' := Final(s, run);
            && s'.clients == map[0 := AtTop] && !s'.shutdown && s'.isLeft && s'.left == s.left
            && s'.right.eye == Right && s'.right.issued == n + 1 && s'.right.cursor == s.right.cursor
            && R.Quiet(s'.right, n, [FrameOf(Right, n)]) && s'.right.processor.ProcTop?
  {
    run := Serve(s, 0, n, Right);
    PushSettles(Ticketing(s, Right), n, 0, FrameOf(Right, n));
  }

  /** The processor files the queued right-eye frame in the map. */
  lemma FileRight(s: State, n: nat) returns (run: seq<Event>)
    requires R.Quiet(s.right, n, [FrameOf(Right, n)]) && s.right.processor.ProcTop? && n < M.MAX_SIZE && !s.shutdown
    ensures Valid(s, run) && Clean(s, run)
    ensures var s' := Final(s, run);
            && SameOutside(s, s', Right) && R.Resting(s'.right, n + 1) && s'.right.cursor == s.right.cursor
            && s'.right.issued == s.right.issued && s'.right.eye == s.right.eye
  {
    var acts := R.LoadOne(s.right, n, FrameOf(Right, n));
    var load := Lift(s, Right, acts);
    var s1 := Final(s, load);
    acts := R.InsertOne(s1.right, n);
    var insert := Lift(s1, Right, acts);
    Join(s, load, insert);
    run := load + insert;
  }

  /** A left-eye frame is asked for, rendered and queued. */
  lemma QueueLeft(s: State, n: nat) returns (run: seq<Event>)
    requires s.clients == map[0 := AtTop] && !s.shutdown && s.isLeft
    requires s.left.eye == Left && s.left.issued == |s.left.queue.items| == n && n < Q.MAX_SIZE
    ensures Valid(s, run) && Clean(s, run)
    ensures var s' := Final(s, run);
            && s'.clients == map[0 := AtTop] && !s'.shutdown && !s'.isLeft && s'.right == s.right
            && s'.left.eye == Left && s'.left.issued == |s'.left.queue.items| == n + 1
  {
    run := Serve(s, 0, n, Left);
    PushLengthens(Ticketing(s, Left), 0, FrameOf(Left, n));
  }

  lemma Round(s: State, n: nat) returns (run: seq<Event>)
    requires Ready(s, n) && n < M.MAX_SIZE
    ensures Valid(s, run) && Clean(s, run)
    ensures Ready(Final(s, run), n + 1) && Final(s, run).right.cursor == s.right.cursor
  {
    var queue := QueueRight(s, n);
    var s1 := Final(s, queue);
    var file := FileRight(s1, n);
    var s2 := Final(s1, file);
    var other := QueueLeft(s2, n);
    Join(s1, file, other);
    Join(s, queue, file + other);
    run := queue + (file + other);
  }

  lemma {:induction false} Rounds(s: State, n: nat, last: nat) returns (run: seq<Event>)
    requires Ready(s, n) && n <= last <= M.MAX_SIZE
    ensures Valid(s, run) && Clean(s, run)
    ensures Ready(Final(s, run), last) && Final(s, run).right.cursor == s.right.cursor
    decreases last - n
  {
    run := [];
    if n < last {
      var first := Round(s, n);
      var rest := Rounds(Final(s, first), n + 1, last);
      Join(s, first, rest);
      run := first + rest;
    }
  }

  /** With nothing in the map the sender gives up on one index after another. */
  lemma {:induction false} SkipTo(s: State, n: nat) returns (run: seq<Event>)
    requires R.Resting(s.right, 0) && s.right.cursor <= n && !s.shutdown
    ensures Valid(s, run) && Clean(s, run)
    ensures var s' := Final(s, run);
            && SameOutside(s, s', Right) && R.Resting(s'.right, 0) && s'.right.cursor == n
            && s'.right.issued == s.right.issued && s'.right.eye == s.right.eye
    decreases n - s.right.cursor
  {
    run := [];
    if s.right.cursor < n {
      var acts := R.SkipOne(s.right);
      var skip := Lift(s, Right, acts);
      var rest := SkipTo(Final(s, skip), n);
      Join(s, skip, rest);
      run := skip + rest;
    }
  }

  /** Before any client connects, the sender gives up on the first hundred indices. */
  lemma SkipAhead() returns (run: seq<Event>)
    ensures Valid(INIT, run) && Clean(INIT, run)
    ensures Ready(Final(INIT, run), 0) && Final(INIT, run).right.cursor == M.MAX_SIZE
  {
    var wait := SkipTo(INIT, M.MAX_SIZE);
    var s := Final(INIT, wait);
    One(s, Spawn(0));
    Join(INIT, wait, [Spawn(0)]);
    run := wait + [Spawn(0)];
  }

  lemma LateRounds(last: nat) returns (run: seq<Event>)
    requires last <= M.MAX_SIZE
    ensures Valid(INIT, run) && Clean(INIT, run)
    ensures Ready(Final(INIT, run), last) && Final(INIT, run).right.cursor == M.MAX_SIZE
  {
    var skips := SkipAhead();
    var rounds := Rounds(Final(INIT, skips), 0, last);
    Join(INIT, skips, rounds);
    run := skips + rounds;
  }

  /** From start-up, with renderers that answer what they were asked, no broken connection, no encoder
      failure, no shutdown and not a single frame lost, the server can reach a state in which the
      right eye is dead for good: no continuation ever submits another of its frames. */
  lemma OneEyeCanDie() returns (run: seq<Event>)
    ensures Valid(INIT, run) && Echo.Echoing(INIT, run) && !Final(INIT, run).shutdown
    ensures (forall i :: 0 <= i < |run| ==> Harmless(run[i])) && Final(INIT, run).lost == map[]
    ensures R.Jammed(Final(INIT, run).right)
    ensures forall more :: Valid(Final(INIT, run), more) ==>
              Final(Final(INIT, run), more).right.scene == Final(INIT, run).right.scene
  {
    run := LateRounds(M.MAX_SIZE);
    CleanMeans(INIT, run);
    var s := Final(INIT, run);
    forall more | Valid(s, more)
      ensures Final(s, more).right.scene == s.right.scene
    {
      Guarantees.JammedEyeNeverRecovers(s, more, Right);
    }
  }

  lemma LastFrameSettlesIt(l: L.Lane)
    requires R.Quiet(l, 99, [FrameOf(Right, 99)]) && l.processor.ProcTop? && l.cursor == 100
    ensures Doom.Spent(l) && !R.Jammed(l)
  {
    var keys := l.store.items.Keys;
    assert |l.store.items| == |keys| && 99 !in keys;
    assert Doom.Pending(l) == [99];
    assert Doom.Fills(keys + {99}, [99][1..], 100);
  }

  /** Such an eye is lost before its map is full: with one slot left and a late frame in the queue its
      threads run, it is not jammed, and yet it can never obtain another frame. */
  lemma FateIsSettledEarly() returns (run: seq<Event>)
    ensures Valid(INIT, run) && Echo.Echoing(INIT, run) && !Final(INIT, run).shutdown
    ensures (forall i :: 0 <= i < |run| ==> Harmless(run[i])) && Final(INIT, run).lost == map[]
    ensures var l := Final(INIT, run).right;
            !R.Jammed(l) && l.processor.ProcTop? && l.sender.SendTop? && |l.store.items| == 99 && R.Fruitless(l)
  {
    var rounds := LateRounds(99);
    var queue := QueueRight(Final(INIT, rounds), 99);
    Join(INIT, rounds, queue);
    run := rounds + queue;
    CleanMeans(INIT, run);
    LastFrameSettlesIt(Final(INIT, run).right);
    Doom.FruitlessIsSpent(Final(INIT, run).right);
  }
}
