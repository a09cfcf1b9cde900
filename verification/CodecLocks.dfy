/** The locking of one encoder: any number of threads change its resolution, send it frames and
    receive its packets. Changing the resolution is not atomic; the lock makes it look so. */
module CodecLocks {
  import opened Cameras

  /** Where a thread is. A change writes the settings one field at a time, frees the old context and
      opens a new one, all between taking and releasing the context lock. */
  datatype Point =
    | Outside
    | Began(target: Size)
    | WroteWidth(target: Size)
    | WroteBoth(target: Size)
    | Freed(target: Size)
    | Finished
    | InUse

  datatype Lock = Free | Held(owner: nat)

  /** What an encoder call worked with. */
  datatype Use = Use(info: Size, context: Context)

  datatype State = State(info: Size, context: Context, lock: Lock, threads: map<nat, Point>, uses: seq<Use>) {
    function Point(t: nat): Point {
      if t in threads then threads[t] else Outside
    }

    function Move(t: nat, p: Point): State {
      this.(threads := threads[t := p])
    }
  }

  datatype Step =
    | BeginChange(t: nat, target: Size)
    | WriteWidth(t: nat)
    | WriteHeight(t: nat)
    | FreeContext(t: nat)
    | Reopen(t: nat, opens: bool)
    | BeginUse(t: nat)
    | CallEncoder(t: nat)
    | Leave(t: nat)

  function Init(size: Size): State {
    State(size, Open(size), Free, map[], [])
  }

  predicate Enabled(s: State, e: Step) {
    match e
    case BeginChange(t, _) => s.lock.Free? && s.Point(t).Outside?
    case WriteWidth(t) => s.Point(t).Began?
    case WriteHeight(t) => s.Point(t).WroteWidth?
    case FreeContext(t) => s.Point(t).WroteBoth?
    case Reopen(t, _) => s.Point(t).Freed?
    case BeginUse(t) => s.lock.Free? && s.Point(t).Outside?
    case CallEncoder(t) => s.Point(t).InUse?
    case Leave(t) => s.Point(t).Finished?
  }

  function Apply(s: State, e: Step): State
    requires Enabled(s, e)
  {
    match e
    case BeginChange(t, target) => s.(lock := Held(t)).Move(t, Began(target))
    case WriteWidth(t) =>
      s.(info := s.info.(width := s.Point(t).target.width)).Move(t, WroteWidth(s.Point(t).target))
    case WriteHeight(t) =>
      s.(info := s.info.(height := s.Point(t).target.height)).Move(t, WroteBoth(s.Point(t).target))
    case FreeContext(t) => s.(context := Closed).Move(t, Freed(s.Point(t).target))
    case Reopen(t, opens) => s.(context := if opens then Open(s.info) else Closed).Move(t, Finished)
    case BeginUse(t) => s.(lock := Held(t)).Move(t, InUse)
    case CallEncoder(t) => s.(uses := s.uses + [Use(s.info, s.context)]).Move(t, Finished)
    case Leave(t) => s.(lock := Free).Move(t, Outside)
  }

  predicate Valid(s: State, run: seq<Step>)
    decreases |run|
  {
    run == [] || (Enabled(s, run[0]) && Valid(Apply(s, run[0]), run[1..]))
  }

  function Final(s: State, run: seq<Step>): State
    requires Valid(s, run)
    decreases |run|
  {
    if run == [] then s else Final(Apply(s, run[0]), run[1..])
  }

  /** No step of the run fails to reopen the encoder. */
  predicate Reopens(run: seq<Step>) {
    forall i :: 0 <= i < |run| ==> run[i].Reopen? ==> run[i].opens
  }

  /** Outside a change the context, if open, is open for the current settings. */
  predicate Coherent(info: Size, context: Context) {
    context.Open? ==> context.size == info
  }

  ghost predicate Inv(s: State) {
    && (forall t :: !s.Point(t).Outside? <==> s.lock == Held(t))
    && (s.lock.Free? || s.Point(s.lock.owner).InUse? || s.Point(s.lock.owner).Finished? ==> Coherent(s.info, s.context))
    && (s.lock.Held? ==>
          match s.Point(s.lock.owner)
          case WroteBoth(target) => s.info == target
          case Freed(target) => s.info == target && s.context.Closed?
          case WroteWidth(target) => s.info.width == target.width
          case _ => true)
    && (forall i :: 0 <= i < |s.uses| ==> Coherent(s.uses[i].info, s.uses[i].context))
  }

  /** Additionally, no reopening has failed. */
  ghost predicate Healthy(s: State) {
    && (s.context.Closed? ==> s.lock.Held? && s.Point(s.lock.owner).Freed?)
    && (forall i :: 0 <= i < |s.uses| ==> s.uses[i].context.Open?)
  }

  lemma StepKeepsInv(s: State, e: Step)
    requires Inv(s) && Enabled(s, e)
    ensures Inv(Apply(s, e))
    ensures Healthy(s) && (e.Reopen? ==> e.opens) ==> Healthy(Apply(s, e))
  {
  }

  /** In every run every encoder call is made with a context that, if open, was opened for the
      settings of that moment; and it is open as long as no reopening has failed. */
  lemma {:induction false} CallsSeeMatchingContext(s: State, run: seq<Step>)
    requires Inv(s) && Valid(s, run)
    ensures Inv(Final(s, run))
    ensures Healthy(s) && Reopens(run) ==> Healthy(Final(s, run))
    decreases |run|
  {
    if run != [] {
      StepKeepsInv(s, run[0]);
      CallsSeeMatchingContext(Apply(s, run[0]), run[1..]);
      assert Reopens(run) ==> Reopens(run[1..]);
    }
  }

  lemma EncoderCallsAreCoherent(size: Size, run: seq<Step>)
    requires Valid(Init(size), run)
    ensures var s := Final(Init(size), run);
            && (forall i :: 0 <= i < |s.uses| ==> Coherent(s.uses[i].info, s.uses[i].context))
            && (Reopens(run) ==> forall i :: 0 <= i < |s.uses| ==> s.uses[i].context == Open(s.uses[i].info))
            && (forall t, t' :: !s.Point(t).Outside? && !s.Point(t').Outside? ==> t == t')
  {
    CallsSeeMatchingContext(Init(size), run);
  }

  // ---- What the encoder works with ----

  /** The size that the last change of the run asked for. */
  function LastTarget(size: Size, run: seq<Step>): Size
    decreases |run|
  {
    if run == [] then size else LastTarget(if run[0].BeginChange? then run[0].target else size, run[1..])
  }

  /** Whether the last reopening of the run succeeded. */
  function LastOpened(ok: bool, run: seq<Step>): bool
    decreases |run|
  {
    if run == [] then ok else LastOpened(if run[0].Reopen? then run[0].opens else ok, run[1..])
  }

  predicate Settled(s: State) {
    s.lock.Free? || s.Point(s.lock.owner).InUse? || s.Point(s.lock.owner).Finished?
  }

  /** The settings are those of the last change, as far as it has got, and the context is open for them
      unless the last reopening failed. */
  ghost predicate Tracks(s: State, target: Size, ok: bool) {
    if Settled(s) then s.info == target && s.context == if ok then Open(target) else Closed
    else
      match s.Point(s.lock.owner)
      case Began(size) => size == target
      case WroteWidth(size) => size == target
      case WroteBoth(size) => size == target
      case Freed(size) => size == target
      case _ => false
  }

  lemma StepTracks(s: State, e: Step, target: Size, ok: bool)
    requires Inv(s) && Enabled(s, e) && Tracks(s, target, ok)
    ensures Tracks(Apply(s, e), if e.BeginChange? then e.target else target, if e.Reopen? then e.opens else ok)
  {
  }

  lemma {:induction false} RunTracks(s: State, run: seq<Step>, target: Size, ok: bool)
    requires Inv(s) && Valid(s, run) && Tracks(s, target, ok)
    ensures Tracks(Final(s, run), LastTarget(target, run), LastOpened(ok, run))
    decreases |run|
  {
    if run != [] {
      StepKeepsInv(s, run[0]);
      StepTracks(s, run[0], target, ok);
      RunTracks(Apply(s, run[0]), run[1..], if run[0].BeginChange? then run[0].target else target,
                if run[0].Reopen? then run[0].opens else ok);
    }
  }

  /** Under every interleaving an encoder call works with the settings of the last change, and with a
      context that is open for them exactly when the last reopening succeeded. */
  lemma CallsUseTheLastChange(size: Size, run: seq<Step>, t: nat)
    requires Valid(Init(size), run) && Enabled(Final(Init(size), run), CallEncoder(t))
    ensures var s, target := Final(Init(size), run), LastTarget(size, run);
            Apply(s, CallEncoder(t)).uses
            == s.uses + [Use(target, if LastOpened(true, run) then Open(target) else Closed)]
  {
    CallsSeeMatchingContext(Init(size), run);
    RunTracks(Init(size), run, size, true);
  }
}
