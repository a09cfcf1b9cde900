/** The bounded keyed hand-off between a processing thread and a sending thread. As in the queue,
    each step is one region executed with the map's mutex held. */
module FrameMaps {
  import opened Frames
  import opened Waiting

  const MAX_SIZE: nat := 100
  const PURGE_INTERVAL: nat := 1000

  /** `sleepers` and `woken` are the blocked getters with the key each one wants. */
  datatype Store = Store(items: map<nat, Frame>, inserters: Waiters, sleepers: map<nat, nat>, woken: map<nat, nat>)

  const EMPTY := Store(map[], NOBODY, map[], map[])

  datatype Fetched = Found(frame: Frame) | GetSlept | GetTimedOut

  /** An insert never replaces an existing entry. Every getter is woken. */
  function InsertStep(m: Store, t: nat, key: nat, f: Frame, expired: bool): (Store, Attempt) {
    if |m.items| < MAX_SIZE then
      (Store(if key in m.items then m.items else m.items[key := f],
             m.inserters.Without(t), map[], m.woken + m.sleepers), Done)
    else if expired then
      (m.(inserters := m.inserters.Without(t)), TimedOut)
    else
      (m.(inserters := m.inserters.Sleep(t)), Slept)
  }

  /** The keys that taking `key` also throws away. */
  function Stale(items: map<nat, Frame>, key: nat): set<nat> {
    if key % PURGE_INTERVAL == 0 then set k | k in items && k < key else {}
  }

  /** Taking a frame purges stale keys at every interval and wakes one inserter. */
  function GetStep(m: Store, t: nat, key: nat, expired: bool, choice: nat): (Store, Fetched)
    requires m.inserters.MayNotify(choice)
  {
    if key in m.items then
      (Store(m.items - {key} - Stale(m.items, key), m.inserters.NotifyOne(choice),
             m.sleepers - {t}, m.woken - {t}), Found(m.items[key]))
    else if expired then
      (m.(sleepers := m.sleepers - {t}, woken := m.woken - {t}), GetTimedOut)
    else
      (m.(sleepers := m.sleepers[t := key], woken := m.woken - {t}), GetSlept)
  }

  /** A getter that sleeps unnotified waits for a key that is not there. */
  predicate GettersServed(m: Store) {
    forall t :: t in m.sleepers ==> m.sleepers[t] !in m.items
  }

  predicate InsertersServed(m: Store) {
    m.inserters.asleep != {} ==> MAX_SIZE - |m.items| <= |m.inserters.notified|
  }

  predicate Inv(m: Store) {
    |m.items| <= MAX_SIZE && GettersServed(m)
  }

  /** `t` is the only thread that ever inserts, and if it sleeps unnotified then the map is full. */
  predicate LoneInserter(m: Store, t: nat) {
    && m.inserters.asleep + m.inserters.notified <= {t}
    && m.inserters.asleep !! m.inserters.notified
    && (m.inserters.asleep != {} ==> |m.items| == MAX_SIZE)
  }

  lemma DropCounts(items: map<nat, Frame>, key: nat)
    requires key in items
    ensures var left := items - {key} - Stale(items, key);
            && left.Keys == items.Keys - {key} - Stale(items, key)
            && |left| == |items| - 1 - |Stale(items, key)|
  {
  }

  lemma InsertCounts(items: map<nat, Frame>, key: nat, f: Frame)
    requires key !in items
    ensures |items[key := f]| == |items| + 1
  {
  }

  lemma InsertKeepsInv(m: Store, t: nat, key: nat, f: Frame, expired: bool)
    requires Inv(m)
    ensures Inv(InsertStep(m, t, key, f, expired).0)
    ensures LoneInserter(m, t) ==> LoneInserter(InsertStep(m, t, key, f, expired).0, t)
  {
    if key !in m.items {
      InsertCounts(m.items, key, f);
    }
  }

  lemma GetKeepsInv(m: Store, t: nat, key: nat, expired: bool, choice: nat)
    requires Inv(m) && m.inserters.MayNotify(choice)
    ensures Inv(GetStep(m, t, key, expired, choice).0)
    ensures forall i :: LoneInserter(m, i) ==> LoneInserter(GetStep(m, t, key, expired, choice).0, i)
  {
    if key in m.items {
      DropCounts(m.items, key);
      var m' := GetStep(m, t, key, expired, choice).0;
      forall i | LoneInserter(m, i)
        ensures LoneInserter(m', i)
      {
        assert m'.inserters.asleep == {};
      }
    }
  }

  lemma DropKeepsExactly(items: map<nat, Frame>, key: nat)
    ensures var left := items - {key} - Stale(items, key);
            && (forall k :: k in left <==> k in items && k != key && (key % PURGE_INTERVAL == 0 ==> key < k))
            && (forall k :: k in left ==> left[k] == items[k])
  {
  }

  /** An insert succeeds exactly when fewer than a hundred keys are present, keeping the old frame of a
      present key and waking every getter; it gives up exactly on a full map after its deadline, and
      otherwise sleeps, unnotified. */
  lemma InsertMeans(m: Store, t: nat, key: nat, f: Frame, expired: bool)
    requires Inv(m)
    ensures var (m', outcome) := InsertStep(m, t, key, f, expired);
            && (outcome == Done <==> |m.items| < 100)
            && (outcome == TimedOut <==> |m.items| == 100 && expired)
            && (outcome == Slept <==> |m.items| == 100 && !expired)
            && (forall k :: k in m'.items <==> k in m.items || (outcome == Done && k == key))
            && (forall k :: k in m'.items ==> m'.items[k] == if k in m.items then m.items[k] else f)
            && (t in m'.inserters.asleep <==> outcome == Slept) && t !in m'.inserters.notified
            && OthersUnchanged(m.inserters, m'.inserters, t)
            && (if outcome == Done then m'.sleepers == map[] && m'.woken.Keys == m.woken.Keys + m.sleepers.Keys
                else m'.sleepers == m.sleepers && m'.woken == m.woken)
  {
  }

  /** A get succeeds exactly when its key is present, gives up exactly on a missing key after its
      deadline, and otherwise sleeps on that key. */
  lemma GetMeans(m: Store, t: nat, key: nat, expired: bool, choice: nat)
    requires Inv(m) && m.inserters.MayNotify(choice)
    ensures var (m', outcome) := GetStep(m, t, key, expired, choice);
            && (outcome.Found? <==> key in m.items) && (outcome.Found? ==> outcome.frame == m.items[key])
            && (outcome == GetTimedOut <==> key !in m.items && expired)
            && (outcome == GetSlept <==> key !in m.items && !expired)
            && (if outcome.Found? then OneNotified(m.inserters, m'.inserters)
                else m'.items == m.items && m'.inserters == m.inserters)
            && (t in m'.sleepers <==> outcome == GetSlept) && (outcome == GetSlept ==> m'.sleepers[t] == key)
            && t !in m'.woken
  {
  }

  /** A successful get keeps exactly the other keys, each with its frame, and for a key that is a multiple
      of a thousand exactly those above it. */
  lemma GetKeepsExactly(m: Store, t: nat, key: nat, expired: bool, choice: nat)
    requires m.inserters.MayNotify(choice) && key in m.items
    ensures var m' := GetStep(m, t, key, expired, choice).0;
            && (key % 1000 == 0 ==> forall k :: k in m'.items <==> k in m.items && key < k)
            && (key % 1000 != 0 ==> forall k :: k in m'.items <==> k in m.items && k != key)
            && (forall k :: k in m'.items ==> m'.items[k] == m.items[k])
            && |m'.items| == |m.items| - 1 - |Stale(m.items, key)|
  {
    DropCounts(m.items, key);
    DropKeepsExactly(m.items, key);
  }

  lemma NotifyCounts(w: Waiters, choice: nat)
    requires w.MayNotify(choice) && w.asleep !! w.notified && w.asleep != {}
    ensures |w.NotifyOne(choice).asleep| == |w.asleep| - 1
    ensures |w.NotifyOne(choice).notified| == |w.notified| + 1
  {
    assert w.asleep == w.NotifyOne(choice).asleep + {choice};
  }

  /** After a successful get, purge included, the single `notify_one` leaves every sleeping inserter
      spoken for exactly when at most one was asleep, or the slots that were free before together
      with the purged ones are already claimed by notified inserters. */
  lemma PurgeWakesEnough(m: Store, t: nat, key: nat, expired: bool, choice: nat)
    requires m.inserters.MayNotify(choice) && m.inserters.asleep !! m.inserters.notified && key in m.items
    ensures InsertersServed(GetStep(m, t, key, expired, choice).0)
       <==> || |m.inserters.asleep| <= 1
            || MAX_SIZE - |m.items| + |Stale(m.items, key)| <= |m.inserters.notified|
  {
    DropCounts(m.items, key);
    if m.inserters.asleep != {} {
      NotifyCounts(m.inserters, choice);
    }
  }

  /** `n` consecutive keys starting at `lo`, all holding `f`. */
  function Block(lo: nat, n: nat, f: Frame): (items: map<nat, Frame>)
    ensures |items| == n
    ensures forall k :: k in items <==> lo <= k < lo + n
  {
    if n == 0 then map[]
    else
      var rest := Block(lo, n - 1, f);
      assert rest[lo + n - 1 := f].Keys == rest.Keys + {lo + n - 1};
      assert |rest.Keys| == |rest| && |rest[lo + n - 1 := f].Keys| == |rest[lo + n - 1 := f]|;
      rest[lo + n - 1 := f]
  }

  /** A full map, two blocked inserters, and a get that purges: one inserter sleeps on although
      a hundred slots are free. */
  lemma TwoInsertersCanBeStranded(f: Frame)
    ensures var m := Store(Block(901, 100, f), Waiters({0, 1}, {}), map[], map[]);
            && Inv(m) && InsertersServed(m) && m.inserters.MayNotify(0)
            && !InsertersServed(GetStep(m, 2, 1000, false, 0).0)
  {
    var m := Store(Block(901, 100, f), Waiters({0, 1}, {}), map[], map[]);
    assert 901 in Stale(m.items, 1000);
    assert |m.inserters.asleep| == 2;
    PurgeWakesEnough(m, 2, 1000, false, 0);
  }

  lemma EraseThenPurge(items: map<nat, Frame>, key: nat)
    ensures items - {key} - Stale(items - {key}, key) == items - {key} - Stale(items, key)
  {
  }

  /** The mutable map; its methods are the lock-held regions. */
  class FrameMap {
    var items: map<nat, Frame>
    var inserters: Waiters
    var sleepers: map<nat, nat>
    var woken: map<nat, nat>

    function State(): Store
      reads this
    {
      Store(items, inserters, sleepers, woken)
    }

    constructor ()
      ensures State() == EMPTY && Inv(State())
    {
      items, inserters, sleepers, woken := map[], NOBODY, map[], map[];
    }

    method Insert(t: nat, key: nat, f: Frame, expired: bool) returns (outcome: Attempt)
      requires Inv(State())
      modifies this
      ensures (State(), outcome) == InsertStep(old(State()), t, key, f, expired)
      ensures Inv(State())
    {
      InsertKeepsInv(State(), t, key, f, expired);
      if |items| < MAX_SIZE {
        if key !in items {
          items := items[key := f];
        }
        inserters := inserters.Without(t);
        sleepers, woken := map[], woken + sleepers;
        return Done;
      } else if expired {
        inserters := inserters.Without(t);
        return TimedOut;
      }
      inserters := inserters.Sleep(t);
      return Slept;
    }

    method GetDelete(t: nat, key: nat, expired: bool, choice: nat) returns (outcome: Fetched)
      requires Inv(State()) && inserters.MayNotify(choice)
      modifies this
      ensures (State(), outcome) == GetStep(old(State()), t, key, expired, choice)
      ensures Inv(State())
    {
      GetKeepsInv(State(), t, key, expired, choice);
      if key in items {
        outcome := Found(items[key]);
        EraseThenPurge(items, key);
        items := items - {key};
        items := items - Stale(items, key);
        inserters := inserters.NotifyOne(choice);
        sleepers, woken := sleepers - {t}, woken - {t};
        return;
      } else if expired {
        sleepers, woken := sleepers - {t}, woken - {t};
        return GetTimedOut;
      }
      sleepers, woken := sleepers[t := key], woken - {t};
      return GetSlept;
    }
  }
}
