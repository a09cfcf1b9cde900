/** The threads blocked on one condition variable. */
module Waiting {

  /** How one lock-held region of a timed wait ends. */
  datatype Attempt = Done | Slept | TimedOut

  /** `asleep` threads are still registered with the condition variable; `notified` threads have been
      removed from it by a notification but have not yet run again. */
  datatype Waiters = Waiters(asleep: set<nat>, notified: set<nat>) {
    predicate Has(t: nat) {
      t in asleep || t in notified
    }

    function Without(t: nat): Waiters {
      Waiters(asleep - {t}, notified - {t})
    }

    function Sleep(t: nat): Waiters {
      Waiters(asleep + {t}, notified - {t})
    }

    /** `notify_one` picks any registered thread, or does nothing when there is none. */
    predicate MayNotify(choice: nat) {
      asleep == {} || choice in asleep
    }

    function NotifyOne(choice: nat): Waiters
      requires MayNotify(choice)
    {
      if asleep == {} then this else Waiters(asleep - {choice}, notified + {choice})
    }
  }

  const NOBODY := Waiters({}, {})

  /** All waiters other than `t` are as before. */
  ghost predicate OthersUnchanged(w: Waiters, w': Waiters, t: nat) {
    forall u :: u != t ==> (u in w'.asleep <==> u in w.asleep) && (u in w'.notified <==> u in w.notified)
  }

  /** What one notification does: some sleeper, if there is one, is notified. */
  ghost predicate OneNotified(w: Waiters, w': Waiters) {
    if w.asleep == {} then w' == w
    else exists u :: u in w.asleep && w'.asleep == w.asleep - {u} && w'.notified == w.notified + {u}
  }
}
