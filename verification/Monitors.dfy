/** Condition variables as the concurrent queues use them. A thread is named by a number.
    Code between taking a mutex and waiting on it, or releasing it, is one indivisible
    section; a condition variable only matters at the ends of sections. */
module Monitors {
  type Thread = nat

  /** `waiting` threads sleep until notified or spuriously woken; `notified` ones have been
      woken and will run their section again once they get the mutex. */
  datatype CondVar = CondVar(waiting: set<Thread>, notified: set<Thread>) {

    ghost predicate Valid() {
      waiting !! notified
    }

    function Inside(): set<Thread> {
      waiting + notified
    }

    predicate Has(t: Thread) {
      t in waiting || t in notified
    }

    function Wait(t: Thread): CondVar {
      CondVar(waiting + {t}, notified - {t})
    }

    /** The thread gets the mutex back; no effect on a thread that was not waiting. */
    function Resume(t: Thread): CondVar {
      CondVar(waiting, notified - {t})
    }

    /** `notify_one` wakes one waiting thread, `chosen`, if there is any. */
    function NotifyOne(chosen: Thread): CondVar {
      if chosen in waiting then Wake(chosen) else this
    }

    predicate MayNotify(chosen: Thread) {
      waiting != {} ==> chosen in waiting
    }

    function NotifyAll(): CondVar {
      CondVar({}, notified + waiting)
    }

    function Wake(t: Thread): CondVar {
      CondVar(waiting - {t}, notified + {t})
    }

    /** No wakeup has been lost: while threads still wait, at least `available` are awake. */
    ghost predicate Alert(available: int) {
      waiting != {} ==> |notified| >= available
    }
  }

  const Nobody := CondVar({}, {})

  /** Adding one item and notifying keeps up with the item. */
  lemma NotifyOneKeepsAlert(cv: CondVar, chosen: Thread, available: int)
    requires cv.Valid() && cv.Alert(available) && cv.MayNotify(chosen)
    ensures cv.NotifyOne(chosen).Valid() && cv.NotifyOne(chosen).Alert(available + 1)
    ensures cv.NotifyOne(chosen).Inside() == cv.Inside()
  {
    if cv.waiting != {} {
      assert |cv.notified + {chosen}| == |cv.notified| + 1;
    }
  }

  lemma ResumeKeepsAlert(cv: CondVar, t: Thread, available: int)
    requires cv.Valid() && cv.Alert(available)
    ensures cv.Resume(t).Valid() && cv.Resume(t).Alert(available - 1)
    ensures t !in cv.notified ==> cv.Resume(t) == cv
    ensures t !in cv.waiting ==> cv.Resume(t).Inside() == cv.Inside() - {t}
  {
    ResumeIsInside(cv, t);
    if t !in cv.notified {
      assert cv.notified - {t} == cv.notified;
    } else {
      assert |cv.notified - {t}| == |cv.notified| - 1;
    }
  }

  lemma ResumeIsInside(cv: CondVar, t: Thread)
    ensures t !in cv.waiting ==> cv.Resume(t).Inside() == cv.Inside() - {t}
  {
  }

  lemma SleepKeepsAlert(cv: CondVar, t: Thread)
    requires cv.Valid()
    ensures cv.Resume(t).Wait(t).Valid() && cv.Resume(t).Wait(t).Alert(0)
    ensures cv.Resume(t).Wait(t).Inside() == cv.Inside() + {t}
  {
  }

  lemma WakeKeepsAlert(cv: CondVar, t: Thread, available: int)
    requires cv.Valid() && cv.Alert(available) && t in cv.waiting
    ensures cv.Wake(t).Valid() && cv.Wake(t).Alert(available)
    ensures cv.Wake(t).Inside() == cv.Inside()
  {
    assert |cv.notified + {t}| == |cv.notified| + 1;
  }

  /** Twice the threads inside, plus the awake ones: what a resumed section uses up. */
  function Pending(cv: CondVar): nat {
    2 * |cv.waiting| + 3 * |cv.notified|
  }

  lemma ResumeUses(cv: CondVar, t: Thread)
    requires cv.Valid() && t in cv.notified
    ensures Pending(cv.Resume(t)) == Pending(cv) - 3
    ensures Pending(cv.Resume(t).Wait(t)) == Pending(cv) - 1
  {
    assert |cv.notified - {t}| == |cv.notified| - 1;
    assert cv.notified - {t} - {t} == cv.notified - {t};
    assert |cv.waiting + {t}| == |cv.waiting| + 1;
  }

  lemma NotifyOneUses(cv: CondVar, chosen: Thread)
    requires cv.Valid()
    ensures Pending(cv.NotifyOne(chosen)) <= Pending(cv) + 1
  {
    if chosen in cv.waiting {
      assert |cv.notified + {chosen}| == |cv.notified| + 1;
      assert |cv.waiting - {chosen}| == |cv.waiting| - 1;
    }
  }
}
