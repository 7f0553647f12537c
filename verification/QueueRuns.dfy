/** The unbounded queue of src/concurrency/queue.h used by any number of threads, with spurious
    wakeups and an adversarial choice of the thread each `notify_one` wakes. */
module QueueRuns {
  import opened Options
  import opened Monitors
  import opened Queues

  /** `entered` and `removed` record history: what was ever added, and what was popped or
      cleared. */
  datatype Run<T> = Run(q: QueueState<T>, entered: seq<T>, removed: seq<T>)

  function Init<T>(): Run<T> {
    Run(QueueState([], Nobody), [], [])
  }

  datatype Action<T> =
    | DoPush(x: T, chosen: Thread)
    | DoPop(t: Thread)
    | DoTryPop
    | DoClear
    | ResumePop(t: Thread)
    | Spurious(t: Thread)

  predicate Enabled<T>(r: Run<T>, a: Action<T>) {
    match a
    case DoPush(_, chosen) => r.q.data.MayNotify(chosen)
    case DoPop(t) => !r.q.data.Has(t)
    case DoTryPop => true
    case DoClear => true
    case ResumePop(t) => t in r.q.data.notified
    case Spurious(t) => t in r.q.data.waiting
  }

  function Front<T>(xs: seq<T>): seq<T> {
    if xs == [] then [] else [xs[0]]
  }

  function Next<T>(r: Run<T>, a: Action<T>): Run<T>
    requires Enabled(r, a)
  {
    match a
    case DoPush(x, chosen) => Run(Push(r.q, x, chosen), r.entered + [x], r.removed)
    case DoPop(t) => r.(q := Pop(r.q, t), removed := r.removed + Front(r.q.xs))
    case DoTryPop => r.(q := TryPop(r.q), removed := r.removed + Front(r.q.xs))
    case DoClear => r.(q := Clear(r.q), removed := r.removed + r.q.xs)
    case ResumePop(t) => r.(q := Pop(r.q, t), removed := r.removed + Front(r.q.xs))
    case Spurious(t) => r.(q := r.q.(data := r.q.data.Wake(t)))
  }

  function RunFrom<T>(r: Run<T>, actions: seq<Action<T>>): Option<Run<T>>
    decreases |actions|
  {
    if actions == [] then Some(r)
    else if Enabled(r, actions[0]) then RunFrom(Next(r, actions[0]), actions[1..])
    else None
  }

  ghost predicate Invariant<T>(r: Run<T>) {
    Alert(r.q) && r.entered == r.removed + r.q.xs
  }

  lemma TakeFront<T>(removed: seq<T>, xs: seq<T>)
    ensures removed + xs == (removed + Front(xs)) + (if xs == [] then [] else xs[1..])
  {
    assert xs == Front(xs) + (if xs == [] then [] else xs[1..]);
  }

  lemma PopKeepsInvariant<T>(r: Run<T>, t: Thread)
    requires Invariant(r) && t !in r.q.data.waiting
    ensures Invariant(r.(q := Pop(r.q, t), removed := r.removed + Front(r.q.xs)))
  {
    PopKeepsAlert(r.q, t);
    TakeFront(r.removed, r.q.xs);
  }

  lemma PushKeepsInvariant<T>(r: Run<T>, x: T, chosen: Thread)
    requires Invariant(r) && r.q.data.MayNotify(chosen)
    ensures Invariant(Run(Push(r.q, x, chosen), r.entered + [x], r.removed))
  {
    PushKeepsAlert(r.q, x, chosen);
    assert (r.removed + r.q.xs) + [x] == r.removed + (r.q.xs + [x]);
  }

  lemma NextKeepsInvariant<T>(r: Run<T>, a: Action<T>)
    requires Invariant(r) && Enabled(r, a)
    ensures Invariant(Next(r, a))
  {
    match a {
      case DoPush(x, chosen) => PushKeepsInvariant(r, x, chosen);
      case DoPop(t) => PopKeepsInvariant(r, t);
      case DoTryPop => TakeFront(r.removed, r.q.xs);
      case DoClear =>
      case ResumePop(t) => PopKeepsInvariant(r, t);
      case Spurious(t) => WakeKeepsAlert(r.q.data, t, |r.q.xs|);
    }
  }

  lemma {:induction false} RunKeepsInvariant<T>(r: Run<T>, actions: seq<Action<T>>)
    requires Invariant(r) && RunFrom(r, actions).Some?
    ensures Invariant(RunFrom(r, actions).value)
    decreases |actions|
  {
    if actions != [] {
      NextKeepsInvariant(r, actions[0]);
      RunKeepsInvariant(Next(r, actions[0]), actions[1..]);
    }
  }

  /** First in, first out, over every run of any number of threads. */
  lemma Fifo<T>(actions: seq<Action<T>>)
    requires RunFrom(Init<T>(), actions).Some?
    ensures var r := RunFrom(Init<T>(), actions).value;
            r.removed <= r.entered && r.q.xs == r.entered[|r.removed|..]
  {
    RunKeepsInvariant(Init<T>(), actions);
  }

  /** No lost wakeups: if someone sleeps while there are items, some thread is awake whose pop
      will go through. So when all threads inside are asleep, the queue is empty. */
  lemma NoLostWakeups<T>(actions: seq<Action<T>>)
    requires RunFrom(Init<T>(), actions).Some?
    ensures var r := RunFrom(Init<T>(), actions).value;
            && (r.q.data.waiting != {} && r.q.xs != [] ==>
                  exists t: Thread :: Enabled(r, Action<T>.ResumePop(t))
                                      && Next(r, Action<T>.ResumePop(t)).removed == r.removed + [r.q.xs[0]])
            && (r.q.data.waiting != {} && r.q.data.notified == {} ==> r.q.xs == [])
  {
    RunKeepsInvariant(Init<T>(), actions);
    var r := RunFrom(Init<T>(), actions).value;
    if r.q.data.waiting != {} && r.q.xs != [] {
      var t :| t in r.q.data.notified;
      assert Enabled(r, Action<T>.ResumePop(t));
    }
  }

  /** Woken threads get through or back to sleep: without new calls and spurious wakeups each
      awake thread runs one section, and unless all threads inside are asleep one can run. */
  lemma {:induction false} ResumesSettle<T>(r: Run<T>, resumes: seq<Action<T>>)
    requires Invariant(r) && RunFrom(r, resumes).Some?
    requires forall a :: a in resumes ==> a.ResumePop?
    ensures |resumes| <= |r.q.data.notified|
    ensures var r' := RunFrom(r, resumes).value;
            r'.q.data.notified != {} ==> exists t: Thread :: Enabled(r', Action<T>.ResumePop(t))
    decreases |resumes|
  {
    if resumes == [] {
      if t :| t in r.q.data.notified {
        assert Enabled(r, Action<T>.ResumePop(t));
      }
    } else {
      var t := resumes[0].t;
      NextKeepsInvariant(r, resumes[0]);
      assert |r.q.data.notified - {t}| == |r.q.data.notified| - 1;
      assert r.q.data.notified - {t} - {t} == r.q.data.notified - {t};
      ResumesSettle(Next(r, resumes[0]), resumes[1..]);
    }
  }
}
