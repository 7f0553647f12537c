/** The unbounded blocking queue of src/concurrency/queue.h. */
module Queues {
  import opened Options
  import opened Monitors

  datatype QueueState<T> = QueueState(xs: seq<T>, data: CondVar)

  function Push<T>(q: QueueState<T>, x: T, chosen: Thread): QueueState<T> {
    QueueState(q.xs + [x], q.data.NotifyOne(chosen))
  }

  /** One section of `pop`: the thread sleeps, or takes the front. */
  function Pop<T>(q: QueueState<T>, t: Thread): QueueState<T> {
    if q.xs == [] then q.(data := q.data.Resume(t).Wait(t))
    else QueueState(q.xs[1..], q.data.Resume(t))
  }

  function TryPop<T>(q: QueueState<T>): QueueState<T> {
    if q.xs == [] then q else q.(xs := q.xs[1..])
  }

  function Clear<T>(q: QueueState<T>): QueueState<T> {
    q.(xs := [])
  }

  class Queue<T> {
    var xs: seq<T>
    var data: CondVar

    function View(): QueueState<T>
      reads this
    {
      QueueState(xs, data)
    }

    constructor (xs: seq<T>)
      ensures View() == QueueState(xs, Nobody)
    {
      this.xs, data := xs, Nobody;
    }

    method PushSection(x: T) returns (chosen: Thread)
      modifies this
      ensures View() == Push(old(View()), x, chosen) && old(data).MayNotify(chosen)
    {
      xs := xs + [x];
      chosen := 0;
      if data.waiting != {} {
        chosen :| chosen in data.waiting;
      }
      data := data.NotifyOne(chosen);
    }

    method PopSection(t: Thread) returns (x: Option<T>)
      modifies this
      ensures View() == Pop(old(View()), t)
      ensures x == if old(xs) == [] then None else Some(old(xs)[0])
    {
      data := data.Resume(t);
      if |xs| == 0 {
        data := data.Wait(t);
        return None;
      }
      x := Some(xs[0]);
      xs := xs[1..];
    }

    method TryPopSection() returns (x: Option<T>)
      modifies this`xs
      ensures View() == TryPop(old(View()))
      ensures x == if old(xs) == [] then None else Some(old(xs)[0])
    {
      if |xs| > 0 {
        x := Some(xs[0]);
        xs := xs[1..];
      } else {
        x := None;
      }
    }

    method ClearSection()
      modifies this`xs
      ensures View() == Clear(old(View()))
    {
      xs := [];
    }
  }

  ghost predicate Alert<T>(q: QueueState<T>) {
    q.data.Valid() && q.data.Alert(|q.xs|)
  }

  lemma PushKeepsAlert<T>(q: QueueState<T>, x: T, chosen: Thread)
    requires Alert(q) && q.data.MayNotify(chosen)
    ensures Alert(Push(q, x, chosen)) && Push(q, x, chosen).data.Inside() == q.data.Inside()
  {
    NotifyOneKeepsAlert(q.data, chosen, |q.xs|);
  }

  /** No lost wakeups, also when items are taken by threads that never slept. */
  lemma PopKeepsAlert<T>(q: QueueState<T>, t: Thread)
    requires Alert(q) && t !in q.data.waiting
    ensures Alert(Pop(q, t))
    ensures Pop(q, t).data.Inside() == if q.xs == [] then q.data.Inside() + {t} else q.data.Inside() - {t}
  {
    if q.xs == [] {
      SleepKeepsAlert(q.data, t);
    } else {
      ResumeKeepsAlert(q.data, t, |q.xs|);
    }
  }
}
