/** The bounded queue of src/concurrency/bounded_queue.h for any number of threads, with
    spurious wakeups and an adversarial choice of the thread each `notify_one` wakes. */
module BoundedQueues {
  import opened Options
  import opened Monitors

  datatype State<T> = State(xs: seq<T>, capacity: nat, data: CondVar, space: CondVar)

  // -------------------------------------------- one indivisible section of each call

  /** From taking the mutex, first or after a wait, to waiting (again) or returning. */
  function Push<T>(s: State<T>, t: Thread, x: T, chosen: Thread): State<T> {
    if |s.xs| == s.capacity then s.(space := s.space.Resume(t).Wait(t))
    else s.(xs := s.xs + [x], data := s.data.NotifyOne(chosen), space := s.space.Resume(t))
  }

  function Pop<T>(s: State<T>, t: Thread, chosen: Thread): State<T> {
    if s.xs == [] then s.(data := s.data.Resume(t).Wait(t))
    else s.(xs := s.xs[1..], data := s.data.Resume(t), space := s.space.NotifyOne(chosen))
  }

  function TryPop<T>(s: State<T>, chosen: Thread): State<T> {
    if s.xs == [] then s
    else s.(xs := s.xs[1..], space := s.space.NotifyOne(chosen))
  }

  function Clear<T>(s: State<T>): State<T> {
    s.(xs := [], space := s.space.NotifyAll())
  }

  // ------------------------------------------------------------------- the class

  /** Each method is one section. `chosen` is the thread a `notify_one` happened to wake. */
  class BoundedQueue<T> {
    var xs: seq<T>
    const capacity: nat
    var data: CondVar
    var space: CondVar

    ghost function View(): State<T>
      reads this
    {
      State(xs, capacity, data, space)
    }

    constructor (capacity: nat)
      ensures View() == State([], capacity, Nobody, Nobody)
    {
      this.capacity := capacity;
      xs, data, space := [], Nobody, Nobody;
    }

    method PushSection(t: Thread, x: T) returns (done: bool, chosen: Thread)
      modifies this
      ensures View() == Push(old(View()), t, x, chosen) && old(data).MayNotify(chosen)
      ensures done <==> |old(xs)| != capacity
    {
      chosen := Choose(data);
      space := space.Resume(t);
      if |xs| == capacity {
        space := space.Wait(t);
        return false, chosen;
      }
      xs := xs + [x];
      data := data.NotifyOne(chosen);
      done := true;
    }

    method PopSection(t: Thread) returns (x: Option<T>, chosen: Thread)
      modifies this
      ensures View() == Pop(old(View()), t, chosen) && old(space).MayNotify(chosen)
      ensures x == if old(xs) == [] then None else Some(old(xs)[0])
    {
      chosen := Choose(space);
      data := data.Resume(t);
      if |xs| == 0 {
        data := data.Wait(t);
        return None, chosen;
      }
      x := Some(xs[0]);
      xs := xs[1..];
      space := space.NotifyOne(chosen);
    }

    method TryPopSection() returns (x: Option<T>, chosen: Thread)
      modifies this
      ensures View() == TryPop(old(View()), chosen) && old(space).MayNotify(chosen)
      ensures x == if old(xs) == [] then None else Some(old(xs)[0])
    {
      chosen := Choose(space);
      if |xs| > 0 {
        x := Some(xs[0]);
        xs := xs[1..];
        space := space.NotifyOne(chosen);
      } else {
        x := None;
      }
    }

    method ClearSection()
      modifies this
      ensures View() == Clear(old(View()))
    {
      xs := [];
      space := space.NotifyAll();
    }
  }

  method Choose(cv: CondVar) returns (chosen: Thread)
    ensures cv.MayNotify(chosen)
  {
    chosen := 0;
    if cv.waiting != {} {
      chosen :| chosen in cv.waiting;
    }
  }

  // ------------------------------------------------------------------------ runs

  /** A run of the queue. `calls` has the argument of each thread's last call of `push`, which
      it still holds when it wakes up. `entered` and `removed` are what the actions added and
      what they popped or cleared. */
  datatype Run<T> = Run(q: State<T>, calls: map<Thread, T>, entered: seq<T>, removed: seq<T>)

  function Init<T>(capacity: nat): Run<T> {
    Run(State([], capacity, Nobody, Nobody), map[], [], [])
  }

  datatype Action<T> =
    | DoPush(t: Thread, x: T, chosen: Thread)
    | DoPop(t: Thread, chosen: Thread)
    | DoTryPop(t: Thread, chosen: Thread)
    | DoClear(t: Thread)
    | ResumePush(t: Thread, chosen: Thread)
    | ResumePop(t: Thread, chosen: Thread)
    | SpuriousPush(t: Thread)
    | SpuriousPop(t: Thread)

  predicate Outside<T>(s: State<T>, t: Thread) {
    !s.data.Has(t) && !s.space.Has(t)
  }

  predicate Enabled<T>(r: Run<T>, a: Action<T>) {
    match a
    case DoPush(t, _, chosen) => Outside(r.q, t) && r.q.data.MayNotify(chosen)
    case DoPop(t, chosen) => Outside(r.q, t) && r.q.space.MayNotify(chosen)
    case DoTryPop(t, chosen) => Outside(r.q, t) && r.q.space.MayNotify(chosen)
    case DoClear(t) => Outside(r.q, t)
    case ResumePush(t, chosen) => t in r.q.space.notified && t in r.calls && r.q.data.MayNotify(chosen)
    case ResumePop(t, chosen) => t in r.q.data.notified && r.q.space.MayNotify(chosen)
    case SpuriousPush(t) => t in r.q.space.waiting
    case SpuriousPop(t) => t in r.q.data.waiting
  }

  /** A push goes through exactly when there is room; a pop when there is an item, the front. */
  function Through<T>(s: State<T>, x: T): seq<T> {
    if |s.xs| < s.capacity then [x] else []
  }

  function Front<T>(xs: seq<T>): seq<T> {
    if xs == [] then [] else [xs[0]]
  }

  function Pushed<T>(r: Run<T>, t: Thread, x: T, chosen: Thread): Run<T> {
    r.(q := Push(r.q, t, x, chosen), entered := r.entered + Through(r.q, x))
  }

  function Popped<T>(r: Run<T>, t: Thread, chosen: Thread): Run<T> {
    r.(q := Pop(r.q, t, chosen), removed := r.removed + Front(r.q.xs))
  }

  function Next<T>(r: Run<T>, a: Action<T>): Run<T>
    requires Enabled(r, a)
  {
    match a
    case DoPush(t, x, chosen) => Pushed(r, t, x, chosen).(calls := r.calls[t := x])
    case DoPop(t, chosen) => Popped(r, t, chosen)
    case DoTryPop(_, chosen) => r.(q := TryPop(r.q, chosen), removed := r.removed + Front(r.q.xs))
    case DoClear(_) => r.(q := Clear(r.q), removed := r.removed + r.q.xs)
    case ResumePush(t, chosen) => Pushed(r, t, r.calls[t], chosen)
    case ResumePop(t, chosen) => Popped(r, t, chosen)
    case SpuriousPush(t) => r.(q := r.q.(space := r.q.space.Wake(t)))
    case SpuriousPop(t) => r.(q := r.q.(data := r.q.data.Wake(t)))
  }

  function RunFrom<T>(r: Run<T>, actions: seq<Action<T>>): Option<Run<T>>
    decreases |actions|
  {
    if actions == [] then Some(r)
    else if Enabled(r, actions[0]) then RunFrom(Next(r, actions[0]), actions[1..])
    else None
  }

  ghost predicate Reachable<T(!new)>(r: Run<T>) {
    exists actions: seq<Action<T>> :: RunFrom(Init(r.q.capacity), actions) == Some(r)
  }

  // ------------------------------------------------------------------- invariant

  /** Bounded, and no wakeup lost on either side. */
  ghost predicate Alert<T>(s: State<T>) {
    && |s.xs| <= s.capacity
    && s.data.Valid() && s.space.Valid()
    && s.data.Alert(|s.xs|)
    && s.space.Alert(s.capacity - |s.xs|)
  }

  /** Besides, first in first out. */
  ghost predicate Invariant<T>(r: Run<T>) {
    && Alert(r.q)
    && r.q.space.Inside() <= r.calls.Keys
    && r.entered == r.removed + r.q.xs
  }

  lemma PushKeepsAlert<T>(s: State<T>, t: Thread, x: T, chosen: Thread)
    requires Alert(s) && s.data.MayNotify(chosen)
    requires Outside(s, t) || t in s.space.notified
    ensures Alert(Push(s, t, x, chosen))
    ensures Push(s, t, x, chosen).space.Inside() <= s.space.Inside() + {t}
  {
    if |s.xs| == s.capacity {
      SleepKeepsAlert(s.space, t);
    } else {
      ResumeKeepsAlert(s.space, t, s.capacity - |s.xs|);
      NotifyOneKeepsAlert(s.data, chosen, |s.xs|);
    }
  }

  lemma TryPopKeepsAlert<T>(s: State<T>, chosen: Thread)
    requires Alert(s) && s.space.MayNotify(chosen)
    ensures Alert(TryPop(s, chosen)) && TryPop(s, chosen).space.Inside() == s.space.Inside()
  {
    if s.xs != [] { NotifyOneKeepsAlert(s.space, chosen, s.capacity - |s.xs|); }
  }

  lemma PopKeepsAlert<T>(s: State<T>, t: Thread, chosen: Thread)
    requires Alert(s) && s.space.MayNotify(chosen)
    requires Outside(s, t) || t in s.data.notified
    ensures Alert(Pop(s, t, chosen)) && Pop(s, t, chosen).space.Inside() == s.space.Inside()
  {
    if s.xs == [] {
      SleepKeepsAlert(s.data, t);
    } else {
      ResumeKeepsAlert(s.data, t, |s.xs|);
      TryPopKeepsAlert(s, chosen);
      assert Pop(s, t, chosen) == TryPop(s, chosen).(data := s.data.Resume(t));
    }
  }

  /** What a push adds to the queue is what the run records. */
  lemma PushKeepsOrder<T>(r: Run<T>, t: Thread, x: T, chosen: Thread)
    requires |r.q.xs| <= r.q.capacity && r.entered == r.removed + r.q.xs
    ensures Pushed(r, t, x, chosen).entered == r.removed + Push(r.q, t, x, chosen).xs
  {
    assert (r.removed + r.q.xs) + [x] == r.removed + (r.q.xs + [x]);
    assert (r.removed + r.q.xs) + [] == r.removed + r.q.xs;
  }

  /** And what a pop takes off. */
  lemma TakeFront<T>(removed: seq<T>, xs: seq<T>)
    ensures removed + xs == (removed + Front(xs)) + (if xs == [] then [] else xs[1..])
  {
    assert xs == Front(xs) + (if xs == [] then [] else xs[1..]);
  }

  lemma NextKeepsInvariant<T>(r: Run<T>, a: Action<T>)
    requires Invariant(r) && Enabled(r, a)
    ensures Invariant(Next(r, a)) && Next(r, a).q.capacity == r.q.capacity
  {
    TakeFront(r.removed, r.q.xs);
    match a {
      case DoPush(t, x, chosen) =>
        PushKeepsAlert(r.q, t, x, chosen);
        PushKeepsOrder(r, t, x, chosen);
      case ResumePush(t, chosen) =>
        PushKeepsAlert(r.q, t, r.calls[t], chosen);
        PushKeepsOrder(r, t, r.calls[t], chosen);
      case DoPop(t, chosen) => PopKeepsAlert(r.q, t, chosen);
      case ResumePop(t, chosen) => PopKeepsAlert(r.q, t, chosen);
      case DoTryPop(_, chosen) => TryPopKeepsAlert(r.q, chosen);
      case DoClear(_) => assert r.q.space.NotifyAll().Inside() == r.q.space.Inside();
      case SpuriousPush(t) => WakeKeepsAlert(r.q.space, t, r.q.capacity - |r.q.xs|);
      case SpuriousPop(t) => WakeKeepsAlert(r.q.data, t, |r.q.xs|);
    }
  }

  lemma {:induction false} RunKeepsInvariant<T>(r: Run<T>, actions: seq<Action<T>>)
    requires Invariant(r) && RunFrom(r, actions).Some?
    ensures Invariant(RunFrom(r, actions).value) && RunFrom(r, actions).value.q.capacity == r.q.capacity
    decreases |actions|
  {
    if actions != [] {
      NextKeepsInvariant(r, actions[0]);
      RunKeepsInvariant(Next(r, actions[0]), actions[1..]);
    }
  }

  lemma ReachableIsInvariant<T(!new)>(r: Run<T>)
    requires Reachable(r)
    ensures Invariant(r)
  {
    var actions :| RunFrom(Init<T>(r.q.capacity), actions) == Some(r);
    RunKeepsInvariant(Init<T>(r.q.capacity), actions);
  }

  // ---------------------------------------------------------------- main results

  /** After every run the queue is within its capacity and holds what the pushes that went
      through added, in their order, minus what the pops and clears took, from the front. */
  lemma BoundedFifo<T>(capacity: nat, actions: seq<Action<T>>)
    requires RunFrom(Init<T>(capacity), actions).Some?
    ensures var r := RunFrom(Init<T>(capacity), actions).value;
            |r.q.xs| <= capacity && r.removed <= r.entered && r.q.xs == r.entered[|r.removed|..]
  {
    RunKeepsInvariant(Init<T>(capacity), actions);
  }

  /** The value a resumed push adds is the argument of that thread's last call of `push`. */
  lemma {:induction false} CallsAreLastPushes<T>(r: Run<T>, actions: seq<Action<T>>, t: Thread)
    requires RunFrom(r, actions).Some?
    ensures var calls := RunFrom(r, actions).value.calls;
            && (forall i :: 0 <= i < |actions| && LastPush(actions, i, t) ==> t in calls && calls[t] == actions[i].x)
            && ((forall i :: 0 <= i < |actions| ==> !IsPush(actions[i], t)) ==>
                  (t in calls <==> t in r.calls) && (t in calls ==> calls[t] == r.calls[t]))
    decreases |actions|
  {
    if actions != [] {
      var rest := actions[1..];
      CallsAreLastPushes(Next(r, actions[0]), rest, t);
      forall i | 0 <= i < |actions| && LastPush(actions, i, t)
        ensures t in RunFrom(r, actions).value.calls && RunFrom(r, actions).value.calls[t] == actions[i].x
      {
        if i > 0 {
          assert rest[i - 1] == actions[i] && LastPush(rest, i - 1, t);
        } else {
          assert forall j :: 0 <= j < |rest| ==> rest[j] == actions[j + 1];
        }
      }
    }
  }

  predicate IsPush<T>(a: Action<T>, t: Thread) {
    a.DoPush? && a.t == t
  }

  predicate LastPush<T>(actions: seq<Action<T>>, i: nat, t: Thread)
    requires i < |actions|
  {
    IsPush(actions[i], t) && forall j :: i < j < |actions| ==> !IsPush(actions[j], t)
  }

  /** No lost wakeups: if someone sleeps in `pop` while items are there, or in `push` while
      there is room, then some thread is awake whose section will now go through. */
  lemma NoLostWakeups<T(!new)>(r: Run<T>)
    requires Reachable(r)
    ensures r.q.data.waiting != {} && r.q.xs != [] ==>
              exists t, chosen :: Enabled(r, Action<T>.ResumePop(t, chosen))
                                  && Next(r, ResumePop(t, chosen)).q.xs == r.q.xs[1..]
    ensures r.q.space.waiting != {} && |r.q.xs| < r.q.capacity ==>
              exists t, chosen :: Enabled(r, Action<T>.ResumePush(t, chosen))
                                  && Next(r, ResumePush(t, chosen)).q.xs == r.q.xs + [r.calls[t]]
  {
    ReachableIsInvariant(r);
    if r.q.data.waiting != {} && r.q.xs != [] {
      var t :| t in r.q.data.notified;
      var chosen := SomeoneIn(r.q.space);
      assert Enabled(r, Action<T>.ResumePop(t, chosen));
      assert Next(r, ResumePop(t, chosen)).q.xs == r.q.xs[1..];
    }
    if r.q.space.waiting != {} && |r.q.xs| < r.q.capacity {
      var t :| t in r.q.space.notified;
      var chosen := SomeoneIn(r.q.data);
      assert t in r.q.space.Inside();
      assert Enabled(r, Action<T>.ResumePush(t, chosen));
      assert Next(r, ResumePush(t, chosen)).q.xs == r.q.xs + [r.calls[t]];
    }
  }

  ghost function SomeoneIn(cv: CondVar): (chosen: Thread)
    ensures cv.MayNotify(chosen)
  {
    if cv.waiting == {} then 0 else var t :| t in cv.waiting; t
  }

  /** Nobody inside is awake. */
  predicate Asleep<T>(s: State<T>) {
    s.data.notified == {} && s.space.notified == {}
  }

  /** When all are asleep, poppers sleep only on an empty queue and pushers only on a full
      one. */
  lemma SleepersHaveReason<T(!new)>(r: Run<T>)
    requires Reachable(r) && Asleep(r.q)
    ensures r.q.data.waiting != {} ==> r.q.xs == []
    ensures r.q.space.waiting != {} ==> |r.q.xs| == r.q.capacity
  {
    ReachableIsInvariant(r);
  }

  ghost predicate Deadlocked<T>(s: State<T>) {
    Asleep(s) && s.data.waiting != {} && s.space.waiting != {}
  }

  /** Pushers and poppers can all be asleep together exactly when the capacity is zero, the
      case the constructor's comment would rule out. */
  lemma DeadlockIffNoCapacity<T(!new)>(capacity: nat, x: T)
    ensures (exists r: Run<T> :: r.q.capacity == capacity && Reachable(r) && Deadlocked(r.q)) <==> capacity == 0
  {
    if r: Run<T> :| r.q.capacity == capacity && Reachable(r) && Deadlocked(r.q) {
      SleepersHaveReason(r);
    }
    if capacity == 0 {
      var a, b := Action<T>.DoPop(0, 0), DoPush(1, x, 0);
      var r0 := Init<T>(0);
      assert Enabled(r0, a);
      var r1 := Next(r0, a);
      assert Enabled(r1, b);
      var r2 := Next(r1, b);
      assert [a, b][1..] == [b] && [b][1..] == [];
      assert RunFrom(r2, []) == Some(r2);
      assert RunFrom(r1, [b]) == Some(r2);
      assert RunFrom(r0, [a, b]) == Some(r2);
      assert 0 in r2.q.data.waiting && 1 in r2.q.space.waiting;
      assert Deadlocked(r2.q) && Reachable(r2);
    }
  }

  // -------------------------------------------------------------------- settling

  function Work<T>(s: State<T>): nat {
    Pending(s.data) + Pending(s.space)
  }

  predicate IsResume<T>(a: Action<T>) {
    a.ResumePush? || a.ResumePop?
  }

  lemma ResumeDoesWork<T>(r: Run<T>, a: Action<T>)
    requires Invariant(r) && Enabled(r, a) && IsResume(a)
    ensures Work(Next(r, a).q) < Work(r.q)
  {
    if a.ResumePush? {
      ResumeUses(r.q.space, a.t);
      NotifyOneUses(r.q.data, a.chosen);
    } else {
      ResumeUses(r.q.data, a.t);
      NotifyOneUses(r.q.space, a.chosen);
    }
  }

  /** Threads that were woken cannot keep waking and re-sleeping each other: without new
      calls and spurious wakeups at most Work sections run, and unless all threads inside
      are then asleep one more can run. */
  lemma {:induction false} ResumesSettle<T>(r: Run<T>, resumes: seq<Action<T>>)
    requires Invariant(r) && RunFrom(r, resumes).Some?
    requires forall a :: a in resumes ==> IsResume(a)
    ensures |resumes| <= Work(r.q)
    ensures var r' := RunFrom(r, resumes).value;
            !Asleep(r'.q) ==> exists a: Action<T> :: IsResume(a) && Enabled(r', a)
    decreases |resumes|
  {
    if resumes == [] {
      if t :| t in r.q.space.notified {
        assert t in r.q.space.Inside();
        assert Enabled(r, Action<T>.ResumePush(t, SomeoneIn(r.q.data)));
      } else if t :| t in r.q.data.notified {
        assert Enabled(r, Action<T>.ResumePop(t, SomeoneIn(r.q.space)));
      }
    } else {
      NextKeepsInvariant(r, resumes[0]);
      ResumeDoesWork(r, resumes[0]);
      ResumesSettle(Next(r, resumes[0]), resumes[1..]);
    }
  }
}
