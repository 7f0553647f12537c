/** The thread pool of src/concurrency/thread_pool.cc: workers popping one queue of tasks,
    told to stop by one pill each. Steps are the sections between lock operations. */
module ThreadPools {
  import opened Options
  import opened Monitors
  import opened Queues

  type Task = nat

  /** The thread that owns the pool: still submitting, in the destructor's first loop with so
      many pills pushed, or in its second loop with so many workers joined. */
  datatype Phase = Open | Poisoning(pushed: nat) | Joining(joined: nat)

  /** A worker is about to pop, inside the queue's condition variable, running the task that
      was dequeued at some position, or has returned from its loop. */
  datatype Status = Ready | Queued | Running(position: nat) | Exited

  /** A queue item is a task or, as None, a pill. The rest is history: positions in `started`
      tell apart equal tasks, `due` is how many tasks had been submitted when the last pill was
      pushed. */
  datatype Pool = Pool(
    queue: QueueState<Option<Task>>,
    phase: Phase,
    workers: seq<Status>,
    submitted: seq<Task>,
    started: seq<Task>,
    finished: set<nat>,
    due: nat)

  function Init(n: nat): Pool {
    Pool(QueueState([], Nobody), Open, seq(n, _ => Ready), [], [], {}, 0)
  }

  /** The destructor has returned. */
  predicate Destroyed(p: Pool) {
    p.phase.Joining? && p.phase.joined >= |p.workers|
  }

  /** Tasks, too, may submit, also while the pool is being destroyed. */
  datatype Action =
    | Submit(task: Task, chosen: Thread)
    | Destroy
    | Poison(chosen: Thread)
    | StartJoining
    | Join
    | Take(worker: Thread)
    | Complete(worker: Thread)
    | Spurious(worker: Thread)

  predicate Enabled(p: Pool, a: Action) {
    match a
    case Submit(_, chosen) => !Destroyed(p) && p.queue.data.MayNotify(chosen)
    case Destroy => p.phase.Open?
    case Poison(chosen) =>
      p.phase.Poisoning? && p.phase.pushed < |p.workers| && p.queue.data.MayNotify(chosen)
    case StartJoining => p.phase.Poisoning? && p.phase.pushed >= |p.workers|
    case Join => p.phase.Joining? && p.phase.joined < |p.workers| && p.workers[p.phase.joined].Exited?
    case Take(w) => w < |p.workers| && (p.workers[w].Ready? || w in p.queue.data.notified)
    case Complete(w) => w < |p.workers| && p.workers[w].Running?
    case Spurious(w) => w in p.queue.data.waiting
  }

  function Next(p: Pool, a: Action): Pool
    requires Enabled(p, a)
  {
    match a
    case Submit(f, chosen) =>
      p.(queue := Push(p.queue, Some(f), chosen), submitted := p.submitted + [f])
    case Destroy => p.(phase := Poisoning(0))
    case Poison(chosen) =>
      p.(queue := Push(p.queue, None, chosen), phase := Poisoning(p.phase.pushed + 1), due := |p.submitted|)
    case StartJoining => p.(phase := Joining(0))
    case Join => p.(phase := Joining(p.phase.joined + 1))
    case Take(w) =>
      var p' := p.(queue := Pop(p.queue, w));
      if p.queue.xs == [] then p'.(workers := p.workers[w := Queued])
      else if p.queue.xs[0].None? then p'.(workers := p.workers[w := Exited])
      else p'.(workers := p.workers[w := Running(|p.started|)], started := p.started + [p.queue.xs[0].value])
    case Complete(w) =>
      p.(workers := p.workers[w := Ready], finished := p.finished + {p.workers[w].position})
    case Spurious(w) => p.(queue := p.queue.(data := p.queue.data.Wake(w)))
  }

  // ------------------------------------------------------------------- the class

  /** Each method is one indivisible section: of `submit`, of the destructor's loops, or of a
      worker's loop. */
  class ThreadPool {
    const work: Queue<Option<Task>>
    var phase: Phase
    var workers: seq<Status>
    ghost var submitted: seq<Task>
    var started: seq<Task>
    ghost var finished: set<nat>
    ghost var due: nat

    ghost function View(): Pool
      reads this, work
    {
      Pool(work.View(), phase, workers, submitted, started, finished, due)
    }

    /** A negative number of threads starts none. */
    constructor (numThreads: int)
      ensures View() == Init(if numThreads < 0 then 0 else numThreads) && fresh(work)
    {
      work := new Queue([]);
      phase, workers := Open, [];
      submitted, started, finished, due := [], [], {}, 0;
      new;
      var i := 0;
      while i < numThreads
        invariant 0 <= i && (i <= numThreads || i == 0)
        invariant View() == Init(i) && fresh(work)
      {
        workers := workers + [Ready];
        i := i + 1;
      }
    }

    method SubmitSection(f: Task) returns (chosen: Thread)
      requires !Destroyed(View())
      modifies this, work
      ensures Enabled(old(View()), Submit(f, chosen)) && View() == Next(old(View()), Submit(f, chosen))
    {
      chosen := work.PushSection(Some(f));
      submitted := submitted + [f];
    }

    /** One turn of the destructor's first loop, or its end. */
    method PoisonSection() returns (chosen: Thread)
      requires phase.Poisoning?
      modifies this, work
      ensures var a := if old(phase.pushed) < |old(workers)| then Poison(chosen) else StartJoining;
              Enabled(old(View()), a) && View() == Next(old(View()), a)
    {
      chosen := 0;
      if phase.pushed < |workers| {
        chosen := work.PushSection(None);
        phase := Poisoning(phase.pushed + 1);
        due := |submitted|;
      } else {
        phase := Joining(0);
      }
    }

    /** The head of a worker's loop: it sleeps, gets a task to run, or leaves the loop. */
    method TakeSection(w: Thread) returns (f: Option<Option<Task>>)
      requires Enabled(View(), Take(w))
      modifies this, work
      ensures View() == Next(old(View()), Take(w))
      ensures f == if old(work.xs) == [] then None else Some(old(work.xs)[0])
    {
      f := work.PopSection(w);
      match f {
        case None => workers := workers[w := Queued];
        case Some(None) => workers := workers[w := Exited];
        case Some(Some(task)) =>
          workers := workers[w := Running(|started|)];
          started := started + [task];
      }
    }

    /** The task has run. */
    method CompleteSection(w: Thread)
      requires Enabled(View(), Complete(w))
      modifies this
      ensures View() == Next(old(View()), Complete(w))
    {
      finished := finished + {workers[w].position};
      workers := workers[w := Ready];
    }
  }

  function RunFrom(p: Pool, actions: seq<Action>): Option<Pool>
    decreases |actions|
  {
    if actions == [] then Some(p)
    else if Enabled(p, actions[0]) then RunFrom(Next(p, actions[0]), actions[1..])
    else None
  }

  // -------------------------------------------------------------------- counting

  function Tasks(xs: seq<Option<Task>>): seq<Task> {
    if xs == [] then []
    else (if xs[0].Some? then [xs[0].value] else []) + Tasks(xs[1..])
  }

  function Pills(xs: seq<Option<Task>>): nat {
    if xs == [] then 0 else (if xs[0].None? then 1 else 0) + Pills(xs[1..])
  }

  /** The tasks ahead of the last pill. */
  function Ahead(xs: seq<Option<Task>>): nat {
    if Pills(xs) == 0 then 0 else (if xs[0].Some? then 1 else 0) + Ahead(xs[1..])
  }

  lemma {:induction false} CountAppend(xs: seq<Option<Task>>, x: Option<Task>)
    ensures Tasks(xs + [x]) == Tasks(xs) + (if x.Some? then [x.value] else [])
    ensures Pills(xs + [x]) == Pills(xs) + (if x.None? then 1 else 0)
  {
    if xs == [] {
      assert [x][1..] == [];
      assert xs + [x] == [x];
    } else {
      CountAppend(xs[1..], x);
      assert (xs + [x])[1..] == xs[1..] + [x];
    }
  }

  lemma {:induction false} AheadAppend(xs: seq<Option<Task>>, x: Option<Task>)
    ensures Ahead(xs + [x]) == if x.None? then |Tasks(xs)| else Ahead(xs)
  {
    if xs == [] {
      assert [x][1..] == [];
      assert xs + [x] == [x];
    } else {
      AheadAppend(xs[1..], x);
      CountAppend(xs, x);
      assert (xs + [x])[1..] == xs[1..] + [x];
    }
  }

  function Exits(ws: seq<Status>): nat {
    if ws == [] then 0 else (if ws[0].Exited? then 1 else 0) + Exits(ws[1..])
  }

  function Effort(st: Status): nat {
    match st case Ready => 1 case Queued => 0 case Running(_) => 2 case Exited => 0
  }

  function Efforts(ws: seq<Status>): nat {
    if ws == [] then 0 else Effort(ws[0]) + Efforts(ws[1..])
  }

  lemma {:induction false} UpdateCounts(ws: seq<Status>, w: nat, st: Status)
    requires w < |ws|
    ensures Exits(ws[w := st]) == Exits(ws) - (if ws[w].Exited? then 1 else 0) + (if st.Exited? then 1 else 0)
    ensures Efforts(ws[w := st]) == Efforts(ws) - Effort(ws[w]) + Effort(st)
  {
    if w > 0 {
      UpdateCounts(ws[1..], w - 1, st);
      assert ws[w := st][1..] == ws[1..][w - 1 := st];
    } else {
      assert ws[w := st][1..] == ws[1..];
    }
  }

  lemma {:induction false} AllExited(ws: seq<Status>)
    ensures Exits(ws) <= |ws|
    ensures Exits(ws) == |ws| <==> forall w :: 0 <= w < |ws| ==> ws[w].Exited?
    ensures Exits(ws) == 0 <==> forall w :: 0 <= w < |ws| ==> !ws[w].Exited?
  {
    if ws != [] {
      AllExited(ws[1..]);
      assert forall w :: 1 <= w < |ws| ==> ws[w] == ws[1..][w - 1];
      assert forall w :: 0 <= w < |ws| - 1 ==> ws[w + 1] == ws[1..][w];
    }
  }

  // ------------------------------------------------------------------- invariant

  function Pushed(p: Pool): nat {
    match p.phase case Open => 0 case Poisoning(k) => k case Joining(_) => |p.workers|
  }

  ghost predicate InQueue(p: Pool) {
    && Alert(p.queue)
    && (forall w: nat :: p.queue.data.Has(w) <==> w < |p.workers| && p.workers[w].Queued?)
  }

  /** Tasks and pills are conserved. */
  ghost predicate Accounts(p: Pool) {
    && p.submitted == p.started + Tasks(p.queue.xs)
    && Pills(p.queue.xs) + Exits(p.workers) == Pushed(p) <= |p.workers|
    && (Pills(p.queue.xs) > 0 ==> |p.started| + Ahead(p.queue.xs) == p.due)
    && (Exits(p.workers) == |p.workers| > 0 ==> |p.started| == p.due)
  }

  ghost predicate IsRunning(p: Pool, w: nat, i: nat) {
    w < |p.workers| && p.workers[w] == Running(i)
  }

  /** Every dequeued position is being run by one worker or is finished, not both. */
  ghost predicate OnceEach(p: Pool) {
    && (forall i :: i in p.finished ==> i < |p.started|)
    && (forall w: nat, i: nat :: IsRunning(p, w, i) ==> i < |p.started| && i !in p.finished)
    && (forall v: nat, w: nat, i: nat :: IsRunning(p, v, i) && IsRunning(p, w, i) ==> v == w)
    && (forall i :: 0 <= i < |p.started| ==> i in p.finished || exists w :: IsRunning(p, w, i))
  }

  ghost predicate Joined(p: Pool) {
    p.phase.Joining? ==>
      p.phase.joined <= |p.workers| && forall w :: 0 <= w < p.phase.joined ==> p.workers[w].Exited?
  }

  ghost predicate Invariant(p: Pool) {
    InQueue(p) && Accounts(p) && OnceEach(p) && Joined(p)
  }

  lemma PushKeepsInvariant(p: Pool, a: Action)
    requires Invariant(p) && Enabled(p, a) && (a.Submit? || a.Poison?)
    ensures Invariant(Next(p, a))
  {
    var x := if a.Submit? then Some(a.task) else None;
    PushKeepsAlert(p.queue, x, a.chosen);
    CountAppend(p.queue.xs, x);
    AheadAppend(p.queue.xs, x);
    var p' := Next(p, a);
    forall w: nat ensures p'.queue.data.Has(w) <==> p.queue.data.Has(w) {
      assert w in p'.queue.data.Inside() <==> w in p.queue.data.Inside();
    }
    assert forall w: nat, i: nat :: IsRunning(p, w, i) <==> IsRunning(p', w, i);
    if a.Submit? {
      assert p'.submitted == p'.started + Tasks(p'.queue.xs);
    }
  }

  lemma TakeKeepsAccounts(p: Pool, w: Thread)
    requires Invariant(p) && Enabled(p, Take(w))
    ensures Accounts(Next(p, Take(w)))
  {
    var p' := Next(p, Take(w));
    UpdateCounts(p.workers, w, p'.workers[w]);
    AllExited(p.workers);
    assert !p.workers[w].Exited? by {
      assert p.queue.data.Has(w) ==> p.workers[w].Queued?;
    }
    if p.queue.xs != [] && p.queue.xs[0].Some? {
      assert p.started + Tasks(p.queue.xs) == p'.started + Tasks(p'.queue.xs);
    }
  }

  lemma TakeKeepsInQueue(p: Pool, w: Thread)
    requires Invariant(p) && Enabled(p, Take(w))
    ensures InQueue(Next(p, Take(w)))
  {
    var p' := Next(p, Take(w));
    assert w !in p.queue.data.waiting by {
      assert p.queue.data.Has(w) ==> p.workers[w].Queued?;
    }
    PopKeepsAlert(p.queue, w);
    forall v: nat ensures p'.queue.data.Has(v) <==> v < |p'.workers| && p'.workers[v].Queued? {
      assert p'.queue.data.Has(v) <==> v in p'.queue.data.Inside();
      assert p.queue.data.Has(v) <==> v in p.queue.data.Inside();
    }
  }

  lemma TakeKeepsOnceEach(p: Pool, w: Thread)
    requires Invariant(p) && Enabled(p, Take(w))
    ensures OnceEach(Next(p, Take(w)))
  {
    var p' := Next(p, Take(w));
    assert !p.workers[w].Running? by {
      assert p.queue.data.Has(w) ==> p.workers[w].Queued?;
    }
    forall i | 0 <= i < |p'.started|
      ensures i in p'.finished || exists v :: IsRunning(p', v, i)
    {
      if i == |p.started| {
        assert IsRunning(p', w, i);
      } else if i !in p.finished {
        var v :| IsRunning(p, v, i);
        assert IsRunning(p', v, i);
      }
    }
    forall v: nat, i: nat | IsRunning(p', v, i) ensures i < |p'.started| && i !in p'.finished {
      if v != w { assert IsRunning(p, v, i); }
    }
    forall u: nat, v: nat, i: nat | IsRunning(p', u, i) && IsRunning(p', v, i) ensures u == v {
      if u != w { assert IsRunning(p, u, i); }
      if v != w { assert IsRunning(p, v, i); }
    }
  }

  lemma TakeKeepsInvariant(p: Pool, w: Thread)
    requires Invariant(p) && Enabled(p, Take(w))
    ensures Invariant(Next(p, Take(w)))
  {
    TakeKeepsInQueue(p, w);
    TakeKeepsAccounts(p, w);
    TakeKeepsOnceEach(p, w);
    assert !p.workers[w].Exited? by {
      assert p.queue.data.Has(w) ==> p.workers[w].Queued?;
    }
  }

  lemma CompleteKeepsInvariant(p: Pool, w: Thread)
    requires Invariant(p) && Enabled(p, Complete(w))
    ensures Invariant(Next(p, Complete(w)))
  {
    var p' := Next(p, Complete(w));
    UpdateCounts(p.workers, w, Ready);
    assert IsRunning(p, w, p.workers[w].position);
    forall i | 0 <= i < |p'.started| ensures i in p'.finished || exists v :: IsRunning(p', v, i) {
      if i !in p'.finished {
        var v :| IsRunning(p, v, i);
        assert IsRunning(p', v, i);
      }
    }
    assert forall v: nat, i: nat :: IsRunning(p', v, i) <==> IsRunning(p, v, i) && v != w;
  }

  lemma SpuriousKeepsInvariant(p: Pool, w: Thread)
    requires Invariant(p) && Enabled(p, Spurious(w))
    ensures Invariant(Next(p, Spurious(w)))
  {
    var p' := Next(p, Spurious(w));
    WakeKeepsAlert(p.queue.data, w, |p.queue.xs|);
    assert forall v: nat :: p'.queue.data.Has(v) <==> p.queue.data.Has(v);
    assert forall v: nat, i: nat :: IsRunning(p', v, i) <==> IsRunning(p, v, i);
  }

  lemma PhaseKeepsInvariant(p: Pool, a: Action)
    requires Invariant(p) && Enabled(p, a) && (a.Destroy? || a.StartJoining? || a.Join?)
    ensures Invariant(Next(p, a))
  {
    assert forall v: nat, i: nat :: IsRunning(Next(p, a), v, i) <==> IsRunning(p, v, i);
  }

  lemma NextKeepsWorkers(p: Pool, a: Action)
    requires Enabled(p, a)
    ensures |Next(p, a).workers| == |p.workers|
  {
  }

  lemma NextKeepsInvariant(p: Pool, a: Action)
    requires Invariant(p) && Enabled(p, a)
    ensures Invariant(Next(p, a)) && |Next(p, a).workers| == |p.workers|
  {
    match a {
      case Submit(_, _) => PushKeepsInvariant(p, a);
      case Poison(_) => PushKeepsInvariant(p, a);
      case Take(w) => TakeKeepsInvariant(p, w);
      case Complete(w) => CompleteKeepsInvariant(p, w);
      case Spurious(w) => SpuriousKeepsInvariant(p, w);
      case _ => PhaseKeepsInvariant(p, a);
    }
    NextKeepsWorkers(p, a);
  }

  lemma {:induction false} RunKeepsInvariant(p: Pool, actions: seq<Action>)
    requires Invariant(p) && RunFrom(p, actions).Some?
    ensures Invariant(RunFrom(p, actions).value)
    ensures |RunFrom(p, actions).value.workers| == |p.workers|
    decreases |actions|
  {
    if actions != [] {
      NextKeepsInvariant(p, actions[0]);
      RunKeepsInvariant(Next(p, actions[0]), actions[1..]);
    }
  }

  lemma InitIsInvariant(n: nat)
    ensures Invariant(Init(n))
  {
    AllExited(Init(n).workers);
  }

  // ---------------------------------------------------------------- main results

  /** The tasks the callers submit, in order. */
  function TasksOf(actions: seq<Action>): seq<Task> {
    if actions == [] then []
    else (if actions[0].Submit? then [actions[0].task] else []) + TasksOf(actions[1..])
  }

  /** The pool's own record of them is right. */
  lemma {:induction false} SubmittedAre(p: Pool, actions: seq<Action>)
    requires RunFrom(p, actions).Some?
    ensures RunFrom(p, actions).value.submitted == p.submitted + TasksOf(actions)
    decreases |actions|
  {
    if actions != [] {
      var one := if actions[0].Submit? then [actions[0].task] else [];
      SubmittedAre(Next(p, actions[0]), actions[1..]);
      assert Next(p, actions[0]).submitted == p.submitted + one;
      assert (p.submitted + one) + TasksOf(actions[1..]) == p.submitted + (one + TasksOf(actions[1..]));
    }
  }

  /** At every moment of every run the tasks dequeued so far are the first ones the callers
      submitted, in that order, and each of them is run by one worker or has finished; the
      others are queued, in order. */
  lemma DequeuedInOrder(n: nat, actions: seq<Action>)
    requires RunFrom(Init(n), actions).Some?
    ensures var p := RunFrom(Init(n), actions).value;
            p.started + Tasks(p.queue.xs) == TasksOf(actions) && p.started <= TasksOf(actions) && OnceEach(p)
  {
    InitIsInvariant(n);
    RunKeepsInvariant(Init(n), actions);
    SubmittedAre(Init(n), actions);
    assert [] + TasksOf(actions) == TasksOf(actions);
  }

  function Completions(actions: seq<Action>): nat {
    if actions == [] then 0 else (if actions[0].Complete? then 1 else 0) + Completions(actions[1..])
  }

  lemma NextFinishes(p: Pool, a: Action)
    requires Invariant(p) && Enabled(p, a)
    ensures |Next(p, a).finished| == |p.finished| + (if a.Complete? then 1 else 0)
  {
    if a.Complete? { assert IsRunning(p, a.worker, p.workers[a.worker].position); }
  }

  /** A task finishes by being run to its end, and each run finishes another one. */
  lemma {:induction false} FinishedByCompleting(p: Pool, actions: seq<Action>)
    requires Invariant(p) && RunFrom(p, actions).Some?
    ensures |RunFrom(p, actions).value.finished| == |p.finished| + Completions(actions)
    decreases |actions|
  {
    if actions != [] {
      NextFinishes(p, actions[0]);
      NextKeepsInvariant(p, actions[0]);
      FinishedByCompleting(Next(p, actions[0]), actions[1..]);
    }
  }

  /** The last pill, once there is one, stands behind the first m tasks. */
  predicate DueFrom(p: Pool, m: nat) {
    m <= |p.submitted| && (Pushed(p) >= 1 ==> m <= p.due)
  }

  lemma {:induction false} DueLater(p: Pool, m: nat, actions: seq<Action>)
    requires RunFrom(p, actions).Some? && DueFrom(p, m)
    ensures var q := RunFrom(p, actions).value;
            DueFrom(q, m) && |q.submitted| == |p.submitted| + |TasksOf(actions)|
    decreases |actions|
  {
    if actions != [] { DueLater(Next(p, actions[0]), m, actions[1..]); }
  }

  lemma NothingQueued(xs: seq<Option<Task>>)
    requires Pills(xs) == 0 && Tasks(xs) == []
    ensures xs == []
  {
  }

  /** When the destructor returns all workers have exited, each on its own pill. If there is a
      worker at all, exactly the tasks submitted before the last pill have been dequeued, and
      have finished; these are all that were submitted before the first pill (`p`), and all
      there are unless somebody submits later. What stands behind the last pill never runs,
      and a pool without workers runs nothing. */
  lemma DestructorWaitsForAllWork(n: nat, before: seq<Action>, rest: seq<Action>)
    requires RunFrom(Init(n), before).Some?
    requires var p := RunFrom(Init(n), before).value;
             && (p.phase.Open? || p.phase == Poisoning(0))
             && RunFrom(p, rest).Some? && Destroyed(RunFrom(p, rest).value)
    ensures var p := RunFrom(Init(n), before).value;
            var q := RunFrom(p, rest).value;
            var all := TasksOf(before) + TasksOf(rest);
            && (n >= 1 ==>
                  && |TasksOf(before)| <= q.due <= |all|
                  && q.started == all[..q.due] && Tasks(q.queue.xs) == all[q.due..]
                  && (forall i :: 0 <= i < q.due <==> i in q.finished)
                  && (TasksOf(rest) == [] ==> q.started == all && q.queue.xs == []))
            && |q.workers| == n && Exits(q.workers) == n && Pills(q.queue.xs) == 0
            && (n == 0 ==> q.started == [])
  {
    var p := RunFrom(Init(n), before).value;
    var q := RunFrom(p, rest).value;
    InitIsInvariant(n);
    RunKeepsInvariant(Init(n), before);
    RunKeepsInvariant(p, rest);
    AllExited(q.workers);
    DueLater(p, |p.submitted|, rest);
    SubmittedAre(Init(n), before);
    SubmittedAre(p, rest);
    assert [] + TasksOf(before) == TasksOf(before);
    assert forall w: nat, i: nat :: !IsRunning(q, w, i);
    if n == 0 {
      NothingRunsWithoutWorkers(Init(n), before);
      NothingRunsWithoutWorkers(p, rest);
    } else if TasksOf(rest) == [] {
      NothingQueued(q.queue.xs);
    }
  }

  lemma {:induction false} NothingRunsWithoutWorkers(p: Pool, actions: seq<Action>)
    requires RunFrom(p, actions).Some? && p.workers == []
    ensures RunFrom(p, actions).value.started == p.started
    decreases |actions|
  {
    if actions != [] {
      NothingRunsWithoutWorkers(Next(p, actions[0]), actions[1..]);
    }
  }

  // ------------------------------------------------------- the destructor returns

  /** While the destructor is under way and has not returned, some thread can take a step
      that is not a spurious wakeup or another submission. */
  lemma DestructorNeverStuck(p: Pool)
    requires Invariant(p) && !p.phase.Open? && !Destroyed(p)
    ensures exists a: Action :: !a.Spurious? && !a.Submit? && Enabled(p, a)
  {
    if p.phase.Poisoning? {
      if p.phase.pushed < |p.workers| {
        var chosen: Thread :| p.queue.data.waiting == {} || chosen in p.queue.data.waiting;
        assert Enabled(p, Poison(chosen));
      } else {
        assert Enabled(p, StartJoining);
      }
    } else if w :| 0 <= w < |p.workers| && (p.workers[w].Ready? || p.workers[w].Running?) {
      assert Enabled(p, if p.workers[w].Ready? then Take(w) else Complete(w));
    } else if v :| v in p.queue.data.notified {
      assert p.queue.data.Has(v);
      assert Enabled(p, Take(v));
    } else {
      JoinEnabledWhenAllQuiet(p);
    }
  }

  /** If no worker is active, none is asleep either: a sleeper means an empty queue, and then
      all pills have been taken. */
  lemma JoinEnabledWhenAllQuiet(p: Pool)
    requires Invariant(p) && p.phase.Joining? && !Destroyed(p)
    requires p.queue.data.notified == {}
    requires forall w :: 0 <= w < |p.workers| ==> p.workers[w].Queued? || p.workers[w].Exited?
    ensures Enabled(p, Join)
  {
    var w := p.phase.joined;
    AllExited(p.workers);
    assert p.workers[w].Queued? <==> p.queue.data.Has(w);
    assert p.queue.data.waiting != {} ==> p.queue.xs == [];
    assert p.queue.xs == [] ==> Exits(p.workers) == |p.workers|;
  }

  /** What is left to do: pills to push, items to pop, tasks to finish, threads to put to
      sleep, workers to join. */
  function Left(p: Pool): int {
    2 * |p.queue.xs| + Efforts(p.workers) + |p.queue.data.notified|
    + match p.phase
      case Open => 0
      case Poisoning(k) => 4 * (|p.workers| - k) + |p.workers| + 1
      case Joining(j) => |p.workers| - j
  }

  lemma OneMoreNotified(cv: CondVar, chosen: Thread)
    requires cv.Valid()
    ensures |cv.NotifyOne(chosen).notified| <= |cv.notified| + 1
  {
  }

  lemma StepDoesWork(p: Pool, a: Action)
    requires Invariant(p) && Enabled(p, a) && !a.Spurious? && !p.phase.Open?
    ensures !Next(p, a).phase.Open?
    ensures Left(Next(p, a)) < if a.Submit? then Left(p) + 4 else Left(p)
  {
    match a {
      case Poison(chosen) => OneMoreNotified(p.queue.data, chosen);
      case Submit(_, chosen) => OneMoreNotified(p.queue.data, chosen);
      case Take(w) => TakeDoesWork(p, w);
      case Complete(w) => UpdateCounts(p.workers, w, Ready);
      case _ =>
    }
  }

  lemma TakeDoesWork(p: Pool, w: Thread)
    requires Invariant(p) && Enabled(p, Take(w))
    ensures Left(Next(p, Take(w))) < Left(p)
  {
    var notified := p.queue.data.notified;
    UpdateCounts(p.workers, w, Next(p, Take(w)).workers[w]);
    assert p.queue.data.Has(w) ==> p.workers[w].Queued?;
    assert p.queue.data.notified - {w} - {w} == notified - {w};
    if w in notified {
      assert |notified - {w}| == |notified| - 1;
    } else {
      assert notified - {w} == notified;
    }
  }

  /** Once the destructor has begun it returns: a run without spurious wakeups has at most
      Left(p) steps, and four more for each task submitted meanwhile, and one that cannot go
      on has destroyed the pool. */
  lemma {:induction false} DestructorReturns(p: Pool, actions: seq<Action>)
    requires Invariant(p) && !p.phase.Open? && RunFrom(p, actions).Some?
    requires forall a :: a in actions ==> !a.Spurious?
    ensures |actions| <= Left(p) + 4 * |TasksOf(actions)|
    ensures var q := RunFrom(p, actions).value;
            !Destroyed(q) ==> exists a: Action :: !a.Spurious? && !a.Submit? && Enabled(q, a)
    decreases |actions|
  {
    if actions == [] {
      if !Destroyed(p) { DestructorNeverStuck(p); }
    } else {
      NextKeepsInvariant(p, actions[0]);
      StepDoesWork(p, actions[0]);
      DestructorReturns(Next(p, actions[0]), actions[1..]);
    }
  }

  /** So the destructor returns whatever run it is called in. */
  lemma DestructorAlwaysReturns(n: nat, before: seq<Action>, actions: seq<Action>)
    requires RunFrom(Init(n), before).Some? && !RunFrom(Init(n), before).value.phase.Open?
    requires RunFrom(RunFrom(Init(n), before).value, actions).Some?
    requires forall a :: a in actions ==> !a.Spurious?
    ensures var p := RunFrom(Init(n), before).value;
            var q := RunFrom(p, actions).value;
            && |actions| <= Left(p) + 4 * |TasksOf(actions)|
            && (!Destroyed(q) ==> exists a: Action :: !a.Spurious? && !a.Submit? && Enabled(q, a))
  {
    InitIsInvariant(n);
    RunKeepsInvariant(Init(n), before);
    DestructorReturns(RunFrom(Init(n), before).value, actions);
  }
}
