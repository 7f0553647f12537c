/** The exchange of src/flow/exchange.h down to its two condition variables: a thread that finds
    its queue empty goes to sleep, a push wakes it, and it may wake up spuriously. Everything
    proved of the steps in module Exchanges is carried over. */
module BlockingExchanges {
  import opened Options
  import opened Monitors
  import Queues
  import opened Exchanges

  const CONSUMER: Thread := 0
  const PRODUCER: Thread := 1

  /** `data` belongs to the buffer, where only the consumer pops and blocks, `signal` to the
      queue of signals, where only the producer does. */
  datatype Threads<T> = Threads(x: Exchange<T>, data: CondVar, signal: CondVar)

  function Start<T>(): Threads<T> {
    Threads(Init(), Nobody, Nobody)
  }

  /** A section of one of the threads, or a spurious wakeup. */
  datatype Move = Section(a: Action) | WakeConsumer | WakeProducer

  predicate CanMove<T>(s: Threads<T>, m: Move) {
    match m
    case WakeConsumer => CONSUMER in s.data.waiting
    case WakeProducer => PRODUCER in s.signal.waiting
    case Section(a) =>
      if a.Produce? then !s.x.producer.Halted? && PRODUCER !in s.signal.waiting
      else if a.PullOne? then s.x.consumer.Pulling? && CONSUMER !in s.data.waiting
      else Enabled(s.x, a)
  }

  /** The thread's section finds its queue empty. */
  predicate Sleeps<T>(s: Threads<T>, a: Action) {
    || (a.Produce? && s.x.producer.Await? && s.x.signals == [])
    || (a.PullOne? && s.x.buffer == [])
  }

  function Sleep<T>(s: Threads<T>, a: Action): Threads<T> {
    if a.Produce? then s.(signal := s.signal.Resume(PRODUCER).Wait(PRODUCER))
    else s.(data := s.data.Resume(CONSUMER).Wait(CONSUMER))
  }

  function Data<T>(s: Threads<T>, a: Action): CondVar {
    if a.PullOne? then s.data.Resume(CONSUMER)
    else if a.Produce? && (s.x.producer.Push? || s.x.producer.PushEnd?) then s.data.NotifyOne(CONSUMER)
    else s.data
  }

  function SignalOf<T>(s: Threads<T>, a: Action): CondVar {
    if a.Produce? && s.x.producer.Await? then s.signal.Resume(PRODUCER)
    else if a.CallReset? || a.CallDestructor? then s.signal.NotifyOne(PRODUCER)
    else s.signal
  }

  function After<T>(child: Child<T>, s: Threads<T>, m: Move): Threads<T>
    requires CanMove(s, m)
  {
    match m
    case WakeConsumer => s.(data := s.data.Wake(CONSUMER))
    case WakeProducer => s.(signal := s.signal.Wake(PRODUCER))
    case Section(a) =>
      if Sleeps(s, a) then Sleep(s, a)
      else Threads(Next(child, s.x, a), Data(s, a), SignalOf(s, a))
  }

  /** `polite` asks for the discipline on resets. */
  function Moves<T>(child: Child<T>, polite: bool, s: Threads<T>, moves: seq<Move>): Option<Threads<T>>
    decreases |moves|
  {
    if moves == [] then Some(s)
    else if CanMove(s, moves[0]) && (polite && moves[0].Section? ==> Polite(child, s.x, moves[0].a)) then
      Moves(child, polite, After(child, s, moves[0]), moves[1..])
    else None
  }

  // ------------------------------------------------------------------- the class

  /** Each method is one indivisible section of a thread: `Produce` of the producer's loop,
      with its program counter and its locals as fields, the others of the consumer's calls. */
  class ExchangeOperator<T> {
    const child: Child<T>
    const buffer: Queues.Queue<(nat, Option<T>)>
    const signals: Queues.Queue<Signal>
    var numResets: nat
    var producer: Producer<T>
    var epoch: nat
    var position: nat
    var consumer: Consumer
    ghost var sent: seq<Option<T>>
    ghost var results: seq<Option<T>>

    ghost function View(): Threads<T>
      reads this, buffer, signals
    {
      Threads(Exchange(numResets, buffer.xs, signals.xs, producer, epoch, position, consumer, sent, results),
              buffer.data, signals.data)
    }

    ghost predicate Valid()
      reads buffer, signals
    {
      && buffer as object != signals as object
      && buffer.data.waiting <= {CONSUMER} && signals.data.waiting <= {PRODUCER}
    }

    constructor (child: Child<T>)
      ensures Valid() && fresh(buffer) && fresh(signals)
      ensures View() == Start() && this.child == child
    {
      this.child := child;
      buffer := new Queues.Queue([]);
      signals := new Queues.Queue([]);
      numResets, producer, epoch, position, consumer := 0, Fetch, 0, 0, Idle;
      sent, results := [], [];
    }

    method Produce()
      requires Valid() && CanMove(View(), Section(Action.Produce))
      modifies this, buffer, signals
      ensures Valid() && View() == After(child, old(View()), Section(Action.Produce))
    {
      match producer {
        case Fetch =>
          if position < |child(epoch)| {
            producer := Push(child(epoch)[position]);
            position := position + 1;
          } else {
            producer := PushEnd;
          }
        case Push(t) =>
          var _ := buffer.PushSection((epoch, Some(t)));
          sent := sent + [Some(t)];
          producer := Check;
        case Check =>
          var signal := signals.TryPopSection();
          producer := if signal == None then Fetch else if signal.value == Reset then Clear else Halted;
        case Clear =>
          buffer.ClearSection();
          NewPassHere();
          producer := Halted;
        case PushEnd =>
          var _ := buffer.PushSection((epoch, None));
          sent := sent + [None];
          producer := Await;
        case Await =>
          var signal := signals.PopSection(PRODUCER);
          match signal {
            case None =>
            case Some(Reset) =>
              NewPassHere();
              producer := Fetch;
            case Some(Die) =>
              producer := Halted;
          }
      }
    }

    /** The child is reset and the producer counts it. */
    method NewPassHere()
      modifies this`epoch, this`position, this`sent
      ensures epoch == old(epoch) + 1 && position == 0 && sent == []
    {
      epoch, position, sent := epoch + 1, 0, [];
    }

    /** One pop of `next`: the result, or None if the consumer fell asleep or the tuple was from
        an earlier pass. */
    method PullSection() returns (t: Option<Option<T>>)
      requires Valid() && CanMove(View(), Section(PullOne))
      modifies this, buffer
      ensures Valid() && View() == After(child, old(View()), Section(PullOne))
      ensures t == if old(buffer.xs) != [] && old(buffer.xs)[0].0 == old(numResets)
                   then Some(old(buffer.xs)[0].1) else None
    {
      var x := buffer.PopSection(CONSUMER);
      if x.None? || x.value.0 != numResets {
        return None;
      }
      results := results + [x.value.1];
      consumer := Idle;
      t := Some(x.value.1);
    }

    method ResetSection()
      requires Valid() && CanMove(View(), Section(CallReset))
      modifies this, signals
      ensures Valid() && View() == After(child, old(View()), Section(CallReset))
    {
      numResets := numResets + 1;
      var _ := signals.PushSection(Reset);
      results := [];
    }

    /** The first half of the destructor; the second waits for the producer. */
    method DieSection()
      requires Valid() && CanMove(View(), Section(CallDestructor))
      modifies this, signals
      ensures Valid() && View() == After(child, old(View()), Section(CallDestructor))
    {
      var _ := signals.PushSection(Die);
      consumer := Destroying;
    }
  }

  // ------------------------------------------------------------- no lost wakeups

  /** Only the thread that pops a queue waits on it, and while it sleeps its queue is empty. */
  ghost predicate Alerted<T>(s: Threads<T>) {
    && s.data.Valid() && s.signal.Valid()
    && s.data.Inside() <= {CONSUMER} && s.signal.Inside() <= {PRODUCER}
    && (CONSUMER in s.data.Inside() ==> s.x.consumer.Pulling?)
    && (PRODUCER in s.signal.Inside() ==> s.x.producer.Await?)
    && (CONSUMER in s.data.waiting ==> s.x.buffer == [])
    && (PRODUCER in s.signal.waiting ==> s.x.signals == [])
  }

  lemma MoveKeepsAlerted<T>(child: Child<T>, s: Threads<T>, m: Move)
    requires Alerted(s) && CanMove(s, m)
    ensures Alerted(After(child, s, m))
  {
  }

  /** A step is possible in module Exchanges exactly when its thread is awake to take it: nobody
      sleeps through a push. */
  lemma SleepersMissNothing<T>(s: Threads<T>, a: Action)
    requires Alerted(s)
    ensures Enabled(s.x, a) <==> CanMove(s, Section(a)) && !Sleeps(s, a)
  {
  }

  /** The steps that are left of the moves without falling asleep and spurious wakeups. */
  function Steps<T>(child: Child<T>, s: Threads<T>, moves: seq<Move>): seq<Action>
    decreases |moves|
  {
    if moves == [] || !CanMove(s, moves[0]) then []
    else
      var rest := Steps(child, After(child, s, moves[0]), moves[1..]);
      if moves[0].Section? && !Sleeps(s, moves[0].a) then [moves[0].a] + rest else rest
  }

  /** The threads refine the steps: a run of moves is a run of steps with stutters. */
  lemma {:induction false} MovesAreSteps<T>(child: Child<T>, polite: bool, s: Threads<T>, moves: seq<Move>)
    requires Alerted(s) && Moves(child, polite, s, moves).Some?
    ensures var s' := Moves(child, polite, s, moves).value;
            Alerted(s') && RunFrom(child, polite, s.x, Steps(child, s, moves)) == Some(s'.x)
    decreases |moves|
  {
    if moves != [] {
      var m := moves[0];
      var t := After(child, s, m);
      MoveKeepsAlerted(child, s, m);
      MovesAreSteps(child, polite, t, moves[1..]);
      if m.Section? && !Sleeps(s, m.a) {
        SleepersMissNothing(s, m.a);
        assert ([m.a] + Steps(child, t, moves[1..]))[1..] == Steps(child, t, moves[1..]);
      }
    }
  }

  /** And every run of steps is a run of the threads in which nobody sleeps. */
  lemma {:induction false} StepsAreMoves<T>(child: Child<T>, polite: bool, s: Threads<T>, actions: seq<Action>)
    returns (moves: seq<Move>)
    requires Alerted(s) && RunFrom(child, polite, s.x, actions).Some?
    ensures Moves(child, polite, s, moves).Some? && |moves| == |actions|
    ensures Moves(child, polite, s, moves).value.x == RunFrom(child, polite, s.x, actions).value
    ensures Alerted(Moves(child, polite, s, moves).value)
    decreases |actions|
  {
    if actions == [] {
      moves := [];
    } else {
      var m := Section(actions[0]);
      SleepersMissNothing(s, actions[0]);
      MoveKeepsAlerted(child, s, m);
      var rest := StepsAreMoves(child, polite, After(child, s, m), actions[1..]);
      moves := [m] + rest;
      assert moves[1..] == rest;
    }
  }

  // ---------------------------------------------------------------- main results

  /** Safety, for every schedule of the threads and any use of reset. */
  lemma ThreadsDeliverPrefix<T>(child: Child<T>, moves: seq<Move>)
    requires Moves(child, false, Start<T>(), moves).Some?
    ensures var x := Moves(child, false, Start<T>(), moves).value.x;
            && x.results <= Whole(child(x.numResets))
            && (x.epoch == x.numResets ==> x.sent == x.results + OfEpoch(x.buffer, x.numResets))
  {
    MovesAreSteps(child, false, Start<T>(), moves);
    ResultsArePrefixOfPass(child, Steps(child, Start<T>(), moves));
  }

  /** Some thread can do more than fall asleep. */
  ghost predicate Live<T>(s: Threads<T>, a: Action) {
    CanMove(s, Section(a)) && !Sleeps(s, a)
  }

  /** Once DIE is queued nobody sleeps any more: at most UntilHalt(x) moves happen, and until
      the producer has been joined some thread can go on, in every schedule and whatever
      resets came before. */
  lemma {:induction false} ThreadsDestructorReturns<T>(child: Child<T>, s: Threads<T>, moves: seq<Move>)
    requires Alerted(s) && Invariant(child, s.x) && (s.x.consumer.Destroying? || s.x.consumer.Gone?)
    requires Moves(child, false, s, moves).Some?
    ensures |moves| <= UntilHalt(s.x)
    ensures var y := Moves(child, false, s, moves).value;
            !y.x.consumer.Gone? ==> Live(y, Produce) || Live(y, JoinProducer)
    decreases |moves|
  {
    if moves == [] {
      DestructorReturns(child, s.x, []);
      SleepersMissNothing(s, Produce);
      SleepersMissNothing(s, JoinProducer);
    } else {
      AllMovesAreSteps(child, s, moves[0]);
      var a := moves[0].a;
      SleepersMissNothing(s, a);
      NextKeepsInvariant(child, s.x, a);
      MoveKeepsAlerted(child, s, moves[0]);
      DestructorReturns(child, s.x, [a]);
      StepTowardsHalt(child, s.x, a);
      ThreadsDestructorReturns(child, After(child, s, moves[0]), moves[1..]);
    }
  }

  /** So the destructor returns whatever run of the threads it is called after. */
  lemma ThreadsDestructorAlwaysReturns<T>(child: Child<T>, before: seq<Move>, moves: seq<Move>)
    requires Moves(child, false, Start<T>(), before).Some?
    requires var s := Moves(child, false, Start<T>(), before).value;
             (s.x.consumer.Destroying? || s.x.consumer.Gone?) && Moves(child, false, s, moves).Some?
    ensures var s := Moves(child, false, Start<T>(), before).value;
            var y := Moves(child, false, s, moves).value;
            && |moves| <= UntilHalt(s.x)
            && (!y.x.consumer.Gone? ==> Live(y, Produce) || Live(y, JoinProducer))
  {
    MovesAreSteps(child, false, Start<T>(), before);
    RunKeepsInvariant(child, false, Init<T>(), Steps(child, Start<T>(), before));
    ThreadsDestructorReturns(child, Moves(child, false, Start<T>(), before).value, moves);
  }

  lemma AllMovesAreSteps<T>(child: Child<T>, s: Threads<T>, m: Move)
    requires Alerted(s) && Invariant(child, s.x) && (s.x.consumer.Destroying? || s.x.consumer.Gone?)
    requires CanMove(s, m)
    ensures m.Section? && !Sleeps(s, m.a)
  {
  }

  lemma StepTowardsHalt<T>(child: Child<T>, x: Exchange<T>, a: Action)
    requires Invariant(child, x) && (x.consumer.Destroying? || x.consumer.Gone?) && Enabled(x, a)
    ensures UntilHalt(Next(child, x, a)) < UntilHalt(x)
    ensures Next(child, x, a).consumer.Destroying? || Next(child, x, a).consumer.Gone?
  {
  }

  function Wakeups(moves: seq<Move>): nat {
    if moves == [] then 0 else (if moves[0].Section? then 0 else 1) + Wakeups(moves[1..])
  }

  /** Threads that could still fall asleep. */
  function AwakeCount<T>(s: Threads<T>): nat {
    (if CONSUMER in s.data.waiting then 0 else 1) + (if PRODUCER in s.signal.waiting then 0 else 1)
  }

  predicate OnlyPullsAndProduces(moves: seq<Move>) {
    forall m :: m in moves && m.Section? ==> m.a.Produce? || m.a.PullOne?
  }

  lemma SectionUsesUp<T>(child: Child<T>, s: Threads<T>, a: Action)
    requires Alerted(s) && PoliteInvariant(child, s.x) && (s.x.consumer.Idle? || s.x.consumer.Pulling?)
    requires CanMove(s, Section(a)) && (a.Produce? || a.PullOne?)
    ensures var t := After(child, s, Section(a));
            && PoliteInvariant(child, t.x) && (t.x.consumer.Idle? || t.x.consumer.Pulling?)
            && 2 * UntilResult(child, t.x) + AwakeCount(t) < 2 * UntilResult(child, s.x) + AwakeCount(s)
  {
    if !Sleeps(s, a) {
      SleepersMissNothing(s, a);
      StepTowardsResult(child, s.x, a);
    }
  }

  lemma {:induction false} MovesAreFew<T>(child: Child<T>, s: Threads<T>, moves: seq<Move>)
    requires Alerted(s) && PoliteInvariant(child, s.x) && (s.x.consumer.Idle? || s.x.consumer.Pulling?)
    requires Moves(child, true, s, moves).Some? && OnlyPullsAndProduces(moves)
    ensures |moves| <= 2 * UntilResult(child, s.x) + AwakeCount(s) + 2 * Wakeups(moves)
    decreases |moves|
  {
    if moves != [] {
      MoveKeepsAlerted(child, s, moves[0]);
      if moves[0].Section? { SectionUsesUp(child, s, moves[0].a); }
      MovesAreFew(child, After(child, s, moves[0]), moves[1..]);
    }
  }

  lemma {:induction false} StepsArePullsAndProduces<T>(child: Child<T>, s: Threads<T>, moves: seq<Move>)
    requires OnlyPullsAndProduces(moves)
    ensures forall a :: a in Steps(child, s, moves) ==> a.Produce? || a.PullOne?
    decreases |moves|
  {
    if moves != [] && CanMove(s, moves[0]) {
      assert moves[0] in moves;
      StepsArePullsAndProduces(child, After(child, s, moves[0]), moves[1..]);
    }
  }

  /** In a polite run `next` returns: called before the empty result of the pass is out, the two
      threads move a bounded number of times, two more for each spurious wakeup, and until it
      is through one of them can do more than fall asleep. */
  lemma ThreadsNextReturns<T>(child: Child<T>, s: Threads<T>, moves: seq<Move>)
    requires Alerted(s) && PoliteInvariant(child, s.x) && s.x.consumer.Pulling? && !GotEnd(s.x)
    requires Moves(child, true, s, moves).Some? && OnlyPullsAndProduces(moves)
    ensures |moves| <= 2 * UntilResult(child, s.x) + 2 + 2 * Wakeups(moves)
    ensures var y := Moves(child, true, s, moves).value;
            y.x.consumer.Pulling? ==> Live(y, Produce) || Live(y, PullOne)
  {
    MovesAreFew(child, s, moves);
    MovesAreSteps(child, true, s, moves);
    StepsArePullsAndProduces(child, s, moves);
    NextReturns(child, s.x, Steps(child, s, moves));
    var y := Moves(child, true, s, moves).value;
    SleepersMissNothing(y, Produce);
    SleepersMissNothing(y, PullOne);
  }

  /** So `next` returns in every polite run of the threads. */
  lemma ThreadsNextAlwaysReturns<T>(child: Child<T>, before: seq<Move>, moves: seq<Move>)
    requires Moves(child, true, Start<T>(), before).Some?
    requires var s := Moves(child, true, Start<T>(), before).value;
             s.x.consumer.Pulling? && !GotEnd(s.x) && Moves(child, true, s, moves).Some?
    requires OnlyPullsAndProduces(moves)
    ensures var s := Moves(child, true, Start<T>(), before).value;
            var y := Moves(child, true, s, moves).value;
            && s.x.position <= |child(s.x.epoch)|
            && |moves| <= 2 * UntilResult(child, s.x) + 2 + 2 * Wakeups(moves)
            && (y.x.consumer.Pulling? ==> Live(y, Produce) || Live(y, PullOne))
  {
    MovesAreSteps(child, true, Start<T>(), before);
    PoliteRun(child, Init<T>(), Steps(child, Start<T>(), before));
    ThreadsNextReturns(child, Moves(child, true, Start<T>(), before).value, moves);
  }

  /** Nothing but falling asleep and waking up can happen, with the consumer inside `next`. */
  ghost predicate Stuck<T>(s: Threads<T>) {
    s.x.consumer.Pulling? && forall a: Action :: !Live(s, a)
  }

  lemma StuckIffHung<T>(s: Threads<T>)
    requires Alerted(s)
    ensures Stuck(s) <==> Hung(s.x)
  {
    forall a: Action ensures Live(s, a) <==> Enabled(s.x, a) {
      SleepersMissNothing(s, a);
    }
  }

  /** In a polite run a consumer inside `next` is stuck exactly when it already has the empty
      result of the pass. */
  lemma ThreadsStuckIffPastTheEnd<T>(child: Child<T>, moves: seq<Move>)
    requires Moves(child, true, Start<T>(), moves).Some?
    ensures var s := Moves(child, true, Start<T>(), moves).value;
            s.x.consumer.Pulling? ==> (Stuck(s) <==> GotEnd(s.x))
  {
    MovesAreSteps(child, true, Start<T>(), moves);
    HungIffPastTheEnd(child, Steps(child, Start<T>(), moves));
    StuckIffHung(Moves(child, true, Start<T>(), moves).value);
  }

  /** Being stuck is for ever: whatever wakes up, nothing changes. */
  lemma {:induction false} StuckForEver<T>(child: Child<T>, s: Threads<T>, moves: seq<Move>)
    requires Alerted(s) && Stuck(s) && Moves(child, false, s, moves).Some?
    ensures Moves(child, false, s, moves).value.x == s.x && Stuck(Moves(child, false, s, moves).value)
    decreases |moves|
  {
    if moves != [] {
      var t := After(child, s, moves[0]);
      MoveKeepsAlerted(child, s, moves[0]);
      assert moves[0].Section? ==> !Live(s, moves[0].a);
      assert t.x == s.x;
      StuckIffHung(s);
      StuckIffHung(t);
      StuckForEver(child, t, moves[1..]);
    }
  }

  /** For any child, in any pass that has a tuple and after any number of its tuples but before
      its empty result, one reset has a schedule of the threads after which `next` waits for
      ever, though all resets before it were polite. */
  lemma ThreadsMidPassResetCanHang<T>(child: Child<T>, k: nat, m: nat) returns (before: seq<Move>, rest: seq<Move>)
    requires m <= |child(k)| && child(k) != []
    ensures Moves(child, true, Start<T>(), before).Some?
    ensures var s := Moves(child, true, Start<T>(), before).value;
            && s.x == InStep(child, k, m) && !GotEnd(s.x)
            && Moves(child, false, s, rest).Some? && Stuck(Moves(child, false, s, rest).value)
  {
    var a, b := MidPassResetCanHang(child, k, m);
    before := StepsAreMoves(child, true, Start<T>(), a);
    var s := Moves(child, true, Start<T>(), before).value;
    rest := StepsAreMoves(child, false, s, b);
    StuckIffHung(Moves(child, false, s, rest).value);
  }
}
