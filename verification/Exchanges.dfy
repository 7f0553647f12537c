/** The exchange operator of src/flow/exchange.h: a producer thread drains the child into a
    buffer that the consumer pulls from; resets and the destructor reach the producer as
    signals. Here a thread that pops an empty queue simply cannot step; module
    BlockingExchanges has the sleeping and waking that implement this. */
module Exchanges {
  import opened Options

  datatype Signal = Reset | Die

  /** What the producer does next. `Clear` is the mid-stream RESET case, which falls through
      to the `return` of the DIE case. */
  datatype Producer<T> = Fetch | Push(t: T) | Check | Clear | PushEnd | Await | Halted

  datatype Consumer = Idle | Pulling | Destroying | Gone

  /** What the child yields between its k-th reset and the next: `child(k)`, and then the
      empty result. `sent` and `results` record history: what the producer has pushed for
      its current pass, and what `next` has returned since the last reset. */
  type Child<T> = nat -> seq<T>

  datatype Exchange<T> = Exchange(
    numResets: nat,
    buffer: seq<(nat, Option<T>)>,
    signals: seq<Signal>,
    producer: Producer<T>,
    epoch: nat,
    position: nat,
    consumer: Consumer,
    sent: seq<Option<T>>,
    results: seq<Option<T>>)

  function Init<T>(): Exchange<T> {
    Exchange(0, [], [], Fetch, 0, 0, Idle, [], [])
  }

  datatype Action = Produce | CallNext | PullOne | CallReset | CallDestructor | JoinProducer

  predicate Enabled<T>(x: Exchange<T>, a: Action) {
    match a
    case Produce => !x.producer.Halted? && (x.producer.Await? ==> x.signals != [])
    case CallNext => x.consumer.Idle?
    case PullOne => x.consumer.Pulling? && x.buffer != []
    case CallReset => x.consumer.Idle?
    case CallDestructor => x.consumer.Idle?
    case JoinProducer => x.consumer.Destroying? && x.producer.Halted?
  }

  function NewPass<T>(x: Exchange<T>): Exchange<T> {
    x.(epoch := x.epoch + 1, position := 0, sent := [])
  }

  function ProducerStep<T>(child: Child<T>, x: Exchange<T>): Exchange<T>
    requires Enabled(x, Produce)
  {
    match x.producer
    case Fetch =>
      if x.position < |child(x.epoch)| then
        x.(producer := Push(child(x.epoch)[x.position]), position := x.position + 1)
      else x.(producer := PushEnd)
    case Push(t) =>
      x.(buffer := x.buffer + [(x.epoch, Some(t))], sent := x.sent + [Some(t)], producer := Check)
    case Check =>
      if x.signals == [] then x.(producer := Fetch)
      else x.(signals := x.signals[1..], producer := if x.signals[0].Reset? then Clear else Halted)
    case Clear => NewPass(x).(buffer := [], producer := Halted)
    case PushEnd =>
      x.(buffer := x.buffer + [(x.epoch, None)], sent := x.sent + [None], producer := Await)
    case Await =>
      if x.signals[0].Reset? then NewPass(x).(signals := x.signals[1..], producer := Fetch)
      else x.(signals := x.signals[1..], producer := Halted)
  }

  function Next<T>(child: Child<T>, x: Exchange<T>, a: Action): Exchange<T>
    requires Enabled(x, a)
  {
    match a
    case Produce => ProducerStep(child, x)
    case CallNext => x.(consumer := Pulling)
    case PullOne =>
      var (e, t) := x.buffer[0];
      if e != x.numResets then x.(buffer := x.buffer[1..])
      else x.(buffer := x.buffer[1..], results := x.results + [t], consumer := Idle)
    case CallReset => x.(numResets := x.numResets + 1, signals := x.signals + [Reset], results := [])
    case CallDestructor => x.(signals := x.signals + [Die], consumer := Destroying)
    case JoinProducer => x.(consumer := Gone)
  }

  /** The empty result of the current pass has been returned. */
  predicate GotEnd<T>(x: Exchange<T>) {
    x.results != [] && x.results[|x.results| - 1] == None
  }

  /** The discipline under which the exchange makes progress: reset only after the empty
      result, unless the pass has no tuples at all. */
  predicate Polite<T>(child: Child<T>, x: Exchange<T>, a: Action) {
    a.CallReset? ==> GotEnd(x) || child(x.numResets) == []
  }

  /** `polite` asks for the discipline; otherwise every enabled step is allowed. */
  function RunFrom<T>(child: Child<T>, polite: bool, x: Exchange<T>, actions: seq<Action>): Option<Exchange<T>>
    decreases |actions|
  {
    if actions == [] then Some(x)
    else if Enabled(x, actions[0]) && (polite ==> Polite(child, x, actions[0])) then
      RunFrom(child, polite, Next(child, x, actions[0]), actions[1..])
    else None
  }

  // ---------------------------------------------------------------------- safety

  function Somes<T>(ts: seq<T>): (r: seq<Option<T>>)
    ensures |r| == |ts| && forall i :: 0 <= i < |ts| ==> r[i] == Some(ts[i])
  {
    seq(|ts|, i requires 0 <= i < |ts| => Some(ts[i]))
  }

  /** A whole pass as the consumer should see it. */
  function Whole<T>(ts: seq<T>): seq<Option<T>> {
    Somes(ts) + [None]
  }

  function OfEpoch<T>(buffer: seq<(nat, Option<T>)>, e: nat): seq<Option<T>> {
    if buffer == [] then []
    else (if buffer[0].0 == e then [buffer[0].1] else []) + OfEpoch(buffer[1..], e)
  }

  lemma {:induction false} OfEpochAppend<T>(buffer: seq<(nat, Option<T>)>, x: (nat, Option<T>), e: nat)
    ensures OfEpoch(buffer + [x], e) == OfEpoch(buffer, e) + (if x.0 == e then [x.1] else [])
  {
    if buffer == [] {
      assert buffer + [x] == [x] && [x][1..] == [];
    } else {
      OfEpochAppend(buffer[1..], x, e);
      assert (buffer + [x])[1..] == buffer[1..] + [x];
    }
  }

  lemma {:induction false} OfEpochNone<T>(buffer: seq<(nat, Option<T>)>, e: nat)
    ensures OfEpoch(buffer, e) == [] <==> forall i :: 0 <= i < |buffer| ==> buffer[i].0 != e
  {
    if buffer != [] {
      OfEpochNone(buffer[1..], e);
      assert forall i :: 1 <= i < |buffer| ==> buffer[i] == buffer[1..][i - 1];
      assert forall i :: 0 <= i < |buffer| - 1 ==> buffer[1..][i] == buffer[i + 1];
    }
  }

  lemma {:induction false} OfEpochAll<T>(buffer: seq<(nat, Option<T>)>, e: nat)
    requires forall i :: 0 <= i < |buffer| ==> buffer[i].0 == e
    ensures |OfEpoch(buffer, e)| == |buffer|
  {
    if buffer != [] { OfEpochAll(buffer[1..], e); }
  }

  function Resets(signals: seq<Signal>): nat {
    if signals == [] then 0 else (if signals[0].Reset? then 1 else 0) + Resets(signals[1..])
  }

  lemma {:induction false} ResetsAppend(signals: seq<Signal>, s: Signal)
    ensures Resets(signals + [s]) == Resets(signals) + (if s.Reset? then 1 else 0)
  {
    if signals == [] {
      assert signals + [s] == [s] && [s][1..] == [];
    } else {
      ResetsAppend(signals[1..], s);
      assert (signals + [s])[1..] == signals[1..] + [s];
    }
  }

  lemma {:induction false} ResetsAll(signals: seq<Signal>)
    requires forall i :: 0 <= i < |signals| ==> signals[i].Reset?
    ensures Resets(signals) == |signals|
  {
    if signals != [] { ResetsAll(signals[1..]); }
  }

  /** The producer's own bookkeeping: what it has pushed of its current pass. */
  ghost predicate SentSoFar<T>(child: Child<T>, x: Exchange<T>) {
    var pass := child(x.epoch);
    && x.position <= |pass|
    && match x.producer
       case Fetch => x.sent == Somes(pass[..x.position])
       case Push(t) => x.position > 0 && t == pass[x.position - 1] && x.sent == Somes(pass[..x.position - 1])
       case Check => x.position > 0 && x.sent == Somes(pass[..x.position])
       case Clear => x.position > 0 && x.sent == Somes(pass[..x.position])
       case PushEnd => x.sent == Somes(pass)
       case Await => x.sent == Whole(pass)
       case Halted => x.sent <= Whole(pass)
  }

  /** The producer is behind by exactly the resets it has not acted on yet. */
  ghost predicate EpochsAgree<T>(x: Exchange<T>) {
    x.epoch + Resets(x.signals) + (if x.producer.Clear? then 1 else 0) == x.numResets
  }

  /** If both are in the same pass, nothing between them is lost or duplicated; if not, the
      consumer has seen nothing and the buffer holds nothing of the new pass. */
  ghost predicate Delivered<T>(x: Exchange<T>) {
    && (x.epoch == x.numResets ==> x.results + OfEpoch(x.buffer, x.numResets) == x.sent)
    && (x.epoch < x.numResets ==> x.results == [])
    && (forall i :: 0 <= i < |x.buffer| ==> x.buffer[i].0 <= x.epoch)
  }

  ghost predicate DieQueued<T>(x: Exchange<T>) {
    x.signals != [] && x.signals[|x.signals| - 1].Die?
  }

  /** DIE is sent last, and only by the destructor. */
  ghost predicate SignalsInOrder<T>(x: Exchange<T>) {
    && (forall i :: 0 <= i < |x.signals| && x.signals[i].Die? ==>
          i == |x.signals| - 1 && (x.consumer.Destroying? || x.consumer.Gone?))
    && (x.consumer.Destroying? ==> x.producer.Halted? || x.producer.Clear? || DieQueued(x))
    && (x.consumer.Gone? ==> x.producer.Halted?)
  }

  ghost predicate Invariant<T>(child: Child<T>, x: Exchange<T>) {
    SentSoFar(child, x) && EpochsAgree(x) && Delivered(x) && SignalsInOrder(x)
  }

  lemma ProduceKeepsSent<T>(child: Child<T>, x: Exchange<T>)
    requires Invariant(child, x) && Enabled(x, Produce)
    ensures SentSoFar(child, ProducerStep(child, x))
  {
    var pass := child(x.epoch);
    assert pass[..|pass|] == pass;
    if x.producer.Push? {
      assert Somes(pass[..x.position]) == Somes(pass[..x.position - 1]) + [Some(pass[x.position - 1])];
    } else if x.producer.Check? {
      assert Somes(pass[..x.position]) <= Whole(pass);
    }
  }

  lemma ProduceKeepsDelivered<T>(child: Child<T>, x: Exchange<T>)
    requires Invariant(child, x) && Enabled(x, Produce)
    ensures Delivered(ProducerStep(child, x)) && EpochsAgree(ProducerStep(child, x))
  {
    if x.producer.Push? {
      OfEpochAppend(x.buffer, (x.epoch, Some(x.producer.t)), x.numResets);
    } else if x.producer.PushEnd? {
      OfEpochAppend(x.buffer, (x.epoch, None), x.numResets);
    } else if x.producer.Await? {
      OfEpochNone(x.buffer, x.numResets);
    }
  }

  lemma ProduceKeepsInvariant<T>(child: Child<T>, x: Exchange<T>)
    requires Invariant(child, x) && Enabled(x, Produce)
    ensures Invariant(child, ProducerStep(child, x))
  {
    ProduceKeepsSent(child, x);
    ProduceKeepsDelivered(child, x);
  }

  lemma NextKeepsInvariant<T>(child: Child<T>, x: Exchange<T>, a: Action)
    requires Invariant(child, x) && Enabled(x, a)
    ensures Invariant(child, Next(child, x, a))
  {
    match a {
      case Produce => ProduceKeepsInvariant(child, x);
      case PullOne =>
        var x' := Next(child, x, a);
        if x.buffer[0].0 == x.numResets {
          assert x.results + OfEpoch(x.buffer, x.numResets) == x'.results + OfEpoch(x'.buffer, x.numResets);
        }
      case CallReset => ResetsAppend(x.signals, Reset);
      case CallDestructor => ResetsAppend(x.signals, Die);
      case _ =>
    }
  }

  lemma {:induction false} RunKeepsInvariant<T>(child: Child<T>, polite: bool, x: Exchange<T>, actions: seq<Action>)
    requires Invariant(child, x) && RunFrom(child, polite, x, actions).Some?
    ensures Invariant(child, RunFrom(child, polite, x, actions).value)
    decreases |actions|
  {
    if actions != [] {
      NextKeepsInvariant(child, x, actions[0]);
      RunKeepsInvariant(child, polite, Next(child, x, actions[0]), actions[1..]);
    }
  }

  lemma PrefixOfWhole<T>(child: Child<T>, x: Exchange<T>)
    requires Invariant(child, x)
    ensures x.sent <= Whole(child(x.epoch))
    ensures x.results <= Whole(child(x.numResets))
  {
  }

  /** Safety, for every schedule and any use of reset: what `next` has returned since the last
      reset is a prefix of the child's current pass followed by one empty result, and what
      the producer has pushed for that pass is exactly those results and what the buffer
      still holds of it. */
  lemma ResultsArePrefixOfPass<T>(child: Child<T>, actions: seq<Action>)
    requires RunFrom(child, false, Init<T>(), actions).Some?
    ensures var x := RunFrom(child, false, Init<T>(), actions).value;
            && x.results <= Whole(child(x.numResets))
            && (x.epoch == x.numResets ==> x.sent == x.results + OfEpoch(x.buffer, x.numResets))
  {
    RunKeepsInvariant(child, false, Init<T>(), actions);
    PrefixOfWhole(child, RunFrom(child, false, Init<T>(), actions).value);
  }

  // ------------------------------------------------------- the destructor returns

  function Rank<T>(p: Producer<T>): nat {
    match p
    case Fetch => 3 case Push(_) => 2 case Check => 1 case Clear => 1
    case PushEnd => 2 case Await => 1 case Halted => 0
  }

  function UntilHalt<T>(x: Exchange<T>): nat {
    4 * |x.signals| + Rank(x.producer) + if x.consumer.Destroying? then 1 else 0
  }

  /** Once DIE is queued, at most UntilHalt(x) more steps happen, whatever the child yields
      and however resets were used; and until the producer has been joined one is enabled. */
  lemma {:induction false} DestructorReturns<T>(child: Child<T>, x: Exchange<T>, actions: seq<Action>)
    requires Invariant(child, x) && (x.consumer.Destroying? || x.consumer.Gone?)
    requires RunFrom(child, false, x, actions).Some?
    ensures |actions| <= UntilHalt(x)
    ensures var y := RunFrom(child, false, x, actions).value;
            !y.consumer.Gone? ==> Enabled(y, Produce) || Enabled(y, JoinProducer)
    decreases |actions|
  {
    if actions != [] {
      NextKeepsInvariant(child, x, actions[0]);
      DestructorReturns(child, Next(child, x, actions[0]), actions[1..]);
    }
  }

  /** So the destructor returns whatever run it is called after. */
  lemma DestructorAlwaysReturns<T>(child: Child<T>, before: seq<Action>, actions: seq<Action>)
    requires RunFrom(child, false, Init<T>(), before).Some?
    requires var x := RunFrom(child, false, Init<T>(), before).value;
             (x.consumer.Destroying? || x.consumer.Gone?) && RunFrom(child, false, x, actions).Some?
    ensures var x := RunFrom(child, false, Init<T>(), before).value;
            var y := RunFrom(child, false, x, actions).value;
            && |actions| <= UntilHalt(x)
            && (!y.consumer.Gone? ==> Enabled(y, Produce) || Enabled(y, JoinProducer))
  {
    RunKeepsInvariant(child, false, Init<T>(), before);
    DestructorReturns(child, RunFrom(child, false, Init<T>(), before).value, actions);
  }

  // ------------------------------------------------- progress under the discipline

  /** A pending RESET never finds the producer in the middle of a pass. */
  ghost predicate ResetsArePolite<T>(child: Child<T>, x: Exchange<T>) {
    && (Resets(x.signals) > 0 ==> x.producer.Await? || child(x.epoch) == [])
    && (forall e :: x.epoch < e < x.numResets ==> child(e) == [])
    && !x.producer.Clear?
    && (x.producer.Halted? ==> x.consumer.Destroying? || x.consumer.Gone?)
  }

  /** The buffer is in pass order, and once the consumer has seen a result only the current
      pass is left in it. */
  ghost predicate BufferInOrder<T>(x: Exchange<T>) {
    && (forall i, j :: 0 <= i < j < |x.buffer| ==> x.buffer[i].0 <= x.buffer[j].0)
    && (x.results != [] ==> forall i :: 0 <= i < |x.buffer| ==> x.buffer[i].0 == x.numResets)
  }

  ghost predicate PoliteInvariant<T>(child: Child<T>, x: Exchange<T>) {
    Invariant(child, x) && ResetsArePolite(child, x) && BufferInOrder(x)
  }

  /** Having the empty result means the producer has nothing more to say in this pass. */
  lemma EndMeansAwait<T>(child: Child<T>, x: Exchange<T>)
    requires PoliteInvariant(child, x) && GotEnd(x)
    ensures x.epoch == x.numResets && x.sent == x.results == Whole(child(x.epoch)) && x.buffer == []
    ensures x.producer.Await? || x.producer.Halted?
  {
    PrefixOfWhole(child, x);
    var whole, n := Whole(child(x.epoch)), |x.results|;
    assert x.sent[n - 1] == None && whole[n - 1] == None;
    assert n == |whole|;
    assert OfEpoch(x.buffer, x.numResets) == [];
    OfEpochAll(x.buffer, x.numResets);
  }

  lemma ResetKeepsPolite<T>(child: Child<T>, x: Exchange<T>)
    requires PoliteInvariant(child, x) && Enabled(x, CallReset) && Polite(child, x, CallReset)
    ensures ResetsArePolite(child, Next(child, x, CallReset)) && BufferInOrder(Next(child, x, CallReset))
  {
    ResetsAppend(x.signals, Reset);
    if GotEnd(x) { EndMeansAwait(child, x); }
  }

  lemma ProduceKeepsPolite<T>(child: Child<T>, x: Exchange<T>)
    requires PoliteInvariant(child, x) && Enabled(x, Produce)
    ensures ResetsArePolite(child, ProducerStep(child, x)) && BufferInOrder(ProducerStep(child, x))
  {
  }

  lemma NextKeepsPolite<T>(child: Child<T>, x: Exchange<T>, a: Action)
    requires PoliteInvariant(child, x) && Enabled(x, a) && Polite(child, x, a)
    ensures PoliteInvariant(child, Next(child, x, a))
  {
    NextKeepsInvariant(child, x, a);
    match a {
      case Produce => ProduceKeepsPolite(child, x);
      case CallReset => ResetKeepsPolite(child, x);
      case CallDestructor => ResetsAppend(x.signals, Die);
      case _ =>
    }
  }

  lemma {:induction false} PoliteRun<T>(child: Child<T>, x: Exchange<T>, actions: seq<Action>)
    requires PoliteInvariant(child, x) && RunFrom(child, true, x, actions).Some?
    ensures PoliteInvariant(child, RunFrom(child, true, x, actions).value)
    decreases |actions|
  {
    if actions != [] {
      NextKeepsPolite(child, x, actions[0]);
      PoliteRun(child, Next(child, x, actions[0]), actions[1..]);
    }
  }

  /** The consumer is blocked in `next` and nothing can happen any more. */
  predicate Hung<T>(x: Exchange<T>) {
    x.consumer.Pulling? && !Enabled(x, Produce) && !Enabled(x, PullOne)
  }

  lemma HungMeansEnd<T>(child: Child<T>, x: Exchange<T>)
    requires PoliteInvariant(child, x) && Hung(x)
    ensures GotEnd(x)
  {
    var whole := Whole(child(x.epoch));
    assert x.producer.Await? && x.signals == [] && x.epoch == x.numResets;
    assert x.buffer == [] && x.results + [] == x.results == x.sent == whole;
    assert whole[|whole| - 1] == None;
  }

  lemma EndMeansHung<T>(child: Child<T>, x: Exchange<T>)
    requires PoliteInvariant(child, x) && x.consumer.Pulling? && GotEnd(x)
    ensures Hung(x)
  {
    EndMeansAwait(child, x);
    ResetsAll(x.signals);
  }

  lemma HungIff<T>(child: Child<T>, x: Exchange<T>)
    requires PoliteInvariant(child, x) && x.consumer.Pulling?
    ensures Hung(x) <==> GotEnd(x)
  {
    if Hung(x) { HungMeansEnd(child, x); }
    if GotEnd(x) { EndMeansHung(child, x); }
  }

  /** In a polite run a consumer inside `next` hangs exactly when it already has the empty
      result of the pass. */
  lemma HungIffPastTheEnd<T>(child: Child<T>, actions: seq<Action>)
    requires RunFrom(child, true, Init<T>(), actions).Some?
    ensures var x := RunFrom(child, true, Init<T>(), actions).value;
            x.consumer.Pulling? ==> (Hung(x) <==> GotEnd(x))
  {
    PoliteRun(child, Init<T>(), actions);
    var x := RunFrom(child, true, Init<T>(), actions).value;
    if x.consumer.Pulling? { HungIff(child, x); }
  }

  /** Producer steps for the passes after `from` up to `to`. */
  function PassSteps<T>(child: Child<T>, from: nat, to: nat): nat
    decreases to - from
  {
    if from >= to then 0 else 3 + 3 * |child(from + 1)| + PassSteps(child, from + 1, to)
  }

  function ProducerSteps<T>(child: Child<T>, x: Exchange<T>): nat
    requires x.position <= |child(x.epoch)|
  {
    var rest := 3 * (|child(x.epoch)| - x.position);
    PassSteps(child, x.epoch, x.numResets)
    + match x.producer
      case Fetch => rest + 2 case Push(_) => rest + 4 case Check => rest + 3
      case PushEnd => 1 case _ => 0
  }

  function UntilResult<T>(child: Child<T>, x: Exchange<T>): nat
    requires x.position <= |child(x.epoch)|
  {
    2 * ProducerSteps(child, x) + |x.buffer|
  }

  lemma ProduceTowardsResult<T>(child: Child<T>, x: Exchange<T>)
    requires PoliteInvariant(child, x) && Enabled(x, Produce)
    requires x.consumer.Idle? || x.consumer.Pulling?
    ensures ProducerStep(child, x).position <= |child(ProducerStep(child, x).epoch)|
    ensures ProducerSteps(child, ProducerStep(child, x)) < ProducerSteps(child, x)
  {
    if x.producer.Await? {
      assert x.signals[0].Reset? && x.epoch < x.numResets;
    }
  }

  lemma StepTowardsResult<T>(child: Child<T>, x: Exchange<T>, a: Action)
    requires PoliteInvariant(child, x) && Enabled(x, a) && (a.Produce? || a.PullOne?)
    requires x.consumer.Idle? || x.consumer.Pulling?
    ensures PoliteInvariant(child, Next(child, x, a))
    ensures UntilResult(child, Next(child, x, a)) < UntilResult(child, x)
  {
    NextKeepsPolite(child, x, a);
    if a.Produce? { ProduceTowardsResult(child, x); }
  }

  /** In a polite run `next` returns: called before the empty result of the pass is out, it
      is through after at most UntilResult steps of the two threads, and until then one of
      them can step. */
  lemma {:induction false} NextReturns<T>(child: Child<T>, x: Exchange<T>, actions: seq<Action>)
    requires PoliteInvariant(child, x) && x.consumer.Pulling? && !GotEnd(x)
    requires RunFrom(child, true, x, actions).Some?
    requires forall a :: a in actions ==> a.Produce? || a.PullOne?
    ensures |actions| <= UntilResult(child, x)
    ensures var y := RunFrom(child, true, x, actions).value;
            y.consumer.Pulling? ==> Enabled(y, Produce) || Enabled(y, PullOne)
    decreases |actions|
  {
    if actions == [] {
      HungIff(child, x);
    } else {
      var y := Next(child, x, actions[0]);
      StepTowardsResult(child, x, actions[0]);
      if y.consumer.Pulling? {
        assert y.results == x.results;
        NextReturns(child, y, actions[1..]);
      } else {
        OnlyProducer(child, y, actions[1..]);
      }
    }
  }

  lemma {:induction false} OnlyProducer<T>(child: Child<T>, x: Exchange<T>, actions: seq<Action>)
    requires PoliteInvariant(child, x) && x.consumer.Idle?
    requires RunFrom(child, true, x, actions).Some?
    requires forall a :: a in actions ==> a.Produce? || a.PullOne?
    ensures |actions| <= UntilResult(child, x)
    ensures RunFrom(child, true, x, actions).value.consumer.Idle?
    decreases |actions|
  {
    if actions != [] {
      StepTowardsResult(child, x, actions[0]);
      OnlyProducer(child, Next(child, x, actions[0]), actions[1..]);
    }
  }

  /** So `next` returns in every polite run. */
  lemma NextAlwaysReturns<T>(child: Child<T>, before: seq<Action>, actions: seq<Action>)
    requires RunFrom(child, true, Init<T>(), before).Some?
    requires var x := RunFrom(child, true, Init<T>(), before).value;
             x.consumer.Pulling? && !GotEnd(x) && RunFrom(child, true, x, actions).Some?
    requires forall a :: a in actions ==> a.Produce? || a.PullOne?
    ensures var x := RunFrom(child, true, Init<T>(), before).value;
            var y := RunFrom(child, true, x, actions).value;
            && x.position <= |child(x.epoch)| && |actions| <= UntilResult(child, x)
            && (y.consumer.Pulling? ==> Enabled(y, Produce) || Enabled(y, PullOne))
  {
    PoliteRun(child, Init<T>(), before);
    NextReturns(child, RunFrom(child, true, Init<T>(), before).value, actions);
  }

  // -------------------------------------- a reset in the middle of a pass can hang

  /** The schedule in which both threads are in step: in pass k the consumer has m tuples,
      the producer has just pushed the last of them, and nothing is queued. */
  function InStep<T>(child: Child<T>, k: nat, m: nat): Exchange<T>
    requires m <= |child(k)|
  {
    var seen := Somes(child(k)[..m]);
    Exchange(k, [], [], if m == 0 then Fetch else Check, k, m, Idle, seen, seen)
  }

  ghost predicate Leads<T>(child: Child<T>, polite: bool, x: Exchange<T>, actions: seq<Action>, y: Exchange<T>) {
    RunFrom(child, polite, x, actions) == Some(y)
  }

  lemma {:induction false} LeadsCompose<T>(
      child: Child<T>, polite: bool, x: Exchange<T>, a: seq<Action>, y: Exchange<T>, b: seq<Action>, z: Exchange<T>)
    requires Leads(child, polite, x, a, y) && Leads(child, polite, y, b, z)
    ensures Leads(child, polite, x, a + b, z)
    decreases |a|
  {
    if a == [] {
      assert a + b == b;
    } else {
      LeadsCompose(child, polite, Next(child, x, a[0]), a[1..], y, b, z);
      assert (a + b)[1..] == a[1..] + b;
    }
  }

  lemma Prepend<T>(
      child: Child<T>, polite: bool, x: Exchange<T>, a: Action, y: Exchange<T>, rest: seq<Action>, z: Exchange<T>)
    requires Enabled(x, a) && Next(child, x, a) == y && (polite ==> Polite(child, x, a))
    requires Leads(child, polite, y, rest, z)
    ensures Leads(child, polite, x, [a] + rest, z)
  {
    assert ([a] + rest)[1..] == rest;
  }

  /** In step, one more tuple goes through. */
  lemma OneMoreTuple<T>(child: Child<T>, k: nat, m: nat) returns (actions: seq<Action>)
    requires m < |child(k)|
    ensures Leads(child, true, InStep(child, k, m), actions, InStep(child, k, m + 1))
  {
    var x := InStep(child, k, m);
    var t := child(k)[m];
    var seen, seen' := Somes(child(k)[..m]), Somes(child(k)[..m + 1]);
    assert seen' == seen + [Some(t)];
    var x1 := x.(producer := Fetch);
    var x2 := x1.(producer := Push(t), position := m + 1);
    var x3 := x2.(buffer := [(k, Some(t))], sent := seen', producer := Check);
    var x4 := x3.(consumer := Pulling);
    var x5 := InStep(child, k, m + 1);
    assert x3.buffer == [] + [(k, Some(t))];
    assert x4.buffer[1..] == [];
    assert Next(child, x4, PullOne) == x5;
    actions := [];
    Prepend(child, true, x4, PullOne, x5, actions, x5);
    actions := [PullOne] + actions;
    Prepend(child, true, x3, CallNext, x4, actions, x5);
    actions := [CallNext] + actions;
    Prepend(child, true, x2, Produce, x3, actions, x5);
    actions := [Produce] + actions;
    Prepend(child, true, x1, Produce, x2, actions, x5);
    actions := [Produce] + actions;
    if m > 0 {
      Prepend(child, true, x, Produce, x1, actions, x5);
      actions := [Produce] + actions;
    }
  }

  /** In step, the empty result of pass k goes through. */
  lemma EndOfPass<T>(child: Child<T>, k: nat) returns (actions: seq<Action>)
    ensures Leads(child, true, InStep(child, k, |child(k)|), actions, AfterEnd(child, k))
  {
    var x := InStep(child, k, |child(k)|);
    var seen := Somes(child(k)[..|child(k)|]);
    assert seen == Somes(child(k));
    var x1 := x.(producer := Fetch);
    var x2 := x1.(producer := PushEnd);
    var x3 := x2.(buffer := [(k, None)], sent := seen + [None], producer := Await);
    var x4 := x3.(consumer := Pulling);
    var x5 := AfterEnd(child, k);
    assert x3.buffer == [] + [(k, None)] && x4.buffer[1..] == [];
    actions := [];
    Prepend(child, true, x4, PullOne, x5, actions, x5);
    actions := [PullOne] + actions;
    Prepend(child, true, x3, CallNext, x4, actions, x5);
    actions := [CallNext] + actions;
    Prepend(child, true, x2, Produce, x3, actions, x5);
    actions := [Produce] + actions;
    Prepend(child, true, x1, Produce, x2, actions, x5);
    actions := [Produce] + actions;
    if child(k) != [] {
      Prepend(child, true, x, Produce, x1, actions, x5);
      actions := [Produce] + actions;
    }
  }

  function AfterEnd<T>(child: Child<T>, k: nat): Exchange<T> {
    Exchange(k, [], [], Await, k, |child(k)|, Idle, Whole(child(k)), Whole(child(k)))
  }

  /** A polite reset starts the next pass. */
  lemma OneMorePass<T>(child: Child<T>, k: nat) returns (actions: seq<Action>)
    ensures Leads(child, true, AfterEnd(child, k), actions, InStep(child, k + 1, 0))
  {
    var x5 := AfterEnd(child, k);
    var x6 := x5.(numResets := k + 1, signals := [Reset], results := []);
    var x7 := InStep(child, k + 1, 0);
    assert x6.signals == [] + [Reset] && x6.signals[1..] == [];
    assert x7.sent == [] && x7.results == [];
    Prepend(child, true, x6, Produce, x7, [], x7);
    Prepend(child, true, x5, CallReset, x6, [Produce] + [], x7);
    actions := [CallReset] + ([Produce] + []);
  }

  /** Every in-step state is reached by a polite run. */
  lemma {:induction false} InStepReachable<T>(child: Child<T>, k: nat, m: nat) returns (actions: seq<Action>)
    requires m <= |child(k)|
    ensures Leads(child, true, Init<T>(), actions, InStep(child, k, m))
    decreases k, m
  {
    if m > 0 {
      var before := InStepReachable(child, k, m - 1);
      var last := OneMoreTuple(child, k, m - 1);
      LeadsCompose(child, true, Init<T>(), before, InStep(child, k, m - 1), last, InStep(child, k, m));
      actions := before + last;
    } else if k > 0 {
      var before := InStepReachable(child, k - 1, |child(k - 1)|);
      var end := EndOfPass(child, k - 1);
      var reset := OneMorePass(child, k - 1);
      var x := InStep(child, k - 1, |child(k - 1)|);
      LeadsCompose(child, true, x, end, AfterEnd(child, k - 1), reset, InStep(child, k, 0));
      LeadsCompose(child, true, Init<T>(), before, x, end + reset, InStep(child, k, 0));
      actions := before + (end + reset);
    } else {
      actions := [];
    }
  }

  /** From a producer that has just pushed a tuple, a reset sends it into the mid-stream case:
      it clears the buffer and returns, and the `next` that follows waits for ever. */
  lemma MidPassResetHangs<T>(child: Child<T>, x: Exchange<T>) returns (rest: seq<Action>)
    requires x.producer.Check? && x.consumer.Idle? && x.signals == []
    ensures exists y :: Leads(child, false, x, rest, y) && Hung(y) && y.results == [] && y.numResets == x.numResets + 1
    ensures rest == [CallReset, Produce, Produce, CallNext]
  {
    var x1 := x.(numResets := x.numResets + 1, signals := [Reset], results := []);
    var x2 := x1.(signals := [], producer := Clear);
    var x3 := NewPass(x2).(buffer := [], producer := Halted);
    var hung := x3.(consumer := Pulling);
    assert x1.signals == x.signals + [Reset] && x1.signals[1..] == [];
    rest := [CallNext];
    assert rest == [CallNext] + [];
    Prepend(child, false, x3, CallNext, hung, [], hung);
    Prepend(child, false, x2, Produce, x3, [CallNext], hung);
    Prepend(child, false, x1, Produce, x2, [Produce] + [CallNext], hung);
    Prepend(child, false, x, CallReset, x1, [Produce] + ([Produce] + [CallNext]), hung);
    rest := [CallReset] + ([Produce] + ([Produce] + [CallNext]));
    assert Leads(child, false, x, rest, hung) && Hung(hung);
  }

  /** So for any child, in any pass that has a tuple and after any number of its tuples but
      before its empty result, one reset can leave the following `next` waiting for ever,
      though all resets before it were polite. */
  lemma MidPassResetCanHang<T>(child: Child<T>, k: nat, m: nat) returns (before: seq<Action>, rest: seq<Action>)
    requires m <= |child(k)| && child(k) != []
    ensures Leads(child, true, Init<T>(), before, InStep(child, k, m))
    ensures InStep(child, k, m).results == Somes(child(k)[..m]) && !GotEnd(InStep(child, k, m))
    ensures exists y :: Leads(child, false, InStep(child, k, m), rest, y) && Hung(y) && y.results == []
    ensures CallDestructor !in rest && multiset(rest)[CallReset] == 1
  {
    before := InStepReachable(child, k, m);
    var x := InStep(child, k, m);
    if m > 0 {
      rest := MidPassResetHangs(child, x);
    } else {
      var t := child(k)[0];
      var x1 := x.(producer := Push(t), position := 1);
      var x2 := x1.(buffer := [(k, Some(t))], sent := x.sent + [Some(t)], producer := Check);
      assert x2.buffer == x1.buffer + [(k, Some(t))];
      var tail := MidPassResetHangs(child, x2);
      var y :| Leads(child, false, x2, tail, y) && Hung(y) && y.results == [];
      Prepend(child, false, x1, Produce, x2, tail, y);
      Prepend(child, false, x, Produce, x1, [Produce] + tail, y);
      rest := [Produce] + ([Produce] + tail);
    }
  }
}
