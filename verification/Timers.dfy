/** The event loop of src/click/driver.cc with a timer (src/click/timer.h) and any other
    handlers on it. Handlers may register further handlers and push into the timer while
    the loop is dispatching. */
module Timers {
  import opened Counting

  /** A timer's handler, named by its id in the timer's map, or somebody else's. */
  datatype Handler =
    | TimerHandler(id: nat)
    | OtherHandler(name: nat, oneOff: bool)
  {
    predicate IsOneOff() {
      TimerHandler? || oneOff
    }

    function GetPollitem(): Pollitem {
      Pollitem(this)
    }
  }

  datatype Pollitem = Pollitem(handler: Handler)

  /** What a running handler may do to the loop: push a value into the timer, directly or
      through the elements downstream of it, or register another handler. */
  datatype Effect<V> = Push(value: V) | Register(name: nat, oneOff: bool)

  function Aligned(handlers: seq<Handler>): (items: seq<Pollitem>)
    ensures |items| == |handlers|
  {
    seq(|handlers|, i requires 0 <= i < |handlers| => handlers[i].GetPollitem())
  }

  class Driver {
    var eventHandlers: seq<Handler>
    var pollitems: seq<Pollitem>

    ghost predicate Valid()
      reads this
    {
      pollitems == Aligned(eventHandlers)
    }

    constructor ()
      ensures Valid() && eventHandlers == []
    {
      eventHandlers, pollitems := [], [];
    }

    method RegisterEventHandler(h: Handler)
      requires Valid()
      modifies this
      ensures Valid() && eventHandlers == old(eventHandlers) + [h]
    {
      eventHandlers := eventHandlers + [h];
      pollitems := pollitems + [h.GetPollitem()];
    }
  }

  /** `handlers` maps the id of each handler that is still alive to the value it holds.
      `entered` lists the values by id, `delivered` the ids in the order their values went
      downstream; both are history. */
  class Timer<V> {
    const driver: Driver
    var timerId: nat
    var handlers: map<nat, V>
    ghost var entered: seq<V>
    ghost var delivered: seq<nat>

    ghost function State(): Loop<V>
      reads this, driver
    {
      Loop(driver.eventHandlers, handlers, entered, delivered)
    }

    ghost predicate Valid()
      reads this, driver
    {
      && driver.Valid() && timerId == |entered|
      && Balanced(driver.eventHandlers, handlers, entered, delivered)
    }

    constructor (driver: Driver)
      requires driver.Valid()
      requires forall i :: 0 <= i < |driver.eventHandlers| ==> driver.eventHandlers[i].OtherHandler?
      ensures Valid() && this.driver == driver && entered == [] && delivered == []
    {
      NoTimersListed(driver.eventHandlers);
      this.driver := driver;
      timerId, handlers, entered, delivered := 0, map[], [], [];
    }

    method Push(x: V)
      requires driver.Valid()
      modifies this`timerId, this`handlers, this`entered, driver
      ensures driver.Valid()
      ensures timerId == old(timerId) + 1 && handlers == old(handlers)[old(timerId) := x]
      ensures entered == old(entered) + [x]
      ensures driver.eventHandlers == old(driver.eventHandlers) + [TimerHandler(old(timerId))]
    {
      handlers := handlers[timerId := x];
      driver.RegisterEventHandler(TimerHandler(timerId));
      entered := entered + [x];
      timerId := timerId + 1;
    }

    /** A handler carries out its effects in order. */
    method Apply(effects: seq<Effect<V>>)
      requires driver.Valid()
      modifies this`timerId, this`handlers, this`entered, driver
      ensures driver.Valid()
      ensures driver.eventHandlers == old(driver.eventHandlers) + NewHandlers(effects, old(timerId))
      ensures timerId == old(timerId) + |NewValues(effects)| && entered == old(entered) + NewValues(effects)
      ensures handlers == Bind(old(handlers), NewValues(effects), old(timerId))
    {
      for i := 0 to |effects|
        invariant driver.Valid()
        invariant driver.eventHandlers == old(driver.eventHandlers) + NewHandlers(effects[..i], old(timerId))
        invariant timerId == old(timerId) + |NewValues(effects[..i])|
        invariant entered == old(entered) + NewValues(effects[..i])
        invariant handlers == Bind(old(handlers), NewValues(effects[..i]), old(timerId))
      {
        EffectsStep(effects, i, old(timerId), old(handlers));
        match effects[i] {
          case Push(x) => Push(x);
          case Register(name, oneOff) => driver.RegisterEventHandler(OtherHandler(name, oneOff));
        }
      }
      assert effects[..|effects|] == effects;
    }
  }

  lemma EffectsStep<V>(effects: seq<Effect<V>>, i: nat, next: nat, held: map<nat, V>)
    requires i < |effects|
    ensures var before, after, e := effects[..i], effects[..i + 1], effects[i];
            var id := next + |NewValues(before)|;
            if e.Push? then
              && NewValues(after) == NewValues(before) + [e.value]
              && NewHandlers(after, next) == NewHandlers(before, next) + [TimerHandler(id)]
              && Bind(held, NewValues(after), next) == Bind(held, NewValues(before), next)[id := e.value]
            else
              && NewValues(after) == NewValues(before)
              && NewHandlers(after, next) == NewHandlers(before, next) + [OtherHandler(e.name, e.oneOff)]
  {
    assert effects[..i + 1][..i] == effects[..i];
    if effects[i].Push? {
      var vs := NewValues(effects[..i]);
      assert (vs + [effects[i].value])[..|vs|] == vs;
    }
  }

  function NewValues<V>(effects: seq<Effect<V>>): seq<V> {
    if effects == [] then []
    else
      var e := effects[|effects| - 1];
      if e.Push? then NewValues(effects[..|effects| - 1]) + [e.value] else NewValues(effects[..|effects| - 1])
  }

  function NewHandlers<V>(effects: seq<Effect<V>>, next: nat): seq<Handler> {
    if effects == [] then []
    else
      var before, e := effects[..|effects| - 1], effects[|effects| - 1];
      NewHandlers(before, next)
      + [if e.Push? then TimerHandler(next + |NewValues(before)|) else OtherHandler(e.name, e.oneOff)]
  }

  /** The map with the values bound to consecutive ids. */
  function Bind<V>(held: map<nat, V>, values: seq<V>, next: nat): map<nat, V> {
    if values == [] then held
    else
      var n := |values| - 1;
      Bind(held, values[..n], next)[next + n := values[n]]
  }

  lemma {:induction false} BindEntries<V>(held: map<nat, V>, values: seq<V>, next: nat, i: nat)
    ensures i in Bind(held, values, next) <==> i in held || next <= i < next + |values|
    ensures i in Bind(held, values, next) ==>
              Bind(held, values, next)[i] == if next <= i < next + |values| then values[i - next] else held[i]
  {
    if values != [] { BindEntries(held, values[..|values| - 1], next, i); }
  }

  // -------------------------------------------------------------------- accounting

  /** Each held timer's handler is there once, and no other timer's. */
  ghost predicate Listed(onDriver: seq<Handler>, held: set<nat>) {
    forall i: nat :: Count(onDriver, TimerHandler(i)) == if i in held then 1 else 0
  }

  /** Each id given out is still held or was delivered, once. */
  ghost predicate Settled(next: nat, held: set<nat>, delivered: seq<nat>) {
    forall i: nat :: Count(delivered, i) == if i < next && i !in held then 1 else 0
  }

  ghost predicate Holds<V>(held: map<nat, V>, entered: seq<V>) {
    forall i :: i in held ==> i < |entered| && held[i] == entered[i]
  }

  /** A timer's handler is on the driver once if the timer's map holds it and not at all
      otherwise; and each value that entered is either still held or was delivered, once. */
  ghost predicate Balanced<V>(
      onDriver: seq<Handler>, held: map<nat, V>, entered: seq<V>, delivered: seq<nat>)
  {
    && Holds(held, entered)
    && Listed(onDriver, held.Keys)
    && Settled(|entered|, held.Keys, delivered)
  }

  lemma {:induction false} NoTimersListed(hs: seq<Handler>)
    requires forall i :: 0 <= i < |hs| ==> hs[i].OtherHandler?
    ensures Listed(hs, {})
  {
    if hs != [] { NoTimersListed(hs[..|hs| - 1]); }
  }

  lemma {:induction false} NewHandlersCount<V>(effects: seq<Effect<V>>, next: nat, i: nat)
    ensures Count(NewHandlers(effects, next), TimerHandler(i)) ==
              if next <= i < next + |NewValues(effects)| then 1 else 0
  {
    if effects != [] {
      var before := NewHandlers(effects[..|effects| - 1], next);
      var all := NewHandlers(effects, next);
      NewHandlersCount(effects[..|effects| - 1], next, i);
      assert all[..|all| - 1] == before;
    }
  }

  /** 1 for the handler of timer i, 0 for any other. */
  function Is(h: Handler, i: nat): nat {
    if h == TimerHandler(i) then 1 else 0
  }

  /** Handler `h` has run: its reaction's handlers are on the driver and its own, if it is a
      timer's, is off the driver and out of the map, with its value delivered. */
  lemma RunningKeepsBalance<V>(
      on: seq<Handler>, on': seq<Handler>, held: map<nat, V>, entered: seq<V>,
      delivered: seq<nat>, delivered': seq<nat>, reaction: seq<Effect<V>>, h: Handler)
    requires Balanced(on, held, entered, delivered)
    requires forall i: nat ::
      Count(on', TimerHandler(i)) + Is(h, i)
        == Count(on, TimerHandler(i)) + Count(NewHandlers(reaction, |entered|), TimerHandler(i))
    requires forall i: nat :: Count(delivered', i) == Count(delivered, i) + Is(h, i)
    requires h.TimerHandler? ==> h.id in held
    ensures var bound := Bind(held, NewValues(reaction), |entered|);
            Balanced(on', if h.TimerHandler? then bound - {h.id} else bound, entered + NewValues(reaction), delivered')
  {
    var next, values := |entered|, NewValues(reaction);
    var bound := Bind(held, values, next);
    var held' := if h.TimerHandler? then bound - {h.id} else bound;
    forall i: nat
      ensures i in held' ==> i < next + |values| && held'[i] == (entered + values)[i]
      ensures Count(on', TimerHandler(i)) == if i in held'.Keys then 1 else 0
      ensures Count(delivered', i) == if i < next + |values| && i !in held'.Keys then 1 else 0
    {
      NewHandlersCount(reaction, next, i);
      BindEntries(held, values, next, i);
      assert Count(on, TimerHandler(i)) == if i in held.Keys then 1 else 0;
      assert Count(delivered, i) == if i < next && i !in held.Keys then 1 else 0;
    }
  }

  // ----------------------------------------------------- one turn of the event loop

  /** What a turn starts from: the handlers on the driver, which of them the poll found ready,
      what each does when run, and the timer's map and history. */
  datatype Turn<V> = Turn(
    hs: seq<Handler>,
    fired: seq<bool>,
    reactions: seq<seq<Effect<V>>>,
    held: map<nat, V>,
    entered: seq<V>,
    delivered: seq<nat>)
  {
    predicate Upto(n: nat) {
      n <= |hs| == |fired| == |reactions|
    }

    /** The first n handlers, without the one-off ones that fired. */
    function Kept(n: nat): seq<Handler>
      requires Upto(n)
    {
      if n == 0 then []
      else if fired[n - 1] && hs[n - 1].IsOneOff() then Kept(n - 1)
      else Kept(n - 1) + [hs[n - 1]]
    }

    /** The values pushed into the timer while the first n handlers were dispatched. */
    function Pushed(n: nat): seq<V>
      requires Upto(n)
    {
      if n == 0 then []
      else if fired[n - 1] then Pushed(n - 1) + NewValues(reactions[n - 1])
      else Pushed(n - 1)
    }

    /** The next id after the first n handlers. */
    function NextId(n: nat): nat
      requires Upto(n)
    {
      |entered| + |Pushed(n)|
    }

    /** The handlers registered meanwhile. */
    function Spawned(n: nat): seq<Handler>
      requires Upto(n)
    {
      if n == 0 then []
      else if fired[n - 1] then Spawned(n - 1) + NewHandlers(reactions[n - 1], NextId(n - 1))
      else Spawned(n - 1)
    }

    /** The timers among the first n handlers that fired, in order. */
    function FiredTimers(n: nat): seq<nat>
      requires Upto(n)
    {
      if n == 0 then []
      else if fired[n - 1] && hs[n - 1].TimerHandler? then FiredTimers(n - 1) + [hs[n - 1].id]
      else FiredTimers(n - 1)
    }

    /** What the timer's map holds after the first n handlers. */
    function HeldAfter(n: nat): map<nat, V>
      requires Upto(n)
    {
      if n == 0 then held
      else if !fired[n - 1] then HeldAfter(n - 1)
      else
        var bound := Bind(HeldAfter(n - 1), NewValues(reactions[n - 1]), NextId(n - 1));
        if hs[n - 1].TimerHandler? then bound - {hs[n - 1].id} else bound
    }

    /** All handlers known after the first n: registered meanwhile, kept, or not yet looked at. */
    function OnDriver(n: nat): seq<Handler>
      requires Upto(n)
    {
      Spawned(n) + (Kept(n) + hs[n..])
    }

    function Entered(n: nat): seq<V>
      requires Upto(n)
    {
      entered + Pushed(n)
    }

    function Delivered(n: nat): seq<nat>
      requires Upto(n)
    {
      delivered + FiredTimers(n)
    }

    /** The balance after n handlers of the turn. */
    ghost predicate BalancedAfter(n: nat)
      requires Upto(n)
    {
      Balanced(OnDriver(n), HeldAfter(n), Entered(n), Delivered(n))
    }
  }

  lemma SplitAt<T>(a: seq<T>, b: seq<T>)
    requires b != []
    ensures (a + b)[|a|] == b[0] && (a + b)[..|a|] == a && (a + b)[|a| + 1..] == b[1..]
    ensures (a + [b[0]]) + b[1..] == a + b
  {
  }

  lemma CountOnDriver<V>(t: Turn<V>, n: nat, h: Handler)
    requires t.Upto(n)
    ensures Count(t.OnDriver(n), h) == Count(t.Spawned(n), h) + Count(t.Kept(n), h) + Count(t.hs[n..], h)
  {
    CountConcat(t.Spawned(n), t.Kept(n) + t.hs[n..], h);
    CountConcat(t.Kept(n), t.hs[n..], h);
  }

  /** What handler n's turn does to the count of timer i's handlers. */
  lemma CountStep<V>(t: Turn<V>, n: nat, i: nat)
    requires t.Upto(n + 1)
    ensures var before, after := Count(t.OnDriver(n), TimerHandler(i)), Count(t.OnDriver(n + 1), TimerHandler(i));
            && before >= Is(t.hs[n], i)
            && (t.fired[n] ==>
                  after + Is(t.hs[n], i) == before + Count(NewHandlers(t.reactions[n], t.NextId(n)), TimerHandler(i)))
            && (!t.fired[n] ==> after == before)
  {
    var h := TimerHandler(i);
    CountOnDriver(t, n, h);
    CountOnDriver(t, n + 1, h);
    CountFirst(t.hs, n, h);
    CountLast(t.Kept(n), t.hs[n], h);
    CountConcat(t.Spawned(n), NewHandlers(t.reactions[n], t.NextId(n)), h);
  }

  lemma DeliveredStep<V>(t: Turn<V>, n: nat, i: nat)
    requires t.Upto(n + 1)
    ensures Count(t.Delivered(n + 1), i) == Count(t.Delivered(n), i) + (if t.fired[n] then Is(t.hs[n], i) else 0)
  {
    CountConcat(t.delivered, t.FiredTimers(n), i);
    CountConcat(t.delivered, t.FiredTimers(n + 1), i);
    if t.fired[n] && t.hs[n].TimerHandler? { CountLast(t.FiredTimers(n), t.hs[n].id, i); }
  }

  lemma EnteredStep<V>(t: Turn<V>, n: nat)
    requires t.Upto(n + 1)
    ensures t.Entered(n + 1) == if t.fired[n] then t.Entered(n) + NewValues(t.reactions[n]) else t.Entered(n)
    ensures |t.Entered(n)| == t.NextId(n)
  {
  }

  lemma CurrentTimerIsHeld<V>(t: Turn<V>, n: nat)
    requires t.Upto(n + 1) && t.BalancedAfter(n)
    ensures t.hs[n].TimerHandler? ==> t.hs[n].id in t.HeldAfter(n)
  {
    if t.hs[n].TimerHandler? {
      CountStep(t, n, t.hs[n].id);
      assert Count(t.OnDriver(n), TimerHandler(t.hs[n].id)) >= 1;
    }
  }

  /** A handler whose event did not happen changes nothing. */
  lemma IdleStep<V>(t: Turn<V>, n: nat)
    requires t.Upto(n + 1) && !t.fired[n] && t.BalancedAfter(n)
    ensures t.BalancedAfter(n + 1)
  {
    var on, on', now := t.OnDriver(n), t.OnDriver(n + 1), t.HeldAfter(n);
    forall i: nat ensures Count(on', TimerHandler(i)) == if i in now.Keys then 1 else 0 {
      CountStep(t, n, i);
      assert Count(on, TimerHandler(i)) == if i in now.Keys then 1 else 0;
    }
  }

  lemma FiringCount<V>(t: Turn<V>, n: nat, i: nat)
    requires t.Upto(n + 1) && t.fired[n]
    ensures Count(t.OnDriver(n + 1), TimerHandler(i)) + Is(t.hs[n], i)
         == Count(t.OnDriver(n), TimerHandler(i))
            + Count(NewHandlers(t.reactions[n], |t.Entered(n)|), TimerHandler(i))
    ensures Count(t.Delivered(n + 1), i) == Count(t.Delivered(n), i) + Is(t.hs[n], i)
  {
    EnteredStep(t, n);
    CountStep(t, n, i);
    DeliveredStep(t, n, i);
  }

  lemma FiringStep<V>(t: Turn<V>, n: nat)
    requires t.Upto(n + 1) && t.fired[n] && t.BalancedAfter(n)
    ensures t.BalancedAfter(n + 1)
  {
    var on, on', gone, gone' := t.OnDriver(n), t.OnDriver(n + 1), t.Delivered(n), t.Delivered(n + 1);
    var more := NewHandlers(t.reactions[n], |t.Entered(n)|);
    forall i: nat
      ensures Count(on', TimerHandler(i)) + Is(t.hs[n], i) == Count(on, TimerHandler(i)) + Count(more, TimerHandler(i))
      ensures Count(gone', i) == Count(gone, i) + Is(t.hs[n], i)
    {
      FiringCount(t, n, i);
    }
    CurrentTimerIsHeld(t, n);
    RunningKeepsBalance(on, on', t.HeldAfter(n), t.Entered(n), gone, gone', t.reactions[n], t.hs[n]);
    EnteredStep(t, n);
    HeldStep(t, n, |t.Entered(n)|);
  }

  lemma HeldStep<V>(t: Turn<V>, n: nat, id: nat)
    requires t.Upto(n + 1) && t.fired[n] && id == t.NextId(n)
    ensures var bound := Bind(t.HeldAfter(n), NewValues(t.reactions[n]), id);
            t.HeldAfter(n + 1) == if t.hs[n].TimerHandler? then bound - {t.hs[n].id} else bound
  {
  }

  /** The balance holds after any number of handlers of the turn, whichever fired and
      whatever they did. */
  lemma {:induction false} TurnKeepsBalance<V>(t: Turn<V>, n: nat)
    requires t.Upto(n) && Balanced(t.hs, t.held, t.entered, t.delivered)
    ensures t.BalancedAfter(n)
  {
    if n == 0 {
      TurnStart(t);
    } else {
      TurnKeepsBalance(t, n - 1);
      if t.fired[n - 1] {
        FiringStep(t, n - 1);
      } else {
        IdleStep(t, n - 1);
      }
    }
  }

  /** A timer handler whose turn it is has not been freed: the timer's map still holds it. */
  lemma FiringTimerIsHeld<V>(t: Turn<V>, n: nat)
    requires t.Upto(n + 1) && Balanced(t.hs, t.held, t.entered, t.delivered)
    ensures t.hs[n].TimerHandler? ==> t.hs[n].id in t.HeldAfter(n)
  {
    TurnKeepsBalance(t, n);
    CurrentTimerIsHeld(t, n);
  }

  /** One turn of `Run`: `fired[i]` says whether the poll found handler i ready and
      `reactions[i]` what it does when run. Afterwards the driver holds the handlers
      registered during the turn, then those that did not fire or are not one-off, in their
      old order; exactly the fired timers have been delivered and are gone from both the
      driver and the timer's map, and everything pushed is held. */
  method RunOnce<V>(driver: Driver, timer: Timer<V>, fired: seq<bool>, reactions: seq<seq<Effect<V>>>)
    requires timer.Valid() && timer.driver == driver
    requires |fired| == |reactions| == |driver.eventHandlers|
    modifies driver, timer
    ensures timer.Valid()
    ensures var n := |fired|;
            var t := old(Turn(driver.eventHandlers, fired, reactions, timer.handlers, timer.entered, timer.delivered));
            && driver.eventHandlers == t.Spawned(n) + t.Kept(n)
            && timer.handlers == t.HeldAfter(n) && timer.entered == t.Entered(n) && timer.delivered == t.Delivered(n)
  {
    ghost var t := Turn(driver.eventHandlers, fired, reactions, timer.handlers, timer.entered, timer.delivered);
    Dispatch(driver, timer, fired, reactions, t);
    TurnKeepsBalance(t, |fired|);
    EnteredLength(t, |fired|);
    assert t.OnDriver(|fired|) == driver.eventHandlers;
  }

  lemma EnteredLength<V>(t: Turn<V>, n: nat)
    requires t.Upto(n)
    ensures |t.Entered(n)| == t.NextId(n)
  {
  }

  method Dispatch<V>(
      driver: Driver, timer: Timer<V>, fired: seq<bool>, reactions: seq<seq<Effect<V>>>, ghost t: Turn<V>)
    requires timer.Valid() && timer.driver == driver
    requires |fired| == |reactions| == |driver.eventHandlers|
    requires t == Turn(driver.eventHandlers, fired, reactions, timer.handlers, timer.entered, timer.delivered)
    modifies driver, timer
    ensures var n := |fired|;
            && driver.Valid() && driver.eventHandlers == t.Spawned(n) + t.Kept(n)
            && timer.timerId == t.NextId(n) && timer.handlers == t.HeldAfter(n)
            && timer.entered == t.Entered(n) && timer.delivered == t.Delivered(n)
  {
    var eventHandlers, pollitems := driver.eventHandlers, driver.pollitems;
    driver.eventHandlers := [];
    driver.pollitems := [];
    TurnStart(t);
    var it: nat, n: nat := 0, 0;
    while it < |pollitems|
      invariant t.Upto(n)
      invariant TimerInTurn(timer, t, n)
      invariant LocalsInTurn(t, n, eventHandlers, pollitems, it)
      decreases |fired| - n
    {
      LocalsLeft(t, n, eventHandlers, pollitems, it);
      eventHandlers, pollitems, it := DispatchOne(timer, fired[n], reactions[n], eventHandlers, pollitems, it, t, n);
      n := n + 1;
    }
    LocalsLeft(t, n, eventHandlers, pollitems, it);
    AlignedConcat(driver.eventHandlers, eventHandlers);
    driver.eventHandlers := driver.eventHandlers + eventHandlers;
    driver.pollitems := driver.pollitems + pollitems;
  }

  /** What the first n handlers have done to the driver and the timer. */
  ghost predicate TimerInTurn<V>(timer: Timer<V>, t: Turn<V>, n: nat)
    requires t.Upto(n)
    reads timer, timer.driver
  {
    && timer.driver.Valid() && timer.driver.eventHandlers == t.Spawned(n)
    && timer.timerId == t.NextId(n) && timer.handlers == t.HeldAfter(n)
    && timer.entered == t.Entered(n) && timer.delivered == t.Delivered(n)
  }

  /** Where the loop stands in its two local lists after the first n handlers. */
  ghost predicate LocalsInTurn<V>(t: Turn<V>, n: nat, locals: seq<Handler>, items: seq<Pollitem>, it: nat)
    requires t.Upto(n)
  {
    it == |t.Kept(n)| && locals == t.Kept(n) + t.hs[n..] && items == Aligned(locals)
  }

  lemma TurnStart<V>(t: Turn<V>)
    requires t.Upto(0)
    ensures t.Kept(0) + t.hs[0..] == t.hs == t.OnDriver(0) && t.Spawned(0) == []
    ensures t.Entered(0) == t.entered && t.Delivered(0) == t.delivered && t.NextId(0) == |t.entered|
  {
  }

  /** The loop runs on exactly while there are handlers left. */
  lemma LocalsLeft<V>(t: Turn<V>, n: nat, locals: seq<Handler>, items: seq<Pollitem>, it: nat)
    requires t.Upto(n) && LocalsInTurn(t, n, locals, items, it)
    ensures it < |items| <==> n < |t.hs|
    ensures n == |t.hs| ==> locals == t.Kept(n)
  {
  }

  /** A handler that fired is run. */
  method RunInTurn<V>(timer: Timer<V>, h: Handler, reaction: seq<Effect<V>>, ghost t: Turn<V>, ghost n: nat)
    requires t.Upto(n + 1) && t.fired[n] && h == t.hs[n] && reaction == t.reactions[n]
    requires TimerInTurn(timer, t, n)
    requires h.TimerHandler? ==> h.id in timer.handlers
    modifies timer, timer.driver
    ensures TimerInTurn(timer, t, n + 1)
  {
    RunHandler(timer, h, reaction);
    EnteredStep(t, n);
    DeliveredMore(t, n);
  }

  lemma DeliveredMore<V>(t: Turn<V>, n: nat)
    requires t.Upto(n + 1) && t.fired[n]
    ensures t.Delivered(n + 1) == t.Delivered(n) + (if t.hs[n].TimerHandler? then [t.hs[n].id] else [])
  {
  }

  lemma LocalsStep<V>(t: Turn<V>, n: nat, locals: seq<Handler>, it: nat)
    requires t.Upto(n + 1) && it == |t.Kept(n)| && locals == t.Kept(n) + t.hs[n..]
    ensures it < |locals| && locals[it] == t.hs[n]
    ensures t.Kept(n + 1) + t.hs[n + 1..] ==
              if t.fired[n] && t.hs[n].IsOneOff() then locals[..it] + locals[it + 1..] else locals
  {
    SplitAt(t.Kept(n), t.hs[n..]);
    assert t.hs[n..][1..] == t.hs[n + 1..];
  }

  method DispatchOne<V>(
      timer: Timer<V>, ready: bool, reaction: seq<Effect<V>>,
      locals: seq<Handler>, items: seq<Pollitem>, it: nat, ghost t: Turn<V>, ghost n: nat)
    returns (locals': seq<Handler>, items': seq<Pollitem>, it': nat)
    requires t.Upto(n + 1) && ready == t.fired[n] && reaction == t.reactions[n]
    requires Balanced(t.hs, t.held, t.entered, t.delivered)
    requires TimerInTurn(timer, t, n) && LocalsInTurn(t, n, locals, items, it)
    modifies timer, timer.driver
    ensures TimerInTurn(timer, t, n + 1) && LocalsInTurn(t, n + 1, locals', items', it')
  {
    LocalsStep(t, n, locals, it);
    FiringTimerIsHeld(t, n);
    if ready {
      RunInTurn(timer, locals[it], reaction, t, n);
    }
    locals', items', it' := Advance(locals, items, it, ready);
  }

  lemma AlignedConcat(a: seq<Handler>, b: seq<Handler>)
    ensures Aligned(a + b) == Aligned(a) + Aligned(b)
  {
  }

  /** A one-off handler that fired is erased from both lists; any other is stepped over. */
  method Advance(locals: seq<Handler>, items: seq<Pollitem>, it: nat, ready: bool)
    returns (locals': seq<Handler>, items': seq<Pollitem>, it': nat)
    requires it < |locals| && items == Aligned(locals)
    ensures items' == Aligned(locals')
    ensures if ready && locals[it].IsOneOff() then locals' == locals[..it] + locals[it + 1..] && it' == it
            else locals' == locals && it' == it + 1
  {
    if ready && locals[it].IsOneOff() {
      items' := items[..it] + items[it + 1..];
      locals' := locals[..it] + locals[it + 1..];
      it' := it;
    } else {
      locals', items', it' := locals, items, it + 1;
    }
  }

  /** A timer's handler pushes its value downstream, which may have effects, and then takes
      itself out of the map, where `find` must find it. */
  method RunHandler<V>(timer: Timer<V>, h: Handler, reaction: seq<Effect<V>>)
    requires timer.driver.Valid() && (h.TimerHandler? ==> h.id in timer.handlers)
    modifies timer, timer.driver
    ensures timer.driver.Valid()
    ensures timer.driver.eventHandlers == old(timer.driver.eventHandlers) + NewHandlers(reaction, old(timer.timerId))
    ensures timer.timerId == old(timer.timerId) + |NewValues(reaction)|
    ensures timer.entered == old(timer.entered) + NewValues(reaction)
    ensures timer.delivered == old(timer.delivered) + (if h.TimerHandler? then [h.id] else [])
    ensures var bound := Bind(old(timer.handlers), NewValues(reaction), old(timer.timerId));
            timer.handlers == if h.TimerHandler? then bound - {h.id} else bound
  {
    if h.TimerHandler? {
      timer.delivered := timer.delivered + [h.id];
      timer.Apply(reaction);
      BindEntries(old(timer.handlers), NewValues(reaction), old(timer.timerId), h.id);
      assert h.id in timer.handlers;
      timer.handlers := timer.handlers - {h.id};
    } else {
      timer.Apply(reaction);
    }
  }

  // ------------------------------------------------------- any number of turns

  /** A turn to come: what happens before it, and for each place in the driver's list whether
      the poll finds that handler ready and what it does when run. */
  datatype Round<V> = Round(before: seq<Effect<V>>, fires: nat -> bool, reaction: nat -> seq<Effect<V>>)

  function Each<T>(n: nat, f: nat -> T): (xs: seq<T>)
    ensures |xs| == n && forall i :: 0 <= i < n ==> xs[i] == f(i)
  {
    seq(n, i requires 0 <= i < n => f(i))
  }

  /** The driver's handlers, the timer's map and the history, as they are between turns. */
  datatype Loop<V> = Loop(on: seq<Handler>, held: map<nat, V>, entered: seq<V>, delivered: seq<nat>)
  {
    function Applied(effects: seq<Effect<V>>): Loop<V> {
      Loop(on + NewHandlers(effects, |entered|), Bind(held, NewValues(effects), |entered|),
           entered + NewValues(effects), delivered)
    }

    function TurnOf(round: Round<V>): Turn<V> {
      Turn(on, Each(|on|, round.fires), Each(|on|, round.reaction), held, entered, delivered)
    }

    function Turned(round: Round<V>): Loop<V> {
      var t, n := TurnOf(round), |on|;
      Loop(t.Spawned(n) + t.Kept(n), t.HeldAfter(n), t.Entered(n), t.Delivered(n))
    }

    function After(rounds: seq<Round<V>>): Loop<V> {
      if rounds == [] then this
      else
        var round := rounds[|rounds| - 1];
        After(rounds[..|rounds| - 1]).Applied(round.before).Turned(round)
    }

    ghost predicate Balance() {
      Balanced(on, held, entered, delivered)
    }
  }

  lemma AppliedKeepsBalance<V>(l: Loop<V>, effects: seq<Effect<V>>)
    requires l.Balance()
    ensures l.Applied(effects).Balance()
  {
    var more := NewHandlers(effects, |l.entered|);
    forall i: nat
      ensures Count(l.on + more, TimerHandler(i)) == Count(l.on, TimerHandler(i)) + Count(more, TimerHandler(i))
    {
      CountConcat(l.on, more, TimerHandler(i));
    }
    var h := OtherHandler(0, false);
    RunningKeepsBalance(l.on, l.on + more, l.held, l.entered, l.delivered, l.delivered, effects, h);
  }

  lemma TurnedKeepsBalance<V>(l: Loop<V>, round: Round<V>)
    requires l.Balance()
    ensures l.Turned(round).Balance()
  {
    var t, n := l.TurnOf(round), |l.on|;
    TurnKeepsBalance(t, n);
    assert t.OnDriver(n) == t.Spawned(n) + t.Kept(n);
  }

  lemma {:induction false} RoundsKeepBalance<V>(l: Loop<V>, rounds: seq<Round<V>>)
    requires l.Balance()
    ensures l.After(rounds).Balance()
  {
    if rounds != [] {
      var n := |rounds| - 1;
      RoundsKeepBalance(l, rounds[..n]);
      AppliedKeepsBalance(l.After(rounds[..n]), rounds[n].before);
      TurnedKeepsBalance(l.After(rounds[..n]).Applied(rounds[n].before), rounds[n]);
    }
  }

  /** Nothing that entered or was delivered is ever taken back. */
  lemma {:induction false} HistoryGrows<V>(l: Loop<V>, rounds: seq<Round<V>>, more: seq<Round<V>>)
    ensures l.After(rounds).entered <= l.After(rounds + more).entered
    ensures l.After(rounds).delivered <= l.After(rounds + more).delivered
  {
    if more == [] {
      assert rounds + more == rounds;
    } else {
      var n := |more| - 1;
      HistoryGrows(l, rounds, more[..n]);
      assert (rounds + more)[..|rounds + more| - 1] == rounds + more[..n];
    }
  }

  /** Over any number of turns, whatever fires and whatever is pushed and registered between
      and during them: each value that entered is delivered at most once, and until then, and
      no longer, the timer's map holds it and its handler is on the driver, once. */
  lemma DeliveredAtMostOnce<V>(others: seq<Handler>, rounds: seq<Round<V>>, id: nat)
    requires forall i :: 0 <= i < |others| ==> others[i].OtherHandler?
    ensures var l := Loop(others, map[], [], []).After(rounds);
            && (id < |l.entered| ==> Count(l.delivered, id) == (if id in l.held then 0 else 1))
            && (id >= |l.entered| ==> id !in l.held && Count(l.delivered, id) == 0)
            && (id in l.held ==> l.held[id] == l.entered[id])
            && Count(l.on, TimerHandler(id)) == if id in l.held then 1 else 0
  {
    NoTimersListed(others);
    var start: Loop<V> := Loop(others, map[], [], []);
    assert start.Balance();
    RoundsKeepBalance(start, rounds);
  }

  lemma {:induction false} CountFinds<T>(xs: seq<T>, k: nat, x: T)
    requires k < |xs| && xs[k] == x
    ensures Count(xs, x) >= 1
  {
    if k < |xs| - 1 { CountFinds(xs[..|xs| - 1], k, x); }
  }

  lemma OnlyPlace(hs: seq<Handler>, k: nat, m: nat, h: Handler)
    requires k < m < |hs| && Count(hs, h) <= 1
    ensures hs[k] != h || hs[m] != h
  {
    if hs[k] == h == hs[m] {
      assert hs == hs[..m] + hs[m..];
      CountConcat(hs[..m], hs[m..], h);
      CountFinds(hs[..m], k, h);
      CountFinds(hs[m..], 0, h);
    }
  }

  lemma {:induction false} FiredIff<V>(t: Turn<V>, n: nat, k: nat, id: nat)
    requires t.Upto(n) && k < |t.hs| && t.hs[k] == TimerHandler(id) && Count(t.hs, TimerHandler(id)) <= 1
    ensures id in t.FiredTimers(n) <==> k < n && t.fired[k]
  {
    if n > 0 {
      FiredIff(t, n - 1, k, id);
      if k < n - 1 { OnlyPlace(t.hs, k, n - 1, TimerHandler(id)); }
      if n - 1 < k { OnlyPlace(t.hs, n - 1, k, TimerHandler(id)); }
    }
  }

  /** A held value is delivered in the very turn in which its timer is ready, and in no
      other. */
  lemma DeliveredIffReady<V>(l: Loop<V>, round: Round<V>, k: nat)
    requires l.Balance() && k < |l.on| && l.on[k].TimerHandler?
    ensures var id, l' := l.on[k].id, l.Turned(round);
            && id in l.held && id !in l.delivered
            && (id in l'.delivered <==> round.fires(k)) && (id in l'.held <==> !round.fires(k))
  {
    var id, t, n := l.on[k].id, l.TurnOf(round), |l.on|;
    assert Count(l.on, TimerHandler(id)) == if id in l.held then 1 else 0;
    CountFinds(l.on, k, TimerHandler(id));
    FiredIff(t, n, k, id);
    assert l.Turned(round).delivered == l.delivered + t.FiredTimers(n) && t.fired[k] == round.fires(k);
    NotCounted(l.delivered, id);
    TurnedKeepsBalance(l, round);
    NotCounted(l.Turned(round).delivered, id);
    assert Settled(|l.entered|, l.held.Keys, l.delivered);
    assert Settled(|l.Turned(round).entered|, l.Turned(round).held.Keys, l.Turned(round).delivered);
  }

  lemma {:induction false} NotCounted<T>(xs: seq<T>, x: T)
    ensures x in xs <==> Count(xs, x) >= 1
  {
    if xs != [] {
      NotCounted(xs[..|xs| - 1], x);
      assert xs == xs[..|xs| - 1] + [xs[|xs| - 1]];
    }
  }

  /** How often h is among the first n handlers and ready. */
  function FiredCount<V>(t: Turn<V>, n: nat, h: Handler): nat
    requires t.Upto(n)
  {
    if n == 0 then 0 else FiredCount(t, n - 1, h) + (if t.fired[n - 1] && t.hs[n - 1] == h then 1 else 0)
  }

  lemma {:induction false} KeptCount<V>(t: Turn<V>, n: nat, h: Handler)
    requires t.Upto(n) && h.OtherHandler?
    ensures Count(t.Kept(n), h) == Count(t.hs[..n], h) - (if h.oneOff then FiredCount(t, n, h) else 0)
  {
    if n > 0 {
      KeptCount(t, n - 1, h);
      CountLast(t.Kept(n - 1), t.hs[n - 1], h);
      CountLast(t.hs[..n - 1], t.hs[n - 1], h);
      assert t.hs[..n] == t.hs[..n - 1] + [t.hs[n - 1]];
    }
  }

  /** Handlers other than the timer's: a turn takes off the driver exactly those that are one-off
      and ready, each once, and adds those registered meanwhile. */
  lemma OthersStay<V>(l: Loop<V>, round: Round<V>, h: Handler)
    requires h.OtherHandler?
    ensures var t, n := l.TurnOf(round), |l.on|;
            Count(l.Turned(round).on, h) ==
              Count(l.on, h) + Count(t.Spawned(n), h) - (if h.oneOff then FiredCount(t, n, h) else 0)
  {
    var t, n := l.TurnOf(round), |l.on|;
    KeptCount(t, n, h);
    CountConcat(t.Spawned(n), t.Kept(n), h);
    assert t.hs[..n] == t.hs;
  }

  lemma {:induction false} FiredOnce<V>(t: Turn<V>, n: nat, k: nat)
    requires t.Upto(n) && k < |t.hs| && Count(t.hs, t.hs[k]) <= 1
    ensures FiredCount(t, n, t.hs[k]) == if k < n && t.fired[k] then 1 else 0
  {
    if n > 0 {
      FiredOnce(t, n - 1, k);
      if k < n - 1 { OnlyPlace(t.hs, k, n - 1, t.hs[k]); }
      if n - 1 < k { OnlyPlace(t.hs, n - 1, k, t.hs[k]); }
    }
  }

  /** So one that is ready stays on the driver exactly when it is not one-off. */
  lemma ReadyStaysIff<V>(l: Loop<V>, round: Round<V>, k: nat)
    requires k < |l.on| && l.on[k].OtherHandler? && round.fires(k) && Count(l.on, l.on[k]) == 1
    requires Count(l.TurnOf(round).Spawned(|l.on|), l.on[k]) == 0
    ensures l.on[k] in l.Turned(round).on <==> !l.on[k].oneOff
  {
    OthersStay(l, round, l.on[k]);
    FiredOnce(l.TurnOf(round), |l.on|, k);
    NotCounted(l.Turned(round).on, l.on[k]);
  }

  /** Any number of turns. */
  method RunTurns<V>(driver: Driver, timer: Timer<V>, rounds: seq<Round<V>>)
    requires timer.Valid() && timer.driver == driver
    modifies driver, timer
    ensures timer.Valid() && timer.State() == old(timer.State()).After(rounds)
  {
    ghost var start := timer.State();
    assert rounds[..0] == [];
    for i := 0 to |rounds|
      invariant timer.Valid() && timer.State() == start.After(rounds[..i])
    {
      assert rounds[..i + 1][..i] == rounds[..i];
      OneRound(driver, timer, rounds[i]);
    }
    assert rounds[..|rounds|] == rounds;
  }

  method OneRound<V>(driver: Driver, timer: Timer<V>, round: Round<V>)
    requires timer.Valid() && timer.driver == driver
    modifies driver, timer
    ensures timer.Valid() && timer.State() == old(timer.State()).Applied(round.before).Turned(round)
  {
    AppliedKeepsBalance(timer.State(), round.before);
    timer.Apply(round.before);
    assert timer.State() == old(timer.State()).Applied(round.before);
    var n := |driver.eventHandlers|;
    RunOnce(driver, timer, Each(n, round.fires), Each(n, round.reaction));
  }
}
