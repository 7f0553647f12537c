/** What the store promises beyond convergence, and exactly when. Each promise is a statement
    about all runs, with the condition on the configuration under which it holds. */
module Guarantees {
  import opened Options
  import opened Counting
  import opened Semilattices
  import opened Store
  import opened Replication

  predicate Untouched(c: Config, s: System) {
    && |s.replicas| == c.numThreads && s.inflight == multiset{} && s.accepted == [] && !s.lost
    && forall j :: 0 <= j < |s.replicas| ==> s.replicas[j] == InitialReplica(j)
  }

  lemma InitIsUntouched(c: Config)
    ensures Untouched(c, Init(c)) && Reachable(c, Init(c))
  {
    assert Run(c, []) == Some(Init(c));
  }

  /** A request whose handling is known. */
  lemma Served(
      c: Config, s: System, i: nat, request: Store.Request, r: Replica, response: Response, gossip: Option<Database>)
    requires i < |s.replicas| && Process(c, s.replicas[i], request) == Done(r, response, gossip)
    ensures var a := Action.Request(i, request);
            && Enabled(c, s, a)
            && Next(c, s, a) == System(
                 s.replicas[i := r],
                 if gossip.Some? then s.inflight + Broadcast(|s.replicas|, i, gossip.value) else s.inflight,
                 s.accepted + WritesOf(i, request), s.lost)
  {
  }

  lemma OnePutHandled(c: Config, r: Replica, k: Key, v: string)
    returns (r': Replica, response: Response, gossip: Option<Database>)
    requires r.updateCounter == 0
    ensures Process(c, r, Put(0, [(k, v)])) == Done(r', response, gossip)
    ensures c.threshold >= 2 ==> gossip == None
  {
    PutPairsCounts(r, 0, [(k, v)]);
    var done := Process(c, r, Put(0, [(k, v)]));
    r', response, gossip := done.state, done.response, done.gossip;
  }

  lemma OneWrite(i: nat, k: Key, v: string)
    ensures WritesOf(i, Put(0, [(k, v)])) == [Write(i, k, (0, v))]
  {
    assert ToInt32(0) == 0;
  }

  /** One put of one pair, published only if the threshold says so. */
  lemma OnePut(c: Config, i: nat, k: Key, v: string) returns (s: System)
    requires i < c.numThreads
    ensures Reachable(c, s) && |s.replicas| == c.numThreads
    ensures s.accepted == [Write(i, k, (0, v))] && !s.lost
    ensures forall j: nat :: j < c.numThreads && j != i ==> s.replicas[j] == InitialReplica(j)
    ensures c.threshold >= 2 ==> s.inflight == multiset{}
  {
    InitIsUntouched(c);
    var s0 := Init(c);
    var r, response, gossip := OnePutHandled(c, s0.replicas[i], k, v);
    Served(c, s0, i, Put(0, [(k, v)]), r, response, gossip);
    ReachableStep(c, s0, Action.Request(i, Put(0, [(k, v)])));
    s := Next(c, s0, Action.Request(i, Put(0, [(k, v)])));
    OneWrite(i, k, v);
  }

  // ------------------------------------------------------------- writes are found

  /** Whatever server i has accepted is found at server j, at every moment of every run. */
  ghost predicate WritesFound(c: Config, i: nat, j: nat) {
    forall s, w :: Reachable(c, s) && w in s.accepted && w.server == i && j < |s.replicas| ==>
      Reached(w, s.replicas[j].kvs)
  }

  lemma WritesFoundIff(c: Config, i: nat, j: nat)
    requires i < c.numThreads && j < c.numThreads
    ensures WritesFound(c, i, j) <==> i == j
  {
    forall s, w | Reachable(c, s) && w in s.accepted && w.server == i == j && j < |s.replicas|
      ensures Reached(w, s.replicas[j].kvs)
    {
      ReachableIsInvariant(c, s);
    }
    if i != j {
      var s := OnePut(c, i, "k", "v");
      assert s.accepted[0] in s.accepted && !Reached(s.accepted[0], s.replicas[j].kvs);
    }
  }

  // ---------------------------------------------------- delivery alone converges

  ghost predicate Agreed(s: System) {
    forall j :: 0 <= j < |s.replicas| ==> s.replicas[j].kvs == Total(s.accepted)
  }

  /** From every state of a lossless run, once all messages have been delivered, with no
      further request, all servers hold the join of all accepted puts. */
  ghost predicate DeliveryConverges(c: Config) {
    forall s, more ::
      Reachable(c, s) && !s.lost && OnlyDeliveries(more) && RunFrom(c, s, more).Some?
      && RunFrom(c, s, more).value.inflight == multiset{}
      ==> Agreed(RunFrom(c, s, more).value)
  }

  lemma OwnReached(c: Config, s: System, w: Write, i: nat)
    requires Invariant(c, s) && w in s.accepted && w.server == i
    ensures i < |s.replicas| && Reached(w, s.replicas[i].kvs)
  {
  }

  lemma StoredIsGenuine(c: Config, s: System, j: nat)
    requires Invariant(c, s) && j < |s.replicas|
    ensures AllGenuine(s.accepted, s.replicas[j].kvs)
  {
  }

  lemma SingleServer(c: Config, s: System, w: Write, j: nat)
    requires Sound(c, s) && w in s.accepted && j < |s.replicas| && c.numThreads <= 1
    ensures w.server == j
  {
  }

  lemma SingleReaches(c: Config, s: System, w: Write, j: nat)
    requires Invariant(c, s) && w in s.accepted && j < |s.replicas| && c.numThreads <= 1
    ensures Reached(w, s.replicas[j].kvs)
  {
    SingleServer(c, s, w, j);
    OwnReached(c, s, w, j);
  }

  lemma SingleAgrees(c: Config, s: System, j: nat)
    requires Invariant(c, s) && c.numThreads <= 1 && j < |s.replicas|
    ensures s.replicas[j].kvs == Total(s.accepted)
  {
    forall w | w in s.accepted ensures Reached(w, s.replicas[j].kvs) {
      SingleReaches(c, s, w, j);
    }
    StoredIsGenuine(c, s, j);
    ReachedAndGenuine(s.accepted, s.replicas[j].kvs);
  }

  lemma ReachableIsFlushed(c: Config, s: System)
    requires Reachable(c, s) && c.threshold <= 1 && c.numThreads != 1
    ensures Flushed(s)
  {
    var actions :| Run(c, actions) == Some(s);
    LowThresholdFlushes(c, Init(c), actions);
  }

  lemma DrainedAgrees(c: Config, s: System, more: seq<Action>)
    requires c.numThreads <= 1 || c.threshold <= 1
    requires Reachable(c, s) && !s.lost && OnlyDeliveries(more) && RunFrom(c, s, more).Some?
    requires RunFrom(c, s, more).value.inflight == multiset{}
    ensures Agreed(RunFrom(c, s, more).value)
  {
    var s' := RunFrom(c, s, more).value;
    ReachableIsInvariant(c, s);
    RunKeepsInvariant(c, s, more);
    DeliveriesDrain(c, s, more);
    if c.numThreads > 1 { ReachableIsFlushed(c, s); }
    forall j | 0 <= j < |s'.replicas| ensures s'.replicas[j].kvs == Total(s'.accepted) {
      if c.numThreads <= 1 {
        SingleAgrees(c, s', j);
      } else {
        QuietConverges(c, s', j);
      }
    }
  }

  /** With a higher threshold, a write may wait in a change set for ever. */
  lemma DeliveryConvergesIff(c: Config)
    ensures DeliveryConverges(c) <==> c.numThreads <= 1 || c.threshold <= 1
  {
    if c.numThreads <= 1 || c.threshold <= 1 {
      forall s, more |
        Reachable(c, s) && !s.lost && OnlyDeliveries(more) && RunFrom(c, s, more).Some?
        && RunFrom(c, s, more).value.inflight == multiset{}
        ensures Agreed(RunFrom(c, s, more).value)
      {
        DrainedAgrees(c, s, more);
      }
    } else {
      var s := OnePut(c, 0, "k", "v");
      TotalIsLub(s.accepted, map[]);
      assert s.accepted[0] in s.accepted && Reached(s.accepted[0], Total(s.accepted));
      assert s.replicas[1].kvs == map[];
      assert !Agreed(s);
      assert RunFrom(c, s, []) == Some(s);
    }
  }

  // --------------------------------------------------------- batches arrive whole

  function EntryOf(t: int, pair: (Key, string)): Entry {
    (ToInt32(t), pair.1)
  }

  /** If the database holds any entry of the batch, it holds all of it, or later values. */
  predicate Whole(db: Database, t: int, pairs: seq<(Key, string)>) {
    (exists p :: p in pairs && p.0 in db && db[p.0] == EntryOf(t, p)) ==>
      forall p :: p in pairs ==> p.0 in db && EntryLeq(EntryOf(t, p), db[p.0])
  }

  /** The writes without the n from position `from` on. */
  function Others(accepted: seq<Write>, from: nat, n: nat): seq<Write> {
    if from + n <= |accepted| then accepted[..from] + accepted[from + n..] else []
  }

  /** No other write, earlier or later, looks like one of the batch, which starts at position
      `from`; unique timestamps give this. */
  predicate Sole(accepted: seq<Write>, from: nat, t: int, pairs: seq<(Key, string)>) {
    forall w, p :: w in Others(accepted, from, |pairs|) && p in pairs ==>
      !(w.key == p.0 && w.entry == EntryOf(t, p))
  }

  function AfterBatch(c: Config, s: System, i: nat, t: int, pairs: seq<(Key, string)>): System
    requires i < |s.replicas|
  {
    Next(c, s, Action.Request(i, Put(t, pairs)))
  }

  /** No batch that server i accepts is ever seen in part at server j. */
  ghost predicate BatchesWhole(c: Config, i: nat, j: nat) {
    forall s, t, pairs, more ::
      Reachable(c, s) && i < |s.replicas| && RunFrom(c, AfterBatch(c, s, i, t, pairs), more).Some?
      ==> WholeAt(RunFrom(c, AfterBatch(c, s, i, t, pairs), more).value, j, |s.accepted|, t, pairs)
  }

  predicate WholeAt(s: System, j: nat, from: nat, t: int, pairs: seq<(Key, string)>) {
    j < |s.replicas| && Sole(s.accepted, from, t, pairs) ==> Whole(s.replicas[j].kvs, t, pairs)
  }

  /** The accepting server has all of it from then on. */
  lemma OwnBatchReached(c: Config, s: System, i: nat, t: int, pairs: seq<(Key, string)>, p: (Key, string))
    requires Invariant(c, s) && i < |s.replicas| && p in pairs
    ensures i < |AfterBatch(c, s, i, t, pairs).replicas|
    ensures Reached(Write(i, p.0, EntryOf(t, p)), AfterBatch(c, s, i, t, pairs).replicas[i].kvs)
  {
    ProcessIsApplyThenGossip(c, s.replicas[i], Put(t, pairs));
    RequestEffect(c, s, i, Put(t, pairs));
    var x :| 0 <= x < |pairs| && pairs[x] == p;
    assert Writes(i, t, pairs)[x] in Writes(i, t, pairs);
  }

  lemma OwnBatchWhole(c: Config, s: System, i: nat, t: int, pairs: seq<(Key, string)>, more: seq<Action>)
    requires Reachable(c, s) && i < |s.replicas| && RunFrom(c, AfterBatch(c, s, i, t, pairs), more).Some?
    ensures WholeAt(RunFrom(c, AfterBatch(c, s, i, t, pairs), more).value, i, |s.accepted|, t, pairs)
  {
    var s1 := AfterBatch(c, s, i, t, pairs);
    var s2 := RunFrom(c, s1, more).value;
    ReachableIsInvariant(c, s);
    NextKeepsInvariant(c, s, Action.Request(i, Put(t, pairs)));
    RunGrows(c, s1, more, i);
    forall p | p in pairs ensures p.0 in s2.replicas[i].kvs && EntryLeq(EntryOf(t, p), s2.replicas[i].kvs[p.0]) {
      OwnBatchReached(c, s, i, t, pairs, p);
      ReachedGrows(Write(i, p.0, EntryOf(t, p)), s1.replicas[i].kvs, s2.replicas[i].kvs);
    }
  }

  // A batch large enough to be published at once, whatever the threshold, and older puts of
  // one of its keys, as many as it takes.

  function Enough(c: Config): nat {
    if c.threshold <= 1 then 1 else c.threshold
  }

  function Batch(n: nat): seq<(Key, string)> {
    [("b", "u")] + Repeat(("a", "v"), n)
  }

  function Older(n: nat): seq<(Key, string)> {
    Repeat(("a", ""), n)
  }

  const BOTH: Database := map["a" := (1, "v"), "b" := (1, "u")]
  const ONE: Database := map["a" := (1, "v")]

  lemma JoinOne(db: Database)
    requires db == map["b" := (1, "u")] || db == BOTH
    ensures JoinDatabase(db, map["a" := (1, "v")]) == BOTH
  {
  }

  lemma OneMoreOfBatch(r: Replica)
    requires r.kvs == map["b" := (1, "u")] || r.kvs == BOTH
    requires r.changeSet == {"b"} || r.changeSet == {"a", "b"}
    ensures PutPair(r, 1, ("a", "v")) == r.(kvs := BOTH, changeSet := {"a", "b"}, updateCounter := r.updateCounter + 1)
  {
    JoinOne(r.kvs);
    assert ToInt32(1) == 1;
  }

  lemma {:induction false} BatchPuts(r: Replica, n: nat)
    requires r.kvs == map[] && r.changeSet == {} && r.updateCounter == 0
    ensures PutPairs(r, 1, Batch(n)) ==
              r.(kvs := if n == 0 then map["b" := (1, "u")] else BOTH,
                 changeSet := if n == 0 then {"b"} else {"a", "b"}, updateCounter := n + 1)
  {
    if n == 0 {
      FirstOfBatch(r);
    } else {
      BatchPuts(r, n - 1);
      assert Batch(n)[..n] == Batch(n - 1) && Batch(n)[n] == ("a", "v");
      OneMoreOfBatch(PutPairs(r, 1, Batch(n - 1)));
    }
  }

  lemma FirstOfBatch(r: Replica)
    requires r.kvs == map[] && r.changeSet == {} && r.updateCounter == 0
    ensures PutPairs(r, 1, Batch(0)) == r.(kvs := map["b" := (1, "u")], changeSet := {"b"}, updateCounter := 1)
  {
    assert Batch(0) == [("b", "u")] && Batch(0)[..0] == [];
    assert JoinDatabase(map[], map["b" := (1, "u")]) == map["b" := (1, "u")];
  }

  lemma OneMoreOlder(r: Replica)
    requires "a" in r.kvs && r.kvs["a"] == (1, "v") && (r.changeSet == {} || r.changeSet == {"a"})
    ensures PutPair(r, 0, ("a", "")) == r.(changeSet := {"a"}, updateCounter := r.updateCounter + 1)
  {
    assert JoinDatabase(r.kvs, map["a" := (0, "")]) == r.kvs;
    assert ToInt32(0) == 0;
  }

  lemma {:induction false} OlderPuts(r: Replica, n: nat)
    requires "a" in r.kvs && r.kvs["a"] == (1, "v") && r.changeSet == {}
    ensures PutPairs(r, 0, Older(n)) ==
              r.(changeSet := if n == 0 then {} else {"a"}, updateCounter := r.updateCounter + n)
  {
    if n > 0 {
      OlderPuts(r, n - 1);
      assert Older(n)[..n - 1] == Older(n - 1) && Older(n)[n - 1] == ("a", "");
      OneMoreOlder(PutPairs(r, 0, Older(n - 1)));
    }
  }

  lemma BatchGossips(c: Config, r: Replica)
    requires c.numThreads != 1 && r.kvs == map[] && r.changeSet == {} && r.updateCounter == 0
    ensures Process(c, r, Put(1, Batch(Enough(c)))) == Done(r.(kvs := BOTH), Response(true, None, None), Some(BOTH))
  {
    BatchPuts(r, Enough(c));
    assert Delta(BOTH, {"a", "b"}) == BOTH;
  }

  lemma OlderGossips(c: Config, r: Replica)
    requires c.numThreads != 1 && "a" in r.kvs && r.kvs["a"] == (1, "v") && r.changeSet == {} && r.updateCounter == 0
    ensures Process(c, r, Put(0, Older(Enough(c)))) == Done(r, Response(true, None, None), Some(ONE))
  {
    OlderPuts(r, Enough(c));
    assert Delta(r.kvs, {"a"}) == ONE;
  }

  lemma OnlyOnePart(n: nat)
    requires n >= 1
    ensures !Whole(ONE, 1, Batch(n))
  {
    assert Batch(n)[1] == ("a", "v") && Batch(n)[1] in Batch(n);
    assert Batch(n)[0] == ("b", "u") && Batch(n)[0] in Batch(n);
  }

  lemma OlderIsOther(n: nat, i: nat, x: nat)
    ensures Sole(Writes(i, 1, Batch(n)) + Writes(x, 0, Older(n)), 0, 1, Batch(n))
  {
    OtherTimestamp(Writes(i, 1, Batch(n)), Writes(x, 0, Older(n)), Batch(n));
  }

  lemma OtherTimestamp(first: seq<Write>, later: seq<Write>, pairs: seq<(Key, string)>)
    requires |first| == |pairs| && forall w :: w in later ==> w.entry.0 == 0
    ensures Sole(first + later, 0, 1, pairs)
  {
    assert Others(first + later, 0, |pairs|) == later;
    forall w, p | w in later && p in pairs ensures w.entry != EntryOf(1, p) {
      assert EntryOf(1, p).0 == 1;
    }
  }

  /** Server i accepts the batch and then the older puts, and its second message overtakes the
      first. */
  lemma Overtaking(c: Config, i: nat, j: nat) returns (more: seq<Action>)
    requires i < c.numThreads && j < c.numThreads && i != j
    ensures var s1 := AfterBatch(c, Init(c), i, 1, Batch(Enough(c)));
            RunFrom(c, s1, more).Some? && !WholeAt(RunFrom(c, s1, more).value, j, 0, 1, Batch(Enough(c)))
  {
    var n := Enough(c);
    var s1 := BatchAccepted(c, i);
    var s2 := OlderAccepted(c, s1, i, j);
    var s3 := OneHeard(c, s2, j);
    more := [Action.Request(i, Put(0, Older(n))), Deliver(Message(j, ONE))];
    TwoSteps(c, s1, more[0], s2, more[1], s3);
    OlderIsOther(n, i, i);
    OnlyOnePart(n);
  }

  lemma TwoSteps(c: Config, s1: System, a: Action, s2: System, b: Action, s3: System)
    requires Enabled(c, s1, a) && Next(c, s1, a) == s2 && Enabled(c, s2, b) && Next(c, s2, b) == s3
    ensures RunFrom(c, s1, [a, b]) == Some(s3)
  {
    RunOneMore(c, s2, [], s2, b);
    assert [] + [b] == [b] && [a, b][1..] == [b];
  }

  lemma BatchAccepted(c: Config, i: nat) returns (s: System)
    requires i < c.numThreads && c.numThreads != 1
    ensures s == AfterBatch(c, Init(c), i, 1, Batch(Enough(c)))
    ensures |s.replicas| == c.numThreads && s.replicas[i] == InitialReplica(i).(kvs := BOTH)
    ensures forall j: nat :: j < c.numThreads && j != i ==> s.replicas[j] == InitialReplica(j)
    ensures s.inflight == Broadcast(c.numThreads, i, BOTH) && s.accepted == Writes(i, 1, Batch(Enough(c)))
  {
    InitIsUntouched(c);
    BatchGossips(c, InitialReplica(i));
    Served(c, Init(c), i, Put(1, Batch(Enough(c))), InitialReplica(i).(kvs := BOTH), Response(true, None, None),
           Some(BOTH));
    s := AfterBatch(c, Init(c), i, 1, Batch(Enough(c)));
  }

  lemma OlderAccepted(c: Config, s: System, x: nat, j: nat) returns (s': System)
    requires |s.replicas| == c.numThreads != 1 && x < c.numThreads && j < c.numThreads && x != j
    requires s.replicas[x] == InitialReplica(x).(kvs := BOTH)
    ensures var a := Action.Request(x, Put(0, Older(Enough(c)))); Enabled(c, s, a) && s' == Next(c, s, a)
    ensures s'.replicas == s.replicas && s'.accepted == s.accepted + Writes(x, 0, Older(Enough(c)))
    ensures s'.inflight == s.inflight + Broadcast(c.numThreads, x, ONE) && Message(j, ONE) in s'.inflight
  {
    OlderGossips(c, s.replicas[x]);
    Served(c, s, x, Put(0, Older(Enough(c))), s.replicas[x], Response(true, None, None), Some(ONE));
    s' := Next(c, s, Action.Request(x, Put(0, Older(Enough(c)))));
    assert s.replicas[x := s.replicas[x]] == s.replicas;
  }

  lemma OneHeard(c: Config, s: System, j: nat) returns (s': System)
    requires j < |s.replicas| && s.replicas[j] == InitialReplica(j) && Message(j, ONE) in s.inflight
    ensures Enabled(c, s, Deliver(Message(j, ONE))) && s' == Next(c, s, Deliver(Message(j, ONE)))
    ensures |s'.replicas| == |s.replicas| && s'.replicas[j].kvs == ONE && s'.accepted == s.accepted
  {
    s' := Next(c, s, Deliver(Message(j, ONE)));
    assert JoinDatabase(map[], ONE) == ONE;
  }

  /** When messages may arrive in any order, batches are seen whole only where they were
      accepted. */
  lemma BatchesWholeIff(c: Config, i: nat, j: nat)
    requires i < c.numThreads && j < c.numThreads
    ensures BatchesWhole(c, i, j) <==> i == j
  {
    if i == j {
      forall s, t, pairs, more |
        Reachable(c, s) && i < |s.replicas| && RunFrom(c, AfterBatch(c, s, i, t, pairs), more).Some?
        ensures WholeAt(RunFrom(c, AfterBatch(c, s, i, t, pairs), more).value, j, |s.accepted|, t, pairs)
      {
        OwnBatchWhole(c, s, i, t, pairs, more);
      }
    } else {
      var more := Overtaking(c, i, j);
      InitIsUntouched(c);
      NotWhole(c, Init(c), i, j, 1, Batch(Enough(c)), more);
    }
  }

  lemma NotWhole(c: Config, s: System, i: nat, j: nat, t: int, pairs: seq<(Key, string)>, more: seq<Action>)
    requires Reachable(c, s) && i < |s.replicas| && RunFrom(c, AfterBatch(c, s, i, t, pairs), more).Some?
    requires !WholeAt(RunFrom(c, AfterBatch(c, s, i, t, pairs), more).value, j, |s.accepted|, t, pairs)
    ensures !BatchesWhole(c, i, j)
  {
  }
}
