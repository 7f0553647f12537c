/** The server threads together: each applies client requests to its own copy of the
    database and publishes deltas that the others join in whenever they arrive
    (src/key_value_stores/server.cc). Any number of threads, any threshold, any
    interleaving of requests, and any order of delivery. */
module Replication {
  import opened Options
  import opened Semilattices
  import opened Store
  import opened Decimals

  datatype Message = Message(to: nat, db: Database)

  /** One key-value pair of a put request that a server accepted. */
  datatype Write = Write(server: nat, key: Key, entry: Entry)

  /** `accepted` and `lost` only record history: no step reads them. */
  datatype System = System(
    replicas: seq<Replica>,
    inflight: multiset<Message>,
    accepted: seq<Write>,
    lost: bool)

  datatype Action =
    | Request(server: nat, request: Store.Request)
    | Deliver(message: Message)
    | Lose(message: Message)  // published before the receiver had subscribed

  function Init(c: Config): System {
    System(seq(c.numThreads, i requires 0 <= i => InitialReplica(i)), multiset{}, [], false)
  }

  /** The message once for every thread but the sender. */
  function Broadcast(n: nat, sender: nat, db: Database): (ms: multiset<Message>)
    ensures forall m :: m in ms <==> m.to < n && m.to != sender && m.db == db
  {
    if n == 0 then multiset{}
    else if n - 1 == sender then Broadcast(n - 1, sender, db)
    else Broadcast(n - 1, sender, db) + multiset{Message(n - 1, db)}
  }

  function Writes(server: nat, t: int, pairs: seq<(Key, string)>): (ws: seq<Write>)
    ensures |ws| == |pairs|
    ensures forall i :: 0 <= i < |ws| ==> ws[i] == Write(server, pairs[i].0, (ToInt32(t), pairs[i].1))
  {
    seq(|pairs|, i requires 0 <= i < |pairs| => Write(server, pairs[i].0, (ToInt32(t), pairs[i].1)))
  }

  function WritesOf(server: nat, request: Store.Request): seq<Write> {
    if request.Put? then Writes(server, request.timestamp, request.pairs) else []
  }

  predicate Enabled(c: Config, s: System, a: Action) {
    match a
    case Request(i, request) => i < |s.replicas| && Process(c, s.replicas[i], request).Done?
    case Deliver(m) => m in s.inflight && m.to < |s.replicas|
    case Lose(m) => m in s.inflight
  }

  function Next(c: Config, s: System, a: Action): System
    requires Enabled(c, s, a)
  {
    match a
    case Request(i, request) =>
      var done := Process(c, s.replicas[i], request);
      s.(replicas := s.replicas[i := done.state],
         accepted := s.accepted + WritesOf(i, request),
         inflight := if done.gossip.Some?
                     then s.inflight + Broadcast(|s.replicas|, i, done.gossip.value)
                     else s.inflight)
    case Deliver(m) =>
      s.(replicas := s.replicas[m.to := Receive(s.replicas[m.to], m.db)],
         inflight := s.inflight - multiset{m})
    case Lose(m) =>
      s.(inflight := s.inflight - multiset{m}, lost := true)
  }

  /** The state a sequence of actions leads to, if each is enabled when its turn comes. */
  function RunFrom(c: Config, s: System, actions: seq<Action>): Option<System>
    decreases |actions|
  {
    if actions == [] then Some(s)
    else if Enabled(c, s, actions[0]) then RunFrom(c, Next(c, s, actions[0]), actions[1..])
    else None
  }

  function Run(c: Config, actions: seq<Action>): Option<System> {
    RunFrom(c, Init(c), actions)
  }

  ghost predicate Reachable(c: Config, s: System) {
    exists actions :: Run(c, actions) == Some(s)
  }

  lemma {:induction false} RunOneMore(c: Config, s: System, actions: seq<Action>, t: System, a: Action)
    requires RunFrom(c, s, actions) == Some(t) && Enabled(c, t, a)
    ensures RunFrom(c, s, actions + [a]) == Some(Next(c, t, a))
    decreases |actions|
  {
    var more := actions + [a];
    if actions == [] {
      assert more[0] == a && more[1..] == [];
      assert RunFrom(c, Next(c, t, a), []) == Some(Next(c, t, a));
    } else {
      assert more[0] == actions[0] && more[1..] == actions[1..] + [a];
      RunOneMore(c, Next(c, s, actions[0]), actions[1..], t, a);
    }
  }

  lemma ReachableStep(c: Config, s: System, a: Action)
    requires Reachable(c, s) && Enabled(c, s, a)
    ensures Reachable(c, Next(c, s, a))
  {
    var actions :| Run(c, actions) == Some(s);
    RunOneMore(c, Init(c), actions, s, a);
    assert Run(c, actions + [a]) == Some(Next(c, s, a));
  }

  // ------------------------------------------------------------------ invariants

  predicate Reached(w: Write, db: Database) {
    w.key in db && EntryLeq(w.entry, db[w.key])
  }

  ghost predicate Underway(w: Write, to: nat, inflight: multiset<Message>) {
    exists m :: m in inflight && m.to == to && Reached(w, m.db)
  }

  /** Nothing accepted is forgotten: a write is in replica j already, or its server still
      has to publish its key, or a message to j carries it. */
  ghost predicate Covered(s: System, w: Write, j: nat)
    requires w.server < |s.replicas| && j < |s.replicas|
  {
    || Reached(w, s.replicas[j].kvs)
    || w.key in s.replicas[w.server].changeSet
    || Underway(w, j, s.inflight)
  }

  /** The key and the entry occurred together in one accepted write. */
  predicate Genuine(accepted: seq<Write>, key: Key, entry: Entry) {
    exists w :: w in accepted && w.key == key && w.entry == entry
  }

  ghost predicate AllGenuine(accepted: seq<Write>, db: Database) {
    forall k :: k in db ==> Genuine(accepted, k, db[k])
  }

  ghost predicate Sound(c: Config, s: System) {
    && |s.replicas| == c.numThreads
    && (forall j :: 0 <= j < |s.replicas| ==>
          AllGenuine(s.accepted, s.replicas[j].kvs) && s.replicas[j].changeSet <= s.replicas[j].kvs.Keys)
    && (forall m :: m in s.inflight ==> m.to < |s.replicas| && AllGenuine(s.accepted, m.db))
    && (forall w :: w in s.accepted ==> w.server < |s.replicas|)
  }

  ghost predicate Complete(s: System)
    requires forall w :: w in s.accepted ==> w.server < |s.replicas|
  {
    && (forall w :: w in s.accepted ==> Reached(w, s.replicas[w.server].kvs))
    && (!s.lost ==> forall w, j :: w in s.accepted && 0 <= j < |s.replicas| ==> Covered(s, w, j))
  }

  ghost predicate Invariant(c: Config, s: System) {
    Sound(c, s) && Complete(s)
  }

  // --------------------------------------------- a database only grows, from writes

  lemma ReachedGrows(w: Write, m: Database, n: Database)
    requires Reached(w, m) && Below(m, n)
    ensures Reached(w, n)
  {
    EntryOrder(w.entry, m[w.key], n[w.key]);
  }

  lemma GenuineJoin(accepted: seq<Write>, m: Database, n: Database)
    requires AllGenuine(accepted, m) && AllGenuine(accepted, n)
    ensures AllGenuine(accepted, JoinDatabase(m, n))
  {
    var j := JoinDatabase(m, n);
    forall k | k in j ensures Genuine(accepted, k, j[k]) {
      if k in m && k in n { EntryJoinSelects(m[k], n[k]); }
    }
  }

  lemma GenuineExtends(accepted: seq<Write>, more: seq<Write>, db: Database)
    requires AllGenuine(accepted, db)
    ensures AllGenuine(accepted + more, db)
  {
    forall k | k in db ensures Genuine(accepted + more, k, db[k]) {
      var w :| w in accepted && w.key == k && w.entry == db[k];
      assert w in accepted + more;
    }
  }

  /** The replica has grown from `r` to `r'` by the writes `ws` of this server. */
  ghost predicate GrownBy(r: Replica, r': Replica, server: nat, ws: seq<Write>, accepted: seq<Write>) {
    && Below(r.kvs, r'.kvs)
    && r.changeSet <= r'.changeSet <= r'.kvs.Keys
    && AllGenuine(accepted + ws, r'.kvs)
    && (forall w :: w in ws ==> w.server == server && w.key in r'.changeSet && Reached(w, r'.kvs))
  }

  lemma PutPairGrows(r: Replica, server: nat, t: int, kv: (Key, string), accepted: seq<Write>)
    requires AllGenuine(accepted, r.kvs) && r.changeSet <= r.kvs.Keys
    ensures GrownBy(r, PutPair(r, t, kv), server, [Write(server, kv.0, (ToInt32(t), kv.1))], accepted)
  {
    var w := Write(server, kv.0, (ToInt32(t), kv.1));
    var one: Database := map[kv.0 := w.entry];
    JoinIsLub(r.kvs, one, one);
    GenuineExtends(accepted, [w], r.kvs);
    assert w in accepted + [w];
    assert AllGenuine(accepted + [w], one);
    GenuineJoin(accepted + [w], r.kvs, one);
    assert kv.0 in one;
  }

  lemma GrowthComposes(r: Replica, r1: Replica, r2: Replica, server: nat,
                       ws1: seq<Write>, w: Write, accepted: seq<Write>)
    requires GrownBy(r, r1, server, ws1, accepted)
    requires GrownBy(r1, r2, server, [w], accepted + ws1)
    ensures GrownBy(r, r2, server, ws1 + [w], accepted)
  {
    BelowIsOrder(r.kvs, r1.kvs, r2.kvs);
    assert accepted + (ws1 + [w]) == (accepted + ws1) + [w];
    forall v | v in ws1 + [w] ensures v.server == server && v.key in r2.changeSet && Reached(v, r2.kvs) {
      if v in ws1 { ReachedGrows(v, r1.kvs, r2.kvs); }
    }
  }

  lemma WritesStep(server: nat, t: int, pairs: seq<(Key, string)>)
    requires pairs != []
    ensures var n := |pairs| - 1;
            Writes(server, t, pairs) == Writes(server, t, pairs[..n]) + Writes(server, t, [pairs[n]])
  {
  }

  /** What a put request does to one replica: it grows, by exactly the writes of the request. */
  lemma {:induction false} PutPairsGrow(
      r: Replica, server: nat, t: int, pairs: seq<(Key, string)>, accepted: seq<Write>)
    requires AllGenuine(accepted, r.kvs) && r.changeSet <= r.kvs.Keys
    ensures GrownBy(r, PutPairs(r, t, pairs), server, Writes(server, t, pairs), accepted)
  {
    if pairs == [] {
      BelowIsOrder(r.kvs, r.kvs, r.kvs);
      assert accepted + Writes(server, t, pairs) == accepted;
    } else {
      var n := |pairs| - 1;
      PutPairsGrow(r, server, t, pairs[..n], accepted);
      OneMorePair(r, server, t, pairs[..n], pairs[n], accepted);
      WritesStep(server, t, pairs);
    }
  }

  lemma OneMorePair(
      r: Replica, server: nat, t: int, pairs: seq<(Key, string)>, kv: (Key, string), accepted: seq<Write>)
    requires GrownBy(r, PutPairs(r, t, pairs), server, Writes(server, t, pairs), accepted)
    ensures GrownBy(r, PutPair(PutPairs(r, t, pairs), t, kv), server,
                    Writes(server, t, pairs) + Writes(server, t, [kv]), accepted)
  {
    var r1, ws1 := PutPairs(r, t, pairs), Writes(server, t, pairs);
    var w := Write(server, kv.0, (ToInt32(t), kv.1));
    PutPairGrows(r1, server, t, kv, accepted + ws1);
    GrowthComposes(r, r1, PutPair(r1, t, kv), server, ws1, w, accepted);
    assert Writes(server, t, [kv]) == [w];
  }

  /** The replica a request leaves behind before it decides whether to gossip. */
  function Applied(r: Replica, request: Store.Request): Replica {
    match request
    case BeginTransaction => r.(localTimestamp := r.localTimestamp + 1)
    case Put(t, pairs) => PutPairs(r, t, pairs)
    case _ => r
  }

  lemma ProcessIsApplyThenGossip(c: Config, r: Replica, request: Store.Request)
    requires Process(c, r, request).Done?
    ensures var done := Process(c, r, request); var r' := Applied(r, request);
            if MustGossip(c, r') then
              && done.state == r'.(changeSet := {}, updateCounter := 0)
              && done.gossip == Some(Delta(r'.kvs, r'.changeSet))
            else done.state == r' && done.gossip == None
  {
  }

  /** A request only makes a replica grow, by the writes of the request. */
  lemma RequestGrows(r: Replica, server: nat, request: Store.Request, accepted: seq<Write>)
    requires AllGenuine(accepted, r.kvs) && r.changeSet <= r.kvs.Keys
    ensures GrownBy(r, Applied(r, request), server, WritesOf(server, request), accepted)
  {
    if request.Put? {
      PutPairsGrow(r, server, request.timestamp, request.pairs, accepted);
    } else {
      BelowIsOrder(r.kvs, r.kvs, r.kvs);
      assert accepted + [] == accepted;
    }
  }

  lemma RequestEffect(c: Config, s: System, i: nat, request: Store.Request)
    requires Sound(c, s) && i < |s.replicas|
    ensures GrownBy(s.replicas[i], Applied(s.replicas[i], request), i, WritesOf(i, request), s.accepted)
  {
    RequestGrows(s.replicas[i], i, request, s.accepted);
  }

  lemma GrownKeepsCover(s: System, i: nat, r': Replica, ws: seq<Write>, w: Write, j: nat)
    requires i < |s.replicas| && j < |s.replicas|
    requires GrownBy(s.replicas[i], r', i, ws, s.accepted)
    requires w in s.accepted ==> w.server < |s.replicas| && Covered(s, w, j)
    requires w in s.accepted || w in ws
    ensures w.server < |s.replicas| && Covered(s.(replicas := s.replicas[i := r']), w, j)
  {
    if w in s.accepted && j == i && Reached(w, s.replicas[i].kvs) {
      ReachedGrows(w, s.replicas[i].kvs, r'.kvs);
    }
  }

  /** Publishing and clearing the change set moves a write's cover from the change set to a
      message, or to the sender's own database. */
  lemma GossipKeepsCover(s: System, i: nat, w: Write, j: nat)
    requires i < |s.replicas| && w.server < |s.replicas| && j < |s.replicas|
    requires w.server == i ==> Reached(w, s.replicas[i].kvs)
    requires Covered(s, w, j)
    ensures var r := s.replicas[i];
            Covered(s.(replicas := s.replicas[i := r.(changeSet := {}, updateCounter := 0)],
                       inflight := s.inflight + Broadcast(|s.replicas|, i, Delta(r.kvs, r.changeSet))), w, j)
  {
    var r := s.replicas[i];
    var sent := Message(j, Delta(r.kvs, r.changeSet));
    var inflight' := s.inflight + Broadcast(|s.replicas|, i, Delta(r.kvs, r.changeSet));
    if Underway(w, j, s.inflight) {
      var m :| m in s.inflight && m.to == j && Reached(w, m.db);
      assert m in inflight';
    } else if w.server == i && w.key in r.changeSet && j != i {
      assert sent in inflight' && Reached(w, sent.db);
    }
  }

  lemma RequestKeepsInvariant(c: Config, s: System, i: nat, request: Store.Request)
    requires Invariant(c, s) && Enabled(c, s, Request(i, request))
    ensures Invariant(c, Next(c, s, Request(i, request)))
  {
    var s' := Next(c, s, Request(i, request));
    RequestKeepsSound(c, s, i, request);
    forall w | w in s'.accepted ensures Reached(w, s'.replicas[w.server].kvs) {
      RequestKeepsReached(c, s, i, request, w);
    }
    if !s'.lost {
      forall w, j | w in s'.accepted && 0 <= j < |s'.replicas| ensures Covered(s', w, j) {
        RequestKeepsCover(c, s, i, request, w, j);
      }
    }
  }

  lemma RequestKeepsReached(c: Config, s: System, i: nat, request: Store.Request, w: Write)
    requires Invariant(c, s) && Enabled(c, s, Request(i, request))
    requires w in s.accepted + WritesOf(i, request)
    ensures w.server < |s.replicas|
    ensures Reached(w, Next(c, s, Request(i, request)).replicas[w.server].kvs)
  {
    ProcessIsApplyThenGossip(c, s.replicas[i], request);
    RequestEffect(c, s, i, request);
    if w in s.accepted && w.server == i {
      ReachedGrows(w, s.replicas[i].kvs, Applied(s.replicas[i], request).kvs);
    }
  }

  lemma RequestKeepsCover(c: Config, s: System, i: nat, request: Store.Request, w: Write, j: nat)
    requires Invariant(c, s) && !s.lost && Enabled(c, s, Request(i, request))
    requires w in s.accepted + WritesOf(i, request) && j < |s.replicas|
    ensures w.server < |s.replicas| && Covered(Next(c, s, Request(i, request)), w, j)
  {
    var r', ws := Applied(s.replicas[i], request), WritesOf(i, request);
    ProcessIsApplyThenGossip(c, s.replicas[i], request);
    RequestEffect(c, s, i, request);
    GrownKeepsCover(s, i, r', ws, w, j);
    if MustGossip(c, r') {
      RequestKeepsReached(c, s, i, request, w);
      GossipKeepsCover(s.(replicas := s.replicas[i := r']), i, w, j);
    }
  }

  lemma RequestKeepsSound(c: Config, s: System, i: nat, request: Store.Request)
    requires Sound(c, s) && Enabled(c, s, Request(i, request))
    ensures Sound(c, Next(c, s, Request(i, request)))
  {
    var s' := Next(c, s, Request(i, request));
    var r', ws := Applied(s.replicas[i], request), WritesOf(i, request);
    ProcessIsApplyThenGossip(c, s.replicas[i], request);
    RequestEffect(c, s, i, request);
    forall j | 0 <= j < |s'.replicas|
      ensures AllGenuine(s'.accepted, s'.replicas[j].kvs) && s'.replicas[j].changeSet <= s'.replicas[j].kvs.Keys
    {
      if j != i { GenuineExtends(s.accepted, ws, s.replicas[j].kvs); }
    }
    forall m | m in s'.inflight ensures m.to < |s'.replicas| && AllGenuine(s'.accepted, m.db) {
      if m in s.inflight { GenuineExtends(s.accepted, ws, m.db); }
    }
  }

  lemma DeliverKeepsInvariant(c: Config, s: System, m: Message)
    requires Invariant(c, s) && Enabled(c, s, Deliver(m))
    ensures Invariant(c, Next(c, s, Deliver(m)))
  {
    var s' := Next(c, s, Deliver(m));
    var old_, new_ := s.replicas[m.to].kvs, s'.replicas[m.to].kvs;
    JoinIsLub(old_, m.db, new_);
    GenuineJoin(s.accepted, old_, m.db);
    forall w | w in s'.accepted ensures Reached(w, s'.replicas[w.server].kvs) {
      if w.server == m.to { ReachedGrows(w, old_, new_); }
    }
    if !s'.lost {
      forall w, j | w in s'.accepted && 0 <= j < |s'.replicas| ensures Covered(s', w, j) {
        DeliverKeepsCover(s, m, w, j);
      }
    }
  }

  lemma DeliverKeepsCover(s: System, m: Message, w: Write, j: nat)
    requires m in s.inflight && m.to < |s.replicas| && w.server < |s.replicas| && j < |s.replicas|
    requires Covered(s, w, j)
    ensures Covered(s.(replicas := s.replicas[m.to := Receive(s.replicas[m.to], m.db)],
                       inflight := s.inflight - multiset{m}), w, j)
  {
    JoinIsLub(s.replicas[m.to].kvs, m.db, m.db);
    var new_ := Receive(s.replicas[m.to], m.db).kvs;
    if Reached(w, s.replicas[j].kvs) {
      if j == m.to { ReachedGrows(w, s.replicas[j].kvs, new_); }
    } else if Underway(w, j, s.inflight) {
      var v :| v in s.inflight && v.to == j && Reached(w, v.db);
      if v == m {
        ReachedGrows(w, m.db, new_);
      } else {
        assert v in s.inflight - multiset{m};
      }
    }
  }

  lemma NextKeepsInvariant(c: Config, s: System, a: Action)
    requires Invariant(c, s) && Enabled(c, s, a)
    ensures Invariant(c, Next(c, s, a))
  {
    match a {
      case Request(i, request) => RequestKeepsInvariant(c, s, i, request);
      case Deliver(m) => DeliverKeepsInvariant(c, s, m);
      case Lose(m) =>
    }
  }

  /** Every run keeps the invariant. */
  lemma {:induction false} RunKeepsInvariant(c: Config, s: System, actions: seq<Action>)
    requires Invariant(c, s) && RunFrom(c, s, actions).Some?
    ensures Invariant(c, RunFrom(c, s, actions).value)
    decreases |actions|
  {
    if actions != [] {
      NextKeepsInvariant(c, s, actions[0]);
      RunKeepsInvariant(c, Next(c, s, actions[0]), actions[1..]);
    }
  }

  lemma RunIsInvariant(c: Config, actions: seq<Action>)
    requires Run(c, actions).Some?
    ensures Invariant(c, Run(c, actions).value)
  {
    RunKeepsInvariant(c, Init(c), actions);
  }

  lemma ReachableIsInvariant(c: Config, s: System)
    requires Reachable(c, s)
    ensures Invariant(c, s)
  {
    var actions :| Run(c, actions) == Some(s);
    RunIsInvariant(c, actions);
  }

  lemma NextGrows(c: Config, s: System, a: Action, j: nat)
    requires Invariant(c, s) && Enabled(c, s, a) && j < |s.replicas|
    ensures |Next(c, s, a).replicas| == |s.replicas|
    ensures Below(s.replicas[j].kvs, Next(c, s, a).replicas[j].kvs)
  {
    BelowIsOrder(s.replicas[j].kvs, s.replicas[j].kvs, s.replicas[j].kvs);
    match a {
      case Request(i, request) =>
        ProcessIsApplyThenGossip(c, s.replicas[i], request);
        RequestEffect(c, s, i, request);
      case Deliver(m) => JoinIsLub(s.replicas[m.to].kvs, m.db, m.db);
      case Lose(m) =>
    }
  }

  /** What a server stores only grows, over every run. */
  lemma {:induction false} RunGrows(c: Config, s: System, actions: seq<Action>, j: nat)
    requires Invariant(c, s) && RunFrom(c, s, actions).Some? && j < |s.replicas|
    ensures |RunFrom(c, s, actions).value.replicas| == |s.replicas|
    ensures Below(s.replicas[j].kvs, RunFrom(c, s, actions).value.replicas[j].kvs)
    decreases |actions|
  {
    BelowIsOrder(s.replicas[j].kvs, s.replicas[j].kvs, s.replicas[j].kvs);
    if actions != [] {
      var t := Next(c, s, actions[0]);
      NextGrows(c, s, actions[0], j);
      NextKeepsInvariant(c, s, actions[0]);
      RunGrows(c, t, actions[1..], j);
      BelowIsOrder(s.replicas[j].kvs, t.replicas[j].kvs, RunFrom(c, t, actions[1..]).value.replicas[j].kvs);
    }
  }

  // ------------------------------------------------------------------ main results

  /** The join of everything ever accepted. */
  function Total(accepted: seq<Write>): Database {
    if accepted == [] then map[]
    else
      var w := accepted[|accepted| - 1];
      JoinDatabase(Total(accepted[..|accepted| - 1]), map[w.key := w.entry])
  }

  lemma {:induction false} TotalIsLub(accepted: seq<Write>, db: Database)
    ensures forall w :: w in accepted ==> Reached(w, Total(accepted))
    ensures (forall w :: w in accepted ==> Reached(w, db)) ==> Below(Total(accepted), db)
  {
    if accepted != [] {
      var n := |accepted| - 1;
      var rest, w := accepted[..n], accepted[n];
      assert accepted == rest + [w];
      TotalIsLub(rest, db);
      JoinIsLub(Total(rest), map[w.key := w.entry], db);
      forall v | v in accepted ensures Reached(v, Total(accepted)) {
        if v in rest { ReachedGrows(v, Total(rest), Total(accepted)); }
      }
      if forall v :: v in accepted ==> Reached(v, db) {
        assert Reached(w, db);
        assert forall v :: v in rest ==> v in accepted;
        assert Below(Total(rest), db) && Below(map[w.key := w.entry], db);
      }
    }
  }

  lemma GenuineIsBelowTotal(accepted: seq<Write>, db: Database)
    requires AllGenuine(accepted, db)
    ensures Below(db, Total(accepted))
  {
    TotalIsLub(accepted, db);
    forall k | k in db ensures k in Total(accepted) && EntryLeq(db[k], Total(accepted)[k]) {
      var w :| w in accepted && w.key == k && w.entry == db[k];
      assert Reached(w, Total(accepted));
    }
  }

  /** In every run, lossy or not, no replica and no message is above the join of what was
      accepted, and each replica is above the writes it accepted itself. */
  lemma NothingExceedsTotal(c: Config, actions: seq<Action>)
    requires Run(c, actions).Some?
    ensures var s := Run(c, actions).value;
            && (forall j :: 0 <= j < |s.replicas| ==> Below(s.replicas[j].kvs, Total(s.accepted)))
            && (forall m :: m in s.inflight ==> Below(m.db, Total(s.accepted)))
            && (forall w :: w in s.accepted ==> w.server < |s.replicas| && Reached(w, s.replicas[w.server].kvs))
  {
    RunIsInvariant(c, actions);
    var s := Run(c, actions).value;
    forall j | 0 <= j < |s.replicas| ensures Below(s.replicas[j].kvs, Total(s.accepted)) {
      GenuineIsBelowTotal(s.accepted, s.replicas[j].kvs);
    }
    forall m | m in s.inflight ensures Below(m.db, Total(s.accepted)) {
      GenuineIsBelowTotal(s.accepted, m.db);
    }
  }

  /** Nothing is left to publish or to deliver, and nothing was lost. */
  ghost predicate Quiet(s: System) {
    && s.inflight == multiset{} && !s.lost
    && forall j :: 0 <= j < |s.replicas| ==> s.replicas[j].changeSet == {}
  }

  lemma QuietReaches(c: Config, s: System, w: Write, j: nat)
    requires Invariant(c, s) && Quiet(s) && w in s.accepted && j < |s.replicas|
    ensures Reached(w, s.replicas[j].kvs)
  {
    assert Covered(s, w, j);
  }

  lemma ReachedAndGenuine(accepted: seq<Write>, db: Database)
    requires AllGenuine(accepted, db) && forall w :: w in accepted ==> Reached(w, db)
    ensures db == Total(accepted)
  {
    TotalIsLub(accepted, db);
    GenuineIsBelowTotal(accepted, db);
    BelowIsOrder(db, Total(accepted), map[]);
  }

  lemma QuietConverges(c: Config, s: System, j: nat)
    requires Invariant(c, s) && Quiet(s) && j < |s.replicas|
    ensures s.replicas[j].kvs == Total(s.accepted)
  {
    forall w | w in s.accepted ensures Reached(w, s.replicas[j].kvs) {
      QuietReaches(c, s, w, j);
    }
    ReachedAndGenuine(s.accepted, s.replicas[j].kvs);
  }

  /** Convergence: once nothing is left to publish or deliver, and nothing was lost, every
      replica holds exactly the join of all accepted puts. */
  lemma Convergence(c: Config, actions: seq<Action>)
    requires Run(c, actions).Some? && Quiet(Run(c, actions).value)
    ensures var s := Run(c, actions).value;
            forall j :: 0 <= j < |s.replicas| ==> s.replicas[j].kvs == Total(s.accepted)
  {
    RunIsInvariant(c, actions);
    var s := Run(c, actions).value;
    forall j | 0 <= j < |s.replicas| ensures s.replicas[j].kvs == Total(s.accepted) {
      QuietConverges(c, s, j);
    }
  }

  ghost predicate Flushed(s: System) {
    forall j :: 0 <= j < |s.replicas| ==> s.replicas[j].changeSet == {} && s.replicas[j].updateCounter == 0
  }

  lemma NextFlushes(c: Config, s: System, a: Action)
    requires c.threshold <= 1 && c.numThreads != 1 && Flushed(s) && Enabled(c, s, a)
    ensures Flushed(Next(c, s, a))
  {
    if a.Request? {
      ProcessIsApplyThenGossip(c, s.replicas[a.server], a.request);
      if a.request.Put? { PutPairsCounts(s.replicas[a.server], a.request.timestamp, a.request.pairs); }
    }
  }

  /** With a threshold of at most 1, as in the source, and more than one thread, every
      request publishes what it changed, so delivery alone makes the system quiet. */
  lemma {:induction false} LowThresholdFlushes(c: Config, s: System, actions: seq<Action>)
    requires c.threshold <= 1 && c.numThreads != 1 && Flushed(s)
    requires RunFrom(c, s, actions).Some?
    ensures Flushed(RunFrom(c, s, actions).value)
    decreases |actions|
  {
    if actions != [] {
      NextFlushes(c, s, actions[0]);
      LowThresholdFlushes(c, Next(c, s, actions[0]), actions[1..]);
    }
  }

  lemma {:induction false} PutPairsCounts(r: Replica, t: int, pairs: seq<(Key, string)>)
    ensures PutPairs(r, t, pairs).updateCounter == r.updateCounter + |pairs|
    ensures pairs == [] ==> PutPairs(r, t, pairs) == r
  {
    if pairs != [] { PutPairsCounts(r, t, pairs[..|pairs| - 1]); }
  }

  predicate OnlyDeliveries(actions: seq<Action>) {
    forall i :: 0 <= i < |actions| ==> actions[i].Deliver?
  }

  /** Deliveries drain the messages one by one and leave the rest of the record alone. */
  lemma {:induction false} DeliveriesDrain(c: Config, s: System, more: seq<Action>)
    requires OnlyDeliveries(more) && RunFrom(c, s, more).Some?
    ensures var s' := RunFrom(c, s, more).value;
            && s'.accepted == s.accepted && s'.lost == s.lost && |s'.replicas| == |s.replicas|
            && (forall j :: 0 <= j < |s.replicas| ==> s'.replicas[j].changeSet == s.replicas[j].changeSet)
            && |s'.inflight| + |more| == |s.inflight|
    decreases |more|
  {
    if more != [] {
      DeliveriesDrain(c, Next(c, s, more[0]), more[1..]);
    }
  }

  /** Whatever order the outstanding messages arrive in: once they all have, every replica
      holds the join of all accepted puts. */
  lemma AnyDeliveryOrderConverges(c: Config, actions: seq<Action>, more: seq<Action>)
    requires Run(c, actions).Some? && OnlyDeliveries(more) && RunFrom(c, Run(c, actions).value, more).Some?
    requires var s := Run(c, actions).value;
             && !s.lost && |more| == |s.inflight|
             && forall j :: 0 <= j < |s.replicas| ==> s.replicas[j].changeSet == {}
    ensures var s := Run(c, actions).value; var s' := RunFrom(c, s, more).value;
            forall j :: 0 <= j < |s'.replicas| ==> s'.replicas[j].kvs == Total(s.accepted)
  {
    var s := Run(c, actions).value;
    var s' := RunFrom(c, s, more).value;
    RunIsInvariant(c, actions);
    RunKeepsInvariant(c, s, more);
    DeliveriesDrain(c, s, more);
    forall j | 0 <= j < |s'.replicas| ensures s'.replicas[j].kvs == Total(s.accepted) {
      QuietConverges(c, s', j);
    }
  }

  lemma SomeMessage(ms: multiset<Message>) returns (m: Message)
    requires |ms| > 0
    ensures m in ms
  {
    m :| m in ms;
  }

  /** And from every reachable state they all can arrive. */
  lemma {:induction false} AllCanBeDelivered(c: Config, s: System) returns (more: seq<Action>)
    requires Invariant(c, s)
    ensures OnlyDeliveries(more) && RunFrom(c, s, more).Some? && |more| == |s.inflight|
    decreases |s.inflight|
  {
    if |s.inflight| == 0 {
      more := [];
    } else {
      var m := SomeMessage(s.inflight);
      DeliverKeepsInvariant(c, s, m);
      var rest := AllCanBeDelivered(c, Next(c, s, Deliver(m)));
      more := [Deliver(m)] + rest;
      assert more[1..] == rest;
    }
  }

  lemma GetAnswers(c: Config, r: Replica, key: Key)
    ensures var done := Process(c, r, Get(key));
            && done.Done?
            && (done.response.succeed <==> key in r.kvs)
            && (key in r.kvs ==>
                  done.response.value == Some(r.kvs[key].1) && done.response.timestamp == Some(r.kvs[key].0))
  {
  }

  /** Which requests succeed, and which is not answered at all. */
  lemma AnswersSucceedIff(c: Config, r: Replica, request: Store.Request)
    ensures var done := Process(c, r, request);
            && (done.Thrown? <==> request.BeginTransaction? && BeginTimestamp(r.localTimestamp, r.threadId) == None)
            && (done.Done? ==>
                  (done.response.succeed <==>
                     match request case Get(key) => key in r.kvs case RequestNotSet => false case _ => true))
  {
  }

  lemma ReplicaIsGenuine(c: Config, actions: seq<Action>, i: nat, key: Key)
    requires Run(c, actions).Some?
    requires i < |Run(c, actions).value.replicas| && key in Run(c, actions).value.replicas[i].kvs
    ensures Genuine(Run(c, actions).value.accepted, key, Run(c, actions).value.replicas[i].kvs[key])
  {
    RunIsInvariant(c, actions);
    assert AllGenuine(Run(c, actions).value.accepted, Run(c, actions).value.replicas[i].kvs);
  }

  /** No thin-air reads: whatever a get answers for a key came, timestamp and value together,
      from one accepted write of that key; and a get fails only if the key is not bound. */
  lemma NoThinAirReads(c: Config, actions: seq<Action>, i: nat, key: Key)
    requires Run(c, actions).Some?
    requires i < |Run(c, actions).value.replicas|
    ensures var s := Run(c, actions).value;
            var done := Process(c, s.replicas[i], Get(key));
            && done.Done?
            && (done.response.succeed <==> key in s.replicas[i].kvs)
            && (done.response.succeed ==>
                  && done.response.value.Some? && done.response.timestamp.Some?
                  && Genuine(s.accepted, key, (done.response.timestamp.value, done.response.value.value)))
  {
    GetAnswers(c, Run(c, actions).value.replicas[i], key);
    if key in Run(c, actions).value.replicas[i].kvs { ReplicaIsGenuine(c, actions, i, key); }
  }
}
