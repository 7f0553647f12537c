/** Whether clients find what was committed: exactly when there is at most one server. */
module ClientGuarantees {
  import opened Options
  import opened Decimals
  import opened Store
  import opened Clients
  import opened Isolation
  import Replication

  /** In every run every committed key is found at every server, with that entry or a greater
      one. */
  ghost predicate CommitsFound(c: Setting) {
    forall w, k, entry, g ::
      Reachable(c, w) && Committed(w.log, k, entry) && 0 <= g < |w.system.replicas| ==> Found(w, k, entry, g)
  }

  predicate Found(w: World, k: Key, entry: Entry, g: nat)
    requires g < |w.system.replicas|
  {
    k in w.system.replicas[g].kvs && EntryLeq(entry, w.system.replicas[g].kvs[k])
  }

  lemma ReachableIsInvariant(c: Setting, w: World)
    requires Reachable(c, w)
    ensures Invariant(c, w)
  {
    var actions :| Run(c, actions) == Some(w);
    RunIsInvariant(c, actions);
  }

  // ------------------------------------------------------------- where it holds

  lemma SingleServerFinds(c: Setting, w: World, k: Key, entry: Entry, g: nat)
    requires Invariant(c, w) && c.config.numThreads <= 1 && Committed(w.log, k, entry) && g < |w.system.replicas|
    ensures Found(w, k, entry, g)
  {
    assert Replication.Genuine(w.system.accepted, k, entry);
    var u :| u in w.system.accepted && u.key == k && u.entry == entry;
    SingleHolds(c.config, w.system, u, g);
  }

  lemma SingleServer(c: Config, s: Replication.System, u: Replication.Write, g: nat)
    requires Replication.Sound(c, s) && u in s.accepted && g < |s.replicas| && c.numThreads <= 1
    ensures u.server == g
  {
  }

  lemma SingleHolds(c: Config, s: Replication.System, u: Replication.Write, g: nat)
    requires Replication.Invariant(c, s) && u in s.accepted && g < |s.replicas| && c.numThreads <= 1
    ensures Replication.Reached(u, s.replicas[g].kvs)
  {
    SingleServer(c, s, u, g);
  }

  lemma {:induction false} NoClientsNoLog(c: Setting, w: World, actions: seq<Action>)
    requires c.caching == [] && w.log == [] && RunFrom(c, w, actions).Some?
    ensures RunFrom(c, w, actions).value.log == []
    decreases |actions|
  {
    if actions != [] {
      assert actions[0].Network?;
      NoClientsNoLog(c, Next(c, w, actions[0]), actions[1..]);
    }
  }

  lemma NobodyCommits(c: Setting, w: World, k: Key, entry: Entry)
    requires Reachable(c, w) && c.caching == []
    ensures !Committed(w.log, k, entry)
  {
    var actions :| Run(c, actions) == Some(w);
    NoClientsNoLog(c, Init(c), actions);
  }

  // ------------------------------------------------------------- where it fails

  /** The first client begins at server b, */
  lemma FirstBegin(c: Config, b: nat) returns (t: int)
    requires BeginTimestamp(0, b).Some?
    ensures var done := Process(c, InitialReplica(b), BeginTransaction);
            && done.Done? && done.response == Response(true, None, Some(t)) && done.state.kvs == map[]
            && done.state.changeSet == {}
    ensures 0 <= t <= INT_MAX && ToInt32(t) == t
  {
    t := BeginTimestamp(0, b).value;
  }

  lemma BeginAt(c: Setting, b: nat) returns (w: World, t: int)
    requires b < c.config.numThreads && |c.caching| >= 1 && BeginTimestamp(0, b).Some?
    ensures Reachable(c, w) && 0 <= t
    ensures |w.sessions| == |c.caching| && w.sessions[0] == Session(t, map[], map[]) && w.log == []
    ensures |w.system.replicas| == c.config.numThreads
    ensures forall g: nat :: g < c.config.numThreads ==> w.system.replicas[g].kvs == map[]
  {
    var w0, a := Init(c), Begin(0, b);
    assert Run(c, []) == Some(w0);
    t := FirstBegin(c.config, b);
    assert w0.system.replicas[b] == InitialReplica(b);
    ReachableStep(c, w0, a);
    w := Next(c, w0, a);
  }

  /** puts v, */
  lemma ThenPut(c: Setting, w: World, t: int, k: Key, v: string) returns (w': World)
    requires Reachable(c, w) && 0 <= t
    requires |c.caching| == |w.sessions| >= 1 && w.sessions[0] == Session(t, map[], map[]) && w.log == []
    ensures Reachable(c, w') && w'.system == w.system
    ensures |w'.sessions| == |w.sessions| && w'.sessions[0] == Session(t, map[k := v], map[])
    ensures w'.log == [Wrote(0, k, v)]
  {
    ReachableStep(c, w, Action.Put(0, k, v));
    w' := Next(c, w, Action.Put(0, k, v));
  }

  /** and ends at server e. */
  lemma ThenEnd(c: Setting, w: World, t: int, e: nat, k: Key, v: string) returns (w': World)
    requires Reachable(c, w) && e < |w.system.replicas|
    requires |c.caching| == |w.sessions| >= 1 && w.sessions[0] == Session(t, map[k := v], map[])
    requires w.log == [Wrote(0, k, v)]
    ensures Reachable(c, w') && w'.log == [Wrote(0, k, v), Ended(0, t)]
    ensures |w'.system.replicas| == |w.system.replicas|
    ensures forall g: nat :: g < |w.system.replicas| && g != e ==> w'.system.replicas[g] == w.system.replicas[g]
  {
    var a := End(0, e, [(k, v)]);
    assert (k, v) in a.pairs;
    ReachableStep(c, w, a);
    w' := Next(c, w, a);
  }

  /** A client begins at any server b and ends at any server e; its own committed value is not
      yet found at any other server g, which may be b. */
  lemma OwnCommitMayBeUnread(c: Setting, b: nat, e: nat, g: nat, k: Key, v: string) returns (w: World, t: int)
    requires b < c.config.numThreads && e < c.config.numThreads && g < c.config.numThreads && e != g
    requires |c.caching| >= 1 && BeginTimestamp(0, b).Some?
    ensures Reachable(c, w) && g < |w.system.replicas|
    ensures w.log == [Wrote(0, k, v), Ended(0, t)] && Committed(w.log, k, (t, v))
    ensures !Process(c.config, w.system.replicas[g], Request.Get(k)).response.succeed
    ensures !Found(w, k, (t, v), g)
  {
    w, t := BeginAt(c, b);
    w := ThenPut(c, w, t, k, v);
    w := ThenEnd(c, w, t, e, k, v);
    assert FinalWriteAt(w.log, 0, 1, 0, k, v);
    assert CommittedAt(w.log, 1, k, (t, v));
  }

  // --------------------------------------------------------------------- exactly

  /** Every commit is found everywhere at every moment of every run if and only if there is at
      most one server, or nobody to commit anything. */
  lemma CommitsFoundIff(c: Setting)
    ensures CommitsFound(c) <==> c.config.numThreads <= 1 || c.caching == []
  {
    if c.config.numThreads <= 1 || c.caching == [] {
      forall w, k, entry, g |
        Reachable(c, w) && Committed(w.log, k, entry) && 0 <= g < |w.system.replicas|
        ensures Found(w, k, entry, g)
      {
        if c.caching == [] {
          NobodyCommits(c, w, k, entry);
        } else {
          ReachableIsInvariant(c, w);
          SingleServerFinds(c, w, k, entry, g);
        }
      }
    } else {
      BeginTimestampSmallIds(0, 0);
      var w, t := OwnCommitMayBeUnread(c, 0, 1, 0, "k", "v");
    }
  }
}
