/** When a server publishes, and what: told by the requests it has handled, not by its counter
    and its change set. */
module Publishing {
  import opened Options
  import opened Store
  import opened Replication

  function PairsOf(request: Store.Request): seq<(Key, string)> {
    if request.Put? then request.pairs else []
  }

  predicate Publishes(c: Config, pairs: seq<(Key, string)>) {
    |pairs| >= c.threshold && c.numThreads != 1
  }

  /** The pairs that server i has accepted and not published, after one more action. */
  function Unpublished(c: Config, i: nat, pairs: seq<(Key, string)>, a: Action): seq<(Key, string)> {
    if a.Request? && a.server == i then
      if Publishes(c, pairs + PairsOf(a.request)) then [] else pairs + PairsOf(a.request)
    else pairs
  }

  function UnpublishedAfter(c: Config, i: nat, pairs: seq<(Key, string)>, actions: seq<Action>): seq<(Key, string)>
    decreases |actions|
  {
    if actions == [] then pairs
    else UnpublishedAfter(c, i, Unpublished(c, i, pairs, actions[0]), actions[1..])
  }

  function KeysOf(pairs: seq<(Key, string)>): set<Key> {
    set p | p in pairs :: p.0
  }

  /** The counter and the change set tell how many of them there are and which keys they have. */
  predicate Tracks(r: Replica, pairs: seq<(Key, string)>) {
    r.updateCounter == |pairs| && r.changeSet == KeysOf(pairs)
  }

  lemma {:induction false} PutsTrack(r: Replica, t: int, earlier: seq<(Key, string)>, pairs: seq<(Key, string)>)
    requires Tracks(r, earlier)
    ensures Tracks(PutPairs(r, t, pairs), earlier + pairs)
  {
    if pairs == [] {
      assert earlier + pairs == earlier;
    } else {
      var before, last := pairs[..|pairs| - 1], pairs[|pairs| - 1];
      PutsTrack(r, t, earlier, before);
      assert earlier + pairs == (earlier + before) + [last];
      KeysMore(earlier + before, last);
    }
  }

  lemma KeysMore(pairs: seq<(Key, string)>, last: (Key, string))
    ensures KeysOf(pairs + [last]) == KeysOf(pairs) + {last.0}
  {
    assert last in pairs + [last];
    forall p | p in pairs ensures p in pairs + [last] {}
  }

  /** A request that is handled publishes exactly when there are now enough unpublished pairs and
      another thread to publish to; and then exactly their keys, with what is now stored. */
  lemma RequestPublishes(c: Config, r: Replica, pairs: seq<(Key, string)>, request: Store.Request)
    requires Tracks(r, pairs) && Process(c, r, request).Done?
    ensures var done, all := Process(c, r, request), pairs + PairsOf(request);
            && (done.gossip.Some? <==> Publishes(c, all))
            && (done.gossip.Some? ==> done.gossip.value == Delta(done.state.kvs, KeysOf(all)))
            && done.state.kvs == Applied(r, request).kvs && Applied(r, request).changeSet == KeysOf(all)
            && Tracks(done.state, if done.gossip.Some? then [] else all)
  {
    ProcessIsApplyThenGossip(c, r, request);
    if request.Put? {
      PutsTrack(r, request.timestamp, pairs, request.pairs);
    } else {
      assert pairs + [] == pairs;
    }
  }

  lemma ReceiptTracks(r: Replica, db: Database, pairs: seq<(Key, string)>)
    ensures Tracks(Receive(r, db), pairs) <==> Tracks(r, pairs)
  {
  }

  lemma NextTracks(c: Config, s: System, a: Action, i: nat, pairs: seq<(Key, string)>)
    requires Enabled(c, s, a) && i < |s.replicas| && Tracks(s.replicas[i], pairs)
    ensures |Next(c, s, a).replicas| == |s.replicas|
    ensures Tracks(Next(c, s, a).replicas[i], Unpublished(c, i, pairs, a))
  {
    if a.Request? && a.server == i {
      RequestPublishes(c, s.replicas[i], pairs, a.request);
    } else if a.Deliver? && a.message.to == i {
      ReceiptTracks(s.replicas[i], a.message.db, pairs);
    }
  }

  lemma {:induction false} RunTracks(c: Config, s: System, actions: seq<Action>, i: nat, pairs: seq<(Key, string)>)
    requires RunFrom(c, s, actions).Some? && i < |s.replicas| && Tracks(s.replicas[i], pairs)
    ensures |RunFrom(c, s, actions).value.replicas| == |s.replicas|
    ensures Tracks(RunFrom(c, s, actions).value.replicas[i], UnpublishedAfter(c, i, pairs, actions))
    decreases |actions|
  {
    if actions != [] {
      NextTracks(c, s, actions[0], i, pairs);
      RunTracks(c, Next(c, s, actions[0]), actions[1..], i, Unpublished(c, i, pairs, actions[0]));
    }
  }

  /** After every run, a request that server i handles makes it publish if and only if the pairs
      it has accepted since it last published are at least as many as the threshold and it is
      not the only thread; the message has exactly their keys. */
  lemma PublishesIff(c: Config, actions: seq<Action>, i: nat, request: Store.Request)
    requires Run(c, actions).Some? && Enabled(c, Run(c, actions).value, Request(i, request))
    ensures var done := Process(c, Run(c, actions).value.replicas[i], request);
            var all := UnpublishedAfter(c, i, [], actions) + PairsOf(request);
            && (done.gossip.Some? <==> |all| >= c.threshold && c.numThreads != 1)
            && (done.gossip.Some? ==>
                  && done.gossip.value.Keys == KeysOf(all)
                  && forall k :: k in KeysOf(all) ==>
                       k in done.state.kvs && done.gossip.value[k] == done.state.kvs[k])
  {
    var s := Run(c, actions).value;
    RunIsInvariant(c, actions);
    assert i < |Init(c).replicas| && Tracks(Init(c).replicas[i], []);
    RunTracks(c, Init(c), actions, i, []);
    RequestPublishes(c, s.replicas[i], UnpublishedAfter(c, i, [], actions), request);
    RequestEffect(c, s, i, request);
  }
}
