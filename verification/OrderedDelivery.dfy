/** Batches when the messages of one server reach another in the order they were published and
    none is lost, as one publisher's socket delivers them: they are then seen whole between two
    servers, but not among three. */
module OrderedDelivery {
  import opened Options
  import opened Semilattices
  import opened Store
  import opened Guarantees
  import opened Posts
  import Replication

  ghost predicate ReachableInOrder(c: Config, p: Post) {
    exists acts :: RunFrom(c, true, Init(c), acts) == Some(p)
  }

  function BatchServed(c: Config, p: Post, i: nat, t: int, pairs: seq<(Key, string)>): Post
    requires i < |p.s.replicas|
  {
    Next(c, p, Serve(i, Put(t, pairs)))
  }

  /** No batch that server i accepts is ever seen in part at server j, in runs that keep the
      order. */
  ghost predicate BatchesWholeInOrder(c: Config, i: nat, j: nat) {
    forall p, t, pairs, acts ::
      ReachableInOrder(c, p) && i < |p.s.replicas| && RunFrom(c, true, BatchServed(c, p, i, t, pairs), acts).Some?
      ==> WholeAt(RunFrom(c, true, BatchServed(c, p, i, t, pairs), acts).value.s, j, |p.s.accepted|, t, pairs)
  }

  lemma ReachableIsInvariant(c: Config, p: Post)
    requires ReachableInOrder(c, p)
    ensures Invariant(c, p) && Replication.Reachable(c, p.s)
  {
    var acts :| RunFrom(c, true, Init(c), acts) == Some(p);
    InitIsInvariant(c);
    RunKeepsInvariant(c, true, Init(c), acts);
    PostsAreRuns(c, true, Init(c), acts);
    assert Replication.Run(c, PlainAll(c, Init(c), acts)) == Some(p.s);
  }

  // ---------------------------------------------------- from one server to another

  predicate IsFrom(l: Letter, f: nat, t: nat) {
    l.from == f && l.message.to == t
  }

  /** The messages on their way from server f to server t, oldest first. */
  function Channel(pending: seq<Letter>, f: nat, t: nat): seq<Database> {
    if pending == [] then []
    else if IsFrom(pending[0], f, t) then [pending[0].message.db] + Channel(pending[1..], f, t)
    else Channel(pending[1..], f, t)
  }

  lemma {:induction false} ChannelConcat(xs: seq<Letter>, ys: seq<Letter>, f: nat, t: nat)
    ensures Channel(xs + ys, f, t) == Channel(xs, f, t) + Channel(ys, f, t)
  {
    if xs == [] {
      assert xs + ys == ys;
    } else {
      ChannelConcat(xs[1..], ys, f, t);
      assert (xs + ys)[1..] == xs[1..] + ys;
    }
  }

  lemma {:induction false} ChannelNone(xs: seq<Letter>, f: nat, t: nat)
    requires forall k :: 0 <= k < |xs| ==> !IsFrom(xs[k], f, t)
    ensures Channel(xs, f, t) == []
  {
    if xs != [] { ChannelNone(xs[1..], f, t); }
  }

  lemma ChannelOne(l: Letter, f: nat, t: nat)
    ensures Channel([l], f, t) == if IsFrom(l, f, t) then [l.message.db] else []
  {
    assert [l][1..] == [];
  }

  lemma SplitChannel(pending: seq<Letter>, k: nat, f: nat, t: nat)
    requires k < |pending|
    ensures Channel(pending, f, t) ==
              Channel(pending[..k], f, t) + (Channel([pending[k]], f, t) + Channel(pending[k + 1..], f, t))
    ensures Channel(Without(pending, k), f, t) == Channel(pending[..k], f, t) + Channel(pending[k + 1..], f, t)
  {
    assert pending == pending[..k] + ([pending[k]] + pending[k + 1..]);
    ChannelConcat(pending[..k], [pending[k]] + pending[k + 1..], f, t);
    ChannelConcat([pending[k]], pending[k + 1..], f, t);
    ChannelConcat(pending[..k], pending[k + 1..], f, t);
  }

  /** Handing over the oldest letter takes the head off its channel and leaves the others. */
  lemma ChannelWithout(pending: seq<Letter>, k: nat, f: nat, t: nat)
    requires k < |pending| && Oldest(pending, k)
    ensures Channel(pending, f, t) ==
              if IsFrom(pending[k], f, t) then [pending[k].message.db] + Channel(Without(pending, k), f, t)
              else Channel(Without(pending, k), f, t)
  {
    SplitChannel(pending, k, f, t);
    ChannelOne(pending[k], f, t);
    if IsFrom(pending[k], f, t) { ChannelNone(pending[..k], f, t); }
  }

  lemma {:induction false} ChannelOfLetters(id: nat, n: nat, from: nat, db: Database, f: nat, t: nat)
    ensures Channel(Letters(id, n, from, db), f, t) == if f == from && t < n && t != from then [db] else []
  {
    if n > 0 {
      ChannelOfLetters(id, n - 1, from, db, f, t);
      if n - 1 != from {
        var l := Letter(id, from, Replication.Message(n - 1, db));
        ChannelConcat(Letters(id, n - 1, from, db), [l], f, t);
        ChannelOne(l, f, t);
      }
    }
  }

  lemma {:induction false} ChannelMembers(pending: seq<Letter>, f: nat, t: nat, x: nat)
    requires x < |Channel(pending, f, t)|
    ensures exists l :: l in pending && l.message.db == Channel(pending, f, t)[x]
  {
    if IsFrom(pending[0], f, t) && x == 0 {
      assert pending[0] in pending;
    } else {
      var y := if IsFrom(pending[0], f, t) then x - 1 else x;
      ChannelMembers(pending[1..], f, t, y);
      var l :| l in pending[1..] && l.message.db == Channel(pending[1..], f, t)[y];
      assert l in pending;
    }
  }

  // ------------------------------------------------------- a batch on its way to j

  predicate Covers(db: Database, t: int, pairs: seq<(Key, string)>) {
    forall p :: p in pairs ==> p.0 in db && EntryLeq(EntryOf(t, p), db[p.0])
  }

  lemma CoversGrows(m: Database, n: Database, t: int, pairs: seq<(Key, string)>)
    requires Covers(m, t, pairs) && Below(m, n)
    ensures Covers(n, t, pairs)
  {
    forall p | p in pairs ensures p.0 in n && EntryLeq(EntryOf(t, p), n[p.0]) {
      EntryOrder(EntryOf(t, p), m[p.0], n[p.0]);
    }
  }

  /** What comes down the channel is first free of the batch and then covers all of it; if no
      message covers it yet, its keys are still to be published (`kept`). */
  ghost predicate Arriving(
    ch: seq<Database>, others: seq<Replication.Write>, t: int, pairs: seq<(Key, string)>, kept: bool)
  {
    if ch == [] then kept
    else Covers(ch[0], t, pairs) || (Replication.AllGenuine(others, ch[0]) && Arriving(ch[1..], others, t, pairs, kept))
  }

  lemma {:induction false} ArrivingFree(
      ch: seq<Database>, others: seq<Replication.Write>, t: int, pairs: seq<(Key, string)>)
    requires forall x :: 0 <= x < |ch| ==> Replication.AllGenuine(others, ch[x])
    ensures Arriving(ch, others, t, pairs, true)
  {
    if ch != [] { ArrivingFree(ch[1..], others, t, pairs); }
  }

  lemma {:induction false} ArrivingLater(
      ch: seq<Database>, others: seq<Replication.Write>, more: seq<Replication.Write>, t: int,
      pairs: seq<(Key, string)>, kept: bool, kept': bool)
    requires Arriving(ch, others, t, pairs, kept) && (kept ==> kept')
    ensures Arriving(ch, others + more, t, pairs, kept')
  {
    if ch != [] && !Covers(ch[0], t, pairs) {
      Replication.GenuineExtends(others, more, ch[0]);
      ArrivingLater(ch[1..], others, more, t, pairs, kept, kept');
    }
  }

  lemma {:induction false} ArrivingMore(
      ch: seq<Database>, others: seq<Replication.Write>, t: int, pairs: seq<(Key, string)>, kept: bool, db: Database,
      kept': bool)
    requires Arriving(ch, others, t, pairs, kept) && (kept ==> Covers(db, t, pairs))
    ensures Arriving(ch + [db], others, t, pairs, kept')
  {
    if ch == [] {
      assert ch + [db] == [db];
    } else if !Covers(ch[0], t, pairs) {
      ArrivingMore(ch[1..], others, t, pairs, kept, db, kept');
      assert (ch + [db])[1..] == ch[1..] + [db];
    }
  }

  predicate Kept(changeSet: set<Key>, pairs: seq<(Key, string)>) {
    forall p :: p in pairs ==> p.0 in changeSet
  }

  lemma DeltaCovers(kvs: Database, changeSet: set<Key>, t: int, pairs: seq<(Key, string)>)
    requires Covers(kvs, t, pairs) && Kept(changeSet, pairs)
    ensures Covers(Delta(kvs, changeSet), t, pairs)
  {
  }

  /** Server j has all of the batch, or nothing but other writes. */
  ghost predicate AllOrNothing(p: Post, i: nat, j: nat, from: nat, t: int, pairs: seq<(Key, string)>)
    requires i < |p.s.replicas| && j < |p.s.replicas|
  {
    var others := Others(p.s.accepted, from, |pairs|);
    || Covers(p.s.replicas[j].kvs, t, pairs)
    || (Replication.AllGenuine(others, p.s.replicas[j].kvs)
        && Arriving(Channel(p.pending, i, j), others, t, pairs, Kept(p.s.replicas[i].changeSet, pairs)))
  }

  ghost predicate OnItsWay(p: Post, i: nat, j: nat, from: nat, t: int, pairs: seq<(Key, string)>) {
    && i < |p.s.replicas| && j < |p.s.replicas| && from + |pairs| <= |p.s.accepted|
    && Covers(p.s.replicas[i].kvs, t, pairs)
    && AllOrNothing(p, i, j, from, t, pairs)
  }

  lemma CutMore<T>(xs: seq<T>, more: seq<T>, a: nat, b: nat)
    requires a <= |xs| && b <= |xs|
    ensures (xs + more)[..a] + (xs + more)[b..] == (xs[..a] + xs[b..]) + more
  {
  }

  lemma OthersMore(accepted: seq<Replication.Write>, from: nat, n: nat, more: seq<Replication.Write>)
    requires from + n <= |accepted|
    ensures Others(accepted + more, from, n) == Others(accepted, from, n) + more
  {
    CutMore(accepted, more, from, from + n);
  }

  /** A request at server x, whether it is one of the two or not. */
  lemma ServedPost(c: Config, p: Post, x: nat, request: Store.Request)
    requires Enabled(c, p, Serve(x, request))
    ensures var p', r := Next(c, p, Serve(x, request)), Replication.Applied(p.s.replicas[x], request);
            var gossips := MustGossip(c, r);
            && p'.s.accepted == p.s.accepted + Replication.WritesOf(x, request)
            && |p'.s.replicas| == |p.s.replicas|
            && (forall y: nat :: y < |p.s.replicas| && y != x ==> p'.s.replicas[y] == p.s.replicas[y])
            && p'.s.replicas[x].kvs == r.kvs
            && (if gossips then
                  p'.pending == p.pending + Letters(|p.processed|, |p.s.replicas|, x, Delta(r.kvs, r.changeSet))
                else p'.pending == p.pending && p'.s.replicas[x].changeSet == r.changeSet)
  {
    Replication.ProcessIsApplyThenGossip(c, p.s.replicas[x], request);
  }

  /** The channel from i to j after a request at x. */
  lemma ChannelServed(c: Config, p: Post, x: nat, request: Store.Request, i: nat, j: nat)
    requires Enabled(c, p, Serve(x, request)) && j < |p.s.replicas| && i != j
    ensures var p', r := Next(c, p, Serve(x, request)), Replication.Applied(p.s.replicas[x], request);
            Channel(p'.pending, i, j) ==
              if x == i && MustGossip(c, r) then Channel(p.pending, i, j) + [Delta(r.kvs, r.changeSet)]
              else Channel(p.pending, i, j)
  {
    ServedPost(c, p, x, request);
    var r := Replication.Applied(p.s.replicas[x], request);
    if MustGossip(c, r) {
      var ls := Letters(|p.processed|, |p.s.replicas|, x, Delta(r.kvs, r.changeSet));
      ChannelConcat(p.pending, ls, i, j);
      ChannelOfLetters(|p.processed|, |p.s.replicas|, x, Delta(r.kvs, r.changeSet), i, j);
    }
  }

  lemma AppliedGrows(c: Config, p: Post, x: nat, request: Store.Request, accepted: seq<Replication.Write>)
    requires Invariant(c, p) && x < |p.s.replicas| && Replication.AllGenuine(accepted, p.s.replicas[x].kvs)
    ensures Replication.GrownBy(p.s.replicas[x], Replication.Applied(p.s.replicas[x], request), x,
                                Replication.WritesOf(x, request), accepted)
  {
    Replication.RequestGrows(p.s.replicas[x], x, request, accepted);
  }

  /** What is free of the batch at j stays so through a request there. */
  lemma FreeAfterServe(c: Config, p: Post, x: nat, request: Store.Request, j: nat, others: seq<Replication.Write>)
    requires Invariant(c, p) && Enabled(c, p, Serve(x, request)) && j < |p.s.replicas|
    requires Replication.AllGenuine(others, p.s.replicas[j].kvs)
    ensures j < |Next(c, p, Serve(x, request)).s.replicas|
    ensures Replication.AllGenuine(others + Replication.WritesOf(x, request),
                                   Next(c, p, Serve(x, request)).s.replicas[j].kvs)
  {
    ServedPost(c, p, x, request);
    if x == j {
      AppliedGrows(c, p, x, request, others);
    } else {
      Replication.GenuineExtends(others, Replication.WritesOf(x, request), p.s.replicas[j].kvs);
    }
  }

  /** And the channel keeps delivering other writes first and the whole batch then. */
  lemma ArrivingAfterServe(
      c: Config, p: Post, x: nat, request: Store.Request, i: nat, j: nat, others: seq<Replication.Write>, t: int,
      pairs: seq<(Key, string)>, kept: bool)
    requires Invariant(c, p) && Enabled(c, p, Serve(x, request)) && i < |p.s.replicas| && j < |p.s.replicas| && i != j
    requires Arriving(Channel(p.pending, i, j), others, t, pairs, kept)
    requires x == i ==> (kept ==> Kept(Replication.Applied(p.s.replicas[i], request).changeSet, pairs))
                        && Covers(Replication.Applied(p.s.replicas[i], request).kvs, t, pairs)
    requires x != i ==> (kept ==> Kept(p.s.replicas[i].changeSet, pairs))
    ensures var p' := Next(c, p, Serve(x, request));
            && i < |p'.s.replicas|
            && Arriving(Channel(p'.pending, i, j), others + Replication.WritesOf(x, request), t, pairs,
                        Kept(p'.s.replicas[i].changeSet, pairs))
  {
    var ws, ch := Replication.WritesOf(x, request), Channel(p.pending, i, j);
    ServedPost(c, p, x, request);
    ChannelServed(c, p, x, request, i, j);
    var p', r := Next(c, p, Serve(x, request)), Replication.Applied(p.s.replicas[x], request);
    if x == i && MustGossip(c, r) {
      if kept { DeltaCovers(r.kvs, r.changeSet, t, pairs); }
      ArrivingMore(ch, others, t, pairs, kept, Delta(r.kvs, r.changeSet), Kept(p'.s.replicas[i].changeSet, pairs));
      ArrivingLater(ch + [Delta(r.kvs, r.changeSet)], others, ws, t, pairs, Kept(p'.s.replicas[i].changeSet, pairs),
                    Kept(p'.s.replicas[i].changeSet, pairs));
    } else {
      ArrivingLater(ch, others, ws, t, pairs, kept, Kept(p'.s.replicas[i].changeSet, pairs));
    }
  }

  lemma PostGrows(c: Config, p: Post, a: Act, y: nat)
    requires Invariant(c, p) && Enabled(c, p, a) && y < |p.s.replicas|
    ensures |Next(c, p, a).s.replicas| == |p.s.replicas|
    ensures Below(p.s.replicas[y].kvs, Next(c, p, a).s.replicas[y].kvs)
  {
    Replication.NextGrows(c, p.s, Plain(p, a), y);
  }

  lemma ServeKeepsOnItsWay(
      c: Config, p: Post, x: nat, request: Store.Request, i: nat, j: nat, from: nat, t: int, pairs: seq<(Key, string)>)
    requires Invariant(c, p) && Enabled(c, p, Serve(x, request)) && i != j && OnItsWay(p, i, j, from, t, pairs)
    ensures OnItsWay(Next(c, p, Serve(x, request)), i, j, from, t, pairs)
  {
    var a := Serve(x, request);
    var p', others := Next(c, p, a), Others(p.s.accepted, from, |pairs|);
    PostGrows(c, p, a, i);
    PostGrows(c, p, a, j);
    ServedPost(c, p, x, request);
    CoversGrows(p.s.replicas[i].kvs, p'.s.replicas[i].kvs, t, pairs);
    OthersMore(p.s.accepted, from, |pairs|, Replication.WritesOf(x, request));
    if Covers(p.s.replicas[j].kvs, t, pairs) {
      CoversGrows(p.s.replicas[j].kvs, p'.s.replicas[j].kvs, t, pairs);
    } else {
      FreeAfterServe(c, p, x, request, j, others);
      AppliedKeeps(c, p, x, request);
      ArrivingAfterServe(c, p, x, request, i, j, others, t, pairs, Kept(p.s.replicas[i].changeSet, pairs));
    }
  }

  lemma AppliedKeeps(c: Config, p: Post, x: nat, request: Store.Request)
    requires Invariant(c, p) && x < |p.s.replicas|
    ensures p.s.replicas[x].changeSet <= Replication.Applied(p.s.replicas[x], request).changeSet
  {
    AppliedGrows(c, p, x, request, p.s.accepted);
  }

  lemma HandedPost(c: Config, p: Post, k: nat)
    requires Enabled(c, p, Hand(k))
    ensures var p', m := Next(c, p, Hand(k)), p.pending[k].message;
            && p'.pending == Without(p.pending, k) && p'.s.accepted == p.s.accepted && m.to < |p.s.replicas|
            && p'.s.replicas == p.s.replicas[m.to := Receive(p.s.replicas[m.to], m.db)]
  {
  }

  /** Server j hears of something from i, */
  lemma HandToReceiver(c: Config, p: Post, k: nat, i: nat, j: nat, from: nat, t: int, pairs: seq<(Key, string)>)
    requires Invariant(c, p) && Enabled(c, p, Hand(k)) && Oldest(p.pending, k) && IsFrom(p.pending[k], i, j)
    requires i != j && i < |p.s.replicas| && j < |p.s.replicas| && AllOrNothing(p, i, j, from, t, pairs)
    requires !Covers(p.s.replicas[j].kvs, t, pairs)
    ensures |Next(c, p, Hand(k)).s.replicas| == |p.s.replicas|
    ensures AllOrNothing(Next(c, p, Hand(k)), i, j, from, t, pairs)
  {
    var p', db := Next(c, p, Hand(k)), p.pending[k].message.db;
    HandedPost(c, p, k);
    ChannelWithout(p.pending, k, i, j);
    BatchStep(p.s.replicas[j].kvs, db, Channel(p'.pending, i, j), Others(p.s.accepted, from, |pairs|), t, pairs,
              Kept(p.s.replicas[i].changeSet, pairs));
  }

  /** or another server hears of something. */
  lemma HandElsewhere(c: Config, p: Post, k: nat, i: nat, j: nat, from: nat, t: int, pairs: seq<(Key, string)>)
    requires Invariant(c, p) && Enabled(c, p, Hand(k)) && Oldest(p.pending, k) && p.pending[k].message.to != j
    requires i != j && i < |p.s.replicas| && j < |p.s.replicas| && AllOrNothing(p, i, j, from, t, pairs)
    ensures |Next(c, p, Hand(k)).s.replicas| == |p.s.replicas|
    ensures AllOrNothing(Next(c, p, Hand(k)), i, j, from, t, pairs)
  {
    HandedPost(c, p, k);
    ChannelWithout(p.pending, k, i, j);
  }

  lemma OnlyOtherSender(c: Config, p: Post, k: nat, i: nat, j: nat)
    requires Invariant(c, p) && c.numThreads == 2 && k < |p.pending| && p.pending[k].message.to == j
    requires i != j && i < 2 && j < 2
    ensures p.pending[k].from == i
  {
    assert p.pending[k] in p.pending;
  }

  lemma HandKeepsOnItsWay(
      c: Config, p: Post, k: nat, i: nat, j: nat, from: nat, t: int, pairs: seq<(Key, string)>)
    requires Invariant(c, p) && c.numThreads == 2 && Enabled(c, p, Hand(k)) && Oldest(p.pending, k)
    requires i != j && OnItsWay(p, i, j, from, t, pairs)
    ensures OnItsWay(Next(c, p, Hand(k)), i, j, from, t, pairs)
  {
    var p' := Next(c, p, Hand(k));
    PostGrows(c, p, Hand(k), i);
    PostGrows(c, p, Hand(k), j);
    HandedPost(c, p, k);
    CoversGrows(p.s.replicas[i].kvs, p'.s.replicas[i].kvs, t, pairs);
    if Covers(p.s.replicas[j].kvs, t, pairs) {
      CoversGrows(p.s.replicas[j].kvs, p'.s.replicas[j].kvs, t, pairs);
    } else if p.pending[k].message.to == j {
      OnlyOtherSender(c, p, k, i, j);
      HandToReceiver(c, p, k, i, j, from, t, pairs);
    } else {
      HandElsewhere(c, p, k, i, j, from, t, pairs);
    }
  }

  lemma BatchStep(
      kvs: Database, db: Database, rest: seq<Database>, others: seq<Replication.Write>, t: int,
      pairs: seq<(Key, string)>, kept: bool)
    requires Replication.AllGenuine(others, kvs) && Arriving([db] + rest, others, t, pairs, kept)
    ensures || Covers(JoinDatabase(kvs, db), t, pairs)
            || (Replication.AllGenuine(others, JoinDatabase(kvs, db)) && Arriving(rest, others, t, pairs, kept))
  {
    assert ([db] + rest)[1..] == rest;
    if Covers(db, t, pairs) {
      JoinIsLub(kvs, db, db);
      CoversGrows(db, JoinDatabase(kvs, db), t, pairs);
    } else {
      Replication.GenuineJoin(others, kvs, db);
    }
  }

  /** When the batch has just been accepted nothing of it is elsewhere. */
  lemma BatchStarts(c: Config, p: Post, i: nat, j: nat, t: int, pairs: seq<(Key, string)>)
    requires Invariant(c, p) && i < |p.s.replicas| && j < |p.s.replicas| && i != j
    ensures OnItsWay(BatchServed(c, p, i, t, pairs), i, j, |p.s.accepted|, t, pairs)
  {
    var request, old_ := Put(t, pairs), p.s.accepted;
    var ws, r := Replication.WritesOf(i, request), Replication.Applied(p.s.replicas[i], request);
    var p' := BatchServed(c, p, i, t, pairs);
    ServedPost(c, p, i, request);
    AppliedGrows(c, p, i, request, old_);
    BatchCovered(r, i, t, pairs);
    assert Others(p'.s.accepted, |old_|, |pairs|) == old_ by {
      assert (old_ + ws)[..|old_|] == old_ && (old_ + ws)[|old_| + |pairs|..] == [];
    }
    ChannelFree(c, p, i, j);
    ArrivingFree(Channel(p.pending, i, j), old_, t, pairs);
    StartsArriving(c, p, i, j, t, pairs);
  }

  lemma BatchCovered(r: Replica, i: nat, t: int, pairs: seq<(Key, string)>)
    requires forall w :: w in Replication.Writes(i, t, pairs) ==> w.key in r.changeSet && Replication.Reached(w, r.kvs)
    ensures Covers(r.kvs, t, pairs) && Kept(r.changeSet, pairs)
  {
    forall p | p in pairs ensures p.0 in r.changeSet && p.0 in r.kvs && EntryLeq(EntryOf(t, p), r.kvs[p.0]) {
      var x :| 0 <= x < |pairs| && pairs[x] == p;
      assert Replication.Writes(i, t, pairs)[x] in Replication.Writes(i, t, pairs);
    }
  }

  lemma ChannelFree(c: Config, p: Post, i: nat, j: nat)
    requires Invariant(c, p)
    ensures forall x :: 0 <= x < |Channel(p.pending, i, j)| ==>
              Replication.AllGenuine(p.s.accepted, Channel(p.pending, i, j)[x])
  {
    forall x | 0 <= x < |Channel(p.pending, i, j)|
      ensures Replication.AllGenuine(p.s.accepted, Channel(p.pending, i, j)[x])
    {
      ChannelMembers(p.pending, i, j, x);
      var l :| l in p.pending && l.message.db == Channel(p.pending, i, j)[x];
      var k :| 0 <= k < |p.pending| && p.pending[k] == l;
      MessagesWithout(p.pending, k);
      assert l.message in p.s.inflight;
    }
  }

  lemma StartsArriving(c: Config, p: Post, i: nat, j: nat, t: int, pairs: seq<(Key, string)>)
    requires Invariant(c, p) && i < |p.s.replicas| && j < |p.s.replicas| && i != j
    requires Arriving(Channel(p.pending, i, j), p.s.accepted, t, pairs, true)
    requires var r := Replication.Applied(p.s.replicas[i], Put(t, pairs));
             Covers(r.kvs, t, pairs) && Kept(r.changeSet, pairs)
    ensures var p' := BatchServed(c, p, i, t, pairs);
            && i < |p'.s.replicas|
            && Arriving(Channel(p'.pending, i, j), p.s.accepted, t, pairs, Kept(p'.s.replicas[i].changeSet, pairs))
  {
    var r, p' := Replication.Applied(p.s.replicas[i], Put(t, pairs)), BatchServed(c, p, i, t, pairs);
    ServedPost(c, p, i, Put(t, pairs));
    ChannelServed(c, p, i, Put(t, pairs), i, j);
    if MustGossip(c, r) {
      DeltaCovers(r.kvs, r.changeSet, t, pairs);
      ArrivingMore(Channel(p.pending, i, j), p.s.accepted, t, pairs, true, Delta(r.kvs, r.changeSet),
                   Kept(p'.s.replicas[i].changeSet, pairs));
    }
  }

  lemma {:induction false} RunKeepsOnItsWay(
      c: Config, p: Post, acts: seq<Act>, i: nat, j: nat, from: nat, t: int, pairs: seq<(Key, string)>)
    requires Invariant(c, p) && c.numThreads == 2 && i != j && OnItsWay(p, i, j, from, t, pairs)
    requires RunFrom(c, true, p, acts).Some?
    ensures OnItsWay(RunFrom(c, true, p, acts).value, i, j, from, t, pairs)
    decreases |acts|
  {
    if acts != [] {
      match acts[0] {
        case Serve(x, request) => ServeKeepsOnItsWay(c, p, x, request, i, j, from, t, pairs);
        case Hand(k) => HandKeepsOnItsWay(c, p, k, i, j, from, t, pairs);
      }
      NextKeepsInvariant(c, p, acts[0]);
      RunKeepsOnItsWay(c, Next(c, p, acts[0]), acts[1..], i, j, from, t, pairs);
    }
  }

  lemma OnItsWayIsWhole(p: Post, i: nat, j: nat, from: nat, t: int, pairs: seq<(Key, string)>)
    requires OnItsWay(p, i, j, from, t, pairs)
    ensures WholeAt(p.s, j, from, t, pairs)
  {
    var others, db := Others(p.s.accepted, from, |pairs|), p.s.replicas[j].kvs;
    if Sole(p.s.accepted, from, t, pairs) && !Covers(db, t, pairs) {
      forall q | q in pairs && q.0 in db ensures db[q.0] != EntryOf(t, q) {
        assert Replication.Genuine(others, q.0, db[q.0]);
      }
    }
  }

  lemma BatchKeepsInvariant(c: Config, p: Post, i: nat, t: int, pairs: seq<(Key, string)>)
    requires Invariant(c, p) && i < |p.s.replicas|
    ensures Invariant(c, BatchServed(c, p, i, t, pairs))
  {
    NextKeepsInvariant(c, p, Serve(i, Put(t, pairs)));
  }

  lemma TwoServers(c: Config, p: Post, i: nat, j: nat, t: int, pairs: seq<(Key, string)>, acts: seq<Act>)
    requires ReachableInOrder(c, p) && c.numThreads == 2 && i < 2 && j < 2 && i != j
    requires i < |p.s.replicas| && RunFrom(c, true, BatchServed(c, p, i, t, pairs), acts).Some?
    ensures WholeAt(RunFrom(c, true, BatchServed(c, p, i, t, pairs), acts).value.s, j, |p.s.accepted|, t, pairs)
  {
    ReachableIsInvariant(c, p);
    BatchStarts(c, p, i, j, t, pairs);
    BatchKeepsInvariant(c, p, i, t, pairs);
    RunKeepsOnItsWay(c, BatchServed(c, p, i, t, pairs), acts, i, j, |p.s.accepted|, t, pairs);
    OnItsWayIsWhole(RunFrom(c, true, BatchServed(c, p, i, t, pairs), acts).value, i, j, |p.s.accepted|, t, pairs);
  }

  lemma AtTheSameServer(c: Config, p: Post, i: nat, t: int, pairs: seq<(Key, string)>, acts: seq<Act>)
    requires ReachableInOrder(c, p) && i < |p.s.replicas|
    requires RunFrom(c, true, BatchServed(c, p, i, t, pairs), acts).Some?
    ensures WholeAt(RunFrom(c, true, BatchServed(c, p, i, t, pairs), acts).value.s, i, |p.s.accepted|, t, pairs)
  {
    var p' := BatchServed(c, p, i, t, pairs);
    ReachableIsInvariant(c, p);
    PostsAreRuns(c, true, p', acts);
    OwnBatchWhole(c, p.s, i, t, pairs, PlainAll(c, p', acts));
  }

  // ------------------------------------------------------------- a third server

  /** The place of a receiver's letter in a broadcast. */
  function Place(from: nat, to: nat): nat
    requires to != from
  {
    if to < from then to else to - 1
  }

  lemma {:induction false} LetterPlaces(id: nat, n: nat, from: nat, db: Database, to: nat)
    requires to < n && to != from
    ensures var ls := Letters(id, n, from, db);
            && |ls| == (if from < n then n - 1 else n) && Place(from, to) < |ls|
            && ls[Place(from, to)] == Letter(id, from, Replication.Message(to, db))
    ensures Oldest(Letters(id, n, from, db), Place(from, to))
  {
    var ls := Letters(id, n, from, db);
    LettersInOrder(id, n, from, db);
    assert forall q :: 0 <= q < Place(from, to) ==> ls[q].message.to != to;
  }

  lemma {:induction false} LettersInOrder(id: nat, n: nat, from: nat, db: Database)
    ensures var ls := Letters(id, n, from, db);
            && |ls| == (if from < n then n - 1 else n)
            && forall q :: 0 <= q < |ls| ==>
                 ls[q] == Letter(id, from, Replication.Message(if q < from then q else q + 1, db))
  {
    if n > 0 { LettersInOrder(id, n - 1, from, db); }
  }

  lemma Prepend(c: Config, p: Post, a: Act, rest: seq<Act>, end: Post)
    requires Enabled(c, p, a) && InOrder(p, a) && RunFrom(c, true, Next(c, p, a), rest) == Some(end)
    ensures RunFrom(c, true, p, [a] + rest) == Some(end)
  {
    assert ([a] + rest)[1..] == rest;
  }

  /** A letter is handed over to a server that had nothing. */
  lemma HandFirst(c: Config, p: Post, k: nat, x: nat)
    requires k < |p.pending| && p.pending[k].id < |p.processed| && p.pending[k].message.to == x < |p.s.replicas|
    requires p.pending[k].message in p.s.inflight && p.s.replicas[x] == InitialReplica(x)
    ensures Enabled(c, p, Hand(k))
    ensures var p' := Next(c, p, Hand(k));
            && p'.s.replicas == p.s.replicas[x := InitialReplica(x).(kvs := p.pending[k].message.db)]
            && p'.s.accepted == p.s.accepted && p'.pending == Without(p.pending, k)
            && |p'.processed| == |p.processed|
  {
    assert JoinDatabase(map[], p.pending[k].message.db) == p.pending[k].message.db;
  }

  lemma BatchPosted(c: Config, i: nat) returns (p: Post)
    requires i < c.numThreads && c.numThreads != 1
    ensures p == BatchServed(c, Init(c), i, 1, Batch(Enough(c)))
    ensures p.pending == Letters(0, c.numThreads, i, BOTH) && |p.processed| == 1
    ensures |p.s.replicas| == c.numThreads && p.s.inflight == Replication.Broadcast(c.numThreads, i, BOTH)
    ensures forall j: nat :: j < c.numThreads && j != i ==> p.s.replicas[j] == InitialReplica(j)
    ensures p.s.accepted == Replication.Writes(i, 1, Batch(Enough(c)))
  {
    BatchGossips(c, InitialReplica(i));
    var s := BatchAccepted(c, i);
    p := BatchServed(c, Init(c), i, 1, Batch(Enough(c)));
    assert p.pending == [] + Letters(0, c.numThreads, i, BOTH);
  }

  /** Server x hears of the batch, */
  lemma ThirdHears(c: Config, p: Post, i: nat, x: nat) returns (k: nat, p': Post)
    requires p.pending == Letters(0, c.numThreads, i, BOTH) && |p.processed| == 1
    requires i < c.numThreads && x < c.numThreads && x != i && |p.s.replicas| == c.numThreads
    requires p.s.inflight == Replication.Broadcast(c.numThreads, i, BOTH) && p.s.replicas[x] == InitialReplica(x)
    ensures Enabled(c, p, Hand(k)) && InOrder(p, Hand(k)) && p' == Next(c, p, Hand(k))
    ensures p'.s.replicas == p.s.replicas[x := InitialReplica(x).(kvs := BOTH)] && p'.s.accepted == p.s.accepted
    ensures |p'.processed| == 1 && forall l :: l in p'.pending ==> l.from == i
  {
    k := Place(i, x);
    LetterPlaces(0, c.numThreads, i, BOTH, x);
    HandFirst(c, p, k, x);
    p' := Next(c, p, Hand(k));
  }

  /** accepts the older puts, */
  lemma ThirdServes(c: Config, p: Post, x: nat, j: nat) returns (p': Post)
    requires |p.s.replicas| == c.numThreads != 1 && x < c.numThreads && j < c.numThreads && x != j
    requires p.s.replicas[x] == InitialReplica(x).(kvs := BOTH) && |p.processed| == 1
    ensures var a := Serve(x, Put(0, Older(Enough(c)))); Enabled(c, p, a) && p' == Next(c, p, a)
    ensures p'.s.replicas == p.s.replicas && Replication.Message(j, ONE) in p'.s.inflight
    ensures p'.s.accepted == p.s.accepted + Replication.Writes(x, 0, Older(Enough(c)))
    ensures p'.pending == p.pending + Letters(1, c.numThreads, x, ONE) && |p'.processed| == 2
  {
    OlderGossips(c, p.s.replicas[x]);
    var s := OlderAccepted(c, p.s, x, j);
    p' := Next(c, p, Serve(x, Put(0, Older(Enough(c)))));
  }

  /** and server j hears of these before it hears of the batch. */
  lemma LastHears(c: Config, p: Post, before: seq<Letter>, i: nat, x: nat, j: nat) returns (k: nat, p': Post)
    requires p.pending == before + Letters(1, c.numThreads, x, ONE) && |p.processed| == 2
    requires forall l :: l in before ==> l.from == i
    requires x < c.numThreads && j < c.numThreads == |p.s.replicas| && x != j && x != i
    requires p.s.replicas[j] == InitialReplica(j) && Replication.Message(j, ONE) in p.s.inflight
    ensures Enabled(c, p, Hand(k)) && InOrder(p, Hand(k)) && p' == Next(c, p, Hand(k))
    ensures p'.s.replicas == p.s.replicas[j := InitialReplica(j).(kvs := ONE)] && p'.s.accepted == p.s.accepted
  {
    var ls := Letters(1, c.numThreads, x, ONE);
    LetterPlaces(1, c.numThreads, x, ONE, j);
    k := |before| + Place(x, j);
    assert p.pending[k] == ls[Place(x, j)];
    forall l | 0 <= l < k ensures !(p.pending[l].from == x && p.pending[l].message.to == j) {
      if l < |before| {
        assert p.pending[l] == before[l] && before[l] in before;
      } else {
        assert p.pending[l] == ls[l - |before|];
      }
    }
    HandFirst(c, p, k, j);
    p' := Next(c, p, Hand(k));
  }

  /** The batch of server i has been published and nothing else has happened. */
  predicate JustPosted(c: Config, p: Post, i: nat) {
    && i < c.numThreads == |p.s.replicas|
    && p.pending == Letters(0, c.numThreads, i, BOTH) && |p.processed| == 1
    && p.s.inflight == Replication.Broadcast(c.numThreads, i, BOTH)
    && (forall j :: 0 <= j < c.numThreads && j != i ==> p.s.replicas[j] == InitialReplica(j))
    && p.s.accepted == Replication.Writes(i, 1, Batch(Enough(c)))
  }

  /** What is left to do once server x has heard of the batch. */
  lemma ThenPartSeen(c: Config, p: Post, i: nat, j: nat, x: nat) returns (acts: seq<Act>, end: Post)
    requires |p.s.replicas| == c.numThreads != 1 && j < c.numThreads && x < c.numThreads
    requires i != j && x != i && x != j && |p.processed| == 1
    requires p.s.replicas[x] == InitialReplica(x).(kvs := BOTH) && p.s.replicas[j] == InitialReplica(j)
    requires forall l :: l in p.pending ==> l.from == i
    ensures RunFrom(c, true, p, acts) == Some(end)
    ensures |end.s.replicas| == c.numThreads && end.s.replicas[j].kvs == ONE
    ensures end.s.accepted == p.s.accepted + Replication.Writes(x, 0, Older(Enough(c)))
  {
    var p3 := ThirdServes(c, p, x, j);
    var k, p4 := LastHears(c, p3, p.pending, i, x, j);
    Prepend(c, p3, Hand(k), [], p4);
    Prepend(c, p, Serve(x, Put(0, Older(Enough(c)))), [Hand(k)] + [], p4);
    acts, end := [Serve(x, Put(0, Older(Enough(c))))] + ([Hand(k)] + []), p4;
  }

  lemma PartSeen(c: Config, p: Post, i: nat, j: nat, x: nat) returns (acts: seq<Act>, end: Post)
    requires JustPosted(c, p, i) && j < c.numThreads && x < c.numThreads && i != j && x != i && x != j
    ensures RunFrom(c, true, p, acts) == Some(end)
    ensures |end.s.replicas| == c.numThreads && end.s.replicas[j].kvs == ONE
    ensures end.s.accepted == Replication.Writes(i, 1, Batch(Enough(c))) + Replication.Writes(x, 0, Older(Enough(c)))
  {
    var k, p2 := ThirdHears(c, p, i, x);
    var rest;
    rest, end := ThenPartSeen(c, p2, i, j, x);
    Prepend(c, p, Hand(k), rest, end);
    acts := [Hand(k)] + rest;
  }

  lemma ThreeServers(c: Config, i: nat, j: nat) returns (acts: seq<Act>)
    requires i < c.numThreads && j < c.numThreads && i != j && c.numThreads >= 3
    ensures var p := BatchServed(c, Init(c), i, 1, Batch(Enough(c)));
            && RunFrom(c, true, p, acts).Some?
            && !WholeAt(RunFrom(c, true, p, acts).value.s, j, 0, 1, Batch(Enough(c)))
  {
    var x: nat := if i != 0 && j != 0 then 0 else if i != 1 && j != 1 then 1 else 2;
    var p := BatchPosted(c, i);
    var end;
    acts, end := PartSeen(c, p, i, j, x);
    OlderIsOther(Enough(c), i, x);
    OnlyOnePart(Enough(c));
    PartIsNotWhole(end.s, j, Batch(Enough(c)));
  }

  lemma PartIsNotWhole(s: Replication.System, j: nat, pairs: seq<(Key, string)>)
    requires j < |s.replicas| && s.replicas[j].kvs == ONE && !Whole(ONE, 1, pairs) && Sole(s.accepted, 0, 1, pairs)
    ensures !WholeAt(s, j, 0, 1, pairs)
  {
  }

  // --------------------------------------------------------------------- exactly

  lemma NotWholeInOrder(c: Config, p: Post, i: nat, j: nat, t: int, pairs: seq<(Key, string)>, acts: seq<Act>)
    requires ReachableInOrder(c, p) && i < |p.s.replicas|
    requires RunFrom(c, true, BatchServed(c, p, i, t, pairs), acts).Some?
    requires !WholeAt(RunFrom(c, true, BatchServed(c, p, i, t, pairs), acts).value.s, j, |p.s.accepted|, t, pairs)
    ensures !BatchesWholeInOrder(c, i, j)
  {
  }

  /** Batches of server i are seen whole at server j if and only if i is j or there are no more
      than two servers: a third can pass on a part. */
  lemma BatchesWholeInOrderIff(c: Config, i: nat, j: nat)
    requires i < c.numThreads && j < c.numThreads
    ensures BatchesWholeInOrder(c, i, j) <==> i == j || c.numThreads <= 2
  {
    if i == j || c.numThreads <= 2 {
      forall p, t, pairs, acts |
        ReachableInOrder(c, p) && i < |p.s.replicas| && RunFrom(c, true, BatchServed(c, p, i, t, pairs), acts).Some?
        ensures WholeAt(RunFrom(c, true, BatchServed(c, p, i, t, pairs), acts).value.s, j, |p.s.accepted|, t, pairs)
      {
        if i == j {
          AtTheSameServer(c, p, i, t, pairs, acts);
        } else {
          TwoServers(c, p, i, j, t, pairs, acts);
        }
      }
    } else {
      var acts := ThreeServers(c, i, j);
      assert RunFrom(c, true, Init(c), []) == Some(Init(c));
      NotWholeInOrder(c, Init(c), i, j, 1, Batch(Enough(c)), acts);
    }
  }
}
