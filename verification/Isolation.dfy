/** Clients and servers together: READ COMMITTED and Item Cut Isolation clients talk to the
    gossiping servers, any request going to any server. */
module Isolation {
  import opened Options
  import opened Decimals
  import opened Store
  import opened Clients
  import Replication

  /** What clients did, in order: an accepted put went into a write buffer; an end sent the
      buffer off under a timestamp. History only. */
  datatype Event =
    | Wrote(client: nat, key: Key, value: string)
    | Ended(client: nat, timestamp: int)

  datatype World = World(
    system: Replication.System,
    sessions: seq<Session>,
    log: seq<Event>)

  /** `server` is the one the broker picks; `pairs` the order in which the write buffer's
      hash table is read out. A request and its reply form one step, since a client waits
      for the reply before it does anything else. */
  datatype Action =
    | Begin(client: nat, server: nat)
    | Get(client: nat, server: nat, key: Key)
    | Put(client: nat, key: Key, value: string)
    | End(client: nat, server: nat, pairs: seq<(Key, string)>)
    | Network(action: Replication.Action)

  /** `caching[i]` says whether client i is an Item Cut Isolation client. */
  datatype Setting = Setting(config: Config, caching: seq<bool>)

  function Init(c: Setting): World {
    World(Replication.Init(c.config), seq(|c.caching|, i requires 0 <= i => InitialSession), [])
  }

  /** Whether the action involves a server at all. */
  predicate Sends(w: World, a: Action)
    requires a.Network? || a.client < |w.sessions|
  {
    !a.Put? && (a.Get? ==> !Buffered(w.sessions[a.client], a.key))
  }

  function RequestOf(w: World, a: Action): Replication.Action
    requires a.Network? || a.client < |w.sessions|
    requires Sends(w, a)
  {
    match a
    case Begin(_, server) => Replication.Request(server, BeginTransaction)
    case Get(_, server, key) => Replication.Request(server, Request.Get(key))
    case End(client, server, pairs) =>
      Replication.Request(server, Request.Put(w.sessions[client].currentTimestamp, pairs))
    case Network(action) => action
  }

  ghost predicate Enabled(c: Setting, w: World, a: Action) {
    && (if a.Network? then !a.action.Request?
        else a.client < |w.sessions| && a.client < |c.caching|)
    && (a.End? ==> Enumerates(a.pairs, w.sessions[a.client].writeBuffer))
    && (Sends(w, a) ==> Replication.Enabled(c.config, w.system, RequestOf(w, a)))
  }

  function Reply(c: Setting, w: World, a: Action): Response
    requires !a.Network? && a.client < |w.sessions| && Sends(w, a)
    requires Replication.Enabled(c.config, w.system, RequestOf(w, a))
  {
    Process(c.config, w.system.replicas[a.server], RequestOf(w, a).request).response
  }

  /** What the action adds to the log. */
  function EventsOf(w: World, a: Action): seq<Event>
    requires a.Network? || a.client < |w.sessions|
  {
    if a.Put? && Accepts(w.sessions[a.client]) then [Wrote(a.client, a.key, a.value)]
    else if a.End? then [Ended(a.client, w.sessions[a.client].currentTimestamp)]
    else []
  }

  ghost function SessionAfter(c: Setting, w: World, a: Action): Session
    requires Enabled(c, w, a) && !a.Network?
  {
    var s := w.sessions[a.client];
    match a
    case Begin(_, _) => AfterBegin(s, Reply(c, w, a))
    case Get(_, _, k) => if Sends(w, a) then AfterGet(c.caching[a.client], s, k, Reply(c, w, a)) else s
    case Put(_, k, v) => AfterPut(s, k, v)
    case End(_, _, _) => AfterEnd(s)
  }

  ghost function Next(c: Setting, w: World, a: Action): World
    requires Enabled(c, w, a)
  {
    World(if Sends(w, a) then Replication.Next(c.config, w.system, RequestOf(w, a)) else w.system,
          if a.Network? then w.sessions else w.sessions[a.client := SessionAfter(c, w, a)],
          w.log + EventsOf(w, a))
  }

  ghost function RunFrom(c: Setting, w: World, actions: seq<Action>): Option<World>
    decreases |actions|
  {
    if actions == [] then Some(w)
    else if Enabled(c, w, actions[0]) then RunFrom(c, Next(c, w, actions[0]), actions[1..])
    else None
  }

  ghost function Run(c: Setting, actions: seq<Action>): Option<World> {
    RunFrom(c, Init(c), actions)
  }

  ghost predicate Reachable(c: Setting, w: World) {
    exists actions :: Run(c, actions) == Some(w)
  }

  lemma {:induction false} RunOneMore(c: Setting, w: World, actions: seq<Action>, t: World, a: Action)
    requires RunFrom(c, w, actions) == Some(t) && Enabled(c, t, a)
    ensures RunFrom(c, w, actions + [a]) == Some(Next(c, t, a))
    decreases |actions|
  {
    var more := actions + [a];
    if actions == [] {
      assert more[0] == a && more[1..] == [];
      assert RunFrom(c, Next(c, t, a), []) == Some(Next(c, t, a));
    } else {
      assert more[0] == actions[0] && more[1..] == actions[1..] + [a];
      RunOneMore(c, Next(c, w, actions[0]), actions[1..], t, a);
    }
  }

  lemma ReachableStep(c: Setting, w: World, a: Action)
    requires Reachable(c, w) && Enabled(c, w, a)
    ensures Reachable(c, Next(c, w, a))
  {
    var actions :| Run(c, actions) == Some(w);
    RunOneMore(c, Init(c), actions, w, a);
    assert Run(c, actions + [a]) == Some(Next(c, w, a));
  }

  // ------------------------------------------------------------------ invariants

  /** Up to position n, v is the last thing the client put for k since its last end. */
  ghost predicate FinalWrite(log: seq<Event>, n: nat, client: nat, k: Key, v: string)
    requires n <= |log|
  {
    exists m :: 0 <= m < n && FinalWriteAt(log, m, n, client, k, v)
  }

  ghost predicate FinalWriteAt(log: seq<Event>, m: nat, n: nat, client: nat, k: Key, v: string)
    requires m < n <= |log|
  {
    && log[m] == Wrote(client, k, v)
    && forall l :: m < l < n ==> !Hides(log[l], client, k)
  }

  /** The event ends the client's transaction or overwrites k in it. */
  predicate Hides(e: Event, client: nat, k: Key) {
    e.client == client && (e.Ended? || e.key == k)
  }

  /** Some client's end under timestamp entry.0 whose transaction last put entry.1 for k. */
  ghost predicate Committed(log: seq<Event>, k: Key, entry: Entry) {
    exists n :: 0 <= n < |log| && CommittedAt(log, n, k, entry)
  }

  ghost predicate CommittedAt(log: seq<Event>, n: nat, k: Key, entry: Entry)
    requires n < |log|
  {
    && log[n].Ended? && log[n].timestamp == entry.0
    && FinalWrite(log, n, log[n].client, k, entry.1)
  }

  /** The write buffer holds exactly the final writes of the client's open transaction. */
  ghost predicate SessionOk(log: seq<Event>, client: nat, s: Session) {
    && -1 <= s.currentTimestamp <= INT_MAX
    && (s.currentTimestamp == -1 ==> s.writeBuffer == map[])
    && (forall k, v :: FinalWrite(log, |log|, client, k, v) <==> k in s.writeBuffer && s.writeBuffer[k] == v)
  }

  /** The servers have accepted exactly what was committed. */
  ghost predicate AcceptedIsCommitted(w: World) {
    forall k, entry :: Replication.Genuine(w.system.accepted, k, entry) <==> Committed(w.log, k, entry)
  }

  ghost predicate TimestampsFit(w: World) {
    forall k, entry :: Committed(w.log, k, entry) ==> 0 <= entry.0 <= INT_MAX
  }

  ghost predicate Invariant(c: Setting, w: World) {
    && Replication.Invariant(c.config, w.system)
    && |w.sessions| == |c.caching|
    && (forall i :: 0 <= i < |w.sessions| ==> SessionOk(w.log, i, w.sessions[i]))
    && AcceptedIsCommitted(w) && TimestampsFit(w)
  }

  // ------------------------------------------------------- one more event in the log

  lemma SameFinalWriteAt(log: seq<Event>, e: Event, m: nat, n: nat, client: nat, k: Key, v: string)
    requires m < n <= |log|
    ensures FinalWriteAt(log + [e], m, n, client, k, v) <==> FinalWriteAt(log, m, n, client, k, v)
  {
    var log' := log + [e];
    assert log'[m] == log[m];
    if FinalWriteAt(log', m, n, client, k, v) {
      forall l | m < l < n ensures !Hides(log[l], client, k) {
        assert log'[l] == log[l] && !Hides(log'[l], client, k);
      }
    }
  }

  lemma EarlierFinalWrites(log: seq<Event>, e: Event, n: nat, client: nat, k: Key, v: string)
    requires n <= |log|
    ensures FinalWrite(log + [e], n, client, k, v) <==> FinalWrite(log, n, client, k, v)
  {
    forall m: nat | m < n
      ensures FinalWriteAt(log + [e], m, n, client, k, v) <==> FinalWriteAt(log, m, n, client, k, v)
    {
      SameFinalWriteAt(log, e, m, n, client, k, v);
    }
  }

  lemma LatestFinalWrites(log: seq<Event>, e: Event, client: nat, k: Key, v: string)
    ensures FinalWrite(log + [e], |log + [e]|, client, k, v) <==>
              e == Wrote(client, k, v) || (FinalWrite(log, |log|, client, k, v) && !Hides(e, client, k))
  {
    var log', n := log + [e], |log|;
    assert log'[n] == e;
    if FinalWrite(log', n + 1, client, k, v) {
      var m :| 0 <= m < n + 1 && FinalWriteAt(log', m, n + 1, client, k, v);
      if m < n {
        assert FinalWriteAt(log', m, n, client, k, v) && !Hides(log'[n], client, k);
        SameFinalWriteAt(log, e, m, n, client, k, v);
      }
    }
    if e == Wrote(client, k, v) {
      assert FinalWriteAt(log', n, n + 1, client, k, v);
    } else if FinalWrite(log, n, client, k, v) && !Hides(e, client, k) {
      var m :| 0 <= m < n && FinalWriteAt(log, m, n, client, k, v);
      SameFinalWriteAt(log, e, m, n, client, k, v);
      assert FinalWriteAt(log', m, n + 1, client, k, v);
    }
  }

  lemma MoreCommitted(log: seq<Event>, e: Event, k: Key, entry: Entry)
    ensures Committed(log + [e], k, entry) <==>
              || Committed(log, k, entry)
              || (e.Ended? && e.timestamp == entry.0 && FinalWrite(log, |log|, e.client, k, entry.1))
  {
    var log' := log + [e];
    forall n: nat | n < |log| ensures CommittedAt(log', n, k, entry) <==> CommittedAt(log, n, k, entry) {
      EarlierFinalWrites(log, e, n, log[n].client, k, entry.1);
    }
    EarlierFinalWrites(log, e, |log|, e.client, k, entry.1);
    assert CommittedAt(log', |log|, k, entry) <==>
      e.Ended? && e.timestamp == entry.0 && FinalWrite(log, |log|, e.client, k, entry.1);
  }

  // ------------------------------------------------------------------- the sessions

  /** An event of one client leaves the others' buffers as they were. */
  lemma SessionSurvives(log: seq<Event>, e: Event, client: nat, s: Session)
    requires SessionOk(log, client, s) && e.client != client
    ensures SessionOk(log + [e], client, s)
  {
    forall k, v
      ensures FinalWrite(log + [e], |log + [e]|, client, k, v) <==> k in s.writeBuffer && s.writeBuffer[k] == v
    {
      LatestFinalWrites(log, e, client, k, v);
      assert FinalWrite(log, |log|, client, k, v) <==> k in s.writeBuffer && s.writeBuffer[k] == v;
    }
  }

  lemma PutKeepsSession(log: seq<Event>, client: nat, s: Session, k: Key, v: string)
    requires SessionOk(log, client, s) && Accepts(s)
    ensures SessionOk(log + [Wrote(client, k, v)], client, AfterPut(s, k, v))
  {
    var e, b := Wrote(client, k, v), AfterPut(s, k, v).writeBuffer;
    forall q, u
      ensures FinalWrite(log + [e], |log + [e]|, client, q, u) <==> q in b && b[q] == u
    {
      LatestFinalWrites(log, e, client, q, u);
      assert FinalWrite(log, |log|, client, q, u) <==> q in s.writeBuffer && s.writeBuffer[q] == u;
    }
  }

  lemma EndKeepsSession(log: seq<Event>, client: nat, s: Session)
    requires SessionOk(log, client, s)
    ensures SessionOk(log + [Ended(client, s.currentTimestamp)], client, AfterEnd(s))
  {
    var e := Ended(client, s.currentTimestamp);
    forall q, u ensures !FinalWrite(log + [e], |log + [e]|, client, q, u) {
      LatestFinalWrites(log, e, client, q, u);
    }
  }

  /** A begin reply of this server is a non-negative int, so it survives the client's int. */
  lemma BeginKeepsSession(c: Config, r: Replica, log: seq<Event>, client: nat, s: Session)
    requires SessionOk(log, client, s) && Process(c, r, BeginTransaction).Done?
    ensures SessionOk(log, client, AfterBegin(s, Process(c, r, BeginTransaction).response))
  {
    var t := BeginTimestamp(r.localTimestamp, r.threadId);
    assert t.Some? && 0 <= t.value <= INT_MAX;
    assert ToInt32(t.value) == t.value;
  }

  lemma OwnSession(c: Setting, w: World, a: Action)
    requires Invariant(c, w) && Enabled(c, w, a) && !a.Network?
    ensures SessionOk(w.log + EventsOf(w, a), a.client, SessionAfter(c, w, a))
  {
    var s := w.sessions[a.client];
    assert w.log + [] == w.log;
    match a {
      case Begin(_, server) => BeginKeepsSession(c.config, w.system.replicas[server], w.log, a.client, s);
      case Get(_, _, _) =>
      case Put(_, k, v) => if Accepts(s) { PutKeepsSession(w.log, a.client, s, k, v); }
      case End(_, _, _) => EndKeepsSession(w.log, a.client, s);
    }
  }

  lemma NextKeepsSessions(c: Setting, w: World, a: Action, i: nat)
    requires Invariant(c, w) && Enabled(c, w, a) && i < |w.sessions|
    ensures SessionOk(Next(c, w, a).log, i, Next(c, w, a).sessions[i])
  {
    assert w.log + [] == w.log;
    if !a.Network? && a.client == i {
      OwnSession(c, w, a);
    } else if EventsOf(w, a) != [] {
      SessionSurvives(w.log, EventsOf(w, a)[0], i, w.sessions[i]);
    }
  }

  // -------------------------------------------------------------------- the commits

  lemma WritesAreThePairs(server: nat, t: int, pairs: seq<(Key, string)>, m: map<Key, string>, k: Key, entry: Entry)
    requires Enumerates(pairs, m)
    ensures Replication.Genuine(Replication.Writes(server, t, pairs), k, entry) <==>
              k in m && m[k] == entry.1 && entry.0 == ToInt32(t)
  {
    var ws := Replication.Writes(server, t, pairs);
    if k in m {
      var i :| 0 <= i < |pairs| && pairs[i] == (k, m[k]);
      assert ws[i] in ws;
    }
  }

  lemma GenuineInEither(accepted: seq<Replication.Write>, more: seq<Replication.Write>, k: Key, entry: Entry)
    ensures Replication.Genuine(accepted + more, k, entry) <==>
              Replication.Genuine(accepted, k, entry) || Replication.Genuine(more, k, entry)
  {
    if Replication.Genuine(accepted, k, entry) {
      var u :| u in accepted && u.key == k && u.entry == entry;
      assert u in accepted + more;
    }
    if Replication.Genuine(more, k, entry) {
      var u :| u in more && u.key == k && u.entry == entry;
      assert u in accepted + more;
    }
  }

  /** Ending a transaction writes, at the server, exactly its final writes, all of them, under
      its own timestamp; and there is none if it has no timestamp. */
  lemma EndCommits(w: World, a: Action, k: Key, entry: Entry)
    requires a.End? && a.client < |w.sessions| && SessionOk(w.log, a.client, w.sessions[a.client])
    requires Enumerates(a.pairs, w.sessions[a.client].writeBuffer)
    ensures var t := w.sessions[a.client].currentTimestamp;
            && (Replication.Genuine(Replication.Writes(a.server, t, a.pairs), k, entry) <==>
                  entry.0 == t && FinalWrite(w.log, |w.log|, a.client, k, entry.1))
            && (FinalWrite(w.log, |w.log|, a.client, k, entry.1) ==> 0 <= t <= INT_MAX)
  {
    var s := w.sessions[a.client];
    assert ToInt32(s.currentTimestamp) == s.currentTimestamp;
    WritesAreThePairs(a.server, s.currentTimestamp, a.pairs, s.writeBuffer, k, entry);
    assert FinalWrite(w.log, |w.log|, a.client, k, entry.1) <==>
      k in s.writeBuffer && s.writeBuffer[k] == entry.1;
  }

  lemma NextAccepts(c: Setting, w: World, a: Action)
    requires Invariant(c, w) && Enabled(c, w, a)
    ensures Next(c, w, a).system.accepted ==
              if a.End? then
                w.system.accepted + Replication.Writes(a.server, w.sessions[a.client].currentTimestamp, a.pairs)
              else w.system.accepted
  {
    assert w.system.accepted + [] == w.system.accepted;
  }

  lemma NextKeepsCommits(c: Setting, w: World, a: Action, k: Key, entry: Entry)
    requires Invariant(c, w) && Enabled(c, w, a)
    ensures var w' := Next(c, w, a);
            && (Replication.Genuine(w'.system.accepted, k, entry) <==> Committed(w'.log, k, entry))
            && (Committed(w'.log, k, entry) ==> 0 <= entry.0 <= INT_MAX)
  {
    NextAccepts(c, w, a);
    assert w.log + [] == w.log;
    assert Replication.Genuine(w.system.accepted, k, entry) <==> Committed(w.log, k, entry);
    if EventsOf(w, a) != [] { MoreCommitted(w.log, EventsOf(w, a)[0], k, entry); }
    if a.End? {
      EndCommits(w, a, k, entry);
      GenuineInEither(w.system.accepted,
                      Replication.Writes(a.server, w.sessions[a.client].currentTimestamp, a.pairs), k, entry);
    }
  }

  lemma NextKeepsInvariant(c: Setting, w: World, a: Action)
    requires Invariant(c, w) && Enabled(c, w, a)
    ensures Invariant(c, Next(c, w, a))
  {
    var w' := Next(c, w, a);
    if Sends(w, a) { Replication.NextKeepsInvariant(c.config, w.system, RequestOf(w, a)); }
    forall i | 0 <= i < |w'.sessions| ensures SessionOk(w'.log, i, w'.sessions[i]) {
      NextKeepsSessions(c, w, a, i);
    }
    forall k, entry
      ensures Replication.Genuine(w'.system.accepted, k, entry) <==> Committed(w'.log, k, entry)
      ensures Committed(w'.log, k, entry) ==> 0 <= entry.0 <= INT_MAX
    {
      NextKeepsCommits(c, w, a, k, entry);
    }
  }

  /** In every run of clients and servers each write buffer holds exactly the final writes of
      its client's open transaction, and the servers have accepted exactly the final writes
      of the ended ones. */
  lemma {:induction false} RunKeepsInvariant(c: Setting, w: World, actions: seq<Action>)
    requires Invariant(c, w) && RunFrom(c, w, actions).Some?
    ensures Invariant(c, RunFrom(c, w, actions).value)
    decreases |actions|
  {
    if actions != [] {
      NextKeepsInvariant(c, w, actions[0]);
      RunKeepsInvariant(c, Next(c, w, actions[0]), actions[1..]);
    }
  }

  lemma RunIsInvariant(c: Setting, actions: seq<Action>)
    requires Run(c, actions).Some?
    ensures Invariant(c, Run(c, actions).value)
  {
    RunKeepsInvariant(c, Init(c), actions);
  }

  // ------------------------------------------------------------------ main results

  /** Whatever a server stores for a key was committed. */
  lemma StoredIsCommitted(c: Setting, w: World, server: nat, k: Key)
    requires Invariant(c, w) && server < |w.system.replicas| && k in w.system.replicas[server].kvs
    ensures Committed(w.log, k, w.system.replicas[server].kvs[k])
  {
    var kvs := w.system.replicas[server].kvs;
    assert Replication.AllGenuine(w.system.accepted, kvs);
    assert Replication.Genuine(w.system.accepted, k, kvs[k]);
  }

  /** Only committed data is ever served: in every run, whatever any server would answer to a
      get of k is the last value some client put for k in a transaction it has ended, under
      that transaction's own, non-negative timestamp. So neither uncommitted nor intermediate
      values are visible at any server. */
  lemma ReadCommitted(c: Setting, actions: seq<Action>, server: nat, k: Key)
    requires Run(c, actions).Some?
    requires server < |Run(c, actions).value.system.replicas|
    ensures var w := Run(c, actions).value;
            var done := Process(c.config, w.system.replicas[server], Request.Get(k));
            && done.Done?
            && (done.response.succeed ==>
                  && done.response.value.Some? && done.response.timestamp.Some?
                  && 0 <= done.response.timestamp.value
                  && Committed(w.log, k, (done.response.timestamp.value, done.response.value.value)))
  {
    RunIsInvariant(c, actions);
    var w := Run(c, actions).value;
    Replication.GetAnswers(c.config, w.system.replicas[server], k);
    if k in w.system.replicas[server].kvs { StoredIsCommitted(c, w, server, k); }
  }

  /** Every timestamp any server stores for any key is non-negative. */
  lemma StoredTimestampsNonNegative(c: Setting, actions: seq<Action>, server: nat, k: Key)
    requires Run(c, actions).Some?
    requires server < |Run(c, actions).value.system.replicas|
    requires k in Run(c, actions).value.system.replicas[server].kvs
    ensures 0 <= Run(c, actions).value.system.replicas[server].kvs[k].0 <= INT_MAX
  {
    RunIsInvariant(c, actions);
    StoredIsCommitted(c, Run(c, actions).value, server, k);
  }

  // ---------------------------------------------------- which timestamp a commit has

  lemma {:induction false} RunSplits(c: Setting, w: World, first: seq<Action>, rest: seq<Action>)
    requires RunFrom(c, w, first + rest).Some?
    ensures RunFrom(c, w, first).Some?
    ensures RunFrom(c, RunFrom(c, w, first).value, rest) == RunFrom(c, w, first + rest)
    decreases |first|
  {
    if first == [] {
      assert first + rest == rest;
    } else {
      assert (first + rest)[0] == first[0] && (first + rest)[1..] == first[1..] + rest;
      RunSplits(c, Next(c, w, first[0]), first[1..], rest);
    }
  }

  predicate BeginsAt(a: Action, client: nat) {
    a.Begin? && a.client == client
  }

  /** Only a begin changes the timestamp a client's session runs under. */
  lemma {:induction false} TimestampStays(c: Setting, w: World, actions: seq<Action>, client: nat)
    requires RunFrom(c, w, actions).Some? && client < |w.sessions|
    requires forall a :: a in actions ==> !BeginsAt(a, client)
    ensures var w' := RunFrom(c, w, actions).value;
            && |w'.sessions| == |w.sessions|
            && w'.sessions[client].currentTimestamp == w.sessions[client].currentTimestamp
    decreases |actions|
  {
    if actions != [] {
      assert !BeginsAt(actions[0], client);
      TimestampStays(c, Next(c, w, actions[0]), actions[1..], client);
    }
  }

  /** What the server answers to a begin is what the session then runs under. */
  lemma BeginSetsTimestamp(c: Setting, w: World, client: nat, server: nat)
    requires Enabled(c, w, Begin(client, server))
    ensures server < |w.system.replicas| && Process(c.config, w.system.replicas[server], BeginTransaction).Done?
    ensures var answer := Process(c.config, w.system.replicas[server], BeginTransaction).response;
            var s := Next(c, w, Begin(client, server)).sessions;
            && client < |s| && answer.timestamp.Some?
            && s[client].currentTimestamp == answer.timestamp.value >= 0
  {
    var r := w.system.replicas[server];
    var t := BeginTimestamp(r.localTimestamp, r.threadId);
    assert t.Some? && 0 <= t.value <= INT_MAX;
    assert ToInt32(t.value) == t.value;
  }

  lemma BeginThen(c: Setting, w: World, client: nat, server: nat, rest: seq<Action>)
    requires RunFrom(c, w, [Begin(client, server)] + rest).Some?
    ensures Enabled(c, w, Begin(client, server))
    ensures RunFrom(c, Next(c, w, Begin(client, server)), rest) == RunFrom(c, w, [Begin(client, server)] + rest)
  {
    assert ([Begin(client, server)] + rest)[1..] == rest;
  }

  /** In every run an end is recorded under the timestamp that a server answered to that
      client's last begin. */
  lemma EndedUnderTheLastBegin(c: Setting, before: seq<Action>, client: nat, server: nat, rest: seq<Action>, a: Action)
    requires Run(c, before + ([Begin(client, server)] + rest)).Some?
    requires forall b :: b in rest ==> !BeginsAt(b, client)
    requires a.End? && a.client == client && Enabled(c, Run(c, before + ([Begin(client, server)] + rest)).value, a)
    ensures Run(c, before).Some? && server < |Run(c, before).value.system.replicas|
    ensures Process(c.config, Run(c, before).value.system.replicas[server], BeginTransaction).Done?
    ensures var w := Run(c, before + ([Begin(client, server)] + rest)).value;
            var r := Run(c, before).value.system.replicas[server];
            var answer := Process(c.config, r, BeginTransaction).response.timestamp;
            && answer.Some? && answer.value >= 0
            && Next(c, w, a).log == w.log + [Ended(client, answer.value)]
  {
    RunSplits(c, Init(c), before, [Begin(client, server)] + rest);
    var w0 := Run(c, before).value;
    BeginThen(c, w0, client, server, rest);
    BeginSetsTimestamp(c, w0, client, server);
    TimestampStays(c, Next(c, w0, Begin(client, server)), rest, client);
  }

  /** Without a begin there is nothing to commit. */
  lemma NothingWithoutABegin(c: Setting, actions: seq<Action>, a: Action)
    requires Run(c, actions).Some? && a.End? && Enabled(c, Run(c, actions).value, a)
    requires forall b :: b in actions ==> !BeginsAt(b, a.client)
    ensures var w := Run(c, actions).value;
            a.pairs == [] && Next(c, w, a).log == w.log + [Ended(a.client, -1)]
  {
    var w := Run(c, actions).value;
    RunIsInvariant(c, actions);
    TimestampStays(c, Init(c), actions, a.client);
    assert SessionOk(w.log, a.client, w.sessions[a.client]);
  }

  /** No commit is lost: once the servers are quiet, each binds exactly the keys of which
      something was committed, and each key to the latest entry ever committed for it: the one
      with the largest timestamp, and of those the string that comes last. */
  lemma GreatestCommitIsStored(c: Setting, actions: seq<Action>, server: nat, k: Key)
    requires Run(c, actions).Some? && Replication.Quiet(Run(c, actions).value.system)
    requires server < |Run(c, actions).value.system.replicas|
    ensures var w := Run(c, actions).value;
            var kvs := w.system.replicas[server].kvs;
            && (k in kvs ==> Committed(w.log, k, kvs[k]))
            && forall entry :: Committed(w.log, k, entry) ==> k in kvs && NoLater(entry, kvs[k])
  {
    RunIsInvariant(c, actions);
    var w := Run(c, actions).value;
    var kvs := w.system.replicas[server].kvs;
    if k in kvs { StoredIsCommitted(c, w, server, k); }
    forall entry | Committed(w.log, k, entry) ensures k in kvs && NoLater(entry, kvs[k]) {
      assert Replication.Genuine(w.system.accepted, k, entry);
      var u :| u in w.system.accepted && u.key == k && u.entry == entry;
      Replication.QuietReaches(c.config, w.system, u, server);
      JoinKeepsTheLater(entry, kvs[k]);
    }
  }
}
