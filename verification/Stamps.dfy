/** The begin timestamps handed out over a whole run of all the server threads. */
module Stamps {
  import opened Options
  import opened Store
  import opened Decimals
  import opened Replication

  /** One begin request that was answered: where, at which local count, and with what. */
  datatype Begin = Begin(server: nat, local: nat, stamp: Option<int>)

  /** The answer, if the action is a begin request. */
  function BeginOf(c: Config, s: System, a: Action): seq<Begin>
    requires Enabled(c, s, a)
  {
    if a.Request? && a.request.BeginTransaction? then
      [Begin(a.server, s.replicas[a.server].localTimestamp,
             Process(c, s.replicas[a.server], a.request).response.timestamp)]
    else []
  }

  function Begins(c: Config, s: System, actions: seq<Action>): seq<Begin>
    requires RunFrom(c, s, actions).Some?
    decreases |actions|
  {
    if actions == [] then []
    else BeginOf(c, s, actions[0]) + Begins(c, Next(c, s, actions[0]), actions[1..])
  }

  /** Each answer used up one value of its thread's own counter, in increasing order. */
  ghost predicate Issued(c: Config, s: System, begins: seq<Begin>) {
    && |s.replicas| == c.numThreads
    && (forall j :: 0 <= j < |s.replicas| ==> s.replicas[j].threadId == j)
    && (forall b :: b in begins ==>
          && b.server < |s.replicas| && b.local < s.replicas[b.server].localTimestamp
          && b.stamp.Some? && b.stamp == BeginTimestamp(b.local, b.server))
    && (forall i, j :: 0 <= i < j < |begins| && begins[i].server == begins[j].server ==>
          begins[i].local < begins[j].local)
  }

  lemma {:induction false} PutsKeepCounter(r: Replica, t: int, pairs: seq<(Key, string)>)
    ensures PutPairs(r, t, pairs).localTimestamp == r.localTimestamp
    ensures PutPairs(r, t, pairs).threadId == r.threadId
  {
    if pairs != [] { PutsKeepCounter(r, t, pairs[..|pairs| - 1]); }
  }

  /** Only a begin request moves the counter, by one. */
  lemma RequestCounter(c: Config, r: Replica, request: Store.Request)
    requires Process(c, r, request).Done?
    ensures var done := Process(c, r, request);
            && done.state.threadId == r.threadId
            && done.state.localTimestamp == r.localTimestamp + (if request.BeginTransaction? then 1 else 0)
            && (request.BeginTransaction? ==>
                  done.response.timestamp == BeginTimestamp(r.localTimestamp, r.threadId)
                  && done.response.timestamp.Some?)
  {
    if request.Put? { PutsKeepCounter(r, request.timestamp, request.pairs); }
  }

  lemma BeginIssues(c: Config, s: System, i: nat, begins: seq<Begin>)
    requires Issued(c, s, begins) && Enabled(c, s, Request(i, BeginTransaction))
    ensures Issued(c, Next(c, s, Request(i, BeginTransaction)), begins + BeginOf(c, s, Request(i, BeginTransaction)))
  {
    RequestCounter(c, s.replicas[i], BeginTransaction);
    var begins' := begins + BeginOf(c, s, Request(i, BeginTransaction));
    forall k, j | 0 <= k < j < |begins'| && begins'[k].server == begins'[j].server
      ensures begins'[k].local < begins'[j].local
    {
      assert begins'[k] in begins;
    }
  }

  lemma NextIssues(c: Config, s: System, a: Action, begins: seq<Begin>)
    requires Issued(c, s, begins) && Enabled(c, s, a)
    ensures Issued(c, Next(c, s, a), begins + BeginOf(c, s, a))
  {
    if a.Request? && a.request.BeginTransaction? {
      BeginIssues(c, s, a.server, begins);
    } else {
      if a.Request? { RequestCounter(c, s.replicas[a.server], a.request); }
      assert begins + [] == begins;
    }
  }

  lemma Regroup(a: seq<Begin>, b: seq<Begin>, c: seq<Begin>)
    ensures a + (b + c) == (a + b) + c
  {
  }

  lemma {:induction false} RunIssues(c: Config, s: System, begins: seq<Begin>, actions: seq<Action>)
    requires Issued(c, s, begins) && RunFrom(c, s, actions).Some?
    ensures Issued(c, RunFrom(c, s, actions).value, begins + Begins(c, s, actions))
    decreases |actions|
  {
    if actions == [] {
      assert begins + [] == begins;
    } else {
      var next := Next(c, s, actions[0]);
      NextIssues(c, s, actions[0], begins);
      RunIssues(c, next, begins + BeginOf(c, s, actions[0]), actions[1..]);
      Regroup(begins, BeginOf(c, s, actions[0]), Begins(c, next, actions[1..]));
    }
  }

  /** How many of the begins were answered by this server. */
  function CountAt(begins: seq<Begin>, server: nat): nat {
    if begins == [] then 0
    else CountAt(begins[..|begins| - 1], server) + (if begins[|begins| - 1].server == server then 1 else 0)
  }

  /** Each counter is the number of begins its server has answered, and was so at each of them. */
  ghost predicate Numbered(s: System, begins: seq<Begin>) {
    && (forall j :: 0 <= j < |s.replicas| ==> s.replicas[j].localTimestamp == CountAt(begins, j))
    && (forall i :: 0 <= i < |begins| ==> begins[i].local == CountAt(begins[..i], begins[i].server))
  }

  lemma BeginNumbers(c: Config, s: System, i: nat, begins: seq<Begin>)
    requires Numbered(s, begins) && Enabled(c, s, Request(i, BeginTransaction))
    ensures Numbered(Next(c, s, Request(i, BeginTransaction)), begins + BeginOf(c, s, Request(i, BeginTransaction)))
  {
    RequestCounter(c, s.replicas[i], BeginTransaction);
    var begins' := begins + BeginOf(c, s, Request(i, BeginTransaction));
    assert begins'[..|begins|] == begins;
    forall k | 0 <= k < |begins| ensures begins'[..k] == begins[..k] && begins'[k] == begins[k] {}
  }

  lemma NextNumbers(c: Config, s: System, a: Action, begins: seq<Begin>)
    requires Numbered(s, begins) && Enabled(c, s, a)
    ensures Numbered(Next(c, s, a), begins + BeginOf(c, s, a))
  {
    if a.Request? && a.request.BeginTransaction? {
      BeginNumbers(c, s, a.server, begins);
    } else {
      if a.Request? { RequestCounter(c, s.replicas[a.server], a.request); }
      assert begins + [] == begins;
    }
  }

  lemma {:induction false} RunNumbers(c: Config, s: System, begins: seq<Begin>, actions: seq<Action>)
    requires Numbered(s, begins) && RunFrom(c, s, actions).Some?
    ensures Numbered(RunFrom(c, s, actions).value, begins + Begins(c, s, actions))
    decreases |actions|
  {
    if actions == [] {
      assert begins + [] == begins;
    } else {
      var next := Next(c, s, actions[0]);
      NextNumbers(c, s, actions[0], begins);
      RunNumbers(c, next, begins + BeginOf(c, s, actions[0]), actions[1..]);
      Regroup(begins, BeginOf(c, s, actions[0]), Begins(c, next, actions[1..]));
    }
  }

  /** Over every run the n-th begin that a server answers, counted from zero, gets the stamp of
      the numbers n and the server's. */
  lemma NthBegin(c: Config, actions: seq<Action>, i: nat)
    requires Run(c, actions).Some? && i < |Begins(c, Init(c), actions)|
    ensures var bs := Begins(c, Init(c), actions);
            bs[i].stamp.Some? && bs[i].stamp == BeginTimestamp(CountAt(bs[..i], bs[i].server), bs[i].server)
  {
    var bs := Begins(c, Init(c), actions);
    RunIssues(c, Init(c), [], actions);
    RunNumbers(c, Init(c), [], actions);
    assert [] + bs == bs;
    assert bs[i] in bs;
  }

  /** The answers of one thread increase, and with at most ten threads all differ. */
  ghost predicate WellStamped(c: Config, bs: seq<Begin>) {
    forall i, j :: 0 <= i < j < |bs| ==>
      && bs[i].stamp.Some? && bs[j].stamp.Some?
      && (bs[i].server == bs[j].server ==> bs[i].stamp.value < bs[j].stamp.value)
      && (c.numThreads <= 10 ==> bs[i].stamp != bs[j].stamp)
  }

  lemma IssuedAreWellStamped(c: Config, s: System, bs: seq<Begin>)
    requires Issued(c, s, bs)
    ensures WellStamped(c, bs)
  {
    TimestampsUniqueIff(c.numThreads);
    forall i, j | 0 <= i < j < |bs|
      ensures bs[i].stamp.Some? && bs[j].stamp.Some?
      ensures bs[i].server == bs[j].server ==> bs[i].stamp.value < bs[j].stamp.value
      ensures c.numThreads <= 10 ==> bs[i].stamp != bs[j].stamp
    {
      var x, y := bs[i], bs[j];
      assert x in bs && y in bs;
      if x.server == y.server { BeginTimestampsIncrease(x.local, y.local, x.server); }
    }
  }

  /** Over every run the answers of one thread strictly increase, and with at most ten
      threads no two begin requests of the whole system get the same timestamp. */
  lemma BeginTimestampsOfRun(c: Config, actions: seq<Action>)
    requires Run(c, actions).Some?
    ensures WellStamped(c, Begins(c, Init(c), actions))
  {
    var bs := Begins(c, Init(c), actions);
    RunIssues(c, Init(c), [], actions);
    assert [] + bs == bs;
    IssuedAreWellStamped(c, Run(c, actions).value, bs);
  }
}
