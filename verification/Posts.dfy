/** The undelivered messages one by one, in the order in which they were published: who
    published each, which GossipData it points to, and how many receivers have processed that.
    A refinement of module Replication, which only keeps the bag of messages. */
module Posts {
  import opened Options
  import opened Store
  import Replication

  type System = Replication.System

  /** `id` names the GossipData all copies of one message point to. */
  datatype Letter = Letter(id: nat, from: nat, message: Replication.Message)

  /** `processed` is `num_processed` of each GossipData. */
  datatype Post = Post(s: System, pending: seq<Letter>, processed: seq<nat>)

  datatype Act = Serve(server: nat, request: Store.Request) | Hand(k: nat) | Drop(k: nat)

  function Init(c: Config): Post {
    Post(Replication.Init(c), [], [])
  }

  /** One copy for every thread but the sender. */
  function Letters(id: nat, n: nat, from: nat, db: Database): (ls: seq<Letter>)
    ensures forall l :: l in ls ==> l.id == id && l.from == from && l.message.to < n && l.message.to != from
  {
    if n == 0 then []
    else if n - 1 == from then Letters(id, n - 1, from, db)
    else Letters(id, n - 1, from, db) + [Letter(id, from, Replication.Message(n - 1, db))]
  }

  function Without<T>(xs: seq<T>, k: nat): seq<T>
    requires k < |xs|
  {
    xs[..k] + xs[k + 1..]
  }

  function Plain(p: Post, a: Act): Replication.Action
    requires !a.Serve? ==> a.k < |p.pending|
  {
    match a
    case Serve(i, request) => Replication.Request(i, request)
    case Hand(k) => Replication.Deliver(p.pending[k].message)
    case Drop(k) => Replication.Lose(p.pending[k].message)
  }

  predicate Enabled(c: Config, p: Post, a: Act) {
    && (!a.Serve? ==> a.k < |p.pending| && p.pending[a.k].id < |p.processed|)
    && Replication.Enabled(c, p.s, Plain(p, a))
  }

  function Published(c: Config, p: Post, a: Act): Option<Database>
    requires Enabled(c, p, a) && a.Serve?
  {
    Process(c, p.s.replicas[a.server], a.request).gossip
  }

  function Next(c: Config, p: Post, a: Act): Post
    requires Enabled(c, p, a)
  {
    var s := Replication.Next(c, p.s, Plain(p, a));
    match a
    case Serve(i, request) =>
      if Published(c, p, a).Some? then
        Post(s, p.pending + Letters(|p.processed|, |p.s.replicas|, i, Published(c, p, a).value), p.processed + [0])
      else Post(s, p.pending, p.processed)
    case Hand(k) =>
      var id := p.pending[k].id;
      Post(s, Without(p.pending, k), p.processed[id := p.processed[id] + 1])
    case Drop(k) => Post(s, Without(p.pending, k), p.processed)
  }

  /** What `fetch_add` gives the receiver of letter k: how many have processed the message. */
  function FetchAdd(p: Post, k: nat): nat
    requires k < |p.pending| && p.pending[k].id < |p.processed|
  {
    p.processed[p.pending[k].id]
  }

  /** In the order a publisher's socket keeps: nothing is lost, and of the letters from one
      sender to one receiver the oldest comes first. */
  predicate InOrder(p: Post, a: Act) {
    match a
    case Serve(_, _) => true
    case Hand(k) => k < |p.pending| && Oldest(p.pending, k)
    case Drop(_) => false
  }

  predicate Oldest(pending: seq<Letter>, k: nat)
    requires k < |pending|
  {
    forall l :: 0 <= l < k ==> !(pending[l].from == pending[k].from && pending[l].message.to == pending[k].message.to)
  }

  function RunFrom(c: Config, ordered: bool, p: Post, acts: seq<Act>): Option<Post>
    decreases |acts|
  {
    if acts == [] then Some(p)
    else if Enabled(c, p, acts[0]) && (ordered ==> InOrder(p, acts[0])) then
      RunFrom(c, ordered, Next(c, p, acts[0]), acts[1..])
    else None
  }

  // -------------------------------------------------------------------- invariant

  function Messages(pending: seq<Letter>): (ms: seq<Replication.Message>)
    ensures |ms| == |pending| && forall k :: 0 <= k < |ms| ==> ms[k] == pending[k].message
  {
    seq(|pending|, k requires 0 <= k < |pending| => pending[k].message)
  }

  /** The copies of one message that have not arrived. */
  function Copies(pending: seq<Letter>, id: nat): nat {
    if pending == [] then 0
    else Copies(pending[..|pending| - 1], id) + (if pending[|pending| - 1].id == id then 1 else 0)
  }

  ghost predicate Addressed(c: Config, p: Post) {
    && |p.s.replicas| == c.numThreads
    && p.s.inflight == multiset(Messages(p.pending))
    && forall l :: l in p.pending ==>
         l.id < |p.processed| && l.from < c.numThreads && l.message.to < c.numThreads && l.message.to != l.from
  }

  /** Of every message at most one copy per other thread exists, arrived or not. */
  ghost predicate Counted(c: Config, p: Post) {
    forall id :: 0 <= id < |p.processed| ==> p.processed[id] + Copies(p.pending, id) <= c.numThreads - 1
  }

  ghost predicate Invariant(c: Config, p: Post) {
    Addressed(c, p) && Counted(c, p) && Replication.Invariant(c, p.s)
  }

  lemma {:induction false} CopiesConcat(xs: seq<Letter>, ys: seq<Letter>, id: nat)
    ensures Copies(xs + ys, id) == Copies(xs, id) + Copies(ys, id)
  {
    if ys == [] {
      assert xs + ys == xs;
    } else {
      CopiesConcat(xs, ys[..|ys| - 1], id);
      assert (xs + ys)[..|xs + ys| - 1] == xs + ys[..|ys| - 1];
    }
  }

  lemma CopiesWithout(pending: seq<Letter>, k: nat, id: nat)
    requires k < |pending|
    ensures Copies(pending, id) == Copies(Without(pending, k), id) + (if pending[k].id == id then 1 else 0)
  {
    var one := [pending[k]];
    assert pending == pending[..k] + (one + pending[k + 1..]);
    CopiesConcat(pending[..k], one + pending[k + 1..], id);
    CopiesConcat(one, pending[k + 1..], id);
    CopiesConcat(pending[..k], pending[k + 1..], id);
    assert one[..0] == [];
  }

  lemma {:induction false} CopiesOfLetters(id: nat, n: nat, from: nat, db: Database, i: nat)
    ensures Copies(Letters(id, n, from, db), i) == if i != id then 0 else if from < n then n - 1 else n
  {
    if n > 0 {
      CopiesOfLetters(id, n - 1, from, db, i);
      if n - 1 != from {
        var l := Letter(id, from, Replication.Message(n - 1, db));
        CopiesConcat(Letters(id, n - 1, from, db), [l], i);
        assert [l][..0] == [];
      }
    }
  }

  lemma {:induction false} NoCopies(pending: seq<Letter>, id: nat)
    requires forall l :: l in pending ==> l.id != id
    ensures Copies(pending, id) == 0
  {
    if pending != [] { NoCopies(pending[..|pending| - 1], id); }
  }

  lemma SomeCopy(pending: seq<Letter>, k: nat)
    requires k < |pending|
    ensures Copies(pending, pending[k].id) >= 1
  {
    CopiesWithout(pending, k, pending[k].id);
  }

  lemma MessagesConcat(xs: seq<Letter>, ys: seq<Letter>)
    ensures multiset(Messages(xs + ys)) == multiset(Messages(xs)) + multiset(Messages(ys))
  {
    assert Messages(xs + ys) == Messages(xs) + Messages(ys);
  }

  lemma MessagesWithout(pending: seq<Letter>, k: nat)
    requires k < |pending|
    ensures multiset(Messages(Without(pending, k))) == multiset(Messages(pending)) - multiset{pending[k].message}
    ensures pending[k].message in multiset(Messages(pending))
  {
    var one := [pending[k]];
    assert pending == pending[..k] + (one + pending[k + 1..]);
    MessagesConcat(pending[..k], one + pending[k + 1..]);
    MessagesConcat(one, pending[k + 1..]);
    MessagesConcat(pending[..k], pending[k + 1..]);
    assert Messages(one) == [pending[k].message];
  }

  lemma MessagesMore(xs: seq<Letter>, l: Letter)
    ensures multiset(Messages(xs + [l])) == multiset(Messages(xs)) + multiset{l.message}
  {
    assert Messages(xs + [l]) == Messages(xs) + [l.message];
  }

  lemma {:induction false} LettersAreBroadcast(id: nat, n: nat, from: nat, db: Database)
    ensures multiset(Messages(Letters(id, n, from, db))) == Replication.Broadcast(n, from, db)
  {
    if n > 0 {
      LettersAreBroadcast(id, n - 1, from, db);
      if n - 1 != from {
        var ls, l := Letters(id, n - 1, from, db), Letter(id, from, Replication.Message(n - 1, db));
        OneMoreReceiver(ls, l, Replication.Broadcast(n - 1, from, db));
      }
    } else {
      assert Messages([]) == [];
    }
  }

  lemma OneMoreReceiver(ls: seq<Letter>, l: Letter, ms: multiset<Replication.Message>)
    requires multiset(Messages(ls)) == ms
    ensures multiset(Messages(ls + [l])) == ms + multiset{l.message}
  {
    MessagesMore(ls, l);
  }

  /** How the bag of messages changes in module Replication. */
  lemma InflightAfter(c: Config, p: Post, a: Act)
    requires Enabled(c, p, a)
    ensures var s := Next(c, p, a).s;
            && |s.replicas| == |p.s.replicas|
            && s.inflight == match a
                 case Serve(i, _) =>
                   if Published(c, p, a).Some?
                   then p.s.inflight + Replication.Broadcast(|p.s.replicas|, i, Published(c, p, a).value)
                   else p.s.inflight
                 case Hand(k) => p.s.inflight - multiset{p.pending[k].message}
                 case Drop(k) => p.s.inflight - multiset{p.pending[k].message}
  {
  }

  lemma HandlingKeepsAddressed(c: Config, p: Post, a: Act)
    requires Addressed(c, p) && Enabled(c, p, a) && !a.Serve?
    ensures Addressed(c, Next(c, p, a))
  {
    InflightAfter(c, p, a);
    MessagesWithout(p.pending, a.k);
  }

  lemma ServeKeepsAddressed(c: Config, p: Post, a: Act)
    requires Addressed(c, p) && Enabled(c, p, a) && a.Serve?
    ensures Addressed(c, Next(c, p, a))
  {
    InflightAfter(c, p, a);
    if Published(c, p, a).Some? {
      var ls := Letters(|p.processed|, |p.s.replicas|, a.server, Published(c, p, a).value);
      MessagesConcat(p.pending, ls);
      LettersAreBroadcast(|p.processed|, |p.s.replicas|, a.server, Published(c, p, a).value);
    }
  }

  lemma NextKeepsAddressed(c: Config, p: Post, a: Act)
    requires Addressed(c, p) && Enabled(c, p, a)
    ensures Addressed(c, Next(c, p, a))
  {
    if a.Serve? {
      ServeKeepsAddressed(c, p, a);
    } else {
      HandlingKeepsAddressed(c, p, a);
    }
  }

  lemma NextKeepsCounted(c: Config, p: Post, a: Act)
    requires Addressed(c, p) && Counted(c, p) && Enabled(c, p, a)
    ensures Counted(c, Next(c, p, a))
  {
    var p' := Next(c, p, a);
    forall id | 0 <= id < |p'.processed| ensures p'.processed[id] + Copies(p'.pending, id) <= c.numThreads - 1 {
      match a {
        case Serve(i, _) =>
          if Published(c, p, a).Some? {
            var ls := Letters(|p.processed|, |p.s.replicas|, i, Published(c, p, a).value);
            CopiesConcat(p.pending, ls, id);
            CopiesOfLetters(|p.processed|, |p.s.replicas|, i, Published(c, p, a).value, id);
            if id == |p.processed| { NoCopies(p.pending, id); }
          }
        case Hand(k) => CopiesWithout(p.pending, k, id);
        case Drop(k) => CopiesWithout(p.pending, k, id);
      }
    }
  }

  lemma NextKeepsInvariant(c: Config, p: Post, a: Act)
    requires Invariant(c, p) && Enabled(c, p, a)
    ensures Invariant(c, Next(c, p, a))
  {
    NextKeepsAddressed(c, p, a);
    NextKeepsCounted(c, p, a);
    Replication.NextKeepsInvariant(c, p.s, Plain(p, a));
  }

  lemma {:induction false} RunKeepsInvariant(c: Config, ordered: bool, p: Post, acts: seq<Act>)
    requires Invariant(c, p) && RunFrom(c, ordered, p, acts).Some?
    ensures Invariant(c, RunFrom(c, ordered, p, acts).value)
    decreases |acts|
  {
    if acts != [] {
      NextKeepsInvariant(c, p, acts[0]);
      RunKeepsInvariant(c, ordered, Next(c, p, acts[0]), acts[1..]);
    }
  }

  lemma InitIsInvariant(c: Config)
    ensures Invariant(c, Init(c))
  {
    assert Replication.Run(c, []) == Some(Replication.Init(c));
    Replication.RunIsInvariant(c, []);
    assert Messages([]) == [];
  }

  /** No letter is ever stuck: it can be handed over or, if loss is allowed, dropped. */
  lemma LettersCanArrive(c: Config, p: Post, k: nat)
    requires Invariant(c, p) && k < |p.pending|
    ensures Enabled(c, p, Hand(k)) && Enabled(c, p, Drop(k))
  {
    MessagesWithout(p.pending, k);
    assert p.pending[k] in p.pending;
  }

  // ------------------------------------------------------------------- refinement

  function PlainAll(c: Config, p: Post, acts: seq<Act>): seq<Replication.Action>
    decreases |acts|
  {
    if acts == [] || !Enabled(c, p, acts[0]) then []
    else [Plain(p, acts[0])] + PlainAll(c, Next(c, p, acts[0]), acts[1..])
  }

  /** A run of posts is a run of the system. */
  lemma {:induction false} PostsAreRuns(c: Config, ordered: bool, p: Post, acts: seq<Act>)
    requires RunFrom(c, ordered, p, acts).Some?
    ensures Replication.RunFrom(c, p.s, PlainAll(c, p, acts)) == Some(RunFrom(c, ordered, p, acts).value.s)
    decreases |acts|
  {
    if acts != [] {
      var a, rest := Plain(p, acts[0]), PlainAll(c, Next(c, p, acts[0]), acts[1..]);
      PostsAreRuns(c, ordered, Next(c, p, acts[0]), acts[1..]);
      assert ([a] + rest)[1..] == rest;
    }
  }

  lemma FindLetter(pending: seq<Letter>, m: Replication.Message) returns (k: nat)
    requires m in multiset(Messages(pending))
    ensures k < |pending| && pending[k].message == m
  {
    k :| 0 <= k < |Messages(pending)| && Messages(pending)[k] == m;
  }

  lemma OneAct(c: Config, p: Post, a: Replication.Action) returns (act: Act)
    requires Invariant(c, p) && Replication.Enabled(c, p.s, a)
    ensures Enabled(c, p, act) && Plain(p, act) == a
  {
    match a {
      case Request(i, request) => act := Serve(i, request);
      case Deliver(m) =>
        var k := FindLetter(p.pending, m);
        LettersCanArrive(c, p, k);
        act := Hand(k);
      case Lose(m) =>
        var k := FindLetter(p.pending, m);
        LettersCanArrive(c, p, k);
        act := Drop(k);
    }
  }

  /** And every run of the system is one of posts. */
  lemma {:induction false} RunsArePosts(c: Config, p: Post, actions: seq<Replication.Action>) returns (acts: seq<Act>)
    requires Invariant(c, p) && Replication.RunFrom(c, p.s, actions).Some?
    ensures RunFrom(c, false, p, acts).Some?
    ensures RunFrom(c, false, p, acts).value.s == Replication.RunFrom(c, p.s, actions).value
    decreases |actions|
  {
    if actions == [] {
      acts := [];
    } else {
      var a := OneAct(c, p, actions[0]);
      NextKeepsInvariant(c, p, a);
      var rest := RunsArePosts(c, Next(c, p, a), actions[1..]);
      acts := [a] + rest;
      assert acts[1..] == rest;
    }
  }

  // ----------------------------------------------------------------- main results

  /** While nothing is lost, every copy of a message that is gone has been counted. */
  ghost predicate CountedExactly(c: Config, p: Post) {
    forall id :: 0 <= id < |p.processed| ==> p.processed[id] + Copies(p.pending, id) == c.numThreads - 1
  }

  lemma NextCountsExactly(c: Config, p: Post, a: Act)
    requires Addressed(c, p) && CountedExactly(c, p) && Enabled(c, p, a) && !a.Drop?
    ensures CountedExactly(c, Next(c, p, a))
  {
    var p' := Next(c, p, a);
    forall id | 0 <= id < |p'.processed| ensures p'.processed[id] + Copies(p'.pending, id) == c.numThreads - 1 {
      match a {
        case Serve(i, _) =>
          if Published(c, p, a).Some? {
            var ls := Letters(|p.processed|, |p.s.replicas|, i, Published(c, p, a).value);
            CopiesConcat(p.pending, ls, id);
            CopiesOfLetters(|p.processed|, |p.s.replicas|, i, Published(c, p, a).value, id);
            if id == |p.processed| { NoCopies(p.pending, id); }
          }
        case Hand(k) => CopiesWithout(p.pending, k, id);
      }
    }
  }

  lemma {:induction false} RunCountsExactly(c: Config, ordered: bool, p: Post, acts: seq<Act>)
    requires Addressed(c, p) && CountedExactly(c, p) && RunFrom(c, ordered, p, acts).Some?
    requires forall a :: a in acts ==> !a.Drop?
    ensures CountedExactly(c, RunFrom(c, ordered, p, acts).value)
    decreases |acts|
  {
    if acts != [] {
      NextKeepsAddressed(c, p, acts[0]);
      NextCountsExactly(c, p, acts[0]);
      RunCountsExactly(c, ordered, Next(c, p, acts[0]), acts[1..]);
    }
  }

  /** In a run without loss a receiver is given exactly the number of other receivers that have
      had the message: the first is given zero, the last the number of threads minus two. */
  lemma ReceiversAreCounted(c: Config, acts: seq<Act>, k: nat)
    requires RunFrom(c, false, Init(c), acts).Some? && forall a :: a in acts ==> !a.Drop?
    requires k < |RunFrom(c, false, Init(c), acts).value.pending|
    ensures var p := RunFrom(c, false, Init(c), acts).value;
            && Enabled(c, p, Hand(k))
            && FetchAdd(p, k) == c.numThreads - 1 - Copies(p.pending, p.pending[k].id)
            && (Copies(p.pending, p.pending[k].id) == 1 ==> FetchAdd(p, k) == c.numThreads - 2)
  {
    InitIsInvariant(c);
    RunKeepsInvariant(c, false, Init(c), acts);
    RunCountsExactly(c, false, Init(c), acts);
    LettersCanArrive(c, RunFrom(c, false, Init(c), acts).value, k);
  }

  /** In no run is a receiver given the count, the number of threads minus one, at which it
      would free the message. */
  lemma NoReceiverFrees(c: Config, acts: seq<Act>, k: nat)
    requires RunFrom(c, false, Init(c), acts).Some?
    requires k < |RunFrom(c, false, Init(c), acts).value.pending|
    ensures var p := RunFrom(c, false, Init(c), acts).value;
            Enabled(c, p, Hand(k)) && FetchAdd(p, k) < c.numThreads - 1
  {
    InitIsInvariant(c);
    RunKeepsInvariant(c, false, Init(c), acts);
    var p := RunFrom(c, false, Init(c), acts).value;
    LettersCanArrive(c, p, k);
    SomeCopy(p.pending, k);
  }
}
