/** One server thread of the key-value store (src/key_value_stores/server.cc): the pure
    transition function of its state, the class that updates that state in place, and the
    order in which its database only grows. */
module Store {
  import opened Options
  import opened Semilattices
  import opened Lattices
  import opened Decimals

  type Key = string
  /** A timestamped string: (timestamp, value). */
  type Entry = (int, string)
  type Database = map<Key, Entry>

  // ------------------------------------------------- the database's semilattice

  predicate IntLess(x: int, y: int) { x < y }

  /** `std::string`'s operator<. */
  predicate StringLess(a: string, b: string) {
    b != [] && (a == [] || a[0] < b[0] || (a[0] == b[0] && StringLess(a[1..], b[1..])))
  }

  /** a comes before b in a dictionary: they agree up to n, where a ends or has the smaller
      character. */
  predicate BeforeAt(a: string, b: string, n: nat) {
    n <= |a| && n < |b| && a[..n] == b[..n] && (n == |a| || a[n] < b[n])
  }

  ghost predicate Before(a: string, b: string) {
    exists n: nat :: BeforeAt(a, b, n)
  }

  lemma BeforeTail(a: string, b: string, n: nat)
    requires a != [] && b != [] && a[0] == b[0]
    ensures BeforeAt(a[1..], b[1..], n) <==> BeforeAt(a, b, n + 1)
  {
    if n < |a| && n < |b| {
      assert a[..n + 1] == [a[0]] + a[1..][..n] && b[..n + 1] == [b[0]] + b[1..][..n];
    }
  }

  lemma SameHead(a: string, b: string, n: nat)
    ensures BeforeAt(a, b, n) && n > 0 ==> a != [] && b != [] && a[0] == b[0]
  {
    if BeforeAt(a, b, n) && n > 0 { assert a[..n][0] == b[..n][0]; }
  }

  /** `std::string`'s order is that of a dictionary. */
  lemma {:induction false} StringLessIsDictionaryOrder(a: string, b: string)
    ensures StringLess(a, b) <==> Before(a, b)
  {
    forall n: nat ensures BeforeAt(a, b, n) && n > 0 ==> a != [] && b != [] && a[0] == b[0] {
      SameHead(a, b, n);
    }
    if a != [] && b != [] && a[0] == b[0] {
      StringLessIsDictionaryOrder(a[1..], b[1..]);
      if n: nat :| BeforeAt(a[1..], b[1..], n) { BeforeTail(a, b, n); }
      if n: nat :| BeforeAt(a, b, n) {
        assert n > 0;
        BeforeTail(a, b, n - 1);
      }
    } else if StringLess(a, b) {
      assert BeforeAt(a, b, 0);
    }
  }

  lemma {:induction false} StringLessTransitive(a: string, b: string, c: string)
    requires StringLess(a, b) && StringLess(b, c)
    ensures StringLess(a, c)
  {
    if a != [] && a[0] == b[0] == c[0] {
      StringLessTransitive(a[1..], b[1..], c[1..]);
    }
  }

  lemma {:induction false} StringLessTrichotomy(a: string, b: string)
    ensures a == b || StringLess(a, b) || StringLess(b, a)
    ensures !StringLess(a, a)
  {
    if a != [] {
      if b != [] {
        StringLessTrichotomy(a[1..], b[1..]);
        if a[0] == b[0] && a[1..] == b[1..] {
          assert a == [a[0]] + a[1..] && b == [b[0]] + b[1..];
        }
      } else {
        StringLessTrichotomy(a[1..], []);
      }
    }
  }

  lemma EntryOrdersAreTotal()
    ensures IsStrictTotalOrder(IntLess) && IsStrictTotalOrder(StringLess)
  {
    forall a, b, c | StringLess(a, b) && StringLess(b, c) ensures StringLess(a, c) {
      StringLessTransitive(a, b, c);
    }
    forall a, b ensures a == b || StringLess(a, b) || StringLess(b, a) {
      StringLessTrichotomy(a, b);
    }
    forall a ensures !StringLess(a, a) {
      StringLessTrichotomy(a, a);
    }
  }

  /** TimestampLattice<MaxLattice<int>, MaxLattice<string>> */
  function JoinEntry(a: Entry, b: Entry): Entry {
    TimestampJoin(MaxOf(IntLess), MaxOf(StringLess), a, b)
  }

  function JoinDatabase(m: Database, n: Database): Database {
    MapJoin(JoinEntry, m, n)
  }

  /** The server's database type is a semilattice. */
  lemma DatabaseIsSemilattice()
    ensures IsSemilattice(JoinEntry) && IsTotal(JoinEntry)
    ensures IsSemilattice(JoinDatabase)
  {
    EntryOrdersAreTotal();
    MaxIsSemilattice(IntLess);
    MaxIsSemilattice(StringLess);
    var tj, vj := MaxOf(IntLess), MaxOf(StringLess);
    TimestampIsSemilatticeIffTotal(tj, vj, "", "x");
    assert forall a, b :: TimestampOf(tj, vj)(a, b) == JoinEntry(a, b);
    SemilatticeTransfer(TimestampOf(tj, vj), JoinEntry);
    forall a, b ensures Leq(JoinEntry, a, b) || Leq(JoinEntry, b, a) {
      EntryJoinSelects(a, b);
      assert JoinEntry(a, b) == JoinEntry(b, a);
    }
    MapIsSemilattice<Key, Entry>(JoinEntry);
    assert forall m: Database, n :: MapOf<Key, Entry>(JoinEntry)(m, n) == JoinDatabase(m, n);
    SemilatticeTransfer(MapOf<Key, Entry>(JoinEntry), JoinDatabase);
  }

  lemma SemilatticeTransfer<T(!new)>(f: (T, T) -> T, g: (T, T) -> T)
    requires IsSemilattice(f)
    requires forall x, y :: f(x, y) == g(x, y)
    ensures IsSemilattice(g)
  {
    forall x, y, z ensures g(x, g(y, z)) == g(g(x, y), z) {
      assert f(x, f(y, z)) == f(f(x, y), z);
    }
    forall x, y ensures g(x, y) == g(y, x) {
      assert f(x, y) == f(y, x);
    }
  }

  /** Timestamps and strings are totally ordered, so a join never invents an entry. */
  lemma EntryJoinSelects(a: Entry, b: Entry)
    ensures JoinEntry(a, b) == a || JoinEntry(a, b) == b
  {
  }

  predicate EntryLeq(a: Entry, b: Entry) {
    Leq(JoinEntry, a, b)
  }

  /** The order of the database semilattice: every binding of m is below one of n. */
  predicate Below(m: Database, n: Database) {
    forall k :: k in m ==> k in n && EntryLeq(m[k], n[k])
  }

  /** b has the larger timestamp, or the same and the string that comes later. */
  ghost predicate Later(a: Entry, b: Entry) {
    a.0 < b.0 || (a.0 == b.0 && Before(a.1, b.1))
  }

  ghost predicate NoLater(a: Entry, b: Entry) {
    a == b || Later(a, b)
  }

  /** Joining keeps the later entry. */
  lemma JoinKeepsTheLater(a: Entry, b: Entry)
    ensures JoinEntry(a, b) == if Later(a, b) then b else a
    ensures EntryLeq(a, b) <==> NoLater(a, b)
    ensures a == b || Later(a, b) || Later(b, a)
    ensures Later(a, b) ==> !Later(b, a)
  {
    StringLessIsDictionaryOrder(a.1, b.1);
    StringLessIsDictionaryOrder(b.1, a.1);
    StringLessTrichotomy(a.1, b.1);
    if StringLess(a.1, b.1) && StringLess(b.1, a.1) {
      StringLessTransitive(a.1, b.1, a.1);
      StringLessTrichotomy(a.1, a.1);
    }
  }

  lemma EntryOrder(a: Entry, b: Entry, c: Entry)
    ensures EntryLeq(a, a)
    ensures EntryLeq(a, b) && EntryLeq(b, a) ==> a == b
    ensures EntryLeq(a, b) && EntryLeq(b, c) ==> EntryLeq(a, c)
    ensures EntryLeq(a, JoinEntry(a, b)) && EntryLeq(b, JoinEntry(a, b))
    ensures EntryLeq(a, c) && EntryLeq(b, c) ==> EntryLeq(JoinEntry(a, b), c)
  {
    DatabaseIsSemilattice();
    JoinGivesOrder(JoinEntry);
    var le := Order(JoinEntry);
    assert le(a, b) == EntryLeq(a, b) && le(b, a) == EntryLeq(b, a);
    assert le(b, c) == EntryLeq(b, c) && le(a, c) == EntryLeq(a, c);
    assert IsLub(le, JoinEntry(a, b), a, b);
  }

  lemma BelowIsOrder(m: Database, n: Database, p: Database)
    ensures Below(m, m)
    ensures Below(m, n) && Below(n, m) ==> m == n
    ensures Below(m, n) && Below(n, p) ==> Below(m, p)
  {
    forall k | k in m ensures EntryLeq(m[k], m[k]) { EntryOrder(m[k], m[k], m[k]); }
    if Below(m, n) && Below(n, m) {
      assert m.Keys == n.Keys;
      forall k | k in m ensures m[k] == n[k] { EntryOrder(m[k], n[k], n[k]); }
    }
    if Below(m, n) && Below(n, p) {
      forall k | k in m ensures k in p && EntryLeq(m[k], p[k]) { EntryOrder(m[k], n[k], p[k]); }
    }
  }

  lemma JoinIsLub(m: Database, n: Database, p: Database)
    ensures Below(m, JoinDatabase(m, n)) && Below(n, JoinDatabase(m, n))
    ensures Below(m, p) && Below(n, p) ==> Below(JoinDatabase(m, n), p)
  {
    var j := JoinDatabase(m, n);
    forall k | k in m ensures k in j && EntryLeq(m[k], j[k]) {
      EntryOrder(m[k], if k in n then n[k] else m[k], m[k]);
    }
    forall k | k in n ensures k in j && EntryLeq(n[k], j[k]) {
      EntryOrder(n[k], n[k], n[k]);
      if k in m { EntryOrder(m[k], n[k], n[k]); }
    }
    if Below(m, p) && Below(n, p) {
      forall k | k in j ensures k in p && EntryLeq(j[k], p[k]) {
        if k in m && k in n { EntryOrder(m[k], n[k], p[k]); }
      }
    }
  }

  // ------------------------------------------------------ requests and responses

  datatype Request =
    | BeginTransaction
    | Get(key: Key)
    | Put(timestamp: int, pairs: seq<(Key, string)>)
    | RequestNotSet

  datatype Response = Response(succeed: bool, value: Option<string>, timestamp: Option<int>)

  /** NUM_THREADS and THRESHOLD. */
  datatype Config = Config(numThreads: nat, threshold: int)

  /** The state of one server thread. */
  datatype Replica = Replica(
    kvs: Database,
    localTimestamp: nat,
    updateCounter: int,
    changeSet: set<Key>,
    threadId: nat)

  function InitialReplica(threadId: nat): Replica {
    Replica(map[], 0, 0, {}, threadId)
  }

  /** What handling a request yields: a new state, a response and perhaps a message to
      publish; or the exception `std::stoi` throws out of the handler. */
  datatype Handled =
    | Done(state: Replica, response: Response, gossip: Option<Database>)
    | Thrown

  /** A 64-bit timestamp stored as a 32-bit int. */
  function ToInt32(x: int): int {
    (x + 0x8000_0000) % 0x1_0000_0000 - 0x8000_0000
  }

  function PutPair(r: Replica, t: int, kv: (Key, string)): Replica {
    r.(changeSet := r.changeSet + {kv.0},
       kvs := JoinDatabase(r.kvs, map[kv.0 := (ToInt32(t), kv.1)]),
       updateCounter := r.updateCounter + 1)
  }

  function PutPairs(r: Replica, t: int, pairs: seq<(Key, string)>): Replica {
    if pairs == [] then r
    else PutPair(PutPairs(r, t, pairs[..|pairs| - 1]), t, pairs[|pairs| - 1])
  }

  lemma PutPairsStep(r: Replica, t: int, pairs: seq<(Key, string)>, i: nat)
    requires i < |pairs|
    ensures PutPairs(r, t, pairs[..i + 1]) == PutPair(PutPairs(r, t, pairs[..i]), t, pairs[i])
  {
    assert pairs[..i + 1][..i] == pairs[..i];
  }

  /** Wrap-around: the int that differs from x by a multiple of 2^32. */
  lemma NarrowingWraps(x: int)
    ensures -0x8000_0000 <= ToInt32(x) < 0x8000_0000
    ensures (x - ToInt32(x)) % 0x1_0000_0000 == 0
  {
    assert x - ToInt32(x) == (x + 0x8000_0000) / 0x1_0000_0000 * 0x1_0000_0000;
  }

  /** What one put leaves under each key. */
  lemma PutPairLeaves(r: Replica, t: int, kv: (Key, string), k: Key)
    ensures var m, n, e := r.kvs, PutPair(r, t, kv).kvs, (ToInt32(t), kv.1);
            && (k in n <==> k in m || k == kv.0)
            && (k in n ==> n[k] == if k != kv.0 then m[k] else if k in m && !Later(m[k], e) then m[k] else e)
  {
    if k in r.kvs { JoinKeepsTheLater(r.kvs[k], (ToInt32(t), kv.1)); }
  }

  /** What a whole put request leaves: the latest of the entry that was there and those the
      request has for the key. */
  lemma {:induction false} PutPairsLeave(r: Replica, t: int, pairs: seq<(Key, string)>, k: Key)
    ensures var m, n := r.kvs, PutPairs(r, t, pairs).kvs;
            && (k in m ==> k in n && NoLater(m[k], n[k]))
            && (forall p :: p in pairs && p.0 == k ==> k in n && NoLater((ToInt32(t), p.1), n[k]))
            && (k in n ==> (k in m && n[k] == m[k]) || exists p :: p in pairs && p.0 == k && n[k] == (ToInt32(t), p.1))
  {
    if pairs != [] {
      var before, last := pairs[..|pairs| - 1], pairs[|pairs| - 1];
      var r1 := PutPairs(r, t, before);
      var n1, n := r1.kvs, PutPair(r1, t, last).kvs;
      PutPairsLeave(r, t, before, k);
      PutPairLeaves(r1, t, last, k);
      if k in n1 {
        NoLaterAfterPut(n1[k], n[k], (ToInt32(t), last.1));
        if k in r.kvs { NoLaterTransitive(r.kvs[k], n1[k], n[k]); }
        forall p | p in before && p.0 == k ensures NoLater((ToInt32(t), p.1), n[k]) {
          NoLaterTransitive((ToInt32(t), p.1), n1[k], n[k]);
        }
      }
      assert pairs == before + [last] && last in pairs;
    }
  }

  lemma NoLaterAfterPut(a: Entry, b: Entry, e: Entry)
    ensures b == (if !Later(a, e) then a else e) ==> NoLater(a, b) && NoLater(e, b)
  {
    JoinKeepsTheLater(a, e);
  }

  lemma NoLaterTransitive(a: Entry, b: Entry, c: Entry)
    ensures NoLater(a, b) && NoLater(b, c) ==> NoLater(a, c)
  {
    JoinKeepsTheLater(a, b);
    JoinKeepsTheLater(b, c);
    JoinKeepsTheLater(a, c);
    EntryOrder(a, b, c);
  }

  /** The changed keys with the values they now have. */
  function Delta(kvs: Database, changeSet: set<Key>): Database {
    map k | k in kvs && k in changeSet :: kvs[k]
  }

  predicate MustGossip(c: Config, r: Replica) {
    r.updateCounter >= c.threshold && c.numThreads != 1
  }

  function Gossip(c: Config, r: Replica, response: Response): Handled {
    if MustGossip(c, r) then
      Done(r.(changeSet := {}, updateCounter := 0), response, Some(Delta(r.kvs, r.changeSet)))
    else
      Done(r, response, None)
  }

  function ReadResponse(kvs: Database, key: Key): Response {
    if key !in kvs then Response(false, None, None)
    else Response(true, Some(kvs[key].1), Some(kvs[key].0))
  }

  function Process(c: Config, r: Replica, request: Request): Handled {
    match request
    case BeginTransaction =>
      (match BeginTimestamp(r.localTimestamp, r.threadId)
       case None => Thrown
       case Some(t) =>
         Gossip(c, r.(localTimestamp := r.localTimestamp + 1), Response(true, None, Some(t))))
    case Get(key) => Gossip(c, r, ReadResponse(r.kvs, key))
    case Put(t, pairs) => Gossip(c, PutPairs(r, t, pairs), Response(true, None, None))
    case RequestNotSet => Gossip(c, r, Response(false, None, None))
  }

  function Receive(r: Replica, db: Database): Replica {
    r.(kvs := JoinDatabase(r.kvs, db))
  }

  /** What a received message leaves under each key. */
  lemma ReceiveLeaves(r: Replica, db: Database, k: Key)
    ensures var m, n := r.kvs, Receive(r, db).kvs;
            && (k in n <==> k in m || k in db)
            && (k in n ==> n[k] == if k !in db || (k in m && !Later(m[k], db[k])) then m[k] else db[k])
  {
    if k in r.kvs && k in db { JoinKeepsTheLater(r.kvs[k], db[k]); }
  }

  // ----------------------------------------------------------------- the server

  class Server {
    const config: Config
    const threadId: nat
    const kvs: MapLattice<Key, Entry>
    var localTimestamp: nat
    var updateCounter: int
    var changeSet: set<Key>

    ghost function View(): Replica
      reads this, kvs
    {
      Replica(kvs.kvs, localTimestamp, updateCounter, changeSet, threadId)
    }

    /** Every changed key is bound, so `at` in `send_gossip` never throws. */
    ghost predicate Valid()
      reads this, kvs
    {
      kvs.join == JoinEntry && changeSet <= kvs.kvs.Keys
    }

    constructor (config: Config, threadId: nat)
      ensures Valid() && fresh(kvs)
      ensures View() == InitialReplica(threadId) && this.config == config
    {
      this.config, this.threadId := config, threadId;
      kvs := new MapLattice<Key, Entry>(JoinEntry);
      localTimestamp, updateCounter, changeSet := 0, 0, {};
    }

    /** Returns no response when the exception escapes; the state is then unchanged. */
    method ProcessRequest(request: Request) returns (reply: Option<Response>, gossip: Option<Database>)
      requires Valid()
      modifies this, kvs
      ensures Valid()
      ensures match Process(config, old(View()), request)
              case Done(r, response, g) => View() == r && reply == Some(response) && gossip == g
              case Thrown => View() == old(View()) && reply == None && gossip == None
    {
      gossip := None;
      var response := Response(false, None, None);
      match request {
        case BeginTransaction =>
          var stamp := BeginTimestamp(localTimestamp, threadId);
          if stamp == None {
            return None, None;
          }
          response := Response(true, None, stamp);
          localTimestamp := localTimestamp + 1;
        case Get(key) =>
          var l := kvs.Get(key);
          if l.Some? {
            response := Response(true, Some(l.value.1), Some(l.value.0));
          }
        case Put(t, pairs) =>
          PutAll(t, pairs);
          response := Response(true, None, None);
        case RequestNotSet =>
      }
      if updateCounter >= config.threshold && config.numThreads != 1 {
        var db := SendGossip();
        gossip := Some(db);
        changeSet := {};
        updateCounter := 0;
      }
      reply := Some(response);
    }

    method PutAll(t: int, pairs: seq<(Key, string)>)
      requires Valid()
      modifies this`changeSet, this`updateCounter, kvs
      ensures Valid()
      ensures View() == PutPairs(old(View()), t, pairs)
    {
      for i := 0 to |pairs|
        invariant Valid()
        invariant View() == PutPairs(old(View()), t, pairs[..i])
      {
        PutPairsStep(old(View()), t, pairs, i);
        PutOne(t, pairs[i]);
      }
      assert pairs[..|pairs|] == pairs;
    }

    method PutOne(t: int, kv: (Key, string))
      requires Valid()
      modifies this`changeSet, this`updateCounter, kvs
      ensures Valid()
      ensures View() == PutPair(old(View()), t, kv)
    {
      changeSet := changeSet + {kv.0};
      kvs.Put(kv.0, (ToInt32(t), kv.1));
      updateCounter := updateCounter + 1;
    }

    /** The message is filled key by key from the change set. */
    method SendGossip() returns (db: Database)
      requires Valid()
      ensures db == Delta(kvs.kvs, changeSet)
    {
      var message := new MapLattice<Key, Entry>(JoinEntry);
      var todo := changeSet;
      while todo != {}
        invariant todo <= changeSet
        invariant message.join == JoinEntry
        invariant message.kvs == Delta(kvs.kvs, changeSet - todo)
        decreases |todo|
      {
        var key :| key in todo;
        var value := kvs.Get(key);
        message.Put(key, value.value);
        todo := todo - {key};
      }
      assert changeSet - {} == changeSet;
      db := message.kvs;
    }

    method ReceiveGossip(db: MapLattice<Key, Entry>)
      requires Valid()
      modifies kvs
      ensures Valid()
      ensures View() == Receive(old(View()), old(db.kvs))
    {
      kvs.Join(db);
    }
  }
}
