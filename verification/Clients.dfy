/** The READ COMMITTED and Item Cut Isolation clients (src/key_value_stores/rc_client.cc,
    ici_client.cc): the buffers they keep, and what these promise whatever the server
    answers. The two differ in one point, `caching`: whether a fetched value is kept. */
module Clients {
  import opened Options
  import opened Store

  datatype Session = Session(
    currentTimestamp: int,
    writeBuffer: map<Key, string>,
    readBuffer: map<Key, string>)

  /** What a command prints. */
  datatype Output =
    | Shown(value: string)
    | Stamp(timestamp: int)
    | Error
    | BeginFirst
    | Silent

  const InitialSession := Session(-1, map[], map[])

  function AfterBegin(s: Session, reply: Response): Session {
    if reply.succeed then s.(currentTimestamp := ToInt32(TimestampOf(reply))) else s
  }

  /** An unset protobuf field reads as zero or as the empty string. */
  function TimestampOf(reply: Response): int {
    match reply.timestamp case Some(t) => t case None => 0
  }

  function ValueOf(reply: Response): string {
    match reply.value case Some(v) => v case None => ""
  }

  predicate Buffered(s: Session, k: Key) {
    k in s.writeBuffer || k in s.readBuffer
  }

  function AfterGet(caching: bool, s: Session, k: Key, reply: Response): Session {
    if Buffered(s, k) || !reply.succeed || !caching then s
    else s.(readBuffer := s.readBuffer[k := ValueOf(reply)])
  }

  function GetOutput(s: Session, k: Key, reply: Response): Output {
    if k in s.writeBuffer then Shown(s.writeBuffer[k])
    else if k in s.readBuffer then Shown(s.readBuffer[k])
    else if reply.succeed then Shown(ValueOf(reply))
    else Error
  }

  predicate Accepts(s: Session) {
    s.currentTimestamp != -1
  }

  function AfterPut(s: Session, k: Key, v: string): Session {
    if Accepts(s) then s.(writeBuffer := s.writeBuffer[k := v]) else s
  }

  function AfterEnd(s: Session): Session {
    s.(writeBuffer := map[], readBuffer := map[])
  }

  /** The buffer's bindings, each once, in whatever order its hash table yields them. */
  ghost predicate Enumerates(pairs: seq<(Key, string)>, m: map<Key, string>) {
    && (forall i :: 0 <= i < |pairs| ==> pairs[i].0 in m && m[pairs[i].0] == pairs[i].1)
    && (forall i, j :: 0 <= i < j < |pairs| ==> pairs[i].0 != pairs[j].0)
    && (forall k :: k in m ==> (k, m[k]) in pairs)
  }

  // --------------------------------------------------------------- the two clients

  /** A method is handed the reply the server would send; it is read only if the method
      sends a request, which is then returned in `sent`. */
  class RcClient {
    var currentTimestamp: int
    var writeBuffer: map<Key, string>

    function View(): Session
      reads this
    {
      Session(currentTimestamp, writeBuffer, map[])
    }

    constructor ()
      ensures View() == InitialSession
    {
      currentTimestamp, writeBuffer := -1, map[];
    }

    method Begin(reply: Response) returns (sent: Option<Request>, out: Output)
      modifies this`currentTimestamp
      ensures View() == AfterBegin(old(View()), reply)
      ensures sent == Some(BeginTransaction)
      ensures out == if reply.succeed then Stamp(ToInt32(TimestampOf(reply))) else Error
    {
      sent := Some(BeginTransaction);
      if reply.succeed {
        currentTimestamp := ToInt32(TimestampOf(reply));
        out := Stamp(currentTimestamp);
      } else {
        out := Error;
      }
    }

    method Get(k: Key, reply: Response) returns (sent: Option<Request>, out: Output)
      ensures out == GetOutput(View(), k, reply) && View() == AfterGet(false, View(), k, reply)
      ensures sent == if Buffered(View(), k) then None else Some(Request.Get(k))
    {
      if k in writeBuffer {
        return None, Shown(writeBuffer[k]);
      }
      sent := Some(Request.Get(k));
      out := if reply.succeed then Shown(ValueOf(reply)) else Error;
    }

    method Put(k: Key, v: string) returns (out: Output)
      modifies this`writeBuffer
      ensures View() == AfterPut(old(View()), k, v)
      ensures out == if Accepts(old(View())) then Silent else BeginFirst
    {
      if currentTimestamp == -1 {
        out := BeginFirst;
      } else {
        writeBuffer := writeBuffer[k := v];
        out := Silent;
      }
    }

    method End(reply: Response) returns (sent: Option<Request>, out: Output)
      modifies this`writeBuffer
      ensures View() == AfterEnd(old(View()))
      ensures sent.Some? && sent.value.Put? && sent.value.timestamp == currentTimestamp
      ensures Enumerates(sent.value.pairs, old(writeBuffer))
      ensures out == if reply.succeed then Silent else Error
    {
      var pairs := Pairs(writeBuffer);
      sent := Some(Request.Put(currentTimestamp, pairs));
      out := if reply.succeed then Silent else Error;
      writeBuffer := map[];
    }
  }

  lemma EnumeratesOneMore(pairs: seq<(Key, string)>, m: map<Key, string>, todo: set<Key>, k: Key)
    requires k in todo && todo <= m.Keys && Enumerates(pairs, m - todo)
    ensures Enumerates(pairs + [(k, m[k])], m - (todo - {k}))
  {
    var pairs' := pairs + [(k, m[k])];
    forall q | q in m - (todo - {k}) ensures (q, m[q]) in pairs' {
      if q == k {
        assert pairs'[|pairs|] == (k, m[k]);
      } else {
        assert (q, (m - todo)[q]) in pairs;
      }
    }
  }

  method Pairs(m: map<Key, string>) returns (pairs: seq<(Key, string)>)
    ensures Enumerates(pairs, m)
  {
    pairs := [];
    var todo := m.Keys;
    while todo != {}
      invariant todo <= m.Keys
      invariant Enumerates(pairs, m - todo)
      decreases |todo|
    {
      var k :| k in todo;
      EnumeratesOneMore(pairs, m, todo, k);
      pairs := pairs + [(k, m[k])];
      todo := todo - {k};
    }
    assert m - {} == m;
  }

  class IciClient {
    var currentTimestamp: int
    var writeBuffer: map<Key, string>
    var readBuffer: map<Key, string>

    function View(): Session
      reads this
    {
      Session(currentTimestamp, writeBuffer, readBuffer)
    }

    constructor ()
      ensures View() == InitialSession
    {
      currentTimestamp, writeBuffer, readBuffer := -1, map[], map[];
    }

    method Begin(reply: Response) returns (sent: Option<Request>, out: Output)
      modifies this`currentTimestamp
      ensures View() == AfterBegin(old(View()), reply)
      ensures sent == Some(BeginTransaction)
      ensures out == if reply.succeed then Stamp(ToInt32(TimestampOf(reply))) else Error
    {
      sent := Some(BeginTransaction);
      if reply.succeed {
        currentTimestamp := ToInt32(TimestampOf(reply));
        out := Stamp(currentTimestamp);
      } else {
        out := Error;
      }
    }

    method Get(k: Key, reply: Response) returns (sent: Option<Request>, out: Output)
      modifies this`readBuffer
      ensures out == GetOutput(old(View()), k, reply)
      ensures View() == AfterGet(true, old(View()), k, reply)
      ensures sent == if Buffered(old(View()), k) then None else Some(Request.Get(k))
    {
      if k in writeBuffer {
        return None, Shown(writeBuffer[k]);
      } else if k in readBuffer {
        return None, Shown(readBuffer[k]);
      }
      sent := Some(Request.Get(k));
      if reply.succeed {
        readBuffer := readBuffer[k := ValueOf(reply)];
        out := Shown(ValueOf(reply));
      } else {
        out := Error;
      }
    }

    method Put(k: Key, v: string) returns (out: Output)
      modifies this`writeBuffer
      ensures View() == AfterPut(old(View()), k, v)
      ensures out == if Accepts(old(View())) then Silent else BeginFirst
    {
      if currentTimestamp == -1 {
        out := BeginFirst;
      } else {
        writeBuffer := writeBuffer[k := v];
        out := Silent;
      }
    }

    method End(reply: Response) returns (sent: Option<Request>, out: Output)
      modifies this`writeBuffer, this`readBuffer
      ensures View() == AfterEnd(old(View()))
      ensures sent.Some? && sent.value.Put? && sent.value.timestamp == currentTimestamp
      ensures Enumerates(sent.value.pairs, old(writeBuffer))
      ensures out == if reply.succeed then Silent else Error
    {
      var pairs := Pairs(writeBuffer);
      sent := Some(Request.Put(currentTimestamp, pairs));
      out := if reply.succeed then Silent else Error;
      writeBuffer := map[];
      readBuffer := map[];
    }
  }

  // ------------------------------------------- sessions against an arbitrary server

  /** Each command with the reply an arbitrary, changing server would give to it. */
  datatype Op =
    | OpBegin(reply: Response)
    | OpGet(key: Key, reply: Response)
    | OpPut(key: Key, value: string)
    | OpEnd(reply: Response)

  function Step(caching: bool, s: Session, op: Op): Session {
    match op
    case OpBegin(reply) => AfterBegin(s, reply)
    case OpGet(k, reply) => AfterGet(caching, s, k, reply)
    case OpPut(k, v) => AfterPut(s, k, v)
    case OpEnd(_) => AfterEnd(s)
  }

  function After(caching: bool, ops: seq<Op>): Session {
    if ops == [] then InitialSession
    else Step(caching, After(caching, ops[..|ops| - 1]), ops[|ops| - 1])
  }

  /** What the get at position i prints. */
  function Read(caching: bool, ops: seq<Op>, i: nat): Output
    requires i < |ops| && ops[i].OpGet?
  {
    GetOutput(After(caching, ops[..i]), ops[i].key, ops[i].reply)
  }

  /** A put that the session accepts, having a timestamp, at position i. */
  predicate AcceptedPut(caching: bool, ops: seq<Op>, i: nat, k: Key)
    requires i < |ops|
  {
    ops[i].OpPut? && ops[i].key == k && Accepts(After(caching, ops[..i]))
  }

  /** Strictly between i and j the transaction does not end and k is not overwritten. */
  ghost predicate Undisturbed(caching: bool, ops: seq<Op>, i: nat, j: nat, k: Key)
    requires j <= |ops|
  {
    forall l :: i < l < j ==> !ops[l].OpEnd? && !AcceptedPut(caching, ops, l, k)
  }

  predicate Holds(s: Session, k: Key, v: string) {
    if k in s.writeBuffer then s.writeBuffer[k] == v
    else k in s.readBuffer && s.readBuffer[k] == v
  }

  /** What is buffered for k after position i stays buffered. */
  lemma {:induction false} BufferPersists(caching: bool, ops: seq<Op>, i: nat, j: nat, k: Key, v: string)
    requires i < j <= |ops| && Undisturbed(caching, ops, i, j, k)
    requires Holds(After(caching, ops[..i + 1]), k, v)
    ensures Holds(After(caching, ops[..j]), k, v)
    decreases j
  {
    if j > i + 1 {
      BufferPersists(caching, ops, i, j - 1, k, v);
      assert ops[..j][..j - 1] == ops[..j - 1];
      assert !AcceptedPut(caching, ops, j - 1, k);
    }
  }

  predicate Begins(op: Op) {
    op.OpBegin? && op.reply.succeed
  }

  predicate LastBegin(ops: seq<Op>, i: nat)
    requires i < |ops|
  {
    Begins(ops[i]) && forall j :: i < j < |ops| ==> !Begins(ops[j])
  }

  /** A session runs under the timestamp of the last begin that succeeded, whatever came before
      and after it, and under -1 if there was none. */
  lemma {:induction false} TimestampIsTheLastBegins(caching: bool, ops: seq<Op>)
    ensures var t := After(caching, ops).currentTimestamp;
            && (forall i :: 0 <= i < |ops| && LastBegin(ops, i) ==>
                  t == ToInt32(match ops[i].reply.timestamp case Some(x) => x case None => 0))
            && ((forall i :: 0 <= i < |ops| ==> !Begins(ops[i])) ==> t == -1)
  {
    if ops != [] {
      var before := ops[..|ops| - 1];
      TimestampIsTheLastBegins(caching, before);
      forall i | 0 <= i < |before| && LastBegin(ops, i) ensures LastBegin(before, i) {}
    }
  }

  lemma AfterSnoc(caching: bool, ops: seq<Op>, i: nat)
    requires i < |ops|
    ensures After(caching, ops[..i + 1]) == Step(caching, After(caching, ops[..i]), ops[i])
  {
    assert ops[..i + 1][..i] == ops[..i];
  }

  /** Item cut isolation: a successful read of k is repeated by every later read of k in the
      same transaction, unless the transaction itself wrote k, whatever the server answers. */
  lemma ItemCutIsolation(ops: seq<Op>, i: nat, j: nat)
    requires i < j < |ops| && ops[i].OpGet? && ops[j].OpGet? && ops[i].key == ops[j].key
    requires Undisturbed(true, ops, i, j, ops[i].key)
    requires Read(true, ops, i).Shown?
    ensures Read(true, ops, j) == Read(true, ops, i)
  {
    AfterSnoc(true, ops, i);
    BufferPersists(true, ops, i, j, ops[i].key, Read(true, ops, i).value);
  }

  /** Both clients read their own writes: the most recently accepted value. */
  lemma ReadYourWrites(caching: bool, ops: seq<Op>, i: nat, j: nat)
    requires i < j < |ops| && ops[j].OpGet? && AcceptedPut(caching, ops, i, ops[j].key)
    requires Undisturbed(caching, ops, i, j, ops[j].key)
    ensures Read(caching, ops, j) == Shown(ops[i].value)
  {
    AfterSnoc(caching, ops, i);
    BufferPersists(caching, ops, i, j, ops[j].key, ops[i].value);
  }

  /** A read that fails leaves no trace, so the next one asks the server again. */
  lemma FailedReadsAreNotCached(caching: bool, ops: seq<Op>, i: nat)
    requires i < |ops| && ops[i].OpGet? && Read(caching, ops, i) == Error
    ensures After(caching, ops[..i + 1]) == After(caching, ops[..i])
    ensures !Buffered(After(caching, ops[..i + 1]), ops[i].key)
  {
    AfterSnoc(caching, ops, i);
  }

  /** A get is answered locally exactly when, since the last end, k was successfully read by
      a caching client or an accepted put wrote it. */
  ghost predicate TouchedAt(caching: bool, ops: seq<Op>, i: nat, k: Key)
    requires i < |ops|
  {
    && (AcceptedPut(caching, ops, i, k)
        || (caching && ops[i].OpGet? && ops[i].key == k && Read(caching, ops, i).Shown?))
    && forall l :: i < l < |ops| ==> !ops[l].OpEnd?
  }

  lemma {:induction false} AnsweredLocallyIff(caching: bool, ops: seq<Op>, k: Key)
    ensures Buffered(After(caching, ops), k) <==> exists i :: 0 <= i < |ops| && TouchedAt(caching, ops, i, k)
  {
    if ops != [] {
      var n := |ops| - 1;
      var before := ops[..n];
      AnsweredLocallyIff(caching, before, k);
      assert forall i :: 0 <= i < n ==> before[..i] == ops[..i];
      assert forall i :: 0 <= i < n && !ops[n].OpEnd? ==>
        (TouchedAt(caching, before, i, k) <==> TouchedAt(caching, ops, i, k));
      if Buffered(After(caching, ops), k) {
        if Buffered(After(caching, before), k) {
          var i :| 0 <= i < n && TouchedAt(caching, before, i, k);
          assert TouchedAt(caching, ops, i, k);
        } else {
          assert TouchedAt(caching, ops, n, k);
        }
      }
      if i :| 0 <= i < |ops| && TouchedAt(caching, ops, i, k) {
        if i < n {
          assert !ops[n].OpEnd?;
          assert TouchedAt(caching, before, i, k);
        }
      }
    }
  }

  /** Every other get shows what the server replies. */
  lemma ReadFromServer(caching: bool, ops: seq<Op>, k: Key, reply: Response)
    requires forall i :: 0 <= i < |ops| ==> !TouchedAt(caching, ops, i, k)
    ensures Read(caching, ops + [OpGet(k, reply)], |ops|) ==
              if !reply.succeed then Error else Shown(match reply.value case Some(v) => v case None => "")
  {
    AnsweredLocallyIff(caching, ops, k);
    assert (ops + [OpGet(k, reply)])[..|ops|] == ops;
  }

  /** Two gets of k in a row, to which the server would reply r1 and r2, show the same. */
  predicate Agree(caching: bool, ops: seq<Op>, k: Key, r1: Response, r2: Response) {
    var more := ops + [OpGet(k, r1), OpGet(k, r2)];
    Read(caching, more, |ops| + 1) == Read(caching, more, |ops|)
  }

  lemma TwoReads(caching: bool, ops: seq<Op>, k: Key, r1: Response, r2: Response)
    ensures var s := After(caching, ops);
            Agree(caching, ops, k, r1, r2) <==>
              GetOutput(AfterGet(caching, s, k, r1), k, r2) == GetOutput(s, k, r1)
  {
    var more := ops + [OpGet(k, r1), OpGet(k, r2)];
    assert more[..|ops|] == ops;
    AfterSnoc(caching, more, |ops|);
  }

  /** After any history two reads in a row agree for all replies if and only if the key is
      buffered; that a read which succeeded is repeated is, without the read buffer, true if
      and only if an accepted put has written the key since the last end. */
  lemma ReadsAgreeIff(caching: bool, ops: seq<Op>, k: Key)
    ensures (forall r1: Response, r2: Response :: Agree(caching, ops, k, r1, r2)) <==> Buffered(After(caching, ops), k)
    ensures (forall r1: Response, r2: Response :: r1.succeed ==> Agree(caching, ops, k, r1, r2)) <==>
              caching || exists i :: 0 <= i < |ops| && TouchedAt(false, ops, i, k)
  {
    forall r1: Response, r2: Response
      ensures Buffered(After(caching, ops), k) ==> Agree(caching, ops, k, r1, r2)
      ensures caching && r1.succeed ==> Agree(caching, ops, k, r1, r2)
    {
      TwoReads(caching, ops, k, r1, r2);
    }
    if !Buffered(After(caching, ops), k) {
      var v, w := Response(true, Some("v"), None), Response(true, Some("w"), None);
      var failed := Response(false, None, None);
      TwoReads(caching, ops, k, v, w);
      TwoReads(caching, ops, k, failed, w);
      assert !Agree(caching, ops, k, failed, w);
      assert !caching ==> !Agree(caching, ops, k, v, w);
    }
    AnsweredLocallyIff(false, ops, k);
  }
}
