/** What clients are shown when they talk to the gossiping servers, any request going to any
    server. */
module ClientReads {
  import opened Options
  import opened Store
  import opened Clients
  import opened Isolation
  import Replication

  /** What a get prints. */
  ghost function Printed(c: Setting, w: World, a: Action): Output
    requires a.Get? && Enabled(c, w, a)
  {
    GetOutput(w.sessions[a.client], a.key, if Sends(w, a) then Reply(c, w, a) else Response(false, None, None))
  }

  ghost predicate WasCommitted(log: seq<Event>, k: Key, v: string) {
    exists t :: Committed(log, k, (t, v))
  }

  /** Whatever a client has kept of what it read was committed for that key. */
  ghost predicate BuffersCommitted(w: World) {
    forall i, k :: 0 <= i < |w.sessions| && k in w.sessions[i].readBuffer ==>
      WasCommitted(w.log, k, w.sessions[i].readBuffer[k])
  }

  lemma CommittedStays(log: seq<Event>, more: seq<Event>, k: Key, v: string)
    requires WasCommitted(log, k, v) && |more| <= 1
    ensures WasCommitted(log + more, k, v)
  {
    var t :| Committed(log, k, (t, v));
    if more == [] {
      assert log + more == log;
    } else {
      assert more == [more[0]];
      MoreCommitted(log, more[0], k, (t, v));
    }
  }

  lemma RepliesAreCommitted(c: Setting, w: World, a: Action)
    requires Invariant(c, w) && a.Get? && Enabled(c, w, a) && Sends(w, a)
    ensures a.server < |w.system.replicas|
    ensures var reply := Reply(c, w, a);
            && (reply.succeed <==> a.key in w.system.replicas[a.server].kvs)
            && (reply.succeed ==> reply.value.Some? && WasCommitted(w.log, a.key, reply.value.value))
  {
    var kvs := w.system.replicas[a.server].kvs;
    Replication.GetAnswers(c.config, w.system.replicas[a.server], a.key);
    if a.key in kvs {
      StoredIsCommitted(c, w, a.server, a.key);
      assert kvs[a.key] == (kvs[a.key].0, kvs[a.key].1);
    }
  }

  /** A read buffer only gets what a server has just replied. */
  lemma ReadBufferAfter(c: Setting, w: World, a: Action, k: Key)
    requires Enabled(c, w, a) && !a.Network?
    ensures var s, s' := w.sessions[a.client], SessionAfter(c, w, a);
            k in s'.readBuffer ==>
              || (k in s.readBuffer && s'.readBuffer[k] == s.readBuffer[k])
              || (a.Get? && a.key == k && Sends(w, a) && Reply(c, w, a).succeed
                  && s'.readBuffer[k] == ValueOf(Reply(c, w, a)))
  {
  }

  lemma BufferStaysCommitted(c: Setting, w: World, a: Action, k: Key)
    requires Invariant(c, w) && BuffersCommitted(w) && Enabled(c, w, a) && !a.Network?
    requires k in SessionAfter(c, w, a).readBuffer
    ensures WasCommitted(w.log, k, SessionAfter(c, w, a).readBuffer[k])
  {
    ReadBufferAfter(c, w, a, k);
    if a.Get? && Sends(w, a) { RepliesAreCommitted(c, w, a); }
  }

  lemma SessionsAfter(c: Setting, w: World, a: Action, i: nat)
    requires Enabled(c, w, a) && i < |w.sessions|
    ensures var w' := Next(c, w, a);
            && |w'.sessions| == |w.sessions| && w'.log == w.log + EventsOf(w, a) && |EventsOf(w, a)| <= 1
            && w'.sessions[i] == if !a.Network? && i == a.client then SessionAfter(c, w, a) else w.sessions[i]
  {
  }

  lemma NextKeepsBuffer(c: Setting, w: World, a: Action, i: nat, k: Key)
    requires Invariant(c, w) && BuffersCommitted(w) && Enabled(c, w, a)
    requires i < |w.sessions| == |Next(c, w, a).sessions| && k in Next(c, w, a).sessions[i].readBuffer
    ensures WasCommitted(Next(c, w, a).log, k, Next(c, w, a).sessions[i].readBuffer[k])
  {
    SessionsAfter(c, w, a, i);
    if !a.Network? && i == a.client { BufferStaysCommitted(c, w, a, k); }
    CommittedStays(w.log, EventsOf(w, a), k, Next(c, w, a).sessions[i].readBuffer[k]);
  }

  lemma NextKeepsBuffers(c: Setting, w: World, a: Action)
    requires Invariant(c, w) && BuffersCommitted(w) && Enabled(c, w, a)
    ensures BuffersCommitted(Next(c, w, a))
  {
    var w' := Next(c, w, a);
    assert |w'.sessions| == |w.sessions|;
    forall i, k | 0 <= i < |w'.sessions| && k in w'.sessions[i].readBuffer
      ensures WasCommitted(w'.log, k, w'.sessions[i].readBuffer[k])
    {
      NextKeepsBuffer(c, w, a, i, k);
    }
  }

  lemma {:induction false} RunKeepsBuffers(c: Setting, w: World, actions: seq<Action>)
    requires Invariant(c, w) && BuffersCommitted(w) && RunFrom(c, w, actions).Some?
    ensures BuffersCommitted(RunFrom(c, w, actions).value)
    decreases |actions|
  {
    if actions != [] {
      NextKeepsBuffers(c, w, actions[0]);
      NextKeepsInvariant(c, w, actions[0]);
      RunKeepsBuffers(c, Next(c, w, actions[0]), actions[1..]);
    }
  }

  lemma InitIsInvariant(c: Setting)
    ensures Invariant(c, Init(c)) && BuffersCommitted(Init(c))
  {
    assert Run(c, []) == Some(Init(c));
    RunIsInvariant(c, []);
  }

  lemma ReachedIsInvariant(c: Setting, actions: seq<Action>)
    requires Run(c, actions).Some?
    ensures Invariant(c, Run(c, actions).value) && BuffersCommitted(Run(c, actions).value)
  {
    InitIsInvariant(c);
    RunKeepsBuffers(c, Init(c), actions);
    RunKeepsInvariant(c, Init(c), actions);
  }

  lemma OwnWrite(log: seq<Event>, client: nat, s: Session, k: Key)
    requires SessionOk(log, client, s)
    ensures k in s.writeBuffer ==> FinalWrite(log, |log|, client, k, s.writeBuffer[k])
    ensures forall v :: FinalWrite(log, |log|, client, k, v) ==> k in s.writeBuffer && s.writeBuffer[k] == v
  {
  }

  lemma NotOwnWrite(c: Setting, w: World, a: Action)
    requires Invariant(c, w) && BuffersCommitted(w) && a.Get? && Enabled(c, w, a)
    requires a.key !in w.sessions[a.client].writeBuffer
    ensures match Printed(c, w, a)
            case Shown(v) => WasCommitted(w.log, a.key, v)
            case Error => a.server < |w.system.replicas| && a.key !in w.system.replicas[a.server].kvs
            case _ => false
  {
    if Sends(w, a) { RepliesAreCommitted(c, w, a); }
  }

  /** A get of k by a client that has put k in its open transaction shows the last value it put;
      any other get shows a value that some ended transaction last put for k, or an error, and
      the latter only if the server asked has no value for k. */
  ghost predicate ReadsCommitted(w: World, a: Action, shown: Output)
    requires a.Get?
  {
    && (forall v :: FinalWrite(w.log, |w.log|, a.client, a.key, v) ==> shown == Shown(v))
    && ((forall v :: !FinalWrite(w.log, |w.log|, a.client, a.key, v)) ==>
          match shown
          case Shown(v) => WasCommitted(w.log, a.key, v)
          case Error => a.server < |w.system.replicas| && a.key !in w.system.replicas[a.server].kvs
          case _ => false)
  }

  lemma GetReadsCommitted(c: Setting, w: World, a: Action)
    requires Invariant(c, w) && BuffersCommitted(w) && a.Get? && Enabled(c, w, a)
    ensures ReadsCommitted(w, a, Printed(c, w, a))
  {
    OwnWrite(w.log, a.client, w.sessions[a.client], a.key);
    if a.key !in w.sessions[a.client].writeBuffer { NotOwnWrite(c, w, a); }
  }

  /** So it is with every get of every run. */
  lemma ClientsReadCommitted(c: Setting, actions: seq<Action>, a: Action)
    requires Run(c, actions).Some? && a.Get? && Enabled(c, Run(c, actions).value, a)
    ensures ReadsCommitted(Run(c, actions).value, a, Printed(c, Run(c, actions).value, a))
  {
    ReachedIsInvariant(c, actions);
    GetReadsCommitted(c, Run(c, actions).value, a);
  }
}
