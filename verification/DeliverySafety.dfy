/** Who gets what: addressing and misdelivery over every run of the delivery protocol. */
module DeliverySafety {
  import opened Envelopes
  import opened QueueTable
  import opened Address
  import opened QueueLedger
  import opened Delivery
  import Registry

  /** `user` is the key of `m`, and it is '@'-free. */
  predicate For(user: User, m: Message, relayId: string) {
    user == KeyOf(m, relayId) && '@' !in user
  }

  ghost predicate RowsAddressed(t: Table, relayId: string) {
    forall id :: id in t.rows ==> For(t.rows[id].recipient, t.rows[id].message, relayId)
  }

  ghost predicate AllFor(user: User, ms: seq<Message>, relayId: string) {
    forall i :: 0 <= i < |ms| ==> For(user, ms[i], relayId)
  }

  ghost predicate ThreadAddressed(t: Thread, relayId: string) {
    match t
    case Arrived(u, m) => For(u, m, relayId)
    case Writing(u, _, m) => For(u, m, relayId)
    case Queueing(u, m) => For(u, m, relayId)
    case Sending(u, _, rest) => AllFor(u, rest, relayId)
    case Requeueing(u, rest) => AllFor(u, rest, relayId)
    case _ => true
  }

  predicate ThreadConnected(t: Thread, sessions: set<Session>) {
    (t.Writing? || t.Draining? || t.Sending?) ==> Session(t.user, t.conn) in sessions
  }

  ghost predicate ThreadSafe(t: Thread, s: State) {
    ThreadAddressed(t, s.relayId) && ThreadConnected(t, s.sessions)
  }

  ghost predicate QueueAddressed(q: Queue, relayId: string) {
    RowsAddressed(q.mem, relayId) && RowsAddressed(q.disk, relayId)
  }

  predicate Delivered(w: Write, s: State) {
    Session(KeyOf(w.message, s.relayId), w.conn) in s.sessions
  }

  /** Every key in use is '@'-free and belongs to its message; every connection in use, and
      every one written to, was registered under the key it is used for. */
  ghost predicate Safe(s: State) {
    && QueueAddressed(s.queue, s.relayId)
    && (forall i :: 0 <= i < |s.threads| ==> ThreadSafe(s.threads[i], s))
    && (forall u :: u in s.clients ==> Session(u, s.clients[u]) in s.sessions)
    && (forall i :: 0 <= i < |s.writes| ==> Delivered(s.writes[i], s))
  }

  // ---------- the store keeps addresses ----------

  lemma PutAddressed(q: Queue, user: User, m: Message, ttl: nat, p: PutInput, relayId: string)
    requires QueueAddressed(q, relayId) && For(user, m, relayId)
    ensures QueueAddressed(Put(q, user, m, ttl, p), relayId)
  {
    EnqueueTable(q.mem, user, m, ttl, p);
    var u := Without(q.mem, Doomed(q.mem, user, p));
    assert RowsAddressed(Insert(u, Row(user, m, p.now + ttl)), relayId);
    assert RowsAddressed(u, relayId);
  }

  lemma OneMoreFor(user: User, ms: seq<Message>, m: Message, relayId: string)
    requires AllFor(user, ms, relayId) && For(user, m, relayId)
    ensures AllFor(user, ms + [m], relayId)
  {
  }

  lemma {:induction false} ReadOutAddressed(t: Table, user: User, now: int, bad: set<nat>, relayId: string, n: nat)
    requires RowsAddressed(t, relayId)
    ensures AllFor(user, ReadOut(t.rows, user, now, bad, n), relayId)
  {
    if n > 0 {
      ReadOutAddressed(t, user, now, bad, relayId, n - 1);
      if n - 1 in t.rows && t.rows[n - 1].recipient == user {
        OneMoreFor(user, ReadOut(t.rows, user, now, bad, n - 1), t.rows[n - 1].message, relayId);
      }
    }
  }

  lemma TakeAddressed(q: Queue, user: User, d: TakeInput, relayId: string)
    requires QueueAddressed(q, relayId)
    ensures QueueAddressed(Take(q, user, d), relayId) && AllFor(user, Taken(q, user, d), relayId)
  {
    ReadOutAddressed(q.mem, user, d.now, d.bad, relayId, q.mem.nextId);
  }

  // ---------- every step is safe ----------

  lemma BecomeSafe(s: State, i: nat, t: Thread, q: Queue)
    requires Safe(s) && i < |s.threads| && ThreadSafe(t, s) && QueueAddressed(q, s.relayId)
    ensures Safe(Become(s.(queue := q), i, t))
  {
  }

  lemma WriteSafe(s: State, i: nat, w: Write, t: Thread)
    requires Safe(s) && i < |s.threads| && ThreadSafe(t, s) && Delivered(w, s)
    ensures Safe(Become(s.(writes := s.writes + [w]), i, t))
  {
  }

  lemma DeliverStepSafe(s: State, e: Event)
    requires Safe(s) && Ready(s, e) && OfDeliver(e)
    ensures Safe(DeliverStep(s, e))
  {
    var t := s.threads[e.i];
    assert ThreadSafe(t, s);
    match e
    case Lookup(i) =>
      BecomeSafe(s, i, DeliverStep(s, e).threads[i], s.queue);
    case WriteDirect(i, ok) =>
      if ok {
        WriteSafe(s, i, Write(t.message, t.conn), Idle);
      } else {
        BecomeSafe(s, i, Queueing(t.user, t.message), s.queue);
      }
    case StoreDirect(i, p) =>
      PutAddressed(s.queue, t.user, t.message, s.ttl, p, s.relayId);
      BecomeSafe(s, i, Idle, Put(s.queue, t.user, t.message, s.ttl, p));
  }

  lemma DrainStepSafe(s: State, e: Event)
    requires Safe(s) && Ready(s, e) && e.DrainStep?
    ensures Safe(FlushStep(s, e))
  {
    var t := s.threads[e.i];
    assert ThreadSafe(t, s);
    if e.commits {
      TakeAddressed(s.queue, t.user, e.take, s.relayId);
      BecomeSafe(s, e.i, Sending(t.user, t.conn, Taken(s.queue, t.user, e.take)), Take(s.queue, t.user, e.take));
    } else {
      BecomeSafe(s, e.i, Idle, s.queue);
    }
  }

  lemma SendStepSafe(s: State, e: Event)
    requires Safe(s) && Ready(s, e) && e.SendNext?
    ensures Safe(FlushStep(s, e))
  {
    var t := s.threads[e.i];
    assert ThreadSafe(t, s);
    assert For(t.user, t.rest[0], s.relayId);
    if e.ok {
      WriteSafe(s, e.i, Write(t.rest[0], t.conn), Sending(t.user, t.conn, t.rest[1..]));
    } else {
      BecomeSafe(s, e.i, Requeueing(t.user, t.rest), s.queue);
    }
  }

  lemma RequeueStepSafe(s: State, e: Event)
    requires Safe(s) && Ready(s, e) && e.RequeueNext?
    ensures Safe(FlushStep(s, e))
  {
    var t := s.threads[e.i];
    assert ThreadSafe(t, s);
    assert For(t.user, t.rest[0], s.relayId);
    PutAddressed(s.queue, t.user, t.rest[0], s.ttl, e.put, s.relayId);
    BecomeSafe(s, e.i, Requeueing(t.user, t.rest[1..]), Put(s.queue, t.user, t.rest[0], s.ttl, e.put));
  }

  lemma SpawnSafe(s: State, t: Thread)
    requires Safe(s) && ThreadSafe(t, s)
    ensures Safe(Spawn(s, t))
  {
  }

  lemma AcceptSafe(s: State, user: User, e: Envelope)
    requires Safe(s) && user == SessionKey(e.recipientId, s.relayId) && '@' !in user
    ensures Safe(Accept(s, user, e))
  {
  }

  lemma ConnectSafe(s: State, user: User, conn: Conn)
    requires Safe(s)
    ensures Safe(s.(clients := Registry.Bound(s.clients, user, conn), sessions := s.sessions + {Session(user, conn)}))
  {
  }

  lemma ConnectStepSafe(s: State, userId: string, conn: Conn)
    requires Safe(s)
    ensures Safe(OtherStep(s, Connect(userId, conn)))
  {
    var user := SessionKey(userId, s.relayId);
    ConnectSafe(s, user, conn);
    SpawnSafe(s.(clients := Registry.Bound(s.clients, user, conn), sessions := s.sessions + {Session(user, conn)}),
              Draining(user, conn));
  }

  lemma QueueOrClientsSafe(s: State, clients: map<User, Conn>, q: Queue)
    requires Safe(s) && QueueAddressed(q, s.relayId) && forall u :: u in clients ==> u in s.clients && clients[u] == s.clients[u]
    ensures Safe(s.(clients := clients, queue := q)) && Safe(s.(clients := map[], threads := [], queue := q))
  {
  }

  lemma OtherStepSafe(s: State, e: Event)
    requires Safe(s) && !OfDeliver(e) && !OfFlush(e)
    ensures Safe(OtherStep(s, e))
  {
    match e
    case Submit(env) =>
      var d := Destine(env.recipientId, s.relayId, env.Sealed?);
      if d.Local? {
        AcceptSafe(s, d.user, env);
      }
    case Federate(env, from) =>
      var u := FederatedUser(env.recipientId, s.relayId);
      if env.Sealed? && u.Some? {
        AcceptSafe(s, u.value, env.(senderRelay := from));
      }
    case Connect(userId, conn) => ConnectStepSafe(s, userId, conn);
    case Disconnect(user, conn) => QueueOrClientsSafe(s, Registry.Released(s.clients, user, conn), s.queue);
    case Sweep(now, _, persists) => QueueOrClientsSafe(s, s.clients, Swept(s.queue, now, persists));
    case Crash => QueueOrClientsSafe(s, s.clients, Reloaded(s.queue, Held(s.threads)));
  }

  lemma StepSafe(s: State, e: Event)
    requires Safe(s)
    ensures Safe(Step(s, e))
  {
    if Ready(s, e) {
      if OfDeliver(e) {
        DeliverStepSafe(s, e);
      } else if OfFlush(e) {
        match e
        case DrainStep(_, _, _) => DrainStepSafe(s, e);
        case SendNext(_, _) => SendStepSafe(s, e);
        case RequeueNext(_, _) => RequeueStepSafe(s, e);
      } else {
        OtherStepSafe(s, e);
      }
    }
  }

  lemma {:induction false} RunSafe(relayId: string, ttl: Ttl, es: seq<Event>, n: nat)
    requires n <= |es|
    ensures Safe(Run(Init(relayId, ttl), es, n))
  {
    if n > 0 {
      RunSafe(relayId, ttl, es, n - 1);
      StepSafe(Run(Init(relayId, ttl), es, n - 1), es[n - 1]);
    }
  }

  lemma {:induction false} RunRelay(relayId: string, ttl: Ttl, es: seq<Event>, n: nat)
    requires n <= |es|
    ensures Run(Init(relayId, ttl), es, n).relayId == relayId
  {
    if n > 0 {
      RunRelay(relayId, ttl, es, n - 1);
    }
  }

  lemma OnlyConnectAddsSessions(s: State, e: Event, x: Session)
    requires x in Step(s, e).sessions && x !in s.sessions
    ensures e.Connect? && e.conn == x.conn && SessionKey(e.userId, s.relayId) == x.user
  {
  }

  /** Every session stands for a Connect event by a client whose id normalises to its key. */
  lemma {:induction false} SessionsAreConnects(relayId: string, ttl: Ttl, es: seq<Event>, n: nat, x: Session) returns (k: nat)
    requires n <= |es| && x in Run(Init(relayId, ttl), es, n).sessions
    ensures k < n && es[k].Connect? && es[k].conn == x.conn && SessionKey(es[k].userId, relayId) == x.user
  {
    var before := Run(Init(relayId, ttl), es, n - 1);
    if x in before.sessions {
      k := SessionsAreConnects(relayId, ttl, es, n - 1, x);
    } else {
      RunRelay(relayId, ttl, es, n - 1);
      OnlyConnectAddsSessions(before, es[n - 1], x);
      k := n - 1;
    }
  }

  lemma StepWrites(s: State, e: Event)
    ensures var s' := Step(s, e);
            || s'.writes == s.writes
            || (s'.sessions == s.sessions && |s'.writes| == |s.writes| + 1 && s'.writes[..|s.writes|] == s.writes)
  {
  }

  /** Every write on record was made by one event. */
  lemma {:induction false} WrittenBy(relayId: string, ttl: Ttl, es: seq<Event>, m: nat, j: nat) returns (n: nat)
    requires m <= |es| && j < |Run(Init(relayId, ttl), es, m).writes|
    ensures n < m && |Run(Init(relayId, ttl), es, n).writes| == j
    ensures |Run(Init(relayId, ttl), es, n + 1).writes| == j + 1
    ensures Run(Init(relayId, ttl), es, n + 1).writes[j] == Run(Init(relayId, ttl), es, m).writes[j]
    ensures Run(Init(relayId, ttl), es, n + 1).sessions == Run(Init(relayId, ttl), es, n).sessions
  {
    StepWrites(Run(Init(relayId, ttl), es, m - 1), es[m - 1]);
    if j < |Run(Init(relayId, ttl), es, m - 1).writes| {
      n := WrittenBy(relayId, ttl, es, m - 1, j);
    } else {
      n := m - 1;
    }
  }

  lemma WriteHasSession(relayId: string, ttl: Ttl, es: seq<Event>, n: nat, j: nat)
    requires n <= |es| && j < |Run(Init(relayId, ttl), es, n).writes|
    ensures var w := Run(Init(relayId, ttl), es, n).writes[j];
            Session(KeyOf(w.message, relayId), w.conn) in Run(Init(relayId, ttl), es, n).sessions
  {
    RunSafe(relayId, ttl, es, n);
    RunRelay(relayId, ttl, es, n);
    assert Delivered(Run(Init(relayId, ttl), es, n).writes[j], Run(Init(relayId, ttl), es, n));
  }

  /** No misdelivery: in every interleaving, also across crashes and failed persists, the event `n`
      that writes a message writes it to a connection that some client opened before, under an id
      that normalises to the message's recipient key. */
  lemma NoMisdelivery(relayId: string, ttl: Ttl, es: seq<Event>, j: nat) returns (k: nat, n: nat)
    requires j < |Run(Init(relayId, ttl), es, |es|).writes|
    ensures k < n < |es|
    ensures |Run(Init(relayId, ttl), es, n).writes| == j && |Run(Init(relayId, ttl), es, n + 1).writes| == j + 1
    ensures var w := Run(Init(relayId, ttl), es, |es|).writes[j];
            && es[k].Connect? && es[k].conn == w.conn
            && SessionKey(es[k].userId, relayId) == SessionKey(w.message.envelope.recipientId, relayId)
  {
    var w := Run(Init(relayId, ttl), es, |es|).writes[j];
    n := WrittenBy(relayId, ttl, es, |es|, j);
    WriteHasSession(relayId, ttl, es, n + 1, j);
    k := SessionsAreConnects(relayId, ttl, es, n, Session(KeyOf(w.message, relayId), w.conn));
  }

  /** Every session has a connection of its own. */
  ghost predicate DistinctConnects(es: seq<Event>) {
    forall i, j :: 0 <= i < j < |es| && es[i].Connect? && es[j].Connect? ==> es[i].conn != es[j].conn
  }

  /** Then whoever opened the connection a message is written to is its recipient. */
  lemma OwnerIsRecipient(relayId: string, ttl: Ttl, es: seq<Event>, j: nat, c: nat)
    requires DistinctConnects(es) && j < |Run(Init(relayId, ttl), es, |es|).writes| && c < |es| && es[c].Connect?
    requires es[c].conn == Run(Init(relayId, ttl), es, |es|).writes[j].conn
    ensures SessionKey(es[c].userId, relayId)
         == SessionKey(Run(Init(relayId, ttl), es, |es|).writes[j].message.envelope.recipientId, relayId)
  {
    var k, n := NoMisdelivery(relayId, ttl, es, j);
    assert k == c;
  }

  /** The registry calls of the running process. */
  function Calls(relayId: string, es: seq<Event>, n: nat): seq<Registry.Call>
    requires n <= |es|
  {
    if n == 0 || es[n - 1].Crash? then []
    else if es[n - 1].Connect? then
      Calls(relayId, es, n - 1) + [Registry.Registers(SessionKey(es[n - 1].userId, relayId), es[n - 1].conn)]
    else if es[n - 1].Disconnect? then
      Calls(relayId, es, n - 1) + [Registry.Unregisters(es[n - 1].user, es[n - 1].conn)]
    else Calls(relayId, es, n - 1)
  }

  lemma StepClients(s: State, e: Event)
    ensures Step(s, e).clients
         == if e.Crash? then map[]
            else if e.Connect? then Registry.Bound(s.clients, SessionKey(e.userId, s.relayId), e.conn)
            else if e.Disconnect? then Registry.Released(s.clients, e.user, e.conn)
            else s.clients
  {
  }

  lemma CallsClients(relayId: string, es: seq<Event>, n: nat)
    requires n < |es|
    ensures var e, m := es[n], Registry.Clients(Calls(relayId, es, n), |Calls(relayId, es, n)|);
            Registry.Clients(Calls(relayId, es, n + 1), |Calls(relayId, es, n + 1)|)
            == if e.Crash? then map[]
               else if e.Connect? then Registry.Bound(m, SessionKey(e.userId, relayId), e.conn)
               else if e.Disconnect? then Registry.Released(m, e.user, e.conn)
               else m
  {
    var h := Calls(relayId, es, n);
    if es[n].Connect? || es[n].Disconnect? {
      Registry.ClientsPrefix(h, Calls(relayId, es, n + 1)[|h|], |h|);
    }
  }

  ghost predicate FollowsRegistry(relayId: string, ttl: Ttl, es: seq<Event>, n: nat)
    requires n <= |es|
  {
    Run(Init(relayId, ttl), es, n).clients == Registry.Clients(Calls(relayId, es, n), |Calls(relayId, es, n)|)
  }

  lemma FollowsNext(relayId: string, ttl: Ttl, es: seq<Event>, n: nat)
    requires n < |es| && FollowsRegistry(relayId, ttl, es, n)
    ensures FollowsRegistry(relayId, ttl, es, n + 1)
  {
    RunRelay(relayId, ttl, es, n);
    StepClients(Run(Init(relayId, ttl), es, n), es[n]);
    CallsClients(relayId, es, n);
  }

  /** The map that deliveries look up in is the registry's, so the registry results apply to it. */
  lemma {:induction false} ClientsFollowRegistry(relayId: string, ttl: Ttl, es: seq<Event>, n: nat)
    requires n <= |es|
    ensures Run(Init(relayId, ttl), es, n).clients == Registry.Clients(Calls(relayId, es, n), |Calls(relayId, es, n)|)
  {
    if n > 0 {
      ClientsFollowRegistry(relayId, ttl, es, n - 1);
      FollowsNext(relayId, ttl, es, n - 1);
    }
  }

  predicate Flushing(t: Thread) {
    t.Sending? || t.Requeueing?
  }

  /** Every queue key and every key a deliver or flush thread delivers under is '@'-free and is
      the key of the messages filed under it; a flush under a foreign id has nothing to send. */
  lemma KeysHaveNoDomain(relayId: string, ttl: Ttl, es: seq<Event>)
    ensures var s := Run(Init(relayId, ttl), es, |es|);
            && (forall id :: id in s.queue.mem.rows ==>
                  For(s.queue.mem.rows[id].recipient, s.queue.mem.rows[id].message, relayId))
            && (forall i :: 0 <= i < |s.threads| && (s.threads[i].Arrived? || s.threads[i].Queueing?) ==>
                  For(s.threads[i].user, s.threads[i].message, relayId))
            && (forall i :: 0 <= i < |s.threads| && Flushing(s.threads[i]) && '@' in s.threads[i].user ==>
                  s.threads[i].rest == [])
  {
    RunSafe(relayId, ttl, es, |es|);
    RunRelay(relayId, ttl, es, |es|);
    var s := Run(Init(relayId, ttl), es, |es|);
    forall i | 0 <= i < |s.threads| && Flushing(s.threads[i]) && '@' in s.threads[i].user
      ensures s.threads[i].rest == []
    {
      var t := s.threads[i];
      assert ThreadSafe(t, s);
      assert |t.rest| > 0 ==> For(t.user, t.rest[0], relayId);
    }
    assert forall i :: 0 <= i < |s.threads| ==> ThreadSafe(s.threads[i], s);
  }
}
