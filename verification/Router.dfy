/** Router.deliver and Router.FlushQueue as code that runs without interleaving, and what a
    failed flush does to the queue. */
module Router {
  import opened Envelopes
  import opened Address
  import opened QueueTable
  import opened QueueFifo
  import opened QueueRuns
  import opened RelayStore

  /** The environment of one Enqueue call. */
  datatype PutEnv = PutEnv(sqlNow: int, now: int, fault: Fault, persists: bool)

  function PutOp(user: User, m: Message, env: PutEnv): Op {
    Put(user, m, env.sqlNow, env.now, env.fault, env.persists)
  }

  datatype Fate = WrittenTo(conn: Conn) | Held(user: User) | Forwarded(domain: string) | Dropped

  /** deliver: a message is written to the recipient's current connection, or else queued under
      the recipient's session key, or leaves the store alone. */
  method Deliver(store: Store, relayId: string, recipientId: string, m: Message, writeOk: bool, env: PutEnv)
    returns (fate: Fate)
    requires store.Valid()
    modifies store`table, store`disk
    ensures store.Valid()
    ensures fate.Held? ==> store.View() == Step(old(store.View()), PutOp(fate.user, m, env), store.ttl)
    ensures !fate.Held? ==> store.View() == old(store.View())
    ensures fate.WrittenTo? || fate.Held? <==> '@' !in SessionKey(recipientId, relayId)
    ensures fate.Held? ==> fate.user == SessionKey(recipientId, relayId)
    ensures fate.WrittenTo? || fate.Held?
       ==> (fate.WrittenTo? <==> SessionKey(recipientId, relayId) in store.clients && writeOk)
    ensures fate.WrittenTo? ==> fate.conn == store.clients[SessionKey(recipientId, relayId)]
    ensures fate.Forwarded? ==> m.envelope.Sealed? && !IsLocalRelay(fate.domain, relayId)
  {
    var d := Destine(recipientId, relayId, m.envelope.Sealed?);
    if d.Forward? {
      return Forwarded(d.domain);
    }
    if d.Discard? {
      return Dropped;
    }
    var conn := store.LookupClient(d.user);
    if conn.Some? && writeOk {
      return WrittenTo(conn.value);
    }
    store.Enqueue(d.user, m, env.sqlNow, env.now, env.fault, env.persists);
    fate := Held(d.user);
  }

  /** Re-enqueueing the first `n` of `msgs`, each in its own environment. */
  function Requeue(s: State, user: User, msgs: seq<Message>, envs: nat -> PutEnv, n: nat, ttl: nat): State
    requires n <= |msgs|
  {
    if n == 0 then s
    else Step(Requeue(s, user, msgs, envs, n - 1, ttl), PutOp(user, msgs[n - 1], envs(n - 1)), ttl)
  }

  /** The loop over msgs[i:] after a failed write. */
  method RequeueAll(store: Store, user: User, leftover: seq<Message>, envs: nat -> PutEnv)
    requires store.Valid()
    modifies store`table, store`disk
    ensures store.Valid()
    ensures store.View() == Requeue(old(store.View()), user, leftover, envs, |leftover|, store.ttl)
  {
    for k := 0 to |leftover|
      invariant store.Valid()
      invariant store.View() == Requeue(old(store.View()), user, leftover, envs, k, store.ttl)
    {
      store.Enqueue(user, leftover[k], envs(k).sqlNow, envs(k).now, envs(k).fault, envs(k).persists);
    }
  }

  /** FlushQueue: `sends(i)` tells whether the write of message i succeeds, `envs(k)` is the
      environment of the k-th re-enqueue. */
  method FlushQueue(store: Store, user: User, drain: Op, sends: nat -> bool, envs: nat -> PutEnv)
    returns (msgs: seq<Message>, sent: nat)
    requires store.Valid() && drain.Take? && drain.recipient == user
    modifies store`table, store`disk
    ensures store.Valid()
    ensures Shows(old(store.View()), drain, store.ttl) == Delivered(msgs)
    ensures sent <= |msgs| && (forall i :: 0 <= i < sent ==> sends(i)) && (sent < |msgs| ==> !sends(sent))
    ensures store.View() == Requeue(Step(old(store.View()), drain, store.ttl), user, msgs[sent..],
                                    envs, |msgs| - sent, store.ttl)
  {
    msgs := store.DrainQueue(user, drain.now, drain.commits, drain.bad, drain.persists);
    sent := 0;
    while sent < |msgs| && sends(sent)
      invariant sent <= |msgs| && forall i :: 0 <= i < sent ==> sends(i)
    {
      sent := sent + 1;
    }
    RequeueAll(store, user, msgs[sent..], envs);
  }

  // ---------- a failed flush ----------

  /** When re-enqueue `j` runs, no earlier one's row has expired. */
  ghost predicate InTimeAt(envs: nat -> PutEnv, j: nat, ttl: nat) {
    forall i :: 0 <= i < j ==> envs(j).sqlNow <= envs(i).now + ttl
  }

  /** None of the first `n` re-enqueues runs after an earlier one's row has expired. */
  ghost predicate WithinTtl(envs: nat -> PutEnv, n: nat, ttl: nat) {
    n > 0 ==> WithinTtl(envs, n - 1, ttl) && InTimeAt(envs, n - 1, ttl)
  }

  function Leftover(msgs: seq<Message>, envs: nat -> PutEnv, n: nat, ttl: nat): seq<Entry>
    requires n <= |msgs|
  {
    seq(n, i requires 0 <= i < n => Entry(msgs[i], envs(i).now + ttl))
  }

  lemma {:induction false} FreshIff(q: seq<Entry>, now: int)
    ensures |Fresh(q, now)| <= |q|
    ensures Fresh(q, now) == q <==> forall i :: 0 <= i < |q| ==> q[i].expiresAt >= now
    ensures |Fresh(q, now)| == |q| ==> Fresh(q, now) == q
  {
    if q != [] {
      var init := q[..|q| - 1];
      FreshIff(init, now);
      assert q == init + [q[|q| - 1]];
    }
  }

  /** One more re-enqueue onto a queue below the cap. */
  lemma RequeuePushes(s: State, user: User, m: Message, env: PutEnv, ttl: nat)
    requires WellFormed(s.mem) && env.fault == NoFault && |Fifo(s.mem, user)| < MAX_QUEUE
    ensures Fifo(Step(s, PutOp(user, m, env), ttl).mem, user)
         == Fresh(Fifo(s.mem, user), env.sqlNow) + [Entry(m, env.now + ttl)]
  {
    EnqueueRefines(s.mem, user, m, ttl, env.sqlNow, env.now, user);
    FreshIff(Fifo(s.mem, user), env.sqlNow);
  }

  /** What `n` re-enqueues leave of the first `n` leftovers: all of them exactly when in time. */
  ghost predicate Filled(q: seq<Entry>, msgs: seq<Message>, envs: nat -> PutEnv, n: nat, ttl: nat)
    requires n <= |msgs|
  {
    && |q| <= n
    && (WithinTtl(envs, n, ttl) ==> q == Leftover(msgs, envs, n, ttl))
    && (|q| == n ==> WithinTtl(envs, n, ttl))
  }

  lemma InTime(q: seq<Entry>, msgs: seq<Message>, envs: nat -> PutEnv, n: nat, ttl: nat)
    requires n < |msgs| && q == Leftover(msgs, envs, n, ttl)
    ensures InTimeAt(envs, n, ttl) <==> Fresh(q, envs(n).sqlNow) == q
  {
    FreshIff(q, envs(n).sqlNow);
    assert forall i :: 0 <= i < n ==> q[i].expiresAt == envs(i).now + ttl;
  }

  lemma FilledStep(q: seq<Entry>, msgs: seq<Message>, envs: nat -> PutEnv, n: nat, ttl: nat)
    requires n < |msgs| && Filled(q, msgs, envs, n, ttl)
    ensures Filled(Fresh(q, envs(n).sqlNow) + [Entry(msgs[n], envs(n).now + ttl)], msgs, envs, n + 1, ttl)
  {
    FreshIff(q, envs(n).sqlNow);
    if WithinTtl(envs, n, ttl) {
      InTime(q, msgs, envs, n, ttl);
      assert Leftover(msgs, envs, n + 1, ttl) == q + [Entry(msgs[n], envs(n).now + ttl)];
    }
  }

  /** A state in which `n` re-enqueues have been made. */
  ghost predicate Refilled(s: State, user: User, msgs: seq<Message>, envs: nat -> PutEnv, n: nat, ttl: nat) {
    WellFormed(s.mem) && n <= |msgs| && Filled(Fifo(s.mem, user), msgs, envs, n, ttl)
  }

  lemma NothingRefilled(s: State, user: User, msgs: seq<Message>, envs: nat -> PutEnv, ttl: nat)
    requires WellFormed(s.mem) && Fifo(s.mem, user) == []
    ensures Refilled(s, user, msgs, envs, 0, ttl)
  {
  }

  lemma RefillNext(s: State, user: User, msgs: seq<Message>, envs: nat -> PutEnv, n: nat, ttl: nat)
    requires n < |msgs| <= MAX_QUEUE && envs(n).fault == NoFault
    requires Refilled(s, user, msgs, envs, n, ttl)
    ensures Refilled(Step(s, PutOp(user, msgs[n], envs(n)), ttl), user, msgs, envs, n + 1, ttl)
  {
    RequeuePushes(s, user, msgs[n], envs(n), ttl);
    FilledStep(Fifo(s.mem, user), msgs, envs, n, ttl);
  }

  lemma {:induction false} RequeueFills(s: State, user: User, msgs: seq<Message>, envs: nat -> PutEnv, n: nat, ttl: nat)
    requires n <= |msgs| <= MAX_QUEUE && WellFormed(s.mem) && Fifo(s.mem, user) == []
    requires forall i :: 0 <= i < n ==> envs(i).fault == NoFault
    ensures Refilled(Requeue(s, user, msgs, envs, n, ttl), user, msgs, envs, n, ttl)
  {
    if n == 0 {
      NothingRefilled(s, user, msgs, envs, ttl);
    } else {
      var before := Requeue(s, user, msgs, envs, n - 1, ttl);
      RequeueFills(s, user, msgs, envs, n - 1, ttl);
      RefillNext(before, user, msgs, envs, n - 1, ttl);
    }
  }

  lemma PrefixThenQueue(msgs: seq<Message>, sent: nat, q: seq<Entry>, envs: nat -> PutEnv, ttl: nat)
    requires sent <= |msgs| && Filled(q, msgs[sent..], envs, |msgs| - sent, ttl)
    ensures msgs[..sent] + Messages(q) == msgs <==> WithinTtl(envs, |msgs| - sent, ttl)
  {
  }

  /** Re-enqueueing what one drain returned never meets a full queue, in time or not. */
  lemma NeverFull(s: State, user: User, msgs: seq<Message>, envs: nat -> PutEnv, n: nat, ttl: nat)
    requires n < |msgs| <= MAX_QUEUE && WellFormed(s.mem) && Fifo(s.mem, user) == []
    requires forall i :: 0 <= i <= n ==> envs(i).fault == NoFault
    ensures Shows(Requeue(s, user, msgs, envs, n, ttl), PutOp(user, msgs[n], envs(n)), ttl) == Decided(Stored)
  {
    var t := Requeue(s, user, msgs, envs, n, ttl).mem;
    RequeueFills(s, user, msgs, envs, n, ttl);
    FreshIff(Fifo(t, user), envs(n).sqlNow);
    EnqueueRefines(t, user, msgs[n], ttl, envs(n).sqlNow, envs(n).now, user);
  }

  lemma DrainLeavesRoom(s: State, drain: Op, msgs: seq<Message>, ttl: nat)
    requires WellFormed(s.mem) && WithinCap(s.mem) && drain.Take? && drain.commits && drain.bad == {}
    requires Shows(s, drain, ttl) == Delivered(msgs)
    ensures |msgs| <= MAX_QUEUE
    ensures WellFormed(Step(s, drain, ttl).mem) && Fifo(Step(s, drain, ttl).mem, drain.recipient) == []
  {
    DrainRefines(s.mem, drain.recipient, drain.now, drain.recipient);
    CountIsLength(s.mem, drain.recipient);
    FreshIff(Fifo(s.mem, drain.recipient), drain.now);
  }

  /** A flush that stops at a failed write loses and reorders nothing: the written prefix followed by
      the queue is the drained list. For a flush without storage errors or interleaving this holds
      exactly when every re-enqueue comes before the rows of the earlier ones expire; no
      re-enqueue hits the cap either way. */
  lemma FlushKeepsEverything(s: State, drain: Op, msgs: seq<Message>, sent: nat, envs: nat -> PutEnv, ttl: nat)
    requires WellFormed(s.mem) && WithinCap(s.mem) && drain.Take? && drain.commits && drain.bad == {}
    requires Shows(s, drain, ttl) == Delivered(msgs) && sent <= |msgs|
    requires forall i :: 0 <= i < |msgs| - sent ==> envs(i).fault == NoFault
    ensures var user, n := drain.recipient, |msgs| - sent;
            var e := Requeue(Step(s, drain, ttl), user, msgs[sent..], envs, n, ttl);
            msgs[..sent] + Messages(Fifo(e.mem, user)) == msgs <==> WithinTtl(envs, n, ttl)
    ensures forall i :: 0 <= i < |msgs| - sent ==>
              var before := Requeue(Step(s, drain, ttl), drain.recipient, msgs[sent..], envs, i, ttl);
              Shows(before, PutOp(drain.recipient, msgs[sent..][i], envs(i)), ttl) == Decided(Stored)
  {
    var user, n := drain.recipient, |msgs| - sent;
    DrainLeavesRoom(s, drain, msgs, ttl);
    RequeueFills(Step(s, drain, ttl), user, msgs[sent..], envs, n, ttl);
    PrefixThenQueue(msgs, sent, Fifo(Requeue(Step(s, drain, ttl), user, msgs[sent..], envs, n, ttl).mem, user), envs, ttl);
    forall i | 0 <= i < n
      ensures Shows(Requeue(Step(s, drain, ttl), user, msgs[sent..], envs, i, ttl), PutOp(user, msgs[sent..][i], envs(i)), ttl)
           == Decided(Stored)
    {
      NeverFull(Step(s, drain, ttl), user, msgs[sent..], envs, i, ttl);
    }
  }
}
