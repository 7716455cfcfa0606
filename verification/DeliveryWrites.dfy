/** The order in which two messages reach the sockets, and exactly when the later overtakes. */
module DeliveryWrites {
  import opened Envelopes
  import opened QueueTable
  import opened Address
  import opened QueueLedger
  import opened Delivery
  import opened DeliverySafety
  import opened DeliveryOrder

  /** The event writes `x` to a socket. */
  predicate WritesNow(s: State, e: Event, x: Message) {
    && Ready(s, e)
    && (|| (e.WriteDirect? && e.ok && s.threads[e.i].message == x)
        || (e.SendNext? && e.ok && s.threads[e.i].rest[0] == x))
  }

  /** What the event adds to the record of writes. */
  function NewWrites(s: State, e: Event): seq<Write> {
    if !Ready(s, e) then []
    else if e.WriteDirect? && e.ok then [Write(s.threads[e.i].message, s.threads[e.i].conn)]
    else if e.SendNext? && e.ok then [Write(s.threads[e.i].rest[0], s.threads[e.i].conn)]
    else []
  }

  lemma StepAddsWrites(s: State, e: Event)
    ensures Step(s, e).writes == s.writes + NewWrites(s, e)
  {
  }

  lemma WritesNowMeans(s: State, e: Event, x: Message)
    ensures WritesNow(s, e, x) <==> Written(Step(s, e), x) > Written(s, x)
  {
    StepAddsWrites(s, e);
    var ws := NewWrites(s, e);
    if ws != [] {
      WrittenAppend(s.writes, ws[0], x);
    }
  }

  /** A thread has `a`, or the table does. */
  ghost predicate Alive(s: State, a: Message) {
    Busy(s.threads, a) || !Rowless(s.queue.mem, a)
  }

  /** A deliver thread that may still write `b`, or a flush that sends `b` while `a` is queued. */
  ghost predicate MayOvertake(t: Thread, tab: Table, a: Message, b: Message) {
    Has(t, b) && (t.Arrived? || t.Writing? || (t.Sending? && !Rowless(tab, a)))
  }

  ghost predicate NoneOvertakes(ts: seq<Thread>, tab: Table, a: Message, b: Message) {
    forall i :: 0 <= i < |ts| ==> !MayOvertake(ts[i], tab, a, b)
  }

  ghost predicate Overtakable(s: State, a: Message, b: Message) {
    exists i :: 0 <= i < |s.threads| && MayOvertake(s.threads[i], s.queue.mem, a, b)
  }

  /** `b` comes after `a`, on the sockets too. */
  ghost predicate Behind(s: State, a: Message, b: Message) {
    Ahead(s, a, b) && NoneOvertakes(s.threads, s.queue.mem, a, b)
  }

  // ---------- every step but a break keeps `b` behind ----------

  lemma BecomeNone(ts: seq<Thread>, i: nat, t': Thread, tab: Table, tab': Table, a: Message, b: Message)
    requires i < |ts| && NoneOvertakes(ts, tab, a, b) && !MayOvertake(t', tab', a, b)
    requires Rowless(tab, a) ==> Rowless(tab', a)
    ensures NoneOvertakes(ts[i := t'], tab', a, b)
  {
  }

  /** The thread that has `a` is putting it away, so no other thread has `b`. */
  lemma PutFirstNone(ts: seq<Thread>, i: nat, t': Thread, tab: Table, tab': Table, a: Message, b: Message)
    requires i < |ts| && ThreadsOrdered(ts, tab, a, b) && Has(ts[i], a) && (t'.Idle? || t'.Requeueing?)
    ensures NoneOvertakes(ts[i := t'], tab', a, b)
  {
    var us := ts[i := t'];
    forall j | 0 <= j < |us| ensures !MayOvertake(us[j], tab', a, b) {
      assert j != i ==> !Has(us[j], b);
    }
  }

  lemma PutNone(s: State, i: nat, user: User, m: Message, p: PutInput, t': Thread, a: Message, b: Message)
    requires Behind(s, a, b) && WellFormed(s.queue.mem) && i < |s.threads| && Has(s.threads[i], m) && (t'.Idle? || t'.Requeueing?)
    ensures NoneOvertakes(s.threads[i := t'], Put(s.queue, user, m, s.ttl, p).mem, a, b)
  {
    var tab' := Put(s.queue, user, m, s.ttl, p).mem;
    if m == a {
      PutFirstNone(s.threads, i, t', s.queue.mem, tab', a, b);
    } else {
      PutTable(s.queue, user, m, s.ttl, p);
      BecomeNone(s.threads, i, t', s.queue.mem, tab', a, b);
    }
  }

  lemma DeliverNone(s: State, e: Event, a: Message, b: Message)
    requires Behind(s, a, b) && WellFormed(s.queue.mem) && Ready(s, e) && OfDeliver(e)
    ensures var s' := DeliverStep(s, e); NoneOvertakes(s'.threads, s'.queue.mem, a, b)
  {
    var t := s.threads[e.i];
    assert !MayOvertake(t, s.queue.mem, a, b);
    match e
    case Lookup(i) => BecomeNone(s.threads, i, DeliverStep(s, e).threads[i], s.queue.mem, s.queue.mem, a, b);
    case WriteDirect(i, _) => BecomeNone(s.threads, i, DeliverStep(s, e).threads[i], s.queue.mem, s.queue.mem, a, b);
    case StoreDirect(i, p) => PutNone(s, i, t.user, t.message, p, Idle, a, b);
  }

  lemma SendNone(s: State, e: Event, a: Message, b: Message)
    requires Behind(s, a, b) && Ready(s, e) && e.SendNext?
    ensures var s' := FlushStep(s, e); NoneOvertakes(s'.threads, s'.queue.mem, a, b)
  {
    var t := s.threads[e.i];
    assert !MayOvertake(t, s.queue.mem, a, b);
    TailHas(t.rest, b);
    BecomeNone(s.threads, e.i, FlushStep(s, e).threads[e.i], s.queue.mem, s.queue.mem, a, b);
  }

  /** A drain that takes `b` leaves no row of `a`: they are filed under the same key. */
  lemma DrainClearsFirst(q: Queue, user: User, d: TakeInput, relayId: string, a: Message, b: Message)
    requires RowsAddressed(q.mem, relayId) && RowsOrdered(q.mem, a, b) && a != b
    requires b in Taken(q, user, d) && KeyOf(a, relayId) == KeyOf(b, relayId)
    ensures Rowless(Take(q, user, d).mem, a)
  {
    TakenOrdered(q, user, d, a, b);
    assert user == KeyOf(a, relayId);
    var u := Take(q, user, d).mem;
    forall i | i in u.rows ensures u.rows[i].message != a {
      assert i in q.mem.rows && i !in IdsFor(q.mem, user);
    }
  }

  lemma TakeNone(s: State, i: nat, d: TakeInput, a: Message, b: Message)
    requires Behind(s, a, b) && RowsAddressed(s.queue.mem, s.relayId) && i < |s.threads| && s.threads[i].Draining?
    ensures var t := s.threads[i];
            var q', t' := Take(s.queue, t.user, d), Sending(t.user, t.conn, Taken(s.queue, t.user, d));
            NoneOvertakes(s.threads[i := t'], q'.mem, a, b)
  {
    var t := s.threads[i];
    var rest := Taken(s.queue, t.user, d);
    if b in rest {
      DrainClearsFirst(s.queue, t.user, d, s.relayId, a, b);
    }
    FewerRows(s.queue.mem, IdsFor(s.queue.mem, t.user), a, b);
    BecomeNone(s.threads, i, Sending(t.user, t.conn, rest), s.queue.mem, Take(s.queue, t.user, d).mem, a, b);
  }

  lemma DrainNone(s: State, e: Event, a: Message, b: Message)
    requires Behind(s, a, b) && RowsAddressed(s.queue.mem, s.relayId) && Ready(s, e) && e.DrainStep?
    ensures var s' := FlushStep(s, e); NoneOvertakes(s'.threads, s'.queue.mem, a, b)
  {
    if e.commits {
      TakeNone(s, e.i, e.take, a, b);
    } else {
      BecomeNone(s.threads, e.i, Idle, s.queue.mem, s.queue.mem, a, b);
    }
  }

  lemma SpawnNone(ts: seq<Thread>, t: Thread, tab: Table, a: Message, b: Message)
    requires NoneOvertakes(ts, tab, a, b) && !Has(t, b)
    ensures NoneOvertakes(ts + [t], tab, a, b)
  {
  }

  lemma AcceptNone(s: State, user: User, e: Envelope, a: Message, b: Message)
    requires Behind(s, a, b)
    ensures var s' := Accept(s, user, e); NoneOvertakes(s'.threads, s'.queue.mem, a, b)
  {
    SpawnNone(s.threads, Arrived(user, Message(|s.log|, e)), s.queue.mem, a, b);
  }

  lemma OtherNone(s: State, e: Event, a: Message, b: Message)
    requires Behind(s, a, b) && !OfDeliver(e) && !OfFlush(e)
    ensures var s' := OtherStep(s, e); NoneOvertakes(s'.threads, s'.queue.mem, a, b)
  {
    match e
    case Submit(env) =>
      var d := Destine(env.recipientId, s.relayId, env.Sealed?);
      if d.Local? {
        AcceptNone(s, d.user, env, a, b);
      }
    case Federate(env, from) =>
      var u := FederatedUser(env.recipientId, s.relayId);
      if env.Sealed? && u.Some? {
        AcceptNone(s, u.value, env.(senderRelay := from), a, b);
      }
    case Connect(userId, conn) =>
      SpawnNone(s.threads, Draining(SessionKey(userId, s.relayId), conn), s.queue.mem, a, b);
    case Disconnect(_, _) =>
    case Sweep(now, _, _) =>
      FewerRows(s.queue.mem, ExpiredIds(s.queue.mem, now), a, b);
    case Crash =>
  }

  lemma StepNone(s: State, e: Event, a: Message, b: Message)
    requires Behind(s, a, b) && WellFormed(s.queue.mem) && RowsAddressed(s.queue.mem, s.relayId)
    ensures var s' := Step(s, e); NoneOvertakes(s'.threads, s'.queue.mem, a, b)
  {
    if Ready(s, e) {
      if OfDeliver(e) {
        DeliverNone(s, e, a, b);
      } else if OfFlush(e) {
        match e
        case DrainStep(_, _, _) => DrainNone(s, e, a, b);
        case SendNext(_, _) => SendNone(s, e, a, b);
        case RequeueNext(i, p) =>
          var t := s.threads[i];
          PutNone(s, i, t.user, t.rest[0], p, Requeueing(t.user, t.rest[1..]), a, b);
      } else {
        OtherNone(s, e, a, b);
      }
    }
  }

  lemma NextBehind(s: State, e: Event, a: Message, b: Message)
    requires Sane(s, a) && Behind(s, a, b) && !Breaks(s, e, a, b)
    ensures Sane(Step(s, e), a) && Behind(Step(s, e), a, b)
  {
    NextOrdered(s, e, a, b);
    StepNone(s, e, a, b);
  }

  lemma {:induction false} RunBehind(s: State, es: seq<Event>, k: nat, n: nat, a: Message, b: Message)
    requires k <= n <= |es| && Sane(Run(s, es, k), a) && Behind(Run(s, es, k), a, b)
    requires forall m :: k <= m < n ==> !Breaks(Run(s, es, m), es[m], a, b)
    ensures Sane(Run(s, es, n), a) && Behind(Run(s, es, n), a, b)
  {
    if k < n {
      RunBehind(s, es, k, n - 1, a, b);
      NextBehind(Run(s, es, n - 1), es[n - 1], a, b);
    }
  }

  /** While `b` is behind, it is written only when nothing is left of `a` to write. */
  lemma WriteBehind(s: State, e: Event, a: Message, b: Message)
    requires Behind(s, a, b) && WritesNow(s, e, b)
    ensures !Alive(s, a)
  {
    var t := s.threads[e.i];
    assert Has(t, b) && !MayOvertake(t, s.queue.mem, a, b);
  }

  // ---------- what a failed flush puts back is written in order ----------

  lemma {:induction false} NothingHeld(ts: seq<Thread>, n: nat, x: Message)
    requires n <= |ts| && !Busy(ts, x)
    ensures Sum(Bags(ts), n)[x] == 0
  {
    if n > 0 {
      NothingHeld(ts, n - 1, x);
      assert !Has(ts[n - 1], x);
    }
  }

  lemma {:induction false} NothingQueued(rows: map<nat, Row>, n: nat, x: Message)
    requires forall i :: i in rows ==> rows[i].message != x
    ensures Bag(rows, n)[x] == 0
  {
    if n > 0 {
      NothingQueued(rows, n - 1, x);
    }
  }

  /** An accepted message that is no longer alive was written or dropped. */
  lemma DeadIsDone(s: State, x: Message, revivals: nat)
    requires Accounted(s, x, revivals) && x in s.log && !Alive(s, x)
    ensures Written(s, x) > 0 || Dropped(s.queue, x) > 0
  {
    NothingHeld(s.threads, |s.threads|, x);
    NothingQueued(s.queue.mem.rows, s.queue.mem.nextId, x);
  }

  lemma LeftoversBehind(s: State, i: nat, p: nat, q: nat)
    requires i < |s.threads| && Flushing(s.threads[i]) && p < q < |s.threads[i].rest|
    requires Safe(s) && Single(s, s.threads[i].rest[p]) && Single(s, s.threads[i].rest[q])
    ensures Behind(s, s.threads[i].rest[p], s.threads[i].rest[q])
  {
    LeftoversAhead(s, i, p, q);
    OnlyThere(s, i, s.threads[i].rest[p]);
    OnlyThere(s, i, s.threads[i].rest[q]);
  }

  /** A flush has `a`, and `b` after it. */
  ghost predicate TwoLeft(t: Thread, a: Message, b: Message) {
    Flushing(t) && exists p: nat, q: nat :: p < q < |t.rest| && t.rest[p] == a && t.rest[q] == b
  }

  lemma HeldIsLogged(s: State, i: nat, x: Message)
    requires Single(s, x) && i < |s.threads| && Has(s.threads[i], x)
    ensures x in s.log
  {
    HeldOnce(s.threads, i, x);
  }

  lemma TwoLeftBehind(s: State, i: nat, a: Message, b: Message)
    requires Safe(s) && Single(s, a) && Single(s, b) && i < |s.threads| && TwoLeft(s.threads[i], a, b)
    ensures Behind(s, a, b) && a in s.log
  {
    var t := s.threads[i];
    var p: nat, q: nat :| p < q < |t.rest| && t.rest[p] == a && t.rest[q] == b;
    LeftoversBehind(s, i, p, q);
    HeldIsLogged(s, i, a);
  }

  lemma EndsDone(relayId: string, ttl: Ttl, es: seq<Event>, k: nat, n: nat, a: Message)
    requires k <= n <= |es| && a in Run(Init(relayId, ttl), es, k).log && !Alive(Run(Init(relayId, ttl), es, n), a)
    ensures var s := Run(Init(relayId, ttl), es, n); Written(s, a) > 0 || Dropped(s.queue, a) > 0
  {
    LogKept(relayId, ttl, es, k, n, a);
    RunAccounted(relayId, ttl, es, n, a);
    DeadIsDone(Run(Init(relayId, ttl), es, n), a, Revivals(relayId, ttl, es, n, a));
  }

  lemma TwoLeftInRun(relayId: string, ttl: Ttl, es: seq<Event>, k: nat, i: nat, a: Message, b: Message)
    requires k <= |es| && i < |Run(Init(relayId, ttl), es, k).threads|
    requires TwoLeft(Run(Init(relayId, ttl), es, k).threads[i], a, b)
    ensures var s := Run(Init(relayId, ttl), es, k); Sane(s, a) && Behind(s, a, b) && a in s.log
  {
    RunSingle(relayId, ttl, es, k, a);
    RunSingle(relayId, ttl, es, k, b);
    RunSafe(relayId, ttl, es, k);
    TwoLeftBehind(Run(Init(relayId, ttl), es, k), i, a, b);
  }

  /** Of two messages a flush thread has left, whatever happens next, as long as no drain takes the
      first while a thread still has the second, and no crash comes while the file has them the
      other way round: when the second is written, the first has been written or dropped, and is
      neither queued nor in a thread's hands. */
  lemma LeftoversWrittenInOrder(relayId: string, ttl: Ttl, es: seq<Event>, k: nat, n: nat, i: nat, a: Message, b: Message)
    requires k <= n < |es| && i < |Run(Init(relayId, ttl), es, k).threads|
    requires TwoLeft(Run(Init(relayId, ttl), es, k).threads[i], a, b)
    requires forall m :: k <= m < n ==> !Breaks(Run(Init(relayId, ttl), es, m), es[m], a, b)
    requires WritesNow(Run(Init(relayId, ttl), es, n), es[n], b)
    ensures var s := Run(Init(relayId, ttl), es, n);
            !Alive(s, a) && (Written(s, a) > 0 || Dropped(s.queue, a) > 0)
  {
    TwoLeftInRun(relayId, ttl, es, k, i, a, b);
    RunBehind(Init(relayId, ttl), es, k, n, a, b);
    WriteBehind(Run(Init(relayId, ttl), es, n), es[n], a, b);
    EndsDone(relayId, ttl, es, k, n, a);
  }

  // ---------- exactly when the later message overtakes ----------

  /** `more` has no break, and its last event writes `b` while `a` is still alive. */
  ghost predicate Overtakes(s: State, more: seq<Event>, a: Message, b: Message) {
    && more != [] && (forall m :: 0 <= m < |more| ==> !Breaks(Run(s, more, m), more[m], a, b))
    && WritesNow(Run(s, more, |more| - 1), more[|more| - 1], b) && Alive(Run(s, more, |more| - 1), a)
  }

  lemma NeverOvertakes(s: State, more: seq<Event>, a: Message, b: Message)
    requires Sane(s, a) && Behind(s, a, b)
    ensures !Overtakes(s, more, a, b)
  {
    assert Run(s, more, 0) == s;
    if more != [] && forall m :: 0 <= m < |more| ==> !Breaks(Run(s, more, m), more[m], a, b) {
      RunBehind(s, more, 0, |more| - 1, a, b);
      if WritesNow(Run(s, more, |more| - 1), more[|more| - 1], b) {
        WriteBehind(Run(s, more, |more| - 1), more[|more| - 1], a, b);
      }
    }
  }

  /** A calm run that ends right before a write of `b`, with `a` alive. */
  lemma CalmOvertakes(s: State, more: seq<Event>, e: Event, a: Message, b: Message)
    requires Calm(more) && !e.DrainStep? && !e.Crash?
    requires WritesNow(Run(s, more, |more|), e, b) && Alive(Run(s, more, |more|), a)
    ensures Overtakes(s, more + [e], a, b)
  {
    RunOfPrefix(s, more, e, |more|);
    assert Calm(more + [e]);
  }

  lemma SendsOne(s: State, i: nat, b: Message)
    requires i < |s.threads| && s.threads[i].Sending? && b in s.threads[i].rest && s.threads[i].rest[0] != b
    ensures var s', t := Step(s, SendNext(i, true)), s.threads[i];
            && s'.queue == s.queue && |s'.threads| == |s.threads|
            && s'.threads[i] == Sending(t.user, t.conn, t.rest[1..]) && b in t.rest[1..]
  {
  }

  /** A flush sends what comes before `b`. */
  lemma {:induction false} SendTo(s: State, more: seq<Event>, i: nat, b: Message) returns (more': seq<Event>)
    requires Calm(more) && i < |Run(s, more, |more|).threads|
    requires var t := Run(s, more, |more|).threads[i]; t.Sending? && b in t.rest
    ensures Calm(more') && Run(s, more', |more'|).queue == Run(s, more, |more|).queue
    ensures WritesNow(Run(s, more', |more'|), SendNext(i, true), b)
    decreases |Run(s, more, |more|).threads[i].rest|
  {
    var c := Run(s, more, |more|);
    if c.threads[i].rest[0] == b {
      more' := more;
    } else {
      SendsOne(c, i, b);
      OneMore(s, more, SendNext(i, true));
      more' := SendTo(s, more + [SendNext(i, true)], i, b);
    }
  }

  lemma FlushOvertakes(s: State, i: nat, a: Message, b: Message) returns (more: seq<Event>)
    requires i < |s.threads| && s.threads[i].Sending? && b in s.threads[i].rest && !Rowless(s.queue.mem, a)
    ensures Overtakes(s, more, a, b)
  {
    assert Run(s, [], 0) == s;
    more := SendTo(s, [], i, b);
    CalmOvertakes(s, more, SendNext(i, true), a, b);
    more := more + [SendNext(i, true)];
  }

  /** The recipient connects between acceptance and lookup. */
  lemma LookupFinds(s: State, i: nat, conn: Conn)
    requires i < |s.threads| && s.threads[i].Arrived? && '@' !in s.threads[i].user
    ensures var u, c := s.threads[i].user, Step(Step(s, Connect(s.threads[i].user, conn)), Lookup(i));
            && i < |c.threads| && c.threads[i] == Writing(u, conn, s.threads[i].message) && c.queue == s.queue
  {
    var u := s.threads[i].user;
    assert SessionKey(u, s.relayId) == u;
    var c := Step(s, Connect(u, conn));
    assert c.threads[i] == s.threads[i] && u in c.clients && c.clients[u] == conn && c.queue == s.queue;
  }

  lemma ArrivalOvertakes(s: State, i: nat, a: Message, b: Message) returns (more: seq<Event>)
    requires i < |s.threads| && s.threads[i].Arrived? && s.threads[i].message == b && '@' !in s.threads[i].user
    requires !Rowless(s.queue.mem, a)
    ensures Overtakes(s, more, a, b)
  {
    var e := Connect(s.threads[i].user, 0);
    LookupFinds(s, i, 0);
    assert Run(s, [], 0) == s;
    OneMore(s, [], e);
    assert [] + [e] == [e];
    OneMore(s, [e], Lookup(i));
    CalmOvertakes(s, [e] + [Lookup(i)], WriteDirect(i, true), a, b);
    more := [e] + [Lookup(i)] + [WriteDirect(i, true)];
  }

  lemma WriteOvertakes(s: State, i: nat, a: Message, b: Message) returns (more: seq<Event>)
    requires i < |s.threads| && s.threads[i].Writing? && s.threads[i].message == b && Alive(s, a)
    ensures Overtakes(s, more, a, b)
  {
    assert Run(s, [], 0) == s;
    CalmOvertakes(s, [], WriteDirect(i, true), a, b);
    more := [] + [WriteDirect(i, true)];
  }

  /** What a deliver thread has is behind a message in the table. */
  lemma QueuedAhead(s: State, i: nat, a: Message, b: Message)
    requires Ahead(s, a, b) && Alive(s, a) && i < |s.threads| && s.threads[i].Arrived? && Has(s.threads[i], b)
    ensures !Rowless(s.queue.mem, a)
  {
  }

  lemma OvertakableOvertakes(s: State, a: Message, b: Message) returns (more: seq<Event>)
    requires Safe(s) && Ahead(s, a, b) && Alive(s, a) && Overtakable(s, a, b)
    ensures Overtakes(s, more, a, b)
  {
    var i :| 0 <= i < |s.threads| && MayOvertake(s.threads[i], s.queue.mem, a, b);
    assert ThreadSafe(s.threads[i], s);
    match s.threads[i]
    case Arrived(_, _) =>
      QueuedAhead(s, i, a, b);
      more := ArrivalOvertakes(s, i, a, b);
    case Writing(_, _, _) => more := WriteOvertakes(s, i, a, b);
    case Sending(_, _, _) => more := FlushOvertakes(s, i, a, b);
  }

  /** Exactly when the later of two messages can overtake: at every reachable state with `a` alive
      and ahead of `b`, some run without a break writes `b` first exactly when a deliver thread that
      has not found the recipient missing has `b`, or a flush is sending `b` while `a` is queued. */
  lemma OvertakenExactly(relayId: string, ttl: Ttl, es: seq<Event>, s: State, a: Message, b: Message)
    requires s == Run(Init(relayId, ttl), es, |es|) && Ahead(s, a, b) && Alive(s, a)
    ensures (exists more :: Overtakes(s, more, a, b)) <==> Overtakable(s, a, b)
  {
    RunSingle(relayId, ttl, es, |es|, a);
    RunSafe(relayId, ttl, es, |es|);
    if Overtakable(s, a, b) {
      var more := OvertakableOvertakes(s, a, b);
    } else {
      forall more ensures !Overtakes(s, more, a, b) {
        NeverOvertakes(s, more, a, b);
      }
    }
  }
}
