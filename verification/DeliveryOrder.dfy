/** The order of what a failed flush puts back, over every interleaving of the delivery protocol. */
module DeliveryOrder {
  import opened Envelopes
  import opened QueueTable
  import opened Address
  import opened QueueLedger
  import opened Delivery
  import opened DeliverySafety

  /** Every row of `a` is older than every row of `b`. */
  ghost predicate RowsOrdered(t: Table, a: Message, b: Message) {
    forall i, j :: i in t.rows && j in t.rows && t.rows[i].message == a && t.rows[j].message == b ==> i < j
  }

  ghost predicate Rowless(t: Table, x: Message) {
    forall i :: i in t.rows ==> t.rows[i].message != x
  }

  ghost predicate ListOrdered(ms: seq<Message>, a: Message, b: Message) {
    forall p, q :: 0 <= p < |ms| && 0 <= q < |ms| && ms[p] == a && ms[q] == b ==> p < q
  }

  predicate Has(t: Thread, x: Message) {
    x in Hold(t)
  }

  ghost predicate Busy(ts: seq<Thread>, x: Message) {
    exists i :: 0 <= i < |ts| && Has(ts[i], x)
  }

  /** A thread that has `a` has no row of `b` behind it, and a thread that has both is a flush that
      handles `a` first. */
  ghost predicate ThreadsOrdered(ts: seq<Thread>, t: Table, a: Message, b: Message) {
    && (forall i :: 0 <= i < |ts| && Has(ts[i], a) ==> Rowless(t, b))
    && (forall i, j :: 0 <= i < |ts| && 0 <= j < |ts| && Has(ts[i], a) && Has(ts[j], b) ==>
          i == j && Flushing(ts[i]) && ListOrdered(ts[i].rest, a, b))
  }

  /** Wherever both are, `a` comes first. */
  ghost predicate Ahead(s: State, a: Message, b: Message) {
    && a.serial < |s.log| && b.serial < |s.log| && a != b && KeyOf(a, s.relayId) == KeyOf(b, s.relayId)
    && RowsOrdered(s.queue.mem, a, b)
    && ThreadsOrdered(s.threads, s.queue.mem, a, b)
  }

  /** The event takes `a` out of the table while a thread still has `b`. */
  ghost predicate Splits(s: State, e: Event, a: Message, b: Message) {
    && e.DrainStep? && e.commits && Ready(s, e)
    && a in Taken(s.queue, s.threads[e.i].user, e.take) && Busy(s.threads, b)
  }

  /** A split, or a crash while the file has the two the other way round. */
  ghost predicate Breaks(s: State, e: Event, a: Message, b: Message) {
    Splits(s, e, a, b) || (e.Crash? && !RowsOrdered(s.queue.disk, a, b))
  }

  // ---------- the store ----------

  lemma {:induction false} ReadOutOrdered(t: Table, r: User, now: int, bad: set<nat>, n: nat, a: Message, b: Message)
    requires RowsOrdered(t, a, b) && a != b
    ensures ListOrdered(ReadOut(t.rows, r, now, bad, n), a, b)
    ensures forall x :: x in ReadOut(t.rows, r, now, bad, n) ==>
              exists id :: id in t.rows && id < n && t.rows[id].message == x && t.rows[id].recipient == r
  {
    if n > 0 {
      ReadOutOrdered(t, r, now, bad, n - 1, a, b);
      var ms, older := ReadOut(t.rows, r, now, bad, n), ReadOut(t.rows, r, now, bad, n - 1);
      if ms != older {
        forall p, q | 0 <= p < |ms| && 0 <= q < |ms| && ms[p] == a && ms[q] == b ensures p < q {
          assert q < |older| ==> b in older;
          assert p < |older| ==> older[p] == a;
        }
      }
    }
  }

  /** A drain hands out `a` before `b`. */
  lemma TakenOrdered(q: Queue, user: User, d: TakeInput, a: Message, b: Message)
    requires RowsOrdered(q.mem, a, b) && a != b
    ensures ListOrdered(Taken(q, user, d), a, b)
    ensures forall x :: x in Taken(q, user, d) ==>
              exists id :: id in q.mem.rows && q.mem.rows[id].message == x && q.mem.rows[id].recipient == user
  {
    ReadOutOrdered(q.mem, user, d.now, d.bad, q.mem.nextId, a, b);
  }

  /** Deleting rows keeps both orders. */
  lemma FewerRows(t: Table, ids: set<nat>, a: Message, b: Message)
    requires RowsOrdered(t, a, b)
    ensures RowsOrdered(Without(t, ids), a, b)
    ensures Rowless(t, a) ==> Rowless(Without(t, ids), a)
    ensures Rowless(t, b) ==> Rowless(Without(t, ids), b)
  {
  }

  /** The table after Enqueue of `m` differs from the table before by deleted rows and at most one
      new row, whose id is the largest. */
  lemma PutTable(q: Queue, user: User, m: Message, ttl: nat, p: PutInput)
    ensures var q' := Put(q, user, m, ttl, p);
            var u := Without(q.mem, Doomed(q.mem, user, p));
            q'.mem == u || q'.mem == Insert(u, Row(user, m, p.now + ttl))
  {
    EnqueueTable(q.mem, user, m, ttl, p);
  }

  lemma InsertOrdered(t: Table, row: Row, a: Message, b: Message)
    requires WellFormed(t) && RowsOrdered(t, a, b) && a != b && (row.message == a ==> Rowless(t, b))
    ensures RowsOrdered(Insert(t, row), a, b)
    ensures row.message != b && Rowless(t, b) ==> Rowless(Insert(t, row), b)
  {
  }

  lemma PutOrdered(q: Queue, user: User, m: Message, ttl: nat, p: PutInput, a: Message, b: Message)
    requires WellFormed(q.mem) && a != b && (m == a ==> Rowless(q.mem, b))
    requires RowsOrdered(q.mem, a, b)
    ensures var q' := Put(q, user, m, ttl, p);
            && RowsOrdered(q'.mem, a, b)
            && (m != b && Rowless(q.mem, b) ==> Rowless(q'.mem, b))
  {
    var u := Without(q.mem, Doomed(q.mem, user, p));
    PutTable(q, user, m, ttl, p);
    FewerRows(q.mem, Doomed(q.mem, user, p), a, b);
    InsertOrdered(u, Row(user, m, p.now + ttl), a, b);
  }

  // ---------- threads ----------

  /** `t'` has no more than `t`, in the same order. */
  ghost predicate Narrows(t: Thread, t': Thread, a: Message, b: Message) {
    && (Has(t', a) ==> Has(t, a)) && (Has(t', b) ==> Has(t, b))
    && (Flushing(t) && ListOrdered(t.rest, a, b) && Has(t', a) && Has(t', b) ==>
          Flushing(t') && ListOrdered(t'.rest, a, b))
  }

  lemma NarrowOrdered(ts: seq<Thread>, i: nat, t': Thread, t: Table, u: Table, a: Message, b: Message)
    requires i < |ts| && ThreadsOrdered(ts, t, a, b) && Narrows(ts[i], t', a, b)
    requires Rowless(t, b) ==> Rowless(u, b)
    ensures ThreadsOrdered(ts[i := t'], u, a, b)
  {
  }

  lemma TailOrdered(rest: seq<Message>, a: Message, b: Message)
    requires rest != [] && ListOrdered(rest, a, b)
    ensures ListOrdered(rest[1..], a, b)
  {
    var tail := rest[1..];
    forall p, q | 0 <= p < |tail| && 0 <= q < |tail| && tail[p] == a && tail[q] == b ensures p < q {
      assert rest[p + 1] == a && rest[q + 1] == b;
    }
  }

  lemma TailHas(rest: seq<Message>, x: Message)
    requires rest != []
    ensures x in multiset(rest[1..]) ==> x in multiset(rest)
  {
    assert rest == [rest[0]] + rest[1..];
  }

  lemma TailNarrows(user: User, conn: Conn, rest: seq<Message>, a: Message, b: Message)
    requires rest != []
    ensures Narrows(Sending(user, conn, rest), Sending(user, conn, rest[1..]), a, b)
    ensures Narrows(Requeueing(user, rest), Requeueing(user, rest[1..]), a, b)
  {
    TailHas(rest, a);
    TailHas(rest, b);
    if ListOrdered(rest, a, b) {
      TailOrdered(rest, a, b);
    }
  }

  /** A thread that puts `m` away, with `t'` left: if `m` is `b`, then no thread has `a`. */
  lemma PutAwayOrdered(s: State, i: nat, user: User, m: Message, p: PutInput, t': Thread, a: Message, b: Message)
    requires Ahead(s, a, b) && WellFormed(s.queue.mem) && i < |s.threads|
    requires Has(s.threads[i], m) && Narrows(s.threads[i], t', a, b) && (m == b ==> !Busy(s.threads, a))
    ensures Ahead(Become(s.(queue := Put(s.queue, user, m, s.ttl, p)), i, t'), a, b)
  {
    var q' := Put(s.queue, user, m, s.ttl, p);
    PutOrdered(s.queue, user, m, s.ttl, p, a, b);
    if m == b {
      assert !Has(s.threads[i], a);
      assert ThreadsOrdered(s.threads[i := t'], q'.mem, a, b);
    } else {
      NarrowOrdered(s.threads, i, t', s.queue.mem, q'.mem, a, b);
    }
  }

  /** The thread that is about to put `b` away is not behind a thread that has `a`. */
  lemma HeadIsAlone(s: State, i: nat, a: Message, b: Message)
    requires Ahead(s, a, b) && i < |s.threads|
    requires (s.threads[i].Queueing? && s.threads[i].message == b)
          || (s.threads[i].Requeueing? && s.threads[i].rest != [] && s.threads[i].rest[0] == b)
    ensures !Busy(s.threads, a)
  {
    assert Has(s.threads[i], b);
  }

  // ---------- every step but a split keeps the order ----------

  lemma DeliverOrdered(s: State, e: Event, a: Message, b: Message)
    requires Ahead(s, a, b) && WellFormed(s.queue.mem) && Ready(s, e) && OfDeliver(e)
    ensures Ahead(DeliverStep(s, e), a, b)
  {
    var t := s.threads[e.i];
    match e
    case Lookup(i) => NarrowOrdered(s.threads, i, DeliverStep(s, e).threads[i], s.queue.mem, s.queue.mem, a, b);
    case WriteDirect(i, _) => NarrowOrdered(s.threads, i, DeliverStep(s, e).threads[i], s.queue.mem, s.queue.mem, a, b);
    case StoreDirect(i, p) =>
      if t.message == b {
        HeadIsAlone(s, i, a, b);
      }
      PutAwayOrdered(s, i, t.user, t.message, p, Idle, a, b);
  }

  lemma SentOrdered(s: State, i: nat, user: User, conn: Conn, rest: seq<Message>, a: Message, b: Message)
    requires Ahead(s, a, b) && i < |s.threads| && s.threads[i] == Sending(user, conn, rest) && rest != []
    ensures Ahead(Become(s.(writes := s.writes + [Write(rest[0], conn)]), i, Sending(user, conn, rest[1..])), a, b)
    ensures Ahead(Become(s, i, Requeueing(user, rest)), a, b)
  {
    TailNarrows(user, conn, rest, a, b);
    NarrowOrdered(s.threads, i, Sending(user, conn, rest[1..]), s.queue.mem, s.queue.mem, a, b);
    NarrowOrdered(s.threads, i, Requeueing(user, rest), s.queue.mem, s.queue.mem, a, b);
  }

  lemma SendOrdered(s: State, e: Event, a: Message, b: Message)
    requires Ahead(s, a, b) && Ready(s, e) && e.SendNext?
    ensures Ahead(FlushStep(s, e), a, b)
  {
    var t := s.threads[e.i];
    SentOrdered(s, e.i, t.user, t.conn, t.rest, a, b);
  }

  lemma RequeueOrdered(s: State, e: Event, a: Message, b: Message)
    requires Ahead(s, a, b) && WellFormed(s.queue.mem) && Ready(s, e) && e.RequeueNext?
    ensures Ahead(FlushStep(s, e), a, b)
  {
    var t := s.threads[e.i];
    TailNarrows(t.user, 0, t.rest, a, b);
    if t.rest[0] == b {
      HeadIsAlone(s, e.i, a, b);
    }
    PutAwayOrdered(s, e.i, t.user, t.rest[0], e.put, Requeueing(t.user, t.rest[1..]), a, b);
  }

  /** A drain that takes `a` leaves no row of `b`: they are filed under the same key. */
  lemma DrainClears(q: Queue, user: User, d: TakeInput, relayId: string, a: Message, b: Message)
    requires RowsAddressed(q.mem, relayId) && RowsOrdered(q.mem, a, b) && a != b
    requires a in Taken(q, user, d) && KeyOf(a, relayId) == KeyOf(b, relayId)
    ensures Rowless(Take(q, user, d).mem, b)
  {
    TakenOrdered(q, user, d, a, b);
    assert user == KeyOf(b, relayId);
    var u := Take(q, user, d).mem;
    forall i | i in u.rows ensures u.rows[i].message != b {
      assert i in q.mem.rows && i !in IdsFor(q.mem, user);
    }
  }

  lemma DrainThreads(ts: seq<Thread>, i: nat, t': Thread, t: Table, u: Table, a: Message, b: Message)
    requires i < |ts| && ts[i].Draining? && ThreadsOrdered(ts, t, a, b) && (Rowless(t, b) ==> Rowless(u, b))
    requires t'.Sending? && ListOrdered(t'.rest, a, b)
    requires Has(t', a) ==> Rowless(u, b) && !Busy(ts, b)
    requires Has(t', b) ==> !Rowless(t, b)
    ensures ThreadsOrdered(ts[i := t'], u, a, b)
  {
    assert !Has(ts[i], a) && !Has(ts[i], b);
  }

  /** What the table and the threads look like after a committed drain that is no split. */
  lemma TakeOrdered(s: State, i: nat, d: TakeInput, a: Message, b: Message)
    requires Ahead(s, a, b) && RowsAddressed(s.queue.mem, s.relayId) && i < |s.threads| && s.threads[i].Draining?
    requires a in Taken(s.queue, s.threads[i].user, d) ==> !Busy(s.threads, b)
    ensures var t := s.threads[i];
            var q', t' := Take(s.queue, t.user, d), Sending(t.user, t.conn, Taken(s.queue, t.user, d));
            RowsOrdered(q'.mem, a, b) && ThreadsOrdered(s.threads[i := t'], q'.mem, a, b)
  {
    var t := s.threads[i];
    var rest := Taken(s.queue, t.user, d);
    TakenOrdered(s.queue, t.user, d, a, b);
    FewerRows(s.queue.mem, IdsFor(s.queue.mem, t.user), a, b);
    if a in rest {
      DrainClears(s.queue, t.user, d, s.relayId, a, b);
    }
    if b in rest {
      assert !Rowless(s.queue.mem, b);
    }
    DrainThreads(s.threads, i, Sending(t.user, t.conn, rest), s.queue.mem, Take(s.queue, t.user, d).mem, a, b);
  }

  lemma DrainOrdered(s: State, e: Event, a: Message, b: Message)
    requires Ahead(s, a, b) && RowsAddressed(s.queue.mem, s.relayId) && Ready(s, e) && e.DrainStep?
    requires !Splits(s, e, a, b)
    ensures Ahead(FlushStep(s, e), a, b)
  {
    if e.commits {
      TakeOrdered(s, e.i, e.take, a, b);
    } else {
      NarrowOrdered(s.threads, e.i, Idle, s.queue.mem, s.queue.mem, a, b);
    }
  }

  lemma HasIsOld(ts: seq<Thread>, t: Thread, i: nat, x: Message)
    requires i < |ts + [t]| && Has((ts + [t])[i], x) && !Has(t, x)
    ensures i < |ts| && (ts + [t])[i] == ts[i]
  {
  }

  lemma SpawnOrdered(ts: seq<Thread>, t: Thread, tab: Table, a: Message, b: Message)
    requires ThreadsOrdered(ts, tab, a, b) && !Has(t, a) && !Has(t, b)
    ensures ThreadsOrdered(ts + [t], tab, a, b)
  {
    var us := ts + [t];
    forall i | 0 <= i < |us| && Has(us[i], a) ensures Rowless(tab, b) {
      HasIsOld(ts, t, i, a);
    }
    forall i, j | 0 <= i < |us| && 0 <= j < |us| && Has(us[i], a) && Has(us[j], b)
      ensures i == j && Flushing(us[i]) && ListOrdered(us[i].rest, a, b)
    {
      HasIsOld(ts, t, i, a);
      HasIsOld(ts, t, j, b);
    }
  }

  lemma AcceptOrdered(s: State, user: User, e: Envelope, a: Message, b: Message)
    requires Ahead(s, a, b)
    ensures Ahead(Accept(s, user, e), a, b)
  {
    SpawnOrdered(s.threads, Arrived(user, Message(|s.log|, e)), s.queue.mem, a, b);
  }

  lemma SweepOrdered(s: State, now: int, persists: bool, a: Message, b: Message)
    requires Ahead(s, a, b)
    ensures Ahead(s.(queue := Swept(s.queue, now, persists)), a, b)
  {
    FewerRows(s.queue.mem, ExpiredIds(s.queue.mem, now), a, b);
  }

  lemma OtherOrdered(s: State, e: Event, a: Message, b: Message)
    requires Ahead(s, a, b) && !OfDeliver(e) && !OfFlush(e) && !Breaks(s, e, a, b)
    ensures Ahead(OtherStep(s, e), a, b)
  {
    match e
    case Submit(env) =>
      var d := Destine(env.recipientId, s.relayId, env.Sealed?);
      if d.Local? {
        AcceptOrdered(s, d.user, env, a, b);
      }
    case Federate(env, from) =>
      var u := FederatedUser(env.recipientId, s.relayId);
      if env.Sealed? && u.Some? {
        AcceptOrdered(s, u.value, env.(senderRelay := from), a, b);
      }
    case Connect(userId, conn) =>
      SpawnOrdered(s.threads, Draining(SessionKey(userId, s.relayId), conn), s.queue.mem, a, b);
    case Disconnect(_, _) =>
    case Sweep(now, executes, persists) =>
      if executes {
        SweepOrdered(s, now, persists, a, b);
      }
    case Crash =>
  }

  lemma StepOrdered(s: State, e: Event, a: Message, b: Message)
    requires Ahead(s, a, b) && WellFormed(s.queue.mem) && RowsAddressed(s.queue.mem, s.relayId)
    requires !Breaks(s, e, a, b)
    ensures Ahead(Step(s, e), a, b)
  {
    if Ready(s, e) {
      if OfDeliver(e) {
        DeliverOrdered(s, e, a, b);
      } else if OfFlush(e) {
        match e
        case DrainStep(_, _, _) => DrainOrdered(s, e, a, b);
        case SendNext(_, _) => SendOrdered(s, e, a, b);
        case RequeueNext(_, _) => RequeueOrdered(s, e, a, b);
      } else {
        OtherOrdered(s, e, a, b);
      }
    }
  }

  // ---------- whole runs ----------

  ghost predicate Sane(s: State, x: Message) {
    Safe(s) && Sound(s.queue, x)
  }

  lemma StepSane(s: State, e: Event, x: Message)
    requires Sane(s, x)
    ensures Sane(Step(s, e), x)
  {
    StepSafe(s, e);
    if e.Crash? {
      CrashReloads(s);
    } else {
      StepFlows(s, e, x);
    }
  }

  lemma NextOrdered(s: State, e: Event, a: Message, b: Message)
    requires Sane(s, a) && Ahead(s, a, b) && !Breaks(s, e, a, b)
    ensures Sane(Step(s, e), a) && Ahead(Step(s, e), a, b)
  {
    StepSane(s, e, a);
    StepOrdered(s, e, a, b);
  }

  /** From any point of a run on, crashes included, every event but those keeps `a` ahead. */
  lemma {:induction false} RunOrdered(s: State, es: seq<Event>, k: nat, n: nat, a: Message, b: Message)
    requires k <= n <= |es| && Sane(Run(s, es, k), a) && Ahead(Run(s, es, k), a, b)
    requires forall m :: k <= m < n ==> !Breaks(Run(s, es, m), es[m], a, b)
    ensures Sane(Run(s, es, n), a) && Ahead(Run(s, es, n), a, b)
  {
    if k < n {
      RunOrdered(s, es, k, n - 1, a, b);
      NextOrdered(Run(s, es, n - 1), es[n - 1], a, b);
    }
  }

  lemma HeldTwice(ts: seq<Thread>, i: nat, j: nat, x: Message)
    requires i < |ts| && j < |ts| && i != j
    ensures Held(ts)[x] >= Hold(ts[i])[x] + Hold(ts[j])[x]
  {
    HeldUpdate(ts, i, Idle, x);
    HeldUpdate(ts[i := Idle], j, Idle, x);
  }

  lemma HeldOnce(ts: seq<Thread>, i: nat, x: Message)
    requires i < |ts|
    ensures Held(ts)[x] >= Hold(ts[i])[x]
  {
    HeldUpdate(ts, i, Idle, x);
  }

  lemma {:induction false} RowCounts(rows: map<nat, Row>, n: nat, id: nat)
    requires id < n && id in rows
    ensures Bag(rows, n)[rows[id].message] > 0
  {
    if id < n - 1 {
      RowCounts(rows, n - 1, id);
    }
  }

  /** What a thread has is not in the table and with no other thread. */
  lemma OnlyThere(s: State, i: nat, x: Message)
    requires Single(s, x) && i < |s.threads| && Has(s.threads[i], x)
    ensures Hold(s.threads[i])[x] == 1 && Rowless(s.queue.mem, x) && x.serial < |s.log|
    ensures forall j :: 0 <= j < |s.threads| && Has(s.threads[j], x) ==> j == i
  {
    HeldOnce(s.threads, i, x);
    forall id | id in s.queue.mem.rows ensures s.queue.mem.rows[id].message != x {
      RowCounts(s.queue.mem.rows, s.queue.mem.nextId, id);
    }
    forall j | 0 <= j < |s.threads| && Has(s.threads[j], x) ensures j == i {
      if j != i {
        HeldTwice(s.threads, i, j, x);
      }
    }
  }

  lemma TwoPositions(ms: seq<Message>, p: nat, q: nat)
    requires p < q < |ms| && ms[p] == ms[q]
    ensures multiset(ms)[ms[p]] >= 2
  {
    assert ms == ms[..q] + ms[q..] && ms[..q][p] == ms[p] && ms[q..][0] == ms[p];
    assert ms[p] in multiset(ms[..q]) && ms[p] in multiset(ms[q..]);
  }

  lemma OnePosition(ms: seq<Message>, x: Message, p: nat, q: nat)
    requires p < |ms| && q < |ms| && ms[p] == x && ms[q] == x && multiset(ms)[x] <= 1
    ensures p == q
  {
    if p < q {
      TwoPositions(ms, p, q);
    } else if q < p {
      TwoPositions(ms, q, p);
    }
  }

  lemma OnceOrdered(rest: seq<Message>, p: nat, q: nat)
    requires p < q < |rest| && multiset(rest)[rest[p]] <= 1 && multiset(rest)[rest[q]] <= 1
    ensures rest[p] != rest[q] && ListOrdered(rest, rest[p], rest[q])
  {
    if rest[p] == rest[q] {
      OnePosition(rest, rest[p], p, q);
    }
    forall p', q' | 0 <= p' < |rest| && 0 <= q' < |rest| && rest[p'] == rest[p] && rest[q'] == rest[q] ensures p' < q' {
      OnePosition(rest, rest[p], p, p');
      OnePosition(rest, rest[q], q, q');
    }
  }

  lemma OneThread(ts: seq<Thread>, i: nat, t: Table, a: Message, b: Message)
    requires i < |ts| && Flushing(ts[i]) && ListOrdered(ts[i].rest, a, b) && Rowless(t, b)
    requires forall j :: 0 <= j < |ts| && Has(ts[j], a) ==> j == i
    requires forall j :: 0 <= j < |ts| && Has(ts[j], b) ==> j == i
    ensures ThreadsOrdered(ts, t, a, b)
  {
  }

  /** Two messages in a flush thread's hands. */
  lemma LeftoversAhead(s: State, i: nat, p: nat, q: nat)
    requires i < |s.threads| && Flushing(s.threads[i]) && p < q < |s.threads[i].rest|
    requires Safe(s) && Single(s, s.threads[i].rest[p]) && Single(s, s.threads[i].rest[q])
    ensures Ahead(s, s.threads[i].rest[p], s.threads[i].rest[q])
  {
    var rest := s.threads[i].rest;
    assert ThreadSafe(s.threads[i], s);
    assert For(s.threads[i].user, rest[p], s.relayId) && For(s.threads[i].user, rest[q], s.relayId);
    OnlyThere(s, i, rest[p]);
    OnlyThere(s, i, rest[q]);
    OnceOrdered(rest, p, q);
    OneThread(s.threads, i, s.queue.mem, rest[p], rest[q]);
  }

  /** What a failed flush puts back keeps its order: take two messages a flush thread has left.
      Whatever happens next, other flushes, deliveries, faults, refusals, purges and crashes, as
      long as no drain takes the first while a thread still has the second, and no crash comes
      while the file has them the other way round: their rows are in that order, and so is every
      list a drain returns. */
  lemma LeftoversKeepOrder(relayId: string, ttl: Ttl, es: seq<Event>, k: nat, n: nat, i: nat, p: nat, q: nat, user: User, d: TakeInput)
    requires k <= n <= |es|
    requires var t := Run(Init(relayId, ttl), es, k).threads; i < |t| && Flushing(t[i]) && p < q < |t[i].rest|
    requires var rest := Run(Init(relayId, ttl), es, k).threads[i].rest;
             forall m :: k <= m < n ==> !Breaks(Run(Init(relayId, ttl), es, m), es[m], rest[p], rest[q])
    ensures var rest, s := Run(Init(relayId, ttl), es, k).threads[i].rest, Run(Init(relayId, ttl), es, n);
            && RowsOrdered(s.queue.mem, rest[p], rest[q])
            && ListOrdered(Taken(s.queue, user, d), rest[p], rest[q])
  {
    var s := Run(Init(relayId, ttl), es, k);
    var a, b := s.threads[i].rest[p], s.threads[i].rest[q];
    RunSingle(relayId, ttl, es, k, a);
    RunSingle(relayId, ttl, es, k, b);
    RunSafe(relayId, ttl, es, k);
    LeftoversAhead(s, i, p, q);
    RunOrdered(Init(relayId, ttl), es, k, n, a, b);
    TakenOrdered(Run(Init(relayId, ttl), es, n).queue, user, d, a, b);
  }

  // ---------- a split can always turn the order around ----------

  /** `more` has no drain and no crash. */
  ghost predicate Calm(more: seq<Event>) {
    forall m :: 0 <= m < |more| ==> !more[m].DrainStep? && !more[m].Crash?
  }

  ghost predicate Inverted(t: Table, a: Message, b: Message) {
    exists i, j :: i in t.rows && j in t.rows && t.rows[i].message == a && t.rows[j].message == b && j < i
  }

  /** A later reading than any expiry in rows below `n`. */
  function After(rows: map<nat, Row>, n: nat): int {
    if n == 0 then 0
    else
      var t := After(rows, n - 1);
      if n - 1 in rows && rows[n - 1].expiresAt >= t then rows[n - 1].expiresAt + 1 else t
  }

  lemma {:induction false} AfterAll(rows: map<nat, Row>, n: nat, id: nat)
    requires id < n && id in rows
    ensures rows[id].expiresAt < After(rows, n)
  {
    if id < n - 1 {
      AfterAll(rows, n - 1, id);
    }
  }

  /** Put at time `now`, and a Put that a storage error stops before it touches the table. */
  function PutAt(now: int): PutInput {
    PutInput(now, now, NoFault, true)
  }

  function FailAt(now: int): PutInput {
    PutInput(now, now, DeleteFault, true)
  }

  lemma {:induction false} RunOfPrefix(s: State, more: seq<Event>, e: Event, n: nat)
    requires n <= |more|
    ensures Run(s, more + [e], n) == Run(s, more, n)
  {
    if n > 0 {
      RunOfPrefix(s, more, e, n - 1);
    }
  }

  lemma OneMore(s: State, more: seq<Event>, e: Event)
    requires Calm(more) && !e.DrainStep? && !e.Crash?
    ensures Calm(more + [e]) && Run(s, more + [e], |more| + 1) == Step(Run(s, more, |more|), e)
  {
    RunOfPrefix(s, more, e, |more|);
  }

  /** The thread's next step is to put `x` away. */
  predicate AboutToPut(t: Thread, x: Message) {
    (t.Queueing? && t.message == x) || (t.Requeueing? && t.rest != [] && t.rest[0] == x)
  }

  /** Only thread `i` moved. */
  ghost predicate OtherThreads(ts: seq<Thread>, ts': seq<Thread>, i: nat) {
    i < |ts| == |ts'| && forall j :: 0 <= j < |ts| && j != i ==> ts'[j] == ts[j]
  }

  ghost predicate OnlyThread(s: State, s': State, i: nat) {
    OtherThreads(s.threads, s'.threads, i) && s'.queue.mem == s.queue.mem
  }

  /** The next event of a thread whose writes and re-enqueues fail, and where it leads. */
  function Toward(t: Thread, i: nat): Event {
    match t
    case Arrived(_, _) => Lookup(i)
    case Writing(_, _, _) => WriteDirect(i, false)
    case Sending(_, _, _) => SendNext(i, false)
    case _ => RequeueNext(i, FailAt(0))
  }

  function Led(t: Thread, clients: map<User, Conn>): Thread
    requires Hold(t) != multiset{} && !t.Queueing?
  {
    match t
    case Arrived(u, m) => if u in clients then Writing(u, clients[u], m) else Queueing(u, m)
    case Writing(u, _, m) => Queueing(u, m)
    case Sending(u, _, rest) => Requeueing(u, rest)
    case Requeueing(u, rest) => Requeueing(u, rest[1..])
  }

  function Distance(t: Thread): nat {
    match t
    case Arrived(_, _) => 2
    case Writing(_, _, _) => 1
    case Sending(_, _, rest) => |rest| + 1
    case Requeueing(_, rest) => |rest|
    case _ => 0
  }

  lemma LedBy(s: State, i: nat)
    requires i < |s.threads| && Hold(s.threads[i]) != multiset{} && !s.threads[i].Queueing?
    ensures var s' := Step(s, Toward(s.threads[i], i));
            s'.threads == s.threads[i := Led(s.threads[i], s.clients)] && s'.queue.mem == s.queue.mem
  {
  }

  lemma LedKeeps(t: Thread, clients: map<User, Conn>, x: Message)
    requires Has(t, x) && !AboutToPut(t, x)
    ensures Has(Led(t, clients), x) && Distance(Led(t, clients)) < Distance(t)
  {
    if t.Requeueing? {
      assert t.rest == [t.rest[0]] + t.rest[1..];
    }
  }

  /** Whatever a thread is doing with `x`, it can come to the point of putting `x` away. */
  lemma {:induction false} ComeToPut(s: State, more: seq<Event>, i: nat, x: Message) returns (more': seq<Event>)
    requires Calm(more) && i < |Run(s, more, |more|).threads| && Has(Run(s, more, |more|).threads[i], x)
    ensures Calm(more') && OnlyThread(Run(s, more, |more|), Run(s, more', |more'|), i)
    ensures AboutToPut(Run(s, more', |more'|).threads[i], x)
    decreases Distance(Run(s, more, |more|).threads[i])
  {
    var c := Run(s, more, |more|);
    if AboutToPut(c.threads[i], x) {
      more' := more;
    } else {
      var e := Toward(c.threads[i], i);
      LedBy(c, i);
      LedKeeps(c.threads[i], c.clients, x);
      OneMore(s, more, e);
      more' := ComeToPut(s, more + [e], i, x);
    }
  }

  /** The table with all rows that expire before `now` gone for `user`, and `x` stored. */
  ghost predicate StoredLast(t: Table, t': Table, x: Message, now: int) {
    && t.nextId in t'.rows && t'.rows[t.nextId].message == x && t'.rows[t.nextId].expiresAt >= now
    && t'.nextId == t.nextId + 1
    && (forall id :: id in t'.rows && id != t.nextId ==> id in t.rows && t'.rows[id] == t.rows[id])
    && (forall id :: id in t.rows && t.rows[id].expiresAt >= now ==> id in t'.rows)
  }

  lemma EnqueueStores(t: Table, user: User, x: Message, ttl: nat, now: int, kept: set<nat>)
    requires WellFormed(t) && |kept| <= 1 && forall id :: id in t.rows && id !in kept ==> t.rows[id].expiresAt < now
    ensures var e := Enqueue(t, user, x, ttl, now, now, NoFault);
            e.outcome.Stored? && WellFormed(e.table) && StoredLast(t, e.table, x, now)
  {
    var u := Without(t, IdsFor(t, user) * ExpiredIds(t, now));
    assert IdsFor(u, user) <= kept;
    SubsetSize(IdsFor(u, user), kept);
  }

  lemma PutStep(s: State, i: nat, x: Message, now: int, kept: set<nat>) returns (e: Event)
    requires i < |s.threads| && AboutToPut(s.threads[i], x) && WellFormed(s.queue.mem)
    requires |kept| <= 1 && forall id :: id in s.queue.mem.rows && id !in kept ==> s.queue.mem.rows[id].expiresAt < now
    ensures !e.DrainStep? && !e.Crash?
    ensures StoredLast(s.queue.mem, Step(s, e).queue.mem, x, now) && WellFormed(Step(s, e).queue.mem)
    ensures OtherThreads(s.threads, Step(s, e).threads, i)
  {
    var t := s.threads[i];
    e := if t.Queueing? then StoreDirect(i, PutAt(now)) else RequeueNext(i, PutAt(now));
    EnqueueStores(s.queue.mem, t.user, x, s.ttl, now, kept);
  }

  /** A thread that has `x` can put it away. */
  lemma PutOne(s: State, more: seq<Event>, i: nat, x: Message, now: int, kept: set<nat>) returns (more': seq<Event>)
    requires Calm(more) && i < |Run(s, more, |more|).threads| && Has(Run(s, more, |more|).threads[i], x)
    requires var t := Run(s, more, |more|).queue.mem;
             WellFormed(t) && |kept| <= 1 && forall id :: id in t.rows && id !in kept ==> t.rows[id].expiresAt < now
    ensures Calm(more') && OtherThreads(Run(s, more, |more|).threads, Run(s, more', |more'|).threads, i)
    ensures var t, t' := Run(s, more, |more|).queue.mem, Run(s, more', |more'|).queue.mem;
            StoredLast(t, t', x, now) && WellFormed(t')
  {
    more' := ComeToPut(s, more, i, x);
    var e := PutStep(Run(s, more', |more'|), i, x, now, kept);
    OneMore(s, more', e);
    more' := more' + [e];
  }

  lemma LaterFirst(t0: Table, t1: Table, t2: Table, a: Message, b: Message, now: int)
    requires StoredLast(t0, t1, b, now) && StoredLast(t1, t2, a, now)
    ensures Inverted(t2, a, b)
  {
    assert t2.rows[t1.nextId].message == a && t2.rows[t0.nextId].message == b;
  }

  /** One thread after the other puts its message away: `b` first, then `a`. */
  lemma PutTwo(c: State, i: nat, j: nat, a: Message, b: Message) returns (more: seq<Event>)
    requires i < |c.threads| && j < |c.threads| && i != j && Has(c.threads[i], b) && Has(c.threads[j], a)
    requires WellFormed(c.queue.mem)
    ensures Calm(more) && Inverted(Run(c, more, |more|).queue.mem, a, b)
  {
    var t := c.queue.mem;
    var now := After(t.rows, t.nextId);
    forall id | id in t.rows ensures t.rows[id].expiresAt < now {
      AfterAll(t.rows, t.nextId, id);
    }
    assert Run(c, [], 0) == c;
    var first := PutOne(c, [], i, b, now, {});
    var t' := Run(c, first, |first|).queue.mem;
    more := PutOne(c, first, j, a, now, {t.nextId});
    LaterFirst(t, t', Run(c, more, |more|).queue.mem, a, b, now);
  }

  lemma SplitLeaves(s: State, e: Event, a: Message, b: Message)
    requires Splits(s, e, a, b) && WellFormed(s.queue.mem)
    ensures var c := Step(s, e);
            && |c.threads| == |s.threads| && Has(c.threads[e.i], a) && WellFormed(c.queue.mem)
            && OtherThreads(s.threads, c.threads, e.i)
  {
    var t := s.threads[e.i];
    assert Step(s, e).threads == s.threads[e.i := Sending(t.user, t.conn, Taken(s.queue, t.user, e.take))];
  }

  /** After a split both messages can end up in the table the other way round. */
  lemma SplitInverts(s: State, e: Event, a: Message, b: Message) returns (more: seq<Event>)
    requires Splits(s, e, a, b) && WellFormed(s.queue.mem)
    ensures Calm(more) && Inverted(Run(Step(s, e), more, |more|).queue.mem, a, b)
  {
    var i :| 0 <= i < |s.threads| && Has(s.threads[i], b);
    assert i != e.i;
    SplitLeaves(s, e, a, b);
    more := PutTwo(Step(s, e), i, e.i, a, b);
  }

  /** `more` has no further break and leaves the rows of `a` and `b` the other way round. */
  ghost predicate TurnsAround(s: State, more: seq<Event>, a: Message, b: Message) {
    && (forall m :: 0 <= m < |more| ==> !Breaks(Run(s, more, m), more[m], a, b))
    && Inverted(Run(s, more, |more|).queue.mem, a, b)
  }

  lemma NeverTurns(s: State, more: seq<Event>, a: Message, b: Message)
    requires Sane(s, a) && Ahead(s, a, b)
    ensures !TurnsAround(s, more, a, b)
  {
    assert Run(s, more, 0) == s;
    if forall m :: 0 <= m < |more| ==> !Breaks(Run(s, more, m), more[m], a, b) {
      RunOrdered(s, more, 0, |more|, a, b);
    }
  }

  lemma CalmTurns(s: State, more: seq<Event>, a: Message, b: Message)
    requires Calm(more) && Inverted(Run(s, more, |more|).queue.mem, a, b)
    ensures TurnsAround(s, more, a, b)
  {
  }

  lemma CrashInverts(s: State, a: Message, b: Message)
    requires a != b && !RowsOrdered(s.queue.disk, a, b)
    ensures TurnsAround(Step(s, Crash), [], a, b)
  {
    var i, j :| i in s.queue.disk.rows && j in s.queue.disk.rows
                && s.queue.disk.rows[i].message == a && s.queue.disk.rows[j].message == b && !(i < j);
    CrashReloads(s);
    assert Run(Step(s, Crash), [], 0) == Step(s, Crash);
    assert i != j;
  }

  lemma BreakTurns(s: State, e: Event, a: Message, b: Message) returns (more: seq<Event>)
    requires Breaks(s, e, a, b) && WellFormed(s.queue.mem) && a != b
    ensures TurnsAround(Step(s, e), more, a, b)
  {
    if Splits(s, e, a, b) {
      more := SplitInverts(s, e, a, b);
      CalmTurns(Step(s, e), more, a, b);
    } else {
      more := [];
      CrashInverts(s, a, b);
    }
  }

  /** The condition is exact: at every reachable state with `a` ahead of `b`, an event can be
      followed by a run without further breaks that turns their order around exactly when it is
      itself such a drain or such a crash. */
  lemma ReorderedExactly(relayId: string, ttl: Ttl, es: seq<Event>, s: State, e: Event, a: Message, b: Message)
    requires s == Run(Init(relayId, ttl), es, |es|) && Ahead(s, a, b)
    ensures (exists more :: TurnsAround(Step(s, e), more, a, b)) <==> Breaks(s, e, a, b)
  {
    RunSingle(relayId, ttl, es, |es|, a);
    RunSafe(relayId, ttl, es, |es|);
    if Breaks(s, e, a, b) {
      var more := BreakTurns(s, e, a, b);
    } else {
      NextOrdered(s, e, a, b);
      forall more ensures !TurnsAround(Step(s, e), more, a, b) {
        NeverTurns(Step(s, e), more, a, b);
      }
    }
  }

  lemma NextDrainTakes(s: State, user: User, conn: Conn, id: nat, now: int, b: Message)
    requires WellFormed(s.queue.mem) && Busy(s.threads, b) && '@' !in user
    requires id in s.queue.mem.rows && s.queue.mem.rows[id].recipient == user && s.queue.mem.rows[id].expiresAt >= now
    ensures Splits(Step(s, Connect(user, conn)), DrainStep(|s.threads|, TakeInput(now, {}, true), true),
                   s.queue.mem.rows[id].message, b)
  {
    assert SessionKey(user, s.relayId) == user;
    var c := Step(s, Connect(user, conn));
    assert c.threads == s.threads + [Draining(user, conn)] && c.queue == s.queue;
    var k :| 0 <= k < |s.threads| && Has(s.threads[k], b);
    assert Has(c.threads[k], b);
    ReadOutHas(s.queue.mem.rows, user, now, s.queue.mem.nextId, id);
  }

  lemma PutsBackFirst(s: State, i: nat, now: int)
    requires WellFormed(s.queue.mem) && i < |s.threads| && s.threads[i].Requeueing? && |s.threads[i].rest| >= 2
    requires forall id :: id in s.queue.mem.rows ==> s.queue.mem.rows[id].expiresAt < now
    ensures var t, c, id := s.threads[i], Step(s, RequeueNext(i, PutAt(now))), s.queue.mem.nextId;
            && |c.threads| == |s.threads| && Busy(c.threads, t.rest[1]) && WellFormed(c.queue.mem)
            && id in c.queue.mem.rows && c.queue.mem.rows[id] == Row(t.user, t.rest[0], now + s.ttl)
  {
    var t, c := s.threads[i], Step(s, RequeueNext(i, PutAt(now)));
    EnqueueStores(s.queue.mem, t.user, t.rest[0], s.ttl, now, {});
    assert c.threads == s.threads[i := Requeueing(t.user, t.rest[1..])];
    assert t.rest[1..][0] == t.rest[1] && Has(c.threads[i], t.rest[1]);
  }

  /** Splits do happen: whenever a flush has two messages to put back, it may put back the first
      before another connection of the same user drains it. */
  lemma FlushesCanSplit(s: State, i: nat, conn: Conn) returns (e: Event, e': Event)
    requires Safe(s) && WellFormed(s.queue.mem) && i < |s.threads| && s.threads[i].Requeueing? && |s.threads[i].rest| >= 2
    ensures var t := s.threads[i];
            Splits(Step(Step(s, e), Connect(t.user, conn)), e', t.rest[0], t.rest[1])
  {
    var t, mem := s.threads[i], s.queue.mem;
    var now := After(mem.rows, mem.nextId);
    forall id | id in mem.rows ensures mem.rows[id].expiresAt < now {
      AfterAll(mem.rows, mem.nextId, id);
    }
    assert ThreadSafe(t, s) && For(t.user, t.rest[0], s.relayId);
    e, e' := RequeueNext(i, PutAt(now)), DrainStep(|s.threads|, TakeInput(now, {}, true), true);
    PutsBackFirst(s, i, now);
    NextDrainTakes(Step(s, e), t.user, conn, mem.nextId, now, t.rest[1]);
  }
}
