/** Where at-most-once ends: exactly the messages with a row in the file can be written again
    after a crash. */
module DeliveryLimits {
  import opened Envelopes
  import opened QueueTable
  import opened Address
  import opened QueueLedger
  import opened Delivery
  import opened DeliverySafety

  // ---------- a message without a row in the file is over after a crash ----------

  /** No thread, table or file has `x`, and it is not a message still to come. */
  ghost predicate Gone(s: State, x: Message) {
    && x.serial < |s.log| && Sound(s.queue, x)
    && Held(s.threads)[x] + Queued(s.queue.mem)[x] + Queued(s.queue.disk)[x] == 0
  }

  lemma GoneStays(s: State, e: Event, x: Message)
    requires Gone(s, x)
    ensures Gone(Step(s, e), x) && Written(Step(s, e), x) == Written(s, x)
  {
    if e.Crash? {
      CrashReloads(s);
      assert Held([])[x] == 0;
    } else {
      StepFlows(s, e, x);
    }
  }

  lemma {:induction false} NeverWrittenAgain(s: State, es: seq<Event>, n: nat, x: Message)
    requires 0 < n <= |es| && Gone(Step(s, es[0]), x) && Written(Step(s, es[0]), x) == Written(s, x)
    ensures Gone(Run(s, es, n), x) && Written(Run(s, es, n), x) == Written(s, x)
  {
    if n == 1 {
      assert Run(s, es, 1) == Step(Run(s, es, 0), es[0]);
    } else {
      NeverWrittenAgain(s, es, n - 1, x);
      GoneStays(Run(s, es, n - 1), es[n - 1], x);
    }
  }

  lemma CrashEnds(s: State, x: Message)
    requires Single(s, x) && x in s.log && Queued(s.queue.disk)[x] == 0
    ensures Gone(Step(s, Crash), x) && Written(Step(s, Crash), x) == Written(s, x)
  {
    CrashReloads(s);
    assert Held([])[x] == 0;
  }

  // ---------- a message with a row in the file can be written after a crash ----------

  lemma {:induction false} BagHas(rows: map<nat, Row>, n: nat, x: Message) returns (id: nat)
    requires Bag(rows, n)[x] > 0
    ensures id < n && id in rows && rows[id].message == x
  {
    if n - 1 in rows && rows[n - 1].message == x {
      id := n - 1;
    } else {
      id := BagHas(rows, n - 1, x);
    }
  }

  /** The process dies, the user connects, and the flush drains and writes `sends` messages. */
  function Comeback(user: User, conn: Conn, now: int, sends: nat): seq<Event> {
    [Crash, Connect(user, conn), DrainStep(0, TakeInput(now, {}, true), true)] + seq(sends, _ => SendNext(0, true))
  }

  /** The flush thread 0 of `s` has `rest` left to send. */
  ghost predicate Flushes(s: State, rest: seq<Message>) {
    |s.threads| == 1 && s.threads[0].Sending? && s.threads[0].rest == rest
  }

  lemma SendOne(s: State, rest: seq<Message>, x: Message)
    requires Flushes(s, rest) && rest != []
    ensures var s' := Step(s, SendNext(0, true));
            Flushes(s', rest[1..]) && Written(s', x) == Written(s, x) + multiset{rest[0]}[x]
  {
    WrittenAppend(s.writes, Write(rest[0], s.threads[0].conn), x);
  }

  lemma {:induction false} SendAll(s: State, es: seq<Event>, n: nat, rest: seq<Message>, x: Message)
    requires 3 <= n <= |es| && n - 3 <= |rest| && Flushes(Run(s, es, 3), rest)
    requires forall k :: 3 <= k < n ==> es[k] == SendNext(0, true)
    ensures Flushes(Run(s, es, n), rest[n - 3..])
    ensures Written(Run(s, es, n), x) == Written(Run(s, es, 3), x) + multiset(rest[..n - 3])[x]
  {
    if n == 3 {
      assert rest[0..] == rest && rest[..0] == [];
    } else {
      SendAll(s, es, n - 1, rest, x);
      SendOne(Run(s, es, n - 1), rest[n - 4..], x);
      assert rest[n - 4..][1..] == rest[n - 3..] && rest[..n - 3] == rest[..n - 4] + [rest[n - 4]];
    }
  }

  lemma ConnectStarts(c: State, user: User, conn: Conn)
    requires '@' !in user && c.threads == []
    ensures var c' := Step(c, Connect(user, conn));
            c'.threads == [Draining(user, conn)] && c'.queue == c.queue && c'.writes == c.writes
  {
    assert SessionKey(user, c.relayId) == user;
  }

  lemma DrainStarts(c: State, user: User, conn: Conn, d: TakeInput)
    requires c.threads == [Draining(user, conn)]
    ensures var c' := Step(c, DrainStep(0, d, true));
            Flushes(c', Taken(c.queue, user, d)) && c'.writes == c.writes
  {
  }

  lemma FlushStarts(s: State, user: User, conn: Conn, now: int)
    requires '@' !in user
    ensures var d := TakeInput(now, {}, true);
            var s' := Step(Step(Step(s, Crash), Connect(user, conn)), DrainStep(0, d, true));
            && Flushes(s', Drain(s.queue.disk, user, now, {}).messages) && s'.writes == s.writes
  {
    CrashReloads(s);
    ConnectStarts(Step(s, Crash), user, conn);
    DrainStarts(Step(Step(s, Crash), Connect(user, conn)), user, conn, TakeInput(now, {}, true));
  }

  lemma {:induction false} RunThree(s: State, es: seq<Event>)
    requires |es| >= 3
    ensures Run(s, es, 3) == Step(Step(Step(s, es[0]), es[1]), es[2])
  {
    assert Run(s, es, 1) == Step(s, es[0]);
    assert Run(s, es, 2) == Step(Run(s, es, 1), es[1]);
  }

  lemma ComebackWrites(s: State, es: seq<Event>, user: User, conn: Conn, now: int, rest: seq<Message>, x: Message)
    requires '@' !in user && rest == Drain(s.queue.disk, user, now, {}).messages
    requires es == Comeback(user, conn, now, |rest|)
    ensures Written(Run(s, es, |es|), x) == Written(s, x) + multiset(rest)[x]
  {
    FlushStarts(s, user, conn, now);
    RunThree(s, es);
    SendAll(s, es, |rest| + 3, rest, x);
    assert rest[..|rest|] == rest;
  }

  lemma ComebackShape(user: User, conn: Conn, now: int, sends: nat)
    ensures var es := Comeback(user, conn, now, sends);
            es != [] && es[0] == Crash && forall k :: 1 <= k < |es| ==> !es[k].Crash?
  {
  }

  lemma HasIsCounted(ms: seq<Message>, x: Message)
    requires x in ms
    ensures multiset(ms)[x] > 0
  {
  }

  /** A crash while the file has a live row of `x` can be followed by a flush that writes `x`. */
  lemma CrashThenWrite(s: State, id: nat, now: int, conn: Conn, x: Message) returns (es: seq<Event>)
    requires WellFormed(s.queue.disk) && RowsAddressed(s.queue.disk, s.relayId)
    requires id in s.queue.disk.rows && s.queue.disk.rows[id].message == x && now <= s.queue.disk.rows[id].expiresAt
    ensures es != [] && es[0] == Crash && forall k :: 1 <= k < |es| ==> !es[k].Crash?
    ensures Written(Run(s, es, |es|), x) > Written(s, x)
  {
    var row := s.queue.disk.rows[id];
    var rest := Drain(s.queue.disk, row.recipient, now, {}).messages;
    ReadOutHas(s.queue.disk.rows, row.recipient, now, s.queue.disk.nextId, id);
    HasIsCounted(rest, x);
    assert For(row.recipient, row.message, s.relayId);
    es := Comeback(row.recipient, conn, now, |rest|);
    ComebackShape(row.recipient, conn, now, |rest|);
    ComebackWrites(s, es, row.recipient, conn, now, rest, x);
  }

  /** `es` starts with a crash and writes `x` once more. */
  ghost predicate WritesAgain(s: State, es: seq<Event>, x: Message) {
    es != [] && es[0] == Crash && Written(Run(s, es, |es|), x) > Written(s, x)
  }

  /** At every reachable state, whatever persists failed: a crash now can be followed by a write of
      an accepted message exactly when the file has a row for it. For a message already written
      this is exactly when it can be written twice. */
  lemma RewrittenExactly(relayId: string, ttl: Ttl, es: seq<Event>, s: State, x: Message)
    requires s == Run(Init(relayId, ttl), es, |es|) && x in s.log
    ensures (exists more :: WritesAgain(s, more, x)) <==> Queued(s.queue.disk)[x] > 0
  {
    RunSingle(relayId, ttl, es, |es|, x);
    RunSafe(relayId, ttl, es, |es|);
    if Queued(s.queue.disk)[x] > 0 {
      var id := BagHas(s.queue.disk.rows, s.queue.disk.nextId, x);
      var more := CrashThenWrite(s, id, s.queue.disk.rows[id].expiresAt, 0, x);
      assert WritesAgain(s, more, x);
    } else {
      forall more ensures !WritesAgain(s, more, x) {
        if more != [] && more[0] == Crash {
          CrashEnds(s, x);
          NeverWrittenAgain(s, more, |more|, x);
        }
      }
    }
  }
}
