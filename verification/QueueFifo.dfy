/** The table refines a map from recipient to a bounded first-in first-out queue with expiry. */
module QueueFifo {
  import opened Envelopes
  import opened QueueTable

  datatype Entry = Entry(message: Message, expiresAt: int)

  /** One recipient's queue: its rows below id `n` in id order. */
  function Below(rows: map<nat, Row>, r: User, n: nat): seq<Entry> {
    if n == 0 then []
    else
      var id, older := n - 1, Below(rows, r, n - 1);
      if id in rows && rows[id].recipient == r
      then older + [Entry(rows[id].message, rows[id].expiresAt)] else older
  }

  function Fifo(t: Table, r: User): seq<Entry> {
    Below(t.rows, r, t.nextId)
  }

  // ---------- the simple specification ----------

  function Fresh(q: seq<Entry>, now: int): seq<Entry> {
    if q == [] then []
    else
      var rest := Fresh(q[..|q| - 1], now);
      if q[|q| - 1].expiresAt >= now then rest + [q[|q| - 1]] else rest
  }

  function Messages(q: seq<Entry>): seq<Message> {
    seq(|q|, i requires 0 <= i < |q| => q[i].message)
  }

  /** Drop what has expired, then append unless the queue is full. */
  function Push(q: seq<Entry>, sqlNow: int, e: Entry): seq<Entry> {
    var f := Fresh(q, sqlNow);
    if |f| >= MAX_QUEUE then f else f + [e]
  }

  // ---------- supporting facts ----------

  lemma FreshAppend(q: seq<Entry>, e: Entry, now: int)
    ensures Fresh(q + [e], now) == Fresh(q, now) + if e.expiresAt >= now then [e] else []
  {
  }

  lemma {:induction false} BelowFrame(rows: map<nat, Row>, rows': map<nat, Row>, r: User, n: nat)
    requires forall id :: id < n ==>
               ((id in rows && rows[id].recipient == r) <==> (id in rows' && rows'[id].recipient == r))
    requires forall id :: id < n && id in rows && rows[id].recipient == r ==> id in rows' && rows[id] == rows'[id]
    ensures Below(rows, r, n) == Below(rows', r, n)
  {
    if n > 0 {
      BelowFrame(rows, rows', r, n - 1);
    }
  }

  /** Deleting expired rows of `r`, and any rows of others, filters the queue of `r`. */
  lemma {:induction false} BelowWithout(t: Table, ids: set<nat>, r: User, now: int, n: nat)
    requires ids * IdsFor(t, r) == ExpiredIds(t, now) * IdsFor(t, r)
    ensures Below(t.rows - ids, r, n) == Fresh(Below(t.rows, r, n), now)
  {
    if n > 0 {
      var id := n - 1;
      BelowWithout(t, ids, r, now, id);
      if id in t.rows && t.rows[id].recipient == r {
        assert id in IdsFor(t, r);
        assert id in ids <==> id in ids * IdsFor(t, r);
        assert id in ids <==> id in ExpiredIds(t, now) * IdsFor(t, r);
        FreshAppend(Below(t.rows, r, id), Entry(t.rows[id].message, t.rows[id].expiresAt), now);
      }
    }
  }

  function IdsBelow(rows: map<nat, Row>, r: User, n: nat): set<nat> {
    set id | id in rows && rows[id].recipient == r && id < n
  }

  lemma {:induction false} BelowCounts(rows: map<nat, Row>, r: User, n: nat)
    ensures |Below(rows, r, n)| == |IdsBelow(rows, r, n)|
  {
    if n == 0 {
      assert IdsBelow(rows, r, 0) == {};
    } else {
      BelowCounts(rows, r, n - 1);
      if n - 1 in rows && rows[n - 1].recipient == r {
        assert IdsBelow(rows, r, n) == IdsBelow(rows, r, n - 1) + {n - 1};
      } else {
        assert IdsBelow(rows, r, n) == IdsBelow(rows, r, n - 1);
      }
    }
  }

  lemma CountIsLength(t: Table, r: User)
    requires WellFormed(t)
    ensures |IdsFor(t, r)| == |Fifo(t, r)|
  {
    BelowCounts(t.rows, r, t.nextId);
    assert IdsFor(t, r) == IdsBelow(t.rows, r, t.nextId);
  }

  lemma InsertAppends(t: Table, row: Row, r: User)
    requires WellFormed(t)
    ensures Fifo(Insert(t, row), r)
         == Fifo(t, r) + if row.recipient == r then [Entry(row.message, row.expiresAt)] else []
  {
    BelowFrame(t.rows, Insert(t, row).rows, r, t.nextId);
  }

  lemma MessagesAppend(q: seq<Entry>, e: Entry)
    ensures Messages(q + [e]) == Messages(q) + [e.message]
  {
  }

  lemma {:induction false} ReadOutIsFresh(rows: map<nat, Row>, r: User, now: int, n: nat)
    ensures ReadOut(rows, r, now, {}, n) == Messages(Fresh(Below(rows, r, n), now))
  {
    if n > 0 {
      var id := n - 1;
      ReadOutIsFresh(rows, r, now, id);
      if id in rows && rows[id].recipient == r {
        var e := Entry(rows[id].message, rows[id].expiresAt);
        FreshAppend(Below(rows, r, id), e, now);
        MessagesAppend(Fresh(Below(rows, r, id), now), e);
      }
    }
  }

  // ---------- the refinement ----------

  lemma DeleteRefines(t: Table, r: User, s: User, now: int)
    requires WellFormed(t)
    ensures var u := Without(t, IdsFor(t, r) * ExpiredIds(t, now));
            WellFormed(u) && Fifo(u, s) == if s == r then Fresh(Fifo(t, r), now) else Fifo(t, s)
  {
    var ids := IdsFor(t, r) * ExpiredIds(t, now);
    if s == r {
      assert ids * IdsFor(t, r) == ExpiredIds(t, now) * IdsFor(t, r);
      BelowWithout(t, ids, r, now, t.nextId);
    } else {
      BelowFrame(t.rows, t.rows - ids, s, t.nextId);
    }
  }

  /** A fault-free Enqueue pushes onto the recipient's queue and touches no other. */
  lemma EnqueueRefines(t: Table, r: User, m: Message, ttl: nat, sqlNow: int, now: int, s: User)
    requires WellFormed(t)
    ensures var t' := Enqueue(t, r, m, ttl, sqlNow, now, NoFault).table;
            Fifo(t', s) == if s == r then Push(Fifo(t, r), sqlNow, Entry(m, now + ttl)) else Fifo(t, s)
    ensures Enqueue(t, r, m, ttl, sqlNow, now, NoFault).outcome
         == if |Fresh(Fifo(t, r), sqlNow)| >= MAX_QUEUE then Full else Stored
  {
    var u := Without(t, IdsFor(t, r) * ExpiredIds(t, sqlNow));
    DeleteRefines(t, r, r, sqlNow);
    DeleteRefines(t, r, s, sqlNow);
    CountIsLength(u, r);
    InsertAppends(u, Row(r, m, now + ttl), s);
  }

  /** A failed Enqueue never adds the message and loses nothing that is still live. */
  lemma FailedEnqueueRefines(t: Table, r: User, m: Message, ttl: nat, sqlNow: int, now: int, fault: Fault, s: User)
    requires WellFormed(t) && Enqueue(t, r, m, ttl, sqlNow, now, fault).outcome == Failed
    ensures var t' := Enqueue(t, r, m, ttl, sqlNow, now, fault).table;
            Fifo(t', s) == Fifo(t, s) || (s == r && Fifo(t', s) == Fresh(Fifo(t, s), sqlNow))
  {
    DeleteRefines(t, r, s, sqlNow);
  }

  lemma {:induction false} BelowEmpty(t: Table, r: User, n: nat)
    ensures Below(t.rows - IdsFor(t, r), r, n) == []
  {
    if n > 0 {
      BelowEmpty(t, r, n - 1);
    }
  }

  /** A committed drain with readable rows returns exactly the live messages, oldest first,
      empties the recipient's queue and touches no other. */
  lemma DrainRefines(t: Table, r: User, now: int, s: User)
    requires WellFormed(t)
    ensures var d := Drain(t, r, now, {});
            && d.messages == Messages(Fresh(Fifo(t, r), now))
            && Fifo(d.table, s) == if s == r then [] else Fifo(t, s)
  {
    ReadOutIsFresh(t.rows, r, now, t.nextId);
    if s == r {
      BelowEmpty(t, r, t.nextId);
    } else {
      BelowFrame(t.rows, t.rows - IdsFor(t, r), s, t.nextId);
    }
  }

  lemma PurgeRefines(t: Table, now: int, s: User)
    requires WellFormed(t)
    ensures Fifo(Purge(t, now), s) == Fresh(Fifo(t, s), now)
  {
    BelowWithout(t, ExpiredIds(t, now), s, now, t.nextId);
  }
}
