/** The offline queue as a table of rows, and the statements the store runs on it.
    Payload encryption under the store's one key is the identity here. */
module QueueTable {
  import opened Envelopes

  const MAX_QUEUE: nat := 500

  /** A relay does not start with a TTL that is not positive. */
  type Ttl = n: nat | n > 0 witness 1

  datatype Row = Row(recipient: User, message: Message, expiresAt: int)

  /** Rows by id; `nextId` is the AUTOINCREMENT counter, which is part of the stored database. */
  datatype Table = Table(rows: map<nat, Row>, nextId: nat)

  const EMPTY := Table(map[], 1)

  ghost predicate WellFormed(t: Table) {
    forall id :: id in t.rows ==> id < t.nextId
  }

  function IdsFor(t: Table, r: User): set<nat> {
    set id | id in t.rows && t.rows[id].recipient == r
  }

  function ExpiredIds(t: Table, now: int): set<nat> {
    set id | id in t.rows && t.rows[id].expiresAt < now
  }

  /** DELETE FROM queue WHERE id is in `ids`. */
  function Without(t: Table, ids: set<nat>): Table {
    t.(rows := t.rows - ids)
  }

  /** INSERT INTO queue. */
  function Insert(t: Table, row: Row): Table {
    Table(t.rows[t.nextId := row], t.nextId + 1)
  }

  /** The statement at which an Enqueue call gives up, if any. */
  datatype Fault = NoFault | DeleteFault | CountFault | EncodeFault | InsertFault

  datatype Outcome = Stored | Full | Failed

  datatype Enqueued = Enqueued(table: Table, outcome: Outcome)

  /** Enqueue up to, and not including, the persist that follows a stored row. The DELETE reads
      SQLite's clock (`sqlNow`); the expiry is computed later from the process clock (`now`). */
  function Enqueue(t: Table, r: User, m: Message, ttl: nat, sqlNow: int, now: int, fault: Fault): Enqueued {
    if fault.DeleteFault? then Enqueued(t, Failed)
    else
      var u := Without(t, IdsFor(t, r) * ExpiredIds(t, sqlNow));
      if fault.CountFault? then Enqueued(u, Failed)
      else if |IdsFor(u, r)| >= MAX_QUEUE then Enqueued(u, Full)
      else if fault != NoFault then Enqueued(u, Failed)
      else Enqueued(Insert(u, Row(r, m, now + ttl)), Stored)
  }

  /** The messages the drain cursor yields from ids below `n`, in id order: rows that cannot be
      read (`bad`) and expired rows are skipped. */
  function ReadOut(rows: map<nat, Row>, r: User, now: int, bad: set<nat>, n: nat): seq<Message> {
    if n == 0 then []
    else
      var id, earlier := n - 1, ReadOut(rows, r, now, bad, n - 1);
      if id in rows && rows[id].recipient == r && id !in bad && rows[id].expiresAt >= now
      then earlier + [rows[id].message] else earlier
  }

  datatype Drained = Drained(table: Table, messages: seq<Message>)

  /** A drain whose transaction commits. */
  function Drain(t: Table, r: User, now: int, bad: set<nat>): Drained {
    Drained(Without(t, IdsFor(t, r)), ReadOut(t.rows, r, now, bad, t.nextId))
  }

  function Purge(t: Table, now: int): Table {
    Without(t, ExpiredIds(t, now))
  }

  /** SELECT COUNT(*) FROM queue WHERE expires_at >= now. */
  function LiveCount(t: Table, now: int): nat {
    |t.rows.Keys - ExpiredIds(t, now)|
  }

  ghost predicate WithinCap(t: Table) {
    forall r :: |IdsFor(t, r)| <= MAX_QUEUE
  }

  lemma SubsetSize(a: set<nat>, b: set<nat>)
    requires a <= b
    ensures |a| <= |b|
    ensures |a| == |b| ==> a == b
  {
    assert b == a + (b - a);
    assert |b| == |a| + |b - a|;
  }

  lemma WithoutKeepsCap(t: Table, ids: set<nat>)
    requires WithinCap(t)
    ensures WithinCap(Without(t, ids))
  {
    forall r ensures |IdsFor(Without(t, ids), r)| <= MAX_QUEUE {
      SubsetSize(IdsFor(Without(t, ids), r), IdsFor(t, r));
    }
  }

  lemma InsertIds(t: Table, row: Row, r: User)
    requires WellFormed(t)
    ensures IdsFor(Insert(t, row), r) == if r == row.recipient then IdsFor(t, r) + {t.nextId} else IdsFor(t, r)
  {
  }

  lemma InsertKeepsCap(t: Table, row: Row)
    requires WellFormed(t) && WithinCap(t) && |IdsFor(t, row.recipient)| < MAX_QUEUE
    ensures WithinCap(Insert(t, row))
  {
    forall r ensures |IdsFor(Insert(t, row), r)| <= MAX_QUEUE {
      InsertIds(t, row, r);
    }
  }

  /** Every statement keeps ids below the counter and every recipient within the cap. */
  lemma EnqueueKeepsShape(t: Table, r: User, m: Message, ttl: nat, sqlNow: int, now: int, fault: Fault)
    requires WellFormed(t) && WithinCap(t)
    ensures WellFormed(Enqueue(t, r, m, ttl, sqlNow, now, fault).table)
    ensures WithinCap(Enqueue(t, r, m, ttl, sqlNow, now, fault).table)
  {
    var u := Without(t, IdsFor(t, r) * ExpiredIds(t, sqlNow));
    WithoutKeepsCap(t, IdsFor(t, r) * ExpiredIds(t, sqlNow));
    if |IdsFor(u, r)| < MAX_QUEUE {
      InsertKeepsCap(u, Row(r, m, now + ttl));
    }
  }

  /** Why the at-cap early return may skip persisting: a recipient still at the cap after the
      expiry delete had no expired row, so the table is unchanged. */
  lemma FullDeletesNothing(t: Table, r: User, m: Message, ttl: nat, sqlNow: int, now: int, fault: Fault)
    requires WithinCap(t)
    requires Enqueue(t, r, m, ttl, sqlNow, now, fault).outcome == Full
    ensures Enqueue(t, r, m, ttl, sqlNow, now, fault).table == t
  {
    var u := Without(t, IdsFor(t, r) * ExpiredIds(t, sqlNow));
    SubsetSize(IdsFor(u, r), IdsFor(t, r));
    assert u.rows == t.rows by {
      forall id | id in t.rows ensures id in u.rows {
        if t.rows[id].recipient == r {
          assert id in IdsFor(u, r);
        }
      }
    }
  }
}
