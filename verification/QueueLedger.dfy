/** The store together with a ledger of what became of every message that passed through it. */
module QueueLedger {
  import opened Envelopes
  import opened QueueTable
  import Runs = QueueRuns

  /** `mem` is the table, `disk` the table in the snapshot file. A message that left the table
      without being handed to a thread is `expired`, `refused` (queue full), `failed` (storage
      error) or `lost` (crash). `behind`: a row was stored since the last successful persist. */
  datatype Queue = Queue(
    mem: Table, disk: Table, behind: bool,
    expired: multiset<Message>, refused: multiset<Message>,
    failed: multiset<Message>, lost: multiset<Message>)

  function NewQueue(): Queue {
    Queue(EMPTY, EMPTY, false, multiset{}, multiset{}, multiset{}, multiset{})
  }

  datatype PutInput = PutInput(sqlNow: int, now: int, fault: Fault, persists: bool)

  datatype TakeInput = TakeInput(now: int, bad: set<nat>, persists: bool)

  function Restrict(rows: map<nat, Row>, ids: set<nat>): map<nat, Row> {
    map id | id in rows && id in ids :: rows[id]
  }

  /** The messages in rows below `n`. */
  function Bag(rows: map<nat, Row>, n: nat): multiset<Message> {
    if n == 0 then multiset{}
    else if n - 1 in rows then Bag(rows, n - 1) + multiset{rows[n - 1].message}
    else Bag(rows, n - 1)
  }

  function Queued(t: Table): multiset<Message> {
    Bag(t.rows, t.nextId)
  }

  /** The messages of the rows of `t` with ids in `ids`. */
  function Among(t: Table, ids: set<nat>): multiset<Message> {
    Bag(Restrict(t.rows, ids), t.nextId)
  }

  /** The table after a store operation, and the file too if the persist went through. */
  function Saved(q: Queue, t: Table, persists: bool): Queue {
    if persists then q.(mem := t, disk := t, behind := false) else q.(mem := t)
  }

  /** The ids Enqueue deletes before it counts. */
  function Doomed(t: Table, user: User, p: PutInput): set<nat> {
    if p.fault.DeleteFault? then {} else IdsFor(t, user) * ExpiredIds(t, p.sqlNow)
  }

  function Settle(q: Queue, gone: set<nat>, m: Message, persists: bool, e: Enqueued): Queue {
    var q' := q.(expired := q.expired + Among(q.mem, gone));
    match e.outcome
    case Stored => Saved(q', e.table, persists).(behind := !persists)
    case Full => q'.(mem := e.table, refused := q.refused + multiset{m})
    case Failed => q'.(mem := e.table, failed := q.failed + multiset{m})
  }

  /** Store.Enqueue of `m`, with the fate of `m` and of the expired rows it deletes. */
  function Put(q: Queue, user: User, m: Message, ttl: nat, p: PutInput): Queue {
    Settle(q, Doomed(q.mem, user, p), m, p.persists,
           Enqueue(q.mem, user, m, ttl, p.sqlNow, p.now, p.fault))
  }

  /** Store.DrainQueue that commits, with the fate of the rows it does not return. */
  function Take(q: Queue, user: User, d: TakeInput): Queue {
    var ids := IdsFor(q.mem, user);
    var q' := q.(failed := q.failed + Among(q.mem, ids * d.bad),
                 expired := q.expired + Among(q.mem, (ids - d.bad) * ExpiredIds(q.mem, d.now)));
    Saved(q', Drain(q.mem, user, d.now, d.bad).table, d.persists)
  }

  function Taken(q: Queue, user: User, d: TakeInput): seq<Message> {
    Drain(q.mem, user, d.now, d.bad).messages
  }

  function Swept(q: Queue, now: int, persists: bool): Queue {
    Saved(q.(expired := q.expired + Among(q.mem, ExpiredIds(q.mem, now))), Purge(q.mem, now), persists)
  }

  /** The table is reloaded from the file and the messages `held` in memory die. A message with
      a row in the file is queued again, whatever had become of it; any other that was held or
      queued is lost. */
  function Reloaded(q: Queue, held: multiset<Message>): Queue {
    var back := Queued(q.disk);
    q.(mem := q.disk, behind := false, lost := (q.lost + held + Queued(q.mem)) - back,
       expired := q.expired - back, refused := q.refused - back, failed := q.failed - back)
  }

  function StoreOf(q: Queue): Runs.State {
    Runs.State(q.mem, q.disk)
  }

  /** The ledger rides on the store: its tables move exactly as the store's operations move them. */
  lemma PutFollowsStore(q: Queue, user: User, m: Message, ttl: nat, p: PutInput)
    ensures StoreOf(Put(q, user, m, ttl, p))
         == Runs.Step(StoreOf(q), Runs.Put(user, m, p.sqlNow, p.now, p.fault, p.persists), ttl)
  {
  }

  lemma TakeFollowsStore(q: Queue, user: User, d: TakeInput, ttl: nat)
    ensures var take := Runs.Take(user, d.now, true, d.bad, d.persists);
            && StoreOf(Take(q, user, d)) == Runs.Step(StoreOf(q), take, ttl)
            && Runs.Delivered(Taken(q, user, d)) == Runs.Shows(StoreOf(q), take, ttl)
  {
  }

  lemma SweepFollowsStore(q: Queue, now: int, persists: bool, held: multiset<Message>, ttl: nat)
    ensures StoreOf(Swept(q, now, persists)) == Runs.Step(StoreOf(q), Runs.Sweep(now, true, persists), ttl)
    ensures StoreOf(Reloaded(q, held)) == Runs.Step(StoreOf(q), Runs.Restart, ttl)
  {
  }

  /** How often `x` was taken out of circulation. */
  function Dropped(q: Queue, x: Message): nat {
    q.expired[x] + q.refused[x] + q.failed[x] + q.lost[x]
  }

  ghost predicate Sound(q: Queue, x: Message) {
    WellFormed(q.mem) && WellFormed(q.disk) && (!q.behind ==> Queued(q.mem)[x] <= Queued(q.disk)[x])
  }

  /** A store operation that takes in `taken` copies of `x` and hands out `given`: the rest is
      queued or dropped, and the file is left alone or gets the new table. */
  ghost predicate Moves(q: Queue, q': Queue, x: Message, taken: nat, given: nat) {
    && Sound(q', x)
    && Queued(q'.mem)[x] + Dropped(q', x) + given == Queued(q.mem)[x] + Dropped(q, x) + taken
    && Dropped(q', x) >= Dropped(q, x)
    && (q'.disk == q.disk || q'.disk == q'.mem)
  }

  // ---------- counting rows ----------

  lemma {:induction false} BagSplit(rows: map<nat, Row>, ids: set<nat>, n: nat, x: Message)
    ensures Bag(rows, n)[x] == Bag(rows - ids, n)[x] + Bag(Restrict(rows, ids), n)[x]
  {
    if n > 0 {
      BagSplit(rows, ids, n - 1, x);
    }
  }

  lemma {:induction false} BagFrame(rows: map<nat, Row>, rows': map<nat, Row>, n: nat)
    requires forall id :: id < n ==> (id in rows <==> id in rows')
    requires forall id :: id < n && id in rows && id in rows' ==> rows[id] == rows'[id]
    ensures Bag(rows, n) == Bag(rows', n)
  {
    if n > 0 {
      BagFrame(rows, rows', n - 1);
    }
  }

  lemma WithoutSplits(t: Table, ids: set<nat>, x: Message)
    ensures Queued(t)[x] == Queued(Without(t, ids))[x] + Among(t, ids)[x]
  {
    BagSplit(t.rows, ids, t.nextId, x);
  }

  lemma InsertAdds(t: Table, row: Row, x: Message)
    requires WellFormed(t)
    ensures Queued(Insert(t, row))[x] == Queued(t)[x] + multiset{row.message}[x]
  {
    BagFrame(t.rows, Insert(t, row).rows, t.nextId);
  }

  lemma {:induction false} ReadOutBag(rows: map<nat, Row>, r: User, now: int, bad: set<nat>, live: set<nat>, n: nat, x: Message)
    requires forall id :: id in live <==>
               id in rows && rows[id].recipient == r && id !in bad && rows[id].expiresAt >= now
    ensures multiset(ReadOut(rows, r, now, bad, n))[x] == Bag(Restrict(rows, live), n)[x]
  {
    if n > 0 {
      ReadOutBag(rows, r, now, bad, live, n - 1, x);
    }
  }

  lemma {:induction false} ReadOutHas(rows: map<nat, Row>, r: User, now: int, n: nat, id: nat)
    requires id < n && id in rows && rows[id].recipient == r && rows[id].expiresAt >= now
    ensures rows[id].message in ReadOut(rows, r, now, {}, n)
  {
    if id < n - 1 {
      ReadOutHas(rows, r, now, n - 1, id);
    }
  }

  lemma MineSplits(t: Table, ids: set<nat>, unread: set<nat>, late: set<nat>, x: Message)
    requires unread <= ids && late <= ids - unread
    ensures Among(t, ids)[x] == Among(t, unread)[x] + Among(t, late)[x] + Among(t, ids - unread - late)[x]
  {
    var mine, n := Restrict(t.rows, ids), t.nextId;
    BagSplit(mine, unread, n, x);
    assert Restrict(mine, unread) == Restrict(t.rows, unread);
    BagSplit(mine - unread, late, n, x);
    assert Restrict(mine - unread, late) == Restrict(t.rows, late);
    assert mine - unread - late == Restrict(t.rows, ids - unread - late);
  }

  /** A drain hands out, loses to read errors, or drops as expired each of the rows it deletes. */
  lemma DrainSplits(t: Table, r: User, now: int, bad: set<nat>, x: Message)
    ensures var ids, d := IdsFor(t, r), Drain(t, r, now, bad);
            Queued(t)[x] == Queued(d.table)[x] + multiset(d.messages)[x]
                          + Among(t, ids * bad)[x] + Among(t, (ids - bad) * ExpiredIds(t, now))[x]
  {
    var ids := IdsFor(t, r);
    var unread, late := ids * bad, (ids - bad) * ExpiredIds(t, now);
    WithoutSplits(t, ids, x);
    MineSplits(t, ids, unread, late, x);
    ReadOutBag(t.rows, r, now, bad, ids - unread - late, t.nextId, x);
  }

  // ---------- every store operation moves messages, and makes or loses none ----------

  lemma EnqueueTable(t: Table, user: User, m: Message, ttl: nat, p: PutInput)
    ensures var u, e := Without(t, Doomed(t, user, p)), Enqueue(t, user, m, ttl, p.sqlNow, p.now, p.fault);
            e.table == if e.outcome.Stored? then Insert(u, Row(user, m, p.now + ttl)) else u
  {
  }

  /** The expiry delete followed by the INSERT, as the ledger counts them. */
  lemma StoreCounts(t: Table, gone: set<nat>, row: Row, x: Message)
    requires WellFormed(t)
    ensures WellFormed(Without(t, gone)) && WellFormed(Insert(Without(t, gone), row))
    ensures Queued(Without(t, gone))[x] + Among(t, gone)[x] == Queued(t)[x]
    ensures Queued(Insert(Without(t, gone), row))[x] == Queued(Without(t, gone))[x] + multiset{row.message}[x]
  {
    WithoutSplits(t, gone, x);
    InsertAdds(Without(t, gone), row, x);
  }

  lemma ExpiredAdds(q: Queue, gone: set<nat>, x: Message)
    ensures (q.expired + Among(q.mem, gone))[x] == q.expired[x] + Among(q.mem, gone)[x]
  {
  }

  lemma StoredMoves(q: Queue, gone: set<nat>, row: Row, persists: bool, x: Message)
    requires Sound(q, x)
    ensures Moves(q, Settle(q, gone, row.message, persists, Enqueued(Insert(Without(q.mem, gone), row), Stored)), x,
                  multiset{row.message}[x], 0)
  {
    StoreCounts(q.mem, gone, row, x);
    ExpiredAdds(q, gone, x);
  }

  lemma UnstoredMoves(q: Queue, gone: set<nat>, m: Message, persists: bool, outcome: Outcome, x: Message)
    requires Sound(q, x) && !outcome.Stored?
    ensures Moves(q, Settle(q, gone, m, persists, Enqueued(Without(q.mem, gone), outcome)), x, multiset{m}[x], 0)
  {
    WithoutSplits(q.mem, gone, x);
    ExpiredAdds(q, gone, x);
  }

  lemma PutMoves(q: Queue, user: User, m: Message, ttl: nat, p: PutInput, x: Message)
    requires Sound(q, x)
    ensures Moves(q, Put(q, user, m, ttl, p), x, multiset{m}[x], 0)
  {
    var e := Enqueue(q.mem, user, m, ttl, p.sqlNow, p.now, p.fault);
    EnqueueTable(q.mem, user, m, ttl, p);
    if e.outcome.Stored? {
      StoredMoves(q, Doomed(q.mem, user, p), Row(user, m, p.now + ttl), p.persists, x);
    } else {
      UnstoredMoves(q, Doomed(q.mem, user, p), m, p.persists, e.outcome, x);
    }
  }

  lemma TakeMoves(q: Queue, user: User, d: TakeInput, x: Message)
    requires Sound(q, x)
    ensures Moves(q, Take(q, user, d), x, 0, multiset(Taken(q, user, d))[x])
  {
    DrainSplits(q.mem, user, d.now, d.bad, x);
  }

  lemma SweepMoves(q: Queue, now: int, persists: bool, x: Message)
    requires Sound(q, x)
    ensures Moves(q, Swept(q, now, persists), x, 0, 0)
  {
    WithoutSplits(q.mem, ExpiredIds(q.mem, now), x);
  }

  /** A crash puts a message with a row in the file back into the queue and nowhere else, and
      loses any other that was held or queued. */
  lemma ReloadMoves(q: Queue, held: multiset<Message>, x: Message)
    requires WellFormed(q.disk)
    requires held[x] + Queued(q.mem)[x] + Dropped(q, x) <= 1 && Queued(q.disk)[x] <= 1
    ensures var q', back := Reloaded(q, held), Queued(q.disk)[x];
            && Sound(q', x) && q'.disk == q.disk && Queued(q'.mem)[x] == back
            && Dropped(q', x) == (if back > 0 then 0 else held[x] + Queued(q.mem)[x] + Dropped(q, x))
            && (q'.lost[x] > q.lost[x] <==> held[x] + Queued(q.mem)[x] > 0 && back == 0)
  {
  }
}
