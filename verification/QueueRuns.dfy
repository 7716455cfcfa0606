/** Whole runs of the offline queue: memory table, file on disk, purges and restarts.
    A purge, and a restart that finds the file up to date, cannot be told from doing nothing. */
module QueueRuns {
  import opened Envelopes
  import opened QueueTable
  import opened QueueFifo

  /** `disk` is the table in the snapshot file. */
  datatype State = State(mem: Table, disk: Table)

  /** One critical section of the store with everything the environment decides: clock
      readings, statement faults, unreadable rows, and whether the persist succeeds. */
  datatype Op =
    | Put(recipient: User, message: Message, sqlNow: int, now: int, fault: Fault, persists: bool)
    | Take(recipient: User, now: int, commits: bool, bad: set<nat>, persists: bool)
    | Count(now: int, answers: bool)
    | Sweep(now: int, executes: bool, persists: bool)
    | Restart

  function Step(s: State, op: Op, ttl: nat): State {
    match op
    case Put(r, m, sqlNow, now, fault, persists) =>
      var e := Enqueue(s.mem, r, m, ttl, sqlNow, now, fault);
      State(e.table, if e.outcome.Stored? && persists then e.table else s.disk)
    case Take(r, now, commits, bad, persists) =>
      if !commits then s else
      var t := Drain(s.mem, r, now, bad).table;
      State(t, if persists then t else s.disk)
    case Count(_, _) => s
    case Sweep(now, executes, persists) =>
      if !executes then s else
      var t := Purge(s.mem, now);
      State(t, if persists then t else s.disk)
    case Restart => State(s.disk, s.disk)
  }

  function Run(s: State, ops: seq<Op>, n: nat, ttl: nat): State
    requires n <= |ops|
  {
    if n == 0 then s else Step(Run(s, ops, n - 1, ttl), ops[n - 1], ttl)
  }

  datatype Observation = Decided(outcome: Outcome) | Delivered(messages: seq<Message>) | Counted(total: nat)

  predicate Visible(op: Op) {
    !op.Sweep? && !op.Restart?
  }

  /** What the caller of a visible operation learns. */
  function Shows(s: State, op: Op, ttl: nat): Observation
    requires Visible(op)
  {
    match op
    case Put(r, m, sqlNow, now, fault, _) => Decided(Enqueue(s.mem, r, m, ttl, sqlNow, now, fault).outcome)
    case Take(r, now, commits, bad, _) => Delivered(if commits then Drain(s.mem, r, now, bad).messages else [])
    case Count(now, answers) => Counted(if answers then LiveCount(s.mem, now) else 0)
  }

  function Watch(s: State, ops: seq<Op>, n: nat, ttl: nat): seq<Observation>
    requires n <= |ops|
  {
    if n == 0 then []
    else if Visible(ops[n - 1]) then Watch(s, ops, n - 1, ttl) + [Shows(Run(s, ops, n - 1, ttl), ops[n - 1], ttl)]
    else Watch(s, ops, n - 1, ttl)
  }

  /** The visible operations among the first `n`. */
  function Strip(ops: seq<Op>, n: nat): seq<Op>
    requires n <= |ops|
  {
    if n == 0 then []
    else if Visible(ops[n - 1]) then Strip(ops, n - 1) + [ops[n - 1]]
    else Strip(ops, n - 1)
  }

  /** The clock reading that decides which rows an operation treats as live. */
  function Reading(op: Op): int
    requires !op.Restart?
  {
    if op.Put? then op.sqlNow else op.now
  }

  ghost predicate ClockForward(ops: seq<Op>) {
    forall i, j :: 0 <= i < j < |ops| && !ops[i].Restart? && !ops[j].Restart? ==> Reading(ops[i]) <= Reading(ops[j])
  }

  ghost predicate ReadBy(ops: seq<Op>, n: nat, now: int)
    requires n <= |ops|
  {
    forall i :: 0 <= i < n && !ops[i].Restart? ==> Reading(ops[i]) <= now
  }

  /** The operation changes live rows and the file does not get the change. */
  predicate LeavesUnsaved(s: State, op: Op, ttl: nat) {
    || (op.Put? && !op.persists && Shows(s, op, ttl) == Decided(Stored))
    || (op.Take? && !op.persists && op.commits && IdsFor(s.mem, op.recipient) != {})
  }

  predicate Saves(s: State, op: Op, ttl: nat) {
    || (op.Put? && op.persists && Shows(s, op, ttl) == Decided(Stored))
    || (op.Take? && op.persists && op.commits)
    || (op.Sweep? && op.persists && op.executes)
  }

  /** A change since the last successful persist, or restart, is not in the file. */
  predicate Unsaved(s: State, ops: seq<Op>, n: nat, ttl: nat)
    requires n <= |ops|
  {
    n > 0 &&
    var before, op := Run(s, ops, n - 1, ttl), ops[n - 1];
    !op.Restart? && !Saves(before, op, ttl) && (LeavesUnsaved(before, op, ttl) || Unsaved(s, ops, n - 1, ttl))
  }

  /** Every restart finds the file up to date: a failed persist may have come before it, if a later
      one succeeded. */
  ghost predicate SavedRestarts(s: State, ops: seq<Op>, ttl: nat) {
    forall k :: 0 <= k < |ops| && ops[k].Restart? ==> !Unsaved(s, ops, k, ttl)
  }

  /** Two tables with the same live rows and the same counter. */
  predicate Same(t: Table, u: Table, now: int) {
    Purge(t, now) == Purge(u, now)
  }

  // ---------- each operation respects Same ----------

  lemma SameLater(t: Table, u: Table, now: int, later: int)
    requires Same(t, u, now) && now <= later
    ensures Same(t, u, later)
  {
    assert Purge(Purge(t, now), later) == Purge(t, later);
    assert Purge(Purge(u, now), later) == Purge(u, later);
  }

  lemma ExpiryDeleteIsSame(t: Table, r: User, now: int)
    ensures Same(Without(t, IdsFor(t, r) * ExpiredIds(t, now)), t, now)
  {
  }

  lemma InsertSame(t: Table, u: Table, row: Row, now: int)
    requires Same(t, u, now)
    ensures Same(Insert(t, row), Insert(u, row), now)
  {
    var a, b := Purge(Insert(t, row), now).rows, Purge(Insert(u, row), now).rows;
    forall id ensures id in a <==> id in b {
      assert id in Purge(t, now).rows <==> id in Purge(u, now).rows;
    }
    forall id | id in a ensures a[id] == b[id] {
      if id != t.nextId {
        assert id in Purge(t, now).rows && Purge(t, now).rows[id] == Purge(u, now).rows[id];
      }
    }
  }

  lemma LiveIdsAgree(t: Table, u: Table, r: User, now: int)
    requires Same(t, u, now)
    ensures IdsFor(Without(t, IdsFor(t, r) * ExpiredIds(t, now)), r)
         == IdsFor(Without(u, IdsFor(u, r) * ExpiredIds(u, now)), r)
  {
    assert IdsFor(Without(t, IdsFor(t, r) * ExpiredIds(t, now)), r) == IdsFor(Purge(t, now), r);
    assert IdsFor(Without(u, IdsFor(u, r) * ExpiredIds(u, now)), r) == IdsFor(Purge(u, now), r);
  }

  lemma PutSame(t: Table, u: Table, r: User, m: Message, ttl: nat, sqlNow: int, now: int, fault: Fault)
    requires Same(t, u, sqlNow)
    ensures Enqueue(t, r, m, ttl, sqlNow, now, fault).outcome == Enqueue(u, r, m, ttl, sqlNow, now, fault).outcome
    ensures Same(Enqueue(t, r, m, ttl, sqlNow, now, fault).table, Enqueue(u, r, m, ttl, sqlNow, now, fault).table, sqlNow)
  {
    var t', u' := Without(t, IdsFor(t, r) * ExpiredIds(t, sqlNow)), Without(u, IdsFor(u, r) * ExpiredIds(u, sqlNow));
    ExpiryDeleteIsSame(t, r, sqlNow);
    ExpiryDeleteIsSame(u, r, sqlNow);
    LiveIdsAgree(t, u, r, sqlNow);
    InsertSame(t', u', Row(r, m, now + ttl), sqlNow);
  }

  lemma {:induction false} ReadOutIgnoresExpired(t: Table, r: User, now: int, bad: set<nat>, n: nat)
    ensures ReadOut(t.rows, r, now, bad, n) == ReadOut(Purge(t, now).rows, r, now, bad, n)
  {
    if n > 0 {
      ReadOutIgnoresExpired(t, r, now, bad, n - 1);
    }
  }

  lemma TakeSame(t: Table, u: Table, r: User, now: int, bad: set<nat>)
    requires Same(t, u, now)
    ensures Drain(t, r, now, bad).messages == Drain(u, r, now, bad).messages
    ensures Same(Drain(t, r, now, bad).table, Drain(u, r, now, bad).table, now)
  {
    ReadOutIgnoresExpired(t, r, now, bad, t.nextId);
    ReadOutIgnoresExpired(u, r, now, bad, t.nextId);
    var p, q := Purge(t, now), Purge(u, now);
    assert Purge(Without(t, IdsFor(t, r)), now) == Without(p, IdsFor(p, r));
    assert Purge(Without(u, IdsFor(u, r)), now) == Without(q, IdsFor(q, r));
  }

  lemma CountSame(t: Table, u: Table, now: int)
    requires Same(t, u, now)
    ensures LiveCount(t, now) == LiveCount(u, now)
  {
  }

  lemma PurgeIsSame(t: Table, now: int)
    ensures Same(Purge(t, now), t, now)
  {
  }

  /** A visible operation on two states with the same live rows shows the same and keeps them so. */
  lemma VisibleSame(s: State, s': State, op: Op, ttl: nat)
    requires Visible(op) && Same(s.mem, s'.mem, Reading(op))
    ensures Shows(s, op, ttl) == Shows(s', op, ttl)
    ensures Same(Step(s, op, ttl).mem, Step(s', op, ttl).mem, Reading(op))
  {
    match op
    case Put(r, m, sqlNow, now, fault, _) => PutSame(s.mem, s'.mem, r, m, ttl, sqlNow, now, fault);
    case Take(r, now, _, bad, _) => TakeSame(s.mem, s'.mem, r, now, bad);
    case Count(now, _) => CountSame(s.mem, s'.mem, now);
  }

  /** An operation without unsaved changes keeps memory and file the same up to expired rows. */
  lemma HarmlessStep(s: State, op: Op, ttl: nat)
    requires !op.Restart? && Same(s.mem, s.disk, Reading(op)) && !LeavesUnsaved(s, op, ttl)
    ensures var s' := Step(s, op, ttl); Same(s'.mem, s'.disk, Reading(op))
  {
    match op
    case Put(r, _, sqlNow, _, _, _) => ExpiryDeleteIsSame(s.mem, r, sqlNow);
    case Take(r, _, commits, _, persists) =>
      if commits && !persists {
        assert Without(s.mem, {}) == s.mem;
      }
    case Sweep(now, _, _) => PurgeIsSame(s.mem, now);
    case _ =>
  }

  lemma SavingStep(s: State, op: Op, ttl: nat)
    requires Saves(s, op, ttl)
    ensures Step(s, op, ttl).mem == Step(s, op, ttl).disk
  {
  }

  lemma {:induction false} DiskStaysSame(s: State, ops: seq<Op>, n: nat, ttl: nat, now: int)
    requires n <= |ops| && ClockForward(ops) && ReadBy(ops, n, now) && s.mem == s.disk && !Unsaved(s, ops, n, ttl)
    ensures Same(Run(s, ops, n, ttl).mem, Run(s, ops, n, ttl).disk, now)
  {
    if n > 0 && !ops[n - 1].Restart? {
      var op, before := ops[n - 1], Run(s, ops, n - 1, ttl);
      if Saves(before, op, ttl) {
        SavingStep(before, op, ttl);
      } else {
        DiskStaysSame(s, ops, n - 1, ttl, Reading(op));
        HarmlessStep(before, op, ttl);
        SameLater(Run(s, ops, n, ttl).mem, Run(s, ops, n, ttl).disk, Reading(op), now);
      }
    }
  }

  // ---------- invisibility ----------

  lemma {:induction false} RunOfPrefix(s: State, xs: seq<Op>, x: Op, n: nat, ttl: nat)
    requires n <= |xs|
    ensures Run(s, xs + [x], n, ttl) == Run(s, xs, n, ttl)
    ensures Watch(s, xs + [x], n, ttl) == Watch(s, xs, n, ttl)
  {
    if n > 0 {
      RunOfPrefix(s, xs, x, n - 1, ttl);
    }
  }

  /** The run and its visible operations alone have shown the same, and have the same live rows. */
  ghost predicate Alike(s: State, ops: seq<Op>, n: nat, ttl: nat, now: int)
    requires n <= |ops|
  {
    var vis := Strip(ops, n);
    Watch(s, ops, n, ttl) == Watch(s, vis, |vis|, ttl) && Same(Run(s, ops, n, ttl).mem, Run(s, vis, |vis|, ttl).mem, now)
  }

  lemma VisibleAlike(s: State, ops: seq<Op>, n: nat, ttl: nat)
    requires n < |ops| && Visible(ops[n]) && Alike(s, ops, n, ttl, Reading(ops[n]))
    ensures Alike(s, ops, n + 1, ttl, Reading(ops[n]))
  {
    var vis := Strip(ops, n);
    RunOfPrefix(s, vis, ops[n], |vis|, ttl);
    VisibleSame(Run(s, ops, n, ttl), Run(s, vis, |vis|, ttl), ops[n], ttl);
  }

  lemma SweepAlike(s: State, ops: seq<Op>, n: nat, ttl: nat)
    requires n < |ops| && ops[n].Sweep? && Alike(s, ops, n, ttl, ops[n].now)
    ensures Alike(s, ops, n + 1, ttl, ops[n].now)
  {
    PurgeIsSame(Run(s, ops, n, ttl).mem, ops[n].now);
  }

  lemma RestartAlike(s: State, ops: seq<Op>, n: nat, ttl: nat, now: int)
    requires n < |ops| && ops[n].Restart? && Alike(s, ops, n, ttl, now)
    requires Same(Run(s, ops, n, ttl).mem, Run(s, ops, n, ttl).disk, now)
    ensures Alike(s, ops, n + 1, ttl, now)
  {
  }

  lemma AlikeLater(s: State, ops: seq<Op>, n: nat, ttl: nat, now: int, later: int)
    requires n <= |ops| && Alike(s, ops, n, ttl, now) && now <= later
    ensures Alike(s, ops, n, ttl, later)
  {
    var vis := Strip(ops, n);
    SameLater(Run(s, ops, n, ttl).mem, Run(s, vis, |vis|, ttl).mem, now, later);
  }

  lemma {:induction false} StrippedRunIsSame(s: State, ops: seq<Op>, n: nat, ttl: nat, now: int)
    requires n <= |ops| && ClockForward(ops) && ReadBy(ops, n, now) && s.mem == s.disk
    requires SavedRestarts(s, ops, ttl)
    ensures Alike(s, ops, n, ttl, now)
  {
    if n > 0 {
      var op := ops[n - 1];
      if op.Restart? {
        StrippedRunIsSame(s, ops, n - 1, ttl, now);
        DiskStaysSame(s, ops, n - 1, ttl, now);
        RestartAlike(s, ops, n - 1, ttl, now);
      } else {
        StrippedRunIsSame(s, ops, n - 1, ttl, Reading(op));
        if op.Sweep? {
          SweepAlike(s, ops, n - 1, ttl);
        } else {
          VisibleAlike(s, ops, n - 1, ttl);
        }
        AlikeLater(s, ops, n, ttl, Reading(op), now);
      }
    }
  }

  ghost function LastReading(ops: seq<Op>, n: nat): (t: int)
    requires n <= |ops|
    ensures ReadBy(ops, n, t)
  {
    if n == 0 then 0
    else
      var t := LastReading(ops, n - 1);
      if ops[n - 1].Restart? || Reading(ops[n - 1]) <= t then t else Reading(ops[n - 1])
  }

  /** Purges are invisible, and so are restarts that find the file up to date: two runs that differ
      only in where such steps stand show every caller the same drains, counts and cap decisions. */
  lemma HiddenStepsAreInvisible(s: State, ops: seq<Op>, ops': seq<Op>, ttl: nat)
    requires s.mem == s.disk && Strip(ops, |ops|) == Strip(ops', |ops'|)
    requires ClockForward(ops) && SavedRestarts(s, ops, ttl)
    requires ClockForward(ops') && SavedRestarts(s, ops', ttl)
    ensures Watch(s, ops, |ops|, ttl) == Watch(s, ops', |ops'|, ttl)
  {
    StrippedRunIsSame(s, ops, |ops|, ttl, LastReading(ops, |ops|));
    StrippedRunIsSame(s, ops', |ops'|, ttl, LastReading(ops', |ops'|));
  }

  /** A restart that finds the file behind can be seen: after a stored row whose persist failed it
      loses the row, for every message, recipient and clock. */
  lemma FailedPersistShows(r: User, m: Message, now: int, ttl: nat)
    ensures var s := State(EMPTY, EMPTY);
            var put, take := Put(r, m, now, now, NoFault, false), Take(r, now, true, {}, true);
            && Strip([put, Restart, take], 3) == [put, take]
            && Watch(s, [put, Restart, take], 3, ttl) == [Decided(Stored), Delivered([])]
            && Watch(s, [put, take], 2, ttl) == [Decided(Stored), Delivered([m])]
  {
    var s := State(EMPTY, EMPTY);
    var put, take := Put(r, m, now, now, NoFault, false), Take(r, now, true, {}, true);
    var stored := Table(map[1 := Row(r, m, now + ttl)], 2);
    assert Shows(s, put, ttl) == Decided(Stored) && Step(s, put, ttl) == State(stored, EMPTY) by {
      assert IdsFor(EMPTY, r) == {} && Without(EMPTY, {}) == EMPTY;
    }
    assert Shows(s, take, ttl) == Delivered([]) by {
      assert ReadOut(EMPTY.rows, r, now, {}, 1) == [];
    }
    assert Shows(State(stored, EMPTY), take, ttl) == Delivered([m]) by {
      assert ReadOut(stored.rows, r, now, {}, 1) == [];
      assert ReadOut(stored.rows, r, now, {}, 2) == [m];
    }
    var ops, vis := [put, Restart, take], [put, take];
    assert Run(s, ops, 1, ttl) == State(stored, EMPTY) == Run(s, vis, 1, ttl);
    assert Run(s, ops, 2, ttl) == s;
    assert Watch(s, ops, 1, ttl) == [Decided(Stored)] == Watch(s, ops, 2, ttl) == Watch(s, vis, 1, ttl);
    assert Strip(ops, 1) == [put] == Strip(ops, 2);
  }

  // ---------- memory and disk ----------

  predicate Faultless(op: Op) {
    (op.Put? ==> op.persists && op.fault.NoFault?) && (op.Take? ==> op.persists) && (op.Sweep? ==> op.persists)
  }

  /** Without storage errors memory and disk hold the very same table after every operation,
      although an Enqueue that finds the queue full returns without persisting. */
  lemma {:induction false} DiskMirrorsMemory(s: State, ops: seq<Op>, n: nat, ttl: nat)
    requires n <= |ops| && forall i :: 0 <= i < n ==> Faultless(ops[i])
    requires s.mem == s.disk && WellFormed(s.mem) && WithinCap(s.mem)
    ensures var e := Run(s, ops, n, ttl); e.mem == e.disk && WellFormed(e.mem) && WithinCap(e.mem)
  {
    if n > 0 {
      DiskMirrorsMemory(s, ops, n - 1, ttl);
      var t := Run(s, ops, n - 1, ttl).mem;
      match ops[n - 1]
      case Put(r, m, sqlNow, now, fault, _) =>
        EnqueueKeepsShape(t, r, m, ttl, sqlNow, now, fault);
        if Enqueue(t, r, m, ttl, sqlNow, now, fault).outcome == Full {
          FullDeletesNothing(t, r, m, ttl, sqlNow, now, fault);
        }
      case Take(r, _, _, _, _) => WithoutKeepsCap(t, IdsFor(t, r));
      case Sweep(now, _, _) => WithoutKeepsCap(t, ExpiredIds(t, now));
      case _ =>
    }
  }

  // ---------- drains against the acceptance order ----------

  /** What `op` makes of the acceptance record of `r`. */
  function Recorded(s: State, op: Op, ttl: nat, r: User, older: seq<Entry>): seq<Entry> {
    if op.Take? && op.recipient == r && op.commits then []
    else if op.Put? && op.recipient == r && Shows(s, op, ttl) == Decided(Stored) then older + [Entry(op.message, op.now + ttl)]
    else older
  }

  /** What was accepted for `r` among the first `n` operations since its last committed drain. */
  function Accepted(s: State, ops: seq<Op>, n: nat, ttl: nat, r: User): seq<Entry>
    requires n <= |ops|
  {
    if n == 0 then []
    else
      Recorded(Run(s, ops, n - 1, ttl), ops[n - 1], ttl, r, Accepted(s, ops, n - 1, ttl, r))
  }

  lemma {:induction false} RunWellFormed(s: State, ops: seq<Op>, n: nat, ttl: nat)
    requires n <= |ops| && WellFormed(s.mem) && WellFormed(s.disk)
    ensures WellFormed(Run(s, ops, n, ttl).mem) && WellFormed(Run(s, ops, n, ttl).disk)
  {
    if n > 0 {
      RunWellFormed(s, ops, n - 1, ttl);
    }
  }

  lemma {:induction false} FreshTwice(q: seq<Entry>, now: int, later: int)
    requires now <= later
    ensures Fresh(Fresh(q, now), later) == Fresh(q, later)
  {
    if q != [] {
      FreshTwice(q[..|q| - 1], now, later);
      FreshAppend(Fresh(q[..|q| - 1], now), q[|q| - 1], later);
    }
  }

  lemma SameFifo(t: Table, u: Table, r: User, now: int)
    requires WellFormed(t) && WellFormed(u) && Same(t, u, now)
    ensures Fresh(Fifo(t, r), now) == Fresh(Fifo(u, r), now)
  {
    PurgeRefines(t, now, r);
    PurgeRefines(u, now, r);
  }

  /** The live part of the queue of `r` is the live part of `record`. */
  ghost predicate Holds(t: Table, r: User, record: seq<Entry>, now: int) {
    Fresh(Fifo(t, r), now) == Fresh(record, now)
  }

  lemma HoldsLater(t: Table, r: User, record: seq<Entry>, now: int, later: int)
    requires Holds(t, r, record, now) && now <= later
    ensures Holds(t, r, record, later)
  {
    FreshTwice(Fifo(t, r), now, later);
    FreshTwice(record, now, later);
  }

  lemma HoldsAfterDelete(t: Table, p: User, r: User, record: seq<Entry>, now: int)
    requires WellFormed(t) && Holds(t, r, record, now)
    ensures Holds(Without(t, IdsFor(t, p) * ExpiredIds(t, now)), r, record, now)
  {
    DeleteRefines(t, p, r, now);
    FreshTwice(Fifo(t, r), now, now);
  }

  lemma HoldsAfterInsert(t: Table, row: Row, r: User, record: seq<Entry>, now: int)
    requires WellFormed(t) && Holds(t, r, record, now)
    ensures Holds(Insert(t, row), r, if row.recipient == r then record + [Entry(row.message, row.expiresAt)] else record, now)
  {
    InsertAppends(t, row, r);
    if row.recipient == r {
      FreshAppend(Fifo(t, r), Entry(row.message, row.expiresAt), now);
      FreshAppend(record, Entry(row.message, row.expiresAt), now);
    } else {
      assert Fifo(t, r) + [] == Fifo(t, r);
    }
  }

  lemma PutHolds(s: State, op: Op, ttl: nat, r: User, older: seq<Entry>)
    requires WellFormed(s.mem) && op.Put? && Holds(s.mem, r, older, op.sqlNow)
    ensures Holds(Step(s, op, ttl).mem, r, Recorded(s, op, ttl, r, older), op.sqlNow)
  {
    var u := Without(s.mem, IdsFor(s.mem, op.recipient) * ExpiredIds(s.mem, op.sqlNow));
    HoldsAfterDelete(s.mem, op.recipient, r, older, op.sqlNow);
    HoldsAfterInsert(u, Row(op.recipient, op.message, op.now + ttl), r, older, op.sqlNow);
  }

  /** One operation keeps the live queue equal to the live part of the acceptance record. */
  lemma StepHolds(s: State, op: Op, ttl: nat, r: User, older: seq<Entry>)
    requires WellFormed(s.mem) && !op.Restart? && Holds(s.mem, r, older, Reading(op))
    ensures Holds(Step(s, op, ttl).mem, r, Recorded(s, op, ttl, r, older), Reading(op))
  {
    match op
    case Put(_, _, _, _, _, _) => PutHolds(s, op, ttl, r, older);
    case Take(p, now, _, _, _) => DrainRefines(s.mem, p, now, r);
    case Count(_, _) =>
    case Sweep(now, _, _) =>
      PurgeRefines(s.mem, now, r);
      FreshTwice(Fifo(s.mem, r), now, now);
  }

  /** The live queue of `r` is the live part of its acceptance record. */
  ghost predicate HoldsAccepted(s: State, ops: seq<Op>, n: nat, ttl: nat, r: User, now: int)
    requires n <= |ops|
  {
    WellFormed(Run(s, ops, n, ttl).mem) && Holds(Run(s, ops, n, ttl).mem, r, Accepted(s, ops, n, ttl, r), now)
  }

  lemma AcceptedNext(s: State, ops: seq<Op>, n: nat, ttl: nat, r: User)
    requires n < |ops| && !ops[n].Restart? && HoldsAccepted(s, ops, n, ttl, r, Reading(ops[n]))
    ensures HoldsAccepted(s, ops, n + 1, ttl, r, Reading(ops[n]))
  {
    StepHolds(Run(s, ops, n, ttl), ops[n], ttl, r, Accepted(s, ops, n, ttl, r));
  }

  lemma AcceptedAfterRestart(s: State, ops: seq<Op>, n: nat, ttl: nat, r: User, now: int)
    requires n < |ops| && ops[n].Restart? && HoldsAccepted(s, ops, n, ttl, r, now)
    requires WellFormed(Run(s, ops, n, ttl).disk) && Same(Run(s, ops, n, ttl).mem, Run(s, ops, n, ttl).disk, now)
    ensures HoldsAccepted(s, ops, n + 1, ttl, r, now)
  {
    SameFifo(Run(s, ops, n, ttl).mem, Run(s, ops, n, ttl).disk, r, now);
  }

  lemma {:induction false} QueueHoldsAccepted(s: State, ops: seq<Op>, n: nat, ttl: nat, r: User, now: int)
    requires n <= |ops| && ClockForward(ops) && ReadBy(ops, n, now)
    requires SavedRestarts(s, ops, ttl)
    requires s.mem == s.disk && WellFormed(s.mem) && Fifo(s.mem, r) == []
    ensures HoldsAccepted(s, ops, n, ttl, r, now)
  {
    if n > 0 {
      var op := ops[n - 1];
      if op.Restart? {
        QueueHoldsAccepted(s, ops, n - 1, ttl, r, now);
        RunWellFormed(s, ops, n - 1, ttl);
        DiskStaysSame(s, ops, n - 1, ttl, now);
        AcceptedAfterRestart(s, ops, n - 1, ttl, r, now);
      } else {
        QueueHoldsAccepted(s, ops, n - 1, ttl, r, Reading(op));
        AcceptedNext(s, ops, n - 1, ttl, r);
        HoldsLater(Run(s, ops, n, ttl).mem, r, Accepted(s, ops, n, ttl, r), Reading(op), now);
      }
    }
  }

  /** In any run with a forward clock, with purges anywhere and restarts that find the file up to date,
      a drain returns exactly the still-live messages accepted for that recipient since its last
      drain, in acceptance order. */
  lemma DrainReturnsAccepted(s: State, ops: seq<Op>, i: nat, ttl: nat)
    requires i < |ops| && ClockForward(ops) && SavedRestarts(s, ops, ttl)
    requires s.mem == s.disk && WellFormed(s.mem)
    requires ops[i].Take? && ops[i].commits && ops[i].bad == {} && Fifo(s.mem, ops[i].recipient) == []
    ensures Shows(Run(s, ops, i, ttl), ops[i], ttl)
         == Delivered(Messages(Fresh(Accepted(s, ops, i, ttl, ops[i].recipient), ops[i].now)))
  {
    var op := ops[i];
    QueueHoldsAccepted(s, ops, i, ttl, op.recipient, op.now);
    RunWellFormed(s, ops, i, ttl);
    DrainRefines(Run(s, ops, i, ttl).mem, op.recipient, op.now, op.recipient);
  }
}
