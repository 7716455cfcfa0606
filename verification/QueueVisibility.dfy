/** Exactly when a restart of the queue can be told from no restart. */
module QueueVisibility {
  import opened Envelopes
  import opened QueueTable
  import opened QueueFifo
  import opened QueueRuns

  /** The live queue of every recipient is the same. */
  ghost predicate LooksSame(t: Table, u: Table, now: int) {
    forall r :: Fresh(Fifo(t, r), now) == Fresh(Fifo(u, r), now)
  }

  lemma LooksSameLater(t: Table, u: Table, now: int, later: int)
    requires LooksSame(t, u, now) && now <= later
    ensures LooksSame(t, u, later)
  {
    forall r ensures Fresh(Fifo(t, r), later) == Fresh(Fifo(u, r), later) {
      FreshTwice(Fifo(t, r), now, later);
      FreshTwice(Fifo(u, r), now, later);
    }
  }

  /** Two states that look the same in memory and in the file. */
  ghost predicate Twins(s: State, s': State, now: int) {
    && WellFormed(s.mem) && WellFormed(s.disk) && WellFormed(s'.mem) && WellFormed(s'.disk)
    && LooksSame(s.mem, s'.mem, now) && LooksSame(s.disk, s'.disk, now)
  }

  // ---------- twins show the same ----------

  /** The outcome of Enqueue depends on the length of the recipient's live queue. */
  lemma OutcomeByLength(t: Table, r: User, m: Message, ttl: nat, sqlNow: int, now: int, fault: Fault)
    requires WellFormed(t)
    ensures Enqueue(t, r, m, ttl, sqlNow, now, fault).outcome
         == if fault.DeleteFault? || fault.CountFault? then Failed
            else if |Fresh(Fifo(t, r), sqlNow)| >= MAX_QUEUE then Full
            else if fault != NoFault then Failed
            else Stored
  {
    DeleteRefines(t, r, r, sqlNow);
    CountIsLength(Without(t, IdsFor(t, r) * ExpiredIds(t, sqlNow)), r);
  }

  lemma OthersKeepIds(t: Table, r: User, r': User)
    requires r != r'
    ensures IdsFor(Without(t, IdsFor(t, r)), r') == IdsFor(t, r')
  {
  }

  lemma RemovedCount(t: Table, r: User)
    ensures |t.rows.Keys| == |Without(t, IdsFor(t, r)).rows.Keys| + |IdsFor(t, r)| && IdsFor(Without(t, IdsFor(t, r)), r) == {}
  {
    var rest := Without(t, IdsFor(t, r)).rows.Keys;
    assert t.rows.Keys == rest + IdsFor(t, r) && rest !! IdsFor(t, r);
  }

  /** Tables with as many rows for each recipient have as many rows. */
  lemma {:induction false} SameTotal(t: Table, u: Table)
    requires forall r :: |IdsFor(t, r)| == |IdsFor(u, r)|
    ensures |t.rows.Keys| == |u.rows.Keys|
    decreases |t.rows.Keys|
  {
    if id :| id in t.rows {
      var r := t.rows[id].recipient;
      assert id in IdsFor(t, r);
      RemovedCount(t, r);
      RemovedCount(u, r);
      var t', u' := Without(t, IdsFor(t, r)), Without(u, IdsFor(u, r));
      forall p ensures |IdsFor(t', p)| == |IdsFor(u', p)| {
        if p != r {
          OthersKeepIds(t, r, p);
          OthersKeepIds(u, r, p);
        }
      }
      SameTotal(t', u');
    } else {
      forall id ensures id !in u.rows {
        var r := if id in u.rows then u.rows[id].recipient else "";
        assert IdsFor(t, r) == {};
        assert id !in IdsFor(u, r);
      }
    }
  }

  lemma LiveIdsCount(t: Table, r: User, now: int)
    requires WellFormed(t)
    ensures |IdsFor(Purge(t, now), r)| == |Fresh(Fifo(t, r), now)|
  {
    PurgeRefines(t, now, r);
    CountIsLength(Purge(t, now), r);
  }

  lemma SameLiveCount(t: Table, u: Table, now: int)
    requires WellFormed(t) && WellFormed(u) && LooksSame(t, u, now)
    ensures LiveCount(t, now) == LiveCount(u, now)
  {
    forall r ensures |IdsFor(Purge(t, now), r)| == |IdsFor(Purge(u, now), r)| {
      LiveIdsCount(t, r, now);
      LiveIdsCount(u, r, now);
    }
    SameTotal(Purge(t, now), Purge(u, now));
    assert Purge(t, now).rows.Keys == t.rows.Keys - ExpiredIds(t, now);
    assert Purge(u, now).rows.Keys == u.rows.Keys - ExpiredIds(u, now);
  }

  /** No row is unreadable. */
  predicate Readable(op: Op) {
    op.Take? ==> op.bad == {}
  }

  lemma TwinsShowSame(s: State, s': State, op: Op, ttl: nat)
    requires Visible(op) && Readable(op) && Twins(s, s', Reading(op))
    ensures Shows(s, op, ttl) == Shows(s', op, ttl)
  {
    match op
    case Put(r, m, sqlNow, now, fault, _) =>
      OutcomeByLength(s.mem, r, m, ttl, sqlNow, now, fault);
      OutcomeByLength(s'.mem, r, m, ttl, sqlNow, now, fault);
    case Take(r, now, _, _, _) =>
      DrainRefines(s.mem, r, now, r);
      DrainRefines(s'.mem, r, now, r);
    case Count(now, _) => SameLiveCount(s.mem, s'.mem, now);
  }

  // ---------- twins stay twins ----------

  lemma TwinMemory(s: State, s': State, op: Op, ttl: nat)
    requires !op.Restart? && Readable(op) && Twins(s, s', Reading(op))
    ensures LooksSame(Step(s, op, ttl).mem, Step(s', op, ttl).mem, Reading(op))
  {
    if Visible(op) {
      TwinsShowSame(s, s', op, ttl);
    }
    forall r ensures Fresh(Fifo(Step(s, op, ttl).mem, r), Reading(op)) == Fresh(Fifo(Step(s', op, ttl).mem, r), Reading(op)) {
      StepHolds(s, op, ttl, r, Fifo(s'.mem, r));
      StepHolds(s', op, ttl, r, Fifo(s'.mem, r));
    }
  }

  lemma StepWellFormed(s: State, op: Op, ttl: nat)
    requires WellFormed(s.mem) && WellFormed(s.disk)
    ensures WellFormed(Step(s, op, ttl).mem) && WellFormed(Step(s, op, ttl).disk)
  {
  }

  /** The file gets the new table, or stays. */
  lemma DiskStep(s: State, op: Op, ttl: nat)
    requires !op.Restart?
    ensures Step(s, op, ttl).disk == if Saves(s, op, ttl) then Step(s, op, ttl).mem else s.disk
  {
  }

  lemma TwinStep(s: State, s': State, op: Op, ttl: nat)
    requires !op.Restart? && Readable(op) && Twins(s, s', Reading(op))
    ensures Twins(Step(s, op, ttl), Step(s', op, ttl), Reading(op))
  {
    StepWellFormed(s, op, ttl);
    StepWellFormed(s', op, ttl);
    TwinMemory(s, s', op, ttl);
    DiskStep(s, op, ttl);
    DiskStep(s', op, ttl);
    if op.Put? {
      TwinsShowSame(s, s', op, ttl);
    }
  }

  /** Operations on readable rows, with a forward clock from `now` on. */
  ghost predicate From(ops: seq<Op>, now: int) {
    && ClockForward(ops)
    && forall k :: 0 <= k < |ops| ==> Readable(ops[k]) && (!ops[k].Restart? ==> now <= Reading(ops[k]))
  }

  /** After the first `n` operations the two runs have shown the same and are twins. */
  ghost predicate Together(s: State, s': State, ops: seq<Op>, n: nat, ttl: nat, now: int)
    requires n <= |ops|
  {
    Watch(s, ops, n, ttl) == Watch(s', ops, n, ttl) && Twins(Run(s, ops, n, ttl), Run(s', ops, n, ttl), now)
  }

  lemma TogetherNext(s: State, s': State, ops: seq<Op>, n: nat, ttl: nat, now: int)
    requires n < |ops| && Readable(ops[n]) && Together(s, s', ops, n, ttl, now) && (!ops[n].Restart? ==> now == Reading(ops[n]))
    ensures Together(s, s', ops, n + 1, ttl, now)
  {
    var c, c', op := Run(s, ops, n, ttl), Run(s', ops, n, ttl), ops[n];
    if !op.Restart? {
      TwinStep(c, c', op, ttl);
      if Visible(op) {
        TwinsShowSame(c, c', op, ttl);
      }
    }
  }

  lemma TogetherLater(s: State, s': State, ops: seq<Op>, n: nat, ttl: nat, now: int, later: int)
    requires n <= |ops| && Together(s, s', ops, n, ttl, now) && now <= later
    ensures Together(s, s', ops, n, ttl, later)
  {
    LooksSameLater(Run(s, ops, n, ttl).mem, Run(s', ops, n, ttl).mem, now, later);
    LooksSameLater(Run(s, ops, n, ttl).disk, Run(s', ops, n, ttl).disk, now, later);
  }

  lemma {:induction false} TwinRuns(s: State, s': State, ops: seq<Op>, n: nat, ttl: nat, now: int, later: int)
    requires n <= |ops| && Twins(s, s', now) && From(ops, now) && now <= later && ReadBy(ops, n, later)
    ensures Together(s, s', ops, n, ttl, later)
  {
    if n == 0 {
      TogetherLater(s, s', ops, 0, ttl, now, later);
    } else {
      var op := ops[n - 1];
      var at := if op.Restart? then later else Reading(op);
      TwinRuns(s, s', ops, n - 1, ttl, now, at);
      TogetherNext(s, s', ops, n - 1, ttl, at);
      TogetherLater(s, s', ops, n, ttl, at, later);
    }
  }

  // ---------- queues that differ show it ----------

  ghost predicate DistinctQueue(q: seq<Entry>) {
    forall i, j :: 0 <= i < j < |q| ==> q[i].message != q[j].message
  }

  lemma {:induction false} FreshKeeps(q: seq<Entry>, now: int)
    ensures forall e :: e in Fresh(q, now) <==> e in q && e.expiresAt >= now
    ensures DistinctQueue(q) ==> DistinctQueue(Fresh(q, now))
  {
    if q != [] {
      FreshKeeps(q[..|q| - 1], now);
      assert q == q[..|q| - 1] + [q[|q| - 1]];
    }
  }

  lemma OneEntry(q: seq<Entry>, e: Entry, e': Entry)
    requires DistinctQueue(q) && e in q && e' in q && e.message == e'.message
    ensures e == e'
  {
  }

  lemma InMessages(q: seq<Entry>, m: Message)
    ensures m in Messages(q) <==> exists e :: e in q && e.message == m
  {
    if e :| e in q && e.message == m {
      var i :| 0 <= i < |q| && q[i] == e;
      assert Messages(q)[i] == m;
    }
  }

  /** The entry with the earlier expiry drops out first. */
  lemma ExpiryTells(q: seq<Entry>, q': seq<Entry>, e: Entry, e': Entry)
    requires DistinctQueue(q) && e in q && e' in q' && e.message == e'.message && e.expiresAt < e'.expiresAt
    ensures Messages(Fresh(q, e.expiresAt + 1)) != Messages(Fresh(q', e.expiresAt + 1))
  {
    var later := e.expiresAt + 1;
    FreshKeeps(q, later);
    FreshKeeps(q', later);
    InMessages(Fresh(q, later), e.message);
    InMessages(Fresh(q', later), e.message);
    if f :| f in Fresh(q, later) && f.message == e.message {
      OneEntry(q, e, f);
    }
  }

  lemma FirstDifference(q: seq<Entry>, q': seq<Entry>) returns (i: nat)
    requires q != q' && Messages(q) == Messages(q')
    ensures i < |q| == |q'| && q[i].message == q'[i].message && q[i].expiresAt != q'[i].expiresAt
  {
    assert |Messages(q)| == |q| && |Messages(q')| == |q'|;
    i :| 0 <= i < |q| && q[i] != q'[i];
    assert Messages(q)[i] == Messages(q')[i];
  }

  /** Live queues that differ hold different messages now or at some later time. */
  lemma DifferenceTells(p: seq<Entry>, p': seq<Entry>, now: int) returns (later: int)
    requires DistinctQueue(p) && DistinctQueue(p') && Fresh(p, now) != Fresh(p', now)
    ensures now <= later && Messages(Fresh(p, later)) != Messages(Fresh(p', later))
  {
    var q, q' := Fresh(p, now), Fresh(p', now);
    later := now;
    if Messages(q) == Messages(q') {
      FreshKeeps(p, now);
      FreshKeeps(p', now);
      var i := FirstDifference(q, q');
      if q[i].expiresAt < q'[i].expiresAt {
        ExpiryTells(q, q', q[i], q'[i]);
        later := q[i].expiresAt + 1;
      } else {
        ExpiryTells(q', q, q'[i], q[i]);
        later := q'[i].expiresAt + 1;
      }
      assert q[i] in q && q'[i] in q';
      FreshTwice(p, now, later);
      FreshTwice(p', now, later);
    }
  }

  lemma WatchOne(s: State, op: Op, ttl: nat)
    requires Visible(op)
    ensures Watch(s, [op], 1, ttl) == [Shows(s, op, ttl)]
  {
    assert Watch(s, [op], 0, ttl) == [];
    assert Run(s, [op], 0, ttl) == s;
  }

  lemma DrainTells(s: State, s': State, r: User, now: int, ttl: nat)
    requires WellFormed(s.mem) && WellFormed(s'.mem)
    requires Messages(Fresh(Fifo(s.mem, r), now)) != Messages(Fresh(Fifo(s'.mem, r), now))
    ensures var ops := [Take(r, now, true, {}, true)]; Watch(s, ops, 1, ttl) != Watch(s', ops, 1, ttl)
  {
    var op := Take(r, now, true, {}, true);
    DrainRefines(s.mem, r, now, r);
    DrainRefines(s'.mem, r, now, r);
    WatchOne(s, op, ttl);
    WatchOne(s', op, ttl);
  }

  /** What follows shows whether there was a restart. */
  ghost predicate Reveals(s: State, ops: seq<Op>, ttl: nat, now: int) {
    From(ops, now) && Watch(s, ops, |ops|, ttl) != Watch(Step(s, Restart, ttl), ops, |ops|, ttl)
  }

  lemma DifferenceReveals(s: State, r: User, ttl: nat, now: int) returns (ops: seq<Op>)
    requires WellFormed(s.mem) && WellFormed(s.disk) && DistinctQueue(Fifo(s.mem, r)) && DistinctQueue(Fifo(s.disk, r))
    requires Fresh(Fifo(s.mem, r), now) != Fresh(Fifo(s.disk, r), now)
    ensures Reveals(s, ops, ttl, now)
  {
    var later := DifferenceTells(Fifo(s.mem, r), Fifo(s.disk, r), now);
    ops := [Take(r, later, true, {}, true)];
    DrainTells(s, Step(s, Restart, ttl), r, later, ttl);
  }

  /** A restart can be seen in some continuation with a forward clock and readable rows exactly when
      memory and file differ in some live queue, whatever persists failed before. Messages are
      taken to be distinct within a queue, as the relay's are. */
  lemma RestartShowsExactly(s: State, ttl: nat, now: int)
    requires WellFormed(s.mem) && WellFormed(s.disk)
    requires forall r :: DistinctQueue(Fifo(s.mem, r)) && DistinctQueue(Fifo(s.disk, r))
    ensures (exists ops :: Reveals(s, ops, ttl, now)) <==> !LooksSame(s.mem, s.disk, now)
  {
    if LooksSame(s.mem, s.disk, now) {
      forall ops ensures !Reveals(s, ops, ttl, now) {
        if From(ops, now) {
          var last := LastReading(ops, |ops|);
          TwinRuns(s, Step(s, Restart, ttl), ops, |ops|, ttl, now, if last < now then now else last);
        }
      }
    } else {
      var r :| Fresh(Fifo(s.mem, r), now) != Fresh(Fifo(s.disk, r), now);
      var ops := DifferenceReveals(s, r, ttl, now);
    }
  }
}
