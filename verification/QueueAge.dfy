/** How old a message can get: one TTL for each time it was enqueued. */
module QueueAge {
  import opened Envelopes
  import opened QueueTable
  import opened QueueFifo
  import opened QueueRuns

  // ---------- one enqueue ----------

  lemma {:induction false} FreshSelects(q: seq<Entry>, now: int, j: nat) returns (i: nat)
    requires j < |Fresh(q, now)|
    ensures i < |q| && q[i] == Fresh(q, now)[j] && q[i].expiresAt >= now
  {
    var last := |q| - 1;
    if j < |Fresh(q[..last], now)| {
      i := FreshSelects(q[..last], now, j);
    } else {
      i := last;
    }
  }

  lemma {:induction false} AcceptedFromPut(s: State, ops: seq<Op>, n: nat, ttl: nat, r: User, j: nat) returns (k: nat)
    requires n <= |ops| && j < |Accepted(s, ops, n, ttl, r)|
    ensures k < n && ops[k].Put? && ops[k].recipient == r
    ensures Accepted(s, ops, n, ttl, r)[j] == Entry(ops[k].message, ops[k].now + ttl)
  {
    if j < |Accepted(s, ops, n - 1, ttl, r)| && !(ops[n - 1].Take? && ops[n - 1].recipient == r && ops[n - 1].commits) {
      k := AcceptedFromPut(s, ops, n - 1, ttl, r, j);
    } else {
      k := n - 1;
    }
  }

  lemma {:induction false} MoreReadable(rows: map<nat, Row>, r: User, now: int, bad: set<nat>, n: nat, m: Message)
    requires m in ReadOut(rows, r, now, bad, n)
    ensures m in ReadOut(rows, r, now, {}, n)
  {
    if m in ReadOut(rows, r, now, bad, n - 1) {
      MoreReadable(rows, r, now, bad, n - 1, m);
    }
  }

  /** Operation `i` is a drain of the queue of `r` that returned `m`. */
  predicate Returned(s: State, ops: seq<Op>, i: nat, ttl: nat, r: User, m: Message)
    requires i < |ops|
  {
    && ops[i].Take? && ops[i].commits && ops[i].recipient == r
    && m in Drain(Run(s, ops, i, ttl).mem, r, ops[i].now, ops[i].bad).messages
  }

  predicate PutsMessage(op: Op, r: User, m: Message) {
    op.Put? && op.recipient == r && op.message == m
  }

  lemma ReturnedIsAccepted(s: State, ops: seq<Op>, i: nat, ttl: nat, r: User, m: Message) returns (j: nat)
    requires i < |ops| && ClockForward(ops) && SavedRestarts(s, ops, ttl) && s.mem == s.disk && WellFormed(s.mem)
    requires Fifo(s.mem, r) == [] && Returned(s, ops, i, ttl, r, m)
    ensures var q := Fresh(Accepted(s, ops, i, ttl, r), ops[i].now); j < |q| && q[j].message == m
  {
    var t := Run(s, ops, i, ttl).mem;
    MoreReadable(t.rows, r, ops[i].now, ops[i].bad, t.nextId, m);
    QueueHoldsAccepted(s, ops, i, ttl, r, ops[i].now);
    RunWellFormed(s, ops, i, ttl);
    DrainRefines(t, r, ops[i].now, r);
    var q := Fresh(Accepted(s, ops, i, ttl, r), ops[i].now);
    assert m in Messages(q);
    j :| 0 <= j < |q| && Messages(q)[j] == m;
  }

  /** Whatever a drain returns was enqueued at most one TTL before the drain's clock reading. */
  lemma DrainedWithinTtl(s: State, ops: seq<Op>, i: nat, ttl: nat, r: User, m: Message) returns (k: nat)
    requires i < |ops| && ClockForward(ops) && SavedRestarts(s, ops, ttl) && s.mem == s.disk && WellFormed(s.mem)
    requires Fifo(s.mem, r) == [] && Returned(s, ops, i, ttl, r, m)
    ensures k < i && PutsMessage(ops[k], r, m) && ops[i].now <= ops[k].now + ttl
  {
    var j := ReturnedIsAccepted(s, ops, i, ttl, r, m);
    var p := FreshSelects(Accepted(s, ops, i, ttl, r), ops[i].now, j);
    k := AcceptedFromPut(s, ops, i, ttl, r, p);
  }

  // ---------- any number of re-enqueues ----------

  /** How often `m` was enqueued among the first `n` operations. */
  function Puts(ops: seq<Op>, n: nat, r: User, m: Message): nat
    requires n <= |ops|
  {
    if n == 0 then 0 else Puts(ops, n - 1, r, m) + if PutsMessage(ops[n - 1], r, m) then 1 else 0
  }

  lemma {:induction false} PutsGrow(ops: seq<Op>, k: nat, n: nat, r: User, m: Message)
    requires k < n <= |ops|
    ensures Puts(ops, k, r, m) + (if PutsMessage(ops[k], r, m) then 1 else 0) <= Puts(ops, n, r, m)
  {
    if k < n - 1 {
      PutsGrow(ops, k, n - 1, r, m);
    }
  }

  /** `step` taken `n` times. */
  function Times(n: nat, step: nat): nat {
    if n == 0 then 0 else Times(n - 1, step) + step
  }

  lemma {:induction false} TimesGrow(a: nat, b: nat, step: nat)
    requires a <= b
    ensures Times(a, step) <= Times(b, step)
  {
    if a < b {
      TimesGrow(a, b - 1, step);
    }
  }

  ghost predicate PutBack(s: State, ops: seq<Op>, k: nat, ttl: nat, r: User, m: Message, hold: nat)
    requires k < |ops| && ops[k].Put?
  {
    exists d :: 0 <= d < k && Returned(s, ops, d, ttl, r, m) && ops[k].now <= ops[d].now + hold
  }

  /** Operation `first` is the acceptance of `m`; every later enqueue of `m` puts back what a drain
      returned, at most `hold` after that drain. */
  ghost predicate OnlyPutBack(s: State, ops: seq<Op>, ttl: nat, r: User, m: Message, first: nat, hold: nat) {
    && first < |ops| && PutsMessage(ops[first], r, m)
    && (forall k :: 0 <= k < first ==> !PutsMessage(ops[k], r, m))
    && forall k :: first < k < |ops| && PutsMessage(ops[k], r, m) ==> PutBack(s, ops, k, ttl, r, m, hold)
  }

  /** The reading of an enqueue, by how often `m` was enqueued before. */
  lemma {:induction false} PutBound(s: State, ops: seq<Op>, k: nat, ttl: nat, r: User, m: Message, first: nat, hold: nat)
    requires k < |ops| && ClockForward(ops) && SavedRestarts(s, ops, ttl) && s.mem == s.disk && WellFormed(s.mem)
    requires Fifo(s.mem, r) == [] && OnlyPutBack(s, ops, ttl, r, m, first, hold) && PutsMessage(ops[k], r, m)
    ensures ops[k].now <= ops[first].now + Times(Puts(ops, k, r, m), ttl + hold)
    decreases k, 1
  {
    if first < k {
      var d :| 0 <= d < k && Returned(s, ops, d, ttl, r, m) && ops[k].now <= ops[d].now + hold;
      AgeBound(s, ops, d, ttl, r, m, first, hold);
      PutsGrow(ops, d, k, r, m);
      TimesGrow(Puts(ops, d, r, m), Puts(ops, k, r, m), ttl + hold);
    }
  }

  /** Age since acceptance: a message enqueued n times in all is returned at most n TTLs, and n - 1
      times the flush's holding time, after it was accepted. */
  lemma {:induction false} AgeBound(s: State, ops: seq<Op>, i: nat, ttl: nat, r: User, m: Message, first: nat, hold: nat)
    requires i < |ops| && ClockForward(ops) && SavedRestarts(s, ops, ttl) && s.mem == s.disk && WellFormed(s.mem)
    requires Fifo(s.mem, r) == [] && OnlyPutBack(s, ops, ttl, r, m, first, hold) && Returned(s, ops, i, ttl, r, m)
    ensures Puts(ops, i, r, m) >= 1
    ensures ops[i].now + hold <= ops[first].now + Times(Puts(ops, i, r, m), ttl + hold)
    decreases i, 0
  {
    var k := DrainedWithinTtl(s, ops, i, ttl, r, m);
    PutBound(s, ops, k, ttl, r, m, first, hold);
    PutsGrow(ops, k, i, r, m);
    TimesGrow(Puts(ops, k, r, m) + 1, Puts(ops, i, r, m), ttl + hold);
  }

  // ---------- the bound is reached ----------

  lemma DrainOfOne(t: Table, r: User, m: Message, now: int, ttl: nat, later: int)
    requires WellFormed(t) && Fifo(t, r) == [] && later <= now + ttl
    ensures var e := Enqueue(t, r, m, ttl, now, now, NoFault);
            && e.outcome == Stored && WellFormed(e.table)
            && Drain(e.table, r, later, {}).messages == [m] && Fifo(Drain(e.table, r, later, {}).table, r) == []
  {
    EnqueueRefines(t, r, m, ttl, now, now, r);
    var e := Enqueue(t, r, m, ttl, now, now, NoFault).table;
    assert Fifo(e, r) == [Entry(m, now + ttl)];
    DrainRefines(e, r, later, r);
    FreshAppend([], Entry(m, now + ttl), later);
  }

  /** Enqueued, drained when about to expire and put back after `hold`, over and over. */
  function Cycle(r: User, m: Message, t: int, ttl: nat, hold: nat, k: nat): Op {
    var start := t + Times(k / 2, ttl + hold);
    if k % 2 == 0 then Put(r, m, start, start, NoFault, true) else Take(r, start + ttl, true, {}, true)
  }

  lemma CycleAt(r: User, m: Message, t: int, ttl: nat, hold: nat, j: nat)
    ensures var start := t + Times(j, ttl + hold);
            && Cycle(r, m, t, ttl, hold, 2 * j) == Put(r, m, start, start, NoFault, true)
            && Cycle(r, m, t, ttl, hold, 2 * j + 1) == Take(r, start + ttl, true, {}, true)
  {
    assert (2 * j + 1) / 2 == j;
  }

  ghost predicate Cycles(ops: seq<Op>, r: User, m: Message, t: int, ttl: nat, hold: nat) {
    forall k :: 0 <= k < |ops| ==> ops[k] == Cycle(r, m, t, ttl, hold, k)
  }

  lemma CycleForward(r: User, m: Message, t: int, ttl: nat, hold: nat, i: nat, j: nat)
    requires i <= j
    ensures Reading(Cycle(r, m, t, ttl, hold, i)) <= Reading(Cycle(r, m, t, ttl, hold, j))
  {
    if i / 2 < j / 2 {
      TimesGrow(i / 2 + 1, j / 2, ttl + hold);
    } else {
      assert i / 2 == j / 2;
    }
  }

  /** The queue of `r` is empty after the first `n` operations. */
  ghost predicate Idle(ops: seq<Op>, n: nat, ttl: nat, r: User) {
    n <= |ops| && var t := Run(State(EMPTY, EMPTY), ops, n, ttl).mem; WellFormed(t) && Fifo(t, r) == []
  }

  lemma OneCycle(ops: seq<Op>, n: nat, ttl: nat, r: User, m: Message, now: int)
    requires n + 1 < |ops| && Idle(ops, n, ttl, r)
    requires ops[n] == Put(r, m, now, now, NoFault, true) && ops[n + 1] == Take(r, now + ttl, true, {}, true)
    ensures Returned(State(EMPTY, EMPTY), ops, n + 1, ttl, r, m) && Idle(ops, n + 2, ttl, r)
  {
    var s := State(EMPTY, EMPTY);
    var before := Run(s, ops, n, ttl);
    DrainOfOne(before.mem, r, m, now, ttl, now + ttl);
    assert Run(s, ops, n + 1, ttl) == Step(before, ops[n], ttl);
    assert Run(s, ops, n + 2, ttl) == Step(Run(s, ops, n + 1, ttl), ops[n + 1], ttl);
  }

  lemma EmptyFifo(r: User)
    ensures Fifo(EMPTY, r) == []
  {
    assert Below(EMPTY.rows, r, 1) == Below(EMPTY.rows, r, 0) == [];
  }

  lemma {:induction false} CycleState(ops: seq<Op>, r: User, m: Message, t: int, ttl: nat, hold: nat, j: nat)
    requires Cycles(ops, r, m, t, ttl, hold) && 2 * j + 2 <= |ops|
    ensures Returned(State(EMPTY, EMPTY), ops, 2 * j + 1, ttl, r, m) && Idle(ops, 2 * j + 2, ttl, r)
  {
    if j > 0 {
      CycleState(ops, r, m, t, ttl, hold, j - 1);
    } else {
      EmptyFifo(r);
    }
    CycleAt(r, m, t, ttl, hold, j);
    assert ops[2 * j] == Cycle(r, m, t, ttl, hold, 2 * j) && ops[2 * j + 1] == Cycle(r, m, t, ttl, hold, 2 * j + 1);
    OneCycle(ops, 2 * j, ttl, r, m, t + Times(j, ttl + hold));
  }

  lemma {:induction false} CyclePuts(ops: seq<Op>, r: User, m: Message, t: int, ttl: nat, hold: nat, j: nat)
    requires Cycles(ops, r, m, t, ttl, hold) && 2 * j + 1 <= |ops|
    ensures Puts(ops, 2 * j + 1, r, m) == j + 1
  {
    CycleAt(r, m, t, ttl, hold, j);
    if j > 0 {
      CyclePuts(ops, r, m, t, ttl, hold, j - 1);
      CycleAt(r, m, t, ttl, hold, j - 1);
    }
  }

  /** Each enqueue but the first puts back what the drain before it returned, after `hold`. */
  lemma CyclePutsBack(ops: seq<Op>, r: User, m: Message, t: int, ttl: nat, hold: nat, k: nat)
    requires Cycles(ops, r, m, t, ttl, hold) && 0 < k < |ops| && ops[k].Put?
    ensures PutBack(State(EMPTY, EMPTY), ops, k, ttl, r, m, hold)
  {
    var j := k / 2 - 1;
    assert k == 2 * j + 2;
    CycleState(ops, r, m, t, ttl, hold, j);
    CycleAt(r, m, t, ttl, hold, j);
    CycleAt(r, m, t, ttl, hold, j + 1);
    assert ops[2 * j + 1] == Cycle(r, m, t, ttl, hold, 2 * j + 1) && ops[k] == Cycle(r, m, t, ttl, hold, 2 * (j + 1));
  }

  lemma CycleIsARun(ops: seq<Op>, r: User, m: Message, t: int, ttl: nat, hold: nat)
    requires Cycles(ops, r, m, t, ttl, hold) && |ops| > 0
    ensures ClockForward(ops) && SavedRestarts(State(EMPTY, EMPTY), ops, ttl)
    ensures OnlyPutBack(State(EMPTY, EMPTY), ops, ttl, r, m, 0, hold)
  {
    forall i, j | 0 <= i < j < |ops| ensures Reading(ops[i]) <= Reading(ops[j]) {
      CycleForward(r, m, t, ttl, hold, i, j);
    }
    assert ops[0] == Cycle(r, m, t, ttl, hold, 0);
    forall k | 0 < k < |ops| && PutsMessage(ops[k], r, m) ensures PutBack(State(EMPTY, EMPTY), ops, k, ttl, r, m, hold) {
      CyclePutsBack(ops, r, m, t, ttl, hold, k);
    }
  }

  /** Re-enqueueing starts a new TTL, so the age since acceptance has no bound of its own: for every
      number of re-enqueues, every message, TTL and holding time, a run that meets the conditions of
      AgeBound returns the message at exactly the age that AgeBound allows. */
  lemma RequeueRefreshesExpiry(r: User, m: Message, t: int, ttl: nat, hold: nat, again: nat) returns (ops: seq<Op>)
    ensures |ops| == 2 * again + 2 && ops[0] == Put(r, m, t, t, NoFault, true) && Fifo(EMPTY, r) == []
    ensures ClockForward(ops) && SavedRestarts(State(EMPTY, EMPTY), ops, ttl)
    ensures OnlyPutBack(State(EMPTY, EMPTY), ops, ttl, r, m, 0, hold)
    ensures Returned(State(EMPTY, EMPTY), ops, 2 * again + 1, ttl, r, m) && Puts(ops, 2 * again + 1, r, m) == again + 1
    ensures ops[2 * again + 1].now + hold == t + Times(again + 1, ttl + hold)
  {
    ops := seq(2 * again + 2, k requires k >= 0 => Cycle(r, m, t, ttl, hold, k));
    EmptyFifo(r);
    CycleAt(r, m, t, ttl, hold, 0);
    CycleAt(r, m, t, ttl, hold, again);
    CycleIsARun(ops, r, m, t, ttl, hold);
    CycleState(ops, r, m, t, ttl, hold, again);
    CyclePuts(ops, r, m, t, ttl, hold, again);
  }
}
