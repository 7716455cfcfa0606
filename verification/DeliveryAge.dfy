/** The queue under the delivery protocol: its runs are runs of the store, its messages are distinct,
    and only a flush enqueues a message again, so the results on queue runs apply to it. */
module DeliveryAge {
  import opened Envelopes
  import opened QueueTable
  import opened QueueFifo
  import opened Address
  import opened QueueLedger
  import opened Delivery
  import opened DeliverySafety
  import opened DeliveryOrder
  import opened QueueVisibility
  import opened QueueAge
  import Runs = QueueRuns

  const NEW := Runs.State(EMPTY, EMPTY)

  /** What an event does to the store. */
  function OpOf(s: State, e: Event): Option<Runs.Op> {
    if !Ready(s, e) then None else
    match e
    case StoreDirect(i, p) =>
      Some(Runs.Put(s.threads[i].user, s.threads[i].message, p.sqlNow, p.now, p.fault, p.persists))
    case RequeueNext(i, p) =>
      Some(Runs.Put(s.threads[i].user, s.threads[i].rest[0], p.sqlNow, p.now, p.fault, p.persists))
    case DrainStep(i, d, commits) => Some(Runs.Take(s.threads[i].user, d.now, commits, d.bad, d.persists))
    case Sweep(now, executes, persists) => Some(Runs.Sweep(now, executes, persists))
    case Crash => Some(Runs.Restart)
    case _ => None
  }

  function Plus(ops: seq<Runs.Op>, op: Option<Runs.Op>): seq<Runs.Op> {
    if op.Some? then ops + [op.value] else ops
  }

  /** The store operations of the first `n` events. */
  function Ops(relayId: string, ttl: Ttl, es: seq<Event>, n: nat): seq<Runs.Op>
    requires n <= |es|
  {
    if n == 0 then []
    else Plus(Ops(relayId, ttl, es, n - 1), OpOf(Run(Init(relayId, ttl), es, n - 1), es[n - 1]))
  }

  // ---------- the store's run ----------

  ghost predicate Follows(s: State, e: Event) {
    var op := OpOf(s, e);
    StoreOf(Step(s, e).queue) == if op.Some? then Runs.Step(StoreOf(s.queue), op.value, s.ttl) else StoreOf(s.queue)
  }

  lemma PutStepFollows(s: State, e: Event)
    requires (e.StoreDirect? || e.RequeueNext?) && Ready(s, e)
    ensures Follows(s, e)
  {
    var t := s.threads[e.i];
    PutFollowsStore(s.queue, t.user, if e.StoreDirect? then t.message else t.rest[0], s.ttl, e.put);
  }

  lemma DrainStepFollows(s: State, e: Event)
    requires e.DrainStep? && Ready(s, e)
    ensures Follows(s, e)
  {
    TakeFollowsStore(s.queue, s.threads[e.i].user, e.take, s.ttl);
  }

  lemma OtherStepFollows(s: State, e: Event)
    requires e.Sweep? || e.Crash?
    ensures Follows(s, e)
  {
    if e.Sweep? {
      SweepFollowsStore(s.queue, e.now, e.persists, multiset{}, s.ttl);
    } else {
      CrashReloads(s);
      SweepFollowsStore(s.queue, 0, false, Held(s.threads), s.ttl);
    }
  }

  lemma QuietStepFollows(s: State, e: Event)
    requires OpOf(s, e).None?
    ensures Step(s, e).queue == s.queue
  {
  }

  lemma StepFollowsStore(s: State, e: Event)
    ensures Follows(s, e)
  {
    if OpOf(s, e).None? {
      QuietStepFollows(s, e);
    } else if e.StoreDirect? || e.RequeueNext? {
      PutStepFollows(s, e);
    } else if e.DrainStep? {
      DrainStepFollows(s, e);
    } else {
      OtherStepFollows(s, e);
    }
  }

  lemma StepTtl(s: State, e: Event)
    ensures Step(s, e).ttl == s.ttl && Step(s, e).relayId == s.relayId
  {
  }

  lemma {:induction false} RunTtl(relayId: string, ttl: Ttl, es: seq<Event>, n: nat)
    requires n <= |es|
    ensures Run(Init(relayId, ttl), es, n).ttl == ttl && Run(Init(relayId, ttl), es, n).relayId == relayId
  {
    if n > 0 {
      RunTtl(relayId, ttl, es, n - 1);
      StepTtl(Run(Init(relayId, ttl), es, n - 1), es[n - 1]);
    }
  }

  lemma {:induction false} SamePrefix(ops: seq<Runs.Op>, ops': seq<Runs.Op>, m: nat, ttl: nat)
    requires m <= |ops| && m <= |ops'| && forall k :: 0 <= k < m ==> ops[k] == ops'[k]
    ensures Runs.Run(NEW, ops, m, ttl) == Runs.Run(NEW, ops', m, ttl)
  {
    if m > 0 {
      SamePrefix(ops, ops', m - 1, ttl);
    }
  }

  lemma RunPlus(ops: seq<Runs.Op>, op: Option<Runs.Op>, ttl: nat)
    ensures var s := Runs.Run(NEW, ops, |ops|, ttl);
            Runs.Run(NEW, Plus(ops, op), |Plus(ops, op)|, ttl) == if op.Some? then Runs.Step(s, op.value, ttl) else s
  {
    SamePrefix(ops, Plus(ops, op), |ops|, ttl);
  }

  /** The store goes through a run of its own operations. */
  ghost predicate StoreRuns(relayId: string, ttl: Ttl, es: seq<Event>, n: nat)
    requires n <= |es|
  {
    var ops := Ops(relayId, ttl, es, n);
    StoreOf(Run(Init(relayId, ttl), es, n).queue) == Runs.Run(NEW, ops, |ops|, ttl)
  }

  lemma StoreRunsNext(relayId: string, ttl: Ttl, es: seq<Event>, n: nat)
    requires n < |es| && StoreRuns(relayId, ttl, es, n)
    ensures StoreRuns(relayId, ttl, es, n + 1)
  {
    var s := Run(Init(relayId, ttl), es, n);
    RunTtl(relayId, ttl, es, n);
    StepFollowsStore(s, es[n]);
    RunPlus(Ops(relayId, ttl, es, n), OpOf(s, es[n]), ttl);
  }

  lemma {:induction false} StoreRunsOps(relayId: string, ttl: Ttl, es: seq<Event>, n: nat)
    requires n <= |es|
    ensures StoreRuns(relayId, ttl, es, n)
  {
    if n > 0 {
      StoreRunsOps(relayId, ttl, es, n - 1);
      StoreRunsNext(relayId, ttl, es, n - 1);
    }
  }

  // ---------- events and operations ----------

  lemma {:induction false} OpsExtend(relayId: string, ttl: Ttl, es: seq<Event>, k: nat, n: nat)
    requires k <= n <= |es|
    ensures |Ops(relayId, ttl, es, k)| <= |Ops(relayId, ttl, es, n)|
    ensures forall j :: 0 <= j < |Ops(relayId, ttl, es, k)| ==> Ops(relayId, ttl, es, n)[j] == Ops(relayId, ttl, es, k)[j]
  {
    if k < n {
      OpsExtend(relayId, ttl, es, k, n - 1);
    }
  }

  /** Where the operation of event `k` stands. */
  lemma OpAt(relayId: string, ttl: Ttl, es: seq<Event>, k: nat, n: nat)
    requires k < n <= |es| && OpOf(Run(Init(relayId, ttl), es, k), es[k]).Some?
    ensures var j := |Ops(relayId, ttl, es, k)|;
            && j < |Ops(relayId, ttl, es, n)|
            && Ops(relayId, ttl, es, n)[j] == OpOf(Run(Init(relayId, ttl), es, k), es[k]).value
  {
    OpsExtend(relayId, ttl, es, k + 1, n);
    var op := OpOf(Run(Init(relayId, ttl), es, k), es[k]);
    assert Ops(relayId, ttl, es, k + 1) == Ops(relayId, ttl, es, k) + [op.value];
  }

  /** Every operation belongs to an event. */
  lemma {:induction false} EventOf(relayId: string, ttl: Ttl, es: seq<Event>, n: nat, j: nat) returns (k: nat)
    requires n <= |es| && j < |Ops(relayId, ttl, es, n)|
    ensures k < n && |Ops(relayId, ttl, es, k)| == j
    ensures OpOf(Run(Init(relayId, ttl), es, k), es[k]) == Some(Ops(relayId, ttl, es, n)[j])
  {
    if j < |Ops(relayId, ttl, es, n - 1)| {
      k := EventOf(relayId, ttl, es, n - 1, j);
    } else {
      k := n - 1;
    }
  }

  // ---------- the relay's messages are distinct within a queue ----------

  lemma {:induction false} BelowHas(rows: map<nat, Row>, r: User, n: nat, e: Entry) returns (id: nat)
    requires e in Below(rows, r, n)
    ensures id < n && id in rows && rows[id].message == e.message
  {
    if e in Below(rows, r, n - 1) {
      id := BelowHas(rows, r, n - 1, e);
    } else {
      id := n - 1;
    }
  }

  function Copies(rows: map<nat, Row>, n: nat, x: Message): nat {
    Bag(rows, n)[x]
  }

  lemma {:induction false} BelowDistinct(rows: map<nat, Row>, r: User, n: nat)
    requires forall x :: Copies(rows, n, x) <= 1
    ensures DistinctQueue(Below(rows, r, n))
  {
    if n > 0 {
      var m := n - 1;
      forall x ensures Copies(rows, m, x) <= 1 {
        assert Copies(rows, n, x) <= 1;
      }
      BelowDistinct(rows, r, m);
      var older := Below(rows, r, n - 1);
      if n - 1 in rows {
        forall i | 0 <= i < |older| ensures older[i].message != rows[n - 1].message {
          var id := BelowHas(rows, r, n - 1, older[i]);
          RowCounts(rows, n - 1, id);
          assert Copies(rows, n, rows[n - 1].message) <= 1;
        }
      }
    }
  }

  /** In every run of the protocol, and so a restart shows exactly when a live queue differs. */
  lemma RelayQueuesDistinct(relayId: string, ttl: Ttl, es: seq<Event>, n: nat, r: User)
    requires n <= |es|
    ensures var q := Run(Init(relayId, ttl), es, n).queue; DistinctQueue(Fifo(q.mem, r)) && DistinctQueue(Fifo(q.disk, r))
  {
    var q := Run(Init(relayId, ttl), es, n).queue;
    forall x ensures Copies(q.mem.rows, q.mem.nextId, x) <= 1 && Copies(q.disk.rows, q.disk.nextId, x) <= 1 {
      RunSingle(relayId, ttl, es, n, x);
    }
    BelowDistinct(q.mem.rows, r, q.mem.nextId);
    BelowDistinct(q.disk.rows, r, q.disk.nextId);
  }

  // ---------- a flush has what one drain returned ----------

  /** Event `e` is a committed drain by thread `i` that hands it `x`. */
  predicate HandsOut(s: State, e: Event, i: nat, x: Message) {
    e.DrainStep? && e.i == i && e.commits && Ready(s, e) && x in Taken(s.queue, s.threads[i].user, e.take)
  }

  /** Thread `i` is a flush for `user` that still has `x`. */
  predicate Carries(s: State, i: nat, user: User, x: Message) {
    i < |s.threads| && Flushing(s.threads[i]) && s.threads[i].user == user && x in s.threads[i].rest
  }

  lemma CarriedBefore(s: State, e: Event, i: nat, user: User, x: Message)
    requires Carries(Step(s, e), i, user, x)
    ensures !e.Crash? && (HandsOut(s, e, i, x) || Carries(s, i, user, x))
    ensures HandsOut(s, e, i, x) ==> s.threads[i].user == user
  {
  }

  lemma {:induction false} CameFromDrain(relayId: string, ttl: Ttl, es: seq<Event>, n: nat, i: nat, user: User, x: Message)
    returns (d: nat)
    requires n <= |es| && Carries(Run(Init(relayId, ttl), es, n), i, user, x)
    ensures d < n && HandsOut(Run(Init(relayId, ttl), es, d), es[d], i, x) && Run(Init(relayId, ttl), es, d).threads[i].user == user
    ensures forall k :: d <= k < n ==> !es[k].Crash?
  {
    var s := Run(Init(relayId, ttl), es, n - 1);
    CarriedBefore(s, es[n - 1], i, user, x);
    if HandsOut(s, es[n - 1], i, x) {
      d := n - 1;
    } else {
      d := CameFromDrain(relayId, ttl, es, n - 1, i, user, x);
    }
  }

  // ---------- only a flush enqueues a message again ----------

  /** A deliver thread has `x`. */
  predicate InDelivery(t: Thread, x: Message) {
    (t.Arrived? || t.Writing? || t.Queueing?) && t.message == x
  }

  predicate PutsIt(op: Option<Runs.Op>, x: Message) {
    op.Some? && op.value.Put? && op.value.message == x
  }

  lemma DeliveredBefore(s: State, e: Event, i: nat, x: Message)
    requires i < |Step(s, e).threads| && InDelivery(Step(s, e).threads[i], x)
    ensures (i < |s.threads| && InDelivery(s.threads[i], x)) || x.serial == |s.log|
  {
  }

  lemma PutterHas(s: State, e: Event, x: Message)
    requires PutsIt(OpOf(s, e), x)
    ensures (e.StoreDirect? || e.RequeueNext?) && e.i < |s.threads| && Has(s.threads[e.i], x)
    ensures e.StoreDirect? ==> Step(s, e).threads == s.threads[e.i := Idle]
    ensures e.RequeueNext? ==> s.threads[e.i].Requeueing? && Step(s, e).threads == s.threads[e.i := Step(s, e).threads[e.i]]
  {
  }

  /** Once it is put, no deliver thread has it. */
  lemma PutEndsDelivery(s: State, e: Event, i: nat, x: Message)
    requires Single(s, x) && PutsIt(OpOf(s, e), x) && i < |s.threads| && InDelivery(s.threads[i], x)
    ensures i < |Step(s, e).threads| ==> !InDelivery(Step(s, e).threads[i], x)
  {
    PutterHas(s, e, x);
    OnlyThere(s, e.i, x);
    assert Has(s.threads[i], x);
  }

  lemma PutIsLogged(relayId: string, ttl: Ttl, es: seq<Event>, n: nat, j: nat, x: Message)
    requires n <= |es| && j < |Ops(relayId, ttl, es, n)| && PutsIt(Some(Ops(relayId, ttl, es, n)[j]), x)
    ensures x.serial < |Run(Init(relayId, ttl), es, n).log|
  {
    var k := EventOf(relayId, ttl, es, n, j);
    RunSingle(relayId, ttl, es, k, x);
    PutterHas(Run(Init(relayId, ttl), es, k), es[k], x);
    HeldOnce(Run(Init(relayId, ttl), es, k).threads, es[k].i, x);
    LogKept(relayId, ttl, es, k, n, x);
    RunSingle(relayId, ttl, es, n, x);
  }

  /** While a deliver thread has a message, it has never been enqueued. */
  ghost predicate NeverPut(ops: seq<Runs.Op>, x: Message) {
    forall j :: 0 <= j < |ops| ==> !PutsIt(Some(ops[j]), x)
  }

  lemma NotYetHeld(s: State, e: Event, x: Message)
    requires Single(s, x) && x.serial == |s.log|
    ensures !PutsIt(OpOf(s, e), x)
  {
    if PutsIt(OpOf(s, e), x) {
      PutterHas(s, e, x);
      OnlyThere(s, e.i, x);
    }
  }

  /** A message about to be accepted has never been enqueued. */
  lemma UnacceptedIsNew(relayId: string, ttl: Ttl, es: seq<Event>, n: nat, x: Message)
    requires n < |es| && x.serial == |Run(Init(relayId, ttl), es, n).log|
    ensures NeverPut(Ops(relayId, ttl, es, n + 1), x)
  {
    var ops := Ops(relayId, ttl, es, n);
    forall j | 0 <= j < |ops| ensures !PutsIt(Some(ops[j]), x) {
      if PutsIt(Some(ops[j]), x) {
        PutIsLogged(relayId, ttl, es, n, j, x);
      }
    }
    RunSingle(relayId, ttl, es, n, x);
    NotYetHeld(Run(Init(relayId, ttl), es, n), es[n], x);
  }

  lemma StillNew(relayId: string, ttl: Ttl, es: seq<Event>, n: nat, i: nat, x: Message)
    requires n < |es| && NeverPut(Ops(relayId, ttl, es, n), x) && i < |Run(Init(relayId, ttl), es, n).threads|
    requires InDelivery(Run(Init(relayId, ttl), es, n).threads[i], x)
    requires i < |Run(Init(relayId, ttl), es, n + 1).threads| && InDelivery(Run(Init(relayId, ttl), es, n + 1).threads[i], x)
    ensures NeverPut(Ops(relayId, ttl, es, n + 1), x)
  {
    RunSingle(relayId, ttl, es, n, x);
    if PutsIt(OpOf(Run(Init(relayId, ttl), es, n), es[n]), x) {
      PutEndsDelivery(Run(Init(relayId, ttl), es, n), es[n], i, x);
    }
  }

  lemma {:induction false} DeliveredIsNew(relayId: string, ttl: Ttl, es: seq<Event>, n: nat, i: nat, x: Message)
    requires n <= |es| && i < |Run(Init(relayId, ttl), es, n).threads| && InDelivery(Run(Init(relayId, ttl), es, n).threads[i], x)
    ensures NeverPut(Ops(relayId, ttl, es, n), x)
  {
    var s, e := Run(Init(relayId, ttl), es, n - 1), es[n - 1];
    DeliveredBefore(s, e, i, x);
    if i < |s.threads| && InDelivery(s.threads[i], x) {
      DeliveredIsNew(relayId, ttl, es, n - 1, i, x);
      StillNew(relayId, ttl, es, n - 1, i, x);
    } else {
      UnacceptedIsNew(relayId, ttl, es, n - 1, x);
    }
  }

  // ---------- age in the delivery protocol ----------

  /** Event `n` puts back what thread `i` was handed by event `d`. */
  ghost predicate SameFlush(relayId: string, ttl: Ttl, es: seq<Event>, d: nat, n: nat) {
    && d < n < |es| && es[d].DrainStep? && es[n].RequeueNext? && es[d].i == es[n].i && es[d].commits
    && Ready(Run(Init(relayId, ttl), es, d), es[d]) && Ready(Run(Init(relayId, ttl), es, n), es[n])
    && forall k :: d <= k < n ==> !es[k].Crash?
  }

  /** No flush puts back later than `hold` after its drain. */
  ghost predicate HeldAtMost(relayId: string, ttl: Ttl, es: seq<Event>, hold: nat) {
    forall d: nat, n: nat :: SameFlush(relayId, ttl, es, d, n) ==> es[n].put.now <= es[d].take.now + hold
  }

  /** A drain event that hands out `x` is an operation that returns it. */
  lemma HandedIsReturned(relayId: string, ttl: Ttl, es: seq<Event>, d: nat, i: nat, x: Message)
    requires d < |es| && HandsOut(Run(Init(relayId, ttl), es, d), es[d], i, x)
    ensures var ops, j := Ops(relayId, ttl, es, |es|), |Ops(relayId, ttl, es, d)|;
            && j < |ops| && Returned(NEW, ops, j, ttl, Run(Init(relayId, ttl), es, d).threads[i].user, x)
            && ops[j].now == es[d].take.now
  {
    OpAt(relayId, ttl, es, d, |es|);
    OpsExtend(relayId, ttl, es, d, |es|);
    StoreRunsOps(relayId, ttl, es, d);
    SamePrefix(Ops(relayId, ttl, es, d), Ops(relayId, ttl, es, |es|), |Ops(relayId, ttl, es, d)|, ttl);
  }

  lemma CarrierIsAddressed(relayId: string, ttl: Ttl, es: seq<Event>, n: nat, i: nat, x: Message)
    requires n <= |es| && i < |Run(Init(relayId, ttl), es, n).threads| && Has(Run(Init(relayId, ttl), es, n).threads[i], x)
    ensures Run(Init(relayId, ttl), es, n).threads[i].user == KeyOf(x, relayId)
  {
    RunSafe(relayId, ttl, es, n);
    RunTtl(relayId, ttl, es, n);
    var s := Run(Init(relayId, ttl), es, n);
    assert ThreadSafe(s.threads[i], s);
    if Flushing(s.threads[i]) {
      var p :| 0 <= p < |s.threads[i].rest| && s.threads[i].rest[p] == x;
      assert For(s.threads[i].user, s.threads[i].rest[p], relayId);
    }
  }

  /** A drain hands out messages of the user it drains for. */
  lemma DrainerIsAddressed(relayId: string, ttl: Ttl, es: seq<Event>, d: nat, i: nat, x: Message)
    requires d < |es| && HandsOut(Run(Init(relayId, ttl), es, d), es[d], i, x)
    ensures Run(Init(relayId, ttl), es, d).threads[i].user == KeyOf(x, relayId)
  {
    var s := Run(Init(relayId, ttl), es, d);
    RunSafe(relayId, ttl, es, d);
    RunTtl(relayId, ttl, es, d);
    TakeAddressed(s.queue, s.threads[i].user, es[d].take, relayId);
    var ms := Taken(s.queue, s.threads[i].user, es[d].take);
    var p :| 0 <= p < |ms| && ms[p] == x;
    assert For(s.threads[i].user, ms[p], relayId);
  }

  /** A re-enqueue puts back what a drain of the same thread returned. */
  lemma RequeueIsPutBack(relayId: string, ttl: Ttl, es: seq<Event>, n: nat, x: Message, hold: nat)
    requires n < |es| && HeldAtMost(relayId, ttl, es, hold) && es[n].RequeueNext?
    requires PutsIt(OpOf(Run(Init(relayId, ttl), es, n), es[n]), x)
    ensures var ops, k := Ops(relayId, ttl, es, |es|), |Ops(relayId, ttl, es, n)|;
            && k < |ops| && PutsMessage(ops[k], KeyOf(x, relayId), x)
            && PutBack(NEW, ops, k, ttl, KeyOf(x, relayId), x, hold)
  {
    var s, i, ops := Run(Init(relayId, ttl), es, n), es[n].i, Ops(relayId, ttl, es, |es|);
    PutterHas(s, es[n], x);
    CarrierIsAddressed(relayId, ttl, es, n, i, x);
    OpAt(relayId, ttl, es, n, |es|);
    var d := CameFromDrain(relayId, ttl, es, n, i, KeyOf(x, relayId), x);
    assert SameFlush(relayId, ttl, es, d, n);
    HandedIsReturned(relayId, ttl, es, d, i, x);
    OpAt(relayId, ttl, es, d, n);
  }

  /** Among the operations of a run, every enqueue of a message after its first puts it back. */
  lemma LaterPutsAreBack(relayId: string, ttl: Ttl, es: seq<Event>, first: nat, k: nat, x: Message, hold: nat)
    requires first < k < |Ops(relayId, ttl, es, |es|)| && HeldAtMost(relayId, ttl, es, hold)
    requires var ops := Ops(relayId, ttl, es, |es|); PutsIt(Some(ops[first]), x) && PutsIt(Some(ops[k]), x)
    ensures PutBack(NEW, Ops(relayId, ttl, es, |es|), k, ttl, KeyOf(x, relayId), x, hold)
  {
    var n := EventOf(relayId, ttl, es, |es|, k);
    var s := Run(Init(relayId, ttl), es, n);
    PutterHas(s, es[n], x);
    if es[n].StoreDirect? {
      DeliveredIsNew(relayId, ttl, es, n, es[n].i, x);
      OpsExtend(relayId, ttl, es, n, |es|);
    } else {
      RequeueIsPutBack(relayId, ttl, es, n, x, hold);
    }
  }

  lemma {:induction false} NonePut(ops: seq<Runs.Op>, n: nat, r: User, m: Message)
    requires n <= |ops| && Puts(ops, n, r, m) == 0
    ensures forall k :: 0 <= k < n ==> !PutsMessage(ops[k], r, m)
  {
    if n > 0 {
      NonePut(ops, n - 1, r, m);
    }
  }

  lemma {:induction false} FirstPut(ops: seq<Runs.Op>, n: nat, r: User, m: Message) returns (first: nat)
    requires n <= |ops| && Puts(ops, n, r, m) > 0
    ensures first < n && PutsMessage(ops[first], r, m) && forall k :: 0 <= k < first ==> !PutsMessage(ops[k], r, m)
  {
    if Puts(ops, n - 1, r, m) > 0 {
      first := FirstPut(ops, n - 1, r, m);
    } else {
      first := n - 1;
      NonePut(ops, n - 1, r, m);
    }
  }

  lemma OnlyFlushesPutBack(relayId: string, ttl: Ttl, es: seq<Event>, first: nat, x: Message, hold: nat)
    requires HeldAtMost(relayId, ttl, es, hold) && first < |Ops(relayId, ttl, es, |es|)|
    requires var ops, r := Ops(relayId, ttl, es, |es|), KeyOf(x, relayId);
             PutsMessage(ops[first], r, x) && forall k :: 0 <= k < first ==> !PutsMessage(ops[k], r, x)
    ensures OnlyPutBack(NEW, Ops(relayId, ttl, es, |es|), ttl, KeyOf(x, relayId), x, first, hold)
  {
    var ops, r := Ops(relayId, ttl, es, |es|), KeyOf(x, relayId);
    forall k | first < k < |ops| && PutsMessage(ops[k], r, x) ensures PutBack(NEW, ops, k, ttl, r, x, hold) {
      LaterPutsAreBack(relayId, ttl, es, first, k, x, hold);
    }
  }

  /** Age in the delivery protocol: if the clock goes forward, restarts find the file up to date and
      no flush holds a message longer than `hold`, a message that a drain hands out after n enqueues
      was first enqueued at most n TTLs, and n - 1 times `hold`, before. */
  lemma DeliveredAge(relayId: string, ttl: Ttl, es: seq<Event>, d: nat, i: nat, x: Message, hold: nat) returns (first: nat)
    requires d < |es| && HandsOut(Run(Init(relayId, ttl), es, d), es[d], i, x) && HeldAtMost(relayId, ttl, es, hold)
    requires Runs.ClockForward(Ops(relayId, ttl, es, |es|)) && Runs.SavedRestarts(NEW, Ops(relayId, ttl, es, |es|), ttl)
    ensures var ops, at, r := Ops(relayId, ttl, es, |es|), |Ops(relayId, ttl, es, d)|, KeyOf(x, relayId);
            && first < at <= |ops| && PutsMessage(ops[first], r, x)
            && (forall k :: 0 <= k < first ==> !PutsMessage(ops[k], r, x))
            && es[d].take.now + hold <= ops[first].now + Times(Puts(ops, at, r, x), ttl + hold)
  {
    var ops, at, r := Ops(relayId, ttl, es, |es|), |Ops(relayId, ttl, es, d)|, KeyOf(x, relayId);
    DrainerIsAddressed(relayId, ttl, es, d, i, x);
    HandedIsReturned(relayId, ttl, es, d, i, x);
    EmptyFifo(r);
    var k := DrainedWithinTtl(NEW, ops, at, ttl, r, x);
    PutsGrow(ops, k, at, r, x);
    first := FirstPut(ops, at, r, x);
    OnlyFlushesPutBack(relayId, ttl, es, first, x, hold);
    AgeBound(NEW, ops, at, ttl, r, x, first, hold);
  }
}
