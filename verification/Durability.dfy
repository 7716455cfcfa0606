/** The runs of both stores on top of the file protocol: what a restart loads is the table, or the
    map of bundles, that the run says is on disk. */
module Durability {
  import opened Envelopes
  import opened SnapshotFile
  import QueueTable
  import QueueRuns
  import Prekeys
  import PrekeyRuns

  /** What the file system makes of one persist attempt. */
  datatype Io = Io(temp: string, size: Size, stop: Stop)

  function AttemptOf<S>(snapshot: S, io: Io): Attempt<S> {
    Attempt(io.temp, snapshot, io.size, io.stop)
  }

  /** The attempts make the file hold `disk`. */
  ghost predicate FileHolds<S>(initial: Loaded<S>, attempts: seq<Attempt<S>>, empty: S, disk: S) {
    var l := LastRenamed(initial, attempts, |attempts|);
    l != Refused && Opened(l, empty) == disk
  }

  function Attempted<S>(attempts: seq<Attempt<S>>, saved: Option<S>, io: Io): seq<Attempt<S>> {
    if saved.None? then attempts else attempts + [AttemptOf(saved.value, io)]
  }

  /** One operation: `saved` is what it tries to persist, if anything. */
  lemma OneMoreOperation<S>(initial: Loaded<S>, attempts: seq<Attempt<S>>, saved: Option<S>, io: Io, empty: S, disk: S)
    requires FileHolds(initial, attempts, empty, disk)
    ensures FileHolds(initial, Attempted(attempts, saved, io), empty, if saved.Some? && io.stop.Renamed? then saved.value else disk)
  {
    if saved.Some? {
      LastRenamedPrefix(initial, attempts, AttemptOf(saved.value, io), |attempts|);
    }
  }

  ghost predicate Apart<S>(attempts: seq<Attempt<S>>, path: string) {
    forall i :: 0 <= i < |attempts| ==> attempts[i].temp != path
  }

  lemma OneMoreApart<S>(attempts: seq<Attempt<S>>, saved: Option<S>, io: Io, path: string)
    requires Apart(attempts, path) && io.temp != path
    ensures Apart(Attempted(attempts, saved, io), path)
  {
  }

  // ---------- the queue ----------

  /** The table an operation tries to persist. */
  function TableSaved(s: QueueRuns.State, op: QueueRuns.Op, ttl: nat): Option<QueueTable.Table> {
    match op
    case Put(r, m, sqlNow, now, fault, _) =>
      var e := QueueTable.Enqueue(s.mem, r, m, ttl, sqlNow, now, fault);
      if e.outcome.Stored? then Some(e.table) else None
    case Take(r, now, commits, bad, _) =>
      if commits then Some(QueueTable.Drain(s.mem, r, now, bad).table) else None
    case Sweep(now, executes, _) => if executes then Some(QueueTable.Purge(s.mem, now)) else None
    case _ => None
  }

  function TablesSaved(s: QueueRuns.State, ops: seq<QueueRuns.Op>, n: nat, ttl: nat, io: nat -> Io): seq<Attempt<QueueTable.Table>>
    requires n <= |ops|
  {
    if n == 0 then []
    else
      var t := TableSaved(QueueRuns.Run(s, ops, n - 1, ttl), ops[n - 1], ttl);
      Attempted(TablesSaved(s, ops, n - 1, ttl, io), t, io(n - 1))
  }

  /** An operation's persist is reported as it went. */
  ghost predicate QueueReports(ops: seq<QueueRuns.Op>, io: nat -> Io) {
    forall k: nat :: k < |ops| && (ops[k].Put? || ops[k].Take? || ops[k].Sweep?) ==>
      (ops[k].persists <==> io(k).stop.Renamed?)
  }

  lemma QueueStepSaves(s: QueueRuns.State, op: QueueRuns.Op, ttl: nat)
    ensures var t := TableSaved(s, op, ttl);
            QueueRuns.Step(s, op, ttl).disk
            == if t.Some? && (op.Put? || op.Take? || op.Sweep?) && op.persists then t.value else s.disk
  {
  }

  lemma {:induction false} QueueFileHolds(s: QueueRuns.State, ops: seq<QueueRuns.Op>, n: nat, ttl: nat, io: nat -> Io,
                                          initial: Loaded<QueueTable.Table>)
    requires n <= |ops| && QueueReports(ops, io) && initial != Refused && Opened(initial, QueueTable.EMPTY) == s.disk
    ensures FileHolds(initial, TablesSaved(s, ops, n, ttl, io), QueueTable.EMPTY, QueueRuns.Run(s, ops, n, ttl).disk)
  {
    if n > 0 {
      var before := QueueRuns.Run(s, ops, n - 1, ttl);
      var t := TableSaved(before, ops[n - 1], ttl);
      QueueFileHolds(s, ops, n - 1, ttl, io, initial);
      QueueStepSaves(before, ops[n - 1], ttl);
      OneMoreOperation(initial, TablesSaved(s, ops, n - 1, ttl, io), t, io(n - 1), QueueTable.EMPTY, before.disk);
    }
  }

  ghost predicate TempsApart(io: nat -> Io, path: string) {
    forall k :: io(k).temp != path
  }

  lemma {:induction false} TableTempsApart(s: QueueRuns.State, ops: seq<QueueRuns.Op>, n: nat, ttl: nat, io: nat -> Io, path: string)
    requires n <= |ops| && TempsApart(io, path)
    ensures Apart(TablesSaved(s, ops, n, ttl, io), path)
  {
    if n > 0 {
      TableTempsApart(s, ops, n - 1, ttl, io, path);
      OneMoreApart(TablesSaved(s, ops, n - 1, ttl, io), TableSaved(QueueRuns.Run(s, ops, n - 1, ttl), ops[n - 1], ttl), io(n - 1), path);
    }
  }

  /** Wherever the persists of a queue run failed or were cut short, loading the file is the run's
      Restart: it yields the table the run has on disk, and is never refused. */
  lemma QueueRestartLoads(s: QueueRuns.State, ops: seq<QueueRuns.Op>, ttl: nat, io: nat -> Io, dir: Dir<QueueTable.Table>, path: string)
    requires QueueReports(ops, io) && TempsApart(io, path)
    requires Load(dir, path) != Refused && Opened(Load(dir, path), QueueTable.EMPTY) == s.disk
    ensures var l := Load(After(dir, path, TablesSaved(s, ops, |ops|, ttl, io), |TablesSaved(s, ops, |ops|, ttl, io)|), path);
            && l != Refused
            && QueueRuns.Step(QueueRuns.Run(s, ops, |ops|, ttl), QueueRuns.Restart, ttl).mem == Opened(l, QueueTable.EMPTY)
  {
    var attempts := TablesSaved(s, ops, |ops|, ttl, io);
    TableTempsApart(s, ops, |ops|, ttl, io, path);
    RestartFindsLastRename(dir, path, attempts, |attempts|);
    QueueFileHolds(s, ops, |ops|, ttl, io, Load(dir, path));
  }

  // ---------- the prekey store ----------

  datatype Bundles = Bundles(bundles: map<User, Prekeys.Bundle>)

  const NONE := Bundles(map[])

  /** The bundles an operation tries to persist. */
  ghost function BundlesSaved(v: Prekeys.Vault, op: PrekeyRuns.Op): Option<Bundles> {
    match op
    case Publication(u, b, _) =>
      if PrekeyRuns.Publishes(op, u) then Some(Bundles(v.mem[u := b])) else None
    case Consumption(user, _) =>
      if Prekeys.HasKey(v, user) then Some(Bundles(Prekeys.Pop(v, user, false).mem)) else None
    case _ => None
  }

  ghost function AllSaved(ops: seq<PrekeyRuns.Op>, n: nat, io: nat -> Io): seq<Attempt<Bundles>>
    requires n <= |ops|
  {
    if n == 0 then []
    else
      var m := BundlesSaved(PrekeyRuns.Run(ops, n - 1), ops[n - 1]);
      Attempted(AllSaved(ops, n - 1, io), m, io(n - 1))
  }

  predicate Reports(op: PrekeyRuns.Op, io: Io) {
    op.Publication? || op.Consumption? ==> (PrekeyRuns.Renames(op.end) <==> io.stop.Renamed?)
  }

  ghost predicate PrekeyReports(ops: seq<PrekeyRuns.Op>, io: nat -> Io) {
    forall k: nat :: k < |ops| ==> Reports(ops[k], io(k))
  }

  lemma PrekeyStepSaves(v: Prekeys.Vault, op: PrekeyRuns.Op)
    ensures var m := BundlesSaved(v, op);
            PrekeyRuns.Step(v, op).disk
            == if m.Some? && (op.Publication? || op.Consumption?) && PrekeyRuns.Renames(op.end) then m.value.bundles else v.disk
  {
  }

  lemma PrekeyOneMore(v: Prekeys.Vault, op: PrekeyRuns.Op, attempts: seq<Attempt<Bundles>>, io: Io)
    requires FileHolds(Missing, attempts, NONE, Bundles(v.disk))
    requires Reports(op, io)
    ensures FileHolds(Missing, Attempted(attempts, BundlesSaved(v, op), io), NONE, Bundles(PrekeyRuns.Step(v, op).disk))
  {
    OneMoreOperation(Missing, attempts, BundlesSaved(v, op), io, NONE, Bundles(v.disk));
    PrekeyStepSaves(v, op);
  }

  ghost predicate PrekeysHeld(ops: seq<PrekeyRuns.Op>, n: nat, io: nat -> Io)
    requires n <= |ops|
  {
    FileHolds(Missing, AllSaved(ops, n, io), NONE, Bundles(PrekeyRuns.Run(ops, n).disk))
  }

  lemma PrekeysHeldNext(ops: seq<PrekeyRuns.Op>, n: nat, io: nat -> Io)
    requires n < |ops| && Reports(ops[n], io(n)) && PrekeysHeld(ops, n, io)
    ensures PrekeysHeld(ops, n + 1, io)
  {
    PrekeyOneMore(PrekeyRuns.Run(ops, n), ops[n], AllSaved(ops, n, io), io(n));
  }

  lemma {:induction false} PrekeyFileHolds(ops: seq<PrekeyRuns.Op>, n: nat, io: nat -> Io)
    requires n <= |ops| && PrekeyReports(ops, io)
    ensures PrekeysHeld(ops, n, io)
  {
    if n > 0 {
      PrekeyFileHolds(ops, n - 1, io);
      PrekeysHeldNext(ops, n - 1, io);
    }
  }

  lemma {:induction false} BundleTempsApart(ops: seq<PrekeyRuns.Op>, n: nat, io: nat -> Io, path: string)
    requires n <= |ops| && TempsApart(io, path)
    ensures Apart(AllSaved(ops, n, io), path)
  {
    if n > 0 {
      BundleTempsApart(ops, n - 1, io, path);
      OneMoreApart(AllSaved(ops, n - 1, io), BundlesSaved(PrekeyRuns.Run(ops, n - 1), ops[n - 1]), io(n - 1), path);
    }
  }

  /** The same for the prekey store, whose sections may also be cut short by the death of the process. */
  lemma PrekeyRestartLoads(ops: seq<PrekeyRuns.Op>, io: nat -> Io, dir: Dir<Bundles>, path: string)
    requires PrekeyReports(ops, io) && TempsApart(io, path) && Load(dir, path) == Missing
    ensures var l := Load(After(dir, path, AllSaved(ops, |ops|, io), |AllSaved(ops, |ops|, io)|), path);
            && l != Refused
            && PrekeyRuns.Step(PrekeyRuns.Run(ops, |ops|), PrekeyRuns.Restart).mem == Opened(l, NONE).bundles
  {
    var attempts := AllSaved(ops, |ops|, io);
    BundleTempsApart(ops, |ops|, io, path);
    RestartFindsLastRename(dir, path, attempts, |attempts|);
    PrekeyFileHolds(ops, |ops|, io);
  }
}
