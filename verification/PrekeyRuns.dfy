/** Whole runs of the prekey store: registrations, pops, certificate requests, persists that
    succeed or fail, and the death of the process at every point of a critical section. */
module PrekeyRuns {
  import opened Envelopes
  import opened Prekeys

  /** How a critical section that persists ends: renamed and answered, persist error and answered,
      or the process dies before or after the rename and nobody is answered. */
  datatype End = Saved | SaveFailed | DiedBefore | DiedAfter

  predicate Renames(end: End) {
    end.Saved? || end.DiedAfter?
  }

  predicate Dies(end: End) {
    end.DiedBefore? || end.DiedAfter?
  }

  datatype Op =
    | Publication(user: User, bundle: Bundle, end: End)
    | Consumption(user: User, end: End)
    | Certification(user: User, nowMs: int)
    | Restart

  function Ended(v: Vault, end: End): Vault {
    if Dies(end) then Vault(v.disk, v.disk) else v
  }

  ghost function Step(v: Vault, op: Op): Vault {
    match op
    case Publication(u, b, end) => Ended(Publish(v, u, b, Renames(end)), end)
    case Consumption(user, end) => Ended(Pop(v, user, Renames(end)), end)
    case Certification(_, _) => v
    case Restart => Vault(v.disk, v.disk)
  }

  ghost function Run(ops: seq<Op>, n: nat): Vault
    requires n <= |ops|
  {
    if n == 0 then Vault(map[], map[]) else Step(Run(ops, n - 1), ops[n - 1])
  }

  /** A registration of `u` that goes through. */
  ghost predicate Publishes(op: Op, u: User) {
    op.Publication? && op.user == u && u != "" && ValidBundle(op.bundle)
  }

  predicate Kills(op: Op) {
    op.Restart? || ((op.Publication? || op.Consumption?) && Dies(op.end))
  }

  /** Operation `k` writes the file. */
  ghost predicate Writes(ops: seq<Op>, k: nat)
    requires k < |ops|
  {
    || (ops[k].Publication? && Publishes(ops[k], ops[k].user) && Renames(ops[k].end))
    || (ops[k].Consumption? && HasKey(Run(ops, k), ops[k].user) && Renames(ops[k].end))
  }

  /** The process that runs operation `i` is the one that runs operation `j`. */
  ghost predicate SameProcess(ops: seq<Op>, i: nat, j: nat)
    requires i <= j <= |ops|
  {
    forall k :: i <= k < j ==> !Kills(ops[k])
  }

  // ---------- where each stored bundle comes from ----------

  /** The bundle that operation `gen` registered, less the keys that operations `pops` took. */
  datatype Slot = Slot(gen: nat, pops: seq<nat>)

  datatype Slots = Slots(mem: map<User, Slot>, disk: map<User, Slot>)

  function Settled(h: Slots, mem: map<User, Slot>, end: End): Slots {
    var disk := if Renames(end) then mem else h.disk;
    Slots(if Dies(end) then disk else mem, disk)
  }

  function KeysOf(ops: seq<Op>, gen: nat): seq<OneTimePrekey> {
    if gen < |ops| && ops[gen].Publication? then ops[gen].bundle.oneTime else []
  }

  predicate Available(h: Slots, ops: seq<Op>, user: User) {
    user in h.mem && |h.mem[user].pops| < |KeysOf(ops, h.mem[user].gen)|
  }

  /** The same end for a section that had nothing to persist. */
  function Unwritten(end: End): End {
    if Dies(end) then DiedBefore else SaveFailed
  }

  ghost function Record(h: Slots, ops: seq<Op>, k: nat): Slots
    requires k < |ops|
  {
    match ops[k]
    case Publication(u, b, end) =>
      Settled(h, if Publishes(ops[k], u) then h.mem[u := Slot(k, [])] else h.mem,
              if Publishes(ops[k], u) then end else Unwritten(end))
    case Consumption(user, end) =>
      if Available(h, ops, user)
      then Settled(h, h.mem[user := Slot(h.mem[user].gen, h.mem[user].pops + [k])], end)
      else Settled(h, h.mem, Unwritten(end))
    case Certification(_, _) => h
    case Restart => Slots(h.disk, h.disk)
  }

  ghost function Replay(ops: seq<Op>, n: nat): Slots
    requires n <= |ops|
  {
    if n == 0 then Slots(map[], map[]) else Record(Replay(ops, n - 1), ops, n - 1)
  }

  ghost predicate SlotOk(s: Slot, u: User, ops: seq<Op>, n: nat)
    requires n <= |ops|
  {
    s.gen < n && Publishes(ops[s.gen], u) && |s.pops| <= |ops[s.gen].bundle.oneTime|
  }

  /** The bundle without its first `n` keys. */
  function Remaining(b: Bundle, n: nat): Bundle
    requires n <= |b.oneTime|
  {
    b.(oneTime := b.oneTime[n..])
  }

  /** Slot and bundle of `u` belong together. */
  ghost predicate Fits(slots: map<User, Slot>, bundles: map<User, Bundle>, u: User, ops: seq<Op>, n: nat)
    requires n <= |ops|
  {
    && (u in slots <==> u in bundles)
    && (u in slots ==>
          && SlotOk(slots[u], u, ops, n)
          && bundles[u] == Remaining(ops[slots[u].gen].bundle, |slots[u].pops|))
  }

  ghost predicate AgreeOn(v: Vault, h: Slots, u: User, ops: seq<Op>, n: nat)
    requires n <= |ops|
  {
    Fits(h.mem, v.mem, u, ops, n) && Fits(h.disk, v.disk, u, ops, n)
  }

  lemma AvailableMeans(v: Vault, h: Slots, u: User, ops: seq<Op>, n: nat)
    requires n <= |ops| && AgreeOn(v, h, u, ops, n)
    ensures Available(h, ops, u) <==> HasKey(v, u)
    ensures HasKey(v, u) ==> v.mem[u].oneTime[0] == KeysOf(ops, h.mem[u].gen)[|h.mem[u].pops|]
  {
  }

  lemma PopFits(slots: map<User, Slot>, bundles: map<User, Bundle>, u: User, ops: seq<Op>, n: nat)
    requires n < |ops| && Fits(slots, bundles, u, ops, n) && u in slots && bundles[u].oneTime != []
    ensures Fits(slots[u := Slot(slots[u].gen, slots[u].pops + [n])],
                 bundles[u := bundles[u].(oneTime := bundles[u].oneTime[1..])], u, ops, n + 1)
  {
    var b, k := ops[slots[u].gen].bundle, |slots[u].pops|;
    assert b.oneTime[k..][1..] == b.oneTime[k + 1..];
  }

  lemma PublicationAgrees(v: Vault, h: Slots, u: User, ops: seq<Op>, n: nat)
    requires n < |ops| && ops[n].Publication? && AgreeOn(v, h, u, ops, n)
    ensures AgreeOn(Step(v, ops[n]), Record(h, ops, n), u, ops, n + 1)
  {
    assert ops[n].bundle.oneTime[0..] == ops[n].bundle.oneTime;
  }

  lemma OwnPopAgrees(v: Vault, h: Slots, u: User, ops: seq<Op>, n: nat)
    requires n < |ops| && ops[n].Consumption? && ops[n].user == u && AgreeOn(v, h, u, ops, n)
    ensures AgreeOn(Step(v, ops[n]), Record(h, ops, n), u, ops, n + 1)
  {
    AvailableMeans(v, h, u, ops, n);
    if HasKey(v, u) {
      PopFits(h.mem, v.mem, u, ops, n);
    }
  }

  lemma OtherPopAgrees(v: Vault, h: Slots, u: User, ops: seq<Op>, n: nat)
    requires n < |ops| && ops[n].Consumption? && ops[n].user != u && AgreeOn(v, h, u, ops, n)
    requires Available(h, ops, ops[n].user) <==> HasKey(v, ops[n].user)
    ensures AgreeOn(Step(v, ops[n]), Record(h, ops, n), u, ops, n + 1)
  {
  }

  lemma ConsumptionAgrees(v: Vault, h: Slots, u: User, ops: seq<Op>, n: nat)
    requires n < |ops| && ops[n].Consumption?
    requires AgreeOn(v, h, u, ops, n) && AgreeOn(v, h, ops[n].user, ops, n)
    ensures AgreeOn(Step(v, ops[n]), Record(h, ops, n), u, ops, n + 1)
  {
    if ops[n].user == u {
      OwnPopAgrees(v, h, u, ops, n);
    } else {
      AvailableMeans(v, h, ops[n].user, ops, n);
      OtherPopAgrees(v, h, u, ops, n);
    }
  }

  /** The recorded slots describe the stored bundles. */
  lemma {:induction false} RunAgrees(ops: seq<Op>, n: nat, u: User)
    requires n <= |ops|
    ensures AgreeOn(Run(ops, n), Replay(ops, n), u, ops, n)
  {
    if n > 0 {
      var v, h := Run(ops, n - 1), Replay(ops, n - 1);
      RunAgrees(ops, n - 1, u);
      match ops[n - 1]
      case Publication(_, _, _) => PublicationAgrees(v, h, u, ops, n - 1);
      case Consumption(user, _) =>
        RunAgrees(ops, n - 1, user);
        ConsumptionAgrees(v, h, u, ops, n - 1);
      case _ =>
    }
  }

  /** After any run, every bundle in memory and on disk is valid, though reloads do not check. */
  lemma BundlesStayValid(ops: seq<Op>, u: User)
    ensures var v := Run(ops, |ops|);
            && (u in v.mem ==> ValidBundle(v.mem[u]))
            && (u in v.disk ==> ValidBundle(v.disk[u]))
  {
    RunAgrees(ops, |ops|, u);
    var h := Replay(ops, |ops|);
    if u in h.mem {
      DropKeepsValid(ops[h.mem[u].gen].bundle, |h.mem[u].pops|);
    }
    if u in h.disk {
      DropKeepsValid(ops[h.disk[u].gen].bundle, |h.disk[u].pops|);
    }
  }

  // ---------- one user's slot, step by step ----------

  function SlotOf(slots: map<User, Slot>, u: User): Option<Slot> {
    if u in slots then Some(slots[u]) else None
  }

  ghost function MemOf(ops: seq<Op>, n: nat, u: User): Option<Slot>
    requires n <= |ops|
  {
    SlotOf(Replay(ops, n).mem, u)
  }

  ghost function FileOf(ops: seq<Op>, n: nat, u: User): Option<Slot>
    requires n <= |ops|
  {
    SlotOf(Replay(ops, n).disk, u)
  }

  /** Operation `n` takes a key of `u` whose slot is `s`. */
  predicate TakesFrom(s: Option<Slot>, ops: seq<Op>, n: nat, u: User)
    requires n < |ops|
  {
    && ops[n].Consumption? && ops[n].user == u
    && s.Some? && |s.value.pops| < |KeysOf(ops, s.value.gen)|
  }

  /** The slot `s` of `u` when the critical section of operation `n` ends. */
  ghost function Next(s: Option<Slot>, ops: seq<Op>, n: nat, u: User): Option<Slot>
    requires n < |ops|
  {
    if Publishes(ops[n], u) then Some(Slot(n, []))
    else if TakesFrom(s, ops, n, u) then Some(Slot(s.value.gen, s.value.pops + [n]))
    else s
  }

  /** Operation `k` writes the file, as the recorded slots see it. */
  ghost predicate Stores(h: Slots, ops: seq<Op>, k: nat)
    requires k < |ops|
  {
    || (ops[k].Publication? && Publishes(ops[k], ops[k].user) && Renames(ops[k].end))
    || (ops[k].Consumption? && Available(h, ops, ops[k].user) && Renames(ops[k].end))
  }

  lemma WritesMeans(ops: seq<Op>, n: nat)
    requires n < |ops|
    ensures Writes(ops, n) <==> Stores(Replay(ops, n), ops, n)
  {
    if ops[n].Consumption? {
      RunAgrees(ops, n, ops[n].user);
      AvailableMeans(Run(ops, n), Replay(ops, n), ops[n].user, ops, n);
    }
  }

  lemma RecordSlot(h: Slots, ops: seq<Op>, k: nat, u: User)
    requires k < |ops|
    ensures var h', now := Record(h, ops, k), Next(SlotOf(h.mem, u), ops, k, u);
            && SlotOf(h'.disk, u) == (if Stores(h, ops, k) then now else SlotOf(h.disk, u))
            && SlotOf(h'.mem, u) == (if Kills(ops[k]) then SlotOf(h'.disk, u) else now)
  {
  }

  /** The file changes only when it is written, and memory falls back to it when the process dies. */
  lemma StepSlot(ops: seq<Op>, n: nat, u: User)
    requires n < |ops|
    ensures var now := Next(MemOf(ops, n, u), ops, n, u);
            && FileOf(ops, n + 1, u) == (if Writes(ops, n) then now else FileOf(ops, n, u))
            && MemOf(ops, n + 1, u) == (if Kills(ops[n]) then FileOf(ops, n + 1, u) else now)
  {
    WritesMeans(ops, n);
    RecordSlot(Replay(ops, n), ops, n, u);
  }

  lemma SlotKnown(ops: seq<Op>, n: nat, u: User)
    requires n <= |ops|
    ensures var s := MemOf(ops, n, u);
            s.Some? ==> SlotOk(s.value, u, ops, n)
  {
    RunAgrees(ops, n, u);
  }

  // ---------- the registration in force ----------

  /** The registration of `u` in force after the first `n` operations: the latest one, or after the
      death of a process the one that was in force when the file was last written. */
  ghost function Cur(ops: seq<Op>, n: nat, u: User): Option<nat>
    requires n <= |ops|
    decreases n, 1
  {
    if n == 0 then None
    else if Kills(ops[n - 1]) then Sav(ops, n, u)
    else if Publishes(ops[n - 1], u) then Some(n - 1)
    else Cur(ops, n - 1, u)
  }

  /** The registration of `u` in the file. */
  ghost function Sav(ops: seq<Op>, n: nat, u: User): Option<nat>
    requires n <= |ops|
    decreases n, 0
  {
    if n == 0 then None
    else if !Writes(ops, n - 1) then Sav(ops, n - 1, u)
    else if Publishes(ops[n - 1], u) then Some(n - 1)
    else Cur(ops, n - 1, u)
  }

  function GenOf(s: Option<Slot>): Option<nat> {
    if s.Some? then Some(s.value.gen) else None
  }

  /** The slots of `u` in memory and file stand for the registrations in force. */
  ghost predicate InForce(ops: seq<Op>, n: nat, u: User, mem: Option<Slot>, file: Option<Slot>)
    requires n <= |ops|
  {
    GenOf(mem) == Cur(ops, n, u) && GenOf(file) == Sav(ops, n, u)
  }

  /** What StepSlot says of the slots is what Cur and Sav say of the registrations. */
  lemma StepInForce(ops: seq<Op>, n: nat, u: User, mem: Option<Slot>, file: Option<Slot>, mem': Option<Slot>, file': Option<Slot>)
    requires n < |ops| && InForce(ops, n, u, mem, file)
    requires file' == if Writes(ops, n) then Next(mem, ops, n, u) else file
    requires mem' == if Kills(ops[n]) then file' else Next(mem, ops, n, u)
    ensures InForce(ops, n + 1, u, mem', file')
  {
  }

  /** Memory and file hold exactly the registrations that are in force. */
  lemma {:induction false} SlotsInForce(ops: seq<Op>, n: nat, u: User)
    requires n <= |ops|
    ensures InForce(ops, n, u, MemOf(ops, n, u), FileOf(ops, n, u))
  {
    if n > 0 {
      SlotsInForce(ops, n - 1, u);
      StepSlot(ops, n - 1, u);
      StepInForce(ops, n - 1, u, MemOf(ops, n - 1, u), FileOf(ops, n - 1, u),
                  MemOf(ops, n, u), FileOf(ops, n, u));
    }
  }

  /** In the process that ran the registration, it stays in force until the user's next one. */
  lemma {:induction false} LatestInForce(ops: seq<Op>, g: nat, n: nat, u: User)
    requires g < n <= |ops| && Publishes(ops[g], u) && SameProcess(ops, g, n)
    requires forall k :: g < k < n ==> !Publishes(ops[k], u)
    ensures Cur(ops, n, u) == Some(g)
  {
    if g < n - 1 {
      LatestInForce(ops, g, n - 1, u);
    }
  }

  lemma {:induction false} SavUnchanged(ops: seq<Op>, w: nat, n: nat, u: User)
    requires w < n <= |ops| && forall k :: w < k < n ==> !Writes(ops, k)
    ensures Sav(ops, n, u) == Sav(ops, w + 1, u)
  {
    if w < n - 1 {
      SavUnchanged(ops, w, n - 1, u);
    }
  }

  /** A process that starts after operation `d` has what the last write to the file had, until the
      user registers again. */
  lemma {:induction false} SavedInForce(ops: seq<Op>, w: nat, d: nat, n: nat, u: User)
    requires w <= d < n <= |ops| && Kills(ops[d]) && SameProcess(ops, d + 1, n)
    requires Writes(ops, w) && forall k :: w < k <= d ==> !Writes(ops, k)
    requires forall k :: d < k < n ==> !Publishes(ops[k], u)
    ensures Cur(ops, n, u) == if Publishes(ops[w], u) then Some(w) else Cur(ops, w, u)
  {
    if d < n - 1 {
      SavedInForce(ops, w, d, n - 1, u);
    } else {
      SavUnchanged(ops, w, d + 1, u);
    }
  }
}
