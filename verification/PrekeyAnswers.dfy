/** Single use of one-time prekeys over all runs of the prekey store, and exactly when a key can be
    handed out again. */
module PrekeyAnswers {
  import opened Envelopes
  import opened Prekeys
  import opened PrekeyRuns

  /** Operation `at` takes key number `p` of registration `g`, made by `u`, out of the store. */
  ghost predicate Takes(ops: seq<Op>, at: nat, u: User, g: nat, p: nat) {
    && at < |ops| && TakesFrom(MemOf(ops, at, u), ops, at, u)
    && MemOf(ops, at, u).value.gen == g && |MemOf(ops, at, u).value.pops| == p
  }

  /** It also answers its request with that key. */
  ghost predicate Answered(ops: seq<Op>, at: nat, u: User, g: nat, p: nat) {
    Takes(ops, at, u, g, p) && !Dies(ops[at].end)
  }

  lemma TakesKnown(ops: seq<Op>, at: nat, u: User, g: nat, p: nat)
    requires Takes(ops, at, u, g, p)
    ensures g < at && Publishes(ops[g], u) && p < |KeysOf(ops, g)|
  {
    SlotKnown(ops, at, u);
  }

  /** What the store hands out is exactly what is recorded. */
  lemma AnswersAreResponses(ops: seq<Op>, at: nat, u: User)
    requires at < |ops| && ops[at].Consumption? && ops[at].user == u
    ensures var s, key := MemOf(ops, at, u), Popped(Run(ops, at), u);
            && (key.Some? <==> s.Some? && Takes(ops, at, u, s.value.gen, |s.value.pops|))
            && (key.Some? ==> key.value == KeysOf(ops, s.value.gen)[|s.value.pops|])
  {
    RunAgrees(ops, at, u);
    AvailableMeans(Run(ops, at), Replay(ops, at), u, ops, at);
  }

  // ---------- a key that is behind stays behind ----------

  /** If this is still registration `g`, key `p` is among the keys gone, taken by `taker` if given. */
  predicate Past(s: Option<Slot>, g: nat, p: nat, taker: Option<nat>) {
    s.Some? && s.value.gen == g ==> p < |s.value.pops| && (taker.Some? ==> s.value.pops[p] == taker.value)
  }

  lemma NextPast(s: Option<Slot>, ops: seq<Op>, n: nat, u: User, g: nat, p: nat, taker: Option<nat>)
    requires n < |ops| && g < n && Past(s, g, p, taker)
    ensures Past(Next(s, ops, n, u), g, p, taker)
  {
  }

  /** The slot of `u` when the critical section of operation `n` ends. */
  ghost function NowOf(ops: seq<Op>, n: nat, u: User): Option<Slot>
    requires n < |ops|
  {
    Next(MemOf(ops, n, u), ops, n, u)
  }

  lemma MemIsNow(ops: seq<Op>, n: nat, u: User)
    requires n < |ops| && !Kills(ops[n])
    ensures MemOf(ops, n + 1, u) == NowOf(ops, n, u)
  {
    StepSlot(ops, n, u);
  }

  lemma {:induction false} PastStays(ops: seq<Op>, at: nat, n: nat, u: User, g: nat, p: nat, taker: Option<nat>)
    requires g < at <= n < |ops| && Past(NowOf(ops, at, u), g, p, taker) && SameProcess(ops, at, n)
    ensures Past(NowOf(ops, n, u), g, p, taker)
  {
    if at < n {
      PastStays(ops, at, n - 1, u, g, p, taker);
      MemIsNow(ops, n - 1, u);
      NextPast(MemOf(ops, n, u), ops, n, u, g, p, taker);
    }
  }

  /** In the memory of the process that took it. */
  lemma PastInProcess(ops: seq<Op>, at: nat, n: nat, u: User, g: nat, p: nat)
    requires at <= n < |ops| && Takes(ops, at, u, g, p) && SameProcess(ops, at, n)
    ensures Past(NowOf(ops, n, u), g, p, Some(at))
  {
    TakesKnown(ops, at, u, g, p);
    PastStays(ops, at, n, u, g, p, Some(at));
  }

  /** Memory and file are past the key. */
  ghost predicate PastBoth(ops: seq<Op>, n: nat, u: User, g: nat, p: nat, taker: Option<nat>)
    requires n <= |ops|
  {
    Past(MemOf(ops, n, u), g, p, taker) && Past(FileOf(ops, n, u), g, p, taker)
  }

  lemma PastBothNext(ops: seq<Op>, n: nat, u: User, g: nat, p: nat, taker: Option<nat>)
    requires g < n < |ops| && PastBoth(ops, n, u, g, p, taker)
    ensures PastBoth(ops, n + 1, u, g, p, taker)
  {
    StepSlot(ops, n, u);
    NextPast(MemOf(ops, n, u), ops, n, u, g, p, taker);
  }

  lemma {:induction false} PastForever(ops: seq<Op>, m: nat, n: nat, u: User, g: nat, p: nat, taker: Option<nat>)
    requires g < m <= n <= |ops| && PastBoth(ops, m, u, g, p, taker)
    ensures PastBoth(ops, n, u, g, p, taker)
  {
    if m < n {
      PastForever(ops, m, n - 1, u, g, p, taker);
      PastBothNext(ops, n - 1, u, g, p, taker);
    }
  }

  /** A write by the process that took the key puts memory and file past it for good. */
  lemma PastOnceWritten(ops: seq<Op>, at: nat, m: nat, n: nat, u: User, g: nat, p: nat)
    requires at <= m < n <= |ops| && Takes(ops, at, u, g, p) && SameProcess(ops, at, m) && Writes(ops, m)
    ensures PastBoth(ops, n, u, g, p, Some(at))
  {
    TakesKnown(ops, at, u, g, p);
    PastInProcess(ops, at, m, u, g, p);
    StepSlot(ops, m, u);
    PastForever(ops, m + 1, n, u, g, p, Some(at));
  }

  // ---------- single use ----------

  /** The process that ran operation `at` died before operation `n`, and from `at` on never wrote
      the file. */
  ghost predicate DiedUnsaved(ops: seq<Op>, at: nat, n: nat)
    requires at < n <= |ops|
  {
    && !SameProcess(ops, at, n)
    && forall m :: at <= m < n && SameProcess(ops, at, m) ==> !Writes(ops, m)
  }

  lemma PastOrDied(ops: seq<Op>, at: nat, n: nat, u: User, g: nat, p: nat)
    requires at < n <= |ops| && Takes(ops, at, u, g, p)
    ensures Past(MemOf(ops, n, u), g, p, Some(at)) || DiedUnsaved(ops, at, n)
  {
    if SameProcess(ops, at, n) {
      PastInProcess(ops, at, n - 1, u, g, p);
      MemIsNow(ops, n - 1, u);
    } else if m :| at <= m < n && SameProcess(ops, at, m) && Writes(ops, m) {
      PastOnceWritten(ops, at, m, n, u, g, p);
    }
  }

  /** An operation that takes a key and is answered without having written the file got an error
      from its persist. */
  lemma UnwrittenAnswer(ops: seq<Op>, at: nat, u: User, g: nat, p: nat)
    requires Answered(ops, at, u, g, p) && !Writes(ops, at)
    ensures ops[at].end.SaveFailed?
  {
    AnswersAreResponses(ops, at, u);
  }

  /** Single use, with the process dying at any point: if two requests are answered with one key id
      of one registration, the first answer was given after its persist had failed, and the process
      that gave it died before any later persist succeeded. */
  lemma KeysAreSingleUse(ops: seq<Op>, i: nat, j: nat, u: User, w: User, g: nat, p: nat, q: nat)
    requires i < j && Answered(ops, i, u, g, p) && Answered(ops, j, w, g, q)
    requires p < |KeysOf(ops, g)| && q < |KeysOf(ops, g)| && KeysOf(ops, g)[p].id == KeysOf(ops, g)[q].id
    ensures ops[i].end.SaveFailed? && DiedUnsaved(ops, i, j)
  {
    TakesKnown(ops, i, u, g, p);
    TakesKnown(ops, j, w, g, q);
    assert DistinctIds(KeysOf(ops, g));
    PastOrDied(ops, i, j, u, g, p);
    assert SameProcess(ops, i, i);
    UnwrittenAnswer(ops, i, u, g, p);
  }

  // ---------- keys gone and keys left ----------

  /** The keys gone were taken one by one in list order, by operations that answered with them or
      died after the rename. */
  ghost predicate InOrder(s: Option<Slot>, u: User, ops: seq<Op>, n: nat) {
    s.Some? ==>
      && (forall k :: 0 <= k < |s.value.pops| ==>
            s.value.pops[k] < n && Takes(ops, s.value.pops[k], u, s.value.gen, k)
            && !ops[s.value.pops[k]].end.DiedBefore?)
      && forall k, l :: 0 <= k < l < |s.value.pops| ==> s.value.pops[k] < s.value.pops[l]
  }

  lemma NextInOrder(ops: seq<Op>, n: nat, u: User)
    requires n < |ops| && InOrder(MemOf(ops, n, u), u, ops, n)
    requires ops[n].Consumption? ==> !ops[n].end.DiedBefore?
    ensures InOrder(Next(MemOf(ops, n, u), ops, n, u), u, ops, n + 1)
  {
    var s := MemOf(ops, n, u);
    if TakesFrom(s, ops, n, u) {
      assert Takes(ops, n, u, s.value.gen, |s.value.pops|);
    }
  }

  lemma InOrderLater(s: Option<Slot>, u: User, ops: seq<Op>, n: nat)
    requires InOrder(s, u, ops, n)
    ensures InOrder(s, u, ops, n + 1)
  {
  }

  lemma {:induction false} PopsInOrder(ops: seq<Op>, n: nat, u: User)
    requires n <= |ops|
    ensures InOrder(MemOf(ops, n, u), u, ops, n)
    ensures InOrder(FileOf(ops, n, u), u, ops, n)
  {
    if n > 0 {
      PopsInOrder(ops, n - 1, u);
      InOrderLater(FileOf(ops, n - 1, u), u, ops, n - 1);
      StepSlot(ops, n - 1, u);
      if !ops[n - 1].Consumption? || !ops[n - 1].end.DiedBefore? {
        NextInOrder(ops, n - 1, u);
      }
    }
  }

  /** In every run the bundle of a user is the registration in force without its first keys, and
      these are gone in list order. */
  lemma ServedThenRemaining(ops: seq<Op>, n: nat, u: User, s: Slot)
    requires n <= |ops| && MemOf(ops, n, u) == Some(s)
    ensures Cur(ops, n, u) == Some(s.gen) && SlotOk(s, u, ops, n) && InOrder(Some(s), u, ops, n)
    ensures u in Run(ops, n).mem && Run(ops, n).mem[u] == Remaining(ops[s.gen].bundle, |s.pops|)
  {
    RunAgrees(ops, n, u);
    SlotsInForce(ops, n, u);
    PopsInOrder(ops, n, u);
  }

  /** Every answer from the registration in force is one of the keys gone, unless its persist failed
      and its process died before a later one succeeded. */
  lemma AnswersAreGone(ops: seq<Op>, at: nat, n: nat, u: User, s: Slot, p: nat)
    requires at < n <= |ops| && MemOf(ops, n, u) == Some(s) && Answered(ops, at, u, s.gen, p)
    ensures || (p < |s.pops| && s.pops[p] == at)
            || (ops[at].end.SaveFailed? && DiedUnsaved(ops, at, n))
  {
    PastOrDied(ops, at, n, u, s.gen, p);
    assert SameProcess(ops, at, at);
    if !Writes(ops, at) {
      UnwrittenAnswer(ops, at, u, s.gen, p);
    }
  }

  // ---------- exactly when a key can be answered with again ----------

  lemma RecordSame(h: Slots, ops: seq<Op>, more: seq<Op>, k: nat)
    requires k < |ops|
    requires ops[k].Consumption? && ops[k].user in h.mem ==> h.mem[ops[k].user].gen < k
    ensures Record(h, ops + more, k) == Record(h, ops, k)
  {
    assert (ops + more)[k] == ops[k];
    if ops[k].Consumption? && ops[k].user in h.mem {
      assert KeysOf(ops + more, h.mem[ops[k].user].gen) == KeysOf(ops, h.mem[ops[k].user].gen);
    }
  }

  /** What comes later does not change what was recorded. */
  lemma {:induction false} ReplayPrefix(ops: seq<Op>, more: seq<Op>, n: nat)
    requires n <= |ops|
    ensures Replay(ops + more, n) == Replay(ops, n)
  {
    if n > 0 {
      ReplayPrefix(ops, more, n - 1);
      if ops[n - 1].Consumption? {
        SlotKnown(ops, n - 1, ops[n - 1].user);
      }
      RecordSame(Replay(ops, n - 1), ops, more, n - 1);
    }
  }

  /** Registration `g` of `u` is in the slot, and key `p` is still to come. */
  predicate Ready(s: Option<Slot>, g: nat, p: nat) {
    s.Some? && s.value.gen == g && |s.value.pops| <= p
  }

  /** Requests that are all served take one key after the other. */
  lemma {:induction false} Drawn(ops: seq<Op>, m: nat, n: nat, u: User, g: nat, p: nat)
    requires m <= n <= |ops| && p < |KeysOf(ops, g)| && MemOf(ops, m, u).Some?
    requires MemOf(ops, m, u).value.gen == g && |MemOf(ops, m, u).value.pops| + (n - m) <= p
    requires forall k :: m <= k < n ==> ops[k] == Consumption(u, Saved)
    ensures var s := MemOf(ops, n, u);
            s.Some? && s.value.gen == g && |s.value.pops| == |MemOf(ops, m, u).value.pops| + (n - m)
  {
    if m < n {
      Drawn(ops, m, n - 1, u, g, p);
      StepSlot(ops, n - 1, u);
    }
  }

  lemma DrawnLast(ops: seq<Op>, m: nat, u: User, g: nat, p: nat, s: Slot)
    requires m <= |ops| && MemOf(ops, m, u) == Some(s) && Ready(Some(s), g, p) && p < |KeysOf(ops, g)|
    requires |ops| == m + p - |s.pops| + 1 && forall k :: m <= k < |ops| ==> ops[k] == Consumption(u, Saved)
    ensures Answered(ops, |ops| - 1, u, g, p)
  {
    Drawn(ops, m, |ops| - 1, u, g, p);
  }

  ghost predicate AnsweredIn(ops: seq<Op>, more: seq<Op>, u: User, g: nat, p: nat) {
    exists at :: |ops| <= at < |ops| + |more| && Answered(ops + more, at, u, g, p)
  }

  lemma AnswerFromMemory(ops: seq<Op>, u: User, g: nat, p: nat) returns (more: seq<Op>)
    requires Ready(MemOf(ops, |ops|, u), g, p) && p < |KeysOf(ops, g)|
    ensures AnsweredIn(ops, more, u, g, p)
  {
    var s := MemOf(ops, |ops|, u).value;
    more := seq(p - |s.pops| + 1, _ => Consumption(u, Saved));
    ReplayPrefix(ops, more, |ops|);
    DrawnLast(ops + more, |ops|, u, g, p, s);
  }

  lemma AnswerFromFile(ops: seq<Op>, u: User, g: nat, p: nat) returns (more: seq<Op>)
    requires Ready(FileOf(ops, |ops|, u), g, p) && p < |KeysOf(ops, g)|
    ensures AnsweredIn(ops, more, u, g, p)
  {
    var s := FileOf(ops, |ops|, u).value;
    more := [Restart] + seq(p - |s.pops| + 1, _ => Consumption(u, Saved));
    ReplayPrefix(ops, more, |ops|);
    StepSlot(ops + more, |ops|, u);
    DrawnLast(ops + more, |ops| + 1, u, g, p, s);
  }

  lemma NeverAnswered(ops: seq<Op>, more: seq<Op>, u: User, g: nat, p: nat)
    requires g < |ops| && !Ready(MemOf(ops, |ops|, u), g, p) && !Ready(FileOf(ops, |ops|, u), g, p)
    ensures !AnsweredIn(ops, more, u, g, p)
  {
    ReplayPrefix(ops, more, |ops|);
    forall at | |ops| <= at < |ops| + |more| ensures !Answered(ops + more, at, u, g, p) {
      PastForever(ops + more, |ops|, at, u, g, p, None);
    }
  }

  /** After every run, a key can be handed out in some continuation exactly when memory or file has
      the slot of its registration with that key still to come. */
  lemma AnswerableExactly(ops: seq<Op>, u: User, g: nat, p: nat)
    requires g < |ops| && p < |KeysOf(ops, g)|
    ensures (exists more :: AnsweredIn(ops, more, u, g, p))
       <==> Ready(MemOf(ops, |ops|, u), g, p) || Ready(FileOf(ops, |ops|, u), g, p)
  {
    if Ready(MemOf(ops, |ops|, u), g, p) {
      var more := AnswerFromMemory(ops, u, g, p);
    } else if Ready(FileOf(ops, |ops|, u), g, p) {
      var more := AnswerFromFile(ops, u, g, p);
    } else {
      forall more ensures !AnsweredIn(ops, more, u, g, p) {
        NeverAnswered(ops, more, u, g, p);
      }
    }
  }

  lemma GoneFromMemory(ops: seq<Op>, at: nat, u: User, g: nat, p: nat)
    requires Takes(ops, at, u, g, p) && SameProcess(ops, at, |ops|)
    ensures !Ready(MemOf(ops, |ops|, u), g, p)
  {
    PastInProcess(ops, at, |ops| - 1, u, g, p);
    MemIsNow(ops, |ops| - 1, u);
  }

  lemma ReadyMeansUnwritten(ops: seq<Op>, at: nat, m: nat, u: User, g: nat, p: nat)
    requires Takes(ops, at, u, g, p) && SameProcess(ops, at, |ops|) && at <= m < |ops|
    requires Ready(FileOf(ops, |ops|, u), g, p)
    ensures !Writes(ops, m)
  {
    if Writes(ops, m) {
      PastOnceWritten(ops, at, m, |ops|, u, g, p);
    }
  }

  /** A key that the running process has answered with can be answered with again exactly when the
      file still has it to come, and then no persist has succeeded since. */
  lemma AnsweredAgainExactly(ops: seq<Op>, at: nat, u: User, g: nat, p: nat)
    requires Answered(ops, at, u, g, p) && SameProcess(ops, at, |ops|)
    ensures (exists more :: AnsweredIn(ops, more, u, g, p)) <==> Ready(FileOf(ops, |ops|, u), g, p)
    ensures Ready(FileOf(ops, |ops|, u), g, p) ==>
              forall m :: at <= m < |ops| ==> !Writes(ops, m)
  {
    TakesKnown(ops, at, u, g, p);
    GoneFromMemory(ops, at, u, g, p);
    AnswerableExactly(ops, u, g, p);
    if Ready(FileOf(ops, |ops|, u), g, p) {
      forall m | at <= m < |ops| ensures !Writes(ops, m) {
        ReadyMeansUnwritten(ops, at, m, u, g, p);
      }
    }
  }
}
