/** What the sliding-window limiters compute, as functions of the clock readings they see.
    Readings are in nanoseconds and are listed in lock order, which need not be clock order. */
module SlidingWindow {
  type Time = int

  const MINUTE: Time := 60_000_000_000

  function KeepTo(xs: seq<Time>, cutoff: Time, n: nat): seq<Time>
    requires n <= |xs|
  {
    if n == 0 then []
    else if xs[n - 1] > cutoff then KeepTo(xs, cutoff, n - 1) + [xs[n - 1]]
    else KeepTo(xs, cutoff, n - 1)
  }

  /** The timestamps strictly after `cutoff`, in order. */
  function Keep(xs: seq<Time>, cutoff: Time): seq<Time> {
    KeepTo(xs, cutoff, |xs|)
  }

  datatype Verdict = Verdict(stored: seq<Time>, admitted: bool)

  /** One call: prune, compare with the budget, record the call if it is admitted. */
  function Allow(perMin: nat, xs: seq<Time>, now: Time): Verdict {
    var kept := Keep(xs, now - MINUTE);
    if |kept| >= perMin then Verdict(kept, false) else Verdict(kept + [now], true)
  }

  /** The pruned list the limiter holds for a key after the first `n` of the calls `ts`. */
  function Stored(perMin: nat, ts: seq<Time>, n: nat): seq<Time>
    requires n <= |ts|
  {
    if n == 0 then [] else Allow(perMin, Stored(perMin, ts, n - 1), ts[n - 1]).stored
  }

  /** Whether call `i` is admitted. */
  predicate Admitted(perMin: nat, ts: seq<Time>, i: nat)
    requires i < |ts|
  {
    Allow(perMin, Stored(perMin, ts, i), ts[i]).admitted
  }

  /** Every admission among the first `n` calls, in lock order; nothing is pruned. */
  function History(perMin: nat, ts: seq<Time>, n: nat): seq<Time>
    requires n <= |ts|
  {
    if n == 0 then []
    else if Admitted(perMin, ts, n - 1) then History(perMin, ts, n - 1) + [ts[n - 1]]
    else History(perMin, ts, n - 1)
  }

  function CountTo(xs: seq<Time>, lo: Time, hi: Time, n: nat): nat
    requires n <= |xs|
  {
    if n == 0 then 0 else CountTo(xs, lo, hi, n - 1) + if lo <= xs[n - 1] < hi then 1 else 0
  }

  /** Entries with lo <= t < hi. */
  function CountIn(xs: seq<Time>, lo: Time, hi: Time): nat {
    CountTo(xs, lo, hi, |xs|)
  }

  /** No reading is more than `skew` behind an earlier one; skew 0 is a nondecreasing clock. */
  ghost predicate SkewAtMost(ts: seq<Time>, skew: nat) {
    forall i, j :: 0 <= i < j < |ts| ==> ts[i] - skew <= ts[j]
  }

  // ---------- facts about Keep and CountIn ----------

  lemma {:induction false} KeepToPrefix(xs: seq<Time>, t: Time, c: Time, n: nat)
    requires n <= |xs|
    ensures KeepTo(xs + [t], c, n) == KeepTo(xs, c, n)
  {
    if n > 0 {
      KeepToPrefix(xs, t, c, n - 1);
    }
  }

  lemma KeepAppend(xs: seq<Time>, t: Time, c: Time)
    ensures Keep(xs + [t], c) == if t > c then Keep(xs, c) + [t] else Keep(xs, c)
  {
    KeepToPrefix(xs, t, c, |xs|);
  }

  lemma {:induction false} KeepTwiceTo(xs: seq<Time>, a: Time, b: Time, n: nat)
    requires n <= |xs|
    ensures Keep(KeepTo(xs, a, n), b) == KeepTo(xs, if a <= b then b else a, n)
  {
    if n > 0 {
      KeepTwiceTo(xs, a, b, n - 1);
      KeepAppend(KeepTo(xs, a, n - 1), xs[n - 1], b);
    }
  }

  /** Pruning twice is pruning at the later cutoff. */
  lemma KeepTwice(xs: seq<Time>, a: Time, b: Time)
    ensures Keep(Keep(xs, a), b) == Keep(xs, if a <= b then b else a)
  {
    KeepTwiceTo(xs, a, b, |xs|);
  }

  lemma {:induction false} KeepSelects(xs: seq<Time>, c: Time, n: nat)
    requires n <= |xs|
    ensures |KeepTo(xs, c, n)| <= n
    ensures forall t :: t in KeepTo(xs, c, n) ==> t in xs && t > c
  {
    if n > 0 {
      KeepSelects(xs, c, n - 1);
    }
  }

  lemma {:induction false} KeepAll(xs: seq<Time>, c: Time, n: nat)
    requires n <= |xs| && forall i :: 0 <= i < |xs| ==> xs[i] > c
    ensures KeepTo(xs, c, n) == xs[..n]
  {
    if n > 0 {
      KeepAll(xs, c, n - 1);
    }
  }

  lemma {:induction false} KeepMonotone(xs: seq<Time>, a: Time, b: Time, n: nat)
    requires n <= |xs| && a <= b
    ensures |KeepTo(xs, b, n)| <= |KeepTo(xs, a, n)|
  {
    if n > 0 {
      KeepMonotone(xs, a, b, n - 1);
    }
  }

  lemma {:induction false} WindowWithinKeep(xs: seq<Time>, lo: Time, hi: Time, n: nat)
    requires n <= |xs|
    ensures CountTo(xs, lo, hi, n) <= |KeepTo(xs, lo - 1, n)|
  {
    if n > 0 {
      WindowWithinKeep(xs, lo, hi, n - 1);
    }
  }

  lemma {:induction false} CountToPrefix(xs: seq<Time>, t: Time, lo: Time, hi: Time, n: nat)
    requires n <= |xs|
    ensures CountTo(xs + [t], lo, hi, n) == CountTo(xs, lo, hi, n)
  {
    if n > 0 {
      CountToPrefix(xs, t, lo, hi, n - 1);
    }
  }

  lemma CountAppend(xs: seq<Time>, t: Time, lo: Time, hi: Time)
    ensures CountIn(xs + [t], lo, hi) == CountIn(xs, lo, hi) + if lo <= t < hi then 1 else 0
  {
    CountToPrefix(xs, t, lo, hi, |xs|);
  }

  // ---------- the stored list against the full history ----------

  /** The stored list never outgrows the budget, whatever the clock does. */
  lemma {:induction false} StoredWithinBudget(perMin: nat, ts: seq<Time>, n: nat)
    requires n <= |ts|
    ensures |Stored(perMin, ts, n)| <= perMin
  {
    if n > 0 {
      StoredWithinBudget(perMin, ts, n - 1);
      KeepSelects(Stored(perMin, ts, n - 1), ts[n - 1] - MINUTE, |Stored(perMin, ts, n - 1)|);
    }
  }

  lemma CallKeepsAgreement(perMin: nat, xs: seq<Time>, all: seq<Time>, now: Time, c: Time)
    requires now - MINUTE <= c && Keep(xs, c) == Keep(all, c)
    ensures var v := Allow(perMin, xs, now);
            Keep(v.stored, c) == Keep(if v.admitted then all + [now] else all, c)
  {
    KeepTwice(xs, now - MINUTE, c);
    KeepAppend(Keep(xs, now - MINUTE), now, c);
    KeepAppend(all, now, c);
  }

  /** Above any cutoff that no earlier call pruned past, the stored list and the full
      history hold the same timestamps. */
  lemma {:induction false} PrunedListEqualsHistory(perMin: nat, ts: seq<Time>, n: nat, c: Time)
    requires n <= |ts|
    requires forall i :: 0 <= i < n ==> ts[i] - MINUTE <= c
    ensures Keep(Stored(perMin, ts, n), c) == Keep(History(perMin, ts, n), c)
  {
    if n > 0 {
      PrunedListEqualsHistory(perMin, ts, n - 1, c);
      CallKeepsAgreement(perMin, Stored(perMin, ts, n - 1), History(perMin, ts, n - 1), ts[n - 1], c);
    }
  }

  /** Under a nondecreasing clock the pruned limiter decides every call exactly as one that
      counts all admissions of the last minute in the full history. */
  lemma DecidesAsFullHistory(perMin: nat, ts: seq<Time>, i: nat)
    requires i < |ts| && SkewAtMost(ts, 0)
    ensures Admitted(perMin, ts, i)
       <==> |Keep(History(perMin, ts, i), ts[i] - MINUTE)| < perMin
  {
    PrunedListEqualsHistory(perMin, ts, i, ts[i] - MINUTE);
  }

  lemma CallKeepsBelow(perMin: nat, xs: seq<Time>, all: seq<Time>, now: Time, c: Time)
    requires |Keep(xs, c)| <= |Keep(all, c)|
    ensures var v := Allow(perMin, xs, now);
            |Keep(v.stored, c)| <= |Keep(if v.admitted then all + [now] else all, c)|
  {
    var cutoff := now - MINUTE;
    KeepTwice(xs, cutoff, c);
    if c < cutoff {
      KeepMonotone(xs, c, cutoff, |xs|);
    }
    KeepAppend(Keep(xs, cutoff), now, c);
    KeepAppend(all, now, c);
  }

  lemma {:induction false} StoredBelowHistory(perMin: nat, ts: seq<Time>, n: nat, c: Time)
    requires n <= |ts|
    ensures |Keep(Stored(perMin, ts, n), c)| <= |Keep(History(perMin, ts, n), c)|
  {
    if n > 0 {
      StoredBelowHistory(perMin, ts, n - 1, c);
      CallKeepsBelow(perMin, Stored(perMin, ts, n - 1), History(perMin, ts, n - 1), ts[n - 1], c);
    }
  }

  lemma {:induction false} StoredAreAdmissions(perMin: nat, ts: seq<Time>, n: nat)
    requires n <= |ts|
    ensures forall t :: t in Stored(perMin, ts, n) ==> t in History(perMin, ts, n)
  {
    if n > 0 {
      StoredAreAdmissions(perMin, ts, n - 1);
      KeepSelects(Stored(perMin, ts, n - 1), ts[n - 1] - MINUTE, |Stored(perMin, ts, n - 1)|);
    }
  }

  /** With no assumption on the clock, every refusal is justified: exactly `perMin` stored
      timestamps, all of them recorded admissions, are newer than one minute ago. */
  lemma RefusalIsJustified(perMin: nat, ts: seq<Time>, i: nat)
    requires i < |ts| && !Admitted(perMin, ts, i)
    ensures var recent := Keep(Stored(perMin, ts, i), ts[i] - MINUTE);
            && |recent| == perMin
            && (forall t :: t in recent ==> t in History(perMin, ts, i) && t > ts[i] - MINUTE)
    ensures |Keep(History(perMin, ts, i), ts[i] - MINUTE)| >= perMin
  {
    KeepSelects(Stored(perMin, ts, i), ts[i] - MINUTE, |Stored(perMin, ts, i)|);
    StoredWithinBudget(perMin, ts, i);
    StoredAreAdmissions(perMin, ts, i);
    StoredBelowHistory(perMin, ts, i, ts[i] - MINUTE);
  }

  // ---------- the rate theorem ----------

  /** Everything admitted earlier in the window of call `i` is still stored at call `i`, so an
      admission finds fewer than `perMin` of them. */
  lemma AdmissionFindsRoom(perMin: nat, ts: seq<Time>, i: nat, skew: nat, lo: Time)
    requires i < |ts| && SkewAtMost(ts, skew)
    requires lo <= ts[i] < lo + MINUTE - skew
    requires Admitted(perMin, ts, i)
    ensures CountIn(History(perMin, ts, i), lo, lo + MINUTE - skew) < perMin
  {
    PrunedListEqualsHistory(perMin, ts, i, lo - 1);
    WindowWithinKeep(History(perMin, ts, i), lo, lo + MINUTE - skew, |History(perMin, ts, i)|);
    KeepMonotone(Stored(perMin, ts, i), ts[i] - MINUTE, lo - 1, |Stored(perMin, ts, i)|);
  }

  /** If readings go back by at most `skew`, any window of length one minute minus `skew`
      holds at most `perMin` admissions. */
  lemma {:induction false} RateBound(perMin: nat, ts: seq<Time>, n: nat, skew: nat, lo: Time)
    requires n <= |ts| && SkewAtMost(ts, skew)
    ensures CountIn(History(perMin, ts, n), lo, lo + MINUTE - skew) <= perMin
  {
    if n > 0 {
      var hi := lo + MINUTE - skew;
      RateBound(perMin, ts, n - 1, skew, lo);
      if Admitted(perMin, ts, n - 1) {
        CountAppend(History(perMin, ts, n - 1), ts[n - 1], lo, hi);
        if lo <= ts[n - 1] < hi {
          AdmissionFindsRoom(perMin, ts, n - 1, skew, lo);
        }
      }
    }
  }

  /** A list of zeros, as Keep and CountIn see it. */
  lemma {:induction false} Zeros(xs: seq<Time>, hi: Time, n: nat)
    requires forall i :: 0 <= i < |xs| ==> xs[i] == 0
    requires hi > 0 && n <= |xs|
    ensures KeepTo(xs, -MINUTE, n) == xs[..n] && KeepTo(xs, 0, n) == [] && CountTo(xs, 0, hi, n) == n
  {
    if n > 0 {
      Zeros(xs, hi, n - 1);
    }
  }

  lemma {:induction false} BurstIsAdmitted(perMin: nat, ts: seq<Time>, n: nat)
    requires n <= perMin && n <= |ts|
    requires forall i :: 0 <= i < n ==> ts[i] == 0
    ensures Stored(perMin, ts, n) == ts[..n] == History(perMin, ts, n)
  {
    if n > 0 {
      BurstIsAdmitted(perMin, ts, n - 1);
      Zeros(ts[..n - 1], 1, n - 1);
      assert ts[..n] == ts[..n - 1] + [0];
      assert Allow(perMin, ts[..n - 1], 0) == Verdict(ts[..n], true);
    }
  }

  /** A call a minute after the burst empties the list; the clock may then step back. */
  lemma AfterTheBurst(perMin: nat, ts: seq<Time>, end: Time)
    requires perMin >= 2 && 0 <= end <= MINUTE && |ts| == perMin + 2
    requires ts[perMin] == MINUTE && ts[perMin + 1] == end && forall i :: 0 <= i < perMin ==> ts[i] == 0
    ensures History(perMin, ts, perMin + 2) == ts[..perMin] + [MINUTE] + [end]
  {
    BurstIsAdmitted(perMin, ts, perMin);
    Zeros(ts[..perMin], 1, perMin);
    assert Allow(perMin, ts[..perMin], MINUTE) == Verdict([MINUTE], true);
    assert History(perMin, ts, perMin + 1) == ts[..perMin] + [MINUTE];
    assert Keep([MINUTE], end - MINUTE) == [MINUTE] by {
      assert KeepTo([MINUTE], end - MINUTE, 0) == [];
    }
    assert Allow(perMin, [MINUTE], end).admitted;
  }

  /** The bound is the best possible: for every skew up to a minute and every budget of at
      least two, some readings within that skew exceed the budget in a window one nanosecond
      longer. */
  lemma RateBoundIsTight(perMin: nat, skew: nat) returns (ts: seq<Time>)
    requires perMin >= 2 && skew <= MINUTE
    ensures SkewAtMost(ts, skew)
    ensures CountIn(History(perMin, ts, |ts|), 0, MINUTE - skew + 1) > perMin
  {
    var burst := seq(perMin, _ => 0);
    var end, hi := MINUTE - skew, MINUTE - skew + 1;
    ts := burst + [MINUTE, end];
    assert ts[..perMin] == burst;
    AfterTheBurst(perMin, ts, end);
    Zeros(burst, hi, perMin);
    CountAppend(burst, MINUTE, 0, hi);
    CountAppend(burst + [MINUTE], end, 0, hi);
  }

  lemma {:induction false} CountMonotone(xs: seq<Time>, lo: Time, hi: Time, hi': Time, n: nat)
    requires n <= |xs| && hi <= hi'
    ensures CountTo(xs, lo, hi, n) <= CountTo(xs, lo, hi', n)
  {
    if n > 0 {
      CountMonotone(xs, lo, hi, hi', n - 1);
    }
  }

  lemma {:induction false} CountNone(xs: seq<Time>, lo: Time, hi: Time, n: nat)
    requires n <= |xs| && forall i :: 0 <= i < n ==> xs[i] < lo
    ensures CountTo(xs, lo, hi, n) == 0
  {
    if n > 0 {
      CountNone(xs, lo, hi, n - 1);
    }
  }

  ghost predicate Spaced(xs: seq<Time>) {
    forall i, j :: 0 <= i < j < |xs| ==> xs[i] + MINUTE <= xs[j]
  }

  lemma {:induction false} SpacedCount(xs: seq<Time>, lo: Time, n: nat)
    requires n <= |xs| && Spaced(xs)
    ensures CountTo(xs, lo, lo + MINUTE, n) <= 1
  {
    if n > 0 {
      SpacedCount(xs, lo, n - 1);
      if xs[n - 1] < lo + MINUTE {
        CountNone(xs, lo, lo + MINUTE, n - 1);
      }
    }
  }

  function LastOnly(xs: seq<Time>): seq<Time> {
    if xs == [] then [] else [xs[|xs| - 1]]
  }

  lemma CallKeepsSpacing(all: seq<Time>, now: Time)
    requires Spaced(all)
    ensures var v := Allow(1, LastOnly(all), now);
            var after := if v.admitted then all + [now] else all;
            Spaced(after) && v.stored == LastOnly(after)
  {
    var xs := LastOnly(all);
    if all != [] {
      assert KeepTo(xs, now - MINUTE, 0) == [];
      assert Keep(xs, now - MINUTE) == if xs[0] > now - MINUTE then xs else [];
    }
  }

  /** With a budget of one, the list is the last admission, so admissions are a minute apart. */
  lemma {:induction false} BudgetOfOne(ts: seq<Time>, n: nat)
    requires n <= |ts|
    ensures Spaced(History(1, ts, n)) && Stored(1, ts, n) == LastOnly(History(1, ts, n))
  {
    if n > 0 {
      BudgetOfOne(ts, n - 1);
      CallKeepsSpacing(History(1, ts, n - 1), ts[n - 1]);
    }
  }

  lemma {:induction false} NothingAdmitted(ts: seq<Time>, n: nat)
    requires n <= |ts|
    ensures History(0, ts, n) == []
  {
    if n > 0 {
      NothingAdmitted(ts, n - 1);
    }
  }

  /** Admissions in the full minute that starts at `lo`. */
  function InMinute(perMin: nat, ts: seq<Time>, lo: Time): nat {
    CountIn(History(perMin, ts, |ts|), lo, lo + MINUTE)
  }

  /** Every window of a full minute stays within the budget, for all readings with that skew. */
  ghost predicate HoldsPerMinute(perMin: nat, skew: nat) {
    forall ts, lo :: SkewAtMost(ts, skew) ==> InMinute(perMin, ts, lo) <= perMin
  }

  lemma SteadyOrSmall(perMin: nat, ts: seq<Time>, skew: nat, lo: Time)
    requires SkewAtMost(ts, skew) && (skew == 0 || perMin <= 1)
    ensures InMinute(perMin, ts, lo) <= perMin
  {
    if perMin == 0 {
      NothingAdmitted(ts, |ts|);
    } else if perMin == 1 {
      BudgetOfOne(ts, |ts|);
      SpacedCount(History(1, ts, |ts|), lo, |History(1, ts, |ts|)|);
    } else {
      RateBound(perMin, ts, |ts|, 0, lo);
    }
  }

  /** The promised bound per full minute holds exactly when the clock never steps back or the
      budget is at most one. */
  lemma FullMinuteExactly(perMin: nat, skew: nat)
    ensures HoldsPerMinute(perMin, skew) <==> skew == 0 || perMin <= 1
  {
    if skew > 0 && perMin >= 2 {
      var back := if skew < MINUTE then skew else MINUTE;
      var ts := RateBoundIsTight(perMin, back);
      var h := History(perMin, ts, |ts|);
      CountMonotone(h, 0, MINUTE - back + 1, MINUTE, |h|);
      assert SkewAtMost(ts, skew) && InMinute(perMin, ts, 0) > perMin;
    } else {
      forall ts, lo | SkewAtMost(ts, skew)
        ensures InMinute(perMin, ts, lo) <= perMin
      {
        SteadyOrSmall(perMin, ts, skew, lo);
      }
    }
  }

  // ---------- one more call ----------

  lemma {:induction false} SameStored(perMin: nat, ts: seq<Time>, us: seq<Time>, n: nat)
    requires n <= |ts| && n <= |us| && forall i :: 0 <= i < n ==> ts[i] == us[i]
    ensures Stored(perMin, ts, n) == Stored(perMin, us, n)
  {
    if n > 0 {
      SameStored(perMin, ts, us, n - 1);
    }
  }

  lemma {:induction false} SameHistory(perMin: nat, ts: seq<Time>, us: seq<Time>, n: nat)
    requires n <= |ts| && n <= |us| && forall i :: 0 <= i < n ==> ts[i] == us[i]
    ensures History(perMin, ts, n) == History(perMin, us, n)
  {
    if n > 0 {
      SameHistory(perMin, ts, us, n - 1);
      SameStored(perMin, ts, us, n - 1);
      assert Admitted(perMin, ts, n - 1) <==> Admitted(perMin, us, n - 1);
    }
  }

  /** Appending a reading appends one call to the stored list and to the history. */
  lemma OneMoreCall(perMin: nat, ts: seq<Time>, now: Time)
    ensures var v := Allow(perMin, Stored(perMin, ts, |ts|), now);
            && Stored(perMin, ts + [now], |ts| + 1) == v.stored
            && History(perMin, ts + [now], |ts| + 1)
               == if v.admitted then History(perMin, ts, |ts|) + [now] else History(perMin, ts, |ts|)
  {
    SameStored(perMin, ts, ts + [now], |ts|);
    SameHistory(perMin, ts, ts + [now], |ts|);
  }

  // ---------- many keys ----------

  datatype Call = Call(key: string, now: Time)

  function Lookup(m: map<string, seq<Time>>, k: string): seq<Time> {
    if k in m then m[k] else []
  }

  function OnCall(perMin: nat, m: map<string, seq<Time>>, c: Call): map<string, seq<Time>> {
    m[c.key := Allow(perMin, Lookup(m, c.key), c.now).stored]
  }

  /** The whole attempts map after the first `n` calls on an empty limiter. */
  function AttemptsAfter(perMin: nat, calls: seq<Call>, n: nat): map<string, seq<Time>>
    requires n <= |calls|
  {
    if n == 0 then map[] else OnCall(perMin, AttemptsAfter(perMin, calls, n - 1), calls[n - 1])
  }

  /** The readings of the calls on one key, among the first `n`. */
  function ReadingsOf(calls: seq<Call>, k: string, n: nat): seq<Time>
    requires n <= |calls|
  {
    if n == 0 then []
    else if calls[n - 1].key == k then ReadingsOf(calls, k, n - 1) + [calls[n - 1].now]
    else ReadingsOf(calls, k, n - 1)
  }

  /** The list of `k` is what its own calls alone would have stored. */
  ghost predicate Alone(perMin: nat, m: map<string, seq<Time>>, k: string, ts: seq<Time>) {
    Lookup(m, k) == Stored(perMin, ts, |ts|)
  }

  lemma OnCallAlone(perMin: nat, m: map<string, seq<Time>>, c: Call, k: string, ts: seq<Time>)
    requires Alone(perMin, m, k, ts)
    ensures Alone(perMin, OnCall(perMin, m, c), k, if c.key == k then ts + [c.now] else ts)
  {
    if c.key == k {
      OneMoreCall(perMin, ts, c.now);
    }
  }

  /** A key's list, hence every later decision on it, depends on that key's calls alone. */
  lemma {:induction false} KeysAreIndependent(perMin: nat, calls: seq<Call>, k: string, n: nat)
    requires n <= |calls|
    ensures Alone(perMin, AttemptsAfter(perMin, calls, n), k, ReadingsOf(calls, k, n))
  {
    if n > 0 {
      KeysAreIndependent(perMin, calls, k, n - 1);
      OnCallAlone(perMin, AttemptsAfter(perMin, calls, n - 1), calls[n - 1], k, ReadingsOf(calls, k, n - 1));
    }
  }
}
