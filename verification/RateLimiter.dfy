/** The limiter object. Each key owns a slice, a length-`len` prefix of a backing array, and
    `Allow` filters that slice in place. Router.allow and authLimiter.allow are the same
    algorithm with other budgets. */
module RateLimiter {
  import opened SlidingWindow

  datatype Slice = Slice(backing: array<Time>, len: nat)

  /** The loop over `kept := xs[:0]`: reads at `i`, writes at `kept`, in one array. */
  method Compact(a: array<Time>, len: nat, cutoff: Time) returns (kept: nat)
    requires len <= a.Length
    modifies a
    ensures kept <= len
    ensures a[..kept] == Keep(old(a[..len]), cutoff)
    ensures a[len..] == old(a[len..])
  {
    ghost var xs := a[..len];
    kept := 0;
    for i := 0 to len
      invariant kept <= i
      invariant a[..kept] == KeepTo(xs, cutoff, i)
      invariant a[i..] == old(a[i..])
    {
      var t := a[i];
      assert t == a[i..][0] == xs[i];
      assert a[i + 1..] == a[i..][1..] && old(a[i + 1..]) == old(a[i..])[1..];
      ghost var prefix := a[..kept];
      if t > cutoff {
        a[kept] := t;
        kept := kept + 1;
        assert a[..kept] == prefix + [t];
      }
    }
  }

  /** Go's append: in place while there is capacity, otherwise into a fresh array. */
  method Append(s: Slice, t: Time) returns (r: Slice)
    requires s.len <= s.backing.Length
    modifies s.backing
    ensures r.len == s.len + 1 <= r.backing.Length
    ensures r.backing == s.backing || fresh(r.backing)
    ensures r.backing[..r.len] == old(s.backing[..s.len]) + [t]
  {
    if s.len < s.backing.Length {
      s.backing[s.len] := t;
      r := Slice(s.backing, s.len + 1);
    } else {
      var grown := new Time[2 * s.len + 1];
      forall i | 0 <= i < s.len {
        grown[i] := s.backing[i];
      }
      grown[s.len] := t;
      r := Slice(grown, s.len + 1);
    }
  }

  /** Prune one slice in place, then record the call if the budget allows it. */
  method AllowSlice(perMin: nat, xs: Slice, now: Time) returns (ys: Slice, admitted: bool)
    requires xs.len <= xs.backing.Length && xs.len <= perMin
    modifies xs.backing
    ensures ys.len <= ys.backing.Length && ys.len <= perMin
    ensures ys.backing == xs.backing || fresh(ys.backing)
    ensures Verdict(ys.backing[..ys.len], admitted)
         == SlidingWindow.Allow(perMin, old(xs.backing[..xs.len]), now)
  {
    var kept := Compact(xs.backing, xs.len, now - MINUTE);
    if kept >= perMin {
      return Slice(xs.backing, kept), false;
    }
    ys := Append(Slice(xs.backing, kept), now);
    admitted := true;
  }

  class Limiter {
    const perMin: nat
    var attempts: map<string, Slice>

    ghost function Backings(): set<array<Time>>
      reads this
    {
      set k | k in attempts :: attempts[k].backing
    }

    /** Slices fit their arrays and the budget, and no two keys share an array. */
    ghost predicate Valid()
      reads this
    {
      && (forall k :: k in attempts ==> attempts[k].len <= attempts[k].backing.Length)
      && (forall k :: k in attempts ==> attempts[k].len <= perMin)
      && (forall j, k :: j in attempts && k in attempts && j != k
            ==> attempts[j].backing != attempts[k].backing)
    }

    ghost function View(k: string): seq<Time>
      reads this, Backings()
      requires Valid()
    {
      if k in attempts then attempts[k].backing[..attempts[k].len] else []
    }

    constructor (perMin: nat)
      ensures Valid() && this.perMin == perMin && attempts == map[]
      ensures forall k :: View(k) == []
    {
      this.perMin := perMin;
      attempts := map[];
    }

    method Allow(key: string, now: Time) returns (admitted: bool)
      requires Valid()
      modifies this`attempts, if key in attempts then {attempts[key].backing} else {}
      ensures Valid()
      ensures View(key) == SlidingWindow.Allow(perMin, old(View(key)), now).stored
      ensures admitted == SlidingWindow.Allow(perMin, old(View(key)), now).admitted
      ensures attempts.Keys == old(attempts.Keys) + {key}
      ensures forall k :: k != key ==> View(k) == old(View(k))
    {
      var xs: Slice;
      if key in attempts {
        xs := attempts[key];
      } else {
        var empty := new Time[0];
        xs := Slice(empty, 0);
      }
      var ys;
      ys, admitted := AllowSlice(perMin, xs, now);
      attempts := attempts[key := ys];
    }
  }
}
