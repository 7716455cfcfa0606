/** GET /prekeys/{id} over whole runs. A request first passes the limiter on its target and later
    fetches the bundle; other requests, registrations and restarts may come in between. */
module PrekeyDrain {
  import opened Envelopes
  import opened SlidingWindow
  import opened Prekeys

  const FETCHES_PER_MIN: nat := 10

  datatype Fetching = Waiting | Done(at: Time, took: bool)

  /** A request for `target` that read the clock at `now`. */
  datatype Ticket = Ticket(target: User, now: Time, admitted: bool, fetching: Fetching)

  /** `tickets` are the requests of the running process, `past` those of each earlier one. */
  datatype Relay = Relay(
    attempts: map<string, seq<Time>>, vault: Vault, tickets: seq<Ticket>, past: seq<seq<Ticket>>)

  /** A relay that has just started on a vault. */
  function Started(vault: Vault): Relay {
    Relay(map[], vault, [], [])
  }

  datatype Event =
    | Admit(target: User, now: Time)
    | Fetch(ticket: nat, at: Time, persists: bool)
    | Register(user: User, bundle: Bundle, saved: bool)
    | Restart

  /** Empty ids and ids with a path separator never reach the limiter or the store. */
  predicate Served(target: User) {
    target != "" && '/' !in target && '?' !in target && '#' !in target
  }

  predicate Admits(s: Relay, target: User, now: Time) {
    Allow(FETCHES_PER_MIN, Lookup(s.attempts, target), now).admitted
  }

  predicate Pending(s: Relay, e: Event) {
    e.Fetch? && e.ticket < |s.tickets| && s.tickets[e.ticket].fetching.Waiting?
  }

  /** Whether the store hands out a key. */
  predicate Takes(s: Relay, e: Event)
    requires Pending(s, e)
  {
    s.tickets[e.ticket].admitted && HasKey(s.vault, s.tickets[e.ticket].target)
  }

  /** A restart empties the limiter, reloads the vault and ends the requests under way. */
  ghost function Step(s: Relay, e: Event): Relay {
    match e
    case Admit(target, now) =>
      if !Served(target) then s else
      s.(attempts := OnCall(FETCHES_PER_MIN, s.attempts, Call(target, now)),
         tickets := s.tickets + [Ticket(target, now, Admits(s, target, now), Waiting)])
    case Fetch(k, at, persists) =>
      if !Pending(s, e) then s else
      var t := s.tickets[k];
      s.(vault := if t.admitted then Pop(s.vault, t.target, persists) else s.vault,
         tickets := s.tickets[k := t.(fetching := Done(at, Takes(s, e)))])
    case Register(user, b, saved) => s.(vault := Publish(s.vault, user, b, saved))
    case Restart => Relay(map[], Vault(s.vault.disk, s.vault.disk), [], s.past + [s.tickets])
  }

  ghost function Run(s: Relay, es: seq<Event>, n: nat): Relay
    requires n <= |es|
  {
    if n == 0 then s else Step(Run(s, es, n - 1), es[n - 1])
  }

  // ---------- what the tickets say ----------

  /** The readings of the requests for `u`, in lock order. */
  function Readings(ts: seq<Ticket>, n: nat, u: User): seq<Time>
    requires n <= |ts|
  {
    if n == 0 then []
    else if ts[n - 1].target == u then Readings(ts, n - 1, u) + [ts[n - 1].now]
    else Readings(ts, n - 1, u)
  }

  /** The readings of those the limiter admitted. */
  function Admissions(ts: seq<Ticket>, n: nat, u: User): seq<Time>
    requires n <= |ts|
  {
    if n == 0 then []
    else if ts[n - 1].target == u && ts[n - 1].admitted then Admissions(ts, n - 1, u) + [ts[n - 1].now]
    else Admissions(ts, n - 1, u)
  }

  predicate TookKey(t: Ticket, u: User) {
    t.target == u && t.fetching.Done? && t.fetching.took
  }

  /** How many one-time prekeys of `u` left the pool in the window, by the time they left. */
  function TakenIn(ts: seq<Ticket>, n: nat, u: User, lo: Time, hi: Time): nat
    requires n <= |ts|
  {
    if n == 0 then 0
    else TakenIn(ts, n - 1, u, lo, hi) + if TookKey(ts[n - 1], u) && lo <= ts[n - 1].fetching.at < hi then 1 else 0
  }

  /** Every fetch for `u` comes at most `delay` after its request read the clock. */
  ghost predicate Prompt(ts: seq<Ticket>, u: User, delay: nat) {
    forall i :: 0 <= i < |ts| && ts[i].target == u && ts[i].fetching.Done? ==>
      ts[i].now <= ts[i].fetching.at <= ts[i].now + delay
  }

  ghost predicate OnlyAdmitted(ts: seq<Ticket>) {
    forall i :: 0 <= i < |ts| && ts[i].fetching.Done? && ts[i].fetching.took ==> ts[i].admitted
  }

  lemma {:induction false} FirstTickets(ts: seq<Ticket>, t: Ticket, n: nat, u: User)
    requires n <= |ts|
    ensures Readings(ts + [t], n, u) == Readings(ts, n, u) && Admissions(ts + [t], n, u) == Admissions(ts, n, u)
  {
    if n > 0 {
      FirstTickets(ts, t, n - 1, u);
    }
  }

  lemma OneMoreTicket(ts: seq<Ticket>, t: Ticket, u: User)
    ensures Readings(ts + [t], |ts + [t]|, u) == if t.target == u then Readings(ts, |ts|, u) + [t.now] else Readings(ts, |ts|, u)
    ensures Admissions(ts + [t], |ts + [t]|, u)
         == if t.target == u && t.admitted then Admissions(ts, |ts|, u) + [t.now] else Admissions(ts, |ts|, u)
    ensures OnlyAdmitted(ts) && t.fetching.Waiting? ==> OnlyAdmitted(ts + [t])
  {
    FirstTickets(ts, t, |ts|, u);
  }

  lemma {:induction false} FetchedTickets(ts: seq<Ticket>, k: nat, f: Fetching, n: nat, u: User)
    requires n <= |ts| && k < |ts|
    ensures Readings(ts[k := ts[k].(fetching := f)], n, u) == Readings(ts, n, u)
    ensures Admissions(ts[k := ts[k].(fetching := f)], n, u) == Admissions(ts, n, u)
  {
    if n > 0 {
      FetchedTickets(ts, k, f, n - 1, u);
    }
  }

  /** The tickets of a process fit its limiter: what was admitted is what the full history admits. */
  ghost predicate Booked(ts: seq<Ticket>, u: User) {
    var rs := Readings(ts, |ts|, u);
    OnlyAdmitted(ts) && Admissions(ts, |ts|, u) == History(FETCHES_PER_MIN, rs, |rs|)
  }

  /** So do those of the running process, and its limiter has the list that goes with them. */
  ghost predicate Tells(s: Relay, u: User) {
    && Alone(FETCHES_PER_MIN, s.attempts, u, Readings(s.tickets, |s.tickets|, u)) && Booked(s.tickets, u)
    && forall i :: 0 <= i < |s.past| ==> Booked(s.past[i], u)
  }

  lemma AdmissionIsHistory(m: map<string, seq<Time>>, u: User, rs: seq<Time>, all: seq<Time>, now: Time)
    requires Alone(FETCHES_PER_MIN, m, u, rs) && all == History(FETCHES_PER_MIN, rs, |rs|)
    ensures var more := rs + [now];
            History(FETCHES_PER_MIN, more, |more|)
            == if Allow(FETCHES_PER_MIN, Lookup(m, u), now).admitted then all + [now] else all
  {
    OneMoreCall(FETCHES_PER_MIN, rs, now);
  }

  lemma AdmitTells(s: Relay, target: User, now: Time, u: User)
    requires Tells(s, u) && Served(target)
    ensures Tells(Step(s, Admit(target, now)), u)
  {
    var rs, t := Readings(s.tickets, |s.tickets|, u), Ticket(target, now, Admits(s, target, now), Waiting);
    OnCallAlone(FETCHES_PER_MIN, s.attempts, Call(target, now), u, rs);
    OneMoreTicket(s.tickets, t, u);
    AdmissionIsHistory(s.attempts, u, rs, Admissions(s.tickets, |s.tickets|, u), now);
  }

  lemma StepTells(s: Relay, e: Event, u: User)
    requires Tells(s, u)
    ensures Tells(Step(s, e), u)
  {
    match e
    case Admit(target, now) =>
      if Served(target) {
        AdmitTells(s, target, now, u);
      }
    case Fetch(k, at, _) =>
      if Pending(s, e) {
        FetchedTickets(s.tickets, k, Done(at, Takes(s, e)), |s.tickets|, u);
      }
    case _ =>
  }

  lemma {:induction false} RunTells(s: Relay, es: seq<Event>, n: nat, u: User)
    requires n <= |es| && s == Started(s.vault)
    ensures Tells(Run(s, es, n), u)
  {
    if n > 0 {
      RunTells(s, es, n - 1, u);
      StepTells(Run(s, es, n - 1), es[n - 1], u);
    }
  }

  /** A key that left in the window was admitted at most `delay` before. */
  lemma {:induction false} TakenWithinAdmitted(ts: seq<Ticket>, n: nat, u: User, delay: nat, lo: Time, hi: Time)
    requires n <= |ts| && OnlyAdmitted(ts) && Prompt(ts, u, delay)
    ensures TakenIn(ts, n, u, lo, hi) <= CountIn(Admissions(ts, n, u), lo - delay, hi)
  {
    if n > 0 {
      TakenWithinAdmitted(ts, n - 1, u, delay, lo, hi);
      CountAppend(Admissions(ts, n - 1, u), ts[n - 1].now, lo - delay, hi);
    }
  }

  /** One process: at most ten keys in the window. */
  lemma BookedBound(ts: seq<Ticket>, u: User, skew: nat, delay: nat, lo: Time)
    requires Booked(ts, u) && SkewAtMost(Readings(ts, |ts|, u), skew) && Prompt(ts, u, delay)
    ensures TakenIn(ts, |ts|, u, lo, lo + MINUTE - skew - delay) <= FETCHES_PER_MIN
  {
    var rs := Readings(ts, |ts|, u);
    TakenWithinAdmitted(ts, |ts|, u, delay, lo, lo + MINUTE - skew - delay);
    RateBound(FETCHES_PER_MIN, rs, |rs|, skew, lo - delay);
  }

  /** The tickets of every process, the running one last. */
  function Lives(s: Relay): seq<seq<Ticket>> {
    s.past + [s.tickets]
  }

  /** In every process, readings for `u` go back by at most `skew` and fetches follow within `delay`. */
  ghost predicate Regular(lives: seq<seq<Ticket>>, u: User, skew: nat, delay: nat) {
    forall i :: 0 <= i < |lives| ==> SkewAtMost(Readings(lives[i], |lives[i]|, u), skew) && Prompt(lives[i], u, delay)
  }

  /** The keys of `u` that left in the window, over the first `n` processes. */
  function TakenByAll(lives: seq<seq<Ticket>>, n: nat, u: User, lo: Time, hi: Time): nat
    requires n <= |lives|
  {
    if n == 0 then 0 else TakenByAll(lives, n - 1, u, lo, hi) + TakenIn(lives[n - 1], |lives[n - 1]|, u, lo, hi)
  }

  /** How many of them took one in the window. */
  function Takers(lives: seq<seq<Ticket>>, n: nat, u: User, lo: Time, hi: Time): nat
    requires n <= |lives|
  {
    if n == 0 then 0
    else Takers(lives, n - 1, u, lo, hi) + if TakenIn(lives[n - 1], |lives[n - 1]|, u, lo, hi) > 0 then 1 else 0
  }

  lemma {:induction false} LivesBound(lives: seq<seq<Ticket>>, n: nat, u: User, skew: nat, delay: nat, lo: Time)
    requires n <= |lives| && Regular(lives, u, skew, delay) && forall i :: 0 <= i < |lives| ==> Booked(lives[i], u)
    ensures var hi := lo + MINUTE - skew - delay;
            TakenByAll(lives, n, u, lo, hi) <= FETCHES_PER_MIN * Takers(lives, n, u, lo, hi)
  {
    if n > 0 {
      LivesBound(lives, n - 1, u, skew, delay, lo);
      BookedBound(lives[n - 1], u, skew, delay, lo);
    }
  }

  /** The drain bound, whatever is requested, registered and restarted: if in each process the clock
      readings for `u` go back by at most `skew` and fetches follow their reading within `delay`,
      then in any window of one minute minus `skew` and `delay` the one-time prekeys of `u` that
      leave number at most ten for each process that took one in it. */
  lemma DrainBound(vault: Vault, es: seq<Event>, u: User, skew: nat, delay: nat, lo: Time)
    requires Regular(Lives(Run(Started(vault), es, |es|)), u, skew, delay)
    ensures var lives, hi := Lives(Run(Started(vault), es, |es|)), lo + MINUTE - skew - delay;
            TakenByAll(lives, |lives|, u, lo, hi) <= FETCHES_PER_MIN * Takers(lives, |lives|, u, lo, hi)
  {
    var s := Run(Started(vault), es, |es|);
    RunTells(Started(vault), es, |es|, u);
    LivesBound(Lives(s), |Lives(s)|, u, skew, delay, lo);
  }

  ghost function PoolSize(v: Vault, u: User): nat {
    if u in v.mem then |v.mem[u].oneTime| else 0
  }

  function Took(ts: seq<Ticket>, n: nat, u: User): nat
    requires n <= |ts|
  {
    if n == 0 then 0 else Took(ts, n - 1, u) + if TookKey(ts[n - 1], u) then 1 else 0
  }

  lemma {:induction false} TookUpdate(ts: seq<Ticket>, k: nat, t: Ticket, n: nat, u: User)
    requires k < |ts| && n <= |ts|
    ensures Took(ts[k := t], n, u) + (if k < n && TookKey(ts[k], u) then 1 else 0)
         == Took(ts, n, u) + (if k < n && TookKey(t, u) then 1 else 0)
  {
    if n > 0 {
      TookUpdate(ts, k, t, n - 1, u);
    }
  }

  lemma {:induction false} TookPrefix(ts: seq<Ticket>, t: Ticket, n: nat, u: User)
    requires n <= |ts|
    ensures Took(ts + [t], n, u) == Took(ts, n, u)
  {
    if n > 0 {
      TookPrefix(ts, t, n - 1, u);
    }
  }

  /** The tickets miss nothing: between registrations and restarts the pool of `u` shrinks by one
      exactly when a ticket for `u` takes a key, and an over-budget request leaves the whole vault
      as it was. */
  lemma PoolShrinksOnlyWhenTaken(s: Relay, e: Event, u: User)
    requires e.Admit? || e.Fetch?
    ensures PoolSize(s.vault, u) - PoolSize(Step(s, e).vault, u)
         == Took(Step(s, e).tickets, |Step(s, e).tickets|, u) - Took(s.tickets, |s.tickets|, u)
    ensures !Pending(s, e) || !s.tickets[e.ticket].admitted ==> Step(s, e).vault == s.vault
  {
    if e.Admit? && Served(e.target) {
      TookPrefix(s.tickets, Ticket(e.target, e.now, Admits(s, e.target, e.now), Waiting), |s.tickets|, u);
    } else if Pending(s, e) {
      TookUpdate(s.tickets, e.ticket, Step(s, e).tickets[e.ticket], |s.tickets|, u);
    }
  }

  // ---------- restarts do raise the number ----------

  /** Every ticket read the clock, and was fetched, at `now`. */
  ghost predicate AllAt(ts: seq<Ticket>, now: Time) {
    forall i :: 0 <= i < |ts| ==> ts[i].now == now && (ts[i].fetching.Done? ==> ts[i].fetching.at == now)
  }

  lemma {:induction false} ReadingsAt(ts: seq<Ticket>, n: nat, u: User, now: Time)
    requires n <= |ts| && AllAt(ts, now)
    ensures forall i :: 0 <= i < |Readings(ts, n, u)| ==> Readings(ts, n, u)[i] == now
  {
    if n > 0 {
      ReadingsAt(ts, n - 1, u, now);
    }
  }

  lemma AllAtRegular(lives: seq<seq<Ticket>>, u: User, now: Time)
    requires forall i :: 0 <= i < |lives| ==> AllAt(lives[i], now)
    ensures Regular(lives, u, 0, 0)
  {
    forall i | 0 <= i < |lives| ensures SkewAtMost(Readings(lives[i], |lives[i]|, u), 0) && Prompt(lives[i], u, 0) {
      ReadingsAt(lives[i], |lives[i]|, u, now);
    }
  }

  /** The running process has admitted `used` requests for `u`, all at `now`, and the vault, which is
      saved, has at least `left` keys of `u`. */
  ghost predicate Draining(s: Relay, u: User, now: Time, used: nat, left: nat) {
    && Served(u) && AllAt(s.tickets, now)
    && |Lookup(s.attempts, u)| == used && (forall i :: 0 <= i < used ==> Lookup(s.attempts, u)[i] == now)
    && s.vault.mem == s.vault.disk && u in s.vault.mem && |s.vault.mem[u].oneTime| >= left
  }

  function TakenAt(ts: seq<Ticket>, u: User, now: Time): nat {
    TakenIn(ts, |ts|, u, now, now + 1)
  }

  lemma {:induction false} TakenPrefix(ts: seq<Ticket>, t: Ticket, n: nat, u: User, lo: Time, hi: Time)
    requires n <= |ts|
    ensures TakenIn(ts + [t], n, u, lo, hi) == TakenIn(ts, n, u, lo, hi)
  {
    if n > 0 {
      TakenPrefix(ts, t, n - 1, u, lo, hi);
    }
  }

  lemma DrawOne(s: Relay, u: User, now: Time, used: nat, left: nat)
    requires Draining(s, u, now, used, left) && used < FETCHES_PER_MIN && left > 0
    ensures var s' := Step(Step(s, Admit(u, now)), Fetch(|s.tickets|, now, true));
            && Draining(s', u, now, used + 1, left - 1) && s'.past == s.past
            && TakenAt(s'.tickets, u, now) == TakenAt(s.tickets, u, now) + 1
  {
    var xs := Lookup(s.attempts, u);
    KeepAll(xs, now - MINUTE, used);
    assert xs[..used] == xs;
    var a, t := Step(s, Admit(u, now)), Ticket(u, now, true, Done(now, true));
    assert a.tickets == s.tickets + [t.(fetching := Waiting)] && Lookup(a.attempts, u) == xs + [now];
    assert Step(a, Fetch(|s.tickets|, now, true)).tickets == s.tickets + [t];
    TakenPrefix(s.tickets, t, |s.tickets|, u, now, now + 1);
  }

  lemma {:induction false} RunOfPrefix(s: Relay, es: seq<Event>, e: Event, n: nat)
    requires n <= |es|
    ensures Run(s, es + [e], n) == Run(s, es, n)
  {
    if n > 0 {
      RunOfPrefix(s, es, e, n - 1);
    }
  }

  lemma OneMoreEvent(s: Relay, es: seq<Event>, e: Event)
    ensures Run(s, es + [e], |es + [e]|) == Step(Run(s, es, |es|), e)
  {
    RunOfPrefix(s, es, e, |es|);
  }

  lemma {:induction false} DrawMany(s: Relay, es: seq<Event>, u: User, now: Time, used: nat, left: nat, n: nat) returns (es': seq<Event>)
    requires Draining(Run(s, es, |es|), u, now, used, left) && used + n <= FETCHES_PER_MIN && n <= left
    ensures var c, c' := Run(s, es, |es|), Run(s, es', |es'|);
            && Draining(c', u, now, used + n, left - n) && c'.past == c.past
            && TakenAt(c'.tickets, u, now) == TakenAt(c.tickets, u, now) + n
    decreases n
  {
    if n == 0 {
      es' := es;
    } else {
      var c := Run(s, es, |es|);
      var admit, fetch := Admit(u, now), Fetch(|c.tickets|, now, true);
      OneMoreEvent(s, es, admit);
      OneMoreEvent(s, es + [admit], fetch);
      DrawOne(c, u, now, used, left);
      es' := DrawMany(s, es + [admit] + [fetch], u, now, used + 1, left - 1, n - 1);
    }
  }

  /** Each of these processes took ten keys of `u` at `now`, and did nothing else. */
  ghost predicate AllFull(lives: seq<seq<Ticket>>, u: User, now: Time) {
    forall i :: 0 <= i < |lives| ==> AllAt(lives[i], now) && TakenAt(lives[i], u, now) == FETCHES_PER_MIN
  }

  lemma {:induction false} FullCounts(lives: seq<seq<Ticket>>, n: nat, u: User, now: Time)
    requires n <= |lives| && AllFull(lives, u, now)
    ensures TakenByAll(lives, n, u, now, now + 1) == FETCHES_PER_MIN * n && Takers(lives, n, u, now, now + 1) == n
  {
    if n > 0 {
      FullCounts(lives, n - 1, u, now);
      assert TakenAt(lives[n - 1], u, now) == FETCHES_PER_MIN;
    }
  }

  /** A process that takes its ten keys and is restarted leaves the next one a full budget. */
  lemma RestartRenews(s: Relay, u: User, now: Time, left: nat)
    requires Draining(s, u, now, FETCHES_PER_MIN, left) && AllFull(Lives(s), u, now)
    ensures var s' := Step(s, Restart);
            Draining(s', u, now, 0, left) && s'.tickets == [] && s'.past == Lives(s)
  {
  }

  lemma {:induction false} FullLives(vault: Vault, u: User, now: Time, k: nat, left: nat) returns (es: seq<Event>)
    requires Served(u) && vault.mem == vault.disk && u in vault.mem
    requires |vault.mem[u].oneTime| >= FETCHES_PER_MIN * (k + 1) + left
    ensures var s := Run(Started(vault), es, |es|);
            Draining(s, u, now, FETCHES_PER_MIN, left) && |s.past| == k && AllFull(Lives(s), u, now)
    decreases k
  {
    es := [];
    if k > 0 {
      es := FullLives(vault, u, now, k - 1, FETCHES_PER_MIN + left);
      RestartRenews(Run(Started(vault), es, |es|), u, now, FETCHES_PER_MIN + left);
      OneMoreEvent(Started(vault), es, Restart);
      es := es + [Restart];
    }
    es := DrawMany(Started(vault), es, u, now, 0, FETCHES_PER_MIN + left, FETCHES_PER_MIN);
  }

  /** The bound is reached at any number of restarts: with enough keys in the file, a run with `k`
      restarts, a clock that stands still and no delay lets ten for each of its k + 1 processes
      leave within one nanosecond. */
  lemma RestartsRenewTheBudget(vault: Vault, u: User, now: Time, k: nat) returns (es: seq<Event>)
    requires Served(u) && vault.mem == vault.disk && u in vault.mem
    requires |vault.mem[u].oneTime| >= FETCHES_PER_MIN * (k + 1)
    ensures var lives := Lives(Run(Started(vault), es, |es|));
            && |lives| == k + 1 && Regular(lives, u, 0, 0)
            && TakenByAll(lives, |lives|, u, now, now + 1) == FETCHES_PER_MIN * (k + 1)
            && Takers(lives, |lives|, u, now, now + 1) == k + 1
  {
    es := FullLives(vault, u, now, k, 0);
    var lives := Lives(Run(Started(vault), es, |es|));
    AllAtRegular(lives, u, now);
    FullCounts(lives, |lives|, u, now);
  }
}
