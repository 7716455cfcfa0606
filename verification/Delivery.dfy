/** The store-and-forward protocol as a step system. Deliver and flush threads, registrations,
    purges and crashes interleave freely; each critical section of the store and each socket
    write is one step. */
module Delivery {
  import opened Envelopes
  import opened QueueTable
  import opened Address
  import opened QueueLedger
  import Registry

  datatype Thread =
    | Idle
    | Arrived(user: User, message: Message)
    | Writing(user: User, conn: Conn, message: Message)
    | Queueing(user: User, message: Message)
    | Draining(user: User, conn: Conn)
    | Sending(user: User, conn: Conn, rest: seq<Message>)
    | Requeueing(user: User, rest: seq<Message>)

  datatype Session = Session(user: User, conn: Conn)

  datatype Write = Write(message: Message, conn: Conn)

  /** `log` holds every message accepted for local delivery, `sessions` every registration ever
      made, `writes` every successful socket write. */
  datatype State = State(
    relayId: string, ttl: Ttl, clients: map<User, Conn>, sessions: set<Session>, threads: seq<Thread>,
    queue: Queue, log: seq<Message>, writes: seq<Write>)

  function Init(relayId: string, ttl: Ttl): State {
    State(relayId, ttl, map[], {}, [], NewQueue(), [], [])
  }

  datatype Event =
    | Submit(envelope: Envelope)
    | Federate(envelope: Envelope, fromRelay: string)
    | Connect(userId: string, conn: Conn)
    | Disconnect(user: User, conn: Conn)
    | Sweep(now: int, executes: bool, persists: bool)
    | Crash
    | Lookup(i: nat)
    | WriteDirect(i: nat, ok: bool)
    | StoreDirect(i: nat, put: PutInput)
    | DrainStep(i: nat, take: TakeInput, commits: bool)
    | SendNext(i: nat, ok: bool)
    | RequeueNext(i: nat, put: PutInput)

  /** The key a message is looked up and stored under. */
  function KeyOf(m: Message, relayId: string): User {
    SessionKey(m.envelope.recipientId, relayId)
  }

  function Spawn(s: State, t: Thread): State {
    s.(threads := s.threads + [t])
  }

  function Become(s: State, i: nat, t: Thread): State
    requires i < |s.threads|
  {
    s.(threads := s.threads[i := t])
  }

  function Accept(s: State, user: User, e: Envelope): State {
    var m := Message(|s.log|, e);
    Spawn(s.(log := s.log + [m]), Arrived(user, m))
  }

  function Hold(t: Thread): multiset<Message> {
    match t
    case Arrived(_, m) => multiset{m}
    case Writing(_, _, m) => multiset{m}
    case Queueing(_, m) => multiset{m}
    case Sending(_, _, rest) => multiset(rest)
    case Requeueing(_, rest) => multiset(rest)
    case _ => multiset{}
  }

  function Sum(bags: seq<multiset<Message>>, n: nat): multiset<Message>
    requires n <= |bags|
  {
    if n == 0 then multiset{} else Sum(bags, n - 1) + bags[n - 1]
  }

  function Bags(ts: seq<Thread>): seq<multiset<Message>> {
    seq(|ts|, i requires 0 <= i < |ts| => Hold(ts[i]))
  }

  /** All messages in the hands of threads. */
  function Held(ts: seq<Thread>): multiset<Message> {
    Sum(Bags(ts), |ts|)
  }

  /** Whether the thread an event names is at the point the event needs. */
  predicate Ready(s: State, e: Event) {
    match e
    case Lookup(i) => i < |s.threads| && s.threads[i].Arrived?
    case WriteDirect(i, _) => i < |s.threads| && s.threads[i].Writing?
    case StoreDirect(i, _) => i < |s.threads| && s.threads[i].Queueing?
    case DrainStep(i, _, _) => i < |s.threads| && s.threads[i].Draining?
    case SendNext(i, _) => i < |s.threads| && s.threads[i].Sending? && s.threads[i].rest != []
    case RequeueNext(i, _) => i < |s.threads| && s.threads[i].Requeueing? && s.threads[i].rest != []
    case _ => true
  }

  predicate OfDeliver(e: Event) {
    e.Lookup? || e.WriteDirect? || e.StoreDirect?
  }

  predicate OfFlush(e: Event) {
    e.DrainStep? || e.SendNext? || e.RequeueNext?
  }

  /** Router.deliver: lookup, then write, then enqueue if there was no successful write. */
  function DeliverStep(s: State, e: Event): State
    requires Ready(s, e) && OfDeliver(e)
  {
    var t := s.threads[e.i];
    match e
    case Lookup(i) =>
      Become(s, i, if t.user in s.clients then Writing(t.user, s.clients[t.user], t.message)
                   else Queueing(t.user, t.message))
    case WriteDirect(i, ok) =>
      if ok then Become(s.(writes := s.writes + [Write(t.message, t.conn)]), i, Idle)
      else Become(s, i, Queueing(t.user, t.message))
    case StoreDirect(i, p) =>
      Become(s.(queue := Put(s.queue, t.user, t.message, s.ttl, p)), i, Idle)
  }

  /** Router.FlushQueue: drain, write one by one, re-enqueue from the first failed write on. */
  function FlushStep(s: State, e: Event): State
    requires Ready(s, e) && OfFlush(e)
  {
    var t := s.threads[e.i];
    match e
    case DrainStep(i, d, commits) =>
      if !commits then Become(s, i, Idle)
      else Become(s.(queue := Take(s.queue, t.user, d)), i, Sending(t.user, t.conn, Taken(s.queue, t.user, d)))
    case SendNext(i, ok) =>
      if ok then Become(s.(writes := s.writes + [Write(t.rest[0], t.conn)]), i,
                        Sending(t.user, t.conn, t.rest[1..]))
      else Become(s, i, Requeueing(t.user, t.rest))
    case RequeueNext(i, p) =>
      Become(s.(queue := Put(s.queue, t.user, t.rest[0], s.ttl, p)), i, Requeueing(t.user, t.rest[1..]))
  }

  function Crashed(s: State): State {
    s.(clients := map[], threads := [], queue := Reloaded(s.queue, Held(s.threads)))
  }

  /** Route, the federation endpoint, serveConn, the purge loop and the end of the process, which
      takes threads and registrations with it and reloads the table from the file. */
  function OtherStep(s: State, e: Event): State
    requires !OfDeliver(e) && !OfFlush(e)
  {
    match e
    case Submit(env) =>
      var d := Destine(env.recipientId, s.relayId, env.Sealed?);
      if d.Local? then Accept(s, d.user, env) else s
    case Federate(env, from) =>
      var u := FederatedUser(env.recipientId, s.relayId);
      if env.Sealed? && u.Some? then Accept(s, u.value, env.(senderRelay := from)) else s
    case Connect(userId, conn) =>
      var user := SessionKey(userId, s.relayId);
      Spawn(s.(clients := Registry.Bound(s.clients, user, conn), sessions := s.sessions + {Session(user, conn)}),
            Draining(user, conn))
    case Disconnect(user, conn) =>
      s.(clients := Registry.Released(s.clients, user, conn))
    case Sweep(now, executes, persists) =>
      if executes then s.(queue := Swept(s.queue, now, persists)) else s
    case Crash => Crashed(s)
  }

  /** An event that does not fit the state of its thread has no effect. */
  function Step(s: State, e: Event): State {
    if !Ready(s, e) then s
    else if OfDeliver(e) then DeliverStep(s, e)
    else if OfFlush(e) then FlushStep(s, e)
    else OtherStep(s, e)
  }

  function Run(s: State, es: seq<Event>, n: nat): State
    requires n <= |es|
  {
    if n == 0 then s else Step(Run(s, es, n - 1), es[n - 1])
  }

  function WrittenTo(ws: seq<Write>, n: nat): multiset<Message>
    requires n <= |ws|
  {
    if n == 0 then multiset{} else WrittenTo(ws, n - 1) + multiset{ws[n - 1].message}
  }

  /** How many times `x` was written to a socket. */
  function Written(s: State, x: Message): nat {
    WrittenTo(s.writes, |s.writes|)[x]
  }

  /** How many times `x` occurs in the other places a message can be in: held by a thread, queued,
      or dropped as expired, refused, failed or lost. */
  function Elsewhere(s: State, x: Message): nat {
    Held(s.threads)[x] + Queued(s.queue.mem)[x] + Dropped(s.queue, x)
  }

  ghost predicate Numbered(log: seq<Message>) {
    forall i :: 0 <= i < |log| ==> log[i].serial == i
  }

  /** At most one new message, numbered next. */
  ghost predicate Grows(log: seq<Message>, log': seq<Message>) {
    || log' == log
    || (|log'| == |log| + 1 && log' == log + [log'[|log|]] && log'[|log|].serial == |log|)
  }

  function Gain(log: seq<Message>, log': seq<Message>, x: Message): nat {
    if |log'| == |log| + 1 && log'[|log|] == x then 1 else 0
  }

  /** What every step but a crash does with `x`: it only moves it, writes and drops are for good,
      and the file is left alone or gets the new table. */
  ghost predicate Flow(s: State, s': State, x: Message) {
    && Sound(s'.queue, x) && Grows(s.log, s'.log)
    && Elsewhere(s', x) + Written(s', x) == Elsewhere(s, x) + Written(s, x) + Gain(s.log, s'.log, x)
    && Written(s', x) >= Written(s, x) && Dropped(s'.queue, x) >= Dropped(s.queue, x)
    && (s'.queue.disk == s.queue.disk || s'.queue.disk == s'.queue.mem)
  }

  // ---------- counting threads and writes ----------

  lemma {:induction false} SumFrame(bags: seq<multiset<Message>>, bags': seq<multiset<Message>>, n: nat)
    requires n <= |bags| && n <= |bags'| && forall i :: 0 <= i < n ==> bags[i] == bags'[i]
    ensures Sum(bags, n) == Sum(bags', n)
  {
    if n > 0 {
      SumFrame(bags, bags', n - 1);
    }
  }

  lemma {:induction false} SumUpdate(bags: seq<multiset<Message>>, i: nat, b: multiset<Message>, n: nat, x: Message)
    requires i < n <= |bags|
    ensures Sum(bags[i := b], n)[x] + bags[i][x] == Sum(bags, n)[x] + b[x]
  {
    if i == n - 1 {
      SumFrame(bags, bags[i := b], n - 1);
    } else {
      SumUpdate(bags, i, b, n - 1, x);
    }
  }

  lemma HeldUpdate(ts: seq<Thread>, i: nat, t: Thread, x: Message)
    requires i < |ts|
    ensures Held(ts[i := t])[x] + Hold(ts[i])[x] == Held(ts)[x] + Hold(t)[x]
  {
    SumUpdate(Bags(ts), i, Hold(t), |ts|, x);
    assert Bags(ts[i := t]) == Bags(ts)[i := Hold(t)];
  }

  lemma HeldSpawn(ts: seq<Thread>, t: Thread, x: Message)
    ensures Held(ts + [t])[x] == Held(ts)[x] + Hold(t)[x]
  {
    SumFrame(Bags(ts), Bags(ts + [t]), |ts|);
  }

  lemma {:induction false} WrittenFrame(ws: seq<Write>, w: Write, n: nat)
    requires n <= |ws|
    ensures WrittenTo(ws + [w], n) == WrittenTo(ws, n)
  {
    if n > 0 {
      WrittenFrame(ws, w, n - 1);
    }
  }

  lemma WrittenAppend(ws: seq<Write>, w: Write, x: Message)
    ensures WrittenTo(ws + [w], |ws| + 1)[x] == WrittenTo(ws, |ws|)[x] + multiset{w.message}[x]
  {
    WrittenFrame(ws, w, |ws|);
  }

  lemma HeadTail(rest: seq<Message>, x: Message)
    requires rest != []
    ensures multiset(rest)[x] == multiset{rest[0]}[x] + multiset(rest[1..])[x]
  {
    assert rest == [rest[0]] + rest[1..];
  }

  // ---------- every step but a crash only moves messages ----------

  /** A thread step around a store operation. */
  lemma BecomeFlows(s: State, q: Queue, i: nat, t: Thread, x: Message, taken: nat, given: nat)
    requires i < |s.threads| && Moves(s.queue, q, x, taken, given)
    requires Hold(s.threads[i])[x] + given == Hold(t)[x] + taken
    ensures Flow(s, Become(s.(queue := q), i, t), x)
  {
    HeldUpdate(s.threads, i, t, x);
  }

  lemma WriteFlows(s: State, i: nat, w: Write, t: Thread, x: Message)
    requires i < |s.threads| && Sound(s.queue, x)
    requires Hold(s.threads[i])[x] == Hold(t)[x] + multiset{w.message}[x]
    ensures Flow(s, Become(s.(writes := s.writes + [w]), i, t), x)
  {
    HeldUpdate(s.threads, i, t, x);
    WrittenAppend(s.writes, w, x);
  }

  lemma PutFlows(s: State, i: nat, user: User, m: Message, p: PutInput, t: Thread, x: Message)
    requires i < |s.threads| && Sound(s.queue, x)
    requires Hold(s.threads[i])[x] == Hold(t)[x] + multiset{m}[x]
    ensures Flow(s, Become(s.(queue := Put(s.queue, user, m, s.ttl, p)), i, t), x)
  {
    PutMoves(s.queue, user, m, s.ttl, p, x);
    BecomeFlows(s, Put(s.queue, user, m, s.ttl, p), i, t, x, multiset{m}[x], 0);
  }

  lemma MoveFlows(s: State, i: nat, t: Thread, x: Message)
    requires i < |s.threads| && Sound(s.queue, x) && Hold(s.threads[i])[x] == Hold(t)[x]
    ensures Flow(s, Become(s, i, t), x)
  {
    BecomeFlows(s, s.queue, i, t, x, 0, 0);
  }

  lemma AcceptFlows(s: State, user: User, e: Envelope, x: Message)
    requires Sound(s.queue, x)
    ensures Flow(s, Accept(s, user, e), x)
  {
    HeldSpawn(s.threads, Arrived(user, Message(|s.log|, e)), x);
  }

  lemma DeliverFlows(s: State, e: Event, x: Message)
    requires Sound(s.queue, x) && Ready(s, e) && OfDeliver(e)
    ensures Flow(s, DeliverStep(s, e), x)
  {
    var t := s.threads[e.i];
    match e
    case Lookup(i) =>
      MoveFlows(s, i, DeliverStep(s, e).threads[i], x);
    case WriteDirect(i, ok) =>
      if ok {
        WriteFlows(s, i, Write(t.message, t.conn), Idle, x);
      } else {
        MoveFlows(s, i, Queueing(t.user, t.message), x);
      }
    case StoreDirect(i, p) =>
      PutFlows(s, i, t.user, t.message, p, Idle, x);
  }

  lemma TakeFlows(s: State, i: nat, user: User, d: TakeInput, t: Thread, x: Message)
    requires i < |s.threads| && Sound(s.queue, x)
    requires Hold(s.threads[i])[x] + multiset(Taken(s.queue, user, d))[x] == Hold(t)[x]
    ensures Flow(s, Become(s.(queue := Take(s.queue, user, d)), i, t), x)
  {
    TakeMoves(s.queue, user, d, x);
    BecomeFlows(s, Take(s.queue, user, d), i, t, x, 0, multiset(Taken(s.queue, user, d))[x]);
  }

  lemma DrainFlows(s: State, e: Event, x: Message)
    requires Sound(s.queue, x) && e.DrainStep? && Ready(s, e)
    ensures Flow(s, FlushStep(s, e), x)
  {
    var t := s.threads[e.i];
    if e.commits {
      TakeFlows(s, e.i, t.user, e.take, Sending(t.user, t.conn, Taken(s.queue, t.user, e.take)), x);
    } else {
      MoveFlows(s, e.i, Idle, x);
    }
  }

  lemma SentFlows(s: State, i: nat, user: User, conn: Conn, rest: seq<Message>, x: Message)
    requires Sound(s.queue, x) && i < |s.threads| && s.threads[i] == Sending(user, conn, rest) && rest != []
    ensures Flow(s, Become(s.(writes := s.writes + [Write(rest[0], conn)]), i, Sending(user, conn, rest[1..])), x)
  {
    HeadTail(rest, x);
    WriteFlows(s, i, Write(rest[0], conn), Sending(user, conn, rest[1..]), x);
  }

  lemma SendFlows(s: State, e: Event, x: Message)
    requires Sound(s.queue, x) && e.SendNext? && Ready(s, e)
    ensures Flow(s, FlushStep(s, e), x)
  {
    var t := s.threads[e.i];
    if e.ok {
      SentFlows(s, e.i, t.user, t.conn, t.rest, x);
    } else {
      MoveFlows(s, e.i, Requeueing(t.user, t.rest), x);
    }
  }

  lemma PutBackFlows(s: State, i: nat, user: User, rest: seq<Message>, p: PutInput, x: Message)
    requires Sound(s.queue, x) && i < |s.threads| && s.threads[i] == Requeueing(user, rest) && rest != []
    ensures Flow(s, Become(s.(queue := Put(s.queue, user, rest[0], s.ttl, p)), i, Requeueing(user, rest[1..])), x)
  {
    HeadTail(rest, x);
    PutFlows(s, i, user, rest[0], p, Requeueing(user, rest[1..]), x);
  }

  lemma RequeueFlows(s: State, e: Event, x: Message)
    requires Sound(s.queue, x) && e.RequeueNext? && Ready(s, e)
    ensures Flow(s, FlushStep(s, e), x)
  {
    var t := s.threads[e.i];
    PutBackFlows(s, e.i, t.user, t.rest, e.put, x);
  }

  lemma ConnectFlows(s: State, userId: string, conn: Conn, x: Message)
    requires Sound(s.queue, x)
    ensures Flow(s, OtherStep(s, Connect(userId, conn)), x)
  {
    HeldSpawn(s.threads, Draining(SessionKey(userId, s.relayId), conn), x);
  }

  lemma OtherFlows(s: State, e: Event, x: Message)
    requires Sound(s.queue, x) && !OfDeliver(e) && !OfFlush(e) && !e.Crash?
    ensures Flow(s, OtherStep(s, e), x)
  {
    match e
    case Submit(env) =>
      var d := Destine(env.recipientId, s.relayId, env.Sealed?);
      if d.Local? {
        AcceptFlows(s, d.user, env, x);
      }
    case Federate(env, from) =>
      var u := FederatedUser(env.recipientId, s.relayId);
      if env.Sealed? && u.Some? {
        AcceptFlows(s, u.value, env.(senderRelay := from), x);
      }
    case Connect(userId, conn) =>
      ConnectFlows(s, userId, conn, x);
    case Disconnect(_, _) =>
    case Sweep(now, executes, persists) =>
      if executes {
        SweepMoves(s.queue, now, persists, x);
      }
  }

  lemma StepFlows(s: State, e: Event, x: Message)
    requires Sound(s.queue, x) && !e.Crash?
    ensures Flow(s, Step(s, e), x)
  {
    if Ready(s, e) {
      if OfDeliver(e) {
        DeliverFlows(s, e, x);
      } else if OfFlush(e) {
        match e
        case DrainStep(_, _, _) => DrainFlows(s, e, x);
        case SendNext(_, _) => SendFlows(s, e, x);
        case RequeueNext(_, _) => RequeueFlows(s, e, x);
      } else {
        OtherFlows(s, e, x);
      }
    }
  }

  // ---------- counting over whole runs ----------

  /** One live copy at most in memory and one in the file, and nothing of a message not accepted. */
  ghost predicate Single(s: State, x: Message) {
    && Numbered(s.log) && Sound(s.queue, x)
    && Elsewhere(s, x) <= 1 && Queued(s.queue.disk)[x] <= 1
    && (x !in s.log ==> Elsewhere(s, x) + Queued(s.queue.disk)[x] + Written(s, x) == 0)
  }

  /** Nothing is left of `x` but what was written, and the file still has a row for it. */
  predicate Revives(s: State, x: Message) {
    Elsewhere(s, x) == 0 && Queued(s.queue.disk)[x] > 0
  }

  /** The crashes among the first `n` events that revive `x`. */
  function Revivals(relayId: string, ttl: Ttl, es: seq<Event>, n: nat, x: Message): nat
    requires n <= |es|
  {
    if n == 0 then 0
    else
      var before := Revivals(relayId, ttl, es, n - 1, x);
      if es[n - 1].Crash? && Revives(Run(Init(relayId, ttl), es, n - 1), x) then before + 1 else before
  }

  lemma FlowSingle(s: State, s': State, x: Message)
    requires Single(s, x) && Flow(s, s', x)
    ensures Single(s', x)
  {
    if x !in s'.log {
      assert x !in s.log;
    }
    if Gain(s.log, s'.log, x) == 1 {
      assert x !in s.log;
    }
  }

  lemma CrashReloads(s: State)
    ensures Step(s, Crash) == Crashed(s)
  {
  }

  lemma CrashSingle(s: State, x: Message)
    requires Single(s, x)
    ensures var s' := Step(s, Crash);
            && Single(s', x) && s'.log == s.log && Written(s', x) == Written(s, x)
            && Elsewhere(s', x) == Elsewhere(s, x) + (if Revives(s, x) then 1 else 0)
  {
    CrashReloads(s);
    ReloadMoves(s.queue, Held(s.threads), x);
    assert Held([])[x] == 0;
  }

  lemma GainIsNew(log: seq<Message>, log': seq<Message>, x: Message)
    requires Numbered(log) && Grows(log, log')
    ensures (if x in log' then 1 else 0) == (if x in log then 1 else 0) + Gain(log, log', x)
  {
  }

  /** The places of `x` add up to one for its acceptance and one for each revival. */
  ghost predicate Accounted(s: State, x: Message, revivals: nat) {
    Single(s, x) && Elsewhere(s, x) + Written(s, x) == (if x in s.log then 1 else 0) + revivals
  }

  lemma FlowAccounted(s: State, s': State, x: Message, revivals: nat)
    requires Accounted(s, x, revivals) && Flow(s, s', x)
    ensures Accounted(s', x, revivals)
  {
    FlowSingle(s, s', x);
    GainIsNew(s.log, s'.log, x);
  }

  lemma StepAccounted(s: State, e: Event, x: Message, revivals: nat)
    requires Accounted(s, x, revivals)
    ensures Accounted(Step(s, e), x, if e.Crash? && Revives(s, x) then revivals + 1 else revivals)
  {
    if e.Crash? {
      CrashSingle(s, x);
    } else {
      StepFlows(s, e, x);
      FlowAccounted(s, Step(s, e), x, revivals);
    }
  }

  lemma InitAccounted(relayId: string, ttl: Ttl, x: Message)
    ensures Accounted(Init(relayId, ttl), x, 0)
  {
    assert Held([])[x] == 0;
  }

  lemma {:induction false} RunAccounted(relayId: string, ttl: Ttl, es: seq<Event>, n: nat, x: Message)
    requires n <= |es|
    ensures Accounted(Run(Init(relayId, ttl), es, n), x, Revivals(relayId, ttl, es, n, x))
  {
    if n == 0 {
      InitAccounted(relayId, ttl, x);
    } else {
      RunAccounted(relayId, ttl, es, n - 1, x);
      StepAccounted(Run(Init(relayId, ttl), es, n - 1), es[n - 1], x, Revivals(relayId, ttl, es, n - 1, x));
    }
  }

  lemma RunSingle(relayId: string, ttl: Ttl, es: seq<Event>, n: nat, x: Message)
    requires n <= |es|
    ensures Single(Run(Init(relayId, ttl), es, n), x)
  {
    RunAccounted(relayId, ttl, es, n, x);
  }

  // ---------- the conservation theorems ----------

  /** In every interleaving with any crashes and faults, an accepted message is in one place, plus
      one for each crash that found it nowhere but on the sockets and still in the file. Off the
      sockets it is in at most one place. */
  lemma EachMessageInOnePlace(relayId: string, ttl: Ttl, es: seq<Event>, x: Message)
    ensures var s := Run(Init(relayId, ttl), es, |es|);
            && Elsewhere(s, x) + Written(s, x) == (if x in s.log then 1 else 0) + Revivals(relayId, ttl, es, |es|, x)
            && Elsewhere(s, x) <= 1
  {
    RunAccounted(relayId, ttl, es, |es|, x);
  }

  /** `x` has been written and the file still has a row for it. */
  predicate Doubtful(s: State, x: Message) {
    Written(s, x) > 0 && Queued(s.queue.disk)[x] > 0
  }

  lemma RevivesDoubtful(s: State, x: Message, revivals: nat)
    requires Accounted(s, x, revivals) && Revives(s, x)
    ensures Doubtful(s, x)
  {
  }

  lemma {:induction false} NoRevivals(relayId: string, ttl: Ttl, es: seq<Event>, n: nat, x: Message)
    requires n <= |es|
    requires forall k :: 0 <= k < n && es[k].Crash? ==> !Doubtful(Run(Init(relayId, ttl), es, k), x)
    ensures Revivals(relayId, ttl, es, n, x) == 0
  {
    if n > 0 {
      NoRevivals(relayId, ttl, es, n - 1, x);
      RunAccounted(relayId, ttl, es, n - 1, x);
      if Revives(Run(Init(relayId, ttl), es, n - 1), x) {
        RevivesDoubtful(Run(Init(relayId, ttl), es, n - 1), x, Revivals(relayId, ttl, es, n - 1, x));
      }
    }
  }

  /** If no crash finds `x` already written and still in the file, `x` is in exactly one place once
      it is accepted, and is written at most once, across restarts too. */
  lemma WrittenAtMostOnce(relayId: string, ttl: Ttl, es: seq<Event>, x: Message)
    requires forall k :: 0 <= k < |es| && es[k].Crash? ==> !Doubtful(Run(Init(relayId, ttl), es, k), x)
    ensures var s := Run(Init(relayId, ttl), es, |es|);
            && Elsewhere(s, x) + Written(s, x) == (if x in s.log then 1 else 0)
            && Written(s, x) <= 1
  {
    NoRevivals(relayId, ttl, es, |es|, x);
    RunAccounted(relayId, ttl, es, |es|, x);
  }

  lemma StepKeepsLog(s: State, e: Event, x: Message)
    requires x in s.log
    ensures x in Step(s, e).log
  {
  }

  lemma {:induction false} LogKept(relayId: string, ttl: Ttl, es: seq<Event>, k: nat, n: nat, x: Message)
    requires k <= n <= |es| && x in Run(Init(relayId, ttl), es, k).log
    ensures x in Run(Init(relayId, ttl), es, n).log
  {
    if k < n {
      LogKept(relayId, ttl, es, k, n - 1, x);
      StepKeepsLog(Run(Init(relayId, ttl), es, n - 1), es[n - 1], x);
    }
  }

  lemma {:induction false} NoneRevived(relayId: string, ttl: Ttl, es: seq<Event>, k: nat, n: nat, x: Message)
    requires k <= n <= |es| && forall j :: k <= j < n ==> !es[j].Crash?
    ensures Revivals(relayId, ttl, es, n, x) == Revivals(relayId, ttl, es, k, x)
  {
    if k < n {
      NoneRevived(relayId, ttl, es, k, n - 1, x);
    }
  }

  /** Within one process lifetime, whatever happened before it, no message is written twice. */
  lemma OncePerLifetime(relayId: string, ttl: Ttl, es: seq<Event>, k: nat, n: nat, x: Message)
    requires k <= n <= |es| && forall j :: k <= j < n ==> !es[j].Crash?
    ensures Written(Run(Init(relayId, ttl), es, n), x) <= Written(Run(Init(relayId, ttl), es, k), x) + 1
  {
    RunAccounted(relayId, ttl, es, k, x);
    RunAccounted(relayId, ttl, es, n, x);
    NoneRevived(relayId, ttl, es, k, n, x);
    if x in Run(Init(relayId, ttl), es, k).log {
      LogKept(relayId, ttl, es, k, n, x);
    }
  }

  /** A crash newly loses exactly what was held or queued and has no row in the file; what was
      queued is in the file unless a row was stored since the last successful persist. */
  lemma CrashLosesOnlyInFlight(relayId: string, ttl: Ttl, es: seq<Event>, s: State, x: Message)
    requires s == Run(Init(relayId, ttl), es, |es|)
    ensures Step(s, Crash).queue.lost[x] > s.queue.lost[x] <==>
              Held(s.threads)[x] + Queued(s.queue.mem)[x] > 0 && Queued(s.queue.disk)[x] == 0
    ensures Queued(Step(s, Crash).queue.mem)[x] == Queued(s.queue.disk)[x]
    ensures !s.queue.behind ==> Queued(s.queue.mem)[x] <= Queued(s.queue.disk)[x]
  {
    RunSingle(relayId, ttl, es, |es|, x);
    CrashReloads(s);
    ReloadMoves(s.queue, Held(s.threads), x);
  }
}
