/** The Store object: client registry and offline queue. Every method is one critical section;
    clock readings and the outcome of SQL statements and persists are inputs. */
module RelayStore {
  import opened Envelopes
  import opened QueueTable
  import opened QueueRuns
  import opened SnapshotFile
  import Registry

  class Store {
    const ttl: nat
    var clients: map<User, Conn>
    var table: Table
    /** The table in the snapshot file at queuePath. */
    var disk: Table

    ghost predicate Valid()
      reads this
    {
      WellFormed(table) && WellFormed(disk)
    }

    /** No recipient has more rows than the cap. */
    ghost predicate Capped()
      reads this
    {
      WithinCap(table) && WithinCap(disk)
    }

    ghost function View(): State
      reads this
    {
      State(table, disk)
    }

    constructor (ttl: nat, table: Table, disk: Table)
      ensures this.ttl == ttl && clients == map[] && this.table == table && this.disk == disk
    {
      this.ttl := ttl;
      clients := map[];
      this.table := table;
      this.disk := disk;
    }

    /** NewStore, given what is at queuePath. A file that cannot be opened is an error. Without a
        file an empty schema is created and persisted; if that fails, it is an error too. */
    static method NewStore(ttl: nat, loaded: Loaded<Table>, persists: bool) returns (r: Option<Store>)
      requires loaded.Restored? ==> WellFormed(loaded.snapshot)
      ensures r.Some? <==> loaded.Restored? || (loaded.Missing? && persists)
      ensures r.Some? ==>
                var s := r.value;
                && fresh(s) && s.Valid() && s.ttl == ttl && s.clients == map[]
                && s.View() == State(Opened(loaded, EMPTY), Opened(loaded, EMPTY))
                && (s.Capped() <==> WithinCap(Opened(loaded, EMPTY)))
      ensures r.Some? && loaded.Missing? ==> r.value.Capped()
    {
      if loaded.Refused? || (loaded.Missing? && !persists) {
        return None;
      }
      assert forall u :: IdsFor(EMPTY, u) == {};
      var t := if loaded.Missing? then EMPTY else loaded.snapshot;
      var s := new Store(ttl, t, t);
      r := Some(s);
    }

    method Register(user: User, c: Conn) returns (prev: Option<Conn>)
      modifies this`clients
      ensures clients == Registry.Bound(old(clients), user, c)
      ensures prev == if user in old(clients) then Some(old(clients)[user]) else None
    {
      prev := if user in clients then Some(clients[user]) else None;
      clients := clients[user := c];
    }

    method Unregister(user: User, c: Conn)
      modifies this`clients
      ensures clients == Registry.Released(old(clients), user, c)
    {
      if user in clients && clients[user] == c {
        clients := clients - {user};
      }
    }

    method LookupClient(user: User) returns (c: Option<Conn>)
      ensures c.Some? <==> user in clients
      ensures c.Some? ==> c.value == clients[user]
    {
      c := if user in clients then Some(clients[user]) else None;
    }

    method PersistLocked(succeeds: bool)
      modifies this`disk
      ensures disk == if succeeds then table else old(disk)
    {
      if succeeds {
        disk := table;
      }
    }

    method Enqueue(r: User, m: Message, sqlNow: int, now: int, fault: Fault, persists: bool)
      requires Valid()
      modifies this`table, this`disk
      ensures Valid() && (old(Capped()) ==> Capped())
      ensures View() == Step(old(View()), Put(r, m, sqlNow, now, fault, persists), ttl)
    {
      if WithinCap(table) {
        EnqueueKeepsShape(table, r, m, ttl, sqlNow, now, fault);
      }
      if fault == DeleteFault {
        return;
      }
      table := Without(table, IdsFor(table, r) * ExpiredIds(table, sqlNow));
      if fault == CountFault {
        return;
      }
      if |IdsFor(table, r)| >= MAX_QUEUE {
        return;
      }
      if fault != NoFault {
        return;
      }
      table := Insert(table, Row(r, m, now + ttl));
      PersistLocked(persists);
    }

    method DrainQueue(r: User, now: int, commits: bool, bad: set<nat>, persists: bool)
      returns (messages: seq<Message>)
      requires Valid()
      modifies this`table, this`disk
      ensures Valid() && (old(Capped()) ==> Capped())
      ensures View() == Step(old(View()), Take(r, now, commits, bad, persists), ttl)
      ensures Delivered(messages) == Shows(old(View()), Take(r, now, commits, bad, persists), ttl)
    {
      messages := [];
      if !commits {
        return;
      }
      for id := 0 to table.nextId
        invariant messages == ReadOut(table.rows, r, now, bad, id)
      {
        if id in table.rows && table.rows[id].recipient == r {
          if id !in bad && table.rows[id].expiresAt >= now {
            messages := messages + [table.rows[id].message];
          }
        }
      }
      if WithinCap(table) {
        WithoutKeepsCap(table, IdsFor(table, r));
      }
      table := Without(table, IdsFor(table, r));
      PersistLocked(persists);
    }

    method QueuedMessages(now: int, answers: bool) returns (total: nat)
      ensures Counted(total) == Shows(View(), Count(now, answers), ttl)
    {
      total := if answers then LiveCount(table, now) else 0;
    }

    method PurgeExpired(now: int, executes: bool, persists: bool)
      requires Valid()
      modifies this`table, this`disk
      ensures Valid() && (old(Capped()) ==> Capped())
      ensures View() == Step(old(View()), Sweep(now, executes, persists), ttl)
    {
      if executes {
        if WithinCap(table) {
          WithoutKeepsCap(table, ExpiredIds(table, now));
        }
        table := Purge(table, now);
        PersistLocked(persists);
      }
    }
  }
}
