/** The registry protocol over every history of Register and Unregister calls. */
module Registry {
  import opened Envelopes

  /** Register: the user's entry is replaced. */
  function Bound(clients: map<User, Conn>, user: User, c: Conn): map<User, Conn> {
    clients[user := c]
  }

  /** Unregister: the entry goes only if it still points at `c`. */
  function Released(clients: map<User, Conn>, user: User, c: Conn): map<User, Conn> {
    if user in clients && clients[user] == c then clients - {user} else clients
  }

  datatype Call = Registers(user: User, conn: Conn) | Unregisters(user: User, conn: Conn)

  /** Store.clients after the first `n` calls. */
  function Clients(h: seq<Call>, n: nat): map<User, Conn>
    requires n <= |h|
  {
    if n == 0 then map[]
    else
      var m, c := Clients(h, n - 1), h[n - 1];
      if c.Registers? then Bound(m, c.user, c.conn) else Released(m, c.user, c.conn)
  }

  lemma {:induction false} ClientsPrefix(h: seq<Call>, c: Call, n: nat)
    requires n <= |h|
    ensures Clients(h + [c], n) == Clients(h, n)
  {
    if n > 0 {
      ClientsPrefix(h, c, n - 1);
    }
  }

  /** Call `i` registered `c` for `u`, and nothing since replaced it or took it out. */
  ghost predicate Stands(h: seq<Call>, i: nat, n: nat, u: User, c: Conn)
    requires n <= |h|
  {
    && i < n && h[i] == Registers(u, c)
    && forall j :: i < j < n ==> !(h[j].Registers? && h[j].user == u) && h[j] != Unregisters(u, c)
  }

  /** The map holds `c` for `u` exactly when `c` is the latest connection registered for `u` and
      has not been unregistered since; an Unregister of an older connection changes nothing. */
  lemma {:induction false} HoldsLatest(h: seq<Call>, n: nat, u: User, c: Conn)
    requires n <= |h|
    ensures u in Clients(h, n) && Clients(h, n)[u] == c <==> exists i :: Stands(h, i, n, u, c)
  {
    if n > 0 {
      HoldsLatest(h, n - 1, u, c);
      if u in Clients(h, n) && Clients(h, n)[u] == c {
        if h[n - 1] == Registers(u, c) {
          assert Stands(h, n - 1, n, u, c);
        } else {
          var i :| Stands(h, i, n - 1, u, c);
          assert Stands(h, i, n, u, c);
        }
      }
      forall i: nat | Stands(h, i, n, u, c) ensures u in Clients(h, n) && Clients(h, n)[u] == c {
        if i < n - 1 {
          assert Stands(h, i, n - 1, u, c);
        }
      }
    }
  }

  function Registrations(h: seq<Call>, n: nat, c: Conn): nat
    requires n <= |h|
  {
    if n == 0 then 0
    else Registrations(h, n - 1, c) + if h[n - 1].Registers? && h[n - 1].conn == c then 1 else 0
  }

  /** How often Register returned `c` as the superseded connection. */
  function HandedBack(h: seq<Call>, n: nat, c: Conn): nat
    requires n <= |h|
  {
    if n == 0 then 0
    else
      var m, k := Clients(h, n - 1), h[n - 1];
      HandedBack(h, n - 1, c) + if k.Registers? && k.user in m && m[k.user] == c then 1 else 0
  }

  /** How often an Unregister took `c` out of the map. */
  function TakenOut(h: seq<Call>, n: nat, c: Conn): nat
    requires n <= |h|
  {
    if n == 0 then 0
    else
      var m, k := Clients(h, n - 1), h[n - 1];
      TakenOut(h, n - 1, c) + if k == Unregisters(k.user, c) && k.user in m && m[k.user] == c then 1 else 0
  }

  function UsersOf(m: map<User, Conn>, c: Conn): set<User> {
    set u | u in m && m[u] == c
  }

  lemma UsersAfterPut(m: map<User, Conn>, u: User, d: Conn, c: Conn)
    ensures |UsersOf(m[u := d], c)| + (if u in m && m[u] == c then 1 else 0)
         == |UsersOf(m, c)| + (if d == c then 1 else 0)
  {
    var rest := UsersOf(m - {u}, c);
    assert UsersOf(m, c) == if u in m && m[u] == c then rest + {u} else rest;
    assert UsersOf(m[u := d], c) == if d == c then rest + {u} else rest;
  }

  lemma UsersAfterRemove(m: map<User, Conn>, u: User, c: Conn)
    requires u in m
    ensures |UsersOf(m, c)| == |UsersOf(m - {u}, c)| + (if m[u] == c then 1 else 0)
  {
    var rest := UsersOf(m - {u}, c);
    assert UsersOf(m, c) == if m[u] == c then rest + {u} else rest;
  }

  /** Every registration of a connection ends in exactly one way: it is still in the map, it was
      handed back for closing, or its own session took it out. */
  lemma {:induction false} EachRegistrationEndsOnce(h: seq<Call>, n: nat, c: Conn)
    requires n <= |h|
    ensures Registrations(h, n, c) == |UsersOf(Clients(h, n), c)| + HandedBack(h, n, c) + TakenOut(h, n, c)
  {
    if n == 0 {
      assert UsersOf(map[], c) == {};
    } else {
      EachRegistrationEndsOnce(h, n - 1, c);
      var m, k := Clients(h, n - 1), h[n - 1];
      if k.Registers? {
        UsersAfterPut(m, k.user, k.conn, c);
      } else if k.user in m && m[k.user] == k.conn {
        UsersAfterRemove(m, k.user, c);
      }
    }
  }

  ghost predicate DistinctConns(h: seq<Call>) {
    forall i, j :: 0 <= i < j < |h| && h[i].Registers? && h[j].Registers? ==> h[i].conn != h[j].conn
  }

  lemma {:induction false} RegisteredOnce(h: seq<Call>, n: nat, c: Conn)
    requires n <= |h| && DistinctConns(h)
    ensures Registrations(h, n, c) <= 1
    ensures Registrations(h, n, c) > 0 ==> exists i :: 0 <= i < n && h[i].Registers? && h[i].conn == c
  {
    if n > 0 {
      RegisteredOnce(h, n - 1, c);
    }
  }

  /** With a fresh connection per session, a connection is handed back for closing exactly once
      if it left the map without its own session taking it out, and never otherwise. */
  lemma SupersededOnce(h: seq<Call>, n: nat, c: Conn)
    requires n <= |h| && DistinctConns(h)
    ensures HandedBack(h, n, c)
         == if Registrations(h, n, c) > 0 && UsersOf(Clients(h, n), c) == {} && TakenOut(h, n, c) == 0
            then 1 else 0
  {
    EachRegistrationEndsOnce(h, n, c);
    RegisteredOnce(h, n, c);
    assert |UsersOf(Clients(h, n), c)| == 0 <==> UsersOf(Clients(h, n), c) == {};
  }
}
