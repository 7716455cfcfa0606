/** Relay addresses: `user`, `user@host` and `user@host:port`. */
module Address {
  import opened Envelopes

  /** The first index of `c` at or after `from`, or -1. */
  function IndexFrom(s: string, c: char, from: nat): (i: int)
    requires from <= |s|
    ensures i == -1 <==> c !in s[from..]
    ensures i != -1 ==> from <= i < |s| && s[i] == c && c !in s[from..i]
    decreases |s| - from
  {
    if from == |s| then -1
    else if s[from] == c then from
    else
      var i := IndexFrom(s, c, from + 1);
      assert s[from..] == [s[from]] + s[from + 1..];
      assert i != -1 ==> s[from..i] == [s[from]] + s[from + 1..i];
      i
  }

  /** The last index of `c` below `upto`, or -1. */
  function LastIndex(s: string, c: char, upto: nat): (i: int)
    requires upto <= |s|
    ensures i == -1 <==> c !in s[..upto]
    ensures i != -1 ==> 0 <= i < upto && s[i] == c && c !in s[i + 1..upto]
  {
    if upto == 0 then -1
    else if s[upto - 1] == c then upto - 1
    else
      var i := LastIndex(s, c, upto - 1);
      assert s[..upto] == s[..upto - 1] + [s[upto - 1]];
      assert i != -1 ==> s[i + 1..upto] == s[i + 1..upto - 1] + [s[upto - 1]];
      i
  }

  datatype Name = Bare(user: string) | At(user: string, domain: string)

  /** strings.SplitN(s, "@", 2): cut at the first '@', if there is one. */
  function Split(s: string): (n: Name)
    ensures n.Bare? <==> '@' !in s
    ensures '@' !in n.user
    ensures s == if n.Bare? then n.user else n.user + "@" + n.domain
  {
    var i := IndexFrom(s, '@', 0);
    assert s[0..] == s;
    if i == -1 then Bare(s)
    else
      assert s == s[..i] + [s[i]] + s[i + 1..];
      At(s[..i], s[i + 1..])
  }

  datatype HostPort = HostPort(host: string, port: string)

  predicate Plain(s: string) {
    '[' !in s && ']' !in s
  }

  /** `s` is `host:port`, or `[host]:port` when the host may hold colons. */
  predicate Joins(host: string, port: string, s: string) {
    && Plain(host) && Plain(port) && ':' !in port
    && (s == "[" + host + "]:" + port || (s == host + ":" + port && ':' !in host))
  }

  /** `[host]:port`, with the last colon at `i`: the first ']' has to come right before it. */
  function SplitBracketed(s: string, i: nat): (r: Option<HostPort>)
    requires i < |s| && s[i] == ':' && ':' !in s[i + 1..] && s[0] == '['
    ensures r.Some? ==> Joins(r.value.host, r.value.port, s)
  {
    var end := IndexFrom(s, ']', 0);
    if end < 0 || end + 1 != i || '[' in s[1..] || ']' in s[i..] then None
    else
      assert s == "[" + s[1..end] + "]:" + s[i + 1..];
      assert s[1..] == s[1..end] + s[end..i] + s[i..] && s[i..] == [s[i]] + s[i + 1..];
      assert ']' !in s[1..end] by {
        assert s[0..end] == [s[0]] + s[1..end];
      }
      Some(HostPort(s[1..end], s[i + 1..]))
  }

  /** net.SplitHostPort; None is its error return. */
  function SplitHostPort(s: string): (r: Option<HostPort>)
    ensures r.Some? ==> Joins(r.value.host, r.value.port, s)
  {
    var i := LastIndex(s, ':', |s|);
    if i < 0 then None
    else if s[0] == '[' then SplitBracketed(s, i)
    else if ':' in s[..i] || '[' in s || ']' in s then None
    else
      assert s == s[..i] + [s[i]] + s[i + 1..];
      Some(HostPort(s[..i], s[i + 1..]))
  }

  lemma LastColonIs(s: string, front: string, port: string)
    requires s == front + ":" + port && ':' !in port
    ensures LastIndex(s, ':', |s|) == |front| && s[|front| + 1..] == port && s[..|front|] == front
  {
    assert s[|front|] == ':' && s[..|s|] == s;
    assert forall k :: |front| < k < |s| ==> s[k] == port[k - |front| - 1];
  }

  lemma SplitUndoesPlainJoin(host: string, port: string, s: string)
    requires Plain(host) && Plain(port) && ':' !in port && ':' !in host && s == host + ":" + port
    ensures SplitHostPort(s) == Some(HostPort(host, port))
  {
    LastColonIs(s, host, port);
    assert forall c :: c in s ==> c in host || c == ':' || c in port;
  }

  lemma FirstBracketIs(host: string, port: string, s: string)
    requires Plain(host) && s == "[" + host + "]:" + port
    ensures IndexFrom(s, ']', 0) == |host| + 1
  {
    assert s[0..][|host| + 1] == ']';
    assert forall k :: 1 <= k < |host| + 1 ==> s[k] == host[k - 1];
  }

  lemma BracketedParts(host: string, port: string, s: string)
    requires Plain(host) && Plain(port) && s == "[" + host + "]:" + port
    ensures '[' !in s[1..] && ']' !in s[|host| + 2..] && s[1..|host| + 1] == host && s[|host| + 3..] == port
  {
  }

  lemma SplitUndoesBracketJoin(host: string, port: string, s: string)
    requires Plain(host) && Plain(port) && ':' !in port && s == "[" + host + "]:" + port
    ensures SplitHostPort(s) == Some(HostPort(host, port))
  {
    LastColonIs(s, "[" + host + "]", port);
    FirstBracketIs(host, port, s);
    BracketedParts(host, port, s);
  }

  /** SplitHostPort accepts every joined address and recovers its two parts. */
  lemma SplitUndoesJoin(host: string, port: string, s: string)
    requires Joins(host, port, s)
    ensures SplitHostPort(s) == Some(HostPort(host, port))
  {
    if s == "[" + host + "]:" + port {
      SplitUndoesBracketJoin(host, port, s);
    } else {
      SplitUndoesPlainJoin(host, port, s);
    }
  }

  /** The fallback isLocalRelay applies: no parsable port means the whole string is the host. */
  function HostPortOf(s: string): HostPort {
    var r := SplitHostPort(s);
    if r.Some? then r.value else HostPort(s, "")
  }

  predicate IsLocalRelay(domain: string, relayId: string) {
    var d, r := HostPortOf(domain), HostPortOf(relayId);
    d.host == r.host && (d.port == "" || d.port == r.port)
  }

  /** The registry key serveConn uses for a client that authenticated as `userId`. A key that
      still holds an '@' names a foreign domain. */
  function SessionKey(userId: string, relayId: string): (k: User)
    ensures '@' in k <==> Split(userId).At? && !IsLocalRelay(Split(userId).domain, relayId)
  {
    var n := Split(userId);
    if n.At? && IsLocalRelay(n.domain, relayId) then n.user else userId
  }

  datatype Destination = Local(user: User) | Forward(domain: string) | Discard

  /** What deliver does with a recipient id before it touches the store. A local recipient is
      looked up and stored under the key that a client authenticating with that very id is
      registered and flushed under. */
  function Destine(recipientId: string, relayId: string, sealedForm: bool): (d: Destination)
    ensures d.Local? <==> '@' !in SessionKey(recipientId, relayId)
    ensures d.Local? ==> d.user == SessionKey(recipientId, relayId)
    ensures d.Forward? <==> '@' in SessionKey(recipientId, relayId) && sealedForm
    ensures d.Forward? ==> d.domain == Split(recipientId).domain && !IsLocalRelay(d.domain, relayId)
  {
    var n := Split(recipientId);
    if n.Bare? then Local(n.user)
    else if IsLocalRelay(n.domain, relayId) then Local(n.user)
    else if sealedForm then Forward(n.domain)
    else Discard
  }

  /** What handleFederationDeliver hands to deliver: the bare user name, or nothing. Whatever
      it is, deliver keeps it on this relay. */
  function FederatedUser(recipientId: string, relayId: string): (u: Option<User>)
    ensures u.Some? <==> '@' !in SessionKey(recipientId, relayId)
    ensures u.Some? ==> u.value == SessionKey(recipientId, relayId)
    ensures u.Some? ==> forall r, b :: Destine(u.value, r, b) == Local(u.value)
  {
    var n := Split(recipientId);
    if n.At? && !IsLocalRelay(n.domain, relayId) then None
    else
      assert Split(n.user).Bare?;
      Some(n.user)
  }

  lemma SessionKeyIdempotent(userId: string, relayId: string)
    ensures SessionKey(SessionKey(userId, relayId), relayId) == SessionKey(userId, relayId)
  {
  }

  /** HostPortOf in terms of joining. */
  lemma HostPortMeans(s: string, host: string, port: string)
    ensures HostPortOf(s) == HostPort(host, port)
       <==> Joins(host, port, s) || (s == host && port == "" && SplitHostPort(s) == None)
  {
    if Joins(host, port, s) {
      SplitUndoesJoin(host, port, s);
    }
  }

  /** Which domains a relay calls its own, for every relay id with or without a port: the bare
      host, the host with an empty port, and the host with the relay's port; nothing else. */
  lemma LocalDomains(domain: string, relayId: string)
    ensures var r := HostPortOf(relayId);
            IsLocalRelay(domain, relayId) <==>
              || (domain == r.host && SplitHostPort(r.host) == None)
              || Joins(r.host, "", domain)
              || Joins(r.host, r.port, domain)
  {
    var r, d := HostPortOf(relayId), HostPortOf(domain);
    HostPortMeans(domain, r.host, "");
    HostPortMeans(domain, r.host, r.port);
    assert IsLocalRelay(domain, relayId) <==> d == HostPort(r.host, "") || d == HostPort(r.host, r.port);
  }
}
