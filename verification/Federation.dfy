/** A network of relays: client submissions, forwards between relays and the federation endpoint.
    Any relay may have any id, a forwarded request may reach any relay any number of times, and
    requests that no relay sent may arrive too. */
module Federation {
  import opened Envelopes
  import opened Address

  /** A POST to /federation/deliver at `domain` that stems from client submission number `origin`,
      or from a request that no relay sent. */
  datatype Post = Post(envelope: Envelope, domain: string, header: string, origin: Option<nat>)

  /** A message handed to the store of `relay` under key `user`. */
  datatype Arrival = Arrival(relay: nat, user: User, envelope: Envelope, origin: Option<nat>)

  /** `posts` holds every forward ever made, in order. */
  datatype Network = Network(submissions: nat, posts: seq<Post>, arrivals: seq<Arrival>)

  datatype Event =
    | Submit(relay: nat, envelope: Envelope)
    | Receive(relay: nat, post: nat)
    | Intrude(relay: nat, envelope: Envelope, header: string)

  /** Router.deliver at `relay`. */
  function Deliver(n: Network, ids: seq<string>, relay: nat, to: string, env: Envelope, origin: Option<nat>): Network
    requires relay < |ids|
  {
    match Destine(to, ids[relay], env.Sealed?)
    case Local(user) => n.(arrivals := n.arrivals + [Arrival(relay, user, env, origin)])
    case Forward(domain) => n.(posts := n.posts + [Post(env, domain, ids[relay], origin)])
    case Discard => n
  }

  predicate Acceptable(env: Envelope) {
    env.recipientId != "" && env.ciphertext != ""
  }

  /** handleFederationDeliver. */
  function Accept(n: Network, ids: seq<string>, relay: nat, env: Envelope, header: string, origin: Option<nat>): Network
    requires relay < |ids|
  {
    if header == "" || !env.Sealed? || !Acceptable(env) then n else
    var u := FederatedUser(env.recipientId, ids[relay]);
    if u.None? then n else Deliver(n, ids, relay, u.value, env.(senderRelay := header), origin)
  }

  function Step(n: Network, ids: seq<string>, e: Event): Network {
    if e.relay >= |ids| then n else
    match e
    case Submit(relay, env) =>
      if !Acceptable(env) then n
      else Deliver(n.(submissions := n.submissions + 1), ids, relay, env.recipientId, env, Some(n.submissions))
    case Receive(relay, i) =>
      if i >= |n.posts| then n
      else Accept(n, ids, relay, n.posts[i].envelope, n.posts[i].header, n.posts[i].origin)
    case Intrude(relay, env, header) => Accept(n, ids, relay, env, header, None)
  }

  function Run(ids: seq<string>, es: seq<Event>, n: nat): Network
    requires n <= |es|
  {
    if n == 0 then Network(0, [], []) else Step(Run(ids, es, n - 1), ids, es[n - 1])
  }

  /** Filed under the '@'-free key that this relay's own clients with that id register under. */
  predicate Filed(a: Arrival, ids: seq<string>) {
    a.relay < |ids| && '@' !in a.user && a.user == SessionKey(a.envelope.recipientId, ids[a.relay])
  }

  /** A sealed envelope on its way to the domain in its recipient id, which is not the sender's. */
  predicate Sent(p: Post) {
    && p.envelope.Sealed? && Split(p.envelope.recipientId).At?
    && p.domain == Split(p.envelope.recipientId).domain && !IsLocalRelay(p.domain, p.header)
  }

  /** It stems from one of the submissions so far. */
  predicate Own(p: Post, submissions: nat) {
    p.origin.Some? && p.origin.value < submissions
  }

  ghost predicate Inv(n: Network, ids: seq<string>) {
    && (forall i :: 0 <= i < |n.posts| ==> Own(n.posts[i], n.submissions) && Sent(n.posts[i]))
    && (forall i, j :: 0 <= i < j < |n.posts| ==> n.posts[i].origin != n.posts[j].origin)
    && (forall i :: 0 <= i < |n.arrivals| ==> Filed(n.arrivals[i], ids))
  }

  /** A request that came in over federation, whoever sent it, is never forwarded: it is dropped or
      filed. */
  lemma ReceiveNeverForwards(n: Network, ids: seq<string>, e: Event)
    requires !e.Submit?
    ensures Step(n, ids, e) == n
         || (exists a :: Filed(a, ids) && Step(n, ids, e) == n.(arrivals := n.arrivals + [a]))
  {
  }

  /** A submission is dropped, filed, or forwarded once as a sealed envelope. */
  lemma SubmitOnce(n: Network, ids: seq<string>, e: Event)
    requires e.Submit?
    ensures var n' := n.(submissions := n.submissions + 1);
            || Step(n, ids, e) == n
            || Step(n, ids, e) == n'
            || (exists a :: Filed(a, ids) && Step(n, ids, e) == n'.(arrivals := n.arrivals + [a]))
            || (exists p: Post :: p.origin == Some(n.submissions) && Sent(p)
                               && Step(n, ids, e) == n'.(posts := n.posts + [p]))
  {
  }

  lemma AddArrival(n: Network, ids: seq<string>, a: Arrival, submissions: nat)
    requires Inv(n, ids) && Filed(a, ids) && n.submissions <= submissions
    ensures Inv(n.(submissions := submissions, arrivals := n.arrivals + [a]), ids)
  {
  }

  lemma AddPost(n: Network, ids: seq<string>, p: Post)
    requires Inv(n, ids) && p.origin == Some(n.submissions) && Sent(p)
    ensures Inv(n.(submissions := n.submissions + 1, posts := n.posts + [p]), ids)
  {
  }

  lemma ReceiveInv(n: Network, ids: seq<string>, e: Event)
    requires Inv(n, ids) && !e.Submit?
    ensures Inv(Step(n, ids, e), ids)
  {
    var n' := Step(n, ids, e);
    ReceiveNeverForwards(n, ids, e);
    if n' != n {
      var a :| Filed(a, ids) && n' == n.(arrivals := n.arrivals + [a]);
      AddArrival(n, ids, a, n.submissions);
    }
  }

  lemma SubmitInv(n: Network, ids: seq<string>, relay: nat, env: Envelope)
    requires Inv(n, ids) && relay < |ids|
    ensures Inv(Deliver(n.(submissions := n.submissions + 1), ids, relay, env.recipientId, env, Some(n.submissions)), ids)
  {
    var d := Destine(env.recipientId, ids[relay], env.Sealed?);
    match d
    case Local(user) => AddArrival(n, ids, Arrival(relay, user, env, Some(n.submissions)), n.submissions + 1);
    case Forward(domain) => AddPost(n, ids, Post(env, domain, ids[relay], Some(n.submissions)));
    case Discard =>
  }

  lemma StepInv(n: Network, ids: seq<string>, e: Event)
    requires Inv(n, ids)
    ensures Inv(Step(n, ids, e), ids)
  {
    if !e.Submit? {
      ReceiveInv(n, ids, e);
    } else if e.relay < |ids| {
      SubmitInv(n, ids, e.relay, e.envelope);
    }
  }

  lemma {:induction false} RunInv(ids: seq<string>, es: seq<Event>, n: nat)
    requires n <= |es|
    ensures Inv(Run(ids, es, n), ids)
  {
    if n > 0 {
      RunInv(ids, es, n - 1);
      StepInv(Run(ids, es, n - 1), ids, es[n - 1]);
    }
  }

  /** At most one hop: in every network and every run, every forward stems from a submission, two
      forwards never from the same one, only sealed envelopes leave a relay and go to the foreign
      domain their recipient id names, and every arrival is filed under the '@'-free session key of
      its recipient at the relay it arrived at. */
  lemma AtMostOneHop(ids: seq<string>, es: seq<Event>)
    ensures var n := Run(ids, es, |es|);
            && (forall i, j :: 0 <= i < j < |n.posts| ==> n.posts[i].origin != n.posts[j].origin)
            && (forall i :: 0 <= i < |n.posts| ==> Own(n.posts[i], n.submissions) && Sent(n.posts[i]))
            && (forall i :: 0 <= i < |n.arrivals| ==> Filed(n.arrivals[i], ids))
  {
    RunInv(ids, es, |es|);
  }
}
