/** The two request handlers that combine the objects: the public prekey endpoint and the
    sender-certificate request. */
module Endpoints {
  import opened Envelopes
  import opened SlidingWindow
  import opened RateLimiter
  import opened Prekeys
  import PrekeyDrain
  import SealedCa
  import Certificates

  /** The limiter and store objects hold what the drain model's state says. */
  ghost predicate Holds(limiter: Limiter, store: PrekeyStore, s: PrekeyDrain.Relay)
    reads limiter, limiter.Backings(), store
  {
    && limiter.Valid() && limiter.perMin == PrekeyDrain.FETCHES_PER_MIN
    && store.View() == s.vault
    && forall k :: limiter.View(k) == Lookup(s.attempts, k)
  }

  /** One call of a limiter, seen on the whole attempts map. */
  method Admit(limiter: Limiter, key: string, now: Time, ghost m: map<string, seq<Time>>) returns (admitted: bool)
    requires limiter.Valid() && forall k :: limiter.View(k) == Lookup(m, k)
    modifies limiter`attempts, limiter.Backings()
    ensures limiter.Valid() && forall k :: limiter.View(k) == Lookup(OnCall(limiter.perMin, m, Call(key, now)), k)
    ensures admitted == SlidingWindow.Allow(limiter.perMin, Lookup(m, key), now).admitted
  {
    admitted := limiter.Allow(key, now);
  }

  /** The two events of one request. */
  ghost function Handled(s: PrekeyDrain.Relay, target: User, now: Time, at: Time, persists: bool): PrekeyDrain.Relay {
    PrekeyDrain.Step(PrekeyDrain.Step(s, PrekeyDrain.Admit(target, now)), PrekeyDrain.Fetch(|s.tickets|, at, persists))
  }

  /** handlePrekeysGet: the two steps of the drain model with nothing in between. The static fields
      are the same whether or not the budget allows a key; the answer is empty only for a bad id
      or an unknown user. */
  method HandlePrekeysGet(limiter: Limiter, store: PrekeyStore, target: User, now: Time, persists: bool,
                          ghost s: PrekeyDrain.Relay, ghost at: Time)
    returns (r: Option<Response>)
    requires Holds(limiter, store, s)
    modifies limiter`attempts, limiter.Backings(), store
    ensures Holds(limiter, store, Handled(s, target, now, at, persists))
    ensures r.Some? <==> PrekeyDrain.Served(target) && target in s.vault.mem
    ensures r.Some? ==>
              var b := s.vault.mem[target];
              var key := if PrekeyDrain.Admits(s, target, now) then Popped(s.vault, target) else None;
              r.value == Response(b.identityKey, b.signedPrekey, b.signedPrekeySig, b.signedPrekeyId, key)
  {
    if target == "" || '/' in target || '?' in target || '#' in target {
      return None;
    }
    var consume := Admit(limiter, target, now, s.attempts);
    r := store.GetBundleWithOTPK(target, consume, persists);
  }

  /** buildSenderCert: no bundle, no certificate; otherwise it is the one the provenance results are
      about, and nothing else verifies under the signature. */
  method BuildSenderCert(store: PrekeyStore, ca: SealedCa.Authority, user: User, relayId: string, nowMs: int)
    returns (r: Option<SealedCa.SignedCert>)
    requires ca.pub == SealedCa.PublicKey(ca.priv)
    ensures r.Some? <==> Certificates.CertFor(store.View(), user, relayId, nowMs).Some?
    ensures r.Some? ==> forall c, k :: SealedCa.Verify(k, SealedCa.Attests(c), r.value.sig) <==>
              k == ca.pub && Some(c) == Certificates.CertFor(store.View(), user, relayId, nowMs)
  {
    var ik := store.IdentityKeyOf(user);
    if ik.None? {
      return None;
    }
    r := Some(SealedCa.IssueCert(ca, user, ik.value, relayId, nowMs));
  }
}
