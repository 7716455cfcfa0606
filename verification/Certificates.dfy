/** Sender certificates over all runs: who they name and whose key they carry. */
module Certificates {
  import opened Envelopes
  import opened Address
  import opened Prekeys
  import opened PrekeyRuns
  import opened SealedCa

  /** What reaches the prekey store. A session is named by the id it authenticated with, the public
      endpoint by the id in its path. */
  datatype Frame =
    | RegisterPrekeys(session: string, bundle: Bundle, end: End)
    | FetchPrekey(user: User, end: End)
    | RequestCert(session: string, nowMs: int)
    | ProcessRestarts

  /** Frames of a session act under its normalised id. */
  function Enter(f: Frame, relayId: string): Op {
    match f
    case RegisterPrekeys(session, b, end) => Publication(SessionKey(session, relayId), b, end)
    case FetchPrekey(user, end) => Consumption(user, end)
    case RequestCert(session, nowMs) => Certification(SessionKey(session, relayId), nowMs)
    case ProcessRestarts => PrekeyRuns.Restart
  }

  function Entered(fs: seq<Frame>, relayId: string): seq<Op> {
    seq(|fs|, k requires 0 <= k < |fs| => Enter(fs[k], relayId))
  }

  /** What buildSenderCert signs for an authenticated user. */
  function CertFor(v: Vault, uid: User, relayId: string, nowMs: int): Option<SenderCert> {
    if uid in v.mem then Some(SenderCert(relayId, uid, v.mem[uid].identityKey, nowMs + CERT_TTL_MS)) else None
  }

  lemma CertNamesCurrent(ops: seq<Op>, n: nat, uid: User, relayId: string, nowMs: int)
    requires n <= |ops|
    ensures var cert, g := CertFor(Run(ops, n), uid, relayId, nowMs), Cur(ops, n, uid);
            && (cert.Some? <==> g.Some?)
            && (g.Some? ==>
                  && g.value < n && Publishes(ops[g.value], uid)
                  && cert.value == SenderCert(relayId, uid, ops[g.value].bundle.identityKey, nowMs + CERT_TTL_MS))
  {
    RunAgrees(ops, n, uid);
    SlotsInForce(ops, n, uid);
  }

  /** Every certificate, over all runs with crashes and failed persists: it is issued exactly when a
      registration of the requesting session's normalised id is in force, and names that id and the
      identity key of that registration, which a session with the same normalised id sent in a
      valid bundle; it expires 24 hours after its issue. */
  lemma CertificateProvenance(relayId: string, fs: seq<Frame>, n: nat)
    requires n < |fs| && fs[n].RequestCert?
    ensures var ops, uid := Entered(fs, relayId), SessionKey(fs[n].session, relayId);
            var cert, g := CertFor(Run(ops, n), uid, relayId, fs[n].nowMs), Cur(ops, n, uid);
            && (cert.Some? <==> g.Some?)
            && (g.Some? ==>
                  && g.value < n && fs[g.value].RegisterPrekeys? && ValidBundle(fs[g.value].bundle)
                  && SessionKey(fs[g.value].session, relayId) == uid
                  && cert.value == SenderCert(relayId, uid, fs[g.value].bundle.identityKey, fs[n].nowMs + CERT_TTL_MS))
  {
    var ops := Entered(fs, relayId);
    var uid := SessionKey(fs[n].session, relayId);
    CertNamesCurrent(ops, n, uid, relayId, fs[n].nowMs);
    var g := Cur(ops, n, uid);
    if g.Some? {
      assert ops[g.value] == Enter(fs[g.value], relayId);
    }
  }
}
