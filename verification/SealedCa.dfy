/** The sealed-sender authority: its key files, the rotation proof and a client that pins keys.
    Signatures are ideal: a signature is its signer and its statement, section 5.1 of RFC 8032. */
module SealedCa {
  import opened Envelopes

  type PrivateKey = nat

  datatype PublicKey = PublicKey(of: PrivateKey)

  datatype SenderCert = SenderCert(iss: string, uid: User, ik: string, expMs: int)

  datatype Statement = NewKey(key: PublicKey) | Attests(cert: SenderCert)

  datatype Signature = Signature(signer: PrivateKey, statement: Statement)

  predicate Verify(key: PublicKey, statement: Statement, sig: Signature) {
    sig == Signature(key.of, statement)
  }

  // ---------- key files ----------

  /** A key file of the right length, or not. */
  datatype KeyFile = Whole(key: PrivateKey) | Malformed

  datatype Files = Files(main: Option<KeyFile>, prev: Option<KeyFile>)

  datatype Proof = Proof(prevPub: PublicKey, sig: Signature)

  datatype Authority = Authority(priv: PrivateKey, pub: PublicKey, proof: Option<Proof>)

  /** A write can fail before it starts or part way through. */
  datatype WriteResult = WriteOk | WriteFailed | WriteTorn

  datatype Started = Started(files: Files, ca: Option<Authority>)

  /** readPrevKey and the signature made with it: a missing or malformed file yields no proof. */
  function ProofFrom(prev: Option<KeyFile>, pub: PublicKey): Option<Proof> {
    if prev.Some? && prev.value.Whole?
    then Some(Proof(PublicKey(prev.value.key), Signature(prev.value.key, NewKey(pub))))
    else None
  }

  function MakeAuthority(priv: PrivateKey, prev: Option<KeyFile>): Authority {
    Authority(priv, PublicKey(priv), ProofFrom(prev, PublicKey(priv)))
  }

  /** NewSealedCA; None is its error return. */
  function Start(f: Files, minted: PrivateKey, write: WriteResult): Started {
    match f.main
    case Some(Whole(k)) => Started(f, Some(MakeAuthority(k, f.prev)))
    case Some(Malformed) => Started(f, None)
    case None =>
      match write
      case WriteOk => Started(f.(main := Some(Whole(minted))), Some(MakeAuthority(minted, f.prev)))
      case WriteFailed => Started(f, None)
      case WriteTorn => Started(f.(main := Some(Malformed)), None)
  }

  class KeyStore {
    var files: Files

    constructor (files: Files)
      ensures this.files == files
    {
      this.files := files;
    }

    method NewSealedCA(minted: PrivateKey, write: WriteResult) returns (ca: Option<Authority>)
      modifies this
      ensures Started(files, ca) == Start(old(files), minted, write)
    {
      if files.main.Some? {
        if files.main.value.Malformed? {
          return None;
        }
        var priv := files.main.value.key;
        return Some(Authority(priv, PublicKey(priv), ProofFrom(files.prev, PublicKey(priv))));
      }
      if write == WriteFailed {
        return None;
      }
      if write == WriteTorn {
        files := files.(main := Some(Malformed));
        return None;
      }
      files := files.(main := Some(Whole(minted)));
      ca := Some(Authority(minted, PublicKey(minted), ProofFrom(files.prev, PublicKey(minted))));
    }
  }

  /** Once the authority has started, restarts change neither the key nor the proof. */
  lemma RestartsChangeNothing(f: Files, minted: PrivateKey, write: WriteResult, minted': PrivateKey, write': WriteResult)
    requires Start(f, minted, write).ca.Some?
    ensures Start(Start(f, minted, write).files, minted', write') == Start(f, minted, write)
  {
  }

  // ---------- certificates ----------

  const CERT_TTL_MS: nat := 24 * 60 * 60 * 1000

  datatype SignedCert = SignedCert(cert: SenderCert, sig: Signature)

  /** What verifies under the authority's key is exactly the certificate it issued: same issuer,
      user, identity key and expiry. */
  function IssueCert(ca: Authority, uid: User, ik: string, issuer: string, nowMs: int): (r: SignedCert)
    requires ca.pub == PublicKey(ca.priv)
    ensures forall c, k :: Verify(k, Attests(c), r.sig) <==>
              k == ca.pub && c == SenderCert(issuer, uid, ik, nowMs + CERT_TTL_MS)
  {
    var c := SenderCert(issuer, uid, ik, nowMs + CERT_TTL_MS);
    SignedCert(c, Signature(ca.priv, Attests(c)))
  }

  // ---------- a pinning client ----------

  /** What /sealed-ca serves. */
  datatype Answer = Answer(pub: PublicKey, proof: Option<Proof>)

  function AnswerOf(ca: Authority): Answer {
    Answer(ca.pub, ca.proof)
  }

  /** A client without a pin takes the key; a client with one moves to a different key only on a
      proof that verifies under its pin. */
  function Adopt(pin: Option<PublicKey>, a: Answer): PublicKey {
    if pin.None? then a.pub
    else if a.proof.Some? && a.proof.value.prevPub == pin.value
            && Verify(pin.value, NewKey(a.pub), a.proof.value.sig)
    then a.pub
    else pin.value
  }
}
