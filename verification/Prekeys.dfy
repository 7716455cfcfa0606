/** Prekey bundles: structural validation and the store object. */
module Prekeys {
  import opened Envelopes

  const PUB_KEY_LEN: nat := 32
  const SIG_LEN: nat := 64
  const MAX_ONE_TIME: nat := 100

  /** Ids are uint32 on the wire. */
  datatype OneTimePrekey = OneTimePrekey(id: nat, key: string)

  datatype Bundle = Bundle(
    identityKey: string, signedPrekey: string, signedPrekeySig: string, signedPrekeyId: nat,
    oneTime: seq<OneTimePrekey>)

  // ---------- base64 lengths ----------

  predicate InAlphabet(c: char) {
    'A' <= c <= 'Z' || 'a' <= c <= 'z' || '0' <= c <= '9' || c == '+' || c == '/'
  }

  /** The decoder skips line breaks. */
  function StripBreaks(s: string): string {
    if s == [] then []
    else if s[0] == '\r' || s[0] == '\n' then StripBreaks(s[1..])
    else [s[0]] + StripBreaks(s[1..])
  }

  function PaddedLength(t: string): Option<nat> {
    var n := |t|;
    if n % 4 != 0 then None
    else if forall i :: 0 <= i < n ==> InAlphabet(t[i]) then Some(n / 4 * 3)
    else if t[n - 1] != '=' then None
    else if forall i :: 0 <= i < n - 1 ==> InAlphabet(t[i]) then Some(n / 4 * 3 - 1)
    else if t[n - 2] == '=' && forall i :: 0 <= i < n - 2 ==> InAlphabet(t[i]) then Some(n / 4 * 3 - 2)
    else None
  }

  /** The number of bytes standard padded base64 decodes to, section 4 of RFC 4648. */
  function DecodedLength(s: string): Option<nat> {
    PaddedLength(StripBreaks(s))
  }

  /** `digits` base64 digits and then `pad` padding signs. */
  predicate Shaped(t: string, digits: nat, pad: nat) {
    && |t| == digits + pad
    && (forall i :: 0 <= i < digits && i < |t| ==> InAlphabet(t[i]))
    && (forall i :: digits <= i < |t| ==> t[i] == '=')
  }

  lemma Groups(n: nat)
    ensures var digits, pad := (4 * n + 2) / 3, (3 - n % 3) % 3;
            pad <= 2 && (digits + pad) % 4 == 0 && (digits + pad) / 4 * 3 - pad == n
  {
    var q, r := n / 3, n % 3;
    assert n == 3 * q + r;
    if r == 0 {
      assert (4 * n + 2) / 3 == 4 * q;
    } else if r == 1 {
      assert (4 * n + 2) / 3 == 4 * q + 2;
    } else {
      assert (4 * n + 2) / 3 == 4 * q + 3;
    }
  }

  lemma ShapeFixesLength(t: string, digits: nat, pad: nat)
    requires pad <= 2 && (digits + pad) % 4 == 0 && Shaped(t, digits, pad)
    ensures PaddedLength(t) == Some((digits + pad) / 4 * 3 - pad)
  {
    if pad > 0 {
      assert t[digits] == t[|t| - 1] == '=' && !InAlphabet(t[digits]);
    }
  }

  lemma LengthFixesShape(t: string, n: nat) returns (pad: nat)
    requires PaddedLength(t) == Some(n)
    ensures pad <= 2 && pad <= |t| && |t| % 4 == 0 && n == |t| / 4 * 3 - pad && Shaped(t, |t| - pad, pad)
  {
    pad := |t| / 4 * 3 - n;
  }

  /** A string decodes to `n` bytes exactly when, line breaks aside, it is `n` bytes' worth of
      base64 digits followed by the padding that `n` calls for. */
  lemma LengthMeansShape(s: string, n: nat)
    ensures DecodedLength(s) == Some(n)
       <==> Shaped(StripBreaks(s), (4 * n + 2) / 3, (3 - n % 3) % 3)
  {
    var t, digits, pad := StripBreaks(s), (4 * n + 2) / 3, (3 - n % 3) % 3;
    Groups(n);
    if Shaped(t, digits, pad) {
      ShapeFixesLength(t, digits, pad);
    }
    if PaddedLength(t) == Some(n) {
      var p := LengthFixesShape(t, n);
    }
  }

  predicate HasLength(s: string, want: nat) {
    DecodedLength(s) == Some(want)
  }

  // ---------- validation ----------

  ghost predicate DistinctIds(ks: seq<OneTimePrekey>) {
    forall i, j :: 0 <= i < j < |ks| ==> ks[i].id != ks[j].id
  }

  ghost predicate AllHaveLength(ks: seq<OneTimePrekey>) {
    forall i :: 0 <= i < |ks| ==> HasLength(ks[i].key, PUB_KEY_LEN)
  }

  /** What a stored bundle must look like. */
  ghost predicate ValidBundle(b: Bundle) {
    && HasLength(b.identityKey, PUB_KEY_LEN) && HasLength(b.signedPrekey, PUB_KEY_LEN)
    && HasLength(b.signedPrekeySig, SIG_LEN) && b.signedPrekeyId != 0
    && |b.oneTime| <= MAX_ONE_TIME && DistinctIds(b.oneTime) && AllHaveLength(b.oneTime)
  }

  datatype Error =
    | NoError | EmptyUser | BadIdentityKey | BadSignedPrekey | BadSignature | BadSignedPrekeyId
    | TooManyKeys | BadOneTimeKey | DuplicateId | PersistFailed

  /** The loop over the one-time prekeys with its growing `seen` set. */
  method CheckOneTime(ks: seq<OneTimePrekey>) returns (e: Error)
    ensures e == NoError <==> DistinctIds(ks) && AllHaveLength(ks)
    ensures e == NoError || e == BadOneTimeKey || e == DuplicateId
    ensures e == DuplicateId ==> !DistinctIds(ks)
  {
    var seen: set<nat> := {};
    for i := 0 to |ks|
      invariant forall k :: k in seen <==> exists j :: 0 <= j < i && ks[j].id == k
      invariant DistinctIds(ks[..i]) && AllHaveLength(ks[..i])
    {
      if !HasLength(ks[i].key, PUB_KEY_LEN) {
        return BadOneTimeKey;
      }
      if ks[i].id in seen {
        return DuplicateId;
      }
      seen := seen + {ks[i].id};
    }
    assert ks[..|ks|] == ks;
    e := NoError;
  }

  /** Accepts exactly the valid bundles. */
  method ValidatePrekeyBundle(b: Bundle) returns (e: Error)
    ensures e == NoError <==> ValidBundle(b)
    ensures e != EmptyUser && e != PersistFailed
    ensures e == DuplicateId ==> !DistinctIds(b.oneTime)
  {
    if !HasLength(b.identityKey, PUB_KEY_LEN) {
      return BadIdentityKey;
    }
    if !HasLength(b.signedPrekey, PUB_KEY_LEN) {
      return BadSignedPrekey;
    }
    if !HasLength(b.signedPrekeySig, SIG_LEN) {
      return BadSignature;
    }
    if b.signedPrekeyId == 0 {
      return BadSignedPrekeyId;
    }
    if |b.oneTime| > MAX_ONE_TIME {
      return TooManyKeys;
    }
    e := CheckOneTime(b.oneTime);
  }

  /** Popping keys keeps a bundle valid. */
  lemma DropKeepsValid(b: Bundle, n: nat)
    requires ValidBundle(b) && n <= |b.oneTime|
    ensures ValidBundle(b.(oneTime := b.oneTime[n..]))
  {
  }

  ghost predicate AllValid(m: map<User, Bundle>) {
    forall u :: u in m ==> ValidBundle(m[u])
  }

  lemma PutKeepsValid(m: map<User, Bundle>, user: User, b: Bundle)
    requires AllValid(m) && ValidBundle(b)
    ensures AllValid(m[user := b])
  {
  }

  lemma PopKeepsValid(m: map<User, Bundle>, user: User)
    requires AllValid(m) && user in m && m[user].oneTime != []
    ensures AllValid(m[user := m[user].(oneTime := m[user].oneTime[1..])])
  {
    DropKeepsValid(m[user], 1);
    PutKeepsValid(m, user, m[user].(oneTime := m[user].oneTime[1..]));
  }

  // ---------- the store's operations on values ----------

  /** `disk` is the map in the snapshot file. */
  datatype Vault = Vault(mem: map<User, Bundle>, disk: map<User, Bundle>)

  function Saved(v: Vault, mem: map<User, Bundle>, persists: bool): Vault {
    Vault(mem, if persists then mem else v.disk)
  }

  ghost function Publish(v: Vault, user: User, b: Bundle, persists: bool): Vault {
    if user == "" || !ValidBundle(b) then v else Saved(v, v.mem[user := b], persists)
  }

  predicate HasKey(v: Vault, user: User) {
    user in v.mem && v.mem[user].oneTime != []
  }

  /** Take the head of the user's list, if there is one. */
  function Pop(v: Vault, user: User, persists: bool): Vault {
    if !HasKey(v, user) then v
    else Saved(v, v.mem[user := v.mem[user].(oneTime := v.mem[user].oneTime[1..])], persists)
  }

  function Popped(v: Vault, user: User): Option<OneTimePrekey> {
    if HasKey(v, user) then Some(v.mem[user].oneTime[0]) else None
  }

  datatype Response = Response(
    identityKey: string, signedPrekey: string, signedPrekeySig: string, signedPrekeyId: nat,
    oneTime: Option<OneTimePrekey>)

  class PrekeyStore {
    var bundles: map<User, Bundle>
    var disk: map<User, Bundle>

    ghost function View(): Vault
      reads this
    {
      Vault(bundles, disk)
    }

    ghost predicate Valid()
      reads this
    {
      AllValid(bundles) && AllValid(disk)
    }

    /** NewPrekeyStore; the loaded bundles are not validated again. */
    constructor (saved: map<User, Bundle>)
      ensures bundles == saved && disk == saved
    {
      bundles, disk := saved, saved;
    }

    method PersistLocked(succeeds: bool)
      modifies this`disk
      ensures disk == if succeeds then bundles else old(disk)
    {
      if succeeds {
        disk := bundles;
      }
    }

    /** Memory is unchanged on a validation error, but not on a persist error. */
    method RegisterBundle(user: User, b: Bundle, persists: bool) returns (e: Error)
      modifies this`bundles, this`disk
      ensures old(Valid()) ==> Valid()
      ensures View() == Publish(old(View()), user, b, persists)
      ensures e == NoError <==> user != "" && ValidBundle(b) && persists
      ensures e == PersistFailed <==> user != "" && ValidBundle(b) && !persists
    {
      if user == "" {
        return EmptyUser;
      }
      e := ValidatePrekeyBundle(b);
      if e != NoError {
        return;
      }
      if AllValid(bundles) {
        PutKeepsValid(bundles, user, b);
      }
      bundles := bundles[user := b];
      PersistLocked(persists);
      if !persists {
        e := PersistFailed;
      }
    }

    /** The static fields are served whether or not a key is consumed. */
    method GetBundleWithOTPK(user: User, consume: bool, persists: bool) returns (r: Option<Response>)
      modifies this`bundles, this`disk
      ensures old(Valid()) ==> Valid()
      ensures View() == if consume then Pop(old(View()), user, persists) else old(View())
      ensures r.Some? <==> user in old(bundles)
      ensures r.Some? ==> var b := old(bundles)[user];
                          r.value == Response(b.identityKey, b.signedPrekey, b.signedPrekeySig, b.signedPrekeyId,
                                              if consume then Popped(old(View()), user) else None)
    {
      if user !in bundles {
        return None;
      }
      var b := bundles[user];
      var key: Option<OneTimePrekey> := None;
      if consume && |b.oneTime| > 0 {
        if AllValid(bundles) {
          PopKeepsValid(bundles, user);
        }
        key := Some(b.oneTime[0]);
        bundles := bundles[user := b.(oneTime := b.oneTime[1..])];
        PersistLocked(persists);
      }
      r := Some(Response(b.identityKey, b.signedPrekey, b.signedPrekeySig, b.signedPrekeyId, key));
    }

    method ConsumeOneTimePrekey(user: User, persists: bool) returns (key: Option<OneTimePrekey>)
      modifies this`bundles, this`disk
      ensures old(Valid()) ==> Valid()
      ensures View() == Pop(old(View()), user, persists)
      ensures key == Popped(old(View()), user)
    {
      if user !in bundles || |bundles[user].oneTime| == 0 {
        return None;
      }
      var b := bundles[user];
      if AllValid(bundles) {
        PopKeepsValid(bundles, user);
      }
      key := Some(b.oneTime[0]);
      bundles := bundles[user := b.(oneTime := b.oneTime[1..])];
      PersistLocked(persists);
    }

    method IdentityKeyOf(user: User) returns (key: Option<string>)
      ensures key.Some? <==> user in bundles
      ensures key.Some? ==> key.value == bundles[user].identityKey
    {
      key := if user in bundles then Some(bundles[user].identityKey) else None;
    }
  }
}
