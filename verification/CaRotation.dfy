/** Key rotation: every sequence of restarts, failed writes and operator actions on the key files,
    and a client that pins keys while anything may answer it. */
module CaRotation {
  import opened Envelopes
  import opened SealedCa

  /** `chain` holds every key ever minted, oldest first. */
  datatype World = World(files: Files, ca: Option<Authority>, chain: seq<PrivateKey>, pin: Option<PublicKey>)

  const GENESIS := World(Files(None, None), None, [], None)

  /** Discard deletes a main key file that a torn write left behind. */
  datatype Event =
    | Restart(minted: PrivateKey, write: WriteResult)
    | Rotate
    | RemovePrev
    | Discard
    | Check
    | Hear(answer: Answer)

  function Latest(w: World): PublicKey
    requires w.chain != []
  {
    PublicKey(w.chain[|w.chain| - 1])
  }

  /** An answer the network may produce: a signature by a minted key is one the relay published. */
  ghost predicate Obtainable(chain: seq<PrivateKey>, a: Answer) {
    a.proof.Some? && a.proof.value.sig.signer in chain ==>
      exists i :: 0 <= i < |chain| - 1 && a.proof.value.sig == Signature(chain[i], NewKey(PublicKey(chain[i + 1])))
  }

  predicate Mints(w: World, e: Event) {
    e.Restart? && w.files.main.None? && e.write.WriteOk?
  }

  function Step(w: World, e: Event): World {
    match e
    case Restart(minted, write) =>
      var s := Start(w.files, minted, write);
      w.(files := s.files, ca := s.ca, chain := if Mints(w, e) then w.chain + [minted] else w.chain)
    case Rotate => if w.files.main.None? then w else w.(files := Files(None, w.files.main))
    case RemovePrev => w.(files := w.files.(prev := None))
    case Discard => if w.files.main == Some(Malformed) then w.(files := w.files.(main := None)) else w
    case Check => if w.ca.None? then w else w.(pin := Some(Adopt(w.pin, AnswerOf(w.ca.value))))
    case Hear(a) => if w.pin.None? then w else w.(pin := Some(Adopt(w.pin, a)))
  }

  function Run(w: World, es: seq<Event>, n: nat): World
    requires n <= |es|
  {
    if n == 0 then w else Step(Run(w, es, n - 1), es[n - 1])
  }

  /** Minted keys are new, and nobody forges signatures. */
  ghost predicate Plausible(w: World, e: Event) {
    && (Mints(w, e) ==> e.minted !in w.chain)
    && (e.Hear? ==> Obtainable(w.chain, e.answer))
  }

  ghost predicate PlausibleRun(w: World, es: seq<Event>, n: nat)
    requires n <= |es|
  {
    n > 0 ==> PlausibleRun(w, es, n - 1) && Plausible(Run(w, es, n - 1), es[n - 1])
  }

  // ---------- the chain of keys, in every run ----------

  ghost predicate Distinct(chain: seq<PrivateKey>) {
    forall i, j :: 0 <= i < j < |chain| ==> chain[i] != chain[j]
  }

  predicate InPlace(w: World) {
    w.files.main.Some? && w.files.main.value.Whole?
  }

  /** The main file holds the latest key; the other file the key before it, or the latest one while
      no new key is in place. */
  ghost predicate FilesFit(w: World) {
    && (InPlace(w) ==> w.chain != [] && w.files.main.value.key == w.chain[|w.chain| - 1])
    && (w.files.prev.Some? && w.files.prev.value.Whole? ==>
          if InPlace(w) then |w.chain| >= 2 && w.files.prev.value.key == w.chain[|w.chain| - 2]
          else w.chain != [] && w.files.prev.value.key == w.chain[|w.chain| - 1])
  }

  /** The served key is the latest one, and a served proof is signed by the one before it. */
  ghost predicate ServesLatest(w: World) {
    w.ca.Some? ==>
      && w.chain != [] && w.ca.value.pub == Latest(w)
      && (w.ca.value.proof.Some? ==>
            && |w.chain| >= 2
            && w.ca.value.proof.value.prevPub == PublicKey(w.chain[|w.chain| - 2])
            && Verify(w.ca.value.proof.value.prevPub, NewKey(Latest(w)), w.ca.value.proof.value.sig))
  }

  ghost predicate Pinned(w: World, i: nat) {
    i < |w.chain| && w.pin == Some(PublicKey(w.chain[i]))
  }

  ghost predicate Inv(w: World) {
    Distinct(w.chain) && FilesFit(w) && ServesLatest(w) && (w.pin.Some? ==> exists i: nat :: Pinned(w, i))
  }

  /** Whatever answers arrive, a pin moves along the chain by at most one key, and never back. */
  lemma HearAdvances(w: World, a: Answer, i: nat)
    requires Distinct(w.chain) && Pinned(w, i) && Obtainable(w.chain, a)
    ensures Pinned(Step(w, Hear(a)), i) || Pinned(Step(w, Hear(a)), i + 1)
  {
  }

  lemma CheckPins(w: World)
    requires Inv(w)
    ensures Inv(Step(w, Check))
  {
    var w' := Step(w, Check);
    if w.ca.Some? {
      if w.pin.Some? {
        var i: nat :| Pinned(w, i);
        assert Pinned(w', i) || Pinned(w', |w.chain| - 1);
      } else {
        assert Pinned(w', |w.chain| - 1);
      }
    }
  }

  lemma RelayStepFits(w: World, e: Event)
    requires Inv(w) && Plausible(w, e) && !e.Check? && !e.Hear?
    ensures var w' := Step(w, e); Distinct(w'.chain) && FilesFit(w') && ServesLatest(w') && w'.pin == w.pin && w.chain <= w'.chain
  {
  }

  lemma StepInv(w: World, e: Event)
    requires Inv(w) && Plausible(w, e)
    ensures Inv(Step(w, e))
  {
    if e.Check? {
      CheckPins(w);
    } else if e.Hear? {
      if w.pin.Some? {
        var i: nat :| Pinned(w, i);
        HearAdvances(w, e.answer, i);
      }
    } else {
      RelayStepFits(w, e);
      if w.pin.Some? {
        var i: nat :| Pinned(w, i);
        assert Pinned(Step(w, e), i);
      }
    }
  }

  lemma {:induction false} RunInv(w: World, es: seq<Event>, n: nat)
    requires n <= |es| && Inv(w) && PlausibleRun(w, es, n)
    ensures Inv(Run(w, es, n))
  {
    if n > 0 {
      RunInv(w, es, n - 1);
      StepInv(Run(w, es, n - 1), es[n - 1]);
    }
  }

  /** Over every sequence of restarts, failed writes and operator actions the served key is the
      latest, and a served proof verifies it under the immediately previous one. */
  lemma ProofLinksKeys(es: seq<Event>)
    requires PlausibleRun(GENESIS, es, |es|)
    ensures ServesLatest(Run(GENESIS, es, |es|))
  {
    RunInv(GENESIS, es, |es|);
  }

  // ---------- a client that checks once per generation ----------

  /** The client checked while the authority was serving. */
  ghost predicate Reaches(es: seq<Event>, k: nat)
    requires k < |es|
  {
    es[k].Check? && Run(GENESIS, es, k).ca.Some?
  }

  ghost predicate MintsAt(es: seq<Event>, k: nat)
    requires k < |es|
  {
    Mints(Run(GENESIS, es, k), es[k])
  }

  ghost predicate Met(es: seq<Event>, n: nat)
    requires n <= |es|
  {
    exists k :: 0 <= k < n && Reaches(es, k)
  }

  /** A check since the last key was minted. */
  ghost predicate Checked(es: seq<Event>, n: nat)
    requires n <= |es|
  {
    exists k :: 0 <= k < n && Reaches(es, k) && forall j :: k < j < n ==> !MintsAt(es, j)
  }

  /** The operator moves or removes key files only while a key is in place, and a client that has
      ever checked has checked since that key was minted. */
  ghost predicate Orderly(es: seq<Event>, k: nat)
    requires k < |es|
  {
    es[k].Rotate? || es[k].RemovePrev? ==> InPlace(Run(GENESIS, es, k)) && (Met(es, k) ==> Checked(es, k))
  }

  ghost predicate Attentive(es: seq<Event>) {
    forall k :: 0 <= k < |es| ==> Orderly(es, k)
  }

  ghost predicate UpToDate(w: World) {
    w.chain != [] && w.pin == Some(Latest(w))
  }

  /** One generation behind, with the proof that leads on still in place. */
  ghost predicate CanCatchUp(w: World) {
    && |w.chain| >= 2 && Pinned(w, |w.chain| - 2)
    && w.files == Files(Some(Whole(w.chain[|w.chain| - 1])), Some(Whole(w.chain[|w.chain| - 2])))
    && (w.ca.Some? ==> w.ca.value.proof.Some?)
  }

  /** The old key is kept until the new one is in place. */
  ghost predicate Kept(w: World) {
    !InPlace(w) && w.chain != [] ==> w.files.prev == Some(Whole(w.chain[|w.chain| - 1]))
  }

  ghost predicate Following(w: World) {
    w.pin.None? || UpToDate(w) || CanCatchUp(w)
  }

  /** One check takes a client that is at most one generation behind, proof in place, to the latest key. */
  lemma CheckCatchesUp(w: World)
    requires Inv(w) && Following(w) && w.ca.Some?
    ensures UpToDate(Step(w, Check))
  {
  }

  lemma HearFollows(w: World, a: Answer)
    requires Inv(w) && Following(w) && Obtainable(w.chain, a)
    ensures Following(Step(w, Hear(a))) && (UpToDate(w) ==> UpToDate(Step(w, Hear(a))))
  {
    if w.pin.Some? {
      HearAdvances(w, a, if UpToDate(w) then |w.chain| - 1 else |w.chain| - 2);
    }
  }

  lemma MintFollows(w: World, e: Event)
    requires Inv(w) && Kept(w) && Plausible(w, e) && Mints(w, e) && (w.pin.None? || UpToDate(w))
    ensures Kept(Step(w, e)) && Following(Step(w, e))
  {
  }

  lemma RestartFollows(w: World, e: Event)
    requires Inv(w) && Kept(w) && Following(w) && e.Restart? && !Mints(w, e)
    ensures Kept(Step(w, e)) && Following(Step(w, e)) && (UpToDate(w) ==> UpToDate(Step(w, e)))
  {
  }

  /** The client's side of one step of an attentive run. */
  ghost predicate OnTrack(w: World, met: bool, checked: bool) {
    && Kept(w) && Following(w) && (checked ==> UpToDate(w)) && (w.pin.Some? <==> met)
  }

  lemma StepOnTrack(w: World, e: Event, met: bool, checked: bool)
    requires Inv(w) && Plausible(w, e) && OnTrack(w, met, checked)
    requires e.Rotate? || e.RemovePrev? ==> InPlace(w) && (met ==> checked)
    ensures var reached := e.Check? && w.ca.Some?;
            OnTrack(Step(w, e), met || reached, reached || (checked && !Mints(w, e)))
  {
    match e
    case Restart(_, _) =>
      if Mints(w, e) {
        MintFollows(w, e);
      } else {
        RestartFollows(w, e);
      }
    case Check =>
      if w.ca.Some? {
        CheckCatchesUp(w);
      }
    case Hear(a) => HearFollows(w, a);
    case _ =>
  }

  lemma OneMoreEvent(es: seq<Event>, n: nat)
    requires n < |es|
    ensures Met(es, n + 1) <==> Met(es, n) || Reaches(es, n)
    ensures Checked(es, n + 1) <==> Reaches(es, n) || (Checked(es, n) && !MintsAt(es, n))
  {
    if Checked(es, n) && !MintsAt(es, n) {
      var k :| 0 <= k < n && Reaches(es, k) && forall j :: k < j < n ==> !MintsAt(es, j);
      assert forall j :: k < j < n + 1 ==> !MintsAt(es, j);
    }
    if Checked(es, n + 1) && !Reaches(es, n) {
      var k :| 0 <= k < n + 1 && Reaches(es, k) && forall j :: k < j < n + 1 ==> !MintsAt(es, j);
      assert k < n;
    }
  }

  lemma {:induction false} RunOnTrack(es: seq<Event>, n: nat)
    requires n <= |es| && PlausibleRun(GENESIS, es, n) && forall k :: 0 <= k < n ==> Orderly(es, k)
    ensures Inv(Run(GENESIS, es, n)) && OnTrack(Run(GENESIS, es, n), Met(es, n), Checked(es, n))
  {
    if n > 0 {
      RunOnTrack(es, n - 1);
      assert Orderly(es, n - 1);
      OneMoreEvent(es, n - 1);
      StepInv(Run(GENESIS, es, n - 1), es[n - 1]);
      StepOnTrack(Run(GENESIS, es, n - 1), es[n - 1], Met(es, n - 1), Checked(es, n - 1));
    }
  }

  /** The rotation chain: in every run in which the operator moves or removes key files only with a
      key in place, and the client, once it has pinned a key, checks at least once between each new
      key and the next such action, the client holds the latest key after its last check, and a
      check at any time takes it there. Restarts, torn writes and hostile answers may come anywhere. */
  lemma ClientFollowsChain(es: seq<Event>)
    requires PlausibleRun(GENESIS, es, |es|) && Attentive(es)
    ensures var w := Run(GENESIS, es, |es|);
            && (Checked(es, |es|) ==> w.chain != [] && w.pin == Some(Latest(w)))
            && (w.ca.Some? ==> w.chain != [] && Step(w, Check).pin == Some(Latest(w)))
  {
    RunOnTrack(es, |es|);
    if Run(GENESIS, es, |es|).ca.Some? {
      CheckCatchesUp(Run(GENESIS, es, |es|));
    }
  }

  // ---------- such runs exist for every number of generations ----------

  /** The first key is minted and checked; then rotate, mint and check, over and over. */
  function Scheduled(k: nat): Event {
    if k % 3 == 0 then Restart(k / 3, WriteOk)
    else if k % 3 == 1 then Check
    else Rotate
  }

  function Keys(n: nat): seq<PrivateKey> {
    seq(n, i => i)
  }

  /** The world when generation `g` has been checked. */
  function Era(g: nat): World {
    var prev := if g == 0 then None else Some(Whole(g - 1));
    World(Files(Some(Whole(g)), prev), Some(MakeAuthority(g, prev)), Keys(g + 1), Some(PublicKey(g)))
  }

  lemma EraBegins(w: World, g: nat)
    requires if g == 0 then w == GENESIS else w == Step(Era(g - 1), Rotate)
    ensures var e := Restart(g, WriteOk);
            && Mints(w, e) && Plausible(w, e) && Step(w, e).ca.Some? && Step(Step(w, e), Check) == Era(g)
  {
    assert Keys(g + 1) == Keys(g) + [g];
  }

  ghost predicate Goes(es: seq<Event>, n: nat) {
    n <= |es| && PlausibleRun(GENESIS, es, n) && forall k :: 0 <= k < n ==> Orderly(es, k)
  }

  lemma GoesOn(es: seq<Event>, n: nat)
    requires n < |es| && Goes(es, n) && Plausible(Run(GENESIS, es, n), es[n]) && Orderly(es, n)
    ensures Goes(es, n + 1)
  {
  }

  lemma ScheduledAt(g: nat)
    ensures Scheduled(3 * g) == Restart(g, WriteOk) && Scheduled(3 * g + 1) == Check && Scheduled(3 * g + 2) == Rotate
  {
  }

  ghost predicate AtEra(es: seq<Event>, n: nat, g: nat) {
    Goes(es, n) && Checked(es, n) && Run(GENESIS, es, n) == Era(g)
  }

  lemma RotationGoes(es: seq<Event>, n: nat, g: nat)
    requires n < |es| && AtEra(es, n, g) && es[n] == Rotate
    ensures Goes(es, n + 1) && Run(GENESIS, es, n + 1) == Step(Era(g), Rotate)
  {
    GoesOn(es, n);
  }

  lemma MintAndCheckGo(es: seq<Event>, n: nat, g: nat)
    requires n + 1 < |es| && Goes(es, n) && es[n] == Restart(g, WriteOk) && es[n + 1] == Check
    requires Run(GENESIS, es, n) == if g == 0 then GENESIS else Step(Era(g - 1), Rotate)
    ensures AtEra(es, n + 2, g)
  {
    EraBegins(Run(GENESIS, es, n), g);
    assert Run(GENESIS, es, n + 1) == Step(Run(GENESIS, es, n), es[n]);
    GoesOn(es, n);
    GoesOn(es, n + 1);
    OneMoreEvent(es, n + 1);
  }

  lemma {:induction false} EraReached(es: seq<Event>, g: nat)
    requires 3 * g + 2 <= |es| && forall k :: 0 <= k < |es| ==> es[k] == Scheduled(k)
    ensures AtEra(es, 3 * g + 2, g)
  {
    if g > 0 {
      EraReached(es, g - 1);
      ScheduledAt(g - 1);
      assert es[3 * g - 1] == Scheduled(3 * (g - 1) + 2);
      RotationGoes(es, 3 * g - 1, g - 1);
    }
    ScheduledAt(g);
    assert es[3 * g] == Scheduled(3 * g) && es[3 * g + 1] == Scheduled(3 * g + 1);
    MintAndCheckGo(es, 3 * g, g);
  }

  /** For every number of generations there is an attentive run that leads the client from the
      first key to the last. */
  lemma EveryGenerationIsReached(g: nat) returns (es: seq<Event>)
    ensures PlausibleRun(GENESIS, es, |es|) && Attentive(es) && Checked(es, |es|)
    ensures |Run(GENESIS, es, |es|).chain| == g + 1
    ensures |es| >= 2 && Run(GENESIS, es, 2).pin == Some(PublicKey(Run(GENESIS, es, |es|).chain[0]))
    ensures Run(GENESIS, es, |es|).pin == Some(PublicKey(Run(GENESIS, es, |es|).chain[g]))
  {
    es := seq(3 * g + 2, k requires k >= 0 => Scheduled(k));
    EraReached(es, 0);
    EraReached(es, g);
  }

  // ---------- a missed generation ----------

  ghost predicate Stuck(w: World, i: nat) {
    Inv(w) && Pinned(w, i) && i + 2 < |w.chain|
  }

  lemma StuckStep(w: World, e: Event, i: nat)
    requires Stuck(w, i) && Plausible(w, e) && !e.Hear?
    ensures Stuck(Step(w, e), i) && Step(w, e).pin == w.pin
  {
    assert w.chain[i] != w.chain[|w.chain| - 2] && w.chain[i] != w.chain[|w.chain| - 1];
    StepInv(w, e);
  }

  /** A client two or more generations behind is never led on by the relay again: it keeps its
      pin through every later restart, rotation and check. */
  lemma {:induction false} MissedGenerationIsFinal(w: World, es: seq<Event>, n: nat, i: nat)
    requires n <= |es| && Stuck(w, i) && PlausibleRun(w, es, n)
    requires forall k :: 0 <= k < n ==> !es[k].Hear?
    ensures Stuck(Run(w, es, n), i) && Run(w, es, n).pin == w.pin
  {
    if n > 0 {
      MissedGenerationIsFinal(w, es, n - 1, i);
      StuckStep(Run(w, es, n - 1), es[n - 1], i);
    }
  }
}
