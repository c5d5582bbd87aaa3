/** Light clients against an adversary who answers with arbitrary state proofs: what every run of
    ratchets keeps as long as the honest validators sign one chain. */
module LightClient {
  import opened Wrappers
  import opened Validators
  import opened Types
  import opened EpochChange
  import opened TrustedState

  /** The one chain: its commits as waypoints see them and the validator set of every epoch. */
  datatype Chain = Chain(commits: iset<WaypointData>, epochStates: nat -> EpochState)

  ghost predicate ValidCommit(c: Chain, d: WaypointData) {
    && AccumulatorVersion(d.rootHash) == d.version
    && (d.nextEpochState.Some? ==> d.nextEpochState.value == c.epochStates(d.epoch + 1))
  }

  /** The commits describe one growing ledger, and an epoch's end names the next epoch's set. */
  ghost predicate ValidChain(c: Chain) {
    && (forall d :: d in c.commits ==> ValidCommit(c, d))
    && (forall d, e :: d in c.commits && e in c.commits && d.version <= e.version ==> d.rootHash <= e.rootHash)
    && (forall e: nat :: c.epochStates(e).epoch == e)
  }

  ghost predicate OnChain(c: Chain, lis: LedgerInfoWithSignatures) {
    DataOf(lis.ledgerInfo) in c.commits
  }

  /** If a quorum of an epoch stands behind the ledger info, it is on the chain. Genesis, the end of
      epoch 0, is trusted through a waypoint only. */
  ghost predicate Vouched(c: Chain, lis: LedgerInfoWithSignatures) {
    forall e: nat :: e >= 1 && ByEpochState(c.epochStates(e)).Verify(lis) ==> OnChain(c, lis)
  }

  ghost predicate AllVouched(c: Chain, lis: seq<LedgerInfoWithSignatures>) {
    forall i :: 0 <= i < |lis| ==> Vouched(c, lis[i])
  }

  ghost predicate VouchedProof(c: Chain, p: StateProof) {
    Vouched(c, p.latest) && AllVouched(c, p.epochChanges.lis)
  }

  // ----- Honest validators who sign one chain -----

  ghost function HonestIn(v: ValidatorVerifier, keys: set<PublicKey>): set<Address> {
    set a | a in v.validators && v.validators[a].publicKey in keys
  }

  /** After genesis no validator set has more than f of its power outside the honest keys. */
  ghost predicate MostlyHonest(c: Chain, keys: set<PublicKey>) {
    forall e: nat :: e >= 1 ==> FaultBound(c.epochStates(e).verifier, HonestIn(c.epochStates(e).verifier, keys))
  }

  /** Honest keys have signed ledger infos of the chain only. */
  ghost predicate Unforged(c: Chain, keys: set<PublicKey>, lis: LedgerInfoWithSignatures) {
    forall a :: a in lis.signatures && lis.signatures[a].publicKey in keys ==>
                  DataOf(lis.signatures[a].message) in c.commits
  }

  /** A quorum contains an honest signer, so what it signs is on the chain. */
  lemma {:induction false} HonestQuorumsVouch(c: Chain, keys: set<PublicKey>, lis: LedgerInfoWithSignatures)
    requires MostlyHonest(c, keys) && Unforged(c, keys, lis)
    ensures Vouched(c, lis)
  {
    forall e: nat | e >= 1 && ByEpochState(c.epochStates(e)).Verify(lis)
      ensures OnChain(c, lis)
    {
      var v := c.epochStates(e).verifier;
      SoundThreshold(v);
      var a := HonestMember(v, HonestIn(v, keys), lis.signatures.Keys);
      assert ValidSignature(v, a, lis.ledgerInfo, lis.signatures[a]);
    }
  }

  // ----- Canonical states -----

  ghost predicate CanonicalWaypoint(c: Chain, w: Waypoint) {
    && w.value.HashOf?
    && w.value.value in c.commits
    && w.version == w.value.value.version
  }

  ghost predicate CanonicalEpochState(c: Chain, es: EpochState) {
    es.epoch >= 1 && es == c.epochStates(es.epoch)
  }

  ghost predicate CanonicalVerifier(c: Chain, v: Verifier) {
    match v
    case ByWaypoint(w) => CanonicalWaypoint(c, w)
    case ByEpochState(es) => CanonicalEpochState(c, es)
  }

  /** The waypoint is on the chain; inside an epoch the set is the chain's, and it is the set of the
      waypoint's epoch or the one the waypoint installs. */
  ghost predicate Canonical(c: Chain, s: TrustedState) {
    && CanonicalWaypoint(c, s.waypoint)
    && (s.InEpoch? ==>
          var d := s.waypoint.value.value;
          && Aligned(s)
          && CanonicalEpochState(c, s.epochState)
          && (s.epochState.epoch == d.epoch || (d.nextEpochState.Some? && s.epochState.epoch == d.epoch + 1)))
  }

  lemma {:induction false} VerifiedOnChain(c: Chain, v: Verifier, lis: LedgerInfoWithSignatures)
    requires CanonicalVerifier(c, v) && Vouched(c, lis) && v.Verify(lis)
    ensures OnChain(c, lis)
  {
    if v.ByEpochState? {
      assert v == ByEpochState(c.epochStates(v.epochState.epoch));
    }
  }

  /** The entry is on the chain and installs the chain's next validator set. */
  ghost predicate Installs(c: Chain, lis: LedgerInfoWithSignatures) {
    && OnChain(c, lis)
    && Next(lis).Some?
    && Next(lis).value == c.epochStates(EpochOf(lis) + 1)
    && Next(lis).value.epoch == EpochOf(lis) + 1
  }

  lemma {:induction false} VerifiedInstalls(c: Chain, v: Verifier, lis: LedgerInfoWithSignatures)
    requires ValidChain(c) && CanonicalVerifier(c, v) && Vouched(c, lis)
    requires v.Verify(lis) && Next(lis).Some?
    ensures Installs(c, lis)
  {
    VerifiedOnChain(c, v, lis);
    assert ValidCommit(c, DataOf(lis.ledgerInfo));
  }

  lemma {:induction false} LinkInstalls(c: Chain, lis: seq<LedgerInfoWithSignatures>, j: nat)
    requires ValidChain(c) && 0 < j < |lis|
    requires Installs(c, lis[j - 1]) && Linked(lis, j) && Next(lis[j]).Some? && Vouched(c, lis[j])
    ensures Installs(c, lis[j])
  {
    VerifiedInstalls(c, ByEpochState(Next(lis[j - 1]).value), lis[j]);
  }

  lemma {:induction false} UnbrokenOnChain(c: Chain, v: Verifier, lis: seq<LedgerInfoWithSignatures>, k: nat, j: nat)
    requires ValidChain(c) && AllVouched(c, lis) && Unbroken(v, lis, k)
    requires k <= j < |lis| && Installs(c, lis[k])
    ensures Installs(c, lis[j])
    decreases j
  {
    if k < j {
      UnbrokenOnChain(c, v, lis, k, j - 1);
      assert Linked(lis, j);
      LinkInstalls(c, lis, j);
    }
  }

  lemma {:induction false} AcceptedOnChain(c: Chain, v: Verifier, lis: seq<LedgerInfoWithSignatures>)
    requires ValidChain(c) && CanonicalVerifier(c, v)
    requires AllVouched(c, lis)
    requires VerifyProof(v, lis).Ok?
    ensures Installs(c, VerifyProof(v, lis).value)
    ensures EpochsAdvance(lis, FirstFresh(v, lis, 0))
  {
    var k := FirstFresh(v, lis, 0);
    AcceptedIff(v, lis, k);
    VerifiedInstalls(c, v, lis[k]);
    UnbrokenOnChain(c, v, lis, k, |lis| - 1);
    forall j | k <= j < |lis|
      ensures Next(lis[j]).Some? && EpochOf(lis[j]) < Next(lis[j]).value.epoch
    {
      UnbrokenOnChain(c, v, lis, k, j);
    }
  }

  /** Whatever the client chooses to trust after an accepted epoch change is on the chain, in the
      new epoch or at its beginning. */
  lemma {:induction false} ChosenOnChain(c: Chain, last: LedgerInfoWithSignatures, latest: LedgerInfoWithSignatures,
                                         more: bool)
    requires ValidChain(c) && Installs(c, last) && Vouched(c, latest)
    requires ChooseLedgerInfo(last, Next(last).value, latest, more).Ok?
    ensures var target := ChooseLedgerInfo(last, Next(last).value, latest, more).value;
            OnChain(c, target) && (target == last || EpochOf(target) == Next(last).value.epoch)
  {
    var installed := Next(last).value;
    assert CanonicalEpochState(c, installed);
    if ByEpochState(installed).Verify(latest) {
      VerifiedOnChain(c, ByEpochState(installed), latest);
    }
  }

  lemma {:induction false} EpochAdvanceStaysOnChain(c: Chain, s: TrustedState, p: StateProof, acc: Accumulator)
    requires ValidChain(c) && Canonical(c, s) && VouchedProof(c, p)
    requires AdvanceEpoch(s, p, acc).Ok?
    ensures Canonical(c, AdvanceEpoch(s, p, acc).value.newState)
  {
    AcceptedOnChain(c, s.AsVerifier(), p.epochChanges.lis);
    var last := VerifyProof(s.AsVerifier(), p.epochChanges.lis).value;
    ChosenOnChain(c, last, p.latest, p.epochChanges.more);
  }

  lemma {:induction false} VersionChangeStaysOnChain(c: Chain, s: TrustedState, p: StateProof)
    requires ValidChain(c) && Canonical(c, s) && VouchedProof(c, p) && s.InEpoch?
    requires AdvanceVersion(s, p, s.accumulator).Ok? && AdvanceVersion(s, p, s.accumulator).value.VersionChange?
    ensures Canonical(c, AdvanceVersion(s, p, s.accumulator).value.newState)
  {
    VerifiedOnChain(c, ByEpochState(s.epochState), p.latest);
  }

  /** One ratchet with any vouched proof leads from the chain to the chain; no trust is placed in
      the initial accumulator. */
  lemma {:induction false} RatchetStaysOnChain(c: Chain, s: TrustedState, p: StateProof, initial: Option<Accumulator>)
    requires ValidChain(c) && Canonical(c, s) && VouchedProof(c, p)
    ensures Canonical(c, After(s, p, initial))
  {
    var r := Ratchet(s, p, initial);
    if r.Ok? && r.value.EpochAdvance? {
      EpochAdvanceStaysOnChain(c, s, p, CurrentAccumulator(s, p.epochChanges, initial).value);
    } else if r.Ok? && r.value.VersionChange? {
      VersionChangeStaysOnChain(c, s, p);
    }
  }

  /** The epoch of the trusted set never goes down, and an epoch change inside an epoch raises it. */
  lemma {:induction false} RatchetRaisesEpoch(c: Chain, s: TrustedState, p: StateProof, initial: Option<Accumulator>)
    requires ValidChain(c) && Canonical(c, s) && VouchedProof(c, p) && s.InEpoch?
    ensures After(s, p, initial).InEpoch?
    ensures s.epochState.epoch <= After(s, p, initial).epochState.epoch
    ensures Ratchet(s, p, initial).Ok? && Ratchet(s, p, initial).value.EpochAdvance? ==>
              s.epochState.epoch < After(s, p, initial).epochState.epoch
  {
    var r := Ratchet(s, p, initial);
    if r.Ok? && r.value.EpochAdvance? {
      AcceptedOnChain(c, s.AsVerifier(), p.epochChanges.lis);
      EpochAdvanceRaisesEpoch(s, p, initial);
    }
  }

  /** The client fell back to the last epoch change: the latest ledger info is of an epoch after the one
      entered, so that nobody it trusts could vouch for it, and the server says there is more. */
  ghost predicate FellBack(s: TrustedState, p: StateProof, change: TrustedStateChange) {
    && change.EpochAdvance? && p.epochChanges.more && change.newState.InEpoch?
    && EpochOf(p.latest) > change.newState.epochState.epoch
    && change.newState.waypoint == NewAny(change.latestEpochChangeLi.ledgerInfo)
  }

  /** A client never accepts a ledger info that is not on the chain: whatever the change, also if there
      is none, the latest ledger info of an accepted answer is on the chain, unless the client fell back. */
  lemma {:induction false} AcceptedLatestOnChain(c: Chain, s: TrustedState, p: StateProof, initial: Option<Accumulator>)
    requires ValidChain(c) && Canonical(c, s) && VouchedProof(c, p) && Ratchet(s, p, initial).Ok?
    ensures OnChain(c, p.latest) || FellBack(s, p, Ratchet(s, p, initial).value)
  {
    var change := Ratchet(s, p, initial).value;
    match change
    case EpochAdvance(s', last) =>
      AdvanceIff(s, p, initial, s', last);
      var acc, target :| Advances(s, p, initial, acc, last, target)
        && s' == InEpoch(NewAny(target.ledgerInfo), Next(last).value, target.ledgerInfo.commitInfo.executedStateId);
      AcceptedOnChain(c, s.AsVerifier(), p.epochChanges.lis);
      ChosenOnChain(c, last, p.latest, p.epochChanges.more);
    case VersionChange(s') =>
      VersionChangeIff(s, p, initial, s');
      VerifiedOnChain(c, ByEpochState(s.epochState), p.latest);
    case NoChange =>
      NoChangeIff(s, p, initial);
  }

  // ----- Whole runs -----

  datatype Attempt = Attempt(proof: StateProof, initial: Option<Accumulator>)

  function Run(s: TrustedState, attempts: seq<Attempt>): TrustedState
    decreases |attempts|
  {
    if attempts == [] then s
    else
      var last := attempts[|attempts| - 1];
      After(Run(s, attempts[..|attempts| - 1]), last.proof, last.initial)
  }

  ghost predicate VouchedRun(c: Chain, attempts: seq<Attempt>) {
    forall i :: 0 <= i < |attempts| ==> VouchedProof(c, attempts[i].proof)
  }

  /** Never behind: version, epoch and accumulator only grow. */
  ghost predicate Forward(s: TrustedState, t: TrustedState) {
    && s.Version() <= t.Version()
    && (s.InEpoch? ==> t.InEpoch? && s.accumulator <= t.accumulator && s.epochState.epoch <= t.epochState.epoch)
  }

  /** Whatever proofs a client is fed, in whatever order, it stays on the chain and moves forward. */
  lemma {:induction false} RunStaysOnChain(c: Chain, s: TrustedState, attempts: seq<Attempt>)
    requires ValidChain(c) && Canonical(c, s) && VouchedRun(c, attempts)
    ensures Canonical(c, Run(s, attempts)) && Forward(s, Run(s, attempts))
    decreases |attempts|
  {
    if attempts != [] {
      var rest := attempts[..|attempts| - 1];
      RunStaysOnChain(c, s, rest);
      var last := attempts[|attempts| - 1];
      var before := Run(s, rest);
      RatchetStaysOnChain(c, before, last.proof, last.initial);
      RatchetMonotone(before, last.proof, last.initial);
      if before.InEpoch? {
        RatchetRaisesEpoch(c, before, last.proof, last.initial);
      }
    }
  }

  /** Two clients that started anywhere on the chain and were fed different proofs never see two
      ledgers: one accumulator is a prefix of the other, and in one epoch they trust one set. */
  lemma {:induction false} ClientsAgree(c: Chain, s: TrustedState, attempts: seq<Attempt>, s': TrustedState,
                                        attempts': seq<Attempt>)
    requires ValidChain(c) && Canonical(c, s) && Canonical(c, s')
    requires VouchedRun(c, attempts) && VouchedRun(c, attempts')
    requires Run(s, attempts).InEpoch? && Run(s', attempts').InEpoch?
    ensures var t, t' := Run(s, attempts), Run(s', attempts');
            && (t.accumulator <= t'.accumulator || t'.accumulator <= t.accumulator)
            && (t.Version() <= t'.Version() ==> t.accumulator <= t'.accumulator)
            && (t.epochState.epoch == t'.epochState.epoch ==> t.epochState == t'.epochState)
  {
    RunStaysOnChain(c, s, attempts);
    RunStaysOnChain(c, s', attempts');
    var d, d' := Run(s, attempts).waypoint.value.value, Run(s', attempts').waypoint.value.value;
    assert d.version <= d'.version ==> d.rootHash <= d'.rootHash;
    assert d'.version <= d.version ==> d'.rootHash <= d.rootHash;
  }

  ghost predicate UnforgedRun(c: Chain, keys: set<PublicKey>, attempts: seq<Attempt>) {
    forall i :: 0 <= i < |attempts| ==>
                  && Unforged(c, keys, attempts[i].proof.latest)
                  && forall j :: 0 <= j < |attempts[i].proof.epochChanges.lis| ==>
                                   Unforged(c, keys, attempts[i].proof.epochChanges.lis[j])
  }

  /** Fault bound and honest signing are enough for every run: whatever the rest of the validators
      sign and whatever proofs the client is fed, it stays on the chain. */
  lemma {:induction false} HonestChainIsSafe(c: Chain, keys: set<PublicKey>, s: TrustedState, attempts: seq<Attempt>)
    requires ValidChain(c) && MostlyHonest(c, keys) && Canonical(c, s)
    requires UnforgedRun(c, keys, attempts)
    ensures VouchedRun(c, attempts)
    ensures Canonical(c, Run(s, attempts)) && Forward(s, Run(s, attempts))
  {
    forall i | 0 <= i < |attempts|
      ensures VouchedProof(c, attempts[i].proof)
    {
      var p := attempts[i].proof;
      HonestQuorumsVouch(c, keys, p.latest);
      forall j | 0 <= j < |p.epochChanges.lis|
        ensures Vouched(c, p.epochChanges.lis[j])
      {
        HonestQuorumsVouch(c, keys, p.epochChanges.lis[j]);
      }
    }
    RunStaysOnChain(c, s, attempts);
  }

  // ----- Such chains exist -----

  function ExampleCommit(e: nat): WaypointData {
    WaypointData(e, seq(e + 1, _ => 0), e, 0, Some(EpochState(e + 1, SOLE_VALIDATOR)))
  }

  lemma {:induction false} ChainExists() returns (c: Chain)
    ensures ValidChain(c) && MostlyHonest(c, {1}) && c.commits != iset{}
  {
    c := Chain(iset e: nat | true :: ExampleCommit(e), (e: nat) => EpochState(e, SOLE_VALIDATOR));
    SoleValidatorQuorum();
    assert HonestIn(SOLE_VALIDATOR, {1}) == {1};
    assert ExampleCommit(0) in c.commits;
  }
}
