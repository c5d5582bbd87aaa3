/** A light client's trusted view and how a state proof moves it forward
    (types/src/trusted_state.rs, types/src/proof/definition.rs). */
module TrustedState {
  import opened Wrappers
  import opened Validators
  import opened Types
  import opened EpochChange

  datatype TrustedState =
    | EpochWaypoint(waypoint: Waypoint)
    | InEpoch(waypoint: Waypoint, epochState: EpochState, accumulator: Accumulator)
  {
    function Version(): nat {
      waypoint.version
    }

    function AsVerifier(): Verifier {
      if EpochWaypoint? then ByWaypoint(waypoint) else ByEpochState(epochState)
    }
  }

  datatype TrustedStateChange =
    | VersionChange(newState: TrustedState)
    | EpochAdvance(newState: TrustedState, latestEpochChangeLi: LedgerInfoWithSignatures)
    | NoChange

  datatype RatchetError =
    | StaleTarget
    | MissingInitialAccumulator
    | EmptyEpochChangeProof
    | InconsistentAccumulator
    | BadEpochChangeProof(reason: ProofError)
    | BadLatestLedgerInfo
    | InconsistentProofAndLedgerInfo
    | OnlyEpochChange
    | NotTheVerifiedState
    | NotOnEpochBoundary

  /** The leaves between two versions stand for the subtrees of a consistency proof. */
  datatype StateProof = StateProof(latest: LedgerInfoWithSignatures, epochChanges: EpochChangeProof,
                                   consistency: seq<nat>)

  predicate ConsistentWith(acc: Accumulator, li: LedgerInfo) {
    li.commitInfo.version == AccumulatorVersion(acc) && li.commitInfo.executedStateId == acc
  }

  function TryExtend(acc: Accumulator, appended: seq<nat>, target: LedgerInfo): Result<Accumulator, RatchetError> {
    var version := AccumulatorVersion(acc);
    if target.commitInfo.version < version || |appended| != target.commitInfo.version - version
       || !ConsistentWith(acc + appended, target)
    then Err(InconsistentAccumulator)
    else Ok(acc + appended)
  }

  function TryFromEpochChangeLi(li: LedgerInfo, acc: Accumulator): Result<TrustedState, RatchetError> {
    var _ :- Ensure(ConsistentWith(acc, li), InconsistentAccumulator);
    var _ :- Ensure(li.commitInfo.nextEpochState.Some?, NotOnEpochBoundary);
    Ok(InEpoch(NewAny(li), li.commitInfo.nextEpochState.value, acc))
  }

  /** The accumulator to extend: the trusted one, or the untrusted one the caller supplies with a waypoint. */
  function CurrentAccumulator(s: TrustedState, proof: EpochChangeProof, initial: Option<Accumulator>)
    : Result<Accumulator, RatchetError>
  {
    if s.InEpoch? then Ok(s.accumulator)
    else if initial.None? then Err(MissingInitialAccumulator)
    else if proof.lis == [] then Err(EmptyEpochChangeProof)
    else
      var _ :- Ensure(ConsistentWith(initial.value, proof.lis[0].ledgerInfo), InconsistentAccumulator);
      Ok(initial.value)
  }

  /** The ledger info to trust next: the latest one if the new validator set vouches for it, otherwise
      the last epoch change when the server says that there are more. */
  function ChooseLedgerInfo(epochChangeLi: LedgerInfoWithSignatures, newEpochState: EpochState,
                            latest: LedgerInfoWithSignatures, more: bool)
    : Result<LedgerInfoWithSignatures, RatchetError>
  {
    if epochChangeLi == latest then Ok(latest)
    else if EpochOf(latest) == newEpochState.epoch then
      var _ :- Ensure(ByEpochState(newEpochState).Verify(latest), BadLatestLedgerInfo);
      Ok(latest)
    else if EpochOf(latest) > newEpochState.epoch && more then Ok(epochChangeLi)
    else Err(InconsistentProofAndLedgerInfo)
  }

  function AdvanceEpoch(s: TrustedState, p: StateProof, acc: Accumulator): Result<TrustedStateChange, RatchetError> {
    var verified := VerifyProof(s.AsVerifier(), p.epochChanges.lis);
    if verified.Err? then Err(BadEpochChangeProof(verified.error))
    else if Next(verified.value).None? then Err(NotOnEpochBoundary)
    else
      var newEpochState := Next(verified.value).value;
      var target :- ChooseLedgerInfo(verified.value, newEpochState, p.latest, p.epochChanges.more);
      var newAccumulator :- TryExtend(acc, p.consistency, target.ledgerInfo);
      Ok(EpochAdvance(InEpoch(NewAny(target.ledgerInfo), newEpochState, newAccumulator), verified.value))
  }

  function AdvanceVersion(s: TrustedState, p: StateProof, acc: Accumulator): Result<TrustedStateChange, RatchetError>
    requires s.InEpoch?
  {
    var newWaypoint := NewAny(p.latest.ledgerInfo);
    if newWaypoint.version == s.waypoint.version then
      var _ :- Ensure(newWaypoint == s.waypoint, NotTheVerifiedState);
      Ok(NoChange)
    else
      var _ :- Ensure(ByEpochState(s.epochState).Verify(p.latest), BadLatestLedgerInfo);
      var newAccumulator :- TryExtend(acc, p.consistency, p.latest.ledgerInfo);
      Ok(VersionChange(InEpoch(newWaypoint, s.epochState, newAccumulator)))
  }

  function Ratchet(s: TrustedState, p: StateProof, initial: Option<Accumulator>)
    : Result<TrustedStateChange, RatchetError>
  {
    var _ :- Ensure(p.latest.ledgerInfo.commitInfo.version >= s.Version(), StaleTarget);
    var acc :- CurrentAccumulator(s, p.epochChanges, initial);
    if s.AsVerifier().EpochChangeVerificationRequired(p.latest.ledgerInfo.commitInfo.NextBlockEpoch())
    then AdvanceEpoch(s, p, acc)
    else if s.EpochWaypoint? then Err(OnlyEpochChange)
    else AdvanceVersion(s, p, acc)
  }

  /** The state a client is in after an attempt; a failed one changes nothing. */
  function After(s: TrustedState, p: StateProof, initial: Option<Accumulator>): TrustedState {
    var r := Ratchet(s, p, initial);
    if r.Err? || r.value.NoChange? then s else r.value.newState
  }

  // ----- Invariant and monotonicity -----

  /** Inside an epoch the waypoint and the accumulator commit to the same version and transactions. */
  ghost predicate Aligned(s: TrustedState) {
    s.InEpoch? ==>
      && s.waypoint.value.HashOf?
      && s.waypoint.value.value.version == s.waypoint.version == AccumulatorVersion(s.accumulator)
      && s.waypoint.value.value.rootHash == s.accumulator
  }

  lemma {:induction false} StartsAligned(li: LedgerInfo, acc: Accumulator)
    ensures TryFromEpochChangeLi(li, acc).Ok? ==>
              var s := TryFromEpochChangeLi(li, acc).value;
              Aligned(s) && s.epochState == li.commitInfo.nextEpochState.value && s.Version() == li.commitInfo.version
    ensures TryFromEpochChangeLi(li, acc).Ok? <==> ConsistentWith(acc, li) && li.commitInfo.nextEpochState.Some?
  {
  }

  /** A ratchet keeps waypoint and accumulator aligned, never lowers the version, and inside an epoch
      only appends to the accumulator. */
  lemma {:induction false} RatchetMonotone(s: TrustedState, p: StateProof, initial: Option<Accumulator>)
    requires Aligned(s)
    ensures var s' := After(s, p, initial);
            && Aligned(s')
            && s.Version() <= s'.Version()
            && (s.InEpoch? ==> s'.InEpoch? && s.accumulator <= s'.accumulator)
  {
    var r := Ratchet(s, p, initial);
    if r.Ok? && r.value.EpochAdvance? {
      AcceptedIff(s.AsVerifier(), p.epochChanges.lis, FirstFresh(s.AsVerifier(), p.epochChanges.lis, 0));
    }
  }

  /** A version change keeps the validator set and strictly raises the version. */
  lemma {:induction false} VersionChangeRaisesVersion(s: TrustedState, p: StateProof, initial: Option<Accumulator>)
    requires Aligned(s) && Ratchet(s, p, initial).Ok? && Ratchet(s, p, initial).value.VersionChange?
    ensures s.InEpoch? && After(s, p, initial).InEpoch?
    ensures After(s, p, initial).epochState == s.epochState
    ensures s.Version() < After(s, p, initial).Version() == p.latest.ledgerInfo.commitInfo.version
    ensures s.accumulator < After(s, p, initial).accumulator
  {
    RatchetMonotone(s, p, initial);
  }

  /** An epoch change inside an epoch strictly raises the epoch, also when it falls back to the epoch
      change itself, as long as the epochs named by the accepted chain go up. */
  lemma {:induction false} EpochAdvanceRaisesEpoch(s: TrustedState, p: StateProof, initial: Option<Accumulator>)
    requires s.InEpoch? && Ratchet(s, p, initial).Ok? && Ratchet(s, p, initial).value.EpochAdvance?
    requires EpochsAdvance(p.epochChanges.lis, FirstFresh(s.AsVerifier(), p.epochChanges.lis, 0))
    ensures After(s, p, initial).InEpoch? && s.epochState.epoch < After(s, p, initial).epochState.epoch
  {
    var v := s.AsVerifier();
    var lis := p.epochChanges.lis;
    var k := FirstFresh(v, lis, 0);
    AcceptedIff(v, lis, k);
    if k < |lis| - 1 {
      ChainEpochsIncrease(v, lis, k, k, |lis| - 1);
    }
  }

  // ----- What is accepted, exactly -----

  /** Whether the answer has to bring the client into another epoch. */
  predicate EpochChangeNeeded(s: TrustedState, p: StateProof) {
    s.EpochWaypoint? || s.epochState.epoch < p.latest.ledgerInfo.commitInfo.NextBlockEpoch()
  }

  /** The client extends what it trusts, or what it was given for the first ledger info of the proof. */
  ghost predicate Extending(s: TrustedState, p: StateProof, initial: Option<Accumulator>, acc: Accumulator) {
    if s.InEpoch? then acc == s.accumulator
    else
      && initial == Some(acc) && p.epochChanges.lis != []
      && var first := p.epochChanges.lis[0].ledgerInfo.commitInfo;
         first.executedStateId == acc && first.version == AccumulatorVersion(acc)
  }

  /** The leaves sent lead from the accumulator to exactly the one that the ledger info commits to. */
  ghost predicate LeadsTo(acc: Accumulator, appended: seq<nat>, li: LedgerInfo) {
    && li.commitInfo.executedStateId == acc + appended
    && li.commitInfo.version == AccumulatorVersion(acc + appended) == AccumulatorVersion(acc) + |appended|
  }

  /** The ledger info to trust: the latest, if it ended the last epoch or the new set signed it in its
      epoch; the last epoch change, if the latest is of a later epoch and there is more to come. */
  ghost predicate Targets(p: StateProof, last: LedgerInfoWithSignatures, target: LedgerInfoWithSignatures) {
    && Next(last).Some?
    && var installed := Next(last).value;
       if target == p.latest then
         p.latest == last || (EpochOf(p.latest) == installed.epoch && p.latest.VerifySignatures(installed.verifier))
       else target == last && EpochOf(p.latest) > installed.epoch && p.epochChanges.more
  }

  /** An epoch change: the proof is an unbroken chain from what the client trusts to `last`. */
  ghost predicate Advances(s: TrustedState, p: StateProof, initial: Option<Accumulator>, acc: Accumulator,
                           last: LedgerInfoWithSignatures, target: LedgerInfoWithSignatures)
  {
    && EpochChangeNeeded(s, p) && p.latest.ledgerInfo.commitInfo.version >= s.Version()
    && VerifyProof(s.AsVerifier(), p.epochChanges.lis) == Ok(last)
    && Extending(s, p, initial, acc) && Targets(p, last, target) && LeadsTo(acc, p.consistency, target.ledgerInfo)
  }

  /** An epoch change is accepted exactly if it leads from what the client trusts to the target. */
  lemma {:induction false} AdvanceIff(s: TrustedState, p: StateProof, initial: Option<Accumulator>, s': TrustedState,
                                      last: LedgerInfoWithSignatures)
    ensures Ratchet(s, p, initial) == Ok(EpochAdvance(s', last)) <==>
            exists acc, target :: Advances(s, p, initial, acc, last, target)
              && s' == InEpoch(NewAny(target.ledgerInfo), Next(last).value,
                               target.ledgerInfo.commitInfo.executedStateId)
  {
    var r := Ratchet(s, p, initial);
    if r == Ok(EpochAdvance(s', last)) {
      var acc := if s.InEpoch? then s.accumulator else initial.value;
      var target := ChooseLedgerInfo(last, Next(last).value, p.latest, p.epochChanges.more).value;
      assert Advances(s, p, initial, acc, last, target);
    }
  }

  /** A new version in the epoch is accepted exactly if the trusted set signed it, in its epoch, and
      the leaves lead to it. */
  lemma {:induction false} VersionChangeIff(s: TrustedState, p: StateProof, initial: Option<Accumulator>,
                                            s': TrustedState)
    ensures Ratchet(s, p, initial) == Ok(VersionChange(s')) <==>
            && !EpochChangeNeeded(s, p) && p.latest.ledgerInfo.commitInfo.version > s.Version()
            && EpochOf(p.latest) == s.epochState.epoch && p.latest.VerifySignatures(s.epochState.verifier)
            && LeadsTo(s.accumulator, p.consistency, p.latest.ledgerInfo)
            && s' == InEpoch(NewAny(p.latest.ledgerInfo), s.epochState, p.latest.ledgerInfo.commitInfo.executedStateId)
  {
  }

  /** Nothing changes exactly if the latest ledger info is the one the client trusts already. */
  lemma {:induction false} NoChangeIff(s: TrustedState, p: StateProof, initial: Option<Accumulator>)
    ensures Ratchet(s, p, initial) == Ok(NoChange) <==>
            !EpochChangeNeeded(s, p) && NewAny(p.latest.ledgerInfo) == s.waypoint
  {
  }
}
