/** Waypoints, epoch states and the chain of epoch-change ledger infos
    (types/src/waypoint.rs, types/src/epoch_state.rs, types/src/epoch_change.rs). */
module EpochChange {
  import opened Wrappers
  import opened Types

  /** The fields of a ledger info that a waypoint commits to. */
  datatype WaypointData = WaypointData(
    epoch: nat,
    rootHash: Accumulator,
    version: nat,
    timestamp: nat,
    nextEpochState: Option<EpochState>)

  datatype Waypoint = Waypoint(version: nat, value: Hash<WaypointData>)

  function DataOf(li: LedgerInfo): WaypointData {
    var info := li.commitInfo;
    WaypointData(info.epoch, info.executedStateId, info.version, info.timestamp, info.nextEpochState)
  }

  function NewAny(li: LedgerInfo): Waypoint {
    Waypoint(li.commitInfo.version, HashOf(DataOf(li)))
  }

  /** A waypoint commits to exactly five fields of a ledger info. */
  lemma {:induction false} WaypointCommitsTo(li: LedgerInfo, li': LedgerInfo)
    ensures NewAny(li) == NewAny(li') <==>
            && li.commitInfo.epoch == li'.commitInfo.epoch && li.commitInfo.version == li'.commitInfo.version
            && li.commitInfo.executedStateId == li'.commitInfo.executedStateId
            && li.commitInfo.timestamp == li'.commitInfo.timestamp
            && li.commitInfo.nextEpochState == li'.commitInfo.nextEpochState
    ensures NewAny(li).version == li.commitInfo.version
  {
  }

  lemma {:induction false} WaypointVerifies(w: Waypoint, lis: LedgerInfoWithSignatures)
    ensures ByWaypoint(w).Verify(lis) <==> w == NewAny(lis.ledgerInfo)
  {
  }

  /** What a client may trust at the start: a waypoint, or a validator set. */
  datatype Verifier = ByWaypoint(waypoint: Waypoint) | ByEpochState(epochState: EpochState) {

    predicate Verify(lis: LedgerInfoWithSignatures) {
      match this
      case ByWaypoint(w) =>
        lis.ledgerInfo.commitInfo.version == w.version && HashOf(DataOf(lis.ledgerInfo)) == w.value
      case ByEpochState(es) =>
        es.epoch == lis.ledgerInfo.commitInfo.epoch && lis.VerifySignatures(es.verifier)
    }

    predicate EpochChangeVerificationRequired(epoch: nat) {
      match this
      case ByWaypoint(_) => true
      case ByEpochState(es) => es.epoch < epoch
    }

    predicate IsStale(lis: LedgerInfoWithSignatures) {
      match this
      case ByWaypoint(w) => lis.ledgerInfo.commitInfo.version < w.version
      case ByEpochState(es) => lis.ledgerInfo.commitInfo.epoch < es.epoch
    }
  }

  datatype ProofError = EmptyProof | StaleProof | NotVerified | NoValidatorSet

  datatype EpochChangeProof = EpochChangeProof(lis: seq<LedgerInfoWithSignatures>, more: bool)

  function Next(lis: LedgerInfoWithSignatures): Option<EpochState> {
    lis.ledgerInfo.commitInfo.nextEpochState
  }

  /** The index of the first entry from `i` on that is not stale. */
  function FirstFresh(v: Verifier, lis: seq<LedgerInfoWithSignatures>, i: nat): (k: nat)
    requires i <= |lis|
    ensures i <= k <= |lis|
    ensures forall j :: i <= j < k ==> v.IsStale(lis[j])
    ensures k < |lis| ==> !v.IsStale(lis[k])
    decreases |lis| - i
  {
    if i < |lis| && v.IsStale(lis[i]) then FirstFresh(v, lis, i + 1) else i
  }

  /** Verifies each entry from `i` on with the set the previous one installed. */
  function WalkChain(v: Verifier, lis: seq<LedgerInfoWithSignatures>, i: nat): Result<(), ProofError>
    requires i <= |lis|
    decreases |lis| - i
  {
    if i == |lis| then Ok(())
    else if !v.Verify(lis[i]) then Err(NotVerified)
    else if Next(lis[i]).None? then Err(NoValidatorSet)
    else WalkChain(ByEpochState(Next(lis[i]).value), lis, i + 1)
  }

  function VerifyProof(v: Verifier, lis: seq<LedgerInfoWithSignatures>): Result<LedgerInfoWithSignatures, ProofError> {
    if lis == [] then Err(EmptyProof)
    else if v.IsStale(lis[|lis| - 1]) then Err(StaleProof)
    else
      var walk := WalkChain(v, lis, FirstFresh(v, lis, 0));
      if walk.Err? then Err(walk.error) else Ok(lis[|lis| - 1])
  }

  /** The loop of the source: it skips while the original verifier calls an entry stale, then
      verifies with a verifier that it replaces after every entry. */
  method Verify(v: Verifier, proof: EpochChangeProof) returns (r: Result<LedgerInfoWithSignatures, ProofError>)
    ensures r == VerifyProof(v, proof.lis)
  {
    var lis := proof.lis;
    if lis == [] {
      return Err(EmptyProof);
    }
    if v.IsStale(lis[|lis| - 1]) {
      return Err(StaleProof);
    }
    var verifier := v;
    var skipping := true;
    for i := 0 to |lis|
      invariant skipping ==> verifier == v && FirstFresh(v, lis, 0) == FirstFresh(v, lis, i)
      invariant !skipping ==> WalkChain(v, lis, FirstFresh(v, lis, 0)) == WalkChain(verifier, lis, i)
    {
      if skipping && v.IsStale(lis[i]) {
        continue;
      }
      skipping := false;
      if !verifier.Verify(lis[i]) {
        return Err(NotVerified);
      }
      if Next(lis[i]).None? {
        return Err(NoValidatorSet);
      }
      verifier := ByEpochState(Next(lis[i]).value);
    }
    return Ok(lis[|lis| - 1]);
  }

  // ----- What an accepted proof is -----

  /** Entry `i` is in the epoch of, and has a quorum from, the set entry `i - 1` installs. */
  ghost predicate Linked(lis: seq<LedgerInfoWithSignatures>, i: nat)
    requires 0 < i < |lis|
  {
    Next(lis[i - 1]).Some? && ByEpochState(Next(lis[i - 1]).value).Verify(lis[i])
  }

  /** From `k` on: entry `k` is trusted, every entry installs a set, each verifies the next. */
  ghost predicate Unbroken(v: Verifier, lis: seq<LedgerInfoWithSignatures>, k: nat) {
    && k < |lis|
    && v.Verify(lis[k])
    && (forall i :: k <= i < |lis| ==> Next(lis[i]).Some?)
    && (forall i :: k < i < |lis| ==> Linked(lis, i))
  }

  lemma {:induction false} WalkIsUnbroken(v: Verifier, lis: seq<LedgerInfoWithSignatures>, k: nat)
    requires k < |lis|
    ensures WalkChain(v, lis, k).Ok? <==> Unbroken(v, lis, k)
    decreases |lis| - k
  {
    if v.Verify(lis[k]) && Next(lis[k]).Some? && k + 1 < |lis| {
      var v' := ByEpochState(Next(lis[k]).value);
      WalkIsUnbroken(v', lis, k + 1);
      if Unbroken(v, lis, k) {
        assert Linked(lis, k + 1);
      }
    }
  }

  /** A run of stale entries, then an unbroken chain that ends in an entry that is not stale. */
  ghost predicate AcceptedFrom(v: Verifier, lis: seq<LedgerInfoWithSignatures>, k: nat) {
    && Unbroken(v, lis, k)
    && (forall i :: 0 <= i < k ==> v.IsStale(lis[i]))
    && !v.IsStale(lis[k])
    && !v.IsStale(lis[|lis| - 1])
  }

  lemma {:induction false} FirstFreshIs(v: Verifier, lis: seq<LedgerInfoWithSignatures>, i: nat, k: nat)
    requires i <= k < |lis|
    requires forall j :: i <= j < k ==> v.IsStale(lis[j])
    requires !v.IsStale(lis[k])
    ensures FirstFresh(v, lis, i) == k
    decreases k - i
  {
    if i < k {
      FirstFreshIs(v, lis, i + 1, k);
    }
  }

  /** Acceptance, exactly; the entry returned is the last one. */
  lemma {:induction false} AcceptedIff(v: Verifier, lis: seq<LedgerInfoWithSignatures>, k: nat)
    ensures AcceptedFrom(v, lis, k) <==> VerifyProof(v, lis).Ok? && k == FirstFresh(v, lis, 0)
    ensures VerifyProof(v, lis).Ok? ==> VerifyProof(v, lis).value == lis[|lis| - 1] && Next(lis[|lis| - 1]).Some?
  {
    var first := FirstFresh(v, lis, 0);
    if lis != [] && !v.IsStale(lis[|lis| - 1]) {
      WalkIsUnbroken(v, lis, first);
    }
    if AcceptedFrom(v, lis, k) {
      FirstFreshIs(v, lis, 0, k);
    }
  }

  /** The verifier that entry `i` is checked with when the chain begins at `k`. */
  ghost predicate CheckedWith(v: Verifier, lis: seq<LedgerInfoWithSignatures>, k: nat, i: nat, w: Verifier)
    requires k <= i < |lis|
  {
    if i == k then w == v else Next(lis[i - 1]).Some? && w == ByEpochState(Next(lis[i - 1]).value)
  }

  /** The walk fails at the first entry that is not verified or installs no set, and says which. */
  lemma {:induction false} WalkFailsAt(v: Verifier, lis: seq<LedgerInfoWithSignatures>, k: nat)
    returns (i: nat, w: Verifier)
    requires k <= |lis| && WalkChain(v, lis, k).Err?
    ensures k <= i < |lis| && CheckedWith(v, lis, k, i, w) && (i > k ==> Unbroken(v, lis[..i], k))
    ensures WalkChain(v, lis, k) == if !w.Verify(lis[i]) then Err(NotVerified) else Err(NoValidatorSet)
    ensures !w.Verify(lis[i]) || Next(lis[i]).None?
    decreases |lis| - k
  {
    if !v.Verify(lis[k]) || Next(lis[k]).None? {
      i, w := k, v;
    } else {
      var v' := ByEpochState(Next(lis[k]).value);
      i, w := WalkFailsAt(v', lis, k + 1);
      forall j | k < j < i
        ensures Linked(lis[..i], j)
      {
        assert j > k + 1 ==> Linked(lis[..i], j);
      }
    }
  }

  /** Rejection, exactly: nothing to verify, nothing new, or the first entry that breaks the chain. */
  lemma {:induction false} RejectedIff(v: Verifier, lis: seq<LedgerInfoWithSignatures>)
    ensures VerifyProof(v, lis) == Err(EmptyProof) <==> lis == []
    ensures VerifyProof(v, lis) == Err(StaleProof) <==> lis != [] && v.IsStale(lis[|lis| - 1])
    ensures VerifyProof(v, lis) == Err(NotVerified) || VerifyProof(v, lis) == Err(NoValidatorSet) ==>
              exists i: nat, w ::
                && FirstFresh(v, lis, 0) <= i < |lis| && CheckedWith(v, lis, FirstFresh(v, lis, 0), i, w)
                && (i > FirstFresh(v, lis, 0) ==> Unbroken(v, lis[..i], FirstFresh(v, lis, 0)))
                && (VerifyProof(v, lis) == Err(NotVerified) <==> !w.Verify(lis[i]))
                && (VerifyProof(v, lis) == Err(NoValidatorSet) <==> w.Verify(lis[i]) && Next(lis[i]).None?)
  {
    if lis != [] && !v.IsStale(lis[|lis| - 1]) && WalkChain(v, lis, FirstFresh(v, lis, 0)).Err? {
      var i, w := WalkFailsAt(v, lis, FirstFresh(v, lis, 0));
    }
  }

  /** A run of stale entries in front of a non-empty proof never changes the answer. */
  lemma {:induction false} StalePrefixIrrelevant(v: Verifier, stale: seq<LedgerInfoWithSignatures>,
                                                 lis: seq<LedgerInfoWithSignatures>)
    requires lis != []
    requires forall i :: 0 <= i < |stale| ==> v.IsStale(stale[i])
    ensures VerifyProof(v, stale + lis) == VerifyProof(v, lis)
  {
    if !v.IsStale(lis[|lis| - 1]) {
      var k := FirstFresh(v, lis, 0);
      FirstFreshIs(v, stale + lis, 0, |stale| + k);
      WalkShifts(v, stale, lis, k);
    }
  }

  lemma {:induction false} WalkShifts(v: Verifier, front: seq<LedgerInfoWithSignatures>,
                                      lis: seq<LedgerInfoWithSignatures>, k: nat)
    requires k <= |lis|
    ensures WalkChain(v, front + lis, |front| + k) == WalkChain(v, lis, k)
    decreases |lis| - k
  {
    if k < |lis| && Next(lis[k]).Some? {
      WalkShifts(ByEpochState(Next(lis[k]).value), front, lis, k + 1);
    }
  }

  // ----- Chains whose installed epoch is later than the epoch that installs it -----

  function EpochOf(lis: LedgerInfoWithSignatures): nat {
    lis.ledgerInfo.commitInfo.epoch
  }

  /** The epoch numbers named from `k` on go up. Quorums of honest validators only sign such
      ledger infos (the next epoch is the current one plus one); the code does not check it. */
  ghost predicate EpochsAdvance(lis: seq<LedgerInfoWithSignatures>, k: nat) {
    forall i :: k <= i < |lis| && Next(lis[i]).Some? ==> EpochOf(lis[i]) < Next(lis[i]).value.epoch
  }

  lemma {:induction false} ChainEpochsIncrease(v: Verifier, lis: seq<LedgerInfoWithSignatures>, k: nat, i: nat, j: nat)
    requires Unbroken(v, lis, k) && EpochsAdvance(lis, k)
    requires k <= i < j < |lis|
    ensures Next(lis[i]).value.epoch <= EpochOf(lis[j])
    decreases j
  {
    assert Linked(lis, j);
    if i < j - 1 {
      ChainEpochsIncrease(v, lis, k, i, j - 1);
    }
  }

  /** Whoever already trusts the set that entry `i` installs accepts the same proof with the same
      result, unless `i` is the last entry; then the proof is stale. */
  lemma {:induction false} PathIndependent(es: EpochState, lis: seq<LedgerInfoWithSignatures>, i: nat)
    requires VerifyProof(ByEpochState(es), lis).Ok?
    requires var k := FirstFresh(ByEpochState(es), lis, 0); EpochsAdvance(lis, k) && k <= i < |lis|
    ensures Next(lis[i]).Some?
    ensures VerifyProof(ByEpochState(Next(lis[i]).value), lis)
         == if i < |lis| - 1 then VerifyProof(ByEpochState(es), lis) else Err(StaleProof)
  {
    var v := ByEpochState(es);
    var k := FirstFresh(v, lis, 0);
    AcceptedIff(v, lis, k);
    var later := ByEpochState(Next(lis[i]).value);
    if i < |lis| - 1 {
      forall j | 0 <= j <= i
        ensures later.IsStale(lis[j])
      {
        if k < i { ChainEpochsIncrease(v, lis, k, k, i); }
        if k <= j < i { ChainEpochsIncrease(v, lis, k, j, i); }
      }
      assert Linked(lis, i + 1);
      ChainEpochsIncrease(v, lis, k, i, |lis| - 1);
      assert AcceptedFrom(later, lis, i + 1);
      AcceptedIff(later, lis, i + 1);
    }
  }

  lemma {:induction false} FirstHalfAccepted(es: EpochState, first: seq<LedgerInfoWithSignatures>,
                                             lis: seq<LedgerInfoWithSignatures>, k: nat)
    requires first <= lis && k < |first|
    requires AcceptedFrom(ByEpochState(es), lis, k) && EpochsAdvance(lis, k)
    ensures AcceptedFrom(ByEpochState(es), first, k)
  {
    var v := ByEpochState(es);
    forall i | k < i < |first|
      ensures Linked(first, i)
    {
      assert Linked(lis, i);
    }
    if k < |first| - 1 {
      ChainEpochsIncrease(v, lis, k, k, |first| - 1);
    }
  }

  lemma {:induction false} SecondHalfAccepted(es: EpochState, lis: seq<LedgerInfoWithSignatures>, n: nat,
                                              second: seq<LedgerInfoWithSignatures>, k: nat)
    requires k < n < |lis| && second == lis[n..]
    requires AcceptedFrom(ByEpochState(es), lis, k) && EpochsAdvance(lis, k)
    ensures Next(lis[n - 1]).Some?
    ensures AcceptedFrom(ByEpochState(Next(lis[n - 1]).value), second, 0)
  {
    assert Linked(lis, n);
    forall i | 0 < i < |second|
      ensures Linked(second, i)
    {
      assert Linked(lis, n + i);
    }
    ChainEpochsIncrease(ByEpochState(es), lis, k, n - 1, |lis| - 1);
  }

  /** Cutting an accepted proof anywhere after its first non-stale entry gives two accepted proofs:
      the first half installs the set the second half begins at and is accepted from. */
  lemma {:induction false} ProofSplits(es: EpochState, first: seq<LedgerInfoWithSignatures>,
                                       second: seq<LedgerInfoWithSignatures>)
    requires second != [] && VerifyProof(ByEpochState(es), first + second).Ok?
    requires var k := FirstFresh(ByEpochState(es), first + second, 0); EpochsAdvance(first + second, k) && k < |first|
    ensures VerifyProof(ByEpochState(es), first) == Ok(first[|first| - 1])
    ensures Next(first[|first| - 1]).Some?
    ensures EpochOf(second[0]) == Next(first[|first| - 1]).value.epoch
    ensures VerifyProof(ByEpochState(Next(first[|first| - 1]).value), second)
            == VerifyProof(ByEpochState(es), first + second)
  {
    var v := ByEpochState(es);
    var k := FirstFresh(v, first + second, 0);
    AcceptedIff(v, first + second, k);
    FirstHalfAccepted(es, first, first + second, k);
    AcceptedIff(v, first, k);
    assert (first + second)[|first|..] == second;
    SecondHalfAccepted(es, first + second, |first|, second, k);
    AcceptedIff(ByEpochState(Next(first[|first| - 1]).value), second, 0);
  }

  /** An accepted proof followed by one that begins at, and is accepted from, the set the first
      installs is accepted as a whole. */
  lemma {:induction false} ProofsConcatenate(es: EpochState, first: seq<LedgerInfoWithSignatures>,
                                             second: seq<LedgerInfoWithSignatures>)
    requires VerifyProof(ByEpochState(es), first).Ok?
    requires EpochsAdvance(first, FirstFresh(ByEpochState(es), first, 0)) && EpochsAdvance(second, 0)
    requires Next(first[|first| - 1]).Some? && second != []
    requires var installed := Next(first[|first| - 1]).value;
             EpochOf(second[0]) == installed.epoch && VerifyProof(ByEpochState(installed), second).Ok?
    ensures VerifyProof(ByEpochState(es), first + second)
            == VerifyProof(ByEpochState(Next(first[|first| - 1]).value), second)
  {
    var v := ByEpochState(es);
    var lis := first + second;
    var n := |first|;
    var k := FirstFresh(v, first, 0);
    AcceptedIff(v, first, k);
    var installed := ByEpochState(Next(first[n - 1]).value);
    FirstFreshIs(installed, second, 0, 0);
    AcceptedIff(installed, second, 0);
    forall i | k < i < |lis|
      ensures Linked(lis, i)
    {
      if i < n {
        assert Linked(first, i);
      } else if i > n {
        assert Linked(second, i - n);
      }
    }
    assert Unbroken(v, lis, k);
    ChainEpochsIncrease(v, lis, k, k, |lis| - 1);
    assert AcceptedFrom(v, lis, k);
    AcceptedIff(v, lis, k);
  }
}
