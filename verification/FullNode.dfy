/** A full node's answers about epoch changes: which epoch a version belongs to, pages of epoch-ending
    ledger infos and state proofs (storage/diemdb/src/lib.rs, storage/diemdb/src/ledger_store/mod.rs). */
module FullNode {
  import opened Wrappers
  import opened Validators
  import opened Types
  import opened EpochChange
  import opened TrustedState

  /** What the node stores: the epoch-ending ledger info of every finished epoch, its latest ledger
      info and the ledger; `epochStates` are the validator sets the chain went through. */
  datatype Server = Server(
    endings: seq<LedgerInfoWithSignatures>,
    latest: LedgerInfoWithSignatures,
    leaves: Accumulator,
    epochStates: nat -> EpochState)

  function VersionOf(lis: LedgerInfoWithSignatures): nat {
    lis.ledgerInfo.commitInfo.version
  }

  ghost predicate InLedger(srv: Server, lis: LedgerInfoWithSignatures) {
    && VersionOf(lis) < |srv.leaves|
    && lis.ledgerInfo.commitInfo.executedStateId == srv.leaves[..VersionOf(lis) + 1]
    && (EpochOf(lis) >= 1 ==> ByEpochState(srv.epochStates(EpochOf(lis))).Verify(lis))
  }

  /** Entry `e` ends epoch `e` and installs the next set. */
  ghost predicate ValidEnding(srv: Server, e: nat)
    requires e < |srv.endings|
  {
    EpochOf(srv.endings[e]) == e && Next(srv.endings[e]) == Some(srv.epochStates(e + 1))
  }

  ghost predicate Earlier(srv: Server, i: nat, j: nat)
    requires i < |srv.endings| && j < |srv.endings|
  {
    VersionOf(srv.endings[i]) < VersionOf(srv.endings[j])
  }

  ghost predicate LatestEndsEpoch(srv: Server) {
    Next(srv.latest).Some?
  }

  ghost predicate Stored(srv: Server, lis: LedgerInfoWithSignatures) {
    lis == srv.latest || lis in srv.endings
  }

  ghost predicate ValidServer(srv: Server) {
    && srv.endings != []
    && (forall e: nat :: srv.epochStates(e).epoch == e)
    && (forall e: nat :: e < |srv.endings| ==> ValidEnding(srv, e))
    && (forall i: nat, j: nat :: i < j < |srv.endings| ==> Earlier(srv, i, j))
    && (forall lis :: Stored(srv, lis) ==> InLedger(srv, lis))
    && (if LatestEndsEpoch(srv) then srv.latest == srv.endings[|srv.endings| - 1]
        else EpochOf(srv.latest) == |srv.endings| && VersionOf(srv.endings[|srv.endings| - 1]) < VersionOf(srv.latest))
  }

  /** The epoch of a version, looking only at the first `n` epochs: the last version of an epoch
      still belongs to it. */
  function GetEpoch(endings: seq<LedgerInfoWithSignatures>, n: nat, version: nat): (e: nat)
    requires n <= |endings|
    ensures e <= n
  {
    if n == 0 then 0
    else if VersionOf(endings[n - 1]) > version then GetEpoch(endings, n - 1, version)
    else if VersionOf(endings[n - 1]) < version then n
    else n - 1
  }

  function GetEpochEndingLedgerInfos(srv: Server, start: nat, end: nat, limit: nat): EpochChangeProof
    requires start <= end <= |srv.endings|
  {
    if end - start > limit then EpochChangeProof(srv.endings[start..start + limit], true)
    else EpochChangeProof(srv.endings[start..end], false)
  }

  /** The ledger info the consistency proof reaches. */
  function VerifiableLi(srv: Server, changes: EpochChangeProof): Option<LedgerInfoWithSignatures> {
    if !changes.more then Some(srv.latest)
    else if changes.lis == [] then None
    else Some(changes.lis[|changes.lis| - 1])
  }

  function Between(leaves: Accumulator, known: nat, target: nat): seq<nat> {
    if known <= target < |leaves| then leaves[known + 1..target + 1] else []
  }

  /** `None` stands for the errors of the source. */
  function GetStateProof(srv: Server, known: nat, limit: nat): Option<StateProof> {
    var end := srv.latest.ledgerInfo.commitInfo.NextBlockEpoch();
    var start := GetEpoch(srv.endings, |srv.endings|, known);
    if known > VersionOf(srv.latest) || end > |srv.endings| then None
    else
      var changes := if start < end then GetEpochEndingLedgerInfos(srv, start, end, limit)
                     else EpochChangeProof([], false);
      var target := VerifiableLi(srv, changes);
      if target.None? then None
      else Some(StateProof(srv.latest, changes, Between(srv.leaves, known, VersionOf(target.value))))
  }

  // ----- What an honest node's pages are -----

  lemma {:induction false} GetEpochIs(srv: Server, n: nat, version: nat, k: nat)
    requires ValidServer(srv) && k <= n <= |srv.endings|
    requires k > 0 ==> VersionOf(srv.endings[k - 1]) < version
    requires k < n ==> version <= VersionOf(srv.endings[k])
    ensures GetEpoch(srv.endings, n, version) == k
    decreases n
  {
    if k < n - 1 {
      assert Earlier(srv, k, n - 1);
      GetEpochIs(srv, n - 1, version, k);
    } else if k == n - 1 && VersionOf(srv.endings[k]) > version {
      GetEpochIs(srv, n - 1, version, k);
    }
  }

  lemma {:induction false} NextBlockEpochIs(srv: Server)
    requires ValidServer(srv)
    ensures srv.latest.ledgerInfo.commitInfo.NextBlockEpoch() == |srv.endings|
    ensures VersionOf(srv.endings[|srv.endings| - 1]) <= VersionOf(srv.latest)
  {
    assert ValidEnding(srv, |srv.endings| - 1);
  }

  lemma {:induction false} EndingLinked(srv: Server, lis: seq<LedgerInfoWithSignatures>, start: nat, i: nat)
    requires ValidServer(srv) && start + |lis| <= |srv.endings| && lis == srv.endings[start..start + |lis|]
    requires 0 < i < |lis|
    ensures Linked(lis, i)
  {
    assert lis[i - 1] == srv.endings[start + i - 1] && lis[i] == srv.endings[start + i];
    assert ValidEnding(srv, start + i - 1) && ValidEnding(srv, start + i);
    assert Stored(srv, srv.endings[start + i]);
  }

  lemma {:induction false} EndingsUnbroken(srv: Server, e: nat, lis: seq<LedgerInfoWithSignatures>, start: nat)
    requires ValidServer(srv) && start + |lis| <= |srv.endings| && lis == srv.endings[start..start + |lis|]
    requires 1 <= e && start <= e < start + |lis|
    ensures Unbroken(ByEpochState(srv.epochStates(e)), lis, e - start)
  {
    assert ValidEnding(srv, e) && Stored(srv, srv.endings[e]);
    forall i | 0 <= i < |lis|
      ensures Next(lis[i]).Some?
    {
      assert ValidEnding(srv, start + i);
    }
    forall i | 0 < i < |lis|
      ensures Linked(lis, i)
    {
      EndingLinked(srv, lis, start, i);
    }
  }

  lemma {:induction false} AtMostOneStale(v: Verifier, lis: seq<LedgerInfoWithSignatures>, k: nat)
    requires Unbroken(v, lis, k) && k <= 1
    requires (k == 1 ==> v.IsStale(lis[0])) && !v.IsStale(lis[k]) && !v.IsStale(lis[|lis| - 1])
    ensures VerifyProof(v, lis) == Ok(lis[|lis| - 1])
  {
    assert AcceptedFrom(v, lis, k);
    AcceptedIff(v, lis, k);
  }

  // ----- Honest nodes exist -----

  function Zeros(n: nat): Accumulator {
    seq(n, _ => 0)
  }

  /** An epoch of a single transaction, ended by its single validator. */
  function ExampleEnding(e: nat): LedgerInfoWithSignatures {
    var li := LedgerInfo(BlockInfo(e, 0, Zero, Zeros(e + 1), e, 0, Some(EpochState(e + 1, SOLE_VALIDATOR))), Zero);
    LedgerInfoWithSignatures(li, map[1 := Signature(1, li)])
  }

  ghost function ExampleServer(n: nat): Server
    requires n >= 1
  {
    Server(seq(n, (e: nat) => ExampleEnding(e)), ExampleEnding(n - 1), Zeros(n),
           (e: nat) => EpochState(e, SOLE_VALIDATOR))
  }

  lemma {:induction false} ExampleSignature(e: nat)
    ensures ByEpochState(EpochState(e, SOLE_VALIDATOR)).Verify(ExampleEnding(e))
  {
    var signatures := ExampleEnding(e).signatures;
    assert signatures.Keys == {1};
    SoleValidatorQuorum();
    assert |signatures| == 1 && |SOLE_VALIDATOR.validators| == 1;
  }

  lemma {:induction false} ExampleInLedger(n: nat, e: nat)
    requires e < n
    ensures InLedger(ExampleServer(n), ExampleEnding(e))
  {
    ExampleSignature(e);
    assert Zeros(n)[..e + 1] == Zeros(e + 1);
  }

  lemma {:induction false} ExampleIsValid(n: nat)
    requires n >= 1
    ensures ValidServer(ExampleServer(n)) && LatestEndsEpoch(ExampleServer(n))
    ensures forall e: nat :: e < n ==> ExampleServer(n).endings[e] == ExampleEnding(e)
  {
    var srv := ExampleServer(n);
    forall e: nat | e < n
      ensures ValidEnding(srv, e) && srv.endings[e] == ExampleEnding(e) && InLedger(srv, ExampleEnding(e))
    {
      ExampleInLedger(n, e);
    }
    assert forall i: nat, j: nat :: i < j < n ==> Earlier(srv, i, j);
  }
}
