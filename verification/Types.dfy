/** Blocks, ledger infos, votes and certificates, with the checks each carries
    (types/src/block_info.rs, types/src/ledger_info.rs, consensus/consensus-types/src). */
module Types {
  import opened Wrappers
  import opened Validators

  type Round = nat

  /** An ideal hash is the value it was computed from; `Zero` is the all-zero hash. */
  datatype Hash<T> = Zero | HashOf(value: T)

  /** The transaction accumulator: its root hash is the sequence of its leaves. */
  type Accumulator = seq<nat>

  const ACCUMULATOR_PLACEHOLDER: Accumulator := []

  function AccumulatorVersion(acc: Accumulator): nat {
    if acc == [] then 0 else |acc| - 1
  }

  datatype EpochState = EpochState(epoch: nat, verifier: ValidatorVerifier)

  type BlockId = Hash<BlockData>

  datatype BlockInfo = BlockInfo(
    epoch: nat,
    round: Round,
    id: Hash<BlockData>,
    executedStateId: Accumulator,
    version: nat,
    timestamp: nat,
    nextEpochState: Option<EpochState>)
  {
    function NextBlockEpoch(): nat {
      if nextEpochState.Some? then nextEpochState.value.epoch else epoch
    }
  }

  const EMPTY_BLOCK_INFO := BlockInfo(0, 0, Zero, ACCUMULATOR_PLACEHOLDER, 0, 0, None)

  datatype VoteData = VoteData(proposed: BlockInfo, parent: BlockInfo) {
    predicate Verify() {
      && parent.epoch == proposed.epoch
      && parent.round < proposed.round
      && parent.timestamp <= proposed.timestamp
      && (proposed.version == 0 || parent.version <= proposed.version)
    }
  }

  datatype LedgerInfo = LedgerInfo(commitInfo: BlockInfo, consensusDataHash: Hash<VoteData>)

  datatype LedgerInfoWithSignatures = LedgerInfoWithSignatures(
    ledgerInfo: LedgerInfo,
    signatures: map<Address, Signature<LedgerInfo>>)
  {
    /** The first signature of a validator wins. */
    function AddSignature(a: Address, signature: Signature<LedgerInfo>): LedgerInfoWithSignatures {
      if a in signatures then this else this.(signatures := signatures[a := signature])
    }

    predicate VerifySignatures(v: ValidatorVerifier) {
      VerifyAggregated(v, ledgerInfo, signatures).Ok?
    }
  }

  datatype QuorumCert = QuorumCert(voteData: VoteData, signedLedgerInfo: LedgerInfoWithSignatures) {
    function CertifiedBlock(): BlockInfo {
      voteData.proposed
    }

    function ParentBlock(): BlockInfo {
      voteData.parent
    }

    function CommitInfo(): BlockInfo {
      signedLedgerInfo.ledgerInfo.commitInfo
    }

    predicate EndsEpoch() {
      CommitInfo().nextEpochState.Some?
    }

    /** A certificate of round 0 is the implicitly agreed genesis and carries no signatures. */
    predicate Verify(v: ValidatorVerifier) {
      && signedLedgerInfo.ledgerInfo.consensusDataHash == HashOf(voteData)
      && if CertifiedBlock().round == 0 then
           ParentBlock() == CertifiedBlock() == CommitInfo() && signedLedgerInfo.signatures == map[]
         else
           signedLedgerInfo.VerifySignatures(v) && voteData.Verify()
    }
  }

  datatype BlockType = Proposal(payload: seq<nat>, author: Address) | NilBlock | Genesis

  datatype BlockData = BlockData(
    epoch: nat,
    round: Round,
    timestamp: nat,
    quorumCert: QuorumCert,
    blockType: BlockType)

  datatype Block = Block(data: BlockData, signature: Option<Signature<BlockData>>) {
    function Id(): BlockId {
      HashOf(data)
    }

    function ParentId(): BlockId {
      data.quorumCert.CertifiedBlock().id
    }

    function GenBlockInfo(executedStateId: Accumulator, version: nat, nextEpochState: Option<EpochState>): BlockInfo {
      BlockInfo(data.epoch, data.round, Id(), executedStateId, version, data.timestamp, nextEpochState)
    }

    predicate ValidateSignature(v: ValidatorVerifier) {
      match data.blockType
      case Genesis => false
      case NilBlock => data.quorumCert.Verify(v)
      case Proposal(_, author) =>
        && signature.Some?
        && Validators.Verify(v, author, data, signature.value).Ok?
        && data.quorumCert.Verify(v)
    }

    /** `now` is the local clock in microseconds; a proposal may lie five minutes ahead of it. */
    predicate WellFormed(now: nat) {
      var parent := data.quorumCert.CertifiedBlock();
      && !data.blockType.Genesis?
      && parent.round < data.round
      && parent.epoch == data.epoch
      && (parent.nextEpochState.Some? && data.blockType.Proposal? ==> data.blockType.payload == [])
      && (if data.blockType.NilBlock? || parent.nextEpochState.Some? then data.timestamp == parent.timestamp
          else parent.timestamp < data.timestamp <= SaturatingAdd(now, 300_000_000))
      && !data.quorumCert.EndsEpoch()
    }
  }

  function SaturatingAdd(a: nat, b: nat): nat {
    if a + b > U64_MAX then U64_MAX else a + b
  }

  function NewNil(round: Round, quorumCert: QuorumCert): Block {
    var parent := quorumCert.CertifiedBlock();
    Block(BlockData(parent.epoch, round, parent.timestamp, quorumCert, NilBlock), None)
  }

  /** The leaves before and after executing a block; the proof is good for one parent state. */
  datatype ExtensionProof = ExtensionProof(original: Accumulator, appended: seq<nat>)

  datatype VoteProposal = VoteProposal(
    extensionProof: ExtensionProof,
    block: Block,
    nextEpochState: Option<EpochState>,
    decoupledExecution: bool)
  {
    function GenVoteData(): Option<VoteData> {
      var parent := block.data.quorumCert.CertifiedBlock();
      if decoupledExecution then
        Some(VoteData(block.GenBlockInfo(ACCUMULATOR_PLACEHOLDER, 0, nextEpochState), parent))
      else if extensionProof.original != parent.executedStateId then None
      else
        var acc := extensionProof.original + extensionProof.appended;
        Some(VoteData(block.GenBlockInfo(acc, AccumulatorVersion(acc), nextEpochState), parent))
    }
  }

  datatype Timeout = Timeout(epoch: nat, round: Round)

  datatype TimeoutSigningRepr = TimeoutSigningRepr(epoch: nat, round: Round, hqcRound: Round)

  datatype TwoChainTimeout = TwoChainTimeout(epoch: nat, round: Round, quorumCert: QuorumCert) {
    function HqcRound(): Round {
      quorumCert.CertifiedBlock().round
    }

    function SigningFormat(): TimeoutSigningRepr {
      TimeoutSigningRepr(epoch, round, HqcRound())
    }
  }

  datatype Vote = Vote(
    voteData: VoteData,
    author: Address,
    ledgerInfo: LedgerInfo,
    signature: Signature<LedgerInfo>,
    timeoutSignature: Option<Signature<Timeout>>,
    twoChainTimeout: Option<(TwoChainTimeout, Signature<TimeoutSigningRepr>)>)
  {
    function Round(): Round {
      voteData.proposed.round
    }

    predicate IsTimeout() {
      timeoutSignature.Some? || twoChainTimeout.Some?
    }

    function GenerateTimeout(): Timeout {
      Timeout(voteData.proposed.epoch, voteData.proposed.round)
    }

    predicate Verify(v: ValidatorVerifier) {
      && ledgerInfo.consensusDataHash == HashOf(voteData)
      && (timeoutSignature.None? || twoChainTimeout.None?)
      && Validators.Verify(v, author, ledgerInfo, signature).Ok?
      && (timeoutSignature.Some? ==> Validators.Verify(v, author, GenerateTimeout(), timeoutSignature.value).Ok?)
      && (twoChainTimeout.Some? ==>
            var (timeout, signature) := twoChainTimeout.value;
            && timeout.epoch == voteData.proposed.epoch && timeout.round == voteData.proposed.round
            && timeout.quorumCert.Verify(v)
            && Validators.Verify(v, author, timeout.SigningFormat(), signature).Ok?)
      && voteData.Verify()
    }
  }

  function NewVote(voteData: VoteData, author: Address, ledgerInfo: LedgerInfo, signature: Signature<LedgerInfo>): Vote
  {
    Vote(voteData, author, ledgerInfo, signature, None, None)
  }

  datatype TimeoutCertificate = TimeoutCertificate(timeout: Timeout, signatures: map<Address, Signature<Timeout>>) {
    function AddSignature(a: Address, signature: Signature<Timeout>): TimeoutCertificate {
      if a in signatures then this else this.(signatures := signatures[a := signature])
    }

    predicate Verify(v: ValidatorVerifier) {
      VerifyAggregated(v, timeout, signatures).Ok?
    }
  }

  datatype TwoChainTimeoutCertificate = TwoChainTimeoutCertificate(
    timeout: TwoChainTimeout,
    signatures: map<Address, (Round, Signature<TimeoutSigningRepr>)>)
  {
    /** Keeps the timeout with the highest certificate; a later signature replaces an earlier one. */
    function Add(a: Address, t: TwoChainTimeout, signature: Signature<TimeoutSigningRepr>): TwoChainTimeoutCertificate {
      TwoChainTimeoutCertificate(
        if t.HqcRound() > timeout.HqcRound() then t else timeout,
        signatures[a := (t.HqcRound(), signature)])
    }

    predicate SignedFor(v: ValidatorVerifier, a: Address)
      requires a in signatures
    {
      Validators.Verify(v, a, TimeoutSigningRepr(timeout.epoch, timeout.round, signatures[a].0), signatures[a].1).Ok?
    }

    /** The loop of the source takes the maximum of 0 and the signed rounds. */
    predicate IsHighestSigned(r: Round) {
      && (forall a :: a in signatures ==> signatures[a].0 <= r)
      && (r == 0 || exists a :: a in signatures && signatures[a].0 == r)
    }

    predicate Verify(v: ValidatorVerifier) {
      && timeout.HqcRound() < timeout.round
      && timeout.quorumCert.Verify(v)
      && CheckPower(v, signatures.Keys).Ok?
      && (forall a :: a in signatures ==> SignedFor(v, a))
      && IsHighestSigned(timeout.HqcRound())
    }
  }

  /** `d` is `a` or extends it through a chain of parent links. */
  ghost predicate Extends(d: BlockInfo, a: BlockInfo)
    decreases d
  {
    d == a || (d.id.HashOf? && Extends(d.id.value.quorumCert.voteData.proposed, a))
  }
}
