/** When the safety rules sign, exactly, and what they then remember, in terms of epochs, rounds and
    certificates (consensus/safety-rules/src/safety_rules.rs, safety_rules_2chain.rs). */
module SigningRules {
  import opened Wrappers
  import opened Validators
  import opened Types
  import opened EpochChange
  import opened SafetyRules
  import Protocol

  // ----- Proposals -----

  /** A certificate is good: the agreed genesis of the epoch, or a quorum's, for a block that follows its
      parent. */
  ghost predicate QcGood(v: ValidatorVerifier, qc: QuorumCert) {
    var block, parent := qc.CertifiedBlock(), qc.ParentBlock();
    && qc.signedLedgerInfo.ledgerInfo.consensusDataHash == HashOf(VoteData(block, parent))
    && if block.round == 0 then parent == block && qc.CommitInfo() == block && qc.signedLedgerInfo.signatures == map[]
       else
         && VerifyAggregated(v, qc.signedLedgerInfo.ledgerInfo, qc.signedLedgerInfo.signatures).Ok?
         && parent.epoch == block.epoch && parent.round < block.round && parent.timestamp <= block.timestamp
         && (parent.version <= block.version || block.version == 0)
  }

  /** A block is signed by its proposer, or needs no signature because it has no transactions. */
  ghost predicate ProposedBy(v: ValidatorVerifier, block: Block) {
    match block.data.blockType
    case Genesis => false
    case NilBlock => true
    case Proposal(_, author) =>
      author in v.validators && block.signature == Some(Signature(v.validators[author].publicKey, block.data))
  }

  /** A block follows its parent: in round, epoch and time, at most five minutes ahead of the clock, empty
      after the end of the epoch, and not after that end was committed. */
  ghost predicate Follows(data: BlockData, now: nat) {
    var parent := data.quorumCert.CertifiedBlock();
    && parent.round < data.round && parent.epoch == data.epoch
    && data.quorumCert.CommitInfo().nextEpochState.None?
    && match data.blockType
       case Genesis => false
       case NilBlock => data.timestamp == parent.timestamp
       case Proposal(payload, _) =>
         if parent.nextEpochState.Some? then payload == [] && data.timestamp == parent.timestamp
         else
           && parent.timestamp < data.timestamp
           && (data.timestamp <= now + 300_000_000 && data.timestamp <= U64_MAX)
  }

  /** What the rules ask of a proposal before they look at rounds voted in. */
  ghost predicate ProposalGood(s: State, p: MaybeSignedVoteProposal, now: nat) {
    var block := p.voteProposal.block;
    && (s.executionKey.Some? ==> p.signature == Some(Signature(s.executionKey.value, p.voteProposal)))
    && block.data.epoch == s.safetyData.epoch && s.epochState.Some?
    && var v := s.epochState.value.verifier;
       && QcGood(v, block.data.quorumCert) && ProposedBy(v, block) && Follows(block.data, now)
       && (p.voteProposal.decoupledExecution
           || p.voteProposal.extensionProof.original == block.data.quorumCert.CertifiedBlock().executedStateId)
  }

  /** What the vote says about the block: the state it was executed to, or none if it was only ordered. */
  ghost predicate Describes(vd: VoteData, p: VoteProposal) {
    var data := p.block.data;
    var executed := if p.decoupledExecution then [] else p.extensionProof.original + p.extensionProof.appended;
    && vd.parent == data.quorumCert.CertifiedBlock()
    && vd.proposed == BlockInfo(data.epoch, data.round, HashOf(data), executed,
                                if |executed| == 0 then 0 else |executed| - 1, data.timestamp, p.nextEpochState)
  }

  lemma {:induction false} BlockGoodIff(v: ValidatorVerifier, block: Block, now: nat)
    ensures block.data.quorumCert.Verify(v) <==> QcGood(v, block.data.quorumCert)
    ensures block.ValidateSignature(v) <==> ProposedBy(v, block) && QcGood(v, block.data.quorumCert)
    ensures block.WellFormed(now) <==> Follows(block.data, now)
  {
    var qc := block.data.quorumCert;
    assert qc.voteData == VoteData(qc.CertifiedBlock(), qc.ParentBlock());
  }

  /** A proposal passes exactly if it is good, and the vote will describe it. */
  lemma {:induction false} ProposalGoodIff(s: State, p: MaybeSignedVoteProposal, now: nat)
    ensures VerifyProposal(s, p, now).Ok? <==> ProposalGood(s, p, now)
    ensures VerifyProposal(s, p, now).Ok? ==> Describes(VerifyProposal(s, p, now).value, p.voteProposal)
  {
    if s.epochState.Some? {
      BlockGoodIff(s.epochState.value.verifier, p.voteProposal.block, now);
    }
  }

  // ----- Votes -----

  /** A vote of this round was signed before. */
  ghost predicate Repeats(sd: SafetyData, round: Round) {
    sd.lastVote.Some? && sd.lastVote.value.voteData.proposed.round == round
  }

  /** The vote for the block, and what is remembered of it: the round, and the highest rounds seen of a
      certified block and of its parent. */
  ghost predicate SignedFor(s: State, twoChain: bool, p: VoteProposal, vote: Vote, sd: SafetyData)
    requires s.signer.Some?
  {
    var data, was := p.block.data, s.safetyData;
    var parent, grandparent := data.quorumCert.CertifiedBlock().round, data.quorumCert.ParentBlock().round;
    && Describes(vote.voteData, p)
    && vote.ledgerInfo == LedgerInfo(Protocol.CommittedWith(twoChain, data), HashOf(vote.voteData))
    && vote == Vote(vote.voteData, s.signer.value.author, vote.ledgerInfo,
                    Signature(s.signer.value.publicKey, vote.ledgerInfo), None, None)
    && sd == SafetyData(was.epoch, data.round,
                        if grandparent > was.preferredRound then grandparent else was.preferredRound,
                        if parent > was.oneChainRound then parent else was.oneChainRound, Some(vote))
  }

  /** The three-chain rule: above the last round voted in, on a parent that is not below the preferred
      round, as far as rounds can be counted on. */
  ghost predicate ThreeChainAllows(sd: SafetyData, data: BlockData) {
    var parent, grandparent := data.quorumCert.CertifiedBlock().round, data.quorumCert.ParentBlock().round;
    && data.round > sd.lastVotedRound && parent >= sd.preferredRound
    && grandparent != U64_MAX && (grandparent + 1 == parent ==> parent != U64_MAX)
  }

  /** A timeout certificate is good: with a good certificate below its round, and signed by a quorum, each
      for the round of the highest certificate it knew, of which the certificate's is the highest. */
  ghost predicate TcGood(v: ValidatorVerifier, tc: TwoChainTimeoutCertificate) {
    var t := tc.timeout;
    var hqc := t.quorumCert.CertifiedBlock().round;
    && hqc < t.round && QcGood(v, t.quorumCert)
    && tc.signatures.Keys <= v.validators.Keys && Power(v.validators, tc.signatures.Keys) >= v.quorumVotingPower
    && (forall a :: a in tc.signatures ==>
                      && tc.signatures[a].0 <= hqc
                      && tc.signatures[a].1 == Signature(v.validators[a].publicKey,
                                                         TimeoutSigningRepr(t.epoch, t.round, tc.signatures[a].0)))
    && (hqc > 0 ==> exists a :: a in tc.signatures && tc.signatures[a].0 == hqc)
  }

  lemma {:induction false} TcGoodIff(v: ValidatorVerifier, tc: TwoChainTimeoutCertificate)
    ensures tc.Verify(v) <==> TcGood(v, tc)
  {
    var qc := tc.timeout.quorumCert;
    assert qc.voteData == VoteData(qc.CertifiedBlock(), qc.ParentBlock());
    assert forall a :: a in tc.signatures && a in v.validators ==>
                         (tc.SignedFor(v, a) <==>
                            tc.signatures[a].1 == Signature(v.validators[a].publicKey,
                                                            TimeoutSigningRepr(tc.timeout.epoch, tc.timeout.round,
                                                                               tc.signatures[a].0)));
  }

  /** The two-chain rule: above the last round voted in and right after the parent, or right after the
      round of a timeout certificate whose highest certificate is not above the parent. */
  ghost predicate TwoChainAllows(sd: SafetyData, data: BlockData, tc: Option<TwoChainTimeoutCertificate>) {
    var parent := data.quorumCert.CertifiedBlock().round;
    && data.round > sd.lastVotedRound && parent != U64_MAX
    && (|| data.round == parent + 1
        || (tc.None? && data.round == 1)
        || (tc.Some? && tc.value.timeout.round != U64_MAX && data.round == tc.value.timeout.round + 1
            && parent >= tc.value.timeout.quorumCert.CertifiedBlock().round))
  }

  /** A vote is signed under the three-chain rule exactly if the rules have a key, the proposal is good,
      and it was voted for in this round before or the rule allows it. */
  lemma {:induction false} VoteSignedIff(s: State, p: MaybeSignedVoteProposal, now: nat)
    ensures ConstructVote(s, p, now).Ok? <==>
            && s.signer.Some? && ProposalGood(s, p, now)
            && var data := p.voteProposal.block.data;
               Repeats(s.safetyData, data.round) || ThreeChainAllows(s.safetyData, data)
    ensures ConstructVote(s, p, now).Ok? ==>
              var (vote, sd) := ConstructVote(s, p, now).value;
              if Repeats(s.safetyData, p.voteProposal.block.data.round) then
                Some(vote) == s.safetyData.lastVote && sd == s.safetyData
              else SignedFor(s, false, p.voteProposal, vote, sd)
  {
    ProposalGoodIff(s, p, now);
  }

  /** Nothing compares the version of an agreed genesis with its transactions, so that a vote can be signed
      that no collector accepts: here the version falls from 5 to 1. */
  lemma {:induction false} SignsFallingVersion(v: ValidatorVerifier) returns (s: State, p: MaybeSignedVoteProposal)
    ensures s.epochState == Some(EpochState(1, v)) && ConstructVote(s, p, 0).Ok?
    ensures !ConstructVote(s, p, 0).value.0.voteData.Verify()
  {
    var genesis := BlockInfo(1, 0, Zero, [0], 5, 0, None);
    var vd := VoteData(genesis, genesis);
    var qc := QuorumCert(vd, LedgerInfoWithSignatures(LedgerInfo(genesis, HashOf(vd)), map[]));
    s := State(1, Waypoint(0, Zero), SafetyData(1, 0, 0, 0, None), Some(EpochState(1, v)), Some(Signer(1, 1)), None);
    p := MaybeSignedVoteProposal(VoteProposal(ExtensionProof([0], [0]), NewNil(1, qc), None, false), None);
    VoteSignedIff(s, p, 0);
  }

  lemma {:induction false} VoteTwoChainSignedIff(s: State, p: MaybeSignedVoteProposal,
                                                 tc: Option<TwoChainTimeoutCertificate>, now: nat)
    ensures ConstructVoteTwoChain(s, p, tc, now).Ok? <==>
            && s.signer.Some? && ProposalGood(s, p, now)
            && (tc.Some? ==> TcGood(s.epochState.value.verifier, tc.value))
            && var data := p.voteProposal.block.data;
               Repeats(s.safetyData, data.round) || TwoChainAllows(s.safetyData, data, tc)
    ensures ConstructVoteTwoChain(s, p, tc, now).Ok? ==>
              var (vote, sd) := ConstructVoteTwoChain(s, p, tc, now).value;
              if Repeats(s.safetyData, p.voteProposal.block.data.round) then
                Some(vote) == s.safetyData.lastVote && sd == s.safetyData
              else SignedFor(s, true, p.voteProposal, vote, sd)
  {
    ProposalGoodIff(s, p, now);
    if tc.Some? && s.epochState.Some? {
      TcGoodIff(s.epochState.value.verifier, tc.value);
    }
  }

  // ----- Timeouts -----

  /** A timeout is signed exactly if it is of the epoch, above the preferred round, and not below the last
      round voted in; only that round is remembered. */
  lemma {:induction false} TimeoutSignedIff(s: State, t: Timeout)
    ensures ConstructTimeout(s, t).Ok? <==>
            && s.signer.Some? && t.epoch == s.safetyData.epoch
            && t.round > s.safetyData.preferredRound && t.round >= s.safetyData.lastVotedRound
    ensures ConstructTimeout(s, t).Ok? ==>
              ConstructTimeout(s, t).value
              == (Signature(s.signer.value.publicKey, t), s.safetyData.(lastVotedRound := t.round))
  {
  }

  lemma {:induction false} TimeoutTwoChainSignedIff(s: State, t: TwoChainTimeout,
                                                    tc: Option<TwoChainTimeoutCertificate>)
    ensures ConstructTimeoutTwoChain(s, t, tc).Ok? <==>
            && s.signer.Some? && t.epoch == s.safetyData.epoch && s.epochState.Some?
            && QcGood(s.epochState.value.verifier, t.quorumCert)
            && (tc.Some? ==> TcGood(s.epochState.value.verifier, tc.value))
            && var hqc := t.quorumCert.CertifiedBlock().round;
               && hqc != U64_MAX && hqc >= s.safetyData.oneChainRound && t.round >= s.safetyData.lastVotedRound
               && (|| t.round == hqc + 1
                   || (tc.None? && t.round == 1)
                   || (tc.Some? && tc.value.timeout.round != U64_MAX && t.round == tc.value.timeout.round + 1))
    ensures ConstructTimeoutTwoChain(s, t, tc).Ok? ==>
              var message := TimeoutSigningRepr(t.epoch, t.round, t.quorumCert.CertifiedBlock().round);
              ConstructTimeoutTwoChain(s, t, tc).value
              == (Signature(s.signer.value.publicKey, message), s.safetyData.(lastVotedRound := t.round))
  {
    var qc := t.quorumCert;
    assert qc.voteData == VoteData(qc.CertifiedBlock(), qc.ParentBlock());
    if tc.Some? && s.epochState.Some? {
      TcGoodIff(s.epochState.value.verifier, tc.value);
    }
  }

  // ----- With a storage and a key that may fail -----

  /** What may be signed is released, and what it takes to remember is stored, depending on the storage and
      the key: a repeated vote needs neither; a new one needs both, and nothing is stored without it. */
  lemma {:induction false} VoteReleasedIff(s: State, p: MaybeSignedVoteProposal, now: nat, io: SecureIo,
                                           tc: Option<TwoChainTimeoutCertificate>, twoChain: bool)
    ensures var r := if twoChain then ConstructVoteTwoChain(s, p, tc, now) else ConstructVote(s, p, now);
            var (sd, answer) := VoteOutcome(s, p, r, io);
            && (answer.Ok? <==> r.Ok? && io.readable && (r.value.1 == s.safetyData || (io.signs && io.writable)))
            && (answer.Ok? ==> answer.value == r.value.0 && sd == r.value.1)
            && (answer.Err? ==> sd == s.safetyData)
  {
  }

  /** A timeout is stored before it is signed: if the key fails, the round stays closed to votes. */
  lemma {:induction false} TimeoutReleasedIff<T>(s: State, r: Result<(T, SafetyData), Error>, io: SecureIo)
    requires r.Ok? ==> s.signer.Some?
    ensures var (sd, answer) := TimeoutOutcome(s, r, io);
            var stored := r.Ok? && io.readable && (r.value.1 == s.safetyData || io.writable);
            && sd == (if stored then r.value.1 else s.safetyData)
            && (answer.Ok? <==> stored && io.signs)
            && (answer.Ok? ==> answer.value == r.value.0)
  {
  }

  // ----- Entering an epoch -----

  /** How far entering an epoch gets: the proof is read and verified; then the waypoint is stored if it is
      newer; then the safety data is read and, for a later epoch, stored. */
  ghost predicate ProofAccepted(s: State, proof: EpochChangeProof, io: InitializeIo) {
    io.readsWaypoint && VerifyProof(ByWaypoint(s.waypoint), proof.lis).Ok?
  }

  /** Field by field, what entering an epoch does, whatever fails on the way. */
  lemma {:induction false} EnteredIff(s: State, proof: EpochChangeProof, io: InitializeIo)
    ensures !ProofAccepted(s, proof, io) ==> Initialize(s, proof, io).0 == s && Initialize(s, proof, io).1.Err?
    ensures ProofAccepted(s, proof, io) && Next(proof.lis[|proof.lis| - 1]).Some? ==>
              var (s', r) := Initialize(s, proof, io);
              var last := proof.lis[|proof.lis| - 1];
              var es, newer := Next(last).value, last.ledgerInfo.commitInfo.version > s.waypoint.version;
              var waypointDone := !newer || io.writesWaypoint;
              var entered := && waypointDone && io.readsData && s.safetyData.epoch <= es.epoch
                             && (s.safetyData.epoch == es.epoch || io.writesData);
              && s'.waypoint == (if newer && io.writesWaypoint then NewAny(last.ledgerInfo) else s.waypoint)
              && s'.safetyData == (if entered && s.safetyData.epoch < es.epoch then SafetyData(es.epoch, 0, 0, 0, None)
                                   else s.safetyData)
              && s'.epochState == (if entered then Some(es) else s.epochState)
              && (!entered ==> s'.signer == s.signer && r.Err?)
              && (r.Err? && r.error.WaypointOutOfDate? <==>
                    waypointDone && io.readsData && s.safetyData.epoch > es.epoch)
  {
    if ProofAccepted(s, proof, io) {
      AcceptedIff(ByWaypoint(s.waypoint), proof.lis, FirstFresh(ByWaypoint(s.waypoint), proof.lis, 0));
    }
  }

  /** The signer in the epoch: the one there was, if it has the key the set expects; the key of the storage,
      if it is found; and otherwise none, unless the storage cannot even tell who the validator is. */
  lemma {:induction false} SignerIff(s: State, es: EpochState, io: InitializeIo)
    ensures var (s', r) := ReconcileKey(s, es, io);
            && s' == s.(signer := s'.signer)
            && (!io.readsAuthor ==> s' == s && r == Err(SecureStorageUnexpectedError))
            && (io.readsAuthor && s.author !in es.verifier.validators ==>
                  s'.signer.None? && r == Err(ValidatorNotInSet))
            && (io.readsAuthor && s.author in es.verifier.validators ==>
                  var key := es.verifier.validators[s.author].publicKey;
                  if s.signer.Some? && s.signer.value.publicKey == key then s'.signer == s.signer && r.Ok?
                  else if io.key.KeyFound? then s'.signer == Some(Signer(s.author, key)) && r.Ok?
                  else
                    && s'.signer.None?
                    && r == Err(if io.key.KeyMissing? then ValidatorKeyNotFound else SecureStorageUnexpectedError))
  {
  }
}
