/** Why the epoch of a timeout certificate matters: neither the safety rules nor any of their callers
    compare it (consensus/safety-rules/src/safety_rules_2chain.rs, consensus/consensus-types/src/sync_info.rs,
    consensus/src/block_storage/sync_manager.rs), and a certificate of an earlier epoch lets the
    two-chain protocol commit two branches; exactly which of them do. */
module TimeoutEpochs {
  import opened Wrappers
  import opened Validators
  import opened Types
  import opened EpochChange
  import opened SafetyRules
  import opened Protocol
  import opened CommitSafety
  import Recovery

  ghost function Cfg(): Config {
    SoleConfig((e: nat) => true, (e: nat) => true)
  }

  function SetOf(e: nat): EpochState {
    EpochState(e, SOLE_VALIDATOR)
  }

  ghost function Alone(n: Node): World {
    World(map[1 := n])
  }

  /** The validator in epoch `e`, ready to sign. */
  function Ready(e: nat, waypoint: Waypoint, sd: SafetyData): State {
    State(1, waypoint, sd, Some(SetOf(e)), Some(Signer(1, 1)), None)
  }

  // ----- Certificates of the sole validator -----

  function QcOf(vote: Vote): QuorumCert {
    QuorumCert(vote.voteData, LedgerInfoWithSignatures(vote.ledgerInfo, map[1 := vote.signature]))
  }

  function TcOf(t: TwoChainTimeout): TwoChainTimeoutCertificate {
    TwoChainTimeoutCertificate(t, map[1 := (t.HqcRound(), Signature(1, t.SigningFormat()))])
  }

  function GenesisQc(li: LedgerInfo): QuorumCert {
    Recovery.GenesisCert(li, Recovery.GenesisBlock(li).Id())
  }

  lemma {:induction false} SoleSigned<M>(message: M, signatures: map<Address, Signature<M>>)
    requires signatures == map[1 := Signature(1, message)]
    ensures VerifyAggregated(SOLE_VALIDATOR, message, signatures).Ok?
  {
    SoleValidatorQuorum();
    assert signatures.Keys == {1} && |signatures| == 1 && |SOLE_VALIDATOR.validators| == 1;
  }

  lemma {:induction false} QcVerifies(vote: Vote)
    requires vote.ledgerInfo.consensusDataHash == HashOf(vote.voteData)
             && vote.signature == Signature(1, vote.ledgerInfo)
    requires vote.voteData.Verify() && vote.Round() > 0
    ensures QcOf(vote).Verify(SOLE_VALIDATOR)
  {
    SoleSigned(vote.ledgerInfo, QcOf(vote).signedLedgerInfo.signatures);
  }

  lemma {:induction false} TcVerifies(t: TwoChainTimeout)
    requires t.HqcRound() < t.round && t.quorumCert.Verify(SOLE_VALIDATOR)
    ensures TcOf(t).Verify(SOLE_VALIDATOR)
  {
    SoleValidatorQuorum();
    assert TcOf(t).signatures.Keys == {1};
    assert TcOf(t).signatures[1].0 == t.HqcRound();
  }

  // ----- Steps of the sole validator -----

  function Proposal(block: Block, appended: seq<nat>, next: Option<EpochState>): MaybeSignedVoteProposal {
    var parent := block.data.quorumCert.CertifiedBlock();
    MaybeSignedVoteProposal(VoteProposal(ExtensionProof(parent.executedStateId, appended), block, next, false), None)
  }

  function VoteFor(block: Block, appended: seq<nat>, next: Option<EpochState>): Vote {
    var parent := block.data.quorumCert.CertifiedBlock();
    var acc := parent.executedStateId + appended;
    var vd := VoteData(block.GenBlockInfo(acc, AccumulatorVersion(acc), next), parent);
    var li := LedgerInfo(if parent.round + 1 == block.data.round then parent else EMPTY_BLOCK_INFO, HashOf(vd));
    NewVote(vd, 1, li, Signature(1, li))
  }

  function DataAfter(sd: SafetyData, block: Block, vote: Vote): SafetyData {
    ObserveQc(sd.(lastVotedRound := block.data.round), block.data.quorumCert).(lastVote := Some(vote))
  }

  /** A block that the validator may vote for. */
  ghost predicate Votable(e: nat, sd: SafetyData, round: Round, qc: QuorumCert, tc: Option<TwoChainTimeoutCertificate>)
  {
    && sd.epoch == e && sd.lastVotedRound < round <= U64_MAX
    && (sd.lastVote.Some? ==> sd.lastVote.value.Round() != round)
    && qc.Verify(SOLE_VALIDATOR) && !qc.EndsEpoch()
    && qc.CertifiedBlock().epoch == e && qc.CertifiedBlock().round < round
    && (tc.Some? ==> tc.value.Verify(SOLE_VALIDATOR))
    && (qc.CertifiedBlock().round + 1 == round
        || (tc.Some? && tc.value.timeout.round + 1 == round
           && tc.value.timeout.HqcRound() <= qc.CertifiedBlock().round))
  }

  lemma {:induction false} Votes(e: nat, waypoint: Waypoint, sd: SafetyData, round: Round, qc: QuorumCert,
                                 appended: seq<nat>, next: Option<EpochState>, tc: Option<TwoChainTimeoutCertificate>)
    requires Votable(e, sd, round, qc, tc)
    ensures var block := NewNil(round, qc); var vote := VoteFor(block, appended, next);
            ConstructVoteTwoChain(Ready(e, waypoint, sd), Proposal(block, appended, next), tc, 0)
            == Ok((vote, DataAfter(sd, block, vote)))
  {
  }

  // ----- A run so far -----

  /** A run of the validator and the state in which it ends. */
  datatype Situation = Situation(run: seq<World>, waypoint: Waypoint, sd: SafetyData, log: seq<Entry>)

  ghost function NodeIn(e: nat, s: Situation): Node {
    Node(Ready(e, s.waypoint, s.sd), s.log)
  }

  ghost predicate Reaches(run: seq<World>, n: Node) {
    IsRun(Cfg(), run) && run[|run| - 1] == Alone(n)
  }

  /** In epoch `e`, with no vote after the last voted round. */
  ghost predicate At(e: nat, s: Situation) {
    && Reaches(s.run, NodeIn(e, s)) && s.sd.epoch == e
    && (s.sd.lastVote.Some? ==> s.sd.lastVote.value.Round() <= s.sd.lastVotedRound)
  }

  lemma {:induction false} OneMoreStep(run: seq<World>, n: Node, n': Node, call: Call)
    requires Reaches(run, n) && NodeStep(Cfg(), Alone(n), n, n', call) && KnownSet(Cfg(), n'.state)
    ensures Reaches(run + [Alone(n')], n')
  {
    var w := Alone(n);
    assert 1 in w.nodes && w.nodes[1] == n && Alone(n') == World(w.nodes[1 := n']);
    assert Step(Cfg(), w, Alone(n'));
    RunGrows(Cfg(), run, Alone(n'));
  }

  /** A certificate that the next block may carry. */
  ghost predicate Usable(e: nat, n: Node, qc: QuorumCert) {
    && qc.Verify(SOLE_VALIDATOR) && !qc.EndsEpoch() && qc.CertifiedBlock().epoch == e
    && qc.CertifiedBlock().version == AccumulatorVersion(qc.CertifiedBlock().executedStateId)
    && QcDerivable(Alone(n), qc)
  }

  lemma {:induction false} UsableStays(e: nat, n: Node, n': Node, qc: QuorumCert)
    requires Usable(e, n, qc) && n.log <= n'.log
    ensures Usable(e, n', qc)
  {
    var sigs := qc.signedLedgerInfo.signatures;
    forall b | b in sigs && sigs[b].publicKey in Alone(n').nodes
      ensures HasVoted(n', sigs[b].message)
    {
      VotesPersist(n, n', sigs[b].message);
    }
  }

  lemma {:induction false} TimeoutStays(n: Node, t: TwoChainTimeout)
    requires TimedOutTwoChain(t) in n.log
    ensures TcDerivable(Alone(n), TcOf(t))
  {
    var k :| 0 <= k < |n.log| && n.log[k] == TimedOutTwoChain(t);
    assert HasTimedOut(n, t.SigningFormat());
  }

  // ----- One vote -----

  /** A certificate for the vote that was just cast is usable. */
  lemma {:induction false} CertifiedIsUsable(e: nat, n: Node, round: Round, qc: QuorumCert, appended: seq<nat>,
                                             next: Option<EpochState>)
    requires qc.CertifiedBlock().round < round && qc.CertifiedBlock().epoch == e
    requires qc.CertifiedBlock().nextEpochState.None?
    requires qc.CertifiedBlock().version == AccumulatorVersion(qc.CertifiedBlock().executedStateId)
    requires HasVoted(n, VoteFor(NewNil(round, qc), appended, next).ledgerInfo)
    ensures Usable(e, n, QcOf(VoteFor(NewNil(round, qc), appended, next)))
  {
    QcVerifies(VoteFor(NewNil(round, qc), appended, next));
  }

  lemma {:induction false} VoteOnce(e: nat, s: Situation, round: Round, qc: QuorumCert,
                                    tc: Option<TwoChainTimeoutCertificate>, appended: seq<nat>,
                                    next: Option<EpochState>)
    returns (s': Situation, vote: Vote)
    requires At(e, s) && Votable(e, s.sd, round, qc, tc) && QcDerivable(Alone(NodeIn(e, s)), qc)
    requires tc.Some? ==> TcDerivable(Alone(NodeIn(e, s)), tc.value)
    ensures vote == VoteFor(NewNil(round, qc), appended, next)
    ensures At(e, s') && s'.waypoint == s.waypoint && s'.run == s.run + [Alone(NodeIn(e, s'))]
    ensures s'.log == s.log + [Voted(NewNil(round, qc).data, vote, tc)]
    ensures s'.sd.lastVotedRound == round
    ensures s'.sd.oneChainRound == Max(s.sd.oneChainRound, qc.CertifiedBlock().round)
  {
    var block := NewNil(round, qc);
    vote := VoteFor(block, appended, next);
    var sd', log' := DataAfter(s.sd, block, vote), s.log + [Voted(block.data, vote, tc)];
    var n' := Node(Ready(e, s.waypoint, sd'), log');
    Votes(e, s.waypoint, s.sd, round, qc, appended, next, tc);
    assert sd'.lastVotedRound != s.sd.lastVotedRound;
    OneMoreStep(s.run, NodeIn(e, s), n', CallVoteTwoChain(Proposal(block, appended, next), tc, 0));
    s' := Situation(s.run + [Alone(n')], s.waypoint, sd', log');
  }

  /** A vote on top of a usable certificate, with a timeout certificate if the round needs one. */
  lemma {:induction false} VoteOn(e: nat, s: Situation, round: Round, qc: QuorumCert,
                                  tc: Option<TwoChainTimeoutCertificate>, appended: seq<nat>, next: Option<EpochState>)
    returns (s': Situation, vote: Vote)
    requires At(e, s) && Usable(e, NodeIn(e, s), qc) && s.sd.lastVotedRound < round <= U64_MAX
    requires qc.CertifiedBlock().round < round
    requires tc.Some? ==> tc.value.Verify(SOLE_VALIDATOR) && TcDerivable(Alone(NodeIn(e, s)), tc.value)
    requires || qc.CertifiedBlock().round + 1 == round
             || (tc.Some? && tc.value.timeout.round + 1 == round
                 && tc.value.timeout.HqcRound() <= qc.CertifiedBlock().round)
    ensures vote == VoteFor(NewNil(round, qc), appended, next)
    ensures At(e, s') && s'.waypoint == s.waypoint && s'.run == s.run + [Alone(NodeIn(e, s'))]
    ensures s'.log == s.log + [Voted(NewNil(round, qc).data, vote, tc)]
    ensures s'.sd.lastVotedRound == round
    ensures s'.sd.oneChainRound == Max(s.sd.oneChainRound, qc.CertifiedBlock().round)
    ensures qc.CertifiedBlock().nextEpochState.None? ==> Usable(e, NodeIn(e, s'), QcOf(vote))
  {
    s', vote := VoteOnce(e, s, round, qc, tc, appended, next);
    assert s'.log[|s.log|].vote == vote;
    if qc.CertifiedBlock().nextEpochState.None? {
      CertifiedIsUsable(e, NodeIn(e, s'), round, qc, appended, next);
    }
  }

  // ----- Rounds in a row -----

  /** The latest certificate: of the last voted round, in the middle of the epoch. */
  ghost predicate Tip(e: nat, s: Situation, qc: QuorumCert) {
    && At(e, s) && Usable(e, NodeIn(e, s), qc) && qc.CertifiedBlock().nextEpochState.None?
    && qc.CertifiedBlock().round == s.sd.lastVotedRound && s.sd.oneChainRound <= s.sd.lastVotedRound
  }

  /** The entries from `i` on are votes that needed no timeout certificate. */
  ghost predicate PlainFrom(log: seq<Entry>, i: nat) {
    forall k :: i <= k < |log| ==> log[k].Voted? && log[k].tc.None?
  }

  /** Votes round by round up to round `h`. */
  lemma {:induction false} VoteUpTo(e: nat, s: Situation, qc: QuorumCert, h: Round)
    returns (s': Situation, qc': QuorumCert)
    requires Tip(e, s, qc) && qc.CertifiedBlock().round <= h < U64_MAX
    ensures Tip(e, s', qc') && qc'.CertifiedBlock().round == h && s'.waypoint == s.waypoint
    ensures qc'.CertifiedBlock().executedStateId == qc.CertifiedBlock().executedStateId
    ensures s.log <= s'.log && PlainFrom(s'.log, |s.log|)
    decreases h - qc.CertifiedBlock().round
  {
    if qc.CertifiedBlock().round == h {
      s', qc' := s, qc;
    } else {
      var s1, vote := VoteOn(e, s, qc.CertifiedBlock().round + 1, qc, None, [], None);
      assert QcOf(vote).CertifiedBlock().executedStateId == qc.CertifiedBlock().executedStateId + [];
      s', qc' := VoteUpTo(e, s1, QcOf(vote), h);
    }
  }

  lemma {:induction false} TimeoutOnce(e: nat, s: Situation, t: TwoChainTimeout, tc: Option<TwoChainTimeoutCertificate>)
    returns (s': Situation)
    requires At(e, s) && t.epoch == e && t.quorumCert.Verify(SOLE_VALIDATOR)
    requires s.sd.oneChainRound <= t.HqcRound() < U64_MAX && s.sd.lastVotedRound < t.round < U64_MAX
    requires t.HqcRound() + 1 == t.round || (tc.Some? && tc.value.timeout.round + 1 == t.round)
    requires tc.Some? ==> tc.value.Verify(SOLE_VALIDATOR)
    ensures At(e, s') && s'.waypoint == s.waypoint && s'.log == s.log + [TimedOutTwoChain(t)]
    ensures s'.sd == s.sd.(lastVotedRound := t.round)
  {
    var sd', log' := s.sd.(lastVotedRound := t.round), s.log + [TimedOutTwoChain(t)];
    var n' := Node(Ready(e, s.waypoint, sd'), log');
    assert ConstructTimeoutTwoChain(NodeIn(e, s).state, t, tc) == Ok((Signature(1, t.SigningFormat()), sd'));
    OneMoreStep(s.run, NodeIn(e, s), n', CallTimeoutTwoChain(t, tc));
    s' := Situation(s.run + [Alone(n')], s.waypoint, sd', log');
  }

  /** Times out round by round up to round `r`, with `qc` as the highest certificate. */
  lemma {:induction false} TimeoutUpTo(e: nat, s: Situation, qc: QuorumCert, r: Round) returns (s': Situation)
    requires Tip(e, s, qc) && qc.CertifiedBlock().round < r < U64_MAX
    ensures At(e, s') && s'.waypoint == s.waypoint && s'.sd == s.sd.(lastVotedRound := r)
    ensures s.log <= s'.log && TimedOutTwoChain(TwoChainTimeout(e, r, qc)) in s'.log
    decreases r
  {
    var s1, tc := s, None;
    if qc.CertifiedBlock().round + 1 < r {
      s1 := TimeoutUpTo(e, s, qc, r - 1);
      TcVerifies(TwoChainTimeout(e, r - 1, qc));
      tc := Some(TcOf(TwoChainTimeout(e, r - 1, qc)));
    }
    s' := TimeoutOnce(e, s1, TwoChainTimeout(e, r, qc), tc);
    assert s'.log[|s1.log|] == TimedOutTwoChain(TwoChainTimeout(e, r, qc));
  }

  // ----- The first epoch -----

  function GenesisLi(): LedgerInfoWithSignatures {
    LedgerInfoWithSignatures(LedgerInfo(BlockInfo(0, 0, Zero, [0], 0, 0, Some(SetOf(1))), Zero), map[])
  }

  function FirstWaypoint(): Waypoint {
    NewAny(GenesisLi().ledgerInfo)
  }

  const ALL_WORKS := InitializeIo(true, true, true, true, true, KeyFound)

  const FRESH := SafetyData(1, 0, 0, 0, None)

  lemma {:induction false} GenesisUsable(n: Node, li: LedgerInfo)
    requires AccumulatorVersion(li.commitInfo.executedStateId) == li.commitInfo.version
    ensures Usable(li.commitInfo.epoch + 1, n, GenesisQc(li))
    ensures var info := GenesisQc(li).CertifiedBlock();
            && info.round == 0 && info.nextEpochState.None?
            && info.executedStateId == li.commitInfo.executedStateId
  {
  }

  lemma {:induction false} FirstEpochEntered() returns (s: Situation)
    ensures At(1, s) && s.sd == FRESH && s.log == [] && s.waypoint == FirstWaypoint()
    ensures s.run == [Alone(Node(State(1, FirstWaypoint(), FRESH, None, None, None), [])), Alone(NodeIn(1, s))]
  {
    var n := Node(State(1, FirstWaypoint(), FRESH, None, None, None), []);
    var n' := Node(Ready(1, FirstWaypoint(), FRESH), []);
    assert Initial(Cfg(), Alone(n));
    var proof := EpochChangeProof([GenesisLi()], false);
    AcceptedIff(ByWaypoint(FirstWaypoint()), proof.lis, 0);
    assert AcceptedFrom(ByWaypoint(FirstWaypoint()), proof.lis, 0);
    assert Initialize(n.state, proof, ALL_WORKS).0 == n'.state;
    OneMoreStep([Alone(n)], n, n', CallInitialize(proof, ALL_WORKS));
    assert [Alone(n)] + [Alone(n')] == [Alone(n), Alone(n')];
    s := Situation([Alone(n), Alone(n')], FirstWaypoint(), FRESH, []);
  }

  /** Two votes in consecutive rounds, of which the second commits the end of the epoch. */
  lemma {:induction false} EpochEnds(s: Situation, round: Round, qc: QuorumCert, tc: Option<TwoChainTimeoutCertificate>)
    returns (s': Situation, one: Vote, two: Vote)
    requires At(1, s) && Usable(1, NodeIn(1, s), qc) && s.sd.lastVotedRound < round < U64_MAX
    requires qc.CertifiedBlock().round < round && qc.CertifiedBlock().nextEpochState.None?
    requires tc.Some? ==> tc.value.Verify(SOLE_VALIDATOR) && TcDerivable(Alone(NodeIn(1, s)), tc.value)
    requires || qc.CertifiedBlock().round + 1 == round
             || (tc.Some? && tc.value.timeout.round + 1 == round
                 && tc.value.timeout.HqcRound() <= qc.CertifiedBlock().round)
    ensures one == VoteFor(NewNil(round, qc), [1], Some(SetOf(2)))
    ensures two == VoteFor(NewNil(round + 1, QcOf(one)), [], Some(SetOf(2)))
    ensures At(1, s') && s'.waypoint == s.waypoint
    ensures s'.log == s.log + [Voted(NewNil(round, qc).data, one, tc)]
                            + [Voted(NewNil(round + 1, QcOf(one)).data, two, None)]
    ensures |s'.run| == |s.run| + 2 && s'.run[..|s.run|] == s.run
    ensures exists n :: s'.run[|s.run|] == Alone(n) && n.log == s'.log[..|s.log| + 1]
    ensures s'.run[|s.run| + 1] == Alone(NodeIn(1, s'))
  {
    var s1;
    s1, one := VoteOn(1, s, round, qc, tc, [1], Some(SetOf(2)));
    s', two := VoteOn(1, s1, round + 1, QcOf(one), None, [], Some(SetOf(2)));
  }

  /** The vote is for a ledger info that ends the first epoch. */
  ghost predicate EndsFirstEpoch(two: Vote) {
    var info := two.ledgerInfo.commitInfo;
    && two.signature == Signature(1, two.ledgerInfo) && ByEpochState(SetOf(1)).Verify(QcOf(two).signedLedgerInfo)
    && info.epoch == 1 && info.nextEpochState == Some(SetOf(2)) && info.version == 1 && info.executedStateId == [0, 1]
  }

  lemma {:induction false} EndFacts(round: Round, qc: QuorumCert, one: Vote, two: Vote)
    requires qc.CertifiedBlock().epoch == 1 && qc.CertifiedBlock().executedStateId == [0]
    requires one == VoteFor(NewNil(round, qc), [1], Some(SetOf(2)))
    requires two == VoteFor(NewNil(round + 1, QcOf(one)), [], Some(SetOf(2)))
    ensures EndsFirstEpoch(two) && two.ledgerInfo.commitInfo == one.voteData.proposed
  {
    SoleSigned(two.ledgerInfo, QcOf(two).signedLedgerInfo.signatures);
  }

  lemma {:induction false} EpochEndsWith(s: Situation, round: Round, qc: QuorumCert,
                                         tc: Option<TwoChainTimeoutCertificate>)
    returns (s': Situation, two: Vote)
    requires At(1, s) && Usable(1, NodeIn(1, s), qc) && s.sd.lastVotedRound < round < U64_MAX
    requires qc.CertifiedBlock().round < round && qc.CertifiedBlock().nextEpochState.None?
    requires qc.CertifiedBlock().executedStateId == [0]
    requires tc.Some? ==> tc.value.Verify(SOLE_VALIDATOR) && TcDerivable(Alone(NodeIn(1, s)), tc.value)
    requires || qc.CertifiedBlock().round + 1 == round
             || (tc.Some? && tc.value.timeout.round + 1 == round
                 && tc.value.timeout.HqcRound() <= qc.CertifiedBlock().round)
    ensures At(1, s') && s'.waypoint == s.waypoint && s.log <= s'.log && EndsFirstEpoch(two)
    ensures s'.log != [] && s'.log[|s'.log| - 1].Voted? && s'.log[|s'.log| - 1].vote == two
  {
    var one;
    s', one, two := EpochEnds(s, round, qc, tc);
    EndFacts(round, qc, one, two);
  }

  lemma {:induction false} EndAccepted(end: LedgerInfoWithSignatures)
    requires ByEpochState(SetOf(1)).Verify(end) && Next(end).Some?
    ensures VerifyProof(ByWaypoint(FirstWaypoint()), [GenesisLi(), end]) == Ok(end)
  {
    var v, lis := ByWaypoint(FirstWaypoint()), [GenesisLi(), end];
    assert Linked(lis, 1);
    assert AcceptedFrom(v, lis, 0);
    AcceptedIff(v, lis, 0);
  }

  /** The epoch-change proof of the first epoch takes the validator into the second. */
  lemma {:induction false} EnterSecondEpoch(s: Situation, two: Vote) returns (s': Situation)
    requires At(1, s) && s.waypoint == FirstWaypoint()
    requires s.log != [] && s.log[|s.log| - 1].Voted? && s.log[|s.log| - 1].vote == two
    requires EndsFirstEpoch(two)
    ensures At(2, s') && s'.sd == SafetyData(2, 0, 0, 0, None) && s'.log == s.log
  {
    var n := NodeIn(1, s);
    var n' := Node(Ready(2, NewAny(two.ledgerInfo), SafetyData(2, 0, 0, 0, None)), s.log);
    var proof := EpochChangeProof([GenesisLi(), QcOf(two).signedLedgerInfo], false);
    EndAccepted(QcOf(two).signedLedgerInfo);
    assert HasVoted(n, two.ledgerInfo);
    assert Initialize(n.state, proof, ALL_WORKS).0 == n'.state;
    OneMoreStep(s.run, n, n', CallInitialize(proof, ALL_WORKS));
    s' := Situation(s.run + [Alone(n')], NewAny(two.ledgerInfo), n'.state.safetyData, s.log);
  }

  /** A timeout certificate that the validator has signed. */
  ghost predicate TimeoutSigned(log: seq<Entry>, t: TwoChainTimeout) {
    t.HqcRound() < t.round && t.quorumCert.Verify(SOLE_VALIDATOR) && TimedOutTwoChain(t) in log
  }

  lemma {:induction false} TimeoutVerifies(n: Node, t: TwoChainTimeout) returns (tc: TwoChainTimeoutCertificate)
    requires TimeoutSigned(n.log, t)
    ensures tc.timeout == t && tc.Verify(SOLE_VALIDATOR) && TcDerivable(Alone(n), tc)
  {
    TcVerifies(t);
    TimeoutStays(n, t);
    tc := TcOf(t);
  }

  /** Epoch 1 certifies rounds 1 to `h` and times out rounds `h + 1` to `r`. */
  lemma {:induction false} FirstEpochTimedOut(h: Round, r: Round) returns (s: Situation, qc: QuorumCert)
    requires h < r && r + 2 <= U64_MAX
    ensures At(1, s) && s.waypoint == FirstWaypoint() && s.sd.lastVotedRound == r
    ensures Usable(1, NodeIn(1, s), qc) && TimeoutSigned(s.log, TwoChainTimeout(1, r, qc))
    ensures qc.CertifiedBlock().round == h && qc.CertifiedBlock().nextEpochState.None?
    ensures qc.CertifiedBlock().executedStateId == [0]
  {
    var s0 := FirstEpochEntered();
    GenesisUsable(NodeIn(1, s0), GenesisLi().ledgerInfo);
    var s1;
    s1, qc := VoteUpTo(1, s0, GenesisQc(GenesisLi().ledgerInfo), h);
    s := TimeoutUpTo(1, s1, qc, r);
    UsableStays(1, NodeIn(1, s1), NodeIn(1, s), qc);
  }

  lemma {:induction false} ReachedInv(run: seq<World>, n: Node)
    requires Reaches(run, n)
    ensures NodeInv(Cfg(), 1, n)
  {
    ConfigExists((e: nat) => true, (e: nat) => true);
    RunKeepsWorldInv(Cfg(), run, |run| - 1);
    assert 1 in run[|run| - 1].nodes;
  }

  lemma {:induction false} EpochsSoFar(run: seq<World>, n: Node)
    requires Reaches(run, n)
    ensures forall k :: 0 <= k < |n.log| ==> n.log[k].Epoch() <= n.state.safetyData.epoch
  {
    ReachedInv(run, n);
  }

  /** Then it ends, in rounds `r + 1` and `r + 2`. */
  lemma {:induction false} FirstEpochEnded(h: Round, r: Round) returns (s: Situation, t: TwoChainTimeout, two: Vote)
    requires h < r && r + 2 <= U64_MAX
    ensures At(1, s) && s.waypoint == FirstWaypoint()
    ensures TimeoutSigned(s.log, t) && t.epoch == 1 && t.round == r && t.HqcRound() == h
    ensures s.log != [] && s.log[|s.log| - 1].Voted? && s.log[|s.log| - 1].vote == two
    ensures EndsFirstEpoch(two)
  {
    var s0, qc := FirstEpochTimedOut(h, r);
    t := TwoChainTimeout(1, r, qc);
    var tc := TimeoutVerifies(NodeIn(1, s0), t);
    s, two := EpochEndsWith(s0, r + 1, qc, Some(tc));
  }

  /** And epoch 2 begins. */
  lemma {:induction false} FirstEpochLeft(h: Round, r: Round)
    returns (s: Situation, t: TwoChainTimeout, end: LedgerInfo)
    requires h < r && r + 2 <= U64_MAX
    ensures At(2, s) && s.sd == SafetyData(2, 0, 0, 0, None)
    ensures TimeoutSigned(s.log, t) && t.epoch == 1 && t.round == r && t.HqcRound() == h
    ensures end.commitInfo.epoch == 1 && AccumulatorVersion(end.commitInfo.executedStateId) == end.commitInfo.version
    ensures forall k :: 0 <= k < |s.log| ==> s.log[k].Epoch() <= 1
  {
    var s1, two;
    s1, t, two := FirstEpochEnded(h, r);
    EpochsSoFar(s1.run, NodeIn(1, s1));
    s := EnterSecondEpoch(s1, two);
    end := two.ledgerInfo;
  }

  // ----- The second epoch: two branches -----

  /** A block of the round that carries the certificate. */
  ghost predicate BlockOn(info: BlockInfo, qc: QuorumCert, round: Round) {
    info.round == round && info.id.HashOf? && info.id.value.quorumCert == qc
  }

  lemma {:induction false} CommitsOf(n: Node, qc: QuorumCert, round: Round, one: Vote, two: Vote)
    requires qc.CertifiedBlock().epoch == 2 && one == VoteFor(NewNil(round, qc), [], None) && round > 0
    requires two == VoteFor(NewNil(round + 1, QcOf(one)), [], None) && HasVoted(n, two.ledgerInfo)
    ensures Commits(Cfg(), Alone(n), 2, QcOf(two)) && BlockOn(QcOf(two).CommitInfo(), qc, round)
  {
    SoleSigned(two.ledgerInfo, QcOf(two).signedLedgerInfo.signatures);
  }

  lemma {:induction false} CommitStays(n: Node, n': Node, qc: QuorumCert)
    requires Commits(Cfg(), Alone(n), 2, qc) && n.log <= n'.log
    ensures Commits(Cfg(), Alone(n'), 2, qc)
  {
    var sigs := qc.signedLedgerInfo.signatures;
    forall b | b in sigs && sigs[b].publicKey in Alone(n').nodes
      ensures HasVoted(n', sigs[b].message)
    {
      VotesPersist(n, n', sigs[b].message);
    }
  }

  /** The log grew by a vote for a block on `qc`, with `tc`, and by a plain vote. */
  ghost predicate GrewBy(log: seq<Entry>, log': seq<Entry>, round: Round, qc: QuorumCert,
                         tc: Option<TwoChainTimeoutCertificate>)
  {
    && |log'| == |log| + 2 && log <= log'
    && log'[|log|].Voted? && log'[|log|].tc == tc
    && log'[|log|].block.epoch == 2 && log'[|log|].block.round == round && log'[|log|].block.quorumCert == qc
    && log'[|log| + 1].Voted? && log'[|log| + 1].tc.None?
  }

  lemma {:induction false} BranchVotes(s: Situation, round: Round, qc: QuorumCert,
                                       tc: Option<TwoChainTimeoutCertificate>)
    returns (s': Situation, one: Vote, two: Vote)
    requires At(2, s) && Usable(2, NodeIn(2, s), qc) && s.sd.lastVotedRound < round < U64_MAX
    requires qc.CertifiedBlock().round < round && qc.CertifiedBlock().nextEpochState.None?
    requires tc.Some? ==> tc.value.Verify(SOLE_VALIDATOR) && TcDerivable(Alone(NodeIn(2, s)), tc.value)
    requires || qc.CertifiedBlock().round + 1 == round
             || (tc.Some? && tc.value.timeout.round + 1 == round
                 && tc.value.timeout.HqcRound() <= qc.CertifiedBlock().round)
    ensures one == VoteFor(NewNil(round, qc), [], None) && two == VoteFor(NewNil(round + 1, QcOf(one)), [], None)
    ensures At(2, s') && s'.sd.lastVotedRound == round + 1 && GrewBy(s.log, s'.log, round, qc, tc)
    ensures HasVoted(NodeIn(2, s'), two.ledgerInfo)
  {
    var s1;
    s1, one := VoteOn(2, s, round, qc, tc, [], None);
    s', two := VoteOn(2, s1, round + 1, QcOf(one), None, [], None);
    assert s'.log[|s1.log|].vote == two;
  }

  /** Two votes in consecutive rounds, of which the second commits the block of the first. */
  lemma {:induction false} BranchBuilt(s: Situation, round: Round, qc: QuorumCert,
                                       tc: Option<TwoChainTimeoutCertificate>)
    returns (s': Situation, commit: QuorumCert)
    requires At(2, s) && Usable(2, NodeIn(2, s), qc) && s.sd.lastVotedRound < round < U64_MAX
    requires qc.CertifiedBlock().round < round && qc.CertifiedBlock().nextEpochState.None?
    requires tc.Some? ==> tc.value.Verify(SOLE_VALIDATOR) && TcDerivable(Alone(NodeIn(2, s)), tc.value)
    requires || qc.CertifiedBlock().round + 1 == round
             || (tc.Some? && tc.value.timeout.round + 1 == round
                 && tc.value.timeout.HqcRound() <= qc.CertifiedBlock().round)
    ensures At(2, s') && s'.sd.lastVotedRound == round + 1 && GrewBy(s.log, s'.log, round, qc, tc)
    ensures Commits(Cfg(), Alone(NodeIn(2, s')), 2, commit) && BlockOn(commit.CommitInfo(), qc, round)
  {
    var one, two;
    s', one, two := BranchVotes(s, round, qc, tc);
    CommitsOf(NodeIn(2, s'), qc, round, one, two);
    commit := QcOf(two);
  }

  /** How many ancestors a block has. */
  function Depth(info: BlockInfo): nat {
    if info.id.HashOf? then 1 + Depth(info.id.value.quorumCert.voteData.proposed) else 0
  }

  lemma {:induction false} ExtendsIsDeeper(d: BlockInfo, a: BlockInfo)
    requires Extends(d, a)
    ensures d == a || Depth(a) < Depth(d)
    decreases d
  {
    if d != a {
      ExtendsIsDeeper(d.id.value.quorumCert.voteData.proposed, a);
    }
  }

  /** Two blocks of different rounds on one certificate do not extend each other. */
  lemma {:induction false} SiblingsPart(a: BlockInfo, b: BlockInfo, qc: QuorumCert, round: Round, round': Round)
    requires BlockOn(a, qc, round) && BlockOn(b, qc, round') && round != round'
    ensures !Extends(a, b)
  {
    if Extends(a, b) {
      ExtendsIsDeeper(a, b);
    }
  }

  /** The entries of epoch 2 that have a timeout certificate have one of epoch 1, of round `r` and with
      a highest certificate of round `h`. */
  ghost predicate ReliesOnlyOn(log: seq<Entry>, r: Round, h: Round) {
    forall k :: 0 <= k < |log| && log[k].Voted? && log[k].block.epoch == 2 && log[k].tc.Some? ==>
                  TcIs(log[k].tc.value, r, h)
  }

  ghost predicate TcIs(tc: TwoChainTimeoutCertificate, r: Round, h: Round) {
    tc.timeout.epoch == 1 && tc.timeout.round == r && tc.timeout.HqcRound() == h
  }

  ghost predicate ReliesSomewhereOn(log: seq<Entry>, r: Round, h: Round) {
    exists k :: && 0 <= k < |log| && log[k].Voted? && log[k].block.epoch == 2 && ReliesOnTc(log[k])
                && log[k].tc.Some? && TcIs(log[k].tc.value, r, h)
  }

  /** The log of epoch 1, followed by votes that needed no timeout certificate. */
  lemma {:induction false} PlainRelies(log: seq<Entry>, log': seq<Entry>, r: Round, h: Round)
    requires log <= log' && PlainFrom(log', |log|) && forall k :: 0 <= k < |log| ==> log[k].Epoch() <= 1
    ensures ReliesOnlyOn(log', r, h)
  {
    assert forall k :: 0 <= k < |log| ==> log'[k] == log[k];
  }

  lemma {:induction false} BranchRelies(log: seq<Entry>, log': seq<Entry>, round: Round, qc: QuorumCert,
                                        tc: Option<TwoChainTimeoutCertificate>, r: Round, h: Round)
    requires ReliesOnlyOn(log, r, h) && GrewBy(log, log', round, qc, tc) && (tc.Some? ==> TcIs(tc.value, r, h))
    ensures ReliesOnlyOn(log', r, h)
    ensures tc.Some? && qc.CertifiedBlock().round + 1 != round ==> ReliesSomewhereOn(log', r, h)
  {
    assert forall k :: 0 <= k < |log| ==> log'[k] == log[k];
    assert ReliesOnTc(log'[|log|]) <==> qc.CertifiedBlock().round + 1 != round;
  }

  /** Epoch 2 certifies rounds 1 to `h`. */
  lemma {:induction false} SecondEpochBegun(h: Round, r: Round)
    returns (s: Situation, qc: QuorumCert, t: TwoChainTimeout)
    requires h < r && r + 2 <= U64_MAX
    ensures Tip(2, s, qc) && qc.CertifiedBlock().round == h
    ensures TimeoutSigned(s.log, t) && t.epoch == 1 && t.round == r && t.HqcRound() == h
    ensures ReliesOnlyOn(s.log, r, h)
  {
    var s0, end;
    s0, t, end := FirstEpochLeft(h, r);
    GenesisUsable(NodeIn(2, s0), end);
    s, qc := VoteUpTo(2, s0, GenesisQc(end), h);
    PlainRelies(s0.log, s.log, r, h);
  }

  /** Rounds `h + 1` and `h + 2` build on a block of round `h`. */
  lemma {:induction false} FirstBranchBuilt(h: Round, r: Round)
    returns (s: Situation, qc: QuorumCert, t: TwoChainTimeout, commit: QuorumCert)
    requires h + 2 <= r && r + 2 <= U64_MAX
    ensures At(2, s) && s.sd.lastVotedRound == h + 2 && ReliesOnlyOn(s.log, r, h)
    ensures Usable(2, NodeIn(2, s), qc) && qc.CertifiedBlock().round == h && qc.CertifiedBlock().nextEpochState.None?
    ensures TimeoutSigned(s.log, t) && t.epoch == 1 && t.round == r && t.HqcRound() == h
    ensures Commits(Cfg(), Alone(NodeIn(2, s)), 2, commit) && BlockOn(commit.CommitInfo(), qc, h + 1)
  {
    var s0;
    s0, qc, t := SecondEpochBegun(h, r);
    s, commit := BranchBuilt(s0, h + 1, qc, None);
    UsableStays(2, NodeIn(2, s0), NodeIn(2, s), qc);
    BranchRelies(s0.log, s.log, h + 1, qc, None, r, h);
  }

  /** Rounds `r + 1` and `r + 2` build on it once more: the old timeout certificate justifies the gap. */
  lemma {:induction false} SecondBranchBuilt(s: Situation, qc: QuorumCert, t: TwoChainTimeout)
    returns (s': Situation, commit: QuorumCert)
    requires At(2, s) && s.sd.lastVotedRound <= t.round && t.round + 2 <= U64_MAX
    requires Usable(2, NodeIn(2, s), qc) && qc.CertifiedBlock().nextEpochState.None?
    requires TimeoutSigned(s.log, t) && t.epoch == 1 && t.HqcRound() == qc.CertifiedBlock().round
    requires ReliesOnlyOn(s.log, t.round, t.HqcRound())
    ensures At(2, s') && s.log <= s'.log
    ensures ReliesOnlyOn(s'.log, t.round, t.HqcRound()) && ReliesSomewhereOn(s'.log, t.round, t.HqcRound())
    ensures Commits(Cfg(), Alone(NodeIn(2, s')), 2, commit) && BlockOn(commit.CommitInfo(), qc, t.round + 1)
  {
    var tc := TimeoutVerifies(NodeIn(2, s), t);
    s', commit := BranchBuilt(s, t.round + 1, qc, Some(tc));
    BranchRelies(s.log, s'.log, t.round + 1, qc, Some(tc), t.round, t.HqcRound());
  }

  /** For all rounds `h` and `r` with `h + 2 <= r`: a run of one honest validator, with no fault anywhere,
      in which epoch 2 relies on one timeout certificate of epoch 1, of round `r` and with a highest
      certificate of round `h`, and commits two blocks of which neither descends from the other. */
  lemma {:induction false} TwoBranchesCommitted(h: Round, r: Round)
    returns (run: seq<World>, n: Node, one: QuorumCert, two: QuorumCert)
    requires h + 2 <= r && r + 2 <= U64_MAX
    ensures ValidConfig(Cfg()) && Reaches(run, n) && Cfg().twoChain(2)
    ensures ReliesOnlyOn(n.log, r, h) && ReliesSomewhereOn(n.log, r, h)
    ensures Commits(Cfg(), Alone(n), 2, one) && Commits(Cfg(), Alone(n), 2, two)
    ensures one.CommitInfo().round < two.CommitInfo().round
    ensures !Extends(two.CommitInfo(), one.CommitInfo()) && !Extends(one.CommitInfo(), two.CommitInfo())
  {
    ConfigExists((e: nat) => true, (e: nat) => true);
    var s1, qc, t, s2;
    s1, qc, t, one := FirstBranchBuilt(h, r);
    s2, two := SecondBranchBuilt(s1, qc, t);
    run, n := s2.run, NodeIn(2, s2);
    CommitStays(NodeIn(2, s1), n, one);
    SiblingsPart(one.CommitInfo(), two.CommitInfo(), qc, h + 1, r + 1);
    SiblingsPart(two.CommitInfo(), one.CommitInfo(), qc, r + 1, h + 1);
  }

  // ----- The exact guard -----

  /** A guard on the timeout certificates of other epochs, by round and highest certified round. A
      round from which no commit can follow, at the end of the 64-bit range, is never let through. */
  type Guard = (Round, Round) -> bool

  ghost predicate TcAllowed(entry: Entry, e: nat, allows: Guard) {
    entry.Voted? && entry.block.epoch == e && entry.tc.Some? && ReliesOnTc(entry) ==>
      var t := entry.tc.value.timeout;
      t.epoch == e || (t.round + 2 <= U64_MAX && allows(t.round, t.HqcRound()))
  }

  ghost predicate TcsAllowed(w: World, e: nat, allows: Guard) {
    forall a, k :: a in w.nodes && 0 <= k < |w.nodes[a].log| ==> TcAllowed(w.nodes[a].log[k], e, allows)
  }

  /** Two commits of a two-chain epoch of which the later does not extend the earlier, although every
      timeout certificate that was relied on passed the guard. */
  ghost predicate Forks(cfg: Config, run: seq<World>, e: nat, one: QuorumCert, two: QuorumCert, allows: Guard) {
    && ValidConfig(cfg) && IsRun(cfg, run) && cfg.twoChain(e) && TcsAllowed(run[|run| - 1], e, allows)
    && Commits(cfg, run[|run| - 1], e, one) && Commits(cfg, run[|run| - 1], e, two)
    && one.CommitInfo().round <= two.CommitInfo().round && !Extends(two.CommitInfo(), one.CommitInfo())
  }

  ghost predicate SafeUnder(allows: Guard) {
    forall cfg, run, e, one, two :: !Forks(cfg, run, e, one, two, allows)
  }

  /** The guard lets no harmful certificate through: it asks for a round that follows the highest
      certified one. */
  ghost predicate RejectsGaps(allows: Guard) {
    forall h: Round, r: Round :: h + 2 <= r && r + 2 <= U64_MAX ==> !allows(r, h)
  }

  lemma {:induction false} AllowedIsHarmless(cfg: Config, w: World, e: nat, allows: Guard)
    requires WorldInv(cfg, w) && cfg.twoChain(e) && TcsAllowed(w, e, allows) && RejectsGaps(allows)
    ensures TcsHarmless(w, e)
  {
    forall a, k | a in w.nodes && 0 <= k < |w.nodes[a].log|
      ensures TcHarmless(w.nodes[a].log[k], e)
    {
      assert TcAllowed(w.nodes[a].log[k], e, allows);
      assert NodeInv(cfg, a, w.nodes[a]) && EntryOk(cfg, a, w.nodes[a].log[k]);
    }
  }

  lemma {:induction false} GuardSuffices(cfg: Config, run: seq<World>, e: nat, one: QuorumCert, two: QuorumCert,
                                         allows: Guard)
    requires RejectsGaps(allows)
    ensures !Forks(cfg, run, e, one, two, allows)
  {
    if Forks(cfg, run, e, one, two, allows) {
      RunKeepsWorldInv(cfg, run, |run| - 1);
      AllowedIsHarmless(cfg, run[|run| - 1], e, allows);
      CommittedBlocksOnOneChain(cfg, run, e, one, two);
    }
  }

  lemma {:induction false} GapForks(h: Round, r: Round, allows: Guard)
    requires h + 2 <= r && r + 2 <= U64_MAX && allows(r, h)
    ensures !SafeUnder(allows)
  {
    var run, n, one, two := TwoBranchesCommitted(h, r);
    forall a, k | a in Alone(n).nodes && 0 <= k < |Alone(n).nodes[a].log|
      ensures TcAllowed(Alone(n).nodes[a].log[k], 2, allows)
    {
    }
    assert Forks(Cfg(), run, 2, one, two, allows);
  }

  /** Two-chain commit safety, over all configurations, runs and epochs, under a guard on timeout
      certificates of other epochs holds if and only if the guard rejects every certificate whose round
      does not follow that of its highest certificate. */
  lemma {:induction false} SafeIffRejectsGaps(allows: Guard)
    ensures SafeUnder(allows) <==> RejectsGaps(allows)
  {
    if RejectsGaps(allows) {
      forall cfg, run, e, one, two
        ensures !Forks(cfg, run, e, one, two, allows)
      {
        GuardSuffices(cfg, run, e, one, two, allows);
      }
    } else {
      var h: Round, r: Round :| h + 2 <= r && r + 2 <= U64_MAX && allows(r, h);
      GapForks(h, r, allows);
    }
  }
}
