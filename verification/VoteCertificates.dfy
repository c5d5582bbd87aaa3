/** The certificates a collector returns come from the votes it was fed, pass the checks of every
    other replica, and agree across replicas. */
module VoteCertificates {
  import opened Wrappers
  import opened Validators
  import opened Types
  import opened PendingVotes
  import opened VoteCollection
  import Protocol
  import CommitSafety

  // ----- Provenance -----

  ghost predicate VoteSigned(votes: seq<Vote>, li: LedgerInfo, a: Address, signature: Signature<LedgerInfo>) {
    exists i :: 0 <= i < |votes| && votes[i].author == a && votes[i].ledgerInfo == li && votes[i].signature == signature
  }

  ghost predicate TimeoutSigned(votes: seq<Vote>, a: Address, signature: Signature<Timeout>) {
    exists i :: 0 <= i < |votes| && votes[i].author == a && votes[i].timeoutSignature == Some(signature)
  }

  ghost predicate TimeoutNamed(votes: seq<Vote>, timeout: Timeout) {
    exists i :: 0 <= i < |votes| && votes[i].GenerateTimeout() == timeout
  }

  ghost predicate TwoChainTimeoutSigned(votes: seq<Vote>, a: Address, hqcRound: Round,
                                        signature: Signature<TimeoutSigningRepr>)
  {
    exists i :: 0 <= i < |votes| && votes[i].author == a && votes[i].twoChainTimeout.Some?
                && votes[i].twoChainTimeout.value.0.HqcRound() == hqcRound
                && votes[i].twoChainTimeout.value.1 == signature
  }

  ghost predicate TwoChainTimeoutNamed(votes: seq<Vote>, timeout: TwoChainTimeout) {
    exists i :: 0 <= i < |votes| && votes[i].twoChainTimeout.Some? && votes[i].twoChainTimeout.value.0 == timeout
  }

  ghost predicate SignaturesFrom(lis: LedgerInfoWithSignatures, votes: seq<Vote>) {
    forall a :: a in lis.signatures ==> VoteSigned(votes, lis.ledgerInfo, a, lis.signatures[a])
  }

  ghost predicate TcFrom(tc: TimeoutCertificate, votes: seq<Vote>) {
    TimeoutNamed(votes, tc.timeout) && forall a :: a in tc.signatures ==> TimeoutSigned(votes, a, tc.signatures[a])
  }

  /** The certificate keeps a timeout with the highest of the rounds that were signed. */
  ghost predicate TwoChainTcFrom(tc: TwoChainTimeoutCertificate, votes: seq<Vote>) {
    && TwoChainTimeoutNamed(votes, tc.timeout)
    && tc.IsHighestSigned(tc.timeout.HqcRound())
    && forall a :: a in tc.signatures ==> TwoChainTimeoutSigned(votes, a, tc.signatures[a].0, tc.signatures[a].1)
  }

  ghost predicate From(st: Pending, votes: seq<Vote>) {
    && (forall li :: li in st.liToVotes ==> SignaturesFrom(st.liToVotes[li], votes))
    && (st.partialTc.Some? ==> TcFrom(st.partialTc.value, votes))
    && (st.partial2ChainTc.Some? ==> TwoChainTcFrom(st.partial2ChainTc.value, votes))
  }

  lemma {:induction false} SignaturesFromMore(lis: LedgerInfoWithSignatures, votes: seq<Vote>, vote: Vote)
    requires SignaturesFrom(lis, votes)
    ensures SignaturesFrom(lis, votes + [vote])
  {
    var all := votes + [vote];
    forall a | a in lis.signatures
      ensures VoteSigned(all, lis.ledgerInfo, a, lis.signatures[a])
    {
      var i :| 0 <= i < |votes| && votes[i].author == a && votes[i].ledgerInfo == lis.ledgerInfo
               && votes[i].signature == lis.signatures[a];
      assert all[i] == votes[i];
    }
  }

  lemma {:induction false} TcFromMore(tc: TimeoutCertificate, votes: seq<Vote>, vote: Vote)
    requires TcFrom(tc, votes)
    ensures TcFrom(tc, votes + [vote])
  {
    var all := votes + [vote];
    var k :| 0 <= k < |votes| && votes[k].GenerateTimeout() == tc.timeout;
    assert all[k] == votes[k];
    forall a | a in tc.signatures
      ensures TimeoutSigned(all, a, tc.signatures[a])
    {
      var i :| 0 <= i < |votes| && votes[i].author == a && votes[i].timeoutSignature == Some(tc.signatures[a]);
      assert all[i] == votes[i];
    }
  }

  lemma {:induction false} TwoChainTcFromMore(tc: TwoChainTimeoutCertificate, votes: seq<Vote>, vote: Vote)
    requires TwoChainTcFrom(tc, votes)
    ensures TwoChainTcFrom(tc, votes + [vote])
  {
    var all := votes + [vote];
    var k :| 0 <= k < |votes| && votes[k].twoChainTimeout.Some? && votes[k].twoChainTimeout.value.0 == tc.timeout;
    assert all[k] == votes[k];
    forall a | a in tc.signatures
      ensures TwoChainTimeoutSigned(all, a, tc.signatures[a].0, tc.signatures[a].1)
    {
      var i :| 0 <= i < |votes| && votes[i].author == a && votes[i].twoChainTimeout.Some?
               && votes[i].twoChainTimeout.value.0.HqcRound() == tc.signatures[a].0
               && votes[i].twoChainTimeout.value.1 == tc.signatures[a].1;
      assert all[i] == votes[i];
    }
  }

  lemma {:induction false} FromMore(st: Pending, votes: seq<Vote>, vote: Vote)
    requires From(st, votes)
    ensures From(st, votes + [vote])
  {
    forall li | li in st.liToVotes
      ensures SignaturesFrom(st.liToVotes[li], votes + [vote])
    {
      SignaturesFromMore(st.liToVotes[li], votes, vote);
    }
    if st.partialTc.Some? { TcFromMore(st.partialTc.value, votes, vote); }
    if st.partial2ChainTc.Some? { TwoChainTcFromMore(st.partial2ChainTc.value, votes, vote); }
  }

  lemma {:induction false} StoreFrom(st: Pending, votes: seq<Vote>, vote: Vote)
    requires VotesInv(st) && From(st, votes) && vote in votes
    ensures From(Store(st, vote), votes)
  {
    var k :| 0 <= k < |votes| && votes[k] == vote;
    assert VoteSigned(votes, vote.ledgerInfo, vote.author, vote.signature);
  }

  lemma {:induction false} AddTimeoutFrom(st: Pending, votes: seq<Vote>, vote: Vote)
    requires From(st, votes) && vote in votes
    ensures From(AddTimeout(st, vote), votes)
  {
    var k :| 0 <= k < |votes| && votes[k] == vote;
    assert TimeoutNamed(votes, vote.GenerateTimeout());
    assert vote.timeoutSignature.Some? ==> TimeoutSigned(votes, vote.author, vote.timeoutSignature.value);
  }

  lemma {:induction false} Add2ChainTimeoutFrom(st: Pending, votes: seq<Vote>, vote: Vote)
    requires From(st, votes) && vote in votes
    requires vote.author !in TwoChainTimeoutSigners(st)
    ensures From(Add2ChainTimeout(st, vote), votes)
  {
    if vote.twoChainTimeout.Some? {
      var (timeout, signature) := vote.twoChainTimeout.value;
      var k :| 0 <= k < |votes| && votes[k] == vote;
      assert TwoChainTimeoutNamed(votes, timeout);
      assert TwoChainTimeoutSigned(votes, vote.author, timeout.HqcRound(), signature);
      var tc := if st.partial2ChainTc.Some? then st.partial2ChainTc.value
                else TwoChainTimeoutCertificate(timeout, map[]);
      var tc' := tc.Add(vote.author, timeout, signature);
      assert tc'.signatures[vote.author].0 == timeout.HqcRound();
      HighestAfterAdd(tc, vote.author, timeout, signature);
    }
  }

  lemma {:induction false} HighestAfterAdd(tc: TwoChainTimeoutCertificate, a: Address, t: TwoChainTimeout,
                                           signature: Signature<TimeoutSigningRepr>)
    requires a !in tc.signatures
    requires tc.IsHighestSigned(tc.timeout.HqcRound()) || (tc.signatures == map[] && tc.timeout == t)
    ensures tc.Add(a, t, signature).IsHighestSigned(tc.Add(a, t, signature).timeout.HqcRound())
  {
    var tc' := tc.Add(a, t, signature);
    var r := tc'.timeout.HqcRound();
    if tc.signatures == map[] && tc.timeout == t {
      assert tc'.signatures[a].0 == r;
    } else if t.HqcRound() <= tc.timeout.HqcRound() && r != 0 {
      var b :| b in tc.signatures && tc.signatures[b].0 == r;
      assert tc'.signatures[b].0 == r;
    } else {
      assert r == 0 || tc'.signatures[a].0 == r;
    }
  }

  lemma {:induction false} RunFrom(votes: seq<Vote>, v: ValidatorVerifier)
    ensures From(Run(votes, v).0, votes)
  {
    if votes != [] {
      var front := votes[..|votes| - 1];
      var vote := votes[|votes| - 1];
      var st := Run(front, v).0;
      assert votes == front + [vote];
      LastStep(votes, v);
      RunFrom(front, v);
      FromMore(st, front, vote);
      if Screen(st, vote).None? {
        StoreFrom(st, votes, vote);
        AddTimeoutFrom(Store(st, vote), votes, vote);
        assert vote.author !in TwoChainTimeoutSigners(st);
        Add2ChainTimeoutFrom(AddTimeout(Store(st, vote), vote), votes, vote);
        InsertReaches(st, vote, v);
      }
    }
  }

  /** The stored vote of an author is one the collector was fed. */
  lemma {:induction false} StoredWasHeard(votes: seq<Vote>, v: ValidatorVerifier, a: Address)
    requires a in Run(votes, v).0.authorToVote
    ensures Run(votes, v).0.authorToVote[a] in votes
  {
    var front, vote := votes[..|votes| - 1], votes[|votes| - 1];
    var st := Run(front, v).0;
    LastStep(votes, v);
    if Screen(st, vote).None? {
      InsertReaches(st, vote, v);
    }
    if Run(votes, v).0.authorToVote[a] != vote {
      StoredWasHeard(front, v, a);
    }
  }

  // ----- The certificates verify -----

  ghost predicate AllVerify(votes: seq<Vote>, v: ValidatorVerifier) {
    forall i :: 0 <= i < |votes| ==> votes[i].Verify(v)
  }

  /** Of votes that verify nobody's timeout is collected for both kinds of timeout certificates. */
  lemma {:induction false} OneKindOfTimeout(votes: seq<Vote>, v: ValidatorVerifier)
    requires AllVerify(votes, v)
    ensures TimeoutSigners(Run(votes, v).0) !! TwoChainTimeoutSigners(Run(votes, v).0)
  {
    var st := Run(votes, v).0;
    RunKeepsInv(votes, v);
    forall a | a in TimeoutSigners(st)
      ensures a !in TwoChainTimeoutSigners(st)
    {
      StoredWasHeard(votes, v, a);
      assert st.authorToVote[a].Verify(v);
    }
  }

  ghost predicate OneRound(votes: seq<Vote>, epoch: nat, round: Round) {
    forall i :: 0 <= i < |votes| ==>
                  votes[i].voteData.proposed.epoch == epoch && votes[i].voteData.proposed.round == round
  }

  lemma {:induction false} KeysFit<T>(v: ValidatorVerifier, signatures: map<Address, T>)
    requires signatures.Keys <= v.validators.Keys
    ensures |signatures| <= |v.validators|
  {
    SubsetFits(signatures.Keys, v.validators.Keys);
  }

  lemma {:induction false} SubsetFits(s: set<Address>, t: set<Address>)
    requires s <= t
    ensures |s| <= |t|
  {
    assert t == s + (t - s);
  }

  /** A certificate in an answer is the one that is stored, and has a quorum. */
  ghost predicate NamesState(st: Pending, vote: Vote, r: VoteReceptionResult, v: ValidatorVerifier) {
    && (r.NewQuorumCertificate? ==>
          && r.qc.voteData == vote.voteData && vote.ledgerInfo in st.liToVotes
          && r.qc.signedLedgerInfo == st.liToVotes[vote.ledgerInfo]
          && r.qc.signedLedgerInfo.ledgerInfo == vote.ledgerInfo
          && CheckPower(v, r.qc.signedLedgerInfo.signatures.Keys).Ok?)
    && (r.NewTimeoutCertificate? ==> st.partialTc == Some(r.tc) && CheckPower(v, r.tc.signatures.Keys).Ok?)
    && (r.New2ChainTimeoutCertificate? ==>
          st.partial2ChainTc == Some(r.twoChainTc) && CheckPower(v, r.twoChainTc.signatures.Keys).Ok?)
  }

  lemma {:induction false} AnswerNamesState(st: Pending, vote: Vote, v: ValidatorVerifier)
    requires VotesInv(st)
    ensures NamesState(InsertVote(st, vote, v).0, vote, InsertVote(st, vote, v).1, v)
  {
    if Screen(st, vote).None? {
      StoreEffect(st, vote);
    }
  }

  /** The last answer of a run names the state it left behind. */
  lemma {:induction false} LastCertificates(votes: seq<Vote>, v: ValidatorVerifier)
    requires votes != []
    ensures NamesState(Run(votes, v).0, votes[|votes| - 1], Run(votes, v).1[|votes| - 1], v)
  {
    LastStep(votes, v);
    AnswerNamesState(Run(votes[..|votes| - 1], v).0, votes[|votes| - 1], v);
  }

  /** Stored signatures of verified votes verify once they have a quorum. */
  lemma {:induction false} StoredVerify(st: Pending, votes: seq<Vote>, v: ValidatorVerifier, li: LedgerInfo)
    requires AllVerify(votes, v) && From(st, votes) && li in st.liToVotes && st.liToVotes[li].ledgerInfo == li
    requires CheckPower(v, st.liToVotes[li].signatures.Keys).Ok?
    ensures st.liToVotes[li].VerifySignatures(v)
  {
    var sigs := st.liToVotes[li].signatures;
    forall a | a in sigs
      ensures ValidSignature(v, a, li, sigs[a])
    {
      assert VoteSigned(votes, li, a, sigs[a]);
    }
    KeysFit(v, sigs);
  }

  /** A quorum certificate built from verified votes verifies. */
  lemma {:induction false} QuorumCertVerifies(votes: seq<Vote>, v: ValidatorVerifier)
    requires votes != [] && AllVerify(votes, v)
    requires Run(votes, v).1[|votes| - 1].NewQuorumCertificate?
    ensures Run(votes, v).1[|votes| - 1].qc.Verify(v)
  {
    LastCertificates(votes, v);
    RunFrom(votes, v);
    var vote := votes[|votes| - 1];
    assert vote.Verify(v);
    StoredVerify(Run(votes, v).0, votes, v, vote.ledgerInfo);
  }

  lemma {:induction false} StoredTimeoutsVerify(st: Pending, votes: seq<Vote>, v: ValidatorVerifier, epoch: nat,
                                                round: Round)
    requires AllVerify(votes, v) && OneRound(votes, epoch, round) && From(st, votes) && st.partialTc.Some?
    requires CheckPower(v, st.partialTc.value.signatures.Keys).Ok?
    ensures st.partialTc.value.Verify(v) && st.partialTc.value.timeout == Timeout(epoch, round)
  {
    var tc := st.partialTc.value;
    forall a | a in tc.signatures
      ensures ValidSignature(v, a, tc.timeout, tc.signatures[a])
    {
      assert TimeoutSigned(votes, a, tc.signatures[a]);
    }
    KeysFit(v, tc.signatures);
  }

  /** A timeout certificate built from verified votes of one round verifies. */
  lemma {:induction false} TimeoutCertVerifies(votes: seq<Vote>, v: ValidatorVerifier, epoch: nat, round: Round)
    requires votes != [] && AllVerify(votes, v) && OneRound(votes, epoch, round)
    requires Run(votes, v).1[|votes| - 1].NewTimeoutCertificate?
    ensures Run(votes, v).1[|votes| - 1].tc.Verify(v)
    ensures Run(votes, v).1[|votes| - 1].tc.timeout == Timeout(epoch, round)
  {
    LastCertificates(votes, v);
    RunFrom(votes, v);
    StoredTimeoutsVerify(Run(votes, v).0, votes, v, epoch, round);
  }

  /** The rounds of the certificates that the timeouts collected so far and the new vote carry are
      below the round: what a caller can check before inserting the vote. */
  ghost predicate HqcsBelow(st: Pending, vote: Vote, round: Round) {
    && (vote.twoChainTimeout.Some? ==> vote.twoChainTimeout.value.0.HqcRound() < round)
    && forall a ::
         a in TwoChainTimeoutSigners(st) && a in st.authorToVote && st.authorToVote[a].twoChainTimeout.Some? ==>
                     st.authorToVote[a].twoChainTimeout.value.0.HqcRound() < round
  }

  /** What the last insertion put into the two-chain timeout certificate. */
  lemma {:induction false} TwoChainTcIs(st: Pending, vote: Vote, v: ValidatorVerifier, round: Round)
    requires VotesInv(st) && TimeoutsInv(st, v) && InsertVote(st, vote, v).1.New2ChainTimeoutCertificate?
    ensures var tc := InsertVote(st, vote, v).1.twoChainTc;
            (forall a :: a in tc.signatures ==> tc.signatures[a].0 < round) <==> HqcsBelow(st, vote, round)
  {
    var tc := InsertVote(st, vote, v).1.twoChainTc;
    assert tc.signatures[vote.author].0 == vote.twoChainTimeout.value.0.HqcRound();
    assert vote.author !in TwoChainTimeoutSigners(st);
    forall a | a in TwoChainTimeoutSigners(st)
      ensures TwoChainTimeoutStored(st, a) && a in tc.signatures
              && tc.signatures[a] == st.partial2ChainTc.value.signatures[a]
    {
    }
  }

  lemma {:induction false} TwoChainTcVerifiesIff(votes: seq<Vote>, v: ValidatorVerifier, epoch: nat, round: Round)
    requires votes != [] && AllVerify(votes, v) && OneRound(votes, epoch, round)
    requires Run(votes, v).1[|votes| - 1].New2ChainTimeoutCertificate?
    ensures var tc := Run(votes, v).1[|votes| - 1].twoChainTc;
            && tc.timeout.epoch == epoch && tc.timeout.round == round
            && (tc.Verify(v) <==> forall a :: a in tc.signatures ==> tc.signatures[a].0 < round)
  {
    LastCertificates(votes, v);
    RunFrom(votes, v);
    var tc := Run(votes, v).1[|votes| - 1].twoChainTc;
    assert TwoChainTcFrom(tc, votes);
    forall a | a in tc.signatures
      ensures tc.SignedFor(v, a)
    {
      assert TwoChainTimeoutSigned(votes, a, tc.signatures[a].0, tc.signatures[a].1);
    }
    var i :| 0 <= i < |votes| && votes[i].twoChainTimeout.Some? && votes[i].twoChainTimeout.value.0 == tc.timeout;
    assert votes[i].Verify(v);
    assert round > 0;
    if tc.Verify(v) {
      assert tc.timeout.HqcRound() < round;
    }
  }

  /** A two-chain timeout certificate built from verified votes of one round verifies exactly when,
      before the vote that completes it, the timeouts collected and the one in the vote carry
      certificates below the round; verifying the votes does not ensure that. */
  lemma {:induction false} TwoChainTimeoutCertVerifies(votes: seq<Vote>, v: ValidatorVerifier, epoch: nat, round: Round)
    requires votes != [] && AllVerify(votes, v) && OneRound(votes, epoch, round)
    requires Run(votes, v).1[|votes| - 1].New2ChainTimeoutCertificate?
    ensures var tc := Run(votes, v).1[|votes| - 1].twoChainTc;
            tc.Verify(v) <==> HqcsBelow(Run(votes[..|votes| - 1], v).0, votes[|votes| - 1], round)
  {
    LastStep(votes, v);
    TwoChainTcVerifiesIff(votes, v, epoch, round);
    TwoChainTcIs(Run(votes[..|votes| - 1], v).0, votes[|votes| - 1], v, round);
  }

  // ----- A timeout certificate that does not verify -----

  const PAIR := ValidatorVerifier(map[1 := ValidatorInfo(1, 1), 2 := ValidatorInfo(2, 1)], 2, 2)

  lemma {:induction false} PairPower()
    ensures New(PAIR.validators) == Some(PAIR)
    ensures CheckPower(PAIR, {1, 2}).Ok?
    ensures CheckPower(PAIR, {1}) == CheckPower(PAIR, {2}) == Err(TooLittleVotingPower(1, 2))
  {
    PowerRemove(PAIR.validators, {1}, 1);
    PowerRemove(PAIR.validators, {2}, 2);
    PowerRemove(PAIR.validators, {1, 2}, 1);
    assert {1} - {1} == {} && {2} - {2} == {} && {1, 2} - {1} == {2} && PAIR.validators.Keys == {1, 2};
  }

  /** What a vote of round 1 is about; `version` tells two of them apart. */
  function RoundOne(version: nat): VoteData {
    VoteData(BlockInfo(1, 1, Zero, [], version, 0, None), BlockInfo(1, 0, Zero, [], 0, 0, None))
  }

  function InfoFor(version: nat): LedgerInfo {
    LedgerInfo(EMPTY_BLOCK_INFO, HashOf(RoundOne(version)))
  }

  /** A certificate of round 1, signed by both. */
  function PairQc(): QuorumCert {
    var li := InfoFor(0);
    QuorumCert(RoundOne(0), LedgerInfoWithSignatures(li, map[1 := Signature(1, li), 2 := Signature(2, li)]))
  }

  /** A vote of round 1 that times out in round 1 with the certificate of round 1. */
  function LateTimeout(a: Address): Vote {
    var li := InfoFor(a);
    var timeout := TwoChainTimeout(1, 1, PairQc());
    Vote(RoundOne(a), a, li, Signature(a, li), None, Some((timeout, Signature(a, timeout.SigningFormat()))))
  }

  lemma {:induction false} PairQcVerifies()
    ensures PairQc().Verify(PAIR)
  {
    PairPower();
    var sigs := PairQc().signedLedgerInfo.signatures;
    assert sigs.Keys == {1, 2} == PAIR.validators.Keys;
    KeysFit(PAIR, sigs);
  }

  lemma {:induction false} FirstTimeoutAdded()
    ensures var (st, r) := InsertVote(EMPTY, LateTimeout(1), PAIR);
            && r.VoteAdded? && TwoChainTimeoutSigners(st) == {1} && st.partial2ChainTc.Some? && 2 !in st.authorToVote
            && InfoFor(2) !in st.liToVotes && st.partialTc.None? && st.partial2ChainTc.value.timeout.round == 1
  {
    PairPower();
    var one := LateTimeout(1);
    var s1 := Store(EMPTY, one);
    assert s1.liToVotes[one.ledgerInfo].signatures.Keys == {1};
    assert Add2ChainTimeout(s1, one).partial2ChainTc.value.signatures.Keys == {1};
  }

  lemma {:induction false} LateTimeoutVerifies(a: Address)
    requires a == 1 || a == 2
    ensures LateTimeout(a).Verify(PAIR)
  {
    PairQcVerifies();
  }

  lemma {:induction false} SecondTimeoutCompletes(st: Pending)
    requires TwoChainTimeoutSigners(st) == {1} && st.partial2ChainTc.Some? && st.partialTc.None?
    requires 2 !in st.authorToVote && InfoFor(2) !in st.liToVotes && st.partial2ChainTc.value.timeout.round == 1
    ensures var r := InsertVote(st, LateTimeout(2), PAIR).1;
            r.New2ChainTimeoutCertificate? && !r.twoChainTc.Verify(PAIR)
  {
    PairPower();
    var s1 := Store(st, LateTimeout(2));
    assert s1.liToVotes[InfoFor(2)].signatures.Keys == {2};
    var tc := Add2ChainTimeout(s1, LateTimeout(2)).partial2ChainTc.value;
    assert tc.signatures.Keys == {1, 2} && tc.signatures[2].0 == 1 && tc.timeout.round == 1;
  }

  lemma {:induction false} RunOfTwo(one: Vote, two: Vote, v: ValidatorVerifier)
    ensures Run([one, two], v).1[1] == InsertVote(InsertVote(EMPTY, one, v).0, two, v).1
  {
    assert [one, two][..1] == [one] && [one][..0] == [];
    PrefixResult([one, two], v, 1);
  }

  /** Two verified votes of one round, for different ledger infos, whose timeouts carry a certificate of
      the round itself: the collector returns a timeout certificate that no replica accepts. */
  lemma {:induction false} CollectedTcFails()
    ensures LateTimeout(1).Verify(PAIR) && LateTimeout(2).Verify(PAIR)
    ensures var r := Run([LateTimeout(1), LateTimeout(2)], PAIR).1[1];
            r.New2ChainTimeoutCertificate? && !r.twoChainTc.Verify(PAIR)
  {
    LateTimeoutVerifies(1);
    LateTimeoutVerifies(2);
    FirstTimeoutAdded();
    SecondTimeoutCompletes(InsertVote(EMPTY, LateTimeout(1), PAIR).0);
    RunOfTwo(LateTimeout(1), LateTimeout(2), PAIR);
  }

  // ----- Agreement across replicas -----

  /** A vote as it arrives over the network: verified, an honest signature made by its holder. */
  ghost predicate ReceivedVote(cfg: Protocol.Config, w: Protocol.World, e: nat, vote: Vote) {
    && vote.Verify(Protocol.VerifierOf(cfg, e))
    && vote.voteData.proposed.epoch == e
    && (vote.signature.publicKey in w.nodes ==>
         Protocol.HasVoted(w.nodes[vote.signature.publicKey], vote.signature.message))
  }

  ghost predicate Received(cfg: Protocol.Config, w: Protocol.World, e: nat, votes: seq<Vote>) {
    forall i :: 0 <= i < |votes| ==> ReceivedVote(cfg, w, e, votes[i])
  }

  lemma {:induction false} AggregatedIsCertificate(cfg: Protocol.Config, w: Protocol.World, e: nat, votes: seq<Vote>)
    requires votes != [] && Received(cfg, w, e, votes)
    requires Run(votes, Protocol.VerifierOf(cfg, e)).1[|votes| - 1].NewQuorumCertificate?
    ensures CommitSafety.Certificate(cfg, w, e, Run(votes, Protocol.VerifierOf(cfg, e)).1[|votes| - 1].qc)
  {
    var v := Protocol.VerifierOf(cfg, e);
    QuorumCertVerifies(votes, v);
    LastCertificates(votes, v);
    RunFrom(votes, v);
    var qc := Run(votes, v).1[|votes| - 1].qc;
    var sigs := qc.signedLedgerInfo.signatures;
    forall b | b in sigs && sigs[b].publicKey in w.nodes
      ensures Protocol.HasVoted(w.nodes[sigs[b].publicKey], sigs[b].message)
    {
      assert VoteSigned(votes, qc.signedLedgerInfo.ledgerInfo, b, sigs[b]);
    }
    assert votes[|votes| - 1].Verify(v);
  }

  /** Two replicas that each collect any verified votes in any order never certify different ledger
      infos in one round. */
  lemma {:induction false} ReplicasAgree(cfg: Protocol.Config, run: seq<Protocol.World>, e: nat, one: seq<Vote>,
                                         two: seq<Vote>)
    requires Protocol.ValidConfig(cfg) && Protocol.IsRun(cfg, run)
    requires one != [] && Received(cfg, run[|run| - 1], e, one)
    requires two != [] && Received(cfg, run[|run| - 1], e, two)
    requires Run(one, Protocol.VerifierOf(cfg, e)).1[|one| - 1].NewQuorumCertificate?
    requires Run(two, Protocol.VerifierOf(cfg, e)).1[|two| - 1].NewQuorumCertificate?
    requires one[|one| - 1].voteData.proposed.round == two[|two| - 1].voteData.proposed.round
    ensures var v := Protocol.VerifierOf(cfg, e);
            Run(one, v).1[|one| - 1].qc.signedLedgerInfo.ledgerInfo
            == Run(two, v).1[|two| - 1].qc.signedLedgerInfo.ledgerInfo
  {
    var w := run[|run| - 1];
    var v := Protocol.VerifierOf(cfg, e);
    AggregatedIsCertificate(cfg, w, e, one);
    AggregatedIsCertificate(cfg, w, e, two);
    LastCertificates(one, v);
    LastCertificates(two, v);
    CommitSafety.OneCertificatePerRound(cfg, run, e, Run(one, v).1[|one| - 1].qc, Run(two, v).1[|two| - 1].qc);
  }

  /** The log entry behind a vote that carries an honest validator's signature. */
  lemma {:induction false} HonestEntry(cfg: Protocol.Config, w: Protocol.World, e: nat, vote: Vote) returns (k: nat)
    requires Protocol.ValidEpoch(cfg, e) && Protocol.WorldInv(cfg, w)
    requires ReceivedVote(cfg, w, e, vote) && vote.author in cfg.honest
    ensures vote.author in w.nodes && k < |w.nodes[vote.author].log|
    ensures var entry := w.nodes[vote.author].log[k];
            entry.Voted? && entry.vote.ledgerInfo == vote.ledgerInfo && entry.block.epoch == e
            && entry.block.round == vote.Round()
  {
    var n := w.nodes[vote.author];
    assert vote.signature == Signature(vote.author, vote.ledgerInfo);
    assert Protocol.HasVoted(n, vote.ledgerInfo);
    k :| 0 <= k < |n.log| && n.log[k].Voted? && n.log[k].vote.ledgerInfo == vote.ledgerInfo;
    assert Protocol.NodeInv(cfg, vote.author, n);
    assert Protocol.EntryOk(cfg, vote.author, n.log[k]);
  }

  /** Whatever an honest validator signed in a round, it signed once. */
  lemma {:induction false} OneVotePerRound(cfg: Protocol.Config, w: Protocol.World, e: nat, one: Vote, two: Vote)
    requires Protocol.ValidEpoch(cfg, e) && Protocol.WorldInv(cfg, w)
    requires ReceivedVote(cfg, w, e, one) && ReceivedVote(cfg, w, e, two)
    requires one.author == two.author && one.author in cfg.honest && one.Round() == two.Round()
    ensures one.ledgerInfo == two.ledgerInfo
  {
    var i := HonestEntry(cfg, w, e, one);
    var j := HonestEntry(cfg, w, e, two);
    Protocol.OneVoteEntryPerRound(cfg, one.author, w.nodes[one.author], i, j);
  }

  /** The stored vote of an author repeats a vote the collector was fed. */
  lemma {:induction false} StoredLedgerInfoWasVoted(votes: seq<Vote>, v: ValidatorVerifier, a: Address) returns (j: nat)
    requires a in Run(votes, v).0.authorToVote
    ensures j < |votes| && votes[j].author == a && votes[j].ledgerInfo == Run(votes, v).0.authorToVote[a].ledgerInfo
  {
    RunFrom(votes, v);
    RunKeepsInv(votes, v);
    var st := Run(votes, v).0;
    var li := st.authorToVote[a].ledgerInfo;
    assert SignerIsVoter(st, li, a);
    assert VoteSigned(votes, li, a, st.liToVotes[li].signatures[a]);
    j :| 0 <= j < |votes| && votes[j].author == a && votes[j].ledgerInfo == li;
  }

  /** Equivocation is answered only to an author who was heard voting for something else before. */
  lemma {:induction false} EquivocationIsReal(votes: seq<Vote>, v: ValidatorVerifier, i: nat) returns (j: nat)
    requires i < |votes| && Run(votes, v).1[i].EquivocateVote?
    ensures j < i && votes[j].author == votes[i].author && votes[j].ledgerInfo != votes[i].ledgerInfo
  {
    PrefixResult(votes, v, i);
    j := StoredLedgerInfoWasVoted(votes[..i], v, votes[i].author);
  }

  lemma {:induction false} HonestVotesAgree(cfg: Protocol.Config, run: seq<Protocol.World>, e: nat, votes: seq<Vote>,
                                            i: nat, j: nat)
    requires Protocol.ValidConfig(cfg) && Protocol.IsRun(cfg, run)
    requires Received(cfg, run[|run| - 1], e, votes) && i < |votes| && j < |votes|
    requires votes[i].author == votes[j].author && votes[i].author in cfg.honest && votes[i].Round() == votes[j].Round()
    ensures votes[i].ledgerInfo == votes[j].ledgerInfo
  {
    Protocol.RunKeepsWorldInv(cfg, run, |run| - 1);
    assert Protocol.ValidEpoch(cfg, e);
    OneVotePerRound(cfg, run[|run| - 1], e, votes[i], votes[j]);
  }

  /** An honest validator's votes are never answered as equivocation. */
  lemma {:induction false} HonestNeverEquivocates(cfg: Protocol.Config, run: seq<Protocol.World>, e: nat,
                                                  votes: seq<Vote>, i: nat)
    requires Protocol.ValidConfig(cfg) && Protocol.IsRun(cfg, run)
    requires Received(cfg, run[|run| - 1], e, votes) && i < |votes| && votes[i].author in cfg.honest
    requires OneRound(votes, e, votes[i].Round())
    ensures !Run(votes, Protocol.VerifierOf(cfg, e)).1[i].EquivocateVote?
  {
    if Run(votes, Protocol.VerifierOf(cfg, e)).1[i].EquivocateVote? {
      var j := EquivocationIsReal(votes, Protocol.VerifierOf(cfg, e), i);
      HonestVotesAgree(cfg, run, e, votes, i, j);
    }
  }

  lemma {:induction false} PrefixResult(votes: seq<Vote>, v: ValidatorVerifier, i: nat)
    requires i < |votes|
    ensures Run(votes, v).1[i] == InsertVote(Run(votes[..i], v).0, votes[i], v).1
    decreases |votes|
  {
    LastStep(votes, v);
    if i < |votes| - 1 {
      PrefixResult(votes[..|votes| - 1], v, i);
      assert votes[..|votes| - 1][..i] == votes[..i];
    }
  }
}
