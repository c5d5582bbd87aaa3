/** What every run of one vote collector keeps, and what the certificates it returns are worth. */
module VoteCollection {
  import opened Wrappers
  import opened Validators
  import opened Types
  import opened PendingVotes

  ghost predicate KnownAuthors(votes: seq<Vote>, v: ValidatorVerifier) {
    forall i :: 0 <= i < |votes| ==> votes[i].author in v.validators
  }

  /** A certificate for `li` is among the answers. */
  ghost predicate Certified(results: seq<VoteReceptionResult>, li: LedgerInfo) {
    exists i :: && 0 <= i < |results| && results[i].NewQuorumCertificate?
                && results[i].qc.signedLedgerInfo.ledgerInfo == li
  }

  // ----- The answer to one insertion -----

  lemma {:induction false} TimeoutsFromKnown(st: Pending, vote: Vote, v: ValidatorVerifier)
    requires TimeoutsInv(st, v)
    ensures TimeoutAnswer(st, vote, v).Some? ==> TimeoutAnswer(st, vote, v).value.NewTimeoutCertificate?
    ensures TwoChainAnswer(st, vote, v).Some? ==> TwoChainAnswer(st, vote, v).value.New2ChainTimeoutCertificate?
  {
    assert TimeoutSigners(st) <= v.validators.Keys && TwoChainTimeoutSigners(st) <= v.validators.Keys;
  }

  lemma {:induction false} AnswerFromKnown(st: Pending, vote: Vote, v: ValidatorVerifier)
    requires VotesInv(st) && TimeoutsInv(st, v) && Screen(st, vote).None?
    requires Signers(Store(st, vote), vote.ledgerInfo) <= v.validators.Keys
    ensures var signed := Signed(Store(st, vote), vote.ledgerInfo); var r := InsertVote(st, vote, v).1;
            && (r.NewQuorumCertificate? <==> CheckPower(v, signed.signatures.Keys).Ok?)
            && (r.NewQuorumCertificate? ==> r.qc == QuorumCert(vote.voteData, signed))
            && !r.ErrorAddingVote?
  {
    StoreEffect(st, vote);
    StoreKeepsTimeoutsInv(st, vote, v);
    var s1 := Store(st, vote);
    var s2 := AddTimeout(s1, vote);
    AddingKeepsTimeoutsInv(s1, vote, v);
    AddingKeepsTimeoutsInv(s2, vote, v);
    TimeoutsFromKnown(s2, vote, v);
    TimeoutsFromKnown(Add2ChainTimeout(s2, vote), vote, v);
  }

  /** A stored vote completes a certificate exactly when the signers of its ledger info, itself
      included, reach quorum, and is an error exactly when one of them is unknown. */
  lemma {:induction false} AnswerToStoredVote(st: Pending, vote: Vote, v: ValidatorVerifier)
    requires VotesInv(st) && TimeoutsInv(st, v) && Screen(st, vote).None?
    ensures var signed := Signed(Store(st, vote), vote.ledgerInfo); var r := InsertVote(st, vote, v).1;
            && signed.signatures.Keys == Signers(st, vote.ledgerInfo) + {vote.author}
            && (r.NewQuorumCertificate? <==> CheckPower(v, signed.signatures.Keys).Ok?)
            && (r.NewQuorumCertificate? ==> r.qc == QuorumCert(vote.voteData, signed))
            && (r.ErrorAddingVote? <==> !(signed.signatures.Keys <= v.validators.Keys))
  {
    StoreEffect(st, vote);
    if Signers(Store(st, vote), vote.ledgerInfo) <= v.validators.Keys {
      AnswerFromKnown(st, vote, v);
    }
  }

  lemma {:induction false} LastStep(votes: seq<Vote>, v: ValidatorVerifier)
    requires votes != []
    ensures var (st, results) := Run(votes[..|votes| - 1], v);
            var (st', r) := InsertVote(st, votes[|votes| - 1], v);
            Run(votes, v) == (st', results + [r])
    ensures VotesInv(Run(votes[..|votes| - 1], v).0) && TimeoutsInv(Run(votes[..|votes| - 1], v).0, v)
    ensures VotesInv(Run(votes, v).0) && TimeoutsInv(Run(votes, v).0, v)
  {
    RunKeepsInv(votes[..|votes| - 1], v);
    RunKeepsInv(votes, v);
  }

  /** Every answer is an error or not according to whether an unknown author is among the signers;
      so with known authors there is none. */
  lemma {:induction false} NoErrors(votes: seq<Vote>, v: ValidatorVerifier, i: nat)
    requires KnownAuthors(votes, v) && i < |votes|
    ensures !Run(votes, v).1[i].ErrorAddingVote?
    ensures forall a :: a in Run(votes, v).0.authorToVote ==> a in v.validators
  {
    var front := votes[..|votes| - 1];
    var st := Run(front, v).0;
    LastStep(votes, v);
    if front != [] {
      NoErrors(front, v, if i < |front| then i else 0);
    }
    var vote := votes[|votes| - 1];
    if Screen(st, vote).None? {
      AnswerToStoredVote(st, vote, v);
      InsertIsStore(st, vote, v);
      forall a | a in Signers(st, vote.ledgerInfo)
        ensures a in v.validators
      {
        assert SignerIsVoter(st, vote.ledgerInfo, a);
      }
    }
  }

  // ----- Partition -----

  /** The signers of each ledger info are exactly the authors whose stored vote is for it, and
      everybody who voted is a signer of some ledger info. */
  ghost predicate Partitioned(st: Pending) {
    && (forall li :: Signers(st, li) == VotersFor(st, li))
    && (forall a :: a in st.authorToVote ==> st.authorToVote[a].ledgerInfo in st.liToVotes)
  }

  lemma {:induction false} SignersPartitionVoters(votes: seq<Vote>, v: ValidatorVerifier)
    ensures Partitioned(Run(votes, v).0)
    ensures forall li, li' :: li != li' ==> Signers(Run(votes, v).0, li) !! Signers(Run(votes, v).0, li')
  {
    RunKeepsInv(votes, v);
    var st := Run(votes, v).0;
    forall li
      ensures Signers(st, li) == VotersFor(st, li)
    {
      forall a
        ensures a in Signers(st, li) <==> a in VotersFor(st, li)
      {
        assert SignerIsVoter(st, li, a);
      }
    }
    forall a | a in st.authorToVote
      ensures st.authorToVote[a].ledgerInfo in st.liToVotes
    {
      assert SignerIsVoter(st, st.authorToVote[a].ledgerInfo, a);
    }
  }

  ghost function Pick(lis: set<LedgerInfo>): (li: LedgerInfo)
    requires lis != {}
    ensures li in lis
  {
    var li :| li in lis; li
  }

  /** The power behind a set of ledger infos, added up ledger info by ledger info. */
  ghost function PowerBehind(st: Pending, lis: set<LedgerInfo>, v: ValidatorVerifier): nat {
    if lis == {} then 0
    else Power(v.validators, Signers(st, Pick(lis))) + PowerBehind(st, lis - {Pick(lis)}, v)
  }

  ghost function VotersAmong(st: Pending, lis: set<LedgerInfo>): set<Address> {
    set a | a in st.authorToVote && st.authorToVote[a].ledgerInfo in lis
  }

  lemma {:induction false} PowerBehindIsVotersPower(st: Pending, v: ValidatorVerifier, lis: set<LedgerInfo>)
    requires Partitioned(st)
    ensures PowerBehind(st, lis, v) == Power(v.validators, VotersAmong(st, lis))
    decreases |lis|
  {
    if lis != {} {
      var li := Pick(lis);
      PowerBehindIsVotersPower(st, v, lis - {li});
      var rest := VotersAmong(st, lis - {li});
      assert VotersAmong(st, lis) == VotersFor(st, li) + rest && VotersFor(st, li) * rest == {};
      PowerUnion(v.validators, VotersFor(st, li), rest);
    }
  }

  /** No voting power is lost or counted twice: the powers behind all ledger infos add up to the
      power of everybody who voted. */
  lemma {:induction false} PowerConserved(votes: seq<Vote>, v: ValidatorVerifier)
    ensures var st := Run(votes, v).0;
            PowerBehind(st, st.liToVotes.Keys, v) == Power(v.validators, st.authorToVote.Keys)
  {
    var st := Run(votes, v).0;
    SignersPartitionVoters(votes, v);
    PowerBehindIsVotersPower(st, v, st.liToVotes.Keys);
    assert VotersAmong(st, st.liToVotes.Keys) == st.authorToVote.Keys;
  }

  // ----- Quorum certificates -----

  lemma {:induction false} CertifiedExtends(results: seq<VoteReceptionResult>, r: VoteReceptionResult, li: LedgerInfo)
    ensures Certified(results + [r], li) <==>
              Certified(results, li) || (r.NewQuorumCertificate? && r.qc.signedLedgerInfo.ledgerInfo == li)
  {
    var all := results + [r];
    if Certified(results, li) {
      var i :| 0 <= i < |results| && results[i].NewQuorumCertificate?
               && results[i].qc.signedLedgerInfo.ledgerInfo == li;
      assert all[i] == results[i];
    }
    assert all[|results|] == r;
  }

  /** With known authors, a certificate for a ledger info has been returned exactly when the stored
      votes for it reach quorum. */
  lemma {:induction false} QuorumCertExact(votes: seq<Vote>, v: ValidatorVerifier, li: LedgerInfo)
    requires KnownAuthors(votes, v)
    ensures Certified(Run(votes, v).1, li) <==> ReachesQuorum(Run(votes, v).0, li, v)
  {
    if votes != [] {
      var front := votes[..|votes| - 1];
      var vote := votes[|votes| - 1];
      var (st, results) := Run(front, v);
      var (st', r) := InsertVote(st, vote, v);
      LastStep(votes, v);
      QuorumCertExact(front, v, li);
      CertifiedExtends(results, r, li);
      InsertIsStore(st, vote, v);
      if Screen(st, vote).None? {
        StoreEffect(st, vote);
        AnswerToStoredVote(st, vote, v);
        assert Signed(st', li) == Signed(Store(st, vote), li);
        if li == vote.ledgerInfo && ReachesQuorum(st, li, v) {
          PowerMonotone(v.validators, Signers(st, li), Signers(st', li));
        }
      }
    }
  }

  /** Every certificate returned was signed by a quorum of authors who still count as voters for it. */
  ghost predicate History(st: Pending, results: seq<VoteReceptionResult>, v: ValidatorVerifier) {
    forall i :: 0 <= i < |results| && results[i].NewQuorumCertificate? ==>
      var signed := results[i].qc.signedLedgerInfo;
      CheckPower(v, signed.signatures.Keys).Ok? && signed.signatures.Keys <= Signers(st, signed.ledgerInfo)
  }

  lemma {:induction false} RunHistory(votes: seq<Vote>, v: ValidatorVerifier)
    ensures History(Run(votes, v).0, Run(votes, v).1, v)
  {
    if votes != [] {
      var front := votes[..|votes| - 1];
      var vote := votes[|votes| - 1];
      var (st, results) := Run(front, v);
      var (st', r) := InsertVote(st, vote, v);
      LastStep(votes, v);
      RunHistory(front, v);
      InsertIsStore(st, vote, v);
      if Screen(st, vote).None? {
        StoreEffect(st, vote);
        AnswerToStoredVote(st, vote, v);
        assert forall li :: Signed(st', li) == Signed(Store(st, vote), li);
        assert forall li :: Signers(st, li) <= Signers(st', li);
      }
    }
  }

  /** One collector never certifies two ledger infos, however many authors are faulty. */
  lemma {:induction false} SingleCollectorAgrees(votes: seq<Vote>, v: ValidatorVerifier, i: nat, j: nat)
    requires Sound(v)
    requires i < |votes| && Run(votes, v).1[i].NewQuorumCertificate?
    requires j < |votes| && Run(votes, v).1[j].NewQuorumCertificate?
    ensures Run(votes, v).1[i].qc.signedLedgerInfo.ledgerInfo == Run(votes, v).1[j].qc.signedLedgerInfo.ledgerInfo
  {
    RunHistory(votes, v);
    SignersPartitionVoters(votes, v);
    var one := Run(votes, v).1[i].qc.signedLedgerInfo;
    var two := Run(votes, v).1[j].qc.signedLedgerInfo;
    assert one.ledgerInfo != two.ledgerInfo ==> one.signatures.Keys * two.signatures.Keys == {};
    QuorumsIntersect(v, one.signatures.Keys, two.signatures.Keys);
  }

  // ----- Timeout votes -----

  /** A certificate under collection has a quorum. */
  ghost predicate TcComplete(st: Pending, v: ValidatorVerifier) {
    st.partialTc.Some? && CheckPower(v, TimeoutSigners(st)).Ok?
  }

  ghost predicate TwoChainTcComplete(st: Pending, v: ValidatorVerifier) {
    st.partial2ChainTc.Some? && CheckPower(v, TwoChainTimeoutSigners(st)).Ok?
  }

  /** The stored timeout of `a`, if any, is in the certificate under collection, unless the ledger
      info of its vote reached quorum, so that no timeout certificate was needed. */
  ghost predicate Collected(st: Pending, v: ValidatorVerifier, a: Address)
    requires a in st.authorToVote
  {
    var vote := st.authorToVote[a];
    && (vote.timeoutSignature.Some? ==> a in TimeoutSigners(st) || ReachesQuorum(st, vote.ledgerInfo, v))
    && (vote.twoChainTimeout.Some? ==>
          a in TwoChainTimeoutSigners(st) || ReachesQuorum(st, vote.ledgerInfo, v) || TcComplete(st, v))
  }

  lemma {:induction false} NewTimeoutCollected(st: Pending, vote: Vote, v: ValidatorVerifier)
    requires VotesInv(st) && TimeoutsInv(st, v) && Screen(st, vote).None?
    requires Signers(Store(st, vote), vote.ledgerInfo) <= v.validators.Keys
    ensures vote.author in InsertVote(st, vote, v).0.authorToVote
            && Collected(InsertVote(st, vote, v).0, v, vote.author)
  {
    var s1 := Store(st, vote);
    var s2 := AddTimeout(s1, vote);
    StoreEffect(st, vote);
    StoreKeepsTimeoutsInv(st, vote, v);
    AddingKeepsTimeoutsInv(s1, vote, v);
    InsertIsStore(st, vote, v);
    InsertStops(st, vote, v);
    assert vote.timeoutSignature.Some? ==> vote.author in TimeoutSigners(s2);
    assert vote.twoChainTimeout.Some? ==> vote.author in TwoChainTimeoutSigners(Add2ChainTimeout(s2, vote));
  }

  /** Where an insertion with known signers stops. */
  lemma {:induction false} InsertStops(st: Pending, vote: Vote, v: ValidatorVerifier)
    requires Screen(st, vote).None?
    requires Signers(Store(st, vote), vote.ledgerInfo) <= v.validators.Keys
    requires TimeoutSigners(AddTimeout(Store(st, vote), vote)) <= v.validators.Keys
    ensures var s1 := Store(st, vote); var s2 := AddTimeout(s1, vote); var st' := InsertVote(st, vote, v).0;
            if ReachesQuorum(s1, vote.ledgerInfo, v) then st' == s1
            else if vote.timeoutSignature.Some? && CheckPower(v, TimeoutSigners(s2)).Ok? then st' == s2
            else st' == Add2ChainTimeout(s2, vote)
  {
  }

  /** Quorums and timeout signers only grow. */
  lemma {:induction false} OthersStayCollected(st: Pending, vote: Vote, v: ValidatorVerifier, a: Address)
    requires VotesInv(st) && TimeoutsInv(st, v) && Screen(st, vote).None?
    requires Signers(Store(st, vote), vote.ledgerInfo) <= v.validators.Keys
    requires a in st.authorToVote && a != vote.author && Collected(st, v, a)
    ensures a in InsertVote(st, vote, v).0.authorToVote && Collected(InsertVote(st, vote, v).0, v, a)
  {
    StoreEffect(st, vote);
    InsertIsStore(st, vote, v);
    InsertReaches(st, vote, v);
    InsertKeepsTimeoutsInv(st, vote, v);
    var st' := InsertVote(st, vote, v).0;
    var li := st.authorToVote[a].ledgerInfo;
    assert Signed(st', li) == Signed(Store(st, vote), li);
    PowerMonotone(v.validators, Signers(st, li), Signers(st', li));
    assert TimeoutSigners(st) <= TimeoutSigners(st') <= v.validators.Keys;
    PowerMonotone(v.validators, TimeoutSigners(st), TimeoutSigners(st'));
  }

  lemma {:induction false} TimeoutsCollected(votes: seq<Vote>, v: ValidatorVerifier, a: Address)
    requires KnownAuthors(votes, v) && a in Run(votes, v).0.authorToVote
    ensures Collected(Run(votes, v).0, v, a)
  {
    var front := votes[..|votes| - 1];
    var vote := votes[|votes| - 1];
    var st := Run(front, v).0;
    LastStep(votes, v);
    InsertIsStore(st, vote, v);
    if Screen(st, vote).None? {
      NoErrors(votes, v, |votes| - 1);
      AnswerToStoredVote(st, vote, v);
      if a == vote.author {
        NewTimeoutCollected(st, vote, v);
      } else {
        TimeoutsCollected(front, v, a);
        OthersStayCollected(st, vote, v, a);
      }
    } else {
      TimeoutsCollected(front, v, a);
    }
  }

  // ----- The answer, exactly -----

  ghost predicate HasQuorum(v: ValidatorVerifier, signers: set<Address>) {
    Power(v.validators, signers) >= v.quorumVotingPower
  }

  /** What a vote must be answered with, given what was stored before: `timeouts` and `twoChainTimeouts`
      are the authors whose timeouts are collected, that of the vote included. */
  ghost predicate Answers(st: Pending, vote: Vote, r: VoteReceptionResult, v: ValidatorVerifier,
                          timeouts: set<Address>, twoChainTimeouts: set<Address>)
  {
    var voters := VotersFor(st, vote.ledgerInfo) + {vote.author};
    if vote.author in st.authorToVote && st.authorToVote[vote.author].ledgerInfo != vote.ledgerInfo then
      r == EquivocateVote
    else if vote.author in st.authorToVote && (!vote.IsTimeout() || st.authorToVote[vote.author].IsTimeout()) then
      r == DuplicateVote
    else if HasQuorum(v, voters) then
      && r.NewQuorumCertificate? && r.qc.voteData == vote.voteData
      && r.qc.signedLedgerInfo.ledgerInfo == vote.ledgerInfo && r.qc.signedLedgerInfo.signatures.Keys == voters
    else if vote.timeoutSignature.Some? && HasQuorum(v, timeouts) then
      r.NewTimeoutCertificate? && r.tc.signatures.Keys == timeouts
    else if vote.twoChainTimeout.Some? && HasQuorum(v, twoChainTimeouts) then
      r.New2ChainTimeoutCertificate? && r.twoChainTc.signatures.Keys == twoChainTimeouts
    else r == VoteAdded(Power(v.validators, voters))
  }

  /** Past the quorum check: the two timeout steps. */
  lemma {:induction false} TimeoutStepsExact(st: Pending, vote: Vote, v: ValidatorVerifier)
    requires TimeoutsInv(st, v) && vote.author in v.validators
    requires vote.author in st.authorToVote && st.authorToVote[vote.author] == vote
    ensures var s2 := AddTimeout(st, vote); var r := TimeoutAnswer(s2, vote, v);
            if vote.timeoutSignature.Some? && HasQuorum(v, TimeoutSigners(st) + {vote.author}) then
              r.Some? && r.value.NewTimeoutCertificate?
              && r.value.tc.signatures.Keys == TimeoutSigners(st) + {vote.author}
            else r.None?
    ensures var s3 := Add2ChainTimeout(st, vote); var r := TwoChainAnswer(s3, vote, v);
            if vote.twoChainTimeout.Some? && HasQuorum(v, TwoChainTimeoutSigners(st) + {vote.author}) then
              r.Some? && r.value.New2ChainTimeoutCertificate?
              && r.value.twoChainTc.signatures.Keys == TwoChainTimeoutSigners(st) + {vote.author}
            else r.None?
  {
    var s2, s3 := AddTimeout(st, vote), Add2ChainTimeout(st, vote);
    AddingKeepsTimeoutsInv(st, vote, v);
    assert vote.timeoutSignature.Some? ==> TimeoutSigners(s2) == TimeoutSigners(st) + {vote.author};
    assert vote.twoChainTimeout.Some? ==> TwoChainTimeoutSigners(s3) == TwoChainTimeoutSigners(st) + {vote.author};
    assert TimeoutSigners(s2) <= v.validators.Keys && TwoChainTimeoutSigners(s3) <= v.validators.Keys;
  }

  lemma {:induction false} SignersAreVoters(st: Pending, vote: Vote)
    requires VotesInv(st) && Screen(st, vote).None?
    ensures Signers(Store(st, vote), vote.ledgerInfo) == VotersFor(st, vote.ledgerInfo) + {vote.author}
  {
    StoreEffect(st, vote);
    forall a
      ensures a in Signers(st, vote.ledgerInfo) <==> a in VotersFor(st, vote.ledgerInfo)
    {
      assert SignerIsVoter(st, vote.ledgerInfo, a);
    }
  }

  /** A vote that is stored, and has no quorum behind it, is answered by its timeouts. */
  lemma {:induction false} AnswerWithoutQuorum(st: Pending, vote: Vote, v: ValidatorVerifier)
    requires VotesInv(st) && TimeoutsInv(st, v) && Screen(st, vote).None?
    requires Signers(Store(st, vote), vote.ledgerInfo) <= v.validators.Keys
    requires !HasQuorum(v, Signers(Store(st, vote), vote.ledgerInfo))
    ensures var r := InsertVote(st, vote, v).1;
            var timeouts, twoChainTimeouts :=
              TimeoutSigners(st) + {vote.author}, TwoChainTimeoutSigners(st) + {vote.author};
            if vote.timeoutSignature.Some? && HasQuorum(v, timeouts) then
              r.NewTimeoutCertificate? && r.tc.signatures.Keys == timeouts
            else if vote.twoChainTimeout.Some? && HasQuorum(v, twoChainTimeouts) then
              r.New2ChainTimeoutCertificate? && r.twoChainTc.signatures.Keys == twoChainTimeouts
            else r == VoteAdded(Power(v.validators, Signers(Store(st, vote), vote.ledgerInfo)))
  {
    StoreEffect(st, vote);
    StoreKeepsTimeoutsInv(st, vote, v);
    var s1 := Store(st, vote);
    AddingKeepsTimeoutsInv(s1, vote, v);
    TimeoutStepsExact(s1, vote, v);
    TimeoutStepsExact(AddTimeout(s1, vote), vote, v);
  }

  lemma {:induction false} InsertAnswers(st: Pending, vote: Vote, v: ValidatorVerifier)
    requires VotesInv(st) && TimeoutsInv(st, v) && vote.author in v.validators
    requires forall a :: a in st.authorToVote ==> a in v.validators
    ensures Answers(st, vote, InsertVote(st, vote, v).1, v, TimeoutSigners(st) + {vote.author},
                    TwoChainTimeoutSigners(st) + {vote.author})
  {
    if Screen(st, vote).None? {
      SignersAreVoters(st, vote);
      if !HasQuorum(v, Signers(Store(st, vote), vote.ledgerInfo)) {
        AnswerWithoutQuorum(st, vote, v);
      } else {
        AnswerToStoredVote(st, vote, v);
      }
    }
  }

  /** Over every run with known authors, the answer to every vote. */
  lemma {:induction false} AnswerExact(votes: seq<Vote>, v: ValidatorVerifier)
    requires votes != [] && KnownAuthors(votes, v)
    ensures var st := Run(votes[..|votes| - 1], v).0; var vote := votes[|votes| - 1];
            Answers(st, vote, Run(votes, v).1[|votes| - 1], v, TimeoutSigners(st) + {vote.author},
                    TwoChainTimeoutSigners(st) + {vote.author})
  {
    var front := votes[..|votes| - 1];
    LastStep(votes, v);
    if front != [] {
      NoErrors(front, v, 0);
    }
    InsertAnswers(Run(front, v).0, votes[|votes| - 1], v);
  }

  // ----- Timeout certificates over runs -----

  ghost predicate TcAnswered(results: seq<VoteReceptionResult>) {
    exists i :: 0 <= i < |results| && results[i].NewTimeoutCertificate?
  }

  ghost predicate TwoChainTcAnswered(results: seq<VoteReceptionResult>) {
    exists i :: 0 <= i < |results| && results[i].New2ChainTimeoutCertificate?
  }

  lemma {:induction false} AnsweredExtends(results: seq<VoteReceptionResult>, r: VoteReceptionResult)
    ensures TcAnswered(results + [r]) <==> TcAnswered(results) || r.NewTimeoutCertificate?
    ensures TwoChainTcAnswered(results + [r]) <==> TwoChainTcAnswered(results) || r.New2ChainTimeoutCertificate?
  {
    var all := results + [r];
    assert all[|results|] == r && forall i :: 0 <= i < |results| ==> all[i] == results[i];
  }

  lemma {:induction false} SignersGrow(st: Pending, vote: Vote, v: ValidatorVerifier)
    requires VotesInv(st) && TimeoutsInv(st, v)
    ensures var st' := InsertVote(st, vote, v).0;
            && (TcComplete(st, v) ==> TcComplete(st', v)) && (TwoChainTcComplete(st, v) ==> TwoChainTcComplete(st', v))
  {
    var st' := InsertVote(st, vote, v).0;
    InsertIsStore(st, vote, v);
    InsertKeepsTimeoutsInv(st, vote, v);
    if Screen(st, vote).None? {
      InsertReaches(st, vote, v);
      assert TimeoutSigners(st) <= TimeoutSigners(st') <= v.validators.Keys;
      assert TwoChainTimeoutSigners(st) <= TwoChainTimeoutSigners(st') <= v.validators.Keys;
      PowerMonotone(v.validators, TimeoutSigners(st), TimeoutSigners(st'));
      PowerMonotone(v.validators, TwoChainTimeoutSigners(st), TwoChainTimeoutSigners(st'));
    }
  }

  /** A certificate becomes complete only in the answer that returns it. */
  lemma {:induction false} CompletedIsAnswered(st: Pending, vote: Vote, v: ValidatorVerifier)
    ensures var (st', r) := InsertVote(st, vote, v);
            && (r.NewTimeoutCertificate? <== TcComplete(st', v) && !TcComplete(st, v))
            && (r.New2ChainTimeoutCertificate? <== TwoChainTcComplete(st', v) && !TwoChainTcComplete(st, v))
            && (r.NewTimeoutCertificate? ==> TcComplete(st', v))
            && (r.New2ChainTimeoutCertificate? ==> TwoChainTcComplete(st', v))
  {
  }

  /** A timeout certificate of either kind has been returned exactly when the timeouts under collection
      reach quorum. */
  lemma {:induction false} TimeoutCertExact(votes: seq<Vote>, v: ValidatorVerifier)
    ensures TcAnswered(Run(votes, v).1) <==> TcComplete(Run(votes, v).0, v)
    ensures TwoChainTcAnswered(Run(votes, v).1) <==> TwoChainTcComplete(Run(votes, v).0, v)
  {
    if votes != [] {
      var front, vote := votes[..|votes| - 1], votes[|votes| - 1];
      LastStep(votes, v);
      TimeoutCertExact(front, v);
      SignersGrow(Run(front, v).0, vote, v);
      CompletedIsAnswered(Run(front, v).0, vote, v);
      AnsweredExtends(Run(front, v).1, InsertVote(Run(front, v).0, vote, v).1);
    }
  }

  /** The authors whose stored vote carries a timeout. */
  ghost function TimedOut(st: Pending): set<Address> {
    set a | a in st.authorToVote && st.authorToVote[a].timeoutSignature.Some?
  }

  ghost function TimedOutTwoChain(st: Pending): set<Address> {
    set a | a in st.authorToVote && st.authorToVote[a].twoChainTimeout.Some?
  }

  /** Until a certificate is returned, every stored timeout is collected. */
  lemma {:induction false} AllCollected(votes: seq<Vote>, v: ValidatorVerifier)
    requires KnownAuthors(votes, v) && !TcAnswered(Run(votes, v).1)
    requires forall li :: !Certified(Run(votes, v).1, li)
    ensures TimeoutSigners(Run(votes, v).0) == TimedOut(Run(votes, v).0)
    ensures TwoChainTimeoutSigners(Run(votes, v).0) == TimedOutTwoChain(Run(votes, v).0)
  {
    var st := Run(votes, v).0;
    RunKeepsInv(votes, v);
    TimeoutCertExact(votes, v);
    forall a | a in st.authorToVote
      ensures a in TimedOut(st) ==> a in TimeoutSigners(st)
      ensures a in TimedOutTwoChain(st) ==> a in TwoChainTimeoutSigners(st)
    {
      TimeoutsCollected(votes, v, a);
      QuorumCertExact(votes, v, st.authorToVote[a].ledgerInfo);
    }
  }

  /** Until a certificate is returned, the stored votes alone decide the answer to the next one. */
  lemma {:induction false} AnswerFromStoredVotes(votes: seq<Vote>, v: ValidatorVerifier, vote: Vote)
    requires KnownAuthors(votes + [vote], v) && !TcAnswered(Run(votes, v).1)
    requires forall li :: !Certified(Run(votes, v).1, li)
    ensures var st := Run(votes, v).0;
            Answers(st, vote, InsertVote(st, vote, v).1, v, TimedOut(st) + {vote.author},
                    TimedOutTwoChain(st) + {vote.author})
  {
    assert (votes + [vote])[|votes|] == vote && forall i :: 0 <= i < |votes| ==> (votes + [vote])[i] == votes[i];
    AllCollected(votes, v);
    RunKeepsInv(votes, v);
    if votes != [] {
      NoErrors(votes, v, 0);
    }
    InsertAnswers(Run(votes, v).0, vote, v);
  }
}
