/** The votes of one round collected by one replica (consensus/src/pending_votes.rs). */
module PendingVotes {
  import opened Wrappers
  import opened Validators
  import opened Types

  datatype VoteReceptionResult =
    | VoteAdded(votingPower: nat)
    | DuplicateVote
    | EquivocateVote
    | NewQuorumCertificate(qc: QuorumCert)
    | NewTimeoutCertificate(tc: TimeoutCertificate)
    | New2ChainTimeoutCertificate(twoChainTc: TwoChainTimeoutCertificate)
    | ErrorAddingVote(error: VerifyError)

  /** The digest of a ledger info is the ledger info. */
  datatype Pending = Pending(
    liToVotes: map<LedgerInfo, LedgerInfoWithSignatures>,
    partialTc: Option<TimeoutCertificate>,
    partial2ChainTc: Option<TwoChainTimeoutCertificate>,
    authorToVote: map<Address, Vote>)

  const EMPTY := Pending(map[], None, None, map[])

  // ----- What one insertion does, step by step -----

  /** Whether a vote goes on to be stored, or is answered at once. */
  function Screen(st: Pending, vote: Vote): Option<VoteReceptionResult> {
    if vote.author !in st.authorToVote then None
    else
      var seen := st.authorToVote[vote.author];
      if vote.ledgerInfo != seen.ledgerInfo then Some(EquivocateVote)
      else if vote.IsTimeout() && !seen.IsTimeout() then None
      else Some(DuplicateVote)
  }

  function Signed(st: Pending, li: LedgerInfo): LedgerInfoWithSignatures {
    if li in st.liToVotes then st.liToVotes[li] else LedgerInfoWithSignatures(li, map[])
  }

  function Store(st: Pending, vote: Vote): Pending {
    st.(authorToVote := st.authorToVote[vote.author := vote],
        liToVotes :=
          st.liToVotes[vote.ledgerInfo := Signed(st, vote.ledgerInfo).AddSignature(vote.author, vote.signature)])
  }

  function AddTimeout(st: Pending, vote: Vote): Pending {
    if vote.timeoutSignature.None? then st
    else
      var tc := if st.partialTc.Some? then st.partialTc.value else TimeoutCertificate(vote.GenerateTimeout(), map[]);
      st.(partialTc := Some(tc.AddSignature(vote.author, vote.timeoutSignature.value)))
  }

  function Add2ChainTimeout(st: Pending, vote: Vote): Pending {
    if vote.twoChainTimeout.None? then st
    else
      var (timeout, signature) := vote.twoChainTimeout.value;
      var tc := if st.partial2ChainTc.Some? then st.partial2ChainTc.value
                else TwoChainTimeoutCertificate(timeout, map[]);
      st.(partial2ChainTc := Some(tc.Add(vote.author, timeout, signature)))
  }

  /** The answer to a vote whose timeout was just added, if that settles the matter. */
  function TimeoutAnswer(st: Pending, vote: Vote, v: ValidatorVerifier): Option<VoteReceptionResult> {
    if vote.timeoutSignature.None? || st.partialTc.None? then None
    else
      var power := CheckPower(v, st.partialTc.value.signatures.Keys);
      if power.Ok? then Some(NewTimeoutCertificate(st.partialTc.value))
      else if power.error.TooLittleVotingPower? then None
      else Some(ErrorAddingVote(power.error))
  }

  function TwoChainAnswer(st: Pending, vote: Vote, v: ValidatorVerifier): Option<VoteReceptionResult> {
    if vote.twoChainTimeout.None? || st.partial2ChainTc.None? then None
    else
      var power := CheckPower(v, st.partial2ChainTc.value.signatures.Keys);
      if power.Ok? then Some(New2ChainTimeoutCertificate(st.partial2ChainTc.value))
      else if power.error.TooLittleVotingPower? then None
      else Some(ErrorAddingVote(power.error))
  }

  function InsertVote(st: Pending, vote: Vote, v: ValidatorVerifier): (Pending, VoteReceptionResult) {
    if Screen(st, vote).Some? then (st, Screen(st, vote).value)
    else
      var s1 := Store(st, vote);
      var signed := s1.liToVotes[vote.ledgerInfo];
      var power := CheckPower(v, signed.signatures.Keys);
      if power.Ok? then (s1, NewQuorumCertificate(QuorumCert(vote.voteData, signed)))
      else if !power.error.TooLittleVotingPower? then (s1, ErrorAddingVote(power.error))
      else
        var s2 := AddTimeout(s1, vote);
        var timeoutAnswer := TimeoutAnswer(s2, vote, v);
        if timeoutAnswer.Some? then (s2, timeoutAnswer.value)
        else
          var s3 := Add2ChainTimeout(s2, vote);
          var twoChainAnswer := TwoChainAnswer(s3, vote, v);
          if twoChainAnswer.Some? then (s3, twoChainAnswer.value) else (s3, VoteAdded(power.error.votingPower))
  }

  method CheckKeys(v: ValidatorVerifier, keys: set<Address>) returns (r: Result<(), VerifyError>)
    ensures r == CheckPower(v, keys)
  {
    ElementsOfAscending(keys);
    r := CheckVotingPower(v, Ascending(keys));
  }

  class PendingVotesService {
    var liToVotes: map<LedgerInfo, LedgerInfoWithSignatures>
    var partialTc: Option<TimeoutCertificate>
    var partial2ChainTc: Option<TwoChainTimeoutCertificate>
    var authorToVote: map<Address, Vote>

    function Current(): Pending
      reads this
    {
      Pending(liToVotes, partialTc, partial2ChainTc, authorToVote)
    }

    constructor ()
      ensures Current() == EMPTY
    {
      liToVotes, partialTc, partial2ChainTc, authorToVote := map[], None, None, map[];
    }

    /** Adds the timeout of the vote, and answers if that settles the matter. */
    method CollectTimeout(vote: Vote, v: ValidatorVerifier) returns (answer: Option<VoteReceptionResult>)
      modifies this`partialTc
      ensures Current() == AddTimeout(old(Current()), vote)
      ensures answer == TimeoutAnswer(Current(), vote, v)
    {
      if vote.timeoutSignature.None? {
        return None;
      }
      if partialTc.None? {
        partialTc := Some(TimeoutCertificate(vote.GenerateTimeout(), map[]));
      }
      partialTc := Some(partialTc.value.AddSignature(vote.author, vote.timeoutSignature.value));
      var power := CheckKeys(v, partialTc.value.signatures.Keys);
      if power.Ok? {
        return Some(NewTimeoutCertificate(partialTc.value));
      }
      return if power.error.TooLittleVotingPower? then None else Some(ErrorAddingVote(power.error));
    }

    method Collect2ChainTimeout(vote: Vote, v: ValidatorVerifier) returns (answer: Option<VoteReceptionResult>)
      modifies this`partial2ChainTc
      ensures Current() == Add2ChainTimeout(old(Current()), vote)
      ensures answer == TwoChainAnswer(Current(), vote, v)
    {
      if vote.twoChainTimeout.None? {
        return None;
      }
      var (timeout, signature) := vote.twoChainTimeout.value;
      if partial2ChainTc.None? {
        partial2ChainTc := Some(TwoChainTimeoutCertificate(timeout, map[]));
      }
      partial2ChainTc := Some(partial2ChainTc.value.Add(vote.author, timeout, signature));
      var power := CheckKeys(v, partial2ChainTc.value.signatures.Keys);
      if power.Ok? {
        return Some(New2ChainTimeoutCertificate(partial2ChainTc.value));
      }
      return if power.error.TooLittleVotingPower? then None else Some(ErrorAddingVote(power.error));
    }

    method Insert(vote: Vote, v: ValidatorVerifier) returns (r: VoteReceptionResult)
      modifies this
      ensures (Current(), r) == InsertVote(old(Current()), vote, v)
    {
      if vote.author in authorToVote {
        var seen := authorToVote[vote.author];
        if vote.ledgerInfo == seen.ledgerInfo {
          var newTimeoutVote := vote.IsTimeout() && !seen.IsTimeout();
          if !newTimeoutVote {
            return DuplicateVote;
          }
        } else {
          return EquivocateVote;
        }
      }
      authorToVote := authorToVote[vote.author := vote];

      var signed := if vote.ledgerInfo in liToVotes then liToVotes[vote.ledgerInfo]
                    else LedgerInfoWithSignatures(vote.ledgerInfo, map[]);
      signed := signed.AddSignature(vote.author, vote.signature);
      liToVotes := liToVotes[vote.ledgerInfo := signed];
      var power := CheckKeys(v, signed.signatures.Keys);
      if power.Ok? {
        return NewQuorumCertificate(QuorumCert(vote.voteData, signed));
      }
      if !power.error.TooLittleVotingPower? {
        return ErrorAddingVote(power.error);
      }

      var timeoutAnswer := CollectTimeout(vote, v);
      if timeoutAnswer.Some? {
        return timeoutAnswer.value;
      }
      var twoChainAnswer := Collect2ChainTimeout(vote, v);
      if twoChainAnswer.Some? {
        return twoChainAnswer.value;
      }
      return VoteAdded(power.error.votingPower);
    }
  }

  // ----- Runs -----

  /** The state after a sequence of insertions into an empty collector, and their answers. */
  function Run(votes: seq<Vote>, v: ValidatorVerifier): (r: (Pending, seq<VoteReceptionResult>))
    ensures |r.1| == |votes|
  {
    if votes == [] then (EMPTY, [])
    else
      var (st, results) := Run(votes[..|votes| - 1], v);
      var (st', result) := InsertVote(st, votes[|votes| - 1], v);
      (st', results + [result])
  }

  /** The authors whose stored vote is for `li`. */
  function VotersFor(st: Pending, li: LedgerInfo): set<Address> {
    set a | a in st.authorToVote && st.authorToVote[a].ledgerInfo == li
  }

  function Signers(st: Pending, li: LedgerInfo): set<Address> {
    Signed(st, li).signatures.Keys
  }

  ghost predicate ReachesQuorum(st: Pending, li: LedgerInfo, v: ValidatorVerifier) {
    li in st.liToVotes && CheckPower(v, Signers(st, li)).Ok?
  }

  function TimeoutSigners(st: Pending): set<Address> {
    if st.partialTc.None? then {} else st.partialTc.value.signatures.Keys
  }

  function TwoChainTimeoutSigners(st: Pending): set<Address> {
    if st.partial2ChainTc.None? then {} else st.partial2ChainTc.value.signatures.Keys
  }

  /** `a` has signed for `li` exactly when its stored vote is for `li`. */
  ghost predicate SignerIsVoter(st: Pending, li: LedgerInfo, a: Address) {
    a in Signers(st, li) <==> a in st.authorToVote && st.authorToVote[a].ledgerInfo == li
  }

  ghost predicate VotesInv(st: Pending) {
    && (forall li :: li in st.liToVotes ==> st.liToVotes[li].ledgerInfo == li && st.liToVotes[li].signatures != map[])
    && (forall li, a :: SignerIsVoter(st, li, a))
    && (forall a :: a in st.authorToVote ==> st.authorToVote[a].author == a)
  }

  /** The stored vote of `a` carries the two-chain timeout that is in the certificate under collection. */
  ghost predicate TwoChainTimeoutStored(st: Pending, a: Address) {
    && a in st.authorToVote && st.authorToVote[a].twoChainTimeout.Some?
    && st.partial2ChainTc.Some? && a in st.partial2ChainTc.value.signatures
    && var (timeout, signature) := st.authorToVote[a].twoChainTimeout.value;
       st.partial2ChainTc.value.signatures[a] == (timeout.HqcRound(), signature)
  }

  /** A timeout signer is a known validator whose stored vote carries the timeout. */
  ghost predicate TimeoutsInv(st: Pending, v: ValidatorVerifier) {
    && (forall a :: a in TimeoutSigners(st) ==>
                      a in v.validators && a in st.authorToVote && st.authorToVote[a].timeoutSignature.Some?)
    && (forall a :: a in TwoChainTimeoutSigners(st) ==> a in v.validators && TwoChainTimeoutStored(st, a))
  }

  lemma {:induction false} StoreEffect(st: Pending, vote: Vote)
    requires VotesInv(st) && Screen(st, vote).None?
    ensures VotesInv(Store(st, vote))
    ensures Signers(Store(st, vote), vote.ledgerInfo) == Signers(st, vote.ledgerInfo) + {vote.author}
    ensures forall li :: li != vote.ledgerInfo ==> Signed(Store(st, vote), li) == Signed(st, li)
  {
    var s1 := Store(st, vote);
    forall li, a
      ensures SignerIsVoter(s1, li, a)
    {
      assert SignerIsVoter(st, li, a);
    }
  }

  /** Storing is the only thing that touches votes and ledger infos. */
  lemma {:induction false} InsertIsStore(st: Pending, vote: Vote, v: ValidatorVerifier)
    ensures var st' := InsertVote(st, vote, v).0;
            if Screen(st, vote).Some? then st' == st
            else st'.liToVotes == Store(st, vote).liToVotes && st'.authorToVote == Store(st, vote).authorToVote
  {
  }

  lemma {:induction false} InsertKeepsVotesInv(st: Pending, vote: Vote, v: ValidatorVerifier)
    requires VotesInv(st)
    ensures VotesInv(InsertVote(st, vote, v).0)
  {
    InsertIsStore(st, vote, v);
    if Screen(st, vote).None? {
      StoreEffect(st, vote);
      var (s1, st') := (Store(st, vote), InsertVote(st, vote, v).0);
      forall li, a
        ensures SignerIsVoter(st', li, a)
      {
        assert SignerIsVoter(s1, li, a);
      }
    }
  }

  /** Past the quorum check only votes of a ledger info with known signers go on. */
  lemma {:induction false} InsertReaches(st: Pending, vote: Vote, v: ValidatorVerifier)
    requires Screen(st, vote).None?
    ensures var s1 := Store(st, vote); var s2 := AddTimeout(s1, vote); var s3 := Add2ChainTimeout(s2, vote);
            var st' := InsertVote(st, vote, v).0;
            st' == s1 || (Signers(s1, vote.ledgerInfo) <= v.validators.Keys && (st' == s2 || st' == s3))
  {
  }

  lemma {:induction false} StoreKeepsTimeoutsInv(st: Pending, vote: Vote, v: ValidatorVerifier)
    requires VotesInv(st) && TimeoutsInv(st, v) && Screen(st, vote).None?
    ensures TimeoutsInv(Store(st, vote), v)
  {
    assert vote.author in st.authorToVote ==> !st.authorToVote[vote.author].IsTimeout();
  }

  lemma {:induction false} AddingKeepsTimeoutsInv(st: Pending, vote: Vote, v: ValidatorVerifier)
    requires TimeoutsInv(st, v)
    requires vote.author in v.validators && vote.author in st.authorToVote && st.authorToVote[vote.author] == vote
    ensures TimeoutsInv(AddTimeout(st, vote), v) && TimeoutsInv(Add2ChainTimeout(st, vote), v)
  {
  }

  lemma {:induction false} InsertKeepsTimeoutsInv(st: Pending, vote: Vote, v: ValidatorVerifier)
    requires VotesInv(st) && TimeoutsInv(st, v)
    ensures TimeoutsInv(InsertVote(st, vote, v).0, v)
  {
    if Screen(st, vote).None? {
      StoreEffect(st, vote);
      StoreKeepsTimeoutsInv(st, vote, v);
      InsertReaches(st, vote, v);
      var s1 := Store(st, vote);
      if Signers(s1, vote.ledgerInfo) <= v.validators.Keys {
        AddingKeepsTimeoutsInv(s1, vote, v);
        AddingKeepsTimeoutsInv(AddTimeout(s1, vote), vote, v);
      }
    }
  }

  lemma {:induction false} RunKeepsInv(votes: seq<Vote>, v: ValidatorVerifier)
    ensures VotesInv(Run(votes, v).0) && TimeoutsInv(Run(votes, v).0, v)
  {
    if votes != [] {
      RunKeepsInv(votes[..|votes| - 1], v);
      InsertKeepsVotesInv(Run(votes[..|votes| - 1], v).0, votes[|votes| - 1], v);
      InsertKeepsTimeoutsInv(Run(votes[..|votes| - 1], v).0, votes[|votes| - 1], v);
    }
  }
}
