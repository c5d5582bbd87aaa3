/** The part of a validator that holds its key and decides what it may sign
    (consensus/safety-rules/src/safety_rules.rs, safety_rules_2chain.rs). */
module SafetyRules {
  import opened Wrappers
  import opened Validators
  import opened Types
  import opened EpochChange

  datatype SafetyData = SafetyData(
    epoch: nat,
    lastVotedRound: Round,
    preferredRound: Round,
    oneChainRound: Round,
    lastVote: Option<Vote>)

  datatype Signer = Signer(author: Address, publicKey: PublicKey)

  datatype Error =
    | NotInitialized
    | IncorrectEpoch(epoch: nat, expected: nat)
    | IncorrectRound(round: Round)
    | IncorrectLastVotedRound(round: Round, lastVotedRound: Round)
    | IncorrectPreferredRound(round: Round, preferredRound: Round)
    | InvalidAccumulatorExtension
    | InvalidEpochChangeProof
    | InvalidLedgerInfo
    | InvalidProposal
    | InvalidQuorumCertificate
    | InvalidTimeoutCertificate
    | InternalError
    | VoteProposalSignatureNotFound
    | NotSafeToVote(round: Round, qcRound: Round, tcRound: Round, hqcRound: Round)
    | NotSafeToTimeout(round: Round, qcRound: Round, tcRound: Round, oneChainRound: Round)
    | ValidatorNotInSet
    | ValidatorKeyNotFound
    | WaypointOutOfDate(previousVersion: nat, currentVersion: nat, currentEpoch: nat, providedEpoch: nat)
    | SecureStorageUnexpectedError
    | SigningFailed

  /** How the secure storage behaves during one call: whether the safety data can be read, whether
      the key signs, and whether the new safety data is written. */
  datatype SecureIo = SecureIo(readable: bool, signs: bool, writable: bool)

  /** Where the key that a validator set expects is looked up. */
  datatype KeyLookup = KeyFound | KeyMissing | KeyUnreadable

  /** How the secure storage behaves while an epoch is entered, operation by operation. */
  datatype InitializeIo = InitializeIo(
    readsWaypoint: bool,
    writesWaypoint: bool,
    readsData: bool,
    writesData: bool,
    readsAuthor: bool,
    key: KeyLookup)
  {
    /** Nothing fails; the key may still be missing. */
    predicate Works() {
      readsWaypoint && writesWaypoint && readsData && writesData && readsAuthor
    }
  }

  /** `author`, `waypoint` and `safetyData` are persistent; the epoch state and the signer live in
      memory and are set by `Initialize`. */
  datatype State = State(
    author: Address,
    waypoint: Waypoint,
    safetyData: SafetyData,
    epochState: Option<EpochState>,
    signer: Option<Signer>,
    executionKey: Option<PublicKey>)

  datatype MaybeSignedVoteProposal = MaybeSignedVoteProposal(
    voteProposal: VoteProposal,
    signature: Option<Signature<VoteProposal>>)

  function NextRound(round: Round): Result<Round, Error> {
    if round == U64_MAX then Err(IncorrectRound(round)) else Ok(round + 1)
  }

  function Max(a: nat, b: nat): nat {
    if a < b then b else a
  }

  // ----- Validity checks -----

  function VerifyEpoch(s: State, epoch: nat): Result<(), Error> {
    Ensure(epoch == s.safetyData.epoch, IncorrectEpoch(epoch, s.safetyData.epoch))
  }

  function VerifyQc(s: State, qc: QuorumCert): Result<(), Error> {
    if s.epochState.None? then Err(NotInitialized)
    else Ensure(qc.Verify(s.epochState.value.verifier), InvalidQuorumCertificate)
  }

  function VerifyTc(s: State, tc: Option<TwoChainTimeoutCertificate>): Result<(), Error> {
    if tc.None? then Ok(())
    else if s.epochState.None? then Err(NotInitialized)
    else Ensure(tc.value.Verify(s.epochState.value.verifier), InvalidTimeoutCertificate)
  }

  function VerifyExecutionSignature(s: State, p: MaybeSignedVoteProposal): Result<(), Error> {
    if s.executionKey.None? then Ok(())
    else if p.signature.None? then Err(VoteProposalSignatureNotFound)
    else Ensure(p.signature.value == Signature(s.executionKey.value, p.voteProposal), InternalError)
  }

  function VerifyProposal(s: State, p: MaybeSignedVoteProposal, now: nat): Result<VoteData, Error> {
    var block := p.voteProposal.block;
    var _ :- VerifyExecutionSignature(s, p);
    var _ :- VerifyEpoch(s, block.data.epoch);
    var _ :- VerifyQc(s, block.data.quorumCert);
    var _ :- Ensure(block.ValidateSignature(s.epochState.value.verifier), InvalidProposal);
    var _ :- Ensure(block.WellFormed(now), InvalidProposal);
    var voteData := p.voteProposal.GenVoteData();
    if voteData.None? then Err(InvalidAccumulatorExtension) else Ok(voteData.value)
  }

  // ----- Voting rules -----

  function ObserveQc(sd: SafetyData, qc: QuorumCert): SafetyData {
    sd.(oneChainRound := Max(sd.oneChainRound, qc.CertifiedBlock().round),
        preferredRound := Max(sd.preferredRound, qc.ParentBlock().round))
  }

  /** First voting rule: rounds voted in go up. */
  function UpdateLastVotedRound(sd: SafetyData, round: Round): Result<SafetyData, Error> {
    if round <= sd.lastVotedRound then Err(IncorrectLastVotedRound(round, sd.lastVotedRound))
    else Ok(sd.(lastVotedRound := round))
  }

  /** Second voting rule: the parent is at least as high as the highest two-chain head seen. */
  function UpdatePreferredRound(sd: SafetyData, qc: QuorumCert): Result<SafetyData, Error> {
    if qc.CertifiedBlock().round < sd.preferredRound then
      Err(IncorrectPreferredRound(qc.CertifiedBlock().round, sd.preferredRound))
    else Ok(ObserveQc(sd, qc))
  }

  /** The three-chain rule commits the grandparent when three rounds are consecutive. */
  function ConstructLedgerInfo(block: BlockData, voteData: VoteData): Result<LedgerInfo, Error> {
    var qc := block.quorumCert;
    var block1 := qc.CertifiedBlock().round;
    var after0 :- NextRound(qc.ParentBlock().round);
    var after1 :- if after0 == block1 then NextRound(block1) else Ok(0);
    var commit := after0 == block1 && after1 == block.round;
    Ok(LedgerInfo(if commit then qc.ParentBlock() else EMPTY_BLOCK_INFO, HashOf(voteData)))
  }

  /** The two-chain rule commits the parent when two rounds are consecutive. */
  function ConstructLedgerInfoTwoChain(block: BlockData, voteData: VoteData): Result<LedgerInfo, Error> {
    var qc := block.quorumCert;
    var after0 :- NextRound(qc.CertifiedBlock().round);
    Ok(LedgerInfo(if after0 == block.round then qc.CertifiedBlock() else EMPTY_BLOCK_INFO, HashOf(voteData)))
  }

  function TcRound(tc: Option<TwoChainTimeoutCertificate>): Round {
    if tc.None? then 0 else tc.value.timeout.round
  }

  function TcHqcRound(tc: Option<TwoChainTimeoutCertificate>): Round {
    if tc.None? then 0 else tc.value.timeout.HqcRound()
  }

  function SafeToVote(block: BlockData, tc: Option<TwoChainTimeoutCertificate>): Result<(), Error> {
    var qcRound := block.quorumCert.CertifiedBlock().round;
    var afterQc :- NextRound(qcRound);
    if block.round == afterQc then Ok(())
    else
      var afterTc :- NextRound(TcRound(tc));
      Ensure(block.round == afterTc && qcRound >= TcHqcRound(tc),
             NotSafeToVote(block.round, qcRound, TcRound(tc), TcHqcRound(tc)))
  }

  function SafeToTimeout(t: TwoChainTimeout, tc: Option<TwoChainTimeoutCertificate>, sd: SafetyData): Result<(), Error>
  {
    var error := NotSafeToTimeout(t.round, t.HqcRound(), TcRound(tc), sd.oneChainRound);
    var afterQc :- NextRound(t.HqcRound());
    if t.round == afterQc then Ensure(t.HqcRound() >= sd.oneChainRound, error)
    else
      var afterTc :- NextRound(TcRound(tc));
      Ensure(t.round == afterTc && t.HqcRound() >= sd.oneChainRound, error)
  }

  // ----- What may be signed, and the safety data persisted with it -----

  function SignVote(s: State, sd: SafetyData, voteData: VoteData, ledgerInfo: LedgerInfo): (Vote, SafetyData)
    requires s.signer.Some?
  {
    var vote := NewVote(voteData, s.signer.value.author, ledgerInfo, Signature(s.signer.value.publicKey, ledgerInfo));
    (vote, sd.(lastVote := Some(vote)))
  }

  predicate VotedAlready(sd: SafetyData, round: Round) {
    sd.lastVote.Some? && sd.lastVote.value.Round() == round
  }

  function ConstructVote(s: State, p: MaybeSignedVoteProposal, now: nat): Result<(Vote, SafetyData), Error> {
    var _ :- Ensure(s.signer.Some?, NotInitialized);
    var voteData :- VerifyProposal(s, p, now);
    var block := p.voteProposal.block.data;
    if VotedAlready(s.safetyData, block.round) then Ok((s.safetyData.lastVote.value, s.safetyData))
    else
      var preferred :- UpdatePreferredRound(s.safetyData, block.quorumCert);
      var voted :- UpdateLastVotedRound(preferred, block.round);
      var ledgerInfo :- ConstructLedgerInfo(block, voteData);
      Ok(SignVote(s, voted, voteData, ledgerInfo))
  }

  function ConstructVoteTwoChain(s: State, p: MaybeSignedVoteProposal, tc: Option<TwoChainTimeoutCertificate>, now: nat)
    : Result<(Vote, SafetyData), Error>
  {
    var _ :- Ensure(s.signer.Some?, NotInitialized);
    var voteData :- VerifyProposal(s, p, now);
    var _ :- VerifyTc(s, tc);
    var block := p.voteProposal.block.data;
    if VotedAlready(s.safetyData, block.round) then Ok((s.safetyData.lastVote.value, s.safetyData))
    else
      var voted :- UpdateLastVotedRound(s.safetyData, block.round);
      var _ :- SafeToVote(block, tc);
      var ledgerInfo :- ConstructLedgerInfoTwoChain(block, voteData);
      Ok(SignVote(s, ObserveQc(voted, block.quorumCert), voteData, ledgerInfo))
  }

  function TimeoutData(sd: SafetyData, round: Round): Result<SafetyData, Error> {
    if round < sd.lastVotedRound then Err(IncorrectLastVotedRound(round, sd.lastVotedRound))
    else Ok(sd.(lastVotedRound := round))
  }

  function ConstructTimeout(s: State, t: Timeout): Result<(Signature<Timeout>, SafetyData), Error> {
    var _ :- Ensure(s.signer.Some?, NotInitialized);
    var _ :- VerifyEpoch(s, t.epoch);
    var _ :- Ensure(t.round > s.safetyData.preferredRound,
                    IncorrectPreferredRound(t.round, s.safetyData.preferredRound));
    var sd :- TimeoutData(s.safetyData, t.round);
    Ok((Signature(s.signer.value.publicKey, t), sd))
  }

  function ConstructTimeoutTwoChain(s: State, t: TwoChainTimeout, tc: Option<TwoChainTimeoutCertificate>)
    : Result<(Signature<TimeoutSigningRepr>, SafetyData), Error>
  {
    var _ :- Ensure(s.signer.Some?, NotInitialized);
    var _ :- VerifyEpoch(s, t.epoch);
    var _ :- VerifyQc(s, t.quorumCert);
    var _ :- VerifyTc(s, tc);
    var _ :- SafeToTimeout(t, tc, s.safetyData);
    var sd :- TimeoutData(s.safetyData, t.round);
    Ok((Signature(s.signer.value.publicKey, t.SigningFormat()), sd))
  }

  /** The safety data stored and the answer to a request for a vote, given what may be signed. The
      key signs first, and a vote leaves only after the safety data that forbids a second one is
      stored. */
  function VoteOutcome(s: State, p: MaybeSignedVoteProposal, r: Result<(Vote, SafetyData), Error>, io: SecureIo)
    : (SafetyData, Result<Vote, Error>)
  {
    if s.signer.None? then (s.safetyData, Err(NotInitialized))
    else if VerifyExecutionSignature(s, p).Err? then (s.safetyData, Err(VerifyExecutionSignature(s, p).error))
    else if !io.readable then (s.safetyData, Err(SecureStorageUnexpectedError))
    else if r.Err? then (s.safetyData, Err(r.error))
    else if r.value.1 == s.safetyData then (s.safetyData, Ok(r.value.0))
    else if !io.signs then (s.safetyData, Err(SigningFailed))
    else if !io.writable then (s.safetyData, Err(SecureStorageUnexpectedError))
    else (r.value.1, Ok(r.value.0))
  }

  /** For a timeout the safety data is stored first; the key may fail after that. */
  function TimeoutOutcome<T>(s: State, r: Result<(T, SafetyData), Error>, io: SecureIo): (SafetyData, Result<T, Error>)
  {
    if s.signer.None? then (s.safetyData, Err(NotInitialized))
    else if !io.readable then (s.safetyData, Err(SecureStorageUnexpectedError))
    else if r.Err? then (s.safetyData, Err(r.error))
    else if r.value.1 != s.safetyData && !io.writable then (s.safetyData, Err(SecureStorageUnexpectedError))
    else if !io.signs then (r.value.1, Err(SigningFailed))
    else (r.value.1, Ok(r.value.0))
  }

  // ----- Entering an epoch -----

  /** The signer after the set `es` was installed. */
  function ReconcileKey(s: State, es: EpochState, io: InitializeIo): (State, Result<(), Error>) {
    if !io.readsAuthor then (s, Err(SecureStorageUnexpectedError))
    else if s.author !in es.verifier.validators then (s.(signer := None), Err(ValidatorNotInSet))
    else
      var key := es.verifier.validators[s.author].publicKey;
      if s.signer.Some? && s.signer.value.publicKey == key then (s, Ok(()))
      else
        match io.key
        case KeyFound => (s.(signer := Some(Signer(s.author, key))), Ok(()))
        case KeyMissing => (s.(signer := None), Err(ValidatorKeyNotFound))
        case KeyUnreadable => (s.(signer := None), Err(SecureStorageUnexpectedError))
  }

  /** The waypoint moves first, then the safety data, then what is in memory; a failing storage
      leaves what was already done. */
  function Initialize(s: State, proof: EpochChangeProof, io: InitializeIo): (State, Result<(), Error>) {
    var lastLi := VerifyProof(ByWaypoint(s.waypoint), proof.lis);
    if !io.readsWaypoint then (s, Err(SecureStorageUnexpectedError))
    else if lastLi.Err? then (s, Err(InvalidEpochChangeProof))
    else if Next(lastLi.value).None? then (s, Err(InvalidLedgerInfo))
    else
      var es := Next(lastLi.value).value;
      var newWaypoint := NewAny(lastLi.value.ledgerInfo);
      var moves := newWaypoint.version > s.waypoint.version;
      if moves && !io.writesWaypoint then (s, Err(SecureStorageUnexpectedError))
      else
        var s1 := if moves then s.(waypoint := newWaypoint) else s;
        if !io.readsData then (s1, Err(SecureStorageUnexpectedError))
        else if s.safetyData.epoch > es.epoch then
          (s1, Err(WaypointOutOfDate(s.waypoint.version, newWaypoint.version, s.safetyData.epoch, es.epoch)))
        else if s.safetyData.epoch < es.epoch && !io.writesData then (s1, Err(SecureStorageUnexpectedError))
        else
          var s2 := if s.safetyData.epoch < es.epoch then s1.(safetyData := SafetyData(es.epoch, 0, 0, 0, None))
                    else s1;
          ReconcileKey(s2.(epochState := Some(es)), es, io)
  }

  /** All that initializing can do to the safety data, the epoch state and the signer. */
  lemma {:induction false} InitializeEffect(s: State, proof: EpochChangeProof, io: InitializeIo)
    ensures var s' := Initialize(s, proof, io).0;
            && s'.author == s.author
            && (s'.safetyData == s.safetyData
                || (s'.safetyData.epoch > s.safetyData.epoch && s'.safetyData.lastVote.None?))
            && (|| (s'.epochState == s.epochState && s'.safetyData == s.safetyData && s'.signer == s.signer)
                || (&& s'.epochState.Some? && s'.epochState.value.epoch == s'.safetyData.epoch
                    && var validators := s'.epochState.value.verifier.validators;
                       || s'.signer.None?
                       || s'.signer == s.signer
                       || (s.author in validators
                          && s'.signer.value == Signer(s.author, validators[s.author].publicKey))))
  {
  }

  /** A restart keeps what is persistent. */
  function Restart(s: State): State {
    s.(epochState := None, signer := None)
  }

  // ----- The stateful component -----

  class SafetyRulesService {
    var author: Address
    var waypoint: Waypoint
    var safetyData: SafetyData
    var epochState: Option<EpochState>
    var signer: Option<Signer>
    var executionKey: Option<PublicKey>

    function Current(): State
      reads this
    {
      State(author, waypoint, safetyData, epochState, signer, executionKey)
    }

    constructor (author: Address, waypoint: Waypoint, executionKey: Option<PublicKey>)
      ensures Current() == State(author, waypoint, SafetyData(1, 0, 0, 0, None), None, None, executionKey)
    {
      this.author, this.waypoint, this.executionKey := author, waypoint, executionKey;
      safetyData := SafetyData(1, 0, 0, 0, None);
      epochState, signer := None, None;
    }

    /** Persists `data`, or reports the storage error and leaves the old data in place. */
    method SetSafetyData(data: SafetyData, io: SecureIo) returns (r: Result<(), Error>)
      modifies this`safetyData
      ensures r == Ensure(io.writable, SecureStorageUnexpectedError)
      ensures safetyData == if io.writable then data else old(safetyData)
    {
      if !io.writable {
        return Err(SecureStorageUnexpectedError);
      }
      safetyData := data;
      return Ok(());
    }

    method ReadSafetyData(io: SecureIo) returns (r: Result<(), Error>)
      ensures r == Ensure(io.readable, SecureStorageUnexpectedError)
    {
      return Ensure(io.readable, SecureStorageUnexpectedError);
    }

    method GuardedConstructAndSignVote(p: MaybeSignedVoteProposal, now: nat, io: SecureIo)
      returns (r: Result<Vote, Error>)
      modifies this`safetyData
      ensures (safetyData, r) == VoteOutcome(old(Current()), p, ConstructVote(old(Current()), p, now), io)
    {
      if signer.None? {
        return Err(NotInitialized);
      }
      var _ :- VerifyExecutionSignature(Current(), p);
      var _ :- ReadSafetyData(io);
      var voteData :- VerifyProposal(Current(), p, now);
      var block := p.voteProposal.block.data;
      var data := safetyData;
      if VotedAlready(data, block.round) {
        return Ok(data.lastVote.value);
      }
      data :- UpdatePreferredRound(data, block.quorumCert);
      data :- UpdateLastVotedRound(data, block.round);
      var ledgerInfo :- ConstructLedgerInfo(block, voteData);
      if !io.signs {
        return Err(SigningFailed);
      }
      var vote := NewVote(voteData, signer.value.author, ledgerInfo, Signature(signer.value.publicKey, ledgerInfo));
      data := data.(lastVote := Some(vote));
      var _ :- SetSafetyData(data, io);
      return Ok(vote);
    }

    method GuardedConstructAndSignVoteTwoChain(p: MaybeSignedVoteProposal, tc: Option<TwoChainTimeoutCertificate>,
                                               now: nat, io: SecureIo)
      returns (r: Result<Vote, Error>)
      modifies this`safetyData
      ensures (safetyData, r) == VoteOutcome(old(Current()), p, ConstructVoteTwoChain(old(Current()), p, tc, now), io)
    {
      if signer.None? {
        return Err(NotInitialized);
      }
      var _ :- VerifyExecutionSignature(Current(), p);
      var _ :- ReadSafetyData(io);
      var voteData :- VerifyProposal(Current(), p, now);
      var _ :- VerifyTc(Current(), tc);
      var block := p.voteProposal.block.data;
      var data := safetyData;
      if VotedAlready(data, block.round) {
        return Ok(data.lastVote.value);
      }
      data :- UpdateLastVotedRound(data, block.round);
      var _ :- SafeToVote(block, tc);
      data := ObserveQc(data, block.quorumCert);
      var ledgerInfo :- ConstructLedgerInfoTwoChain(block, voteData);
      if !io.signs {
        return Err(SigningFailed);
      }
      var vote := NewVote(voteData, signer.value.author, ledgerInfo, Signature(signer.value.publicKey, ledgerInfo));
      data := data.(lastVote := Some(vote));
      var _ :- SetSafetyData(data, io);
      return Ok(vote);
    }

    method GuardedSignTimeout(t: Timeout, io: SecureIo) returns (r: Result<Signature<Timeout>, Error>)
      modifies this`safetyData
      ensures (safetyData, r) == TimeoutOutcome(old(Current()), ConstructTimeout(old(Current()), t), io)
    {
      if signer.None? {
        return Err(NotInitialized);
      }
      var _ :- ReadSafetyData(io);
      var data := safetyData;
      var _ :- VerifyEpoch(Current(), t.epoch);
      if t.round <= data.preferredRound {
        return Err(IncorrectPreferredRound(t.round, data.preferredRound));
      }
      if t.round < data.lastVotedRound {
        return Err(IncorrectLastVotedRound(t.round, data.lastVotedRound));
      }
      if t.round > data.lastVotedRound {
        data := UpdateLastVotedRound(data, t.round).value;
        var _ :- SetSafetyData(data, io);
      }
      if !io.signs {
        return Err(SigningFailed);
      }
      return Ok(Signature(signer.value.publicKey, t));
    }

    method GuardedSignTimeoutWithQc(t: TwoChainTimeout, tc: Option<TwoChainTimeoutCertificate>, io: SecureIo)
      returns (r: Result<Signature<TimeoutSigningRepr>, Error>)
      modifies this`safetyData
      ensures (safetyData, r) == TimeoutOutcome(old(Current()), ConstructTimeoutTwoChain(old(Current()), t, tc), io)
    {
      if signer.None? {
        return Err(NotInitialized);
      }
      var _ :- ReadSafetyData(io);
      var data := safetyData;
      var _ :- VerifyEpoch(Current(), t.epoch);
      var _ :- VerifyQc(Current(), t.quorumCert);
      var _ :- VerifyTc(Current(), tc);
      var _ :- SafeToTimeout(t, tc, data);
      if t.round < data.lastVotedRound {
        return Err(IncorrectLastVotedRound(t.round, data.lastVotedRound));
      }
      if t.round > data.lastVotedRound {
        data := UpdateLastVotedRound(data, t.round).value;
        var _ :- SetSafetyData(data, io);
      }
      if !io.signs {
        return Err(SigningFailed);
      }
      return Ok(Signature(signer.value.publicKey, t.SigningFormat()));
    }

    method GuardedInitialize(proof: EpochChangeProof, io: InitializeIo) returns (r: Result<(), Error>)
      modifies this
      ensures (Current(), r) == Initialize(old(Current()), proof, io)
    {
      if !io.readsWaypoint {
        return Err(SecureStorageUnexpectedError);
      }
      var lastLi := EpochChange.Verify(ByWaypoint(waypoint), proof);
      if lastLi.Err? {
        return Err(InvalidEpochChangeProof);
      }
      if Next(lastLi.value).None? {
        return Err(InvalidLedgerInfo);
      }
      var es := Next(lastLi.value).value;
      var oldVersion := waypoint.version;
      var newWaypoint := NewAny(lastLi.value.ledgerInfo);
      if newWaypoint.version > waypoint.version {
        if !io.writesWaypoint {
          return Err(SecureStorageUnexpectedError);
        }
        waypoint := newWaypoint;
      }
      if !io.readsData {
        return Err(SecureStorageUnexpectedError);
      }
      var currentEpoch := safetyData.epoch;
      if currentEpoch > es.epoch {
        return Err(WaypointOutOfDate(oldVersion, newWaypoint.version, currentEpoch, es.epoch));
      }
      if currentEpoch < es.epoch {
        if !io.writesData {
          return Err(SecureStorageUnexpectedError);
        }
        safetyData := SafetyData(es.epoch, 0, 0, 0, None);
      }
      epochState := Some(es);
      r := Reconcile(es, io);
    }

    /** Finds the key that the set expects; a failure other than an unreadable author drops the signer. */
    method Reconcile(es: EpochState, io: InitializeIo) returns (r: Result<(), Error>)
      modifies this`signer
      ensures (Current(), r) == ReconcileKey(old(Current()), es, io)
    {
      if !io.readsAuthor {
        return Err(SecureStorageUnexpectedError);
      }
      if author !in es.verifier.validators {
        r := Err(ValidatorNotInSet);
      } else {
        var key := es.verifier.validators[author].publicKey;
        if signer.Some? && signer.value.publicKey == key {
          return Ok(());
        }
        if io.key.KeyFound? {
          signer := Some(Signer(author, key));
          return Ok(());
        }
        r := Err(if io.key.KeyMissing? then ValidatorKeyNotFound else SecureStorageUnexpectedError);
      }
      signer := None;
    }
  }
}
