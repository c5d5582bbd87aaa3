/** The voter side of a replica: proposals, local timeouts, new rounds and restarts
    (consensus/src/round_manager.rs, consensus/src/liveness/round_state.rs). */
module RoundManager {
  import opened Wrappers
  import opened Validators
  import opened Types
  import opened EpochChange
  import opened SafetyRules
  import opened MetricsSafetyRules
  import Recovery

  /** `voteSent` is the vote recorded for the current round; `savedVote` the last vote written to
      the consensus database. */
  datatype Manager = Manager(
    safety: State,
    currentRound: Round,
    voteSent: Option<Vote>,
    savedVote: Option<Vote>,
    twoChain: bool,
    syncOnly: bool)

  /** What the requests for a vote and for a timeout meet, and how the consensus database behaves,
      during one event. */
  datatype EventIo = EventIo(vote: CallIo, timeout: CallIo, databaseWorks: bool)

  /** What executing a block yields, with the signature of the executor if there is one. */
  datatype Execution = Execution(
    extensionProof: ExtensionProof,
    nextEpochState: Option<EpochState>,
    decoupledExecution: bool,
    signature: Option<Signature<VoteProposal>>)

  function ProposalFor(block: Block, x: Execution): MaybeSignedVoteProposal {
    MaybeSignedVoteProposal(VoteProposal(x.extensionProof, block, x.nextEpochState, x.decoupledExecution), x.signature)
  }

  function RecordVote(m: Manager, vote: Vote): Manager {
    if vote.Round() == m.currentRound then m.(voteSent := Some(vote)) else m
  }

  function VoteRequest(m: Manager, p: MaybeSignedVoteProposal,
                       tc: Option<TwoChainTimeoutCertificate>): (request: Request)
    ensures request.IsVote()
  {
    if m.twoChain then AskVoteTwoChain(p, tc) else AskVote(p)
  }

  /** `execution` is `None` when executing the block or inserting it into the block store failed. */
  function ExecuteAndVote(m: Manager, block: Block, execution: Option<Execution>,
                          tc: Option<TwoChainTimeoutCertificate>, io: EventIo)
    : (Manager, Option<Types.Vote>)
  {
    if execution.None? || m.voteSent.Some? || m.syncOnly then (m, None)
    else
      var (s, r) := Retried(m.safety, VoteRequest(m, ProposalFor(block, execution.value), tc), io.vote);
      var m1 := m.(safety := s);
      if r.Err? || !io.databaseWorks then (m1, None) else (m1.(savedVote := Some(r.value.vote)), Some(r.value.vote))
  }

  /** `acceptable`: from the valid proposer, with a timestamp before the round's deadline. */
  function ProcessProposal(m: Manager, block: Block, acceptable: bool, execution: Option<Execution>,
                           tc: Option<TwoChainTimeoutCertificate>, io: EventIo)
    : (Manager, Option<Types.Vote>)
  {
    if !acceptable then (m, None)
    else
      var (m1, vote) := ExecuteAndVote(m, block, execution, tc, io);
      if vote.None? then (m1, None) else (RecordVote(m1, vote.value), vote)
  }

  function TimeoutFor(vote: Types.Vote, hqc: QuorumCert): TwoChainTimeout {
    TwoChainTimeout(vote.voteData.proposed.epoch, vote.voteData.proposed.round, hqc)
  }

  function TimeoutRequest(m: Manager, vote: Types.Vote, hqc: QuorumCert, tc: Option<TwoChainTimeoutCertificate>)
    : (request: Request)
    ensures !request.IsVote()
  {
    if m.twoChain then AskTimeoutTwoChain(TimeoutFor(vote, hqc), tc) else AskTimeout(vote.GenerateTimeout())
  }

  /** Adds the timeout of the protocol in use to a vote that has none. */
  function SignTimeoutVote(m: Manager, vote: Types.Vote, hqc: QuorumCert, tc: Option<TwoChainTimeoutCertificate>,
                           io: EventIo)
    : (Manager, Option<Types.Vote>)
  {
    if vote.IsTimeout() then (m, Some(vote))
    else
      var (s, r) := Retried(m.safety, TimeoutRequest(m, vote, hqc, tc), io.timeout);
      var m1 := m.(safety := s);
      if r.Err? then (m1, None)
      else if m.twoChain then
        (m1, Some(vote.(twoChainTimeout := Some((TimeoutFor(vote, hqc), r.value.twoChainSignature)))))
      else (m1, Some(vote.(timeoutSignature := Some(r.value.signature))))
  }

  /** The NIL block of a round, on top of the highest certificate; none if that is not below the round
      or the epoch has ended. */
  function GenerateNilBlock(round: Round, hqc: QuorumCert): Option<Block> {
    if hqc.CertifiedBlock().round < round && !hqc.EndsEpoch() then Some(NewNil(round, hqc)) else None
  }

  /** The vote to repeat or, if there is none, a vote for the NIL block. */
  function BackupVote(m: Manager, round: Round, hqc: QuorumCert, execution: Option<Execution>,
                      tc: Option<TwoChainTimeoutCertificate>, io: EventIo)
    : (Manager, Option<Types.Vote>)
  {
    if m.voteSent.Some? && m.voteSent.value.Round() == round then (m, m.voteSent)
    else
      var nil := GenerateNilBlock(round, hqc);
      if nil.None? then (m, None) else ExecuteAndVote(m, nil.value, execution, tc, io)
  }

  /** `hqc` is the highest certificate of the block store, `execution` that of the NIL block. */
  function ProcessLocalTimeout(m: Manager, round: Round, hqc: QuorumCert, execution: Option<Execution>,
                               tc: Option<TwoChainTimeoutCertificate>, io: EventIo)
    : (Manager, Option<Types.Vote>)
  {
    if round != m.currentRound || m.syncOnly then (m, None)
    else
      var (m1, vote) := BackupVote(m, round, hqc, execution, tc, io);
      if vote.None? then (m1, None)
      else
        var (m2, timeoutVote) := SignTimeoutVote(m1, vote.value, hqc, tc, io);
        if timeoutVote.None? then (m2, None) else (RecordVote(m2, timeoutVote.value), timeoutVote)
  }

  function ProcessCertificates(m: Manager, newRound: Round): Manager {
    if newRound > m.currentRound then m.(currentRound := newRound, voteSent := None) else m
  }

  /** A restart loses what is in memory, enters `round` and records the saved vote if it is of the
      root's epoch and of that round. */
  function RestartInto(m: Manager, rootEpoch: nat, round: Round): Manager {
    var m1 := m.(safety := Restart(m.safety), currentRound := round, voteSent := None);
    if m.savedVote.Some? && m.savedVote.value.voteData.proposed.epoch == rootEpoch
    then RecordVote(m1, m.savedVote.value) else m1
  }

  // ----- The stateful component -----

  class RoundManagerService {
    const safetyRules: SafetyRulesService
    var currentRound: Round
    var voteSent: Option<Types.Vote>
    var savedVote: Option<Types.Vote>
    var twoChain: bool
    var syncOnly: bool

    function Current(): Manager
      reads this, safetyRules
    {
      Manager(safetyRules.Current(), currentRound, voteSent, savedVote, twoChain, syncOnly)
    }

    constructor (safetyRules: SafetyRulesService, twoChain: bool, syncOnly: bool)
      ensures this.safetyRules == safetyRules
      ensures Current() == Manager(safetyRules.Current(), 0, None, None, twoChain, syncOnly)
    {
      this.safetyRules := safetyRules;
      currentRound, voteSent, savedVote := 0, None, None;
      this.twoChain, this.syncOnly := twoChain, syncOnly;
    }

    method RecordVoteSent(vote: Types.Vote)
      modifies this`voteSent
      ensures Current() == RecordVote(old(Current()), vote)
    {
      if vote.Round() == currentRound {
        voteSent := Some(vote);
      }
    }

    method ExecuteAndSignVote(block: Block, execution: Option<Execution>, tc: Option<TwoChainTimeoutCertificate>,
                              io: EventIo)
      returns (vote: Option<Types.Vote>)
      modifies this`savedVote, safetyRules
      ensures (Current(), vote) == ExecuteAndVote(old(Current()), block, execution, tc, io)
    {
      if execution.None? || voteSent.Some? || syncOnly {
        return None;
      }
      var p := ProposalFor(block, execution.value);
      var r := Retry(safetyRules, if twoChain then AskVoteTwoChain(p, tc) else AskVote(p), io.vote);
      if r.Err? || !io.databaseWorks {
        return None;
      }
      savedVote := Some(r.value.vote);
      return Some(r.value.vote);
    }

    method HandleProposal(block: Block, acceptable: bool, execution: Option<Execution>,
                          tc: Option<TwoChainTimeoutCertificate>, io: EventIo)
      returns (sent: Option<Types.Vote>)
      modifies this, safetyRules
      ensures (Current(), sent) == ProcessProposal(old(Current()), block, acceptable, execution, tc, io)
    {
      if !acceptable {
        return None;
      }
      sent := ExecuteAndSignVote(block, execution, tc, io);
      if sent.Some? {
        RecordVoteSent(sent.value);
      }
    }

    method SignTimeout(vote: Types.Vote, hqc: QuorumCert, tc: Option<TwoChainTimeoutCertificate>, io: EventIo)
      returns (signed: Option<Types.Vote>)
      modifies safetyRules
      ensures (Current(), signed) == SignTimeoutVote(old(Current()), vote, hqc, tc, io)
    {
      if vote.IsTimeout() {
        return Some(vote);
      }
      if twoChain {
        var timeout := TimeoutFor(vote, hqc);
        var r := Retry(safetyRules, AskTimeoutTwoChain(timeout, tc), io.timeout);
        if r.Err? {
          return None;
        }
        return Some(vote.(twoChainTimeout := Some((timeout, r.value.twoChainSignature))));
      } else {
        var r := Retry(safetyRules, AskTimeout(vote.GenerateTimeout()), io.timeout);
        if r.Err? {
          return None;
        }
        return Some(vote.(timeoutSignature := Some(r.value.signature)));
      }
    }

    method HandleLocalTimeout(round: Round, hqc: QuorumCert, execution: Option<Execution>,
                              tc: Option<TwoChainTimeoutCertificate>, io: EventIo)
      returns (sent: Option<Types.Vote>)
      modifies this, safetyRules
      ensures (Current(), sent) == ProcessLocalTimeout(old(Current()), round, hqc, execution, tc, io)
    {
      if round != currentRound || syncOnly {
        return None;
      }
      if voteSent.Some? && voteSent.value.Round() == round {
        sent := voteSent;
      } else {
        if hqc.CertifiedBlock().round >= round || hqc.EndsEpoch() {
          return None;
        }
        sent := ExecuteAndSignVote(NewNil(round, hqc), execution, tc, io);
      }
      if sent.Some? {
        sent := SignTimeout(sent.value, hqc, tc, io);
      }
      if sent.Some? {
        RecordVoteSent(sent.value);
      }
    }
  }

  // ----- Runs -----

  datatype Event =
    | ProposalEvent(block: Block, acceptable: bool, execution: Option<Execution>,
                    tc: Option<TwoChainTimeoutCertificate>, io: EventIo)
    | LocalTimeoutEvent(round: Round, hqc: QuorumCert, execution: Option<Execution>,
                        tc: Option<TwoChainTimeoutCertificate>, io: EventIo)
    | NewRoundEvent(newRound: Round)
    | RestartEvent(rootEpoch: nat, round: Round)
    | InitializeEvent(refresh: Refresh)
    | ReconfigureEvent(twoChain: bool, syncOnly: bool)

  /** The state after an event and the vote message it sends, if any. */
  function Handle(m: Manager, event: Event): (Manager, Option<Types.Vote>) {
    match event
    case ProposalEvent(block, acceptable, execution, tc, io) =>
      ProcessProposal(m, block, acceptable, execution, tc, io)
    case LocalTimeoutEvent(round, hqc, execution, tc, io) =>
      ProcessLocalTimeout(m, round, hqc, execution, tc, io)
    case NewRoundEvent(newRound) => (ProcessCertificates(m, newRound), None)
    case RestartEvent(rootEpoch, round) => (RestartInto(m, rootEpoch, round), None)
    case InitializeEvent(refresh) => (m.(safety := Refreshed(m.safety, refresh).0), None)
    case ReconfigureEvent(twoChain, syncOnly) => (m.(twoChain := twoChain, syncOnly := syncOnly), None)
  }

  function Run(m: Manager, events: seq<Event>): (Manager, seq<Types.Vote>) {
    if events == [] then (m, [])
    else
      var (m1, sent) := Run(m, events[..|events| - 1]);
      var (m2, vote) := Handle(m1, events[|events| - 1]);
      (m2, if vote.Some? then sent + [vote.value] else sent)
  }

  ghost predicate Fresh(m: Manager) {
    m.voteSent.None? && m.savedVote.None? && m.safety.safetyData.lastVote.None?
  }

  // ----- No equivocation -----

  /** Two votes do not contradict each other. */
  predicate Consistent(one: Types.Vote, two: Types.Vote) {
    one.voteData.proposed.epoch == two.voteData.proposed.epoch && one.Round() == two.Round() ==>
      one.ledgerInfo == two.ledgerInfo
  }

  /** The safety data rules out a vote that contradicts `vote`. */
  predicate Guarded(vote: Types.Vote, sd: SafetyData) {
    var epoch := vote.voteData.proposed.epoch;
    || epoch < sd.epoch
    || (&& epoch == sd.epoch && vote.Round() <= sd.lastVotedRound
        && sd.lastVote.Some? && vote.Round() <= sd.lastVote.value.Round() && Consistent(vote, sd.lastVote.value))
  }

  predicate LastVoteOk(sd: SafetyData) {
    sd.lastVote.Some? ==>
      sd.lastVote.value.voteData.proposed.epoch == sd.epoch && sd.lastVote.value.Round() <= sd.lastVotedRound
  }

  /** The node has said `vote`, or may repeat it. */
  predicate Known(m: Manager, sent: seq<Types.Vote>, vote: Types.Vote) {
    vote in sent || m.voteSent == Some(vote) || m.savedVote == Some(vote)
  }

  ghost predicate VoterInv(m: Manager, sent: seq<Types.Vote>) {
    && LastVoteOk(m.safety.safetyData)
    && (forall one :: Known(m, sent, one) ==> Guarded(one, m.safety.safetyData))
    && (forall one, two :: Known(m, sent, one) && Known(m, sent, two) ==> Consistent(one, two))
    && (m.voteSent.Some? ==> m.voteSent.value.Round() == m.currentRound)
  }

  /** What was guarded stays guarded. */
  ghost predicate KeepsGuards(sd: SafetyData, sd': SafetyData) {
    LastVoteOk(sd') && forall known :: Guarded(known, sd) ==> Guarded(known, sd')
  }

  /** A vote that may be signed agrees with everything guarded. */
  ghost predicate AgreesWithGuarded(sd: SafetyData, vote: Types.Vote, sd': SafetyData) {
    && KeepsGuards(sd, sd') && Guarded(vote, sd')
    && forall known :: Guarded(known, sd) ==> Consistent(known, vote)
  }

  lemma {:induction false} VoteGuards(s: State, p: MaybeSignedVoteProposal, now: nat)
    requires LastVoteOk(s.safetyData) && ConstructVote(s, p, now).Ok?
    ensures var (vote, sd') := ConstructVote(s, p, now).value; AgreesWithGuarded(s.safetyData, vote, sd')
  {
  }

  lemma {:induction false} VoteTwoChainGuards(s: State, p: MaybeSignedVoteProposal,
                                              tc: Option<TwoChainTimeoutCertificate>, now: nat)
    requires LastVoteOk(s.safetyData) && ConstructVoteTwoChain(s, p, tc, now).Ok?
    ensures var (vote, sd') := ConstructVoteTwoChain(s, p, tc, now).value; AgreesWithGuarded(s.safetyData, vote, sd')
  {
  }

  /** One call keeps the guards, and a vote that comes back agrees with everything guarded. */
  lemma {:induction false} ServeGuards(s: State, request: Request, attempt: Attempt)
    requires LastVoteOk(s.safetyData)
    ensures var (s', r) := Serve(s, request, attempt);
            && KeepsGuards(s.safetyData, s'.safetyData)
            && (r.Ok? && request.IsVote() ==>
                  && Guarded(r.value.vote, s'.safetyData)
                  && forall known :: Guarded(known, s.safetyData) ==> Consistent(known, r.value.vote))
  {
    if request.AskVote? {
      if ConstructVote(s, request.p, attempt.now).Ok? {
        VoteGuards(s, request.p, attempt.now);
      }
    } else if request.AskVoteTwoChain? {
      if ConstructVoteTwoChain(s, request.p, request.tc, attempt.now).Ok? {
        VoteTwoChainGuards(s, request.p, request.tc, attempt.now);
      }
    }
  }

  lemma {:induction false} InitializeGuards(s: State, proof: EpochChangeProof, io: InitializeIo)
    requires LastVoteOk(s.safetyData)
    ensures KeepsGuards(s.safetyData, Initialize(s, proof, io).0.safetyData)
  {
    InitializeEffect(s, proof, io);
  }

  lemma {:induction false} InitializedGuards(s: State, storage: Storage, ledgerVersion: nat, io: MetricsSafetyRules.Io)
    requires Bounded(storage, ledgerVersion) && LastVoteOk(s.safetyData)
    ensures KeepsGuards(s.safetyData, Initialized(s, storage, ledgerVersion, io).0.safetyData)
    decreases ledgerVersion - s.waypoint.version
  {
    if storage(s.waypoint.version).Some? {
      var proof := storage(s.waypoint.version).value;
      var (s1, r1) := Initialize(s, proof, io(s.waypoint.version));
      InitializeGuards(s, proof, io(s.waypoint.version));
      if Again(r1) {
        AgainMovesWaypoint(s, storage, ledgerVersion, io);
        InitializedGuards(s1, storage, ledgerVersion, io);
      }
    }
  }

  lemma {:induction false} RefreshedGuards(s: State, refresh: Refresh)
    requires LastVoteOk(s.safetyData)
    ensures KeepsGuards(s.safetyData, Refreshed(s, refresh).0.safetyData)
  {
    if refresh.readable {
      InitializedGuards(s, refresh.storage, refresh.ledgerVersion, refresh.io);
    }
  }

  /** The same of a request that is repeated, into whatever epoch the rules were brought. */
  lemma {:induction false} RetriedGuards(s: State, request: Request, io: CallIo)
    requires LastVoteOk(s.safetyData)
    ensures var (s', r) := Retried(s, request, io);
            && KeepsGuards(s.safetyData, s'.safetyData)
            && (r.Ok? && request.IsVote() ==>
                  && Guarded(r.value.vote, s'.safetyData)
                  && forall known :: Guarded(known, s.safetyData) ==> Consistent(known, r.value.vote))
  {
    ServeGuards(s, request, io.first);
    if Behind(Serve(s, request, io.first).1) {
      BehindChangesNothing(s, request, io.first);
      RefreshedGuards(s, io.refresh);
      ServeGuards(Refreshed(s, io.refresh).0, request, io.second);
    }
  }

  lemma {:induction false} TimeoutGuards(m: Manager, vote: Types.Vote, hqc: QuorumCert,
                                         tc: Option<TwoChainTimeoutCertificate>, io: EventIo)
    requires LastVoteOk(m.safety.safetyData)
    ensures var (m', signed) := SignTimeoutVote(m, vote, hqc, tc, io);
            && KeepsGuards(m.safety.safetyData, m'.safety.safetyData)
            && m' == m.(safety := m'.safety)
            && (signed.Some? ==> signed.value.ledgerInfo == vote.ledgerInfo && signed.value.voteData == vote.voteData)
  {
    RetriedGuards(m.safety, TimeoutRequest(m, vote, hqc, tc), io.timeout);
  }

  lemma {:induction false} ExecuteKeepsInv(m: Manager, sent: seq<Types.Vote>, block: Block,
                                           execution: Option<Execution>,
                                           tc: Option<TwoChainTimeoutCertificate>, io: EventIo)
    requires VoterInv(m, sent)
    ensures var (m', vote) := ExecuteAndVote(m, block, execution, tc, io);
            VoterInv(m', sent) && (vote.Some? ==> m'.savedVote == vote)
  {
    if execution.Some? && m.voteSent.None? && !m.syncOnly {
      RetriedGuards(m.safety, VoteRequest(m, ProposalFor(block, execution.value), tc), io.vote);
      var (m', vote) := ExecuteAndVote(m, block, execution, tc, io);
      forall one | Known(m', sent, one)
        ensures Known(m, sent, one) || Some(one) == vote
      {
      }
    }
  }

  /** Sending a vote that repeats the ledger info of a known one contradicts nothing. */
  lemma {:induction false} SendKeepsInv(m: Manager, sent: seq<Types.Vote>, known: Types.Vote, vote: Types.Vote)
    requires VoterInv(m, sent) && Known(m, sent, known)
    requires vote.ledgerInfo == known.ledgerInfo && vote.voteData == known.voteData
    ensures VoterInv(RecordVote(m, vote), sent + [vote])
  {
    var m' := RecordVote(m, vote);
    forall one | Known(m', sent + [vote], one)
      ensures one == vote || Known(m, sent, one)
    {
    }
  }

  lemma {:induction false} ProposalKeepsInv(m: Manager, sent: seq<Types.Vote>, block: Block, acceptable: bool,
                                            execution: Option<Execution>, tc: Option<TwoChainTimeoutCertificate>,
                                            io: EventIo)
    requires VoterInv(m, sent)
    ensures var (m', vote) := ProcessProposal(m, block, acceptable, execution, tc, io);
            VoterInv(m', if vote.Some? then sent + [vote.value] else sent)
  {
    if acceptable {
      ExecuteKeepsInv(m, sent, block, execution, tc, io);
      var (m1, vote) := ExecuteAndVote(m, block, execution, tc, io);
      if vote.Some? {
        SendKeepsInv(m1, sent, vote.value, vote.value);
      }
    }
  }

  lemma {:induction false} BackupKeepsInv(m: Manager, sent: seq<Types.Vote>, round: Round, hqc: QuorumCert,
                                          execution: Option<Execution>, tc: Option<TwoChainTimeoutCertificate>,
                                          io: EventIo)
    requires VoterInv(m, sent)
    ensures var (m', vote) := BackupVote(m, round, hqc, execution, tc, io);
            VoterInv(m', sent) && (vote.Some? ==> Known(m', sent, vote.value))
  {
    if GenerateNilBlock(round, hqc).Some? {
      ExecuteKeepsInv(m, sent, NewNil(round, hqc), execution, tc, io);
    }
  }

  lemma {:induction false} LocalTimeoutKeepsInv(m: Manager, sent: seq<Types.Vote>, round: Round, hqc: QuorumCert,
                                                execution: Option<Execution>, tc: Option<TwoChainTimeoutCertificate>,
                                                io: EventIo)
    requires VoterInv(m, sent)
    ensures var (m', vote) := ProcessLocalTimeout(m, round, hqc, execution, tc, io);
            VoterInv(m', if vote.Some? then sent + [vote.value] else sent)
  {
    BackupKeepsInv(m, sent, round, hqc, execution, tc, io);
    var (m1, vote) := BackupVote(m, round, hqc, execution, tc, io);
    if vote.Some? {
      TimeoutGuards(m1, vote.value, hqc, tc, io);
      var (m2, timeoutVote) := SignTimeoutVote(m1, vote.value, hqc, tc, io);
      assert forall one :: Known(m2, sent, one) <==> Known(m1, sent, one);
      if timeoutVote.Some? {
        SendKeepsInv(m2, sent, vote.value, timeoutVote.value);
      }
    }
  }

  lemma {:induction false} HandleKeepsInv(m: Manager, sent: seq<Types.Vote>, event: Event)
    requires VoterInv(m, sent)
    ensures var (m', vote) := Handle(m, event); VoterInv(m', if vote.Some? then sent + [vote.value] else sent)
  {
    match event
    case ProposalEvent(block, acceptable, execution, tc, io) =>
      ProposalKeepsInv(m, sent, block, acceptable, execution, tc, io);
    case LocalTimeoutEvent(round, hqc, execution, tc, io) =>
      LocalTimeoutKeepsInv(m, sent, round, hqc, execution, tc, io);
    case NewRoundEvent(newRound) =>
      assert forall one :: Known(ProcessCertificates(m, newRound), sent, one) ==> Known(m, sent, one);
    case RestartEvent(rootEpoch, round) =>
      assert forall one :: Known(RestartInto(m, rootEpoch, round), sent, one) ==> Known(m, sent, one);
    case InitializeEvent(refresh) =>
      RefreshedGuards(m.safety, refresh);
      assert forall one :: Known(Handle(m, event).0, sent, one) ==> Known(m, sent, one);
    case ReconfigureEvent(twoChain, syncOnly) =>
      assert forall one :: Known(Handle(m, event).0, sent, one) ==> Known(m, sent, one);
  }

  lemma {:induction false} RunKeepsInv(m: Manager, events: seq<Event>)
    requires Fresh(m)
    ensures VoterInv(Run(m, events).0, Run(m, events).1)
  {
    if events != [] {
      var front := events[..|events| - 1];
      RunKeepsInv(m, front);
      HandleKeepsInv(Run(m, front).0, Run(m, front).1, events[|events| - 1]);
    }
  }

  /** In every run of proposals, local timeouts, failures, new rounds, epochs and restarts, the vote
      messages a node sends in a round all carry the same ledger info. */
  lemma {:induction false} VoterNeverEquivocates(m: Manager, events: seq<Event>, i: nat, j: nat)
    requires Fresh(m)
    requires i < |Run(m, events).1| && j < |Run(m, events).1|
    ensures Consistent(Run(m, events).1[i], Run(m, events).1[j])
  {
    RunKeepsInv(m, events);
    var (m', sent) := Run(m, events);
    assert Known(m', sent, sent[i]) && Known(m', sent, sent[j]);
  }

  // ----- What is repeated -----

  /** After a restart the recorded vote is the one that recovery returned, if it is of the round entered,
      and otherwise there is none. */
  lemma {:induction false} RestartRecordsRecovered(m: Manager, ledger: LedgerInfoWithSignatures, s: Recovery.Stored,
                                                   meta: Recovery.RootMetadata, l: Recovery.Liveness, round: Round)
    requires Recovery.Recovered(ledger, s, meta, l).Ok? && l.lastVote == m.savedVote
    ensures var d := Recovery.Recovered(ledger, s, meta, l).value;
            var m' := RestartInto(m, d.root.block.data.epoch, round);
            && m'.currentRound == round && m'.savedVote == m.savedVote && m'.safety == Restart(m.safety)
            && forall vote :: m'.voteSent == Some(vote) <==> d.liveness.lastVote == Some(vote) && vote.Round() == round
  {
    Recovery.RecoversLiveness(ledger, s, meta, l);
  }

  /** The vote of the current round, perhaps with a timeout added since. */
  ghost predicate Holds(m: Manager, vote: Types.Vote) {
    && m.voteSent.Some? && m.voteSent.value.ledgerInfo == vote.ledgerInfo
    && m.voteSent.value.voteData == vote.voteData && vote.Round() == m.currentRound
  }

  /** Rounds only go up, and a certificate of a later round is followed at once. */
  lemma {:induction false} RoundsGrow(m: Manager, event: Event)
    requires !event.RestartEvent?
    ensures Handle(m, event).0.currentRound >= m.currentRound
    ensures event.NewRoundEvent? ==> Handle(m, event).0.currentRound == Max(m.currentRound, event.newRound)
  {
  }

  /** The event neither restarts the replica nor takes it to another round. */
  ghost predicate StaysInRound(m: Manager, event: Event) {
    !event.RestartEvent? && Handle(m, event).0.currentRound == m.currentRound
  }

  /** A vote that was recorded stays so until the round ends, and whatever is sent meanwhile repeats it. */
  lemma {:induction false} VoteHeld(m: Manager, event: Event, vote: Types.Vote)
    requires Holds(m, vote) && StaysInRound(m, event)
    ensures Holds(Handle(m, event).0, vote)
    ensures var sent := Handle(m, event).1;
            sent.Some? ==> sent.value.ledgerInfo == vote.ledgerInfo && sent.value.voteData == vote.voteData
  {
  }

  /** What the rules are asked for: a vote for the block as it was executed, and a timeout of the epoch and
      round of the vote, in the protocol in use. */
  ghost function Asked(m: Manager, block: Block, x: Execution, tc: Option<TwoChainTimeoutCertificate>): (r: Request)
    ensures r.IsVote()
  {
    var p := MaybeSignedVoteProposal(
               VoteProposal(x.extensionProof, block, x.nextEpochState, x.decoupledExecution), x.signature);
    if m.twoChain then AskVoteTwoChain(p, tc) else AskVote(p)
  }

  ghost function AskedForTimeout(m: Manager, vote: Types.Vote, hqc: QuorumCert, tc: Option<TwoChainTimeoutCertificate>)
    : Request
  {
    var info := vote.voteData.proposed;
    if m.twoChain then AskTimeoutTwoChain(TwoChainTimeout(info.epoch, info.round, hqc), tc)
    else AskTimeout(Timeout(info.epoch, info.round))
  }

  /** A local timeout in a round that was voted in sends that vote again, with a timeout: at once if it has
      one, and otherwise exactly if the rules sign it. */
  lemma {:induction false} TimeoutRepeatsVote(m: Manager, vote: Types.Vote, hqc: QuorumCert,
                                              execution: Option<Execution>, tc: Option<TwoChainTimeoutCertificate>,
                                              io: EventIo)
    requires Holds(m, vote) && !m.syncOnly
    ensures var (m', sent) := ProcessLocalTimeout(m, m.currentRound, hqc, execution, tc, io);
            && (sent.Some? <==> m.voteSent.value.IsTimeout()
                                || Retried(m.safety, AskedForTimeout(m, m.voteSent.value, hqc, tc), io.timeout).1.Ok?)
            && (sent.Some? ==> sent.value.IsTimeout() && m'.voteSent == sent && Holds(m', vote))
  {
  }

  /** A local timeout in a round that was not voted in votes for the NIL block of the round on the highest
      certificate, if that is below the round and does not end the epoch, and sends the vote with a timeout. */
  lemma {:induction false} TimeoutVotesNil(m: Manager, hqc: QuorumCert, execution: Option<Execution>,
                                           tc: Option<TwoChainTimeoutCertificate>, io: EventIo)
    requires m.voteSent.None? && !m.syncOnly
    ensures var (m', sent) := ProcessLocalTimeout(m, m.currentRound, hqc, execution, tc, io);
            if hqc.CertifiedBlock().round >= m.currentRound || hqc.CommitInfo().nextEpochState.Some?
               || execution.None? then m' == m && sent.None?
            else if !io.databaseWorks then sent.None?
            else
              var parent := hqc.CertifiedBlock();
              var nil := Block(BlockData(parent.epoch, m.currentRound, parent.timestamp, hqc, NilBlock), None);
              var (s1, vote) := Retried(m.safety, Asked(m, nil, execution.value, tc), io.vote);
              if vote.Err? then sent.None?
              else if vote.value.vote.IsTimeout() then sent == Some(vote.value.vote)
              else
                && (sent.Some? <==> Retried(s1, AskedForTimeout(m, vote.value.vote, hqc, tc), io.timeout).1.Ok?)
                && (sent.Some? ==> sent.value.IsTimeout() && sent.value.ledgerInfo == vote.value.vote.ledgerInfo)
  {
  }

  /** A proposal is voted for, and the vote recorded if it is of the round, exactly if it is acceptable and
      executed, nothing was voted for in the round, and the rules and the database say yes. */
  lemma {:induction false} ProposalVotedIff(m: Manager, block: Block, acceptable: bool, execution: Option<Execution>,
                                            tc: Option<TwoChainTimeoutCertificate>, io: EventIo)
    ensures var (m', sent) := ProcessProposal(m, block, acceptable, execution, tc, io);
            && (sent.Some? <==>
                  && acceptable && execution.Some? && m.voteSent.None? && !m.syncOnly && io.databaseWorks
                  && Retried(m.safety, Asked(m, block, execution.value, tc), io.vote).1.Ok?)
            && (sent.Some? ==> m'.savedVote == sent && (m'.voteSent == sent <==> sent.value.Round() == m.currentRound))
            && (sent.None? ==> m'.savedVote == m.savedVote && m'.voteSent == m.voteSent)
  {
  }
}
