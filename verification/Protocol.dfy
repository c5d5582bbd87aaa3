/** Runs of the honest validators' safety rules against an adversary that controls the network and
    every other validator, and the invariant those runs keep. */
module Protocol {
  import opened Wrappers
  import opened Validators
  import opened Types
  import opened EpochChange
  import opened SafetyRules

  /** What a validator has signed, in the order it was allowed to. */
  datatype Entry =
    | Voted(block: BlockData, vote: Vote, tc: Option<TwoChainTimeoutCertificate>)
    | TimedOut(timeout: Timeout)
    | TimedOutTwoChain(twoChainTimeout: TwoChainTimeout)
  {
    function Epoch(): nat {
      match this
      case Voted(block, _, _) => block.epoch
      case TimedOut(t) => t.epoch
      case TimedOutTwoChain(t) => t.epoch
    }

    function Round(): Round {
      match this
      case Voted(block, _, _) => block.round
      case TimedOut(t) => t.round
      case TimedOutTwoChain(t) => t.round
    }
  }

  datatype Node = Node(state: State, log: seq<Entry>)

  /** The honest validators. Everybody else is the adversary. */
  datatype World = World(nodes: map<Address, Node>)

  /** The validator set of every epoch, whether the epoch runs the two-chain protocol, whether its
      blocks are executed before they are voted for, and who is honest. */
  datatype Config = Config(
    epochStates: nat -> EpochState,
    twoChain: nat -> bool,
    coupled: nat -> bool,
    honest: set<Address>)

  ghost predicate ValidEpoch(cfg: Config, e: nat) {
    var es := cfg.epochStates(e);
    && es.epoch == e
    && FaultBound(es.verifier, cfg.honest)
    // an honest validator is registered with the key only it holds
    && forall a :: a in cfg.honest && a in es.verifier.validators ==> es.verifier.validators[a].publicKey == a
  }

  ghost predicate ValidConfig(cfg: Config) {
    forall e: nat :: ValidEpoch(cfg, e)
  }

  /** One validator, honest, in every epoch. */
  ghost function SoleConfig(twoChain: nat -> bool, coupled: nat -> bool): Config {
    Config((e: nat) => EpochState(e, SOLE_VALIDATOR), twoChain, coupled, {1})
  }

  lemma {:induction false} ConfigExists(twoChain: nat -> bool, coupled: nat -> bool)
    ensures ValidConfig(SoleConfig(twoChain, coupled))
  {
    SoleValidatorQuorum();
  }

  function VerifierOf(cfg: Config, e: nat): ValidatorVerifier {
    cfg.epochStates(e).verifier
  }

  // ----- Unforgeability -----

  ghost predicate HasVoted(n: Node, li: LedgerInfo) {
    exists k :: 0 <= k < |n.log| && n.log[k].Voted? && n.log[k].vote.ledgerInfo == li
  }

  ghost predicate HasTimedOut(n: Node, t: TimeoutSigningRepr) {
    exists k :: 0 <= k < |n.log| && n.log[k].TimedOutTwoChain? && n.log[k].twoChainTimeout.SigningFormat() == t
  }

  /** Every signature under an honest key was made by its holder. */
  ghost predicate LiDerivable(w: World, lis: LedgerInfoWithSignatures) {
    forall b :: b in lis.signatures && lis.signatures[b].publicKey in w.nodes ==>
                  HasVoted(w.nodes[lis.signatures[b].publicKey], lis.signatures[b].message)
  }

  ghost predicate QcDerivable(w: World, qc: QuorumCert) {
    LiDerivable(w, qc.signedLedgerInfo)
  }

  ghost predicate ProofDerivable(w: World, proof: EpochChangeProof) {
    forall i :: 0 <= i < |proof.lis| ==> LiDerivable(w, proof.lis[i])
  }

  ghost predicate TcDerivable(w: World, tc: TwoChainTimeoutCertificate) {
    forall b :: b in tc.signatures && tc.signatures[b].1.publicKey in w.nodes ==>
                  HasTimedOut(w.nodes[tc.signatures[b].1.publicKey], tc.signatures[b].1.message)
  }

  // ----- Steps -----

  datatype Call =
    | CallVote(p: MaybeSignedVoteProposal, now: nat)
    | CallVoteTwoChain(p: MaybeSignedVoteProposal, tc: Option<TwoChainTimeoutCertificate>, now: nat)
    | CallTimeout(timeout: Timeout)
    | CallTimeoutTwoChain(twoChainTimeout: TwoChainTimeout, tc: Option<TwoChainTimeoutCertificate>)
    | CallInitialize(proof: EpochChangeProof, io: InitializeIo)
    | CallRestart

  /** A request for a vote: either nothing is stored (refused, or the storage failed), or the new
      safety data is stored. A vote sent back a second time is already in the log. */
  ghost predicate SignsVote(n: Node, n': Node, r: Result<(Vote, SafetyData), Error>, entry: Entry) {
    || n' == n
    || (r.Ok? && n' == Node(n.state.(safetyData := r.value.1),
                            if r.value.1 == n.state.safetyData then n.log else n.log + [entry]))
  }

  /** A request for a timeout: the key may fail after the new safety data is stored. */
  ghost predicate SignsTimeout<T>(n: Node, n': Node, r: Result<(T, SafetyData), Error>, entry: Entry) {
    || n' == n
    || (&& r.Ok? && n'.state == n.state.(safetyData := r.value.1)
        && (n'.log == n.log || n'.log == n.log + [entry]))
  }

  function EntryFor(r: Result<(Vote, SafetyData), Error>, block: BlockData, tc: Option<TwoChainTimeoutCertificate>)
    : Entry
  {
    if r.Ok? then Voted(block, r.value.0, tc) else TimedOut(Timeout(0, 0))
  }

  /** The caller chooses the arguments freely within unforgeability. The votes are in the protocol and
      in the mode of execution that the epoch runs. */
  ghost predicate NodeStep(cfg: Config, w: World, n: Node, n': Node, call: Call) {
    var epoch := n.state.safetyData.epoch;
    match call
    case CallVote(p, now) =>
      && !cfg.twoChain(epoch) && p.voteProposal.decoupledExecution == !cfg.coupled(epoch)
      && QcDerivable(w, p.voteProposal.block.data.quorumCert)
      && var r := ConstructVote(n.state, p, now);
         SignsVote(n, n', r, EntryFor(r, p.voteProposal.block.data, None))
    case CallVoteTwoChain(p, tc, now) =>
      && cfg.twoChain(epoch) && p.voteProposal.decoupledExecution == !cfg.coupled(epoch)
      && QcDerivable(w, p.voteProposal.block.data.quorumCert)
      && (tc.Some? ==> TcDerivable(w, tc.value))
      && var r := ConstructVoteTwoChain(n.state, p, tc, now);
         SignsVote(n, n', r, EntryFor(r, p.voteProposal.block.data, tc))
    case CallTimeout(t) =>
      !cfg.twoChain(epoch) && SignsTimeout(n, n', ConstructTimeout(n.state, t), TimedOut(t))
    case CallTimeoutTwoChain(t, tc) =>
      cfg.twoChain(epoch) && SignsTimeout(n, n', ConstructTimeoutTwoChain(n.state, t, tc), TimedOutTwoChain(t))
    case CallInitialize(proof, io) =>
      ProofDerivable(w, proof) && n' == n.(state := Initialize(n.state, proof, io).0)
    case CallRestart =>
      n' == n.(state := Restart(n.state))
  }

  /** The epoch state that an epoch-change proof installs is the one of its epoch. */
  ghost predicate KnownSet(cfg: Config, s: State) {
    s.epochState.Some? ==> s.epochState.value == cfg.epochStates(s.epochState.value.epoch)
  }

  ghost predicate Step(cfg: Config, w: World, w': World) {
    exists a, call, n' ::
      && a in w.nodes && NodeStep(cfg, w, w.nodes[a], n', call) && w' == World(w.nodes[a := n'])
      && KnownSet(cfg, n'.state)
  }

  ghost predicate Initial(cfg: Config, w: World) {
    && w.nodes.Keys == cfg.honest
    && forall a :: a in w.nodes ==>
         && w.nodes[a].log == []
         && w.nodes[a].state.author == a
         && w.nodes[a].state.safetyData == SafetyData(1, 0, 0, 0, None)
         && w.nodes[a].state.epochState.None? && w.nodes[a].state.signer.None?
  }

  ghost predicate StepAt(cfg: Config, run: seq<World>, i: nat)
    requires i + 1 < |run|
  {
    Step(cfg, run[i], run[i + 1])
  }

  ghost predicate IsRun(cfg: Config, run: seq<World>) {
    && run != [] && Initial(cfg, run[0])
    && forall i: nat :: i + 1 < |run| ==> StepAt(cfg, run, i)
  }

  lemma {:induction false} RunGrows(cfg: Config, run: seq<World>, w': World)
    requires IsRun(cfg, run) && Step(cfg, run[|run| - 1], w')
    ensures IsRun(cfg, run + [w'])
  {
    var run' := run + [w'];
    forall i: nat | i + 1 < |run'|
      ensures StepAt(cfg, run', i)
    {
      assert i + 1 < |run| ==> StepAt(cfg, run, i);
    }
  }

  // ----- The invariant -----

  /** What a vote for a block commits, by rounds: under the three-chain rule the grandparent if the three
      rounds are consecutive, under the two-chain rule the parent if the two rounds are. */
  function CommittedWith(twoChain: bool, block: BlockData): BlockInfo {
    var parent, grandparent := block.quorumCert.CertifiedBlock(), block.quorumCert.ParentBlock();
    if twoChain then
      if parent.round + 1 == block.round then parent else EMPTY_BLOCK_INFO
    else
      if grandparent.round + 1 == parent.round && parent.round + 1 == block.round then grandparent
      else EMPTY_BLOCK_INFO
  }

  /** How a block may continue the one it builds on: in time, without transactions once the epoch was
      ended, and not at all once that end was committed. */
  ghost predicate FollowsParent(block: BlockData) {
    var parent := block.quorumCert.CertifiedBlock();
    && !block.blockType.Genesis? && block.quorumCert.CommitInfo().nextEpochState.None?
    && (if block.blockType.NilBlock? || parent.nextEpochState.Some? then block.timestamp == parent.timestamp
        else parent.timestamp < block.timestamp)
    && (block.blockType.Proposal? && parent.nextEpochState.Some? ==> block.blockType.payload == [])
  }

  /** What a signed vote says, and the checks that preceded it. */
  ghost predicate EntryOk(cfg: Config, a: Address, entry: Entry) {
    entry.Voted? ==>
      var Voted(block, vote, tc) := entry;
      var vd := vote.voteData;
      var verifier := VerifierOf(cfg, block.epoch);
      && vote.author == a && vote.signature == Signature(a, vote.ledgerInfo)
      && vote.timeoutSignature.None? && vote.twoChainTimeout.None?
      && vd.proposed.id == HashOf(block) && vd.proposed.epoch == block.epoch && vd.proposed.round == block.round
      && vd.parent == block.quorumCert.CertifiedBlock()
      && (cfg.coupled(block.epoch) ==>
            && vd.parent.executedStateId <= vd.proposed.executedStateId
            && vd.proposed.version == AccumulatorVersion(vd.proposed.executedStateId))
      && (!cfg.coupled(block.epoch) ==> vd.proposed.version == 0)
      && vd.parent.epoch == block.epoch && vd.parent.round < block.round
      && block.quorumCert.Verify(verifier)
      && vd.proposed.timestamp == block.timestamp && FollowsParent(block)
      && vote.ledgerInfo == LedgerInfo(CommittedWith(cfg.twoChain(block.epoch), block), HashOf(vd))
      && if cfg.twoChain(block.epoch) then SafeToVote(block, tc).Ok? && (tc.Some? ==> tc.value.Verify(verifier))
         else tc.None?
  }

  /** The safety data remembers what matters of an entry of its epoch. */
  ghost predicate Covered(entry: Entry, sd: SafetyData) {
    && entry.Round() <= sd.lastVotedRound
    && (entry.Voted? ==>
          && entry.block.quorumCert.ParentBlock().round <= sd.preferredRound
          && entry.block.quorumCert.CertifiedBlock().round <= sd.oneChainRound)
  }

  /** How an entry constrains a later one of the same epoch. */
  ghost predicate Ordered(cfg: Config, early: Entry, late: Entry) {
    && (late.Voted? ==> early.Round() < late.Round())
    && (early.Voted? && late.Voted? && !cfg.twoChain(early.Epoch()) ==>
          late.block.quorumCert.CertifiedBlock().round >= early.block.quorumCert.ParentBlock().round)
    && (early.Voted? && late.TimedOutTwoChain? ==>
          late.twoChainTimeout.HqcRound() >= early.block.quorumCert.CertifiedBlock().round)
  }

  ghost predicate StateInv(cfg: Config, a: Address, s: State) {
    && s.author == a
    && (s.signer.Some? ==> s.signer.value == Signer(a, a))
    && (s.epochState.Some? ==> s.epochState.value == cfg.epochStates(s.safetyData.epoch))
  }

  ghost predicate LogInv(cfg: Config, a: Address, log: seq<Entry>, sd: SafetyData) {
    && (forall k :: 0 <= k < |log| ==> EntryOk(cfg, a, log[k]) && log[k].Epoch() <= sd.epoch)
    && (forall k :: 0 <= k < |log| && log[k].Epoch() == sd.epoch ==> Covered(log[k], sd))
    && (forall i, j :: 0 <= i < j < |log| && log[i].Epoch() == log[j].Epoch() ==> Ordered(cfg, log[i], log[j]))
    && (sd.lastVote.Some? ==> InLog(log, sd.epoch, sd.lastVote.value))
  }

  ghost predicate InLog(log: seq<Entry>, epoch: nat, vote: Vote) {
    exists k :: 0 <= k < |log| && log[k].Voted? && log[k].vote == vote && log[k].Epoch() == epoch
  }

  ghost predicate NodeInv(cfg: Config, a: Address, n: Node) {
    StateInv(cfg, a, n.state) && LogInv(cfg, a, n.log, n.state.safetyData)
  }

  /** The certificates an honest vote rests on were themselves derivable. */
  ghost predicate EntryDerivable(w: World, entry: Entry) {
    entry.Voted? ==>
      QcDerivable(w, entry.block.quorumCert) && (entry.tc.Some? ==> TcDerivable(w, entry.tc.value))
  }

  ghost predicate AllDerivable(w: World) {
    forall a, k :: a in w.nodes && 0 <= k < |w.nodes[a].log| ==> EntryDerivable(w, w.nodes[a].log[k])
  }

  ghost predicate WorldInv(cfg: Config, w: World) {
    && w.nodes.Keys == cfg.honest
    && (forall a :: a in w.nodes ==> NodeInv(cfg, a, w.nodes[a]))
    && AllDerivable(w)
  }

  // ----- Preservation -----

  lemma {:induction false} AppendKeepsLastVote(log: seq<Entry>, sd: SafetyData, entry: Entry, sd': SafetyData)
    requires sd.lastVote.Some? ==> InLog(log, sd.epoch, sd.lastVote.value)
    requires entry.Epoch() == sd.epoch == sd'.epoch
    requires sd'.lastVote == sd.lastVote || (entry.Voted? && sd'.lastVote == Some(entry.vote))
    ensures sd'.lastVote.Some? ==> InLog(log + [entry], sd'.epoch, sd'.lastVote.value)
  {
    var log' := log + [entry];
    if sd'.lastVote.Some? {
      if sd'.lastVote == sd.lastVote {
        var k :| 0 <= k < |log| && log[k].Voted? && log[k].vote == sd.lastVote.value && log[k].Epoch() == sd.epoch;
        assert log'[k] == log[k];
      } else {
        assert log'[|log|] == entry;
      }
    }
  }

  lemma {:induction false} AppendKeepsLogInv(cfg: Config, a: Address, log: seq<Entry>, sd: SafetyData, entry: Entry,
                                             sd': SafetyData)
    requires LogInv(cfg, a, log, sd)
    requires EntryOk(cfg, a, entry) && entry.Epoch() == sd.epoch == sd'.epoch
    requires Covered(entry, sd')
    requires sd.lastVotedRound <= sd'.lastVotedRound && sd.preferredRound <= sd'.preferredRound
             && sd.oneChainRound <= sd'.oneChainRound
    requires forall early :: Covered(early, sd) && early.Epoch() == sd.epoch ==> Ordered(cfg, early, entry)
    requires sd'.lastVote == sd.lastVote || (entry.Voted? && sd'.lastVote == Some(entry.vote))
    ensures LogInv(cfg, a, log + [entry], sd')
  {
    var log' := log + [entry];
    forall i, j | 0 <= i < j < |log'| && log'[i].Epoch() == log'[j].Epoch()
      ensures Ordered(cfg, log'[i], log'[j])
    {
      if j == |log| {
        assert Covered(log[i], sd);
      }
    }
    AppendKeepsLastVote(log, sd, entry, sd');
  }

  /** What a successful proposal check established. */
  lemma {:induction false} VerifiedProposal(cfg: Config, a: Address, s: State, p: MaybeSignedVoteProposal, now: nat)
    requires StateInv(cfg, a, s) && p.voteProposal.decoupledExecution == !cfg.coupled(s.safetyData.epoch)
    requires VerifyProposal(s, p, now).Ok?
    ensures var block := p.voteProposal.block.data; var vd := VerifyProposal(s, p, now).value;
            && block.epoch == s.safetyData.epoch
            && vd.proposed.id == HashOf(block) && vd.proposed.epoch == block.epoch && vd.proposed.round == block.round
            && vd.parent == block.quorumCert.CertifiedBlock()
            && (cfg.coupled(block.epoch) ==>
                  && vd.parent.executedStateId <= vd.proposed.executedStateId
                  && vd.proposed.version == AccumulatorVersion(vd.proposed.executedStateId))
            && (!cfg.coupled(block.epoch) ==> vd.proposed.version == 0)
            && vd.parent.epoch == block.epoch && vd.parent.round < block.round
            && vd.proposed.timestamp == block.timestamp && FollowsParent(block)
            && s.epochState.Some? && s.epochState.value.verifier == VerifierOf(cfg, block.epoch)
            && block.quorumCert.Verify(VerifierOf(cfg, block.epoch))
  {
  }

  lemma {:induction false} VoteKeepsNodeInv(cfg: Config, a: Address, n: Node, p: MaybeSignedVoteProposal, now: nat)
    requires NodeInv(cfg, a, n) && !cfg.twoChain(n.state.safetyData.epoch)
    requires p.voteProposal.decoupledExecution == !cfg.coupled(n.state.safetyData.epoch)
    requires ConstructVote(n.state, p, now).Ok?
    requires ConstructVote(n.state, p, now).value.1 != n.state.safetyData
    ensures var (vote, sd') := ConstructVote(n.state, p, now).value;
            NodeInv(cfg, a, Node(n.state.(safetyData := sd'), n.log + [Voted(p.voteProposal.block.data, vote, None)]))
  {
    var (vote, sd') := ConstructVote(n.state, p, now).value;
    VerifiedProposal(cfg, a, n.state, p, now);
    AppendKeepsLogInv(cfg, a, n.log, n.state.safetyData, Voted(p.voteProposal.block.data, vote, None), sd');
  }

  lemma {:induction false} VoteTwoChainKeepsNodeInv(cfg: Config, a: Address, n: Node, p: MaybeSignedVoteProposal,
                                 tc: Option<TwoChainTimeoutCertificate>, now: nat)
    requires NodeInv(cfg, a, n) && cfg.twoChain(n.state.safetyData.epoch)
    requires p.voteProposal.decoupledExecution == !cfg.coupled(n.state.safetyData.epoch)
    requires ConstructVoteTwoChain(n.state, p, tc, now).Ok?
    requires ConstructVoteTwoChain(n.state, p, tc, now).value.1 != n.state.safetyData
    ensures var (vote, sd') := ConstructVoteTwoChain(n.state, p, tc, now).value;
            NodeInv(cfg, a, Node(n.state.(safetyData := sd'), n.log + [Voted(p.voteProposal.block.data, vote, tc)]))
  {
    var (vote, sd') := ConstructVoteTwoChain(n.state, p, tc, now).value;
    VerifiedProposal(cfg, a, n.state, p, now);
    AppendKeepsLogInv(cfg, a, n.log, n.state.safetyData, Voted(p.voteProposal.block.data, vote, tc), sd');
  }

  /** What a timeout request may store, with or without the signature. */
  ghost predicate TimeoutStores(s: State, entry: Entry, sd': SafetyData) {
    match entry
    case Voted(_, _, _) => false
    case TimedOut(t) => ConstructTimeout(s, t).Ok? && sd' == ConstructTimeout(s, t).value.1
    case TimedOutTwoChain(t) =>
      exists tc :: ConstructTimeoutTwoChain(s, t, tc).Ok? && sd' == ConstructTimeoutTwoChain(s, t, tc).value.1
  }

  lemma {:induction false} TimeoutKeepsNodeInv(cfg: Config, a: Address, n: Node, entry: Entry, sd': SafetyData)
    requires NodeInv(cfg, a, n) && TimeoutStores(n.state, entry, sd')
    ensures NodeInv(cfg, a, Node(n.state.(safetyData := sd'), n.log + [entry]))
  {
    AppendKeepsLogInv(cfg, a, n.log, n.state.safetyData, entry, sd');
  }

  /** Safety data that is stored without a signature only forbids more. */
  lemma {:induction false} UnsignedTimeoutKeepsNodeInv(cfg: Config, a: Address, n: Node, entry: Entry, sd': SafetyData)
    requires NodeInv(cfg, a, n) && TimeoutStores(n.state, entry, sd')
    ensures NodeInv(cfg, a, Node(n.state.(safetyData := sd'), n.log))
  {
  }

  lemma {:induction false} InitializeKeepsNodeInv(cfg: Config, a: Address, n: Node, proof: EpochChangeProof,
                                                  io: InitializeIo)
    requires ValidConfig(cfg) && a in cfg.honest && NodeInv(cfg, a, n)
    requires KnownSet(cfg, Initialize(n.state, proof, io).0)
    ensures NodeInv(cfg, a, n.(state := Initialize(n.state, proof, io).0))
  {
    InitializeEffect(n.state, proof, io);
    var s' := Initialize(n.state, proof, io).0;
    if s'.epochState.Some? {
      assert ValidEpoch(cfg, s'.epochState.value.epoch);
    }
    LaterEpochKeepsLogInv(cfg, a, n.log, n.state.safetyData, s'.safetyData);
  }

  lemma {:induction false} LaterEpochKeepsLogInv(cfg: Config, a: Address, log: seq<Entry>, sd: SafetyData,
                                                 sd': SafetyData)
    requires LogInv(cfg, a, log, sd)
    requires sd' == sd || (sd'.epoch > sd.epoch && sd'.lastVote.None?)
    ensures LogInv(cfg, a, log, sd')
  {
  }

  lemma {:induction false} NodeStepKeepsNodeInv(cfg: Config, w: World, a: Address, n': Node, call: Call)
    requires ValidConfig(cfg) && a in cfg.honest && a in w.nodes && NodeInv(cfg, a, w.nodes[a])
    requires NodeStep(cfg, w, w.nodes[a], n', call) && KnownSet(cfg, n'.state)
    ensures NodeInv(cfg, a, n')
  {
    var n := w.nodes[a];
    match call
    case CallVote(p, now) =>
      if n' != n && ConstructVote(n.state, p, now).value.1 != n.state.safetyData {
        VoteKeepsNodeInv(cfg, a, n, p, now);
      }
    case CallVoteTwoChain(p, tc, now) =>
      if n' != n && ConstructVoteTwoChain(n.state, p, tc, now).value.1 != n.state.safetyData {
        VoteTwoChainKeepsNodeInv(cfg, a, n, p, tc, now);
      }
    case CallTimeout(t) =>
      if n' != n {
        TimeoutKeepsNodeInv(cfg, a, n, TimedOut(t), n'.state.safetyData);
        UnsignedTimeoutKeepsNodeInv(cfg, a, n, TimedOut(t), n'.state.safetyData);
      }
    case CallTimeoutTwoChain(t, tc) =>
      if n' != n {
        TimeoutKeepsNodeInv(cfg, a, n, TimedOutTwoChain(t), n'.state.safetyData);
        UnsignedTimeoutKeepsNodeInv(cfg, a, n, TimedOutTwoChain(t), n'.state.safetyData);
      }
    case CallInitialize(proof, io) =>
      InitializeKeepsNodeInv(cfg, a, n, proof, io);
    case CallRestart =>
  }

  /** A node only ever adds to its log; what it adds rests on derivable certificates. */
  lemma {:induction false} NodeStepGrows(cfg: Config, w: World, a: Address, n': Node, call: Call)
    requires a in w.nodes && NodeStep(cfg, w, w.nodes[a], n', call)
    ensures var log := w.nodes[a].log;
            || n'.log == log
            || (|n'.log| == |log| + 1 && n'.log[..|log|] == log && EntryDerivable(w, n'.log[|log|]))
  {
    var n := w.nodes[a];
    if n'.log != n.log {
      assert n'.log[..|n.log|] == n.log;
    }
  }

  ghost predicate Grows(w: World, w': World) {
    w.nodes.Keys == w'.nodes.Keys && forall a :: a in w.nodes ==> w.nodes[a].log <= w'.nodes[a].log
  }

  lemma {:induction false} VotesPersist(n: Node, n': Node, li: LedgerInfo)
    requires n.log <= n'.log && HasVoted(n, li)
    ensures HasVoted(n', li)
  {
    var k :| 0 <= k < |n.log| && n.log[k].Voted? && n.log[k].vote.ledgerInfo == li;
    assert n'.log[k] == n.log[k];
  }

  lemma {:induction false} TimeoutsPersist(n: Node, n': Node, t: TimeoutSigningRepr)
    requires n.log <= n'.log && HasTimedOut(n, t)
    ensures HasTimedOut(n', t)
  {
    var k :| 0 <= k < |n.log| && n.log[k].TimedOutTwoChain? && n.log[k].twoChainTimeout.SigningFormat() == t;
    assert n'.log[k] == n.log[k];
  }

  lemma {:induction false} LiDerivablePersists(w: World, w': World, lis: LedgerInfoWithSignatures)
    requires Grows(w, w') && LiDerivable(w, lis)
    ensures LiDerivable(w', lis)
  {
    forall b | b in lis.signatures && lis.signatures[b].publicKey in w'.nodes
      ensures HasVoted(w'.nodes[lis.signatures[b].publicKey], lis.signatures[b].message)
    {
      var key := lis.signatures[b].publicKey;
      VotesPersist(w.nodes[key], w'.nodes[key], lis.signatures[b].message);
    }
  }

  lemma {:induction false} ProofDerivablePersists(w: World, w': World, proof: EpochChangeProof)
    requires Grows(w, w') && ProofDerivable(w, proof)
    ensures ProofDerivable(w', proof)
  {
    forall i | 0 <= i < |proof.lis|
      ensures LiDerivable(w', proof.lis[i])
    {
      LiDerivablePersists(w, w', proof.lis[i]);
    }
  }

  lemma {:induction false} TcDerivablePersists(w: World, w': World, tc: TwoChainTimeoutCertificate)
    requires Grows(w, w') && TcDerivable(w, tc)
    ensures TcDerivable(w', tc)
  {
    forall b | b in tc.signatures && tc.signatures[b].1.publicKey in w'.nodes
      ensures HasTimedOut(w'.nodes[tc.signatures[b].1.publicKey], tc.signatures[b].1.message)
    {
      var key := tc.signatures[b].1.publicKey;
      TimeoutsPersist(w.nodes[key], w'.nodes[key], tc.signatures[b].1.message);
    }
  }

  lemma {:induction false} DerivabilityPersists(w: World, w': World, entry: Entry)
    requires Grows(w, w') && EntryDerivable(w, entry)
    ensures EntryDerivable(w', entry)
  {
    if entry.Voted? {
      LiDerivablePersists(w, w', entry.block.quorumCert.signedLedgerInfo);
      if entry.tc.Some? {
        TcDerivablePersists(w, w', entry.tc.value);
      }
    }
  }

  /** One node appended derivable entries to its log. */
  ghost predicate Appends(w: World, a: Address, n': Node) {
    && a in w.nodes && w.nodes[a].log <= n'.log
    && forall k :: |w.nodes[a].log| <= k < |n'.log| ==> EntryDerivable(w, n'.log[k])
  }

  lemma {:induction false} AppendsKeepsDerivable(w: World, a: Address, n': Node)
    requires AllDerivable(w) && Appends(w, a, n')
    ensures AllDerivable(World(w.nodes[a := n'])) && Grows(w, World(w.nodes[a := n']))
  {
    var w' := World(w.nodes[a := n']);
    assert w'.nodes.Keys == w.nodes.Keys;
    forall b, k | b in w'.nodes && 0 <= k < |w'.nodes[b].log|
      ensures EntryDerivable(w', w'.nodes[b].log[k])
    {
      if k < |w.nodes[b].log| {
        assert w'.nodes[b].log[k] == w.nodes[b].log[k];
      }
      DerivabilityPersists(w, w', w'.nodes[b].log[k]);
    }
  }

  lemma {:induction false} NodeStepEffect(cfg: Config, w: World, a: Address, n': Node, call: Call)
    requires ValidConfig(cfg) && WorldInv(cfg, w) && a in w.nodes && NodeStep(cfg, w, w.nodes[a], n', call)
    requires KnownSet(cfg, n'.state)
    ensures NodeInv(cfg, a, n') && Appends(w, a, n')
  {
    NodeStepKeepsNodeInv(cfg, w, a, n', call);
    NodeStepGrows(cfg, w, a, n', call);
  }

  lemma {:induction false} StepKeepsWorldInv(cfg: Config, w: World, w': World)
    requires ValidConfig(cfg) && WorldInv(cfg, w) && Step(cfg, w, w')
    ensures WorldInv(cfg, w') && Grows(w, w')
  {
    var a, call, n' :|
      && a in w.nodes && NodeStep(cfg, w, w.nodes[a], n', call) && w' == World(w.nodes[a := n'])
      && KnownSet(cfg, n'.state);
    NodeStepEffect(cfg, w, a, n', call);
    AppendsKeepsDerivable(w, a, n');
  }

  /** Every reachable state satisfies the invariant. */
  lemma {:induction false} RunKeepsWorldInv(cfg: Config, run: seq<World>, i: nat)
    requires ValidConfig(cfg) && IsRun(cfg, run) && i < |run|
    ensures WorldInv(cfg, run[i])
  {
    if i > 0 {
      RunKeepsWorldInv(cfg, run, i - 1);
      assert StepAt(cfg, run, i - 1);
      StepKeepsWorldInv(cfg, run[i - 1], run[i]);
    }
  }

  /** A node votes once in a round of an epoch. */
  lemma {:induction false} OneVoteEntryPerRound(cfg: Config, a: Address, n: Node, i: nat, j: nat)
    requires NodeInv(cfg, a, n)
    requires i < |n.log| && n.log[i].Voted? && j < |n.log| && n.log[j].Voted?
    requires n.log[i].Epoch() == n.log[j].Epoch() && n.log[i].Round() == n.log[j].Round()
    ensures i == j
  {
    assert i < j ==> Ordered(cfg, n.log[i], n.log[j]);
    assert j < i ==> Ordered(cfg, n.log[j], n.log[i]);
  }

  lemma {:induction false} LoggedHasVoted(log: seq<Entry>, epoch: nat, vote: Vote, n': Node)
    requires InLog(log, epoch, vote) && log <= n'.log
    ensures HasVoted(n', vote.ledgerInfo)
  {
    var k :| 0 <= k < |log| && log[k].Voted? && log[k].vote == vote && log[k].Epoch() == epoch;
    assert n'.log[k] == log[k];
  }

  /** Every vote that leaves a node is in its log, also one sent back a second time. */
  lemma {:induction false} ReleasedVotesAreLogged(cfg: Config, w: World, a: Address, n': Node,
                                                  p: MaybeSignedVoteProposal,
                               tc: Option<TwoChainTimeoutCertificate>, now: nat)
    requires ValidConfig(cfg) && WorldInv(cfg, w) && a in w.nodes
    requires var n := w.nodes[a];
             var call := if cfg.twoChain(n.state.safetyData.epoch) then CallVoteTwoChain(p, tc, now)
                         else CallVote(p, now);
             var r := if call.CallVote? then ConstructVote(n.state, p, now)
                      else ConstructVoteTwoChain(n.state, p, tc, now);
             NodeStep(cfg, w, n, n', call) && r.Ok? && n'.state.safetyData == r.value.1
    ensures var n := w.nodes[a];
            var r := if cfg.twoChain(n.state.safetyData.epoch) then ConstructVoteTwoChain(n.state, p, tc, now)
                     else ConstructVote(n.state, p, now);
            HasVoted(n', r.value.0.ledgerInfo)
  {
    var n := w.nodes[a];
    var r := if cfg.twoChain(n.state.safetyData.epoch) then ConstructVoteTwoChain(n.state, p, tc, now)
             else ConstructVote(n.state, p, now);
    if r.value.1 == n.state.safetyData {
      assert r.value.1.lastVote == Some(r.value.0);
      LoggedHasVoted(n.log, r.value.1.epoch, r.value.0, n');
    } else {
      assert n'.log[|n.log|].vote == r.value.0;
    }
  }
}
