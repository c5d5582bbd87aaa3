/** The honest replicas as a whole: every replica runs the voter code, whose every event is a sequence of
    steps of the safety rules, so that what is proved about runs of the rules holds of the votes that
    the replicas send (consensus/src/round_manager.rs, consensus/src/metrics_safety_rules.rs). */
module Replicas {
  import opened Wrappers
  import opened Validators
  import opened Types
  import opened EpochChange
  import opened SafetyRules
  import opened MetricsSafetyRules
  import opened Protocol
  import CommitSafety
  import RM = RoundManager
  import PendingVotes
  import VoteCertificates

  // ----- Steps of one node -----

  /** A step of node `a`, or nothing. */
  ghost predicate StepOrStutter(cfg: Config, w: World, a: Address, n': Node) {
    a in w.nodes && (n' == w.nodes[a] || Step(cfg, w, World(w.nodes[a := n'])))
  }

  ghost predicate StepIn(cfg: Config, w: World, a: Address, trace: seq<Node>, i: nat)
    requires i + 1 < |trace|
  {
    StepOrStutter(cfg, World(w.nodes[a := trace[i]]), a, trace[i + 1])
  }

  /** Node `a` passes through the states of the trace, from its own to `n'`. */
  ghost predicate Steps(cfg: Config, w: World, a: Address, trace: seq<Node>, n': Node) {
    && a in w.nodes && trace != [] && trace[0] == w.nodes[a] && trace[|trace| - 1] == n'
    && forall i: nat :: i + 1 < |trace| ==> StepIn(cfg, w, a, trace, i)
  }

  lemma {:induction false} NoSteps(cfg: Config, w: World, a: Address)
    requires a in w.nodes
    ensures Steps(cfg, w, a, [w.nodes[a]], w.nodes[a])
  {
  }

  lemma {:induction false} OneStep(cfg: Config, w: World, a: Address, n': Node)
    requires StepOrStutter(cfg, w, a, n')
    ensures Steps(cfg, w, a, [w.nodes[a], n'], n')
  {
    assert w.nodes[a := w.nodes[a]] == w.nodes;
  }

  lemma {:induction false} StepsCompose(cfg: Config, w: World, a: Address, first: seq<Node>, n1: Node,
                                        second: seq<Node>, n2: Node)
    requires Steps(cfg, w, a, first, n1) && Steps(cfg, World(w.nodes[a := n1]), a, second, n2)
    ensures Steps(cfg, w, a, first + second[1..], n2)
  {
    var trace := first + second[1..];
    var w1 := World(w.nodes[a := n1]);
    forall i: nat | i + 1 < |trace|
      ensures StepIn(cfg, w, a, trace, i)
    {
      if i + 1 < |first| {
        assert StepIn(cfg, w, a, first, i);
      } else {
        var j := i + 1 - |first|;
        assert StepIn(cfg, w1, a, second, j);
        assert trace[i] == second[j] && trace[i + 1] == second[j + 1];
        assert w1.nodes[a := second[j]] == w.nodes[a := second[j]];
      }
    }
  }

  lemma {:induction false} StepsButLast(cfg: Config, w: World, a: Address, trace: seq<Node>, n': Node)
    requires Steps(cfg, w, a, trace, n') && |trace| > 1
    ensures Steps(cfg, w, a, trace[..|trace| - 1], trace[|trace| - 2])
    ensures StepOrStutter(cfg, World(w.nodes[a := trace[|trace| - 2]]), a, n')
    ensures w.nodes[a := trace[|trace| - 2]][a := n'] == w.nodes[a := n']
  {
    var front := trace[..|trace| - 1];
    forall i: nat | i + 1 < |front|
      ensures StepIn(cfg, w, a, front, i)
    {
      assert StepIn(cfg, w, a, trace, i);
    }
    assert StepIn(cfg, w, a, trace, |trace| - 2);
  }

  lemma {:induction false} StepOf(cfg: Config, w: World, a: Address, n': Node, call: Call)
    requires ValidConfig(cfg) && a in w.nodes && NodeInv(cfg, a, w.nodes[a])
    requires NodeStep(cfg, w, w.nodes[a], n', call) && n'.state.epochState == w.nodes[a].state.epochState
    ensures StepOrStutter(cfg, w, a, n')
  {
    assert ValidEpoch(cfg, w.nodes[a].state.safetyData.epoch);
    assert KnownSet(cfg, n'.state);
  }

  lemma {:induction false} StutterKeepsWorldInv(cfg: Config, w: World, a: Address, n': Node)
    requires ValidConfig(cfg) && WorldInv(cfg, w) && StepOrStutter(cfg, w, a, n')
    ensures WorldInv(cfg, World(w.nodes[a := n'])) && Grows(w, World(w.nodes[a := n']))
  {
    if n' == w.nodes[a] {
      assert w.nodes[a := n'] == w.nodes;
    } else {
      StepKeepsWorldInv(cfg, w, World(w.nodes[a := n']));
    }
  }

  // ----- One request to the rules -----

  /** What is signed for a request. */
  function LogEntry(request: Request, answer: Answer): Entry
    requires Fits(request, answer)
  {
    match request
    case AskVote(p) => Voted(p.voteProposal.block.data, answer.vote, None)
    case AskVoteTwoChain(p, tc) => Voted(p.voteProposal.block.data, answer.vote, tc)
    case AskTimeout(t) => TimedOut(t)
    case AskTimeoutTwoChain(t, _) => TimedOutTwoChain(t)
  }

  /** A vote that is sent back a second time is in the log already. */
  function ServedEntries(s: State, request: Request, attempt: Attempt): seq<Entry> {
    var (s', r) := Serve(s, request, attempt);
    if r.Err? || (request.IsVote() && s' == s) then [] else [LogEntry(request, r.value)]
  }

  function RetriedEntries(s: State, request: Request, io: CallIo): seq<Entry> {
    if !Behind(Serve(s, request, io.first).1) then ServedEntries(s, request, io.first)
    else
      var (s1, r1) := Refreshed(s, io.refresh);
      if r1.Err? then [] else ServedEntries(s1, request, io.second)
  }

  ghost function AfterServing(n: Node, request: Request, attempt: Attempt): Node {
    Node(Serve(n.state, request, attempt).0, n.log + ServedEntries(n.state, request, attempt))
  }

  ghost function AfterRequest(n: Node, request: Request, io: CallIo): Node {
    Node(Retried(n.state, request, io).0, n.log + RetriedEntries(n.state, request, io))
  }

  /** A request in the protocol and in the mode of its epoch, within unforgeability. */
  ghost predicate Askable(cfg: Config, w: World, request: Request) {
    var e := EpochAsked(request);
    match request
    case AskVote(p) =>
      && !cfg.twoChain(e) && p.voteProposal.decoupledExecution == !cfg.coupled(e)
      && QcDerivable(w, p.voteProposal.block.data.quorumCert)
    case AskVoteTwoChain(p, tc) =>
      && cfg.twoChain(e) && p.voteProposal.decoupledExecution == !cfg.coupled(e)
      && QcDerivable(w, p.voteProposal.block.data.quorumCert) && (tc.Some? ==> TcDerivable(w, tc.value))
    case AskTimeout(t) => !cfg.twoChain(e)
    case AskTimeoutTwoChain(_, _) => cfg.twoChain(e)
  }

  lemma {:induction false} AskableStays(cfg: Config, w: World, w': World, request: Request)
    requires Grows(w, w') && Askable(cfg, w, request)
    ensures Askable(cfg, w', request)
  {
    if request.IsVote() {
      LiDerivablePersists(w, w', request.p.voteProposal.block.data.quorumCert.signedLedgerInfo);
      if request.AskVoteTwoChain? && request.tc.Some? {
        TcDerivablePersists(w, w', request.tc.value);
      }
    }
  }

  /** A request that the rules refuse, or whose epoch is not theirs, changes nothing. */
  lemma {:induction false} ServeIsStep(cfg: Config, w: World, a: Address, request: Request, attempt: Attempt)
    requires ValidConfig(cfg) && WorldInv(cfg, w) && a in w.nodes && Askable(cfg, w, request)
    ensures StepOrStutter(cfg, w, a, AfterServing(w.nodes[a], request, attempt))
  {
    var n, n' := w.nodes[a], AfterServing(w.nodes[a], request, attempt);
    assert NodeInv(cfg, a, n);
    if n' != n {
      match request
      case AskVote(p) => StepOf(cfg, w, a, n', CallVote(p, attempt.now));
      case AskVoteTwoChain(p, tc) => StepOf(cfg, w, a, n', CallVoteTwoChain(p, tc, attempt.now));
      case AskTimeout(t) => StepOf(cfg, w, a, n', CallTimeout(t));
      case AskTimeoutTwoChain(t, tc) => StepOf(cfg, w, a, n', CallTimeoutTwoChain(t, tc));
    }
  }

  // ----- Initializing -----

  /** Every page is derivable, and the set it installs is the one of its epoch. */
  ghost predicate PagesKnown(cfg: Config, w: World, s: State, storage: Storage, ledgerVersion: nat, io: Io)
    requires Bounded(storage, ledgerVersion)
    decreases ledgerVersion - s.waypoint.version
  {
    storage(s.waypoint.version).Some? ==>
      var proof := storage(s.waypoint.version).value;
      var (s', r) := Initialize(s, proof, io(s.waypoint.version));
      && ProofDerivable(w, proof) && KnownSet(cfg, s')
      && if Again(r) then
           AgainMovesWaypoint(s, storage, ledgerVersion, io);
           PagesKnown(cfg, w, s', storage, ledgerVersion, io)
         else true
  }

  ghost predicate RefreshKnown(cfg: Config, w: World, s: State, refresh: Refresh) {
    refresh.readable ==> PagesKnown(cfg, w, s, refresh.storage, refresh.ledgerVersion, refresh.io)
  }

  lemma {:induction false} PagesStayKnown(cfg: Config, w: World, w': World, s: State, storage: Storage,
                                          ledgerVersion: nat, io: Io)
    requires Bounded(storage, ledgerVersion) && Grows(w, w') && PagesKnown(cfg, w, s, storage, ledgerVersion, io)
    ensures PagesKnown(cfg, w', s, storage, ledgerVersion, io)
    decreases ledgerVersion - s.waypoint.version
  {
    if storage(s.waypoint.version).Some? {
      var proof := storage(s.waypoint.version).value;
      ProofDerivablePersists(w, w', proof);
      var (s', r) := Initialize(s, proof, io(s.waypoint.version));
      if Again(r) {
        AgainMovesWaypoint(s, storage, ledgerVersion, io);
        PagesStayKnown(cfg, w, w', s', storage, ledgerVersion, io);
      }
    }
  }

  lemma {:induction false} PageIsStep(cfg: Config, w: World, a: Address, proof: EpochChangeProof, io: InitializeIo)
    requires a in w.nodes && ProofDerivable(w, proof) && KnownSet(cfg, Initialize(w.nodes[a].state, proof, io).0)
    ensures StepOrStutter(cfg, w, a, w.nodes[a].(state := Initialize(w.nodes[a].state, proof, io).0))
  {
    var n' := w.nodes[a].(state := Initialize(w.nodes[a].state, proof, io).0);
    assert NodeStep(cfg, w, w.nodes[a], n', CallInitialize(proof, io));
  }

  /** Initializing is one step for every page. */
  lemma {:induction false} InitializedSteps(cfg: Config, w: World, a: Address, storage: Storage, ledgerVersion: nat,
                                            io: Io)
    returns (trace: seq<Node>)
    requires a in w.nodes && Bounded(storage, ledgerVersion)
    requires PagesKnown(cfg, w, w.nodes[a].state, storage, ledgerVersion, io)
    ensures Steps(cfg, w, a, trace,
                  w.nodes[a].(state := Initialized(w.nodes[a].state, storage, ledgerVersion, io).0))
    decreases ledgerVersion - w.nodes[a].state.waypoint.version
  {
    var n := w.nodes[a];
    var s := n.state;
    if storage(s.waypoint.version).None? {
      NoSteps(cfg, w, a);
      trace := [n];
    } else {
      var proof := storage(s.waypoint.version).value;
      var (s1, r1) := Initialize(s, proof, io(s.waypoint.version));
      var n1 := n.(state := s1);
      PageIsStep(cfg, w, a, proof, io(s.waypoint.version));
      OneStep(cfg, w, a, n1);
      trace := [n, n1];
      if Again(r1) {
        AgainMovesWaypoint(s, storage, ledgerVersion, io);
        var w1 := World(w.nodes[a := n1]);
        PagesStayKnown(cfg, w, w1, s1, storage, ledgerVersion, io);
        var more := InitializedSteps(cfg, w1, a, storage, ledgerVersion, io);
        StepsCompose(cfg, w, a, trace, n1, more, n.(state := Initialized(s1, storage, ledgerVersion, io).0));
        trace := trace + more[1..];
      }
    }
  }

  lemma {:induction false} RefreshSteps(cfg: Config, w: World, a: Address, refresh: Refresh) returns (trace: seq<Node>)
    requires a in w.nodes && RefreshKnown(cfg, w, w.nodes[a].state, refresh)
    ensures Steps(cfg, w, a, trace, w.nodes[a].(state := Refreshed(w.nodes[a].state, refresh).0))
  {
    if refresh.readable {
      trace := InitializedSteps(cfg, w, a, refresh.storage, refresh.ledgerVersion, refresh.io);
    } else {
      NoSteps(cfg, w, a);
      trace := [w.nodes[a]];
    }
  }

  lemma {:induction false} StepsKeepWorldInv(cfg: Config, w: World, a: Address, trace: seq<Node>, n': Node)
    requires ValidConfig(cfg) && WorldInv(cfg, w) && Steps(cfg, w, a, trace, n')
    ensures WorldInv(cfg, World(w.nodes[a := n']))
    decreases |trace|
  {
    if |trace| == 1 {
      assert w.nodes[a := n'] == w.nodes;
    } else {
      var before := trace[|trace| - 2];
      StepsButLast(cfg, w, a, trace, n');
      StepsKeepWorldInv(cfg, w, a, trace[..|trace| - 1], before);
      StutterKeepsWorldInv(cfg, World(w.nodes[a := before]), a, n');
    }
  }

  // ----- A request, repeated if need be -----

  /** The signatures on a vote belong together: the ledger info to the vote data, and a timeout, of one
      kind, to the epoch and the round of the vote. */
  ghost predicate Sealed(cfg: Config, vote: Vote) {
    var epoch, round := vote.voteData.proposed.epoch, vote.voteData.proposed.round;
    && vote.ledgerInfo.consensusDataHash == HashOf(vote.voteData)
    && (vote.timeoutSignature.None? || vote.twoChainTimeout.None?)
    && (vote.timeoutSignature.Some? ==> vote.timeoutSignature.value == Signature(vote.author, Timeout(epoch, round)))
    && (vote.twoChainTimeout.Some? ==>
          var (t, signature) := vote.twoChainTimeout.value;
          t.epoch == epoch && t.round == round && TimeoutSealed(cfg, vote.author, t, signature))
  }

  ghost predicate TimeoutSealed(cfg: Config, a: Address, t: TwoChainTimeout, signature: Signature<TimeoutSigningRepr>) {
    && t.quorumCert.Verify(VerifierOf(cfg, t.epoch))
    && signature == Signature(a, TimeoutSigningRepr(t.epoch, t.round, t.quorumCert.CertifiedBlock().round))
  }

  /** What the rules of `a` answer to a request for a timeout. */
  ghost predicate AnswersTimeout(cfg: Config, a: Address, request: Request, answer: Answer)
    requires Fits(request, answer)
  {
    && (request.AskTimeout? ==> answer.signature == Signature(a, request.timeout))
    && (request.AskTimeoutTwoChain? ==> TimeoutSealed(cfg, a, request.twoChainTimeout, answer.twoChainSignature))
  }

  /** The vote is one that the rules of `a` signed. */
  ghost predicate Logged(cfg: Config, n: Node, a: Address, vote: Vote) {
    && HasVoted(n, vote.ledgerInfo) && vote.author == a && vote.signature == Signature(a, vote.ledgerInfo)
    && Sealed(cfg, vote)
  }

  lemma {:induction false} LoggedPersists(cfg: Config, n: Node, n': Node, a: Address, vote: Vote)
    requires Logged(cfg, n, a, vote) && n.log <= n'.log
    ensures Logged(cfg, n', a, vote)
  {
    VotesPersist(n, n', vote.ledgerInfo);
  }

  /** A vote that the rules give out, new or repeated, is signed by their validator and in the log. */
  ghost predicate GivenOut(cfg: Config, a: Address, n: Node, r: Result<(Vote, SafetyData), Error>) {
    r.Ok? ==>
      && (r.value.1 == n.state.safetyData ==> Logged(cfg, n, a, r.value.0))
      && r.value.0.author == a && r.value.0.signature == Signature(a, r.value.0.ledgerInfo) && Sealed(cfg, r.value.0)
  }

  lemma {:induction false} RepeatedVote(cfg: Config, a: Address, n: Node)
    requires NodeInv(cfg, a, n) && n.state.safetyData.lastVote.Some?
    ensures Logged(cfg, n, a, n.state.safetyData.lastVote.value)
  {
    var sd := n.state.safetyData;
    assert InLog(n.log, sd.epoch, sd.lastVote.value);
    var k :| 0 <= k < |n.log| && n.log[k].Voted? && n.log[k].vote == sd.lastVote.value && n.log[k].Epoch() == sd.epoch;
    assert EntryOk(cfg, a, n.log[k]);
  }

  /** A vote is the last one again, or a new one under the key of the rules. */
  ghost predicate NewOrRepeated(s: State, r: Result<(Vote, SafetyData), Error>) {
    r.Ok? ==>
      || (s.safetyData.lastVote.Some? && r.value == (s.safetyData.lastVote.value, s.safetyData))
      || (&& r.value.1 != s.safetyData && s.signer.Some? && r.value.0.author == s.signer.value.author
          && r.value.0.signature == Signature(s.signer.value.publicKey, r.value.0.ledgerInfo)
          && r.value.0.ledgerInfo.consensusDataHash == HashOf(r.value.0.voteData) && !r.value.0.IsTimeout())
  }

  lemma {:induction false} VoteIsNewOrRepeated(s: State, p: MaybeSignedVoteProposal, now: nat)
    ensures NewOrRepeated(s, ConstructVote(s, p, now))
  {
  }

  lemma {:induction false} VoteTwoChainIsNewOrRepeated(s: State, p: MaybeSignedVoteProposal,
                                                       tc: Option<TwoChainTimeoutCertificate>, now: nat)
    ensures NewOrRepeated(s, ConstructVoteTwoChain(s, p, tc, now))
  {
  }

  lemma {:induction false} GivenVote(cfg: Config, a: Address, n: Node, r: Result<(Vote, SafetyData), Error>)
    requires NodeInv(cfg, a, n) && NewOrRepeated(n.state, r)
    ensures GivenOut(cfg, a, n, r)
  {
    if n.state.safetyData.lastVote.Some? {
      RepeatedVote(cfg, a, n);
    }
  }

  /** An answer is backed by the log of the rules that gave it. */
  ghost predicate Delivered(cfg: Config, a: Address, n: Node, request: Request, answer: Answer)
    requires Fits(request, answer)
  {
    if request.IsVote() then Logged(cfg, n, a, answer.vote) else AnswersTimeout(cfg, a, request, answer)
  }

  lemma {:induction false} ServedVote(cfg: Config, a: Address, n: Node, request: Request, attempt: Attempt)
    requires NodeInv(cfg, a, n) && request.IsVote() && Serve(n.state, request, attempt).1.Ok?
    ensures Logged(cfg, AfterServing(n, request, attempt), a, Serve(n.state, request, attempt).1.value.vote)
  {
    var n' := AfterServing(n, request, attempt);
    var vote := Serve(n.state, request, attempt).1.value.vote;
    if request.AskVote? {
      VoteIsNewOrRepeated(n.state, request.p, attempt.now);
      GivenVote(cfg, a, n, ConstructVote(n.state, request.p, attempt.now));
    } else {
      VoteTwoChainIsNewOrRepeated(n.state, request.p, request.tc, attempt.now);
      GivenVote(cfg, a, n, ConstructVoteTwoChain(n.state, request.p, request.tc, attempt.now));
    }
    if n'.log != n.log {
      assert n'.log[|n.log|].Voted? && n'.log[|n.log|].vote == vote;
    }
  }

  lemma {:induction false} ServedTimeout(cfg: Config, a: Address, n: Node, request: Request, attempt: Attempt)
    requires NodeInv(cfg, a, n) && !request.IsVote() && Serve(n.state, request, attempt).1.Ok?
    ensures AnswersTimeout(cfg, a, request, Serve(n.state, request, attempt).1.value)
  {
  }

  lemma {:induction false} Served(cfg: Config, a: Address, n: Node, request: Request, attempt: Attempt)
    requires NodeInv(cfg, a, n) && Serve(n.state, request, attempt).1.Ok?
    ensures Delivered(cfg, a, AfterServing(n, request, attempt), request, Serve(n.state, request, attempt).1.value)
  {
    if request.IsVote() {
      ServedVote(cfg, a, n, request, attempt);
    } else {
      ServedTimeout(cfg, a, n, request, attempt);
    }
  }

  ghost predicate RequestKnown(cfg: Config, w: World, s: State, request: Request, io: CallIo) {
    Askable(cfg, w, request) && RefreshKnown(cfg, w, s, io.refresh)
  }

  /** A request is carried out by steps of the rules: one call, or one call, the pages and another call. A
      vote that comes back is in the log. */
  ghost predicate Carried(cfg: Config, w: World, a: Address, request: Request, io: CallIo, trace: seq<Node>) {
    && a in w.nodes
    && var n, n' := w.nodes[a], AfterRequest(w.nodes[a], request, io);
       var r := Retried(n.state, request, io).1;
       Steps(cfg, w, a, trace, n') && (r.Ok? ==> Delivered(cfg, a, n', request, r.value))
  }

  lemma {:induction false} ServedAtOnce(cfg: Config, w: World, a: Address, request: Request, io: CallIo)
    requires ValidConfig(cfg) && WorldInv(cfg, w) && a in w.nodes && Askable(cfg, w, request)
    requires !Behind(Serve(w.nodes[a].state, request, io.first).1)
    ensures Carried(cfg, w, a, request, io, [w.nodes[a], AfterRequest(w.nodes[a], request, io)])
  {
    var n := w.nodes[a];
    assert AfterRequest(n, request, io) == AfterServing(n, request, io.first);
    ServeIsStep(cfg, w, a, request, io.first);
    OneStep(cfg, w, a, AfterServing(n, request, io.first));
    if Retried(n.state, request, io).1.Ok? {
      Served(cfg, a, n, request, io.first);
    }
  }

  /** The second call, after the pages. */
  lemma {:induction false} ServedAgain(cfg: Config, w: World, a: Address, s1: State, request: Request, attempt: Attempt)
    requires ValidConfig(cfg) && a in w.nodes && Askable(cfg, w, request)
    requires WorldInv(cfg, World(w.nodes[a := w.nodes[a].(state := s1)]))
    ensures var n1 := w.nodes[a].(state := s1);
            && Steps(cfg, World(w.nodes[a := n1]), a, [n1, AfterServing(n1, request, attempt)],
                     AfterServing(n1, request, attempt))
            && NodeInv(cfg, a, n1)
  {
    var n1 := w.nodes[a].(state := s1);
    var w1 := World(w.nodes[a := n1]);
    assert w1.nodes[a] == n1 && Grows(w, w1);
    AskableStays(cfg, w, w1, request);
    ServeIsStep(cfg, w1, a, request, attempt);
    OneStep(cfg, w1, a, AfterServing(n1, request, attempt));
  }

  lemma {:induction false} ServedAfterRefresh(cfg: Config, w: World, a: Address, request: Request, io: CallIo)
    returns (trace: seq<Node>)
    requires ValidConfig(cfg) && WorldInv(cfg, w) && a in w.nodes
    requires RequestKnown(cfg, w, w.nodes[a].state, request, io)
    requires Behind(Serve(w.nodes[a].state, request, io.first).1)
    ensures Carried(cfg, w, a, request, io, trace)
  {
    var n := w.nodes[a];
    BehindChangesNothing(n.state, request, io.first);
    var (s1, r1) := Refreshed(n.state, io.refresh);
    var n1 := n.(state := s1);
    trace := RefreshSteps(cfg, w, a, io.refresh);
    if r1.Ok? {
      StepsKeepWorldInv(cfg, w, a, trace, n1);
      ServedAgain(cfg, w, a, s1, request, io.second);
      var n2 := AfterServing(n1, request, io.second);
      StepsCompose(cfg, w, a, trace, n1, [n1, n2], n2);
      trace := trace + [n1, n2][1..];
      assert n2 == AfterRequest(n, request, io);
      if Retried(n.state, request, io).1.Ok? {
        Served(cfg, a, n1, request, io.second);
      }
    } else {
      assert n1 == AfterRequest(n, request, io);
    }
  }

  lemma {:induction false} RequestSteps(cfg: Config, w: World, a: Address, request: Request, io: CallIo)
    returns (trace: seq<Node>)
    requires ValidConfig(cfg) && WorldInv(cfg, w) && a in w.nodes
    requires RequestKnown(cfg, w, w.nodes[a].state, request, io)
    ensures Carried(cfg, w, a, request, io, trace)
  {
    if Behind(Serve(w.nodes[a].state, request, io.first).1) {
      trace := ServedAfterRefresh(cfg, w, a, request, io);
    } else {
      ServedAtOnce(cfg, w, a, request, io);
      trace := [w.nodes[a], AfterRequest(w.nodes[a], request, io)];
    }
  }

  // ----- One event -----

  function VoteEntries(m: RM.Manager, block: Block, execution: Option<RM.Execution>,
                       tc: Option<TwoChainTimeoutCertificate>, io: RM.EventIo): seq<Entry>
  {
    if execution.None? || m.voteSent.Some? || m.syncOnly then []
    else RetriedEntries(m.safety, RM.VoteRequest(m, RM.ProposalFor(block, execution.value), tc), io.vote)
  }

  function TimeoutEntries(m: RM.Manager, vote: Vote, hqc: QuorumCert, tc: Option<TwoChainTimeoutCertificate>,
                          io: RM.EventIo): seq<Entry>
  {
    if vote.IsTimeout() then [] else RetriedEntries(m.safety, RM.TimeoutRequest(m, vote, hqc, tc), io.timeout)
  }

  predicate Repeats(m: RM.Manager, round: Round) {
    m.voteSent.Some? && m.voteSent.value.Round() == round
  }

  function BackupEntries(m: RM.Manager, round: Round, hqc: QuorumCert, execution: Option<RM.Execution>,
                         tc: Option<TwoChainTimeoutCertificate>, io: RM.EventIo): seq<Entry>
  {
    if Repeats(m, round) || RM.GenerateNilBlock(round, hqc).None? then []
    else VoteEntries(m, NewNil(round, hqc), execution, tc, io)
  }

  function NewEntries(m: RM.Manager, event: RM.Event): seq<Entry> {
    match event
    case ProposalEvent(block, acceptable, execution, tc, io) =>
      if acceptable then VoteEntries(m, block, execution, tc, io) else []
    case LocalTimeoutEvent(round, hqc, execution, tc, io) =>
      if round != m.currentRound || m.syncOnly then []
      else
        var (m1, vote) := RM.BackupVote(m, round, hqc, execution, tc, io);
        BackupEntries(m, round, hqc, execution, tc, io)
        + (if vote.None? then [] else TimeoutEntries(m1, vote.value, hqc, tc, io))
    case _ => []
  }

  /** What a replica has recorded or saved, it has signed. */
  ghost predicate Recorded(cfg: Config, m: RM.Manager, n: Node, a: Address) {
    && n.state == m.safety
    && (m.voteSent.Some? ==> Logged(cfg, n, a, m.voteSent.value))
    && (m.savedVote.Some? ==> Logged(cfg, n, a, m.savedVote.value))
  }

  /** Events within unforgeability, in the protocol and the mode that the epochs run. */
  ghost predicate Admissible(cfg: Config, w: World, m: RM.Manager, event: RM.Event) {
    match event
    case ProposalEvent(block, acceptable, execution, tc, io) =>
      acceptable ==> VotingAdmissible(cfg, w, m, block, execution, tc, io)
    case LocalTimeoutEvent(round, hqc, execution, tc, io) =>
      && (!Repeats(m, round) ==> VotingAdmissible(cfg, w, m, NewNil(round, hqc), execution, tc, io))
      && var (m1, vote) := RM.BackupVote(m, round, hqc, execution, tc, io);
         vote.Some? ==> RequestKnown(cfg, w, m1.safety, RM.TimeoutRequest(m1, vote.value, hqc, tc), io.timeout)
    case InitializeEvent(refresh) => RefreshKnown(cfg, w, m.safety, refresh)
    case _ => true
  }

  ghost predicate VotingAdmissible(cfg: Config, w: World, m: RM.Manager, block: Block,
                                   execution: Option<RM.Execution>, tc: Option<TwoChainTimeoutCertificate>,
                                   io: RM.EventIo)
  {
    execution.Some? ==>
      RequestKnown(cfg, w, m.safety, RM.VoteRequest(m, RM.ProposalFor(block, execution.value), tc), io.vote)
  }

  ghost function NodeAfter(n: Node, m: RM.Manager, event: RM.Event): Node {
    Node(RM.Handle(m, event).0.safety, n.log + NewEntries(m, event))
  }

  /** A part of an event is done: steps of the rules, with whatever it yields in the log. */
  ghost predicate Done(cfg: Config, w: World, a: Address, trace: seq<Node>, m': RM.Manager, n': Node,
                       vote: Option<Vote>)
  {
    Steps(cfg, w, a, trace, n') && Recorded(cfg, m', n', a) && (vote.Some? ==> Logged(cfg, n', a, vote.value))
  }

  /** The event is carried out by steps of the rules, and whatever is sent or recorded is in the log. */
  ghost predicate Simulated(cfg: Config, w: World, a: Address, m: RM.Manager, event: RM.Event, trace: seq<Node>) {
    && a in w.nodes
    && Done(cfg, w, a, trace, RM.Handle(m, event).0, NodeAfter(w.nodes[a], m, event), RM.Handle(m, event).1)
  }

  /** What was recorded stays in the log. */
  lemma {:induction false} StaysRecorded(cfg: Config, m: RM.Manager, m': RM.Manager, n: Node, n': Node, a: Address)
    requires Recorded(cfg, m, n, a) && n.log <= n'.log && n'.state == m'.safety
    requires || m'.voteSent.None? || m'.voteSent == m.voteSent || m'.voteSent == m.savedVote
             || Logged(cfg, n', a, m'.voteSent.value)
    requires m'.savedVote == m.savedVote || (m'.savedVote.Some? && Logged(cfg, n', a, m'.savedVote.value))
    ensures Recorded(cfg, m', n', a)
  {
    if m.voteSent.Some? {
      LoggedPersists(cfg, n, n', a, m.voteSent.value);
    }
    if m.savedVote.Some? {
      LoggedPersists(cfg, n, n', a, m.savedVote.value);
    }
  }

  ghost function AfterVote(n: Node, m: RM.Manager, block: Block, execution: Option<RM.Execution>,
                           tc: Option<TwoChainTimeoutCertificate>, io: RM.EventIo): Node
  {
    Node(RM.ExecuteAndVote(m, block, execution, tc, io).0.safety, n.log + VoteEntries(m, block, execution, tc, io))
  }

  lemma {:induction false} VoteDone(cfg: Config, w: World, a: Address, m: RM.Manager, block: Block,
                                    execution: Option<RM.Execution>, tc: Option<TwoChainTimeoutCertificate>,
                                    io: RM.EventIo)
    returns (trace: seq<Node>)
    requires ValidConfig(cfg) && WorldInv(cfg, w) && a in w.nodes && Recorded(cfg, m, w.nodes[a], a)
    requires VotingAdmissible(cfg, w, m, block, execution, tc, io)
    ensures var (m', vote) := RM.ExecuteAndVote(m, block, execution, tc, io);
            Done(cfg, w, a, trace, m', AfterVote(w.nodes[a], m, block, execution, tc, io), vote)
  {
    var n, n' := w.nodes[a], AfterVote(w.nodes[a], m, block, execution, tc, io);
    var m' := RM.ExecuteAndVote(m, block, execution, tc, io).0;
    if execution.None? || m.voteSent.Some? || m.syncOnly {
      NoSteps(cfg, w, a);
      assert n' == n;
      trace := [n];
    } else {
      var request := RM.VoteRequest(m, RM.ProposalFor(block, execution.value), tc);
      trace := RequestSteps(cfg, w, a, request, io.vote);
      assert n' == AfterRequest(n, request, io.vote);
      StaysRecorded(cfg, m, m', n, n', a);
    }
  }

  ghost function AfterTimeout(n: Node, m: RM.Manager, vote: Vote, hqc: QuorumCert,
                              tc: Option<TwoChainTimeoutCertificate>, io: RM.EventIo): Node
  {
    Node(RM.SignTimeoutVote(m, vote, hqc, tc, io).0.safety, n.log + TimeoutEntries(m, vote, hqc, tc, io))
  }

  lemma {:induction false} SealedWithTimeout(cfg: Config, a: Address, m: RM.Manager, vote: Vote, hqc: QuorumCert,
                                             tc: Option<TwoChainTimeoutCertificate>, io: RM.EventIo)
    requires vote.author == a && Sealed(cfg, vote)
    requires var request := RM.TimeoutRequest(m, vote, hqc, tc); var r := Retried(m.safety, request, io.timeout).1;
             r.Ok? && !vote.IsTimeout() ==> AnswersTimeout(cfg, a, request, r.value)
    ensures var signed := RM.SignTimeoutVote(m, vote, hqc, tc, io).1;
            signed.Some? ==> && Sealed(cfg, signed.value) && signed.value.author == vote.author
                             && signed.value.ledgerInfo == vote.ledgerInfo && signed.value.signature == vote.signature
  {
  }

  lemma {:induction false} TimeoutRecords(cfg: Config, a: Address, n: Node, m: RM.Manager, vote: Vote, hqc: QuorumCert,
                                          tc: Option<TwoChainTimeoutCertificate>, io: RM.EventIo)
    requires Recorded(cfg, m, n, a) && Logged(cfg, n, a, vote)
    requires var request := RM.TimeoutRequest(m, vote, hqc, tc); var r := Retried(m.safety, request, io.timeout).1;
             r.Ok? && !vote.IsTimeout() ==> AnswersTimeout(cfg, a, request, r.value)
    ensures var (m', signed) := RM.SignTimeoutVote(m, vote, hqc, tc, io);
            var n' := AfterTimeout(n, m, vote, hqc, tc, io);
            Recorded(cfg, m', n', a) && (signed.Some? ==> Logged(cfg, n', a, signed.value))
  {
    var n' := AfterTimeout(n, m, vote, hqc, tc, io);
    LoggedPersists(cfg, n, n', a, vote);
    SealedWithTimeout(cfg, a, m, vote, hqc, tc, io);
    StaysRecorded(cfg, m, RM.SignTimeoutVote(m, vote, hqc, tc, io).0, n, n', a);
  }

  lemma {:induction false} TimeoutIsRequest(n: Node, m: RM.Manager, vote: Vote, hqc: QuorumCert,
                                            tc: Option<TwoChainTimeoutCertificate>, io: RM.EventIo)
    requires n.state == m.safety
    ensures AfterTimeout(n, m, vote, hqc, tc, io)
         == if vote.IsTimeout() then n else AfterRequest(n, RM.TimeoutRequest(m, vote, hqc, tc), io.timeout)
  {
    assert n.log + [] == n.log;
  }

  lemma {:induction false} TimeoutSteps(cfg: Config, w: World, a: Address, m: RM.Manager, vote: Vote, hqc: QuorumCert,
                                        tc: Option<TwoChainTimeoutCertificate>, io: RM.EventIo)
    returns (trace: seq<Node>)
    requires ValidConfig(cfg) && WorldInv(cfg, w) && a in w.nodes && w.nodes[a].state == m.safety
    requires RequestKnown(cfg, w, m.safety, RM.TimeoutRequest(m, vote, hqc, tc), io.timeout)
    ensures Steps(cfg, w, a, trace, AfterTimeout(w.nodes[a], m, vote, hqc, tc, io))
    ensures var request := RM.TimeoutRequest(m, vote, hqc, tc); var r := Retried(m.safety, request, io.timeout).1;
            r.Ok? && !vote.IsTimeout() ==> AnswersTimeout(cfg, a, request, r.value)
  {
    TimeoutIsRequest(w.nodes[a], m, vote, hqc, tc, io);
    if vote.IsTimeout() {
      NoSteps(cfg, w, a);
      trace := [w.nodes[a]];
    } else {
      trace := RequestSteps(cfg, w, a, RM.TimeoutRequest(m, vote, hqc, tc), io.timeout);
    }
  }

  lemma {:induction false} TimeoutDone(cfg: Config, w: World, a: Address, m: RM.Manager, vote: Vote, hqc: QuorumCert,
                                       tc: Option<TwoChainTimeoutCertificate>, io: RM.EventIo)
    returns (trace: seq<Node>)
    requires ValidConfig(cfg) && WorldInv(cfg, w) && a in w.nodes && Recorded(cfg, m, w.nodes[a], a)
    requires Logged(cfg, w.nodes[a], a, vote)
    requires RequestKnown(cfg, w, m.safety, RM.TimeoutRequest(m, vote, hqc, tc), io.timeout)
    ensures var (m', signed) := RM.SignTimeoutVote(m, vote, hqc, tc, io);
            Done(cfg, w, a, trace, m', AfterTimeout(w.nodes[a], m, vote, hqc, tc, io), signed)
  {
    trace := TimeoutSteps(cfg, w, a, m, vote, hqc, tc, io);
    TimeoutRecords(cfg, a, w.nodes[a], m, vote, hqc, tc, io);
  }

  lemma {:induction false} RecordVoteRecords(cfg: Config, m: RM.Manager, n: Node, a: Address, vote: Vote)
    requires Recorded(cfg, m, n, a) && Logged(cfg, n, a, vote)
    ensures Recorded(cfg, RM.RecordVote(m, vote), n, a)
  {
  }

  lemma {:induction false} ProposalSimulated(cfg: Config, w: World, a: Address, m: RM.Manager, event: RM.Event)
    returns (trace: seq<Node>)
    requires ValidConfig(cfg) && WorldInv(cfg, w) && a in w.nodes && Recorded(cfg, m, w.nodes[a], a)
    requires event.ProposalEvent? && Admissible(cfg, w, m, event)
    ensures Simulated(cfg, w, a, m, event, trace)
  {
    var n, n' := w.nodes[a], NodeAfter(w.nodes[a], m, event);
    if event.acceptable {
      trace := VoteDone(cfg, w, a, m, event.block, event.execution, event.tc, event.io);
      assert n' == AfterVote(n, m, event.block, event.execution, event.tc, event.io);
      var (m1, vote) := RM.ExecuteAndVote(m, event.block, event.execution, event.tc, event.io);
      if vote.Some? {
        RecordVoteRecords(cfg, m1, n', a, vote.value);
      }
    } else {
      NoSteps(cfg, w, a);
      assert n' == n;
      trace := [n];
    }
  }

  ghost function AfterBackup(n: Node, m: RM.Manager, round: Round, hqc: QuorumCert, execution: Option<RM.Execution>,
                             tc: Option<TwoChainTimeoutCertificate>, io: RM.EventIo): Node
  {
    Node(RM.BackupVote(m, round, hqc, execution, tc, io).0.safety,
         n.log + BackupEntries(m, round, hqc, execution, tc, io))
  }

  /** The vote part of a local timeout. */
  lemma {:induction false} BackupDone(cfg: Config, w: World, a: Address, m: RM.Manager, round: Round, hqc: QuorumCert,
                                      execution: Option<RM.Execution>, tc: Option<TwoChainTimeoutCertificate>,
                                      io: RM.EventIo)
    returns (trace: seq<Node>)
    requires ValidConfig(cfg) && WorldInv(cfg, w) && a in w.nodes && Recorded(cfg, m, w.nodes[a], a)
    requires !Repeats(m, round) ==> VotingAdmissible(cfg, w, m, NewNil(round, hqc), execution, tc, io)
    ensures var (m1, vote) := RM.BackupVote(m, round, hqc, execution, tc, io);
            Done(cfg, w, a, trace, m1, AfterBackup(w.nodes[a], m, round, hqc, execution, tc, io), vote)
  {
    var n1 := AfterBackup(w.nodes[a], m, round, hqc, execution, tc, io);
    if Repeats(m, round) || RM.GenerateNilBlock(round, hqc).None? {
      NoSteps(cfg, w, a);
      assert n1 == w.nodes[a];
      trace := [n1];
    } else {
      trace := VoteDone(cfg, w, a, m, NewNil(round, hqc), execution, tc, io);
    }
  }

  lemma {:induction false} LocalTimeoutHandled(m: RM.Manager, event: RM.Event)
    requires event.LocalTimeoutEvent? && event.round == m.currentRound && !m.syncOnly
    ensures var LocalTimeoutEvent(round, hqc, execution, tc, io) := event;
            var (m1, vote) := RM.BackupVote(m, round, hqc, execution, tc, io);
            if vote.None? then RM.Handle(m, event) == (m1, None)
            else
              var (m2, signed) := RM.SignTimeoutVote(m1, vote.value, hqc, tc, io);
              RM.Handle(m, event) == (if signed.None? then m2 else RM.RecordVote(m2, signed.value), signed)
  {
  }

  /** A local timeout that is not stale, part by part. */
  lemma {:induction false} LocalTimeoutParts(n: Node, m: RM.Manager, event: RM.Event)
    requires event.LocalTimeoutEvent? && event.round == m.currentRound && !m.syncOnly
    ensures var LocalTimeoutEvent(round, hqc, execution, tc, io) := event;
            var middle := AfterBackup(n, m, round, hqc, execution, tc, io);
            var (m1, vote) := RM.BackupVote(m, round, hqc, execution, tc, io);
            if vote.None? then RM.Handle(m, event) == (m1, None) && NodeAfter(n, m, event) == middle
            else
              var (m2, signed) := RM.SignTimeoutVote(m1, vote.value, hqc, tc, io);
              && RM.Handle(m, event) == (if signed.None? then m2 else RM.RecordVote(m2, signed.value), signed)
              && NodeAfter(n, m, event) == AfterTimeout(middle, m1, vote.value, hqc, tc, io)
  {
    LocalTimeoutHandled(m, event);
  }

  lemma {:induction false} RequestStaysKnown(cfg: Config, w: World, w': World, s: State, request: Request, io: CallIo)
    requires Grows(w, w') && RequestKnown(cfg, w, s, request, io)
    ensures RequestKnown(cfg, w', s, request, io)
  {
    AskableStays(cfg, w, w', request);
    if io.refresh.readable {
      PagesStayKnown(cfg, w, w', s, io.refresh.storage, io.refresh.ledgerVersion, io.refresh.io);
    }
  }

  /** The timeout part, in the world that the vote part leads to. */
  lemma {:induction false} TimeoutAfterBackup(cfg: Config, w: World, a: Address, m1: RM.Manager, middle: Node,
                                              vote: Vote,
                                              hqc: QuorumCert, tc: Option<TwoChainTimeoutCertificate>, io: RM.EventIo)
    returns (trace: seq<Node>)
    requires ValidConfig(cfg) && a in w.nodes && WorldInv(cfg, World(w.nodes[a := middle]))
    requires w.nodes[a].log <= middle.log && Recorded(cfg, m1, middle, a) && Logged(cfg, middle, a, vote)
    requires RequestKnown(cfg, w, m1.safety, RM.TimeoutRequest(m1, vote, hqc, tc), io.timeout)
    ensures var (m2, signed) := RM.SignTimeoutVote(m1, vote, hqc, tc, io);
            Done(cfg, World(w.nodes[a := middle]), a, trace, m2, AfterTimeout(middle, m1, vote, hqc, tc, io), signed)
  {
    var w1 := World(w.nodes[a := middle]);
    assert w1.nodes[a] == middle && Grows(w, w1);
    RequestStaysKnown(cfg, w, w1, m1.safety, RM.TimeoutRequest(m1, vote, hqc, tc), io.timeout);
    trace := TimeoutDone(cfg, w1, a, m1, vote, hqc, tc, io);
  }

  lemma {:induction false} TwoPartsSimulate(cfg: Config, w: World, a: Address, m: RM.Manager, event: RM.Event,
                                            first: seq<Node>, middle: Node, second: seq<Node>, n': Node,
                                            m2: RM.Manager, signed: Option<Vote>)
    requires Steps(cfg, w, a, first, middle) && Done(cfg, World(w.nodes[a := middle]), a, second, m2, n', signed)
    requires n' == NodeAfter(w.nodes[a], m, event)
    requires RM.Handle(m, event) == (if signed.None? then m2 else RM.RecordVote(m2, signed.value), signed)
    ensures Simulated(cfg, w, a, m, event, first + second[1..])
  {
    StepsCompose(cfg, w, a, first, middle, second, n');
    if signed.Some? {
      RecordVoteRecords(cfg, m2, n', a, signed.value);
    }
  }

  lemma {:induction false} LocalTimeoutSimulated(cfg: Config, w: World, a: Address, m: RM.Manager, event: RM.Event)
    returns (trace: seq<Node>)
    requires ValidConfig(cfg) && WorldInv(cfg, w) && a in w.nodes && Recorded(cfg, m, w.nodes[a], a)
    requires event.LocalTimeoutEvent? && Admissible(cfg, w, m, event)
    requires event.round == m.currentRound && !m.syncOnly
    ensures Simulated(cfg, w, a, m, event, trace)
  {
    var LocalTimeoutEvent(round, hqc, execution, tc, io) := event;
    var middle := AfterBackup(w.nodes[a], m, round, hqc, execution, tc, io);
    var (m1, vote) := RM.BackupVote(m, round, hqc, execution, tc, io);
    trace := BackupDone(cfg, w, a, m, round, hqc, execution, tc, io);
    LocalTimeoutParts(w.nodes[a], m, event);
    if vote.Some? {
      StepsKeepWorldInv(cfg, w, a, trace, middle);
      var more := TimeoutAfterBackup(cfg, w, a, m1, middle, vote.value, hqc, tc, io);
      var (m2, signed) := RM.SignTimeoutVote(m1, vote.value, hqc, tc, io);
      TwoPartsSimulate(cfg, w, a, m, event, trace, middle, more, AfterTimeout(middle, m1, vote.value, hqc, tc, io),
                       m2, signed);
      trace := trace + more[1..];
    }
  }

  /** Initializing, and events that only touch memory or change nothing. */
  lemma {:induction false} OtherSteps(cfg: Config, w: World, a: Address, m: RM.Manager, event: RM.Event)
    returns (trace: seq<Node>)
    requires ValidConfig(cfg) && WorldInv(cfg, w) && a in w.nodes && w.nodes[a].state == m.safety
    requires !event.ProposalEvent? && Admissible(cfg, w, m, event)
    requires event.LocalTimeoutEvent? ==> event.round != m.currentRound || m.syncOnly
    ensures Steps(cfg, w, a, trace, NodeAfter(w.nodes[a], m, event))
  {
    var n, n' := w.nodes[a], NodeAfter(w.nodes[a], m, event);
    assert n'.log == n.log;
    if event.InitializeEvent? {
      trace := RefreshSteps(cfg, w, a, event.refresh);
      assert n' == n.(state := Refreshed(n.state, event.refresh).0);
    } else if event.RestartEvent? {
      assert NodeStep(cfg, w, n, n', CallRestart) && KnownSet(cfg, n'.state);
      OneStep(cfg, w, a, n');
      trace := [n, n'];
    } else {
      NoSteps(cfg, w, a);
      assert n' == n;
      trace := [n];
    }
  }

  lemma {:induction false} OtherRecords(cfg: Config, m: RM.Manager, n: Node, a: Address, event: RM.Event)
    requires Recorded(cfg, m, n, a) && !event.ProposalEvent?
    requires event.LocalTimeoutEvent? ==> event.round != m.currentRound || m.syncOnly
    ensures Recorded(cfg, RM.Handle(m, event).0, NodeAfter(n, m, event), a) && RM.Handle(m, event).1.None?
  {
    StaysRecorded(cfg, m, RM.Handle(m, event).0, n, NodeAfter(n, m, event), a);
  }

  /** Every event of the voter code, on any admissible input and with any failure of the storage, is a
      sequence of steps of the safety rules; every vote it sends has been signed by them. */
  lemma {:induction false} HandleRefines(cfg: Config, w: World, a: Address, m: RM.Manager, event: RM.Event)
    returns (trace: seq<Node>)
    requires ValidConfig(cfg) && WorldInv(cfg, w) && a in w.nodes && Recorded(cfg, m, w.nodes[a], a)
    requires Admissible(cfg, w, m, event)
    ensures Simulated(cfg, w, a, m, event, trace)
  {
    if event.ProposalEvent? {
      trace := ProposalSimulated(cfg, w, a, m, event);
    } else if event.LocalTimeoutEvent? && event.round == m.currentRound && !m.syncOnly {
      trace := LocalTimeoutSimulated(cfg, w, a, m, event);
    } else {
      trace := OtherSteps(cfg, w, a, m, event);
      OtherRecords(cfg, m, w.nodes[a], a, event);
    }
  }

  // ----- All replicas together -----

  /** The honest replicas, the logs of their safety rules, and the votes they have sent. */
  datatype System = System(world: World, managers: map<Address, RM.Manager>, sent: seq<Vote>)

  ghost predicate SystemInitial(cfg: Config, sys: System) {
    && Initial(cfg, sys.world) && sys.sent == [] && sys.managers.Keys == sys.world.nodes.Keys
    && forall a :: a in sys.managers ==>
         && sys.managers[a].safety == sys.world.nodes[a].state
         && sys.managers[a].voteSent.None? && sys.managers[a].savedVote.None?
  }

  /** Replica `a` handles an event; nothing is assumed about the outcome. */
  ghost predicate Handles(cfg: Config, sys: System, sys': System, a: Address, event: RM.Event) {
    && a in sys.managers && a in sys.world.nodes && Admissible(cfg, sys.world, sys.managers[a], event)
    && var (m', vote) := RM.Handle(sys.managers[a], event);
       sys' == System(World(sys.world.nodes[a := NodeAfter(sys.world.nodes[a], sys.managers[a], event)]),
                      sys.managers[a := m'], if vote.Some? then sys.sent + [vote.value] else sys.sent)
  }

  ghost predicate SystemStep(cfg: Config, sys: System, sys': System) {
    exists a, event :: Handles(cfg, sys, sys', a, event)
  }

  ghost predicate SystemStepAt(cfg: Config, run: seq<System>, i: nat)
    requires i + 1 < |run|
  {
    SystemStep(cfg, run[i], run[i + 1])
  }

  ghost predicate IsSystemRun(cfg: Config, run: seq<System>) {
    && run != [] && SystemInitial(cfg, run[0])
    && forall i: nat :: i + 1 < |run| ==> SystemStepAt(cfg, run, i)
  }

  /** Some honest replica's rules have signed the vote. */
  ghost predicate SignedBySender(cfg: Config, w: World, vote: Vote) {
    vote.author in w.nodes && Logged(cfg, w.nodes[vote.author], vote.author, vote)
  }

  ghost predicate SystemInv(cfg: Config, sys: System) {
    && sys.managers.Keys == sys.world.nodes.Keys
    && (forall a :: a in sys.managers ==> Recorded(cfg, sys.managers[a], sys.world.nodes[a], a))
    && (forall i :: 0 <= i < |sys.sent| ==> SignedBySender(cfg, sys.world, sys.sent[i]))
  }

  lemma {:induction false} RunGrowsBy(cfg: Config, run: seq<World>, a: Address, n': Node) returns (run': seq<World>)
    requires IsRun(cfg, run) && StepOrStutter(cfg, run[|run| - 1], a, n')
    ensures IsRun(cfg, run') && run'[|run'| - 1] == World(run[|run| - 1].nodes[a := n'])
  {
    var w := run[|run| - 1];
    if n' == w.nodes[a] {
      assert w.nodes[a := n'] == w.nodes;
      run' := run;
    } else {
      RunGrows(cfg, run, World(w.nodes[a := n']));
      run' := run + [World(w.nodes[a := n'])];
    }
  }

  /** A run continued by the steps of one node. */
  lemma {:induction false} StepsGrow(cfg: Config, run: seq<World>, a: Address, trace: seq<Node>, n': Node)
    returns (run': seq<World>)
    requires IsRun(cfg, run) && Steps(cfg, run[|run| - 1], a, trace, n')
    ensures IsRun(cfg, run') && run'[|run'| - 1] == World(run[|run| - 1].nodes[a := n'])
    decreases |trace|
  {
    var w := run[|run| - 1];
    if |trace| == 1 {
      assert w.nodes[a := n'] == w.nodes;
      run' := run;
    } else {
      StepsButLast(cfg, w, a, trace, n');
      var run1 := StepsGrow(cfg, run, a, trace[..|trace| - 1], trace[|trace| - 2]);
      run' := RunGrowsBy(cfg, run1, a, n');
    }
  }

  lemma {:induction false} SentStaysSigned(cfg: Config, w: World, w': World, vote: Vote)
    requires Grows(w, w') && SignedBySender(cfg, w, vote)
    ensures SignedBySender(cfg, w', vote)
  {
    LoggedPersists(cfg, w.nodes[vote.author], w'.nodes[vote.author], vote.author, vote);
  }

  /** The system after replica `a` changed to `m'` and `n'` and perhaps sent a vote. */
  function Updated(sys: System, a: Address, m': RM.Manager, n': Node, vote: Option<Vote>): System {
    System(World(sys.world.nodes[a := n']), sys.managers[a := m'],
           if vote.Some? then sys.sent + [vote.value] else sys.sent)
  }

  lemma {:induction false} UpdateKeepsInv(cfg: Config, sys: System, a: Address, m': RM.Manager, n': Node,
                                          vote: Option<Vote>)
    requires SystemInv(cfg, sys) && a in sys.managers && sys.world.nodes[a].log <= n'.log && Recorded(cfg, m', n', a)
    requires vote.Some? ==> Logged(cfg, n', a, vote.value)
    ensures SystemInv(cfg, Updated(sys, a, m', n', vote))
  {
    var sys' := Updated(sys, a, m', n', vote);
    assert sys'.managers.Keys == sys.managers.Keys && sys'.world.nodes.Keys == sys.world.nodes.Keys;
    forall i | 0 <= i < |sys'.sent|
      ensures SignedBySender(cfg, sys'.world, sys'.sent[i])
    {
      if i < |sys.sent| {
        SentStaysSigned(cfg, sys.world, sys'.world, sys.sent[i]);
      }
    }
  }

  lemma {:induction false} HandledBySteps(cfg: Config, sys: System, sys': System, a: Address, event: RM.Event)
    returns (trace: seq<Node>, m': RM.Manager, n': Node, vote: Option<Vote>)
    requires ValidConfig(cfg) && WorldInv(cfg, sys.world) && SystemInv(cfg, sys) && Handles(cfg, sys, sys', a, event)
    ensures a in sys.managers && sys' == Updated(sys, a, m', n', vote) && sys.world.nodes[a].log <= n'.log
    ensures Done(cfg, sys.world, a, trace, m', n', vote)
  {
    trace := HandleRefines(cfg, sys.world, a, sys.managers[a], event);
    m', vote := RM.Handle(sys.managers[a], event).0, RM.Handle(sys.managers[a], event).1;
    n' := NodeAfter(sys.world.nodes[a], sys.managers[a], event);
  }

  lemma {:induction false} HandlesKeepsInv(cfg: Config, sys: System, sys': System, a: Address, event: RM.Event,
                                           run: seq<World>)
    returns (run': seq<World>)
    requires ValidConfig(cfg) && SystemInv(cfg, sys) && Handles(cfg, sys, sys', a, event)
    requires IsRun(cfg, run) && run[|run| - 1] == sys.world
    ensures SystemInv(cfg, sys') && IsRun(cfg, run') && run'[|run'| - 1] == sys'.world
  {
    RunKeepsWorldInv(cfg, run, |run| - 1);
    var trace, m', n', vote := HandledBySteps(cfg, sys, sys', a, event);
    run' := StepsGrow(cfg, run, a, trace, n');
    UpdateKeepsInv(cfg, sys, a, m', n', vote);
  }

  lemma {:induction false} SystemStepRefines(cfg: Config, sys: System, sys': System, run: seq<World>)
    returns (run': seq<World>)
    requires ValidConfig(cfg) && SystemInv(cfg, sys) && SystemStep(cfg, sys, sys')
    requires IsRun(cfg, run) && run[|run| - 1] == sys.world
    ensures SystemInv(cfg, sys') && IsRun(cfg, run') && run'[|run'| - 1] == sys'.world
  {
    var a, event :| Handles(cfg, sys, sys', a, event);
    run' := HandlesKeepsInv(cfg, sys, sys', a, event, run);
  }

  lemma {:induction false} NextStateRefines(cfg: Config, run: seq<System>, i: nat, before: seq<World>)
    returns (rules: seq<World>)
    requires ValidConfig(cfg) && IsSystemRun(cfg, run) && i + 1 < |run| && SystemInv(cfg, run[i])
    requires IsRun(cfg, before) && before[|before| - 1] == run[i].world
    ensures SystemInv(cfg, run[i + 1]) && IsRun(cfg, rules) && rules[|rules| - 1] == run[i + 1].world
  {
    assert SystemStepAt(cfg, run, i);
    rules := SystemStepRefines(cfg, run[i], run[i + 1], before);
  }

  lemma {:induction false} SystemInitialInv(cfg: Config, sys: System)
    requires SystemInitial(cfg, sys)
    ensures SystemInv(cfg, sys) && IsRun(cfg, [sys.world])
  {
  }

  /** In every run of the replicas, the rules behind them are in a state that a run of the rules
      reaches, and every vote sent was signed by the rules of its author. */
  lemma {:induction false} SystemRunRefines(cfg: Config, run: seq<System>, i: nat) returns (rules: seq<World>)
    requires ValidConfig(cfg) && IsSystemRun(cfg, run) && i < |run|
    ensures SystemInv(cfg, run[i]) && IsRun(cfg, rules) && rules[|rules| - 1] == run[i].world
  {
    if i == 0 {
      SystemInitialInv(cfg, run[0]);
      rules := [run[0].world];
    } else {
      var before := SystemRunRefines(cfg, run, i - 1);
      rules := NextStateRefines(cfg, run, i - 1, before);
    }
  }

  // ----- Agreement of the replicas -----

  /** A vote as it arrives: verified and, if signed with an honest key, sent by its holder with that
      signature. */
  ghost predicate Arrived(cfg: Config, sys: System, e: nat, vote: Vote) {
    && vote.Verify(VerifierOf(cfg, e)) && vote.voteData.proposed.epoch == e
    && (vote.signature.publicKey in cfg.honest ==>
          exists k :: 0 <= k < |sys.sent| && sys.sent[k].author == vote.signature.publicKey
                      && sys.sent[k].signature == vote.signature)
  }

  lemma {:induction false} ArrivedIsReceived(cfg: Config, sys: System, e: nat, votes: seq<Vote>)
    requires SystemInv(cfg, sys) && sys.world.nodes.Keys == cfg.honest
    requires forall i :: 0 <= i < |votes| ==> Arrived(cfg, sys, e, votes[i])
    ensures VoteCertificates.Received(cfg, sys.world, e, votes)
  {
    forall i | 0 <= i < |votes|
      ensures VoteCertificates.ReceivedVote(cfg, sys.world, e, votes[i])
    {
      var key := votes[i].signature.publicKey;
      if key in sys.world.nodes {
        var k :| 0 <= k < |sys.sent| && sys.sent[k].author == key && sys.sent[k].signature == votes[i].signature;
        assert SignedBySender(cfg, sys.world, sys.sent[k]);
      }
    }
  }

  lemma {:induction false} RunReceives(cfg: Config, run: seq<System>, e: nat, votes: seq<Vote>)
    returns (rules: seq<World>)
    requires ValidConfig(cfg) && IsSystemRun(cfg, run)
    requires forall i :: 0 <= i < |votes| ==> Arrived(cfg, run[|run| - 1], e, votes[i])
    ensures IsRun(cfg, rules) && rules[|rules| - 1] == run[|run| - 1].world
    ensures VoteCertificates.Received(cfg, rules[|rules| - 1], e, votes)
  {
    rules := SystemRunRefines(cfg, run, |run| - 1);
    RunKeepsWorldInv(cfg, rules, |rules| - 1);
    ArrivedIsReceived(cfg, run[|run| - 1], e, votes);
  }

  lemma {:induction false} AlsoReceived(cfg: Config, run: seq<System>, rules: seq<World>, e: nat, votes: seq<Vote>)
    requires ValidConfig(cfg) && IsSystemRun(cfg, run)
    requires rules != [] && rules[|rules| - 1] == run[|run| - 1].world
    requires forall i :: 0 <= i < |votes| ==> Arrived(cfg, run[|run| - 1], e, votes[i])
    ensures VoteCertificates.Received(cfg, rules[|rules| - 1], e, votes)
  {
    var _ := RunReceives(cfg, run, e, votes);
  }

  /** Whatever the replicas were shown and whatever the others send: two collectors never certify
      different ledger infos in one round. */
  lemma {:induction false} CollectorsAgree(cfg: Config, run: seq<System>, e: nat, one: seq<Vote>, two: seq<Vote>)
    requires ValidConfig(cfg) && IsSystemRun(cfg, run) && one != [] && two != []
    requires forall i :: 0 <= i < |one| ==> Arrived(cfg, run[|run| - 1], e, one[i])
    requires forall i :: 0 <= i < |two| ==> Arrived(cfg, run[|run| - 1], e, two[i])
    requires PendingVotes.Run(one, VerifierOf(cfg, e)).1[|one| - 1].NewQuorumCertificate?
    requires PendingVotes.Run(two, VerifierOf(cfg, e)).1[|two| - 1].NewQuorumCertificate?
    requires one[|one| - 1].Round() == two[|two| - 1].Round()
    ensures PendingVotes.Run(one, VerifierOf(cfg, e)).1[|one| - 1].qc.signedLedgerInfo.ledgerInfo
         == PendingVotes.Run(two, VerifierOf(cfg, e)).1[|two| - 1].qc.signedLedgerInfo.ledgerInfo
  {
    var rules := RunReceives(cfg, run, e, one);
    AlsoReceived(cfg, run, rules, e, two);
    VoteCertificates.ReplicasAgree(cfg, rules, e, one, two);
  }

  /** No collector ever answers the vote of an honest replica as equivocation. */
  lemma {:induction false} ReplicasNeverEquivocate(cfg: Config, run: seq<System>, e: nat, votes: seq<Vote>, i: nat)
    requires ValidConfig(cfg) && IsSystemRun(cfg, run)
    requires forall k :: 0 <= k < |votes| ==> Arrived(cfg, run[|run| - 1], e, votes[k])
    requires i < |votes| && votes[i].author in cfg.honest && VoteCertificates.OneRound(votes, e, votes[i].Round())
    ensures !PendingVotes.Run(votes, VerifierOf(cfg, e)).1[i].EquivocateVote?
  {
    var rules := RunReceives(cfg, run, e, votes);
    VoteCertificates.HonestNeverEquivocates(cfg, rules, e, votes, i);
  }

  // ----- What the replicas send is accepted -----

  /** A certificate of round 0 carries no signatures, so its version may be any; that the version does not
      go down from a certified parent is proved. */
  ghost predicate GrowsFromGenesis(voteData: VoteData) {
    voteData.parent.round == 0 ==>
      voteData.proposed.version == 0 || voteData.parent.version <= voteData.proposed.version
  }

  lemma {:induction false} ParentCounts(cfg: Config, w: World, a: Address, entry: Entry)
    requires ValidConfig(cfg) && WorldInv(cfg, w) && entry.Voted? && EntryOk(cfg, a, entry) && EntryDerivable(w, entry)
    requires cfg.coupled(entry.block.epoch) && entry.block.quorumCert.CertifiedBlock().round > 0
    ensures var parent := entry.vote.voteData.parent; parent.version == AccumulatorVersion(parent.executedStateId)
  {
    var qc := entry.block.quorumCert;
    var b, k := CommitSafety.SomeHonestVote(cfg, w, entry.block.epoch, qc);
  }

  lemma {:induction false} VoteDataVerifies(cfg: Config, w: World, a: Address, entry: Entry)
    requires ValidConfig(cfg) && WorldInv(cfg, w) && entry.Voted? && EntryOk(cfg, a, entry) && EntryDerivable(w, entry)
    ensures entry.vote.voteData.Verify() <==> GrowsFromGenesis(entry.vote.voteData)
  {
    if cfg.coupled(entry.block.epoch) && entry.block.quorumCert.CertifiedBlock().round > 0 {
      ParentCounts(cfg, w, a, entry);
    }
  }

  lemma {:induction false} LoggedVoteVerifies(cfg: Config, w: World, a: Address, vote: Vote)
    requires ValidConfig(cfg) && WorldInv(cfg, w) && a in w.nodes && Logged(cfg, w.nodes[a], a, vote)
    ensures var v := VerifierOf(cfg, vote.voteData.proposed.epoch);
            vote.Verify(v) <==> a in v.validators && GrowsFromGenesis(vote.voteData)
  {
    assert ValidEpoch(cfg, vote.voteData.proposed.epoch);
    var log := w.nodes[a].log;
    var k :| 0 <= k < |log| && log[k].Voted? && log[k].vote.ledgerInfo == vote.ledgerInfo;
    assert NodeInv(cfg, a, w.nodes[a]);
    VoteDataVerifies(cfg, w, a, log[k]);
  }

  /** A vote that a replica sends, for a proposal, repeated, for a NIL block or with a timeout of either
      kind, passes the check with which collectors receive votes exactly if the replica is in the set. The
      one exception is a block that claims to grow from a genesis block with more transactions. */
  lemma {:induction false} SentVotesVerify(cfg: Config, run: seq<System>, i: nat)
    requires ValidConfig(cfg) && IsSystemRun(cfg, run) && i < |run[|run| - 1].sent|
    ensures var vote := run[|run| - 1].sent[i]; var v := VerifierOf(cfg, vote.voteData.proposed.epoch);
            vote.Verify(v) <==> vote.author in v.validators && GrowsFromGenesis(vote.voteData)
  {
    var rules := SystemRunRefines(cfg, run, |run| - 1);
    RunKeepsWorldInv(cfg, rules, |rules| - 1);
    var vote := run[|run| - 1].sent[i];
    assert SignedBySender(cfg, run[|run| - 1].world, vote);
    LoggedVoteVerifies(cfg, run[|run| - 1].world, vote.author, vote);
  }
}
