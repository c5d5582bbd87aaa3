/** The wrapper through which a replica reaches its safety rules: it brings them up to the current epoch
    with page after page of epoch changes, and repeats a request that found them behind
    (consensus/src/metrics_safety_rules.rs). */
module MetricsSafetyRules {
  import opened Wrappers
  import opened Validators
  import opened Types
  import opened EpochChange
  import opened SafetyRules
  import opened FullNode

  type Storage = nat -> Option<EpochChangeProof>

  /** How the secure storage behaves while the rules are initialized from a waypoint version. */
  type Io = nat -> InitializeIo

  ghost predicate Works(io: Io) {
    forall version: nat :: io(version).Works()
  }

  /** Storage knows no epoch change beyond its ledger version. */
  ghost predicate Bounded(storage: Storage, ledgerVersion: nat) {
    forall version: nat :: storage(version).Some? ==>
      forall i :: 0 <= i < |storage(version).value.lis| ==> VersionOf(storage(version).value.lis[i]) <= ledgerVersion
  }

  predicate Again(r: Result<(), Error>) {
    r.Err? && r.error.WaypointOutOfDate? && r.error.previousVersion < r.error.currentVersion
  }

  /** One more page is asked for exactly when this one moved the waypoint forward, and then the
      waypoint is where the error says it is. */
  lemma {:induction false} AgainMovesWaypoint(s: State, storage: Storage, ledgerVersion: nat, io: Io)
    requires Bounded(storage, ledgerVersion) && storage(s.waypoint.version).Some?
    requires var (_, r) := Initialize(s, storage(s.waypoint.version).value, io(s.waypoint.version)); Again(r)
    ensures var (s', r) := Initialize(s, storage(s.waypoint.version).value, io(s.waypoint.version));
            s.waypoint.version < s'.waypoint.version == r.error.currentVersion <= ledgerVersion
  {
    var lis := storage(s.waypoint.version).value.lis;
    AcceptedIff(ByWaypoint(s.waypoint), lis, FirstFresh(ByWaypoint(s.waypoint), lis, 0));
  }

  /** What the loop computes. */
  function Initialized(s: State, storage: Storage, ledgerVersion: nat, io: Io): (State, Result<(), Error>)
    requires Bounded(storage, ledgerVersion)
    decreases ledgerVersion - s.waypoint.version
  {
    if storage(s.waypoint.version).None? then (s, Err(InternalError))
    else
      var proof := storage(s.waypoint.version).value;
      var (s', r) := Initialize(s, proof, io(s.waypoint.version));
      if Again(r) then
        AgainMovesWaypoint(s, storage, ledgerVersion, io);
        Initialized(s', storage, ledgerVersion, io)
      else (s', r)
  }

  /** The loop of the source ends, since the waypoint version grows up to the ledger version. Whether
      the state of the rules can be read at all is `readable`. */
  method PerformInitialize(rules: SafetyRulesService, storage: Storage, ghost ledgerVersion: nat, io: Io,
                           readable: bool)
    returns (r: Result<(), Error>)
    requires Bounded(storage, ledgerVersion)
    modifies rules
    ensures !readable ==> rules.Current() == old(rules.Current()) && r == Err(SecureStorageUnexpectedError)
    ensures readable ==>
              (rules.Current(), r) == Initialized(old(rules.Current()), storage, ledgerVersion, io)
  {
    if !readable {
      return Err(SecureStorageUnexpectedError);
    }
    var waypointVersion := rules.waypoint.version;
    while true
      invariant waypointVersion == rules.waypoint.version
      invariant Initialized(rules.Current(), storage, ledgerVersion, io)
             == Initialized(old(rules.Current()), storage, ledgerVersion, io)
      decreases ledgerVersion - rules.waypoint.version
    {
      var proof := storage(waypointVersion);
      if proof.None? {
        return Err(InternalError);
      }
      ghost var before := rules.Current();
      r := rules.GuardedInitialize(proof.value, io(waypointVersion));
      if !Again(r) {
        return;
      }
      AgainMovesWaypoint(before, storage, ledgerVersion, io);
      waypointVersion := r.error.currentVersion;
    }
  }

  /** The loop only ever moves the waypoint forward and never gives up while it moves. */
  lemma {:induction false} InitializedMonotone(s: State, storage: Storage, ledgerVersion: nat, io: Io)
    requires Bounded(storage, ledgerVersion)
    ensures var (s', r) := Initialized(s, storage, ledgerVersion, io);
            s.waypoint.version <= s'.waypoint.version && s.safetyData.epoch <= s'.safetyData.epoch && !Again(r)
    decreases ledgerVersion - s.waypoint.version
  {
    if storage(s.waypoint.version).Some? {
      var (s1, r1) := Initialize(s, storage(s.waypoint.version).value, io(s.waypoint.version));
      if Again(r1) {
        AgainMovesWaypoint(s, storage, ledgerVersion, io);
        InitializedMonotone(s1, storage, ledgerVersion, io);
      }
    }
  }

  // ----- Repeating a request -----

  /** What initializing finds: the epoch changes of the database, up to its ledger version, the secure
      storage, and whether the state of the rules can be read. */
  datatype Surroundings = Surroundings(storage: Storage, ledgerVersion: nat, io: Io, readable: bool)

  type Refresh = r: Surroundings | Bounded(r.storage, r.ledgerVersion)
    ghost witness Surroundings((_: nat) => None, 0,
                               (_: nat) => InitializeIo(true, true, true, true, true, KeyFound), true)

  /** The state and the answer after initializing. */
  function Refreshed(s: State, refresh: Refresh): (State, Result<(), Error>) {
    if !refresh.readable then (s, Err(SecureStorageUnexpectedError))
    else Initialized(s, refresh.storage, refresh.ledgerVersion, refresh.io)
  }

  datatype Request =
    | AskVote(p: MaybeSignedVoteProposal)
    | AskVoteTwoChain(p: MaybeSignedVoteProposal, tc: Option<TwoChainTimeoutCertificate>)
    | AskTimeout(timeout: Timeout)
    | AskTimeoutTwoChain(twoChainTimeout: TwoChainTimeout, tc: Option<TwoChainTimeoutCertificate>)
  {
    predicate IsVote() {
      AskVote? || AskVoteTwoChain?
    }
  }

  function EpochAsked(request: Request): nat {
    match request
    case AskVote(p) => p.voteProposal.block.data.epoch
    case AskVoteTwoChain(p, _) => p.voteProposal.block.data.epoch
    case AskTimeout(t) => t.epoch
    case AskTimeoutTwoChain(t, _) => t.epoch
  }

  datatype Answer =
    | Voting(vote: Vote)
    | TimingOut(signature: Signature<Timeout>)
    | TimingOutTwoChain(twoChainSignature: Signature<TimeoutSigningRepr>)

  predicate Fits(request: Request, answer: Answer) {
    match request
    case AskVote(_) => answer.Voting?
    case AskVoteTwoChain(_, _) => answer.Voting?
    case AskTimeout(_) => answer.TimingOut?
    case AskTimeoutTwoChain(_, _) => answer.TimingOutTwoChain?
  }

  /** The secure storage and the clock during one call of the rules. */
  datatype Attempt = Attempt(io: SecureIo, now: nat)

  function Map<T, U>(r: Result<T, Error>, f: T -> U): Result<U, Error> {
    if r.Err? then Err(r.error) else Ok(f(r.value))
  }

  /** One call of the rules. */
  function Serve(s: State, request: Request, attempt: Attempt): (result: (State, Result<Answer, Error>))
    ensures result.1.Ok? ==> Fits(request, result.1.value)
  {
    match request
    case AskVote(p) =>
      var (sd, r) := VoteOutcome(s, p, ConstructVote(s, p, attempt.now), attempt.io);
      (s.(safetyData := sd), Map(r, (vote: Vote) => Voting(vote)))
    case AskVoteTwoChain(p, tc) =>
      var (sd, r) := VoteOutcome(s, p, ConstructVoteTwoChain(s, p, tc, attempt.now), attempt.io);
      (s.(safetyData := sd), Map(r, (vote: Vote) => Voting(vote)))
    case AskTimeout(t) =>
      var (sd, r) := TimeoutOutcome(s, ConstructTimeout(s, t), attempt.io);
      (s.(safetyData := sd), Map(r, (signature: Signature<Timeout>) => TimingOut(signature)))
    case AskTimeoutTwoChain(t, tc) =>
      var (sd, r) := TimeoutOutcome(s, ConstructTimeoutTwoChain(s, t, tc), attempt.io);
      (s.(safetyData := sd), Map(r, (signature: Signature<TimeoutSigningRepr>) => TimingOutTwoChain(signature)))
  }

  /** The errors that say that the rules are not initialized, or not in the epoch of the request. */
  predicate Behind<T>(r: Result<T, Error>) {
    r.Err? && (r.error.NotInitialized? || r.error.IncorrectEpoch? || r.error.WaypointOutOfDate?)
  }

  datatype CallIo = CallIo(first: Attempt, refresh: Refresh, second: Attempt)

  /** The request once, or initializing and the request once more. */
  function Retried(s: State, request: Request, io: CallIo): (result: (State, Result<Answer, Error>))
    ensures result.1.Ok? ==> Fits(request, result.1.value)
  {
    var (s1, r1) := Serve(s, request, io.first);
    if !Behind(r1) then (s1, r1)
    else
      var (s2, r2) := Refreshed(s1, io.refresh);
      if r2.Err? then (s2, Err(r2.error)) else Serve(s2, request, io.second)
  }

  method Ask(rules: SafetyRulesService, request: Request, attempt: Attempt) returns (r: Result<Answer, Error>)
    modifies rules
    ensures (rules.Current(), r) == Serve(old(rules.Current()), request, attempt)
  {
    match request
    case AskVote(p) =>
      var vote := rules.GuardedConstructAndSignVote(p, attempt.now, attempt.io);
      r := if vote.Err? then Err(vote.error) else Ok(Voting(vote.value));
    case AskVoteTwoChain(p, tc) =>
      var vote := rules.GuardedConstructAndSignVoteTwoChain(p, tc, attempt.now, attempt.io);
      r := if vote.Err? then Err(vote.error) else Ok(Voting(vote.value));
    case AskTimeout(t) =>
      var signature := rules.GuardedSignTimeout(t, attempt.io);
      r := if signature.Err? then Err(signature.error) else Ok(TimingOut(signature.value));
    case AskTimeoutTwoChain(t, tc) =>
      var signature := rules.GuardedSignTimeoutWithQc(t, tc, attempt.io);
      r := if signature.Err? then Err(signature.error) else Ok(TimingOutTwoChain(signature.value));
  }

  method Retry(rules: SafetyRulesService, request: Request, io: CallIo) returns (r: Result<Answer, Error>)
    modifies rules
    ensures (rules.Current(), r) == Retried(old(rules.Current()), request, io)
  {
    r := Ask(rules, request, io.first);
    if Behind(r) {
      var initialized := PerformInitialize(rules, io.refresh.storage, io.refresh.ledgerVersion, io.refresh.io,
                                           io.refresh.readable);
      if initialized.Err? {
        return Err(initialized.error);
      }
      r := Ask(rules, request, io.second);
    }
  }

  /** A request that found the rules behind changed nothing, so that the second time is like a first. */
  lemma {:induction false} BehindChangesNothing(s: State, request: Request, attempt: Attempt)
    requires Behind(Serve(s, request, attempt).1)
    ensures Serve(s, request, attempt).0 == s
  {
  }

  /** The three errors that say that the rules are behind. */
  ghost predicate RefusedAsBehind(r: Result<Answer, Error>) {
    || r == Err(NotInitialized)
    || (exists epoch, expected :: r == Err(IncorrectEpoch(epoch, expected)))
    || (exists previous, current, epoch, provided :: r == Err(WaypointOutOfDate(previous, current, epoch, provided)))
  }

  lemma {:induction false} BehindIff(r: Result<Answer, Error>)
    ensures Behind(r) <==> RefusedAsBehind(r)
  {
    if r.Err? && r.error.IncorrectEpoch? {
      assert r == Err(IncorrectEpoch(r.error.epoch, r.error.expected));
    } else if r.Err? && r.error.WaypointOutOfDate? {
      assert r == Err(WaypointOutOfDate(r.error.previousVersion, r.error.currentVersion, r.error.currentEpoch,
                                        r.error.providedEpoch));
    }
  }

  /** The executor has signed the proposal, if the rules know its key. */
  ghost predicate ExecutorSigned(s: State, request: Request) {
    request.IsVote() && s.executionKey.Some? ==>
      request.p.signature == Some(Signature(s.executionKey.value, request.p.voteProposal))
  }

  /** The rules are found behind exactly if they have no signer, or are in another epoch than the request,
      or need a set to check its certificate and have none. */
  lemma {:induction false} FoundBehindIff(s: State, request: Request, attempt: Attempt)
    ensures RefusedAsBehind(Serve(s, request, attempt).1) <==>
            || s.signer.None?
            || (&& attempt.io.readable && ExecutorSigned(s, request)
                && (EpochAsked(request) != s.safetyData.epoch || (!request.AskTimeout? && s.epochState.None?)))
  {
    BehindIff(Serve(s, request, attempt).1);
    if request.IsVote() && s.signer.Some? && ExecutorSigned(s, request) {
      VoteBehindIff(s, request.p, if request.AskVote? then None else request.tc, attempt.now);
    }
  }

  lemma {:induction false} VoteBehindIff(s: State, p: MaybeSignedVoteProposal, tc: Option<TwoChainTimeoutCertificate>,
                                         now: nat)
    requires s.signer.Some? && VerifyExecutionSignature(s, p).Ok?
    ensures var behind := p.voteProposal.block.data.epoch != s.safetyData.epoch || s.epochState.None?;
            && (Behind(ConstructVote(s, p, now)) <==> behind)
            && (Behind(ConstructVoteTwoChain(s, p, tc, now)) <==> behind)
  {
    assert Behind(VerifyProposal(s, p, now)) <==>
           p.voteProposal.block.data.epoch != s.safetyData.epoch || s.epochState.None?;
  }

  /** Which requests are repeated, error by error, and what comes of them: after one of the three errors
      the answer is that of the rules once they are initialized, or the error of initializing; every
      other answer stands. */
  lemma {:induction false} RetriedExact(s: State, request: Request, io: CallIo)
    ensures var first := Serve(s, request, io.first);
            if !RefusedAsBehind(first.1) then Retried(s, request, io) == first
            else
              var (s', initialized) := Refreshed(s, io.refresh);
              if initialized.Ok? then Retried(s, request, io) == Serve(s', request, io.second)
              else Retried(s, request, io).0 == s' && Retried(s, request, io).1 == Err(initialized.error)
  {
    BehindIff(Serve(s, request, io.first).1);
    if Behind(Serve(s, request, io.first).1) {
      BehindChangesNothing(s, request, io.first);
      var (s', initialized) := Refreshed(s, io.refresh);
      assert initialized.Err? ==> Retried(s, request, io) == (s', Err(initialized.error));
    }
  }

  // ----- Against an honest node -----

  function NodeStorage(srv: Server, limit: nat): Storage {
    (version: nat) =>
      var p := GetStateProof(srv, version, limit);
      if p.None? then None else Some(p.value.epochChanges)
  }

  /** Where a page that begins with epoch `e` ends. */
  function PageEnd(srv: Server, limit: nat, e: nat): nat {
    if |srv.endings| - e > limit then e + limit else |srv.endings|
  }

  ghost predicate StandsAt(srv: Server, s: State, e: nat) {
    e < |srv.endings| && s.waypoint == NewAny(srv.endings[e].ledgerInfo)
  }

  lemma {:induction false} NodeAnswers(srv: Server, limit: nat, e: nat)
    requires ValidServer(srv) && e < |srv.endings| && limit >= 1
    ensures NodeStorage(srv, limit)(VersionOf(srv.endings[e]))
         == Some(EpochChangeProof(srv.endings[e..PageEnd(srv, limit, e)], |srv.endings| - e > limit))
  {
    NextBlockEpochIs(srv);
    var n := |srv.endings|;
    if e > 0 {
      assert Earlier(srv, e - 1, e);
    }
    if e < n - 1 {
      assert Earlier(srv, e, n - 1);
    }
    GetEpochIs(srv, n, VersionOf(srv.endings[e]), e);
  }

  /** The page begins with the ledger info of the waypoint itself, so it verifies from there. */
  lemma {:induction false} PageFromWaypoint(srv: Server, e: nat, stop: nat)
    requires ValidServer(srv) && e < stop <= |srv.endings|
    ensures VerifyProof(ByWaypoint(NewAny(srv.endings[e].ledgerInfo)), srv.endings[e..stop])
            == Ok(srv.endings[stop - 1])
    ensures Next(srv.endings[stop - 1]) == Some(srv.epochStates(stop)) && srv.epochStates(stop).epoch == stop
    ensures e < stop - 1 ==> VersionOf(srv.endings[e]) < VersionOf(srv.endings[stop - 1])
  {
    var v := ByWaypoint(NewAny(srv.endings[e].ledgerInfo));
    var lis := srv.endings[e..stop];
    forall i | 0 < i < |lis|
      ensures Linked(lis, i)
    {
      EndingLinked(srv, lis, e, i);
    }
    forall i | 0 <= i < |lis|
      ensures Next(lis[i]).Some?
    {
      assert ValidEnding(srv, e + i);
    }
    assert ValidEnding(srv, stop - 1);
    assert e < stop - 1 ==> Earlier(srv, e, stop - 1);
    AtMostOneStale(v, lis, 0);
  }

  /** The rules have entered the epoch of the set. They have a signer, under the key that the set has for
      the validator, exactly if initializing succeeded; if the key is found, it fails exactly if the
      validator is not in the set. */
  ghost predicate EntersWith(s: State, r: Result<(), Error>, es: EpochState, found: bool) {
    && s.epochState == Some(es) && s.safetyData.epoch == es.epoch
    && (r.Ok? <==> s.signer.Some?)
    && (r.Ok? ==> s.author in es.verifier.validators
                  && s.signer.value.publicKey == es.verifier.validators[s.author].publicKey)
    && (s.author !in es.verifier.validators ==> r == Err(ValidatorNotInSet))
    && (s.author in es.verifier.validators && found ==> r.Ok?)
    && (r.Err? ==>
          r.error.ValidatorNotInSet? || r.error.ValidatorKeyNotFound? || r.error.SecureStorageUnexpectedError?)
  }

  ghost predicate KeysFound(io: Io) {
    forall version: nat :: io(version).key.KeyFound?
  }

  /** What initializing with an accepted proof does when the storage works. */
  lemma {:induction false} InitializeWorks(s: State, proof: EpochChangeProof, last: LedgerInfoWithSignatures,
                                           io: InitializeIo)
    requires io.Works() && Next(last).Some?
    requires VerifyProof(ByWaypoint(s.waypoint), proof.lis) == Ok(last) && s.waypoint.version <= VersionOf(last)
    ensures var (s', r) := Initialize(s, proof, io); var es := Next(last).value;
            && s'.waypoint == (if VersionOf(last) > s.waypoint.version then NewAny(last.ledgerInfo) else s.waypoint)
            && (s.safetyData.epoch > es.epoch ==>
                  && r == Err(WaypointOutOfDate(s.waypoint.version, VersionOf(last), s.safetyData.epoch, es.epoch))
                  && s'.safetyData == s.safetyData)
            && (s.safetyData.epoch <= es.epoch ==> EntersWith(s', r, es, io.key.KeyFound?))
  {
  }

  /** One answer of the node brings the rules to the end of the page. */
  lemma {:induction false} OnePage(srv: Server, limit: nat, s: State, e: nat, io: Io)
    requires Works(io)
    requires ValidServer(srv) && limit >= 1 && StandsAt(srv, s, e)
    ensures NodeStorage(srv, limit)(s.waypoint.version).Some?
    ensures var stop := PageEnd(srv, limit, e);
            var (s', r) := Initialize(s, NodeStorage(srv, limit)(s.waypoint.version).value, io(s.waypoint.version));
            && StandsAt(srv, s', stop - 1)
            && (Again(r) <==> s.safetyData.epoch > stop && stop - 1 > e)
            && (s.safetyData.epoch > stop ==> r.Err? && r.error.WaypointOutOfDate? && s'.safetyData == s.safetyData)
            && (s.safetyData.epoch <= stop ==> Entered(srv, s', r, stop, io))
  {
    var stop := PageEnd(srv, limit, e);
    NodeAnswers(srv, limit, e);
    PageFromWaypoint(srv, e, stop);
    InitializeWorks(s, NodeStorage(srv, limit)(s.waypoint.version).value, srv.endings[stop - 1],
                    io(s.waypoint.version));
  }

  /** The rules are in epoch `k` of the chain; what can still fail is finding the validator in it, or
      its key. */
  ghost predicate Entered(srv: Server, s: State, r: Result<(), Error>, k: nat, io: Io) {
    srv.epochStates(k).epoch == k && EntersWith(s, r, srv.epochStates(k), KeysFound(io))
  }

  lemma {:induction false} NodeBounded(srv: Server, limit: nat)
    requires ValidServer(srv)
    ensures Bounded(NodeStorage(srv, limit), VersionOf(srv.latest))
  {
    forall version: nat, i |
      NodeStorage(srv, limit)(version).Some? && 0 <= i < |NodeStorage(srv, limit)(version).value.lis|
      ensures VersionOf(NodeStorage(srv, limit)(version).value.lis[i]) <= VersionOf(srv.latest)
    {
      var li := NodeStorage(srv, limit)(version).value.lis[i];
      NextBlockEpochIs(srv);
      assert li in srv.endings;
      var e: nat :| e < |srv.endings| && srv.endings[e] == li;
      assert e < |srv.endings| - 1 ==> Earlier(srv, e, |srv.endings| - 1);
    }
  }

  // ----- Which epoch is entered -----

  /** Where the `j`-th page ends, seen from a waypoint at the end of epoch `e`: pages overlap in one entry. */
  function PageStop(limit: nat, e: nat, j: nat): nat
    requires limit >= 1
  {
    e + 1 + j * (limit - 1)
  }

  /** The number of the first page that reaches `epoch`. */
  function PagesTo(limit: nat, e: nat, epoch: nat): nat
    requires limit >= 2
  {
    if epoch <= e + limit then 1 else (epoch - e - 2) / (limit - 1) + 1
  }

  lemma {:induction false} Quotient(x: nat, d: nat, q: nat)
    requires d >= 1
    ensures x / d * d <= x < (x / d + 1) * d
    ensures x < q * d ==> x / d < q
  {
    if q <= x / d {
      assert q * d <= x / d * d;
    }
  }

  /** It reaches it, and no page before does. */
  lemma {:induction false} PagesToIsLeast(limit: nat, e: nat, epoch: nat, j: nat)
    requires limit >= 2 && j >= 1
    ensures epoch <= PageStop(limit, e, PagesTo(limit, e, epoch))
    ensures epoch <= PageStop(limit, e, j) ==> PagesTo(limit, e, epoch) <= j
  {
    if epoch > e + limit {
      Quotient(epoch - e - 2, limit - 1, j);
    }
  }

  /** After a page that does not reach it there is one page less to go. */
  lemma {:induction false} OnePageLess(limit: nat, e: nat, epoch: nat)
    requires limit >= 2 && epoch > e + limit
    ensures PageStop(limit, e + limit - 1, PagesTo(limit, e + limit - 1, epoch))
         == PageStop(limit, e, PagesTo(limit, e, epoch))
  {
    var e', d := e + limit - 1, limit - 1;
    var p, p' := PagesTo(limit, e, epoch), PagesTo(limit, e', epoch);
    assert forall j: nat :: PageStop(limit, e', j) == PageStop(limit, e, j + 1) by {
      forall j: nat
        ensures e + 1 + (j + 1) * d == e' + 1 + j * d
      {
        assert (j + 1) * d == j * d + d;
      }
    }
    PagesToIsLeast(limit, e, epoch, p' + 1);
    PagesToIsLeast(limit, e', epoch, p');
    PagesToIsLeast(limit, e, epoch, 1);
    assert p >= 2;
    PagesToIsLeast(limit, e', epoch, p - 1);
  }

  /** The epoch that rules with a waypoint at the end of epoch `e`, which voted in `epoch`, enter: the one
      after the first page that reaches theirs, or the node's. */
  function EpochEntered(srv: Server, limit: nat, e: nat, epoch: nat): nat
    requires limit >= 2
  {
    var stop := PageStop(limit, e, PagesTo(limit, e, epoch));
    if stop < |srv.endings| then stop else |srv.endings|
  }

  /** They enter the node's epoch exactly if no page ends between theirs and the node's. */
  lemma {:induction false} EntersNodesEpochIff(srv: Server, limit: nat, e: nat, epoch: nat)
    requires limit >= 2
    ensures EpochEntered(srv, limit, e, epoch) == |srv.endings| <==>
            forall j: nat :: j >= 1 ==> !(epoch <= PageStop(limit, e, j) < |srv.endings|)
  {
    var p := PagesTo(limit, e, epoch);
    PagesToIsLeast(limit, e, epoch, 1);
    forall j: nat | j >= 1 && epoch <= PageStop(limit, e, j)
      ensures PageStop(limit, e, p) <= PageStop(limit, e, j)
    {
      PagesToIsLeast(limit, e, epoch, j);
      assert p * (limit - 1) <= j * (limit - 1);
    }
  }

  /** The rules enter the epoch of the chain that the pages lead to if the node is not behind `epoch`, the
      one they last voted in; otherwise the waypoint is at the node's last epoch change. */
  ghost predicate BroughtUp(srv: Server, limit: nat, e: nat, epoch: nat, s: State, r: Result<(), Error>, io: Io)
    requires limit >= 2
  {
    if epoch <= |srv.endings| then Entered(srv, s, r, EpochEntered(srv, limit, e, epoch), io)
    else srv.endings != [] && r.Err? && r.error.WaypointOutOfDate? && StandsAt(srv, s, |srv.endings| - 1)
  }

  lemma {:induction false} LastPage(srv: Server, limit: nat, s: State, e: nat, io: Io)
    requires Works(io)
    requires ValidServer(srv) && limit >= 2 && StandsAt(srv, s, e)
    requires NodeStorage(srv, limit)(s.waypoint.version).Some?
    requires var (_, r) := Initialize(s, NodeStorage(srv, limit)(s.waypoint.version).value, io(s.waypoint.version));
             !Again(r)
    ensures var (s', r) := Initialize(s, NodeStorage(srv, limit)(s.waypoint.version).value, io(s.waypoint.version));
            BroughtUp(srv, limit, e, s.safetyData.epoch, s', r, io)
  {
    OnePage(srv, limit, s, e, io);
    PagesToIsLeast(limit, e, s.safetyData.epoch, 1);
  }

  /** A page that does not reach the epoch leaves the epoch to be entered as it was. */
  lemma {:induction false} EpochEnteredNext(srv: Server, limit: nat, e: nat, epoch: nat)
    requires limit >= 2 && PageEnd(srv, limit, e) < epoch <= |srv.endings|
    ensures EpochEntered(srv, limit, PageEnd(srv, limit, e) - 1, epoch) == EpochEntered(srv, limit, e, epoch)
  {
    OnePageLess(limit, e, epoch);
  }

  /** Against an honest node whose pages hold at least two epoch changes, the loop brings the rules into
      exactly that epoch. */
  lemma {:induction false} HonestNodeInitializes(srv: Server, limit: nat, s: State, e: nat, io: Io)
    requires Works(io)
    requires ValidServer(srv) && limit >= 2 && StandsAt(srv, s, e)
    ensures Bounded(NodeStorage(srv, limit), VersionOf(srv.latest))
    ensures var (s', r) := Initialized(s, NodeStorage(srv, limit), VersionOf(srv.latest), io);
            BroughtUp(srv, limit, e, s.safetyData.epoch, s', r, io)
    decreases |srv.endings| - e
  {
    NodeBounded(srv, limit);
    OnePage(srv, limit, s, e, io);
    var storage := NodeStorage(srv, limit);
    var (s1, r1) := Initialize(s, storage(s.waypoint.version).value, io(s.waypoint.version));
    if Again(r1) {
      HonestNodeInitializes(srv, limit, s1, PageEnd(srv, limit, e) - 1, io);
      if s.safetyData.epoch <= |srv.endings| {
        EpochEnteredNext(srv, limit, e, s.safetyData.epoch);
      }
    } else {
      LastPage(srv, limit, s, e, io);
    }
  }

  lemma {:induction false} InitializedKeepsAuthor(s: State, storage: Storage, ledgerVersion: nat, io: Io)
    requires Bounded(storage, ledgerVersion)
    ensures Initialized(s, storage, ledgerVersion, io).0.author == s.author
    decreases ledgerVersion - s.waypoint.version
  {
    if storage(s.waypoint.version).Some? {
      var (s1, r1) := Initialize(s, storage(s.waypoint.version).value, io(s.waypoint.version));
      InitializeEffect(s, storage(s.waypoint.version).value, io(s.waypoint.version));
      if Again(r1) {
        AgainMovesWaypoint(s, storage, ledgerVersion, io);
        InitializedKeepsAuthor(s1, storage, ledgerVersion, io);
      }
    }
  }

  /** Against an honest node, a request of the epoch that initializing leads to is never refused because
      the rules are in another epoch, or in none, as long as the validator is in the epoch's set and its
      key is found. */
  lemma {:induction false} RequestMeetsEpoch(srv: Server, limit: nat, s: State, e: nat, request: Request, io: CallIo)
    requires ValidServer(srv) && limit >= 2 && StandsAt(srv, s, e) && s.safetyData.epoch <= |srv.endings|
    requires io.refresh.storage == NodeStorage(srv, limit) && io.refresh.ledgerVersion == VersionOf(srv.latest)
    requires io.refresh.readable && Works(io.refresh.io) && KeysFound(io.refresh.io)
    requires EpochAsked(request) == EpochEntered(srv, limit, e, s.safetyData.epoch)
    requires s.author in srv.epochStates(EpochAsked(request)).verifier.validators
    ensures !RefusedAsBehind(Retried(s, request, io).1)
  {
    RetriedExact(s, request, io);
    HonestNodeInitializes(srv, limit, s, e, io.refresh.io);
    var (s', r') := Refreshed(s, io.refresh);
    InitializedKeepsAuthor(s, io.refresh.storage, io.refresh.ledgerVersion, io.refresh.io);
    FoundBehindIff(s', request, io.second);
  }
}
