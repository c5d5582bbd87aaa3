/** A client in an epoch that keeps ratcheting against an honest full node that pages its epoch
    changes: when it reaches the node's latest ledger info, and when it never does. */
module CatchUp {
  import opened Wrappers
  import opened Validators
  import opened Types
  import opened EpochChange
  import opened TrustedState
  import opened FullNode

  function Sync(srv: Server, s: TrustedState, limit: nat): Result<TrustedStateChange, RatchetError> {
    var p := GetStateProof(srv, s.Version(), limit);
    if p.None? then Err(StaleTarget) else Ratchet(s, p.value, None)
  }

  function AfterSync(srv: Server, s: TrustedState, limit: nat): TrustedState {
    var r := Sync(srv, s, limit);
    if r.Err? || r.value.NoChange? then s else r.value.newState
  }

  // ----- Where an honest client can be -----

  /** The client trusts set `e` because it stands at the end of epoch `e - 1`. */
  ghost predicate AtBoundary(srv: Server, s: TrustedState) {
    && s.InEpoch? && 1 <= s.epochState.epoch <= |srv.endings|
    && s.waypoint == NewAny(srv.endings[s.epochState.epoch - 1].ledgerInfo)
  }

  /** The client trusts set `e` and stands inside epoch `e`. */
  ghost predicate Inside(srv: Server, s: TrustedState) {
    && s.InEpoch? && 1 <= s.epochState.epoch <= |srv.endings|
    && VersionOf(srv.endings[s.epochState.epoch - 1]) < s.Version()
    && (s.epochState.epoch < |srv.endings| ==> s.Version() <= VersionOf(srv.endings[s.epochState.epoch]))
    && (s.Version() == VersionOf(srv.latest) ==> s.waypoint == NewAny(srv.latest.ledgerInfo))
  }

  ghost predicate Follows(srv: Server, s: TrustedState) {
    && (AtBoundary(srv, s) || Inside(srv, s))
    && s.epochState == srv.epochStates(s.epochState.epoch)
    && s.Version() <= VersionOf(srv.latest)
    && s.Version() < |srv.leaves| && s.accumulator == srv.leaves[..s.Version() + 1]
  }

  ghost predicate UpToDate(srv: Server, s: TrustedState) {
    s.waypoint == NewAny(srv.latest.ledgerInfo)
  }

  /** The first epoch the node sends: at a boundary it is one the client has already left. */
  ghost function Known(srv: Server, s: TrustedState): nat {
    GetEpoch(srv.endings, |srv.endings|, s.Version())
  }

  lemma {:induction false} KnownIs(srv: Server, s: TrustedState)
    requires ValidServer(srv) && Follows(srv, s)
    ensures AtBoundary(srv, s) ==> Known(srv, s) == s.epochState.epoch - 1
    ensures Inside(srv, s) ==> Known(srv, s) == s.epochState.epoch
  {
    var e := s.epochState.epoch;
    if AtBoundary(srv, s) {
      if e >= 2 {
        assert Earlier(srv, e - 2, e - 1);
      }
      GetEpochIs(srv, |srv.endings|, s.Version(), e - 1);
    } else {
      GetEpochIs(srv, |srv.endings|, s.Version(), e);
    }
  }

  // ----- One page -----

  lemma {:induction false} StaleIff(srv: Server, e: nat, i: nat)
    requires ValidServer(srv) && i < |srv.endings|
    ensures ByEpochState(srv.epochStates(e)).IsStale(srv.endings[i]) <==> i < e
    ensures Next(srv.endings[i]) == Some(srv.epochStates(i + 1))
  {
    assert ValidEnding(srv, i);
  }

  /** A page that reaches past the client's epoch is accepted and installs the set after it. */
  lemma {:induction false} PageAccepted(srv: Server, e: nat, start: nat, stop: nat)
    requires ValidServer(srv) && 1 <= e < stop <= |srv.endings| && (start == e || start == e - 1)
    ensures VerifyProof(ByEpochState(srv.epochStates(e)), srv.endings[start..stop]) == Ok(srv.endings[stop - 1])
    ensures Next(srv.endings[stop - 1]) == Some(srv.epochStates(stop))
  {
    var lis := srv.endings[start..stop];
    EndingsUnbroken(srv, e, lis, start);
    StaleIff(srv, e, start);
    StaleIff(srv, e, e);
    StaleIff(srv, e, stop - 1);
    assert lis[0] == srv.endings[start] && lis[e - start] == srv.endings[e] && lis[|lis| - 1] == srv.endings[stop - 1];
    AtMostOneStale(ByEpochState(srv.epochStates(e)), lis, e - start);
  }

  /** A page that does not is stale as a whole. */
  lemma {:induction false} PageStale(srv: Server, e: nat, start: nat, stop: nat)
    requires ValidServer(srv) && start < stop <= e && stop <= |srv.endings|
    ensures VerifyProof(ByEpochState(srv.epochStates(e)), srv.endings[start..stop]) == Err(StaleProof)
  {
    var lis := srv.endings[start..stop];
    assert lis[|lis| - 1] == srv.endings[stop - 1];
    StaleIff(srv, e, stop - 1);
  }

  /** Leaves up to `target` extend the client's accumulator to a ledger info exactly if that is the
      ledger info's version. */
  lemma {:induction false} ExtendsTo(srv: Server, version: nat, target: nat, li: LedgerInfoWithSignatures)
    requires InLedger(srv, li) && version <= target < |srv.leaves|
    ensures TryExtend(srv.leaves[..version + 1], Between(srv.leaves, version, target), li.ledgerInfo)
         == if target == VersionOf(li) then Ok(srv.leaves[..target + 1]) else Err(InconsistentAccumulator)
  {
    assert srv.leaves[..version + 1] + srv.leaves[version + 1..target + 1] == srv.leaves[..target + 1];
  }

  /** A page: epochs `Known` to `stop` and the leaves up to `reach`. */
  ghost function Page(srv: Server, s: TrustedState, stop: nat, more: bool, reach: LedgerInfoWithSignatures): StateProof
    requires Known(srv, s) <= stop <= |srv.endings|
  {
    StateProof(srv.latest, EpochChangeProof(srv.endings[Known(srv, s)..stop], more),
               Between(srv.leaves, s.Version(), VersionOf(reach)))
  }

  lemma {:induction false} AnswerIs(srv: Server, s: TrustedState, limit: nat)
    requires ValidServer(srv) && Follows(srv, s) && limit >= 1
    ensures Known(srv, s) <= |srv.endings|
    ensures var stop := Known(srv, s) + limit;
            GetStateProof(srv, s.Version(), limit) ==
            if stop < |srv.endings| then Some(Page(srv, s, stop, true, srv.endings[stop - 1]))
            else Some(Page(srv, s, |srv.endings|, false, srv.latest))
  {
    NextBlockEpochIs(srv);
    KnownIs(srv, s);
    var n := |srv.endings|;
    assert Known(srv, s) == n ==> srv.endings[Known(srv, s)..n] == [];
  }

  /** A client that needs an epoch change and accepts the page moves to the chosen ledger info, if
      the leaves get it there. */
  lemma {:induction false} AdvanceIs(s: TrustedState, p: StateProof, last: LedgerInfoWithSignatures,
                                     target: LedgerInfoWithSignatures)
    requires s.InEpoch? && s.Version() <= VersionOf(p.latest)
    requires s.epochState.epoch < p.latest.ledgerInfo.commitInfo.NextBlockEpoch()
    requires VerifyProof(ByEpochState(s.epochState), p.epochChanges.lis) == Ok(last) && Next(last).Some?
    requires ChooseLedgerInfo(last, Next(last).value, p.latest, p.epochChanges.more) == Ok(target)
    ensures var acc := TryExtend(s.accumulator, p.consistency, target.ledgerInfo);
            Ratchet(s, p, None) == if acc.Err? then Err(acc.error)
                                   else
                                     var s' := InEpoch(NewAny(target.ledgerInfo), Next(last).value, acc.value);
                                     Ok(EpochAdvance(s', last))
  {
  }

  /** The state that trusts `li` and the set of epoch `e`. */
  ghost function At(srv: Server, li: LedgerInfoWithSignatures, e: nat): TrustedState
    requires InLedger(srv, li)
  {
    InEpoch(NewAny(li.ledgerInfo), srv.epochStates(e), srv.leaves[..VersionOf(li) + 1])
  }

  lemma {:induction false} PageVerified(srv: Server, s: TrustedState, stop: nat)
    requires ValidServer(srv) && Follows(srv, s) && s.epochState.epoch < stop <= |srv.endings|
    ensures Known(srv, s) <= stop && Next(srv.endings[stop - 1]) == Some(srv.epochStates(stop))
    ensures VerifyProof(ByEpochState(s.epochState), srv.endings[Known(srv, s)..stop]) == Ok(srv.endings[stop - 1])
    ensures s.epochState.epoch < srv.latest.ledgerInfo.commitInfo.NextBlockEpoch()
  {
    NextBlockEpochIs(srv);
    KnownIs(srv, s);
    PageAccepted(srv, s.epochState.epoch, Known(srv, s), stop);
  }

  /** What a page that reaches past the client's epoch does: the leaves must end at the ledger info
      that the client chooses. */
  lemma {:induction false} PageAdvances(srv: Server, s: TrustedState, stop: nat, more: bool,
                     reach: LedgerInfoWithSignatures, target: LedgerInfoWithSignatures)
    requires ValidServer(srv) && Follows(srv, s) && s.epochState.epoch < stop <= |srv.endings|
    requires ChooseLedgerInfo(srv.endings[stop - 1], srv.epochStates(stop), srv.latest, more) == Ok(target)
    requires InLedger(srv, target) && s.Version() <= VersionOf(reach) < |srv.leaves|
    ensures Known(srv, s) <= stop
    ensures Ratchet(s, Page(srv, s, stop, more, reach), None)
         == if VersionOf(reach) != VersionOf(target) then Err(InconsistentAccumulator)
            else Ok(EpochAdvance(At(srv, target, stop), srv.endings[stop - 1]))
  {
    PageVerified(srv, s, stop);
    AdvanceIs(s, Page(srv, s, stop, more, reach), srv.endings[stop - 1], target);
    ExtendsTo(srv, s.Version(), VersionOf(reach), target);
  }

  /** In the node's last epoch one answer is enough. */
  lemma {:induction false} SyncInLastEpoch(srv: Server, s: TrustedState, limit: nat)
    requires ValidServer(srv) && Follows(srv, s) && s.epochState.epoch == |srv.endings| && limit >= 1
    ensures Sync(srv, s, limit).Ok?
    ensures var s' := AfterSync(srv, s, limit);
            UpToDate(srv, s') && Follows(srv, s') && s'.epochState == s.epochState
  {
    NextBlockEpochIs(srv);
    KnownIs(srv, s);
    ExtendsTo(srv, s.Version(), VersionOf(srv.latest), srv.latest);
  }

  /** With every finished epoch in hand, the latest ledger info can be verified. */
  lemma {:induction false} LatestChosen(srv: Server)
    requires ValidServer(srv)
    ensures var n := |srv.endings|;
            ChooseLedgerInfo(srv.endings[n - 1], srv.epochStates(n), srv.latest, false) == Ok(srv.latest)
  {
    assert ValidEnding(srv, |srv.endings| - 1);
    assert Stored(srv, srv.latest);
  }

  lemma {:induction false} NewestFollows(srv: Server)
    requires ValidServer(srv)
    ensures InLedger(srv, srv.latest) && Follows(srv, At(srv, srv.latest, |srv.endings|))
  {
    assert Stored(srv, srv.latest);
    NextBlockEpochIs(srv);
  }

  lemma {:induction false} BoundaryFollows(srv: Server, e: nat)
    requires ValidServer(srv) && 1 <= e <= |srv.endings|
    ensures InLedger(srv, srv.endings[e - 1])
    ensures var s := At(srv, srv.endings[e - 1], e); Follows(srv, s) && AtBoundary(srv, s) && Known(srv, s) == e - 1
  {
    NextBlockEpochIs(srv);
    assert ValidEnding(srv, e - 1);
    assert e < |srv.endings| ==> Earlier(srv, e - 1, |srv.endings| - 1);
    KnownIs(srv, At(srv, srv.endings[e - 1], e));
  }

  /** When the last page fits, the client ends at the latest ledger info. */
  lemma {:induction false} SyncLastPage(srv: Server, s: TrustedState, limit: nat)
    requires ValidServer(srv) && Follows(srv, s) && limit >= 1
    requires s.epochState.epoch < |srv.endings| && |srv.endings| - Known(srv, s) <= limit
    ensures Sync(srv, s, limit).Ok?
    ensures AfterSync(srv, s, limit) == At(srv, srv.latest, |srv.endings|)
  {
    AnswerIs(srv, s, limit);
    LatestChosen(srv);
    PageAdvances(srv, s, |srv.endings|, false, srv.latest, srv.latest);
  }

  /** What a truncated page that ends with epoch `stop - 1` lets the client trust. */
  lemma {:induction false} TruncatedChoice(srv: Server, stop: nat)
    requires ValidServer(srv) && 1 <= stop < |srv.endings|
    ensures ChooseLedgerInfo(srv.endings[stop - 1], srv.epochStates(stop), srv.latest, true)
         == Ok(if LatestEndsEpoch(srv) && stop == |srv.endings| - 1 then srv.latest else srv.endings[stop - 1])
  {
    assert ValidEnding(srv, stop - 1) && ValidEnding(srv, |srv.endings| - 1);
    assert Stored(srv, srv.latest);
  }

  /** A client is never past the end of the epochs it has not verified. */
  lemma {:induction false} VersionReached(srv: Server, s: TrustedState, e: nat)
    requires ValidServer(srv) && Follows(srv, s) && s.epochState.epoch <= e < |srv.endings|
    ensures s.Version() <= VersionOf(srv.endings[e]) <= VersionOf(srv.latest)
  {
    NextBlockEpochIs(srv);
    var known := s.epochState.epoch;
    assert known < e ==> Earlier(srv, known, e);
    assert e < |srv.endings| - 1 ==> Earlier(srv, e, |srv.endings| - 1);
    assert Earlier(srv, known - 1, known);
  }

  /** The client accepts a truncated page unless it installs the epoch that the latest ledger info
      ends. */
  lemma {:induction false} TruncatedPage(srv: Server, s: TrustedState, stop: nat)
    requires ValidServer(srv) && Follows(srv, s) && s.epochState.epoch < stop < |srv.endings|
    ensures Known(srv, s) <= stop && InLedger(srv, srv.endings[stop - 1])
    ensures Ratchet(s, Page(srv, s, stop, true, srv.endings[stop - 1]), None)
         == if LatestEndsEpoch(srv) && stop == |srv.endings| - 1 then Err(InconsistentAccumulator)
            else Ok(EpochAdvance(At(srv, srv.endings[stop - 1], stop), srv.endings[stop - 1]))
  {
    assert ValidEnding(srv, stop - 1) && Stored(srv, srv.endings[stop - 1]) && Stored(srv, srv.latest);
    VersionReached(srv, s, stop - 1);
    TruncatedChoice(srv, stop);
    if LatestEndsEpoch(srv) && stop == |srv.endings| - 1 {
      assert Earlier(srv, stop - 1, |srv.endings| - 1);
      PageAdvances(srv, s, stop, true, srv.endings[stop - 1], srv.latest);
    } else {
      PageAdvances(srv, s, stop, true, srv.endings[stop - 1], srv.endings[stop - 1]);
    }
  }

  lemma {:induction false} TruncatedAnswer(srv: Server, s: TrustedState, limit: nat, stop: nat)
    requires ValidServer(srv) && Follows(srv, s) && limit >= 1
    requires stop == Known(srv, s) + limit < |srv.endings|
    ensures Sync(srv, s, limit) == Ratchet(s, Page(srv, s, stop, true, srv.endings[stop - 1]), None)
  {
    AnswerIs(srv, s, limit);
  }

  /** A truncated page that reaches past the client's epoch takes it to the end of the page's last
      epoch, or fails. */
  lemma {:induction false} SyncTruncatedPage(srv: Server, s: TrustedState, limit: nat, stop: nat)
    requires ValidServer(srv) && Follows(srv, s) && limit >= 1
    requires s.epochState.epoch < stop == Known(srv, s) + limit < |srv.endings|
    ensures InLedger(srv, srv.endings[stop - 1])
    ensures Sync(srv, s, limit)
         == if LatestEndsEpoch(srv) && stop == |srv.endings| - 1 then Err(InconsistentAccumulator)
            else Ok(EpochAdvance(At(srv, srv.endings[stop - 1], stop), srv.endings[stop - 1]))
  {
    TruncatedAnswer(srv, s, limit, stop);
    TruncatedPage(srv, s, stop);
  }

  /** A page without an epoch change that the client lacks is rejected. */
  lemma {:induction false} SyncStalePage(srv: Server, s: TrustedState, limit: nat, stop: nat)
    requires ValidServer(srv) && Follows(srv, s) && limit >= 1
    requires stop == Known(srv, s) + limit && stop <= s.epochState.epoch && stop < |srv.endings|
    ensures Sync(srv, s, limit) == Err(BadEpochChangeProof(StaleProof))
  {
    TruncatedAnswer(srv, s, limit, stop);
    NextBlockEpochIs(srv);
    VersionReached(srv, s, s.epochState.epoch);
    PageStale(srv, s.epochState.epoch, Known(srv, s), stop);
  }

  /** The two ways in which a truncated page gets a client nowhere: it holds no epoch change the
      client lacks, or it installs the very epoch that the latest ledger info ends, so that the
      client tries to extend to that ledger info with a proof that stops at the page. */
  ghost predicate Blocked(srv: Server, s: TrustedState, limit: nat)
    requires s.InEpoch?
  {
    var known := Known(srv, s);
    && |srv.endings| - known > limit
    && (known + limit <= s.epochState.epoch || (LatestEndsEpoch(srv) && known + limit == |srv.endings| - 1))
  }

  /** The client moved to the end of a later epoch; the node will send it `limit - 1` epochs more. */
  ghost predicate Progress(srv: Server, s: TrustedState, s': TrustedState, limit: nat)
    requires s.InEpoch?
  {
    && AtBoundary(srv, s')
    && s.epochState.epoch < s'.epochState.epoch
    && Known(srv, s') == Known(srv, s) + limit - 1
  }

  /** One answer, exactly: a blocked client gets an error, whichever of the two ways it is blocked;
      any other is up to date or in a later epoch. */
  lemma {:induction false} SyncOutcome(srv: Server, s: TrustedState, limit: nat)
    requires ValidServer(srv) && Follows(srv, s) && limit >= 1
    ensures Sync(srv, s, limit).Err? <==> Blocked(srv, s, limit)
    ensures Follows(srv, AfterSync(srv, s, limit))
    ensures !Blocked(srv, s, limit) && |srv.endings| - Known(srv, s) <= limit ==>
              UpToDate(srv, AfterSync(srv, s, limit))
    ensures !Blocked(srv, s, limit) && |srv.endings| - Known(srv, s) > limit ==>
              Progress(srv, s, AfterSync(srv, s, limit), limit)
  {
    KnownIs(srv, s);
    var stop := Known(srv, s) + limit;
    if s.epochState.epoch == |srv.endings| {
      SyncInLastEpoch(srv, s, limit);
    } else if |srv.endings| <= stop {
      SyncLastPage(srv, s, limit);
      NewestFollows(srv);
    } else if stop <= s.epochState.epoch {
      SyncStalePage(srv, s, limit, stop);
    } else {
      SyncTruncatedPage(srv, s, limit, stop);
      BoundaryFollows(srv, stop);
    }
  }

  // ----- Whole runs -----

  function Iterate<S>(f: S -> S, s: S, n: nat): S
    decreases n
  {
    if n == 0 then s else Iterate(f, f(s), n - 1)
  }

  lemma {:induction false} IterateKeeps<S(!new)>(f: S -> S, inv: S -> bool, s: S, n: nat)
    requires inv(s) && forall t :: inv(t) ==> inv(f(t))
    ensures inv(Iterate(f, s, n))
    decreases n
  {
    if n > 0 {
      IterateKeeps(f, inv, f(s), n - 1);
    }
  }

  /** A step that keeps `inv` and `goal` and otherwise lowers the rank. */
  ghost predicate Converges<S(!new)>(f: S -> S, inv: S -> bool, goal: S -> bool, rank: S -> int) {
    forall t :: inv(t) ==>
                  && inv(f(t)) && rank(t) >= 0
                  && (goal(f(t)) || rank(f(t)) < rank(t))
                  && (goal(t) ==> goal(f(t)))
  }

  lemma {:induction false} IterateReaches<S(!new)>(f: S -> S, inv: S -> bool, goal: S -> bool, rank: S -> int, s: S,
                                                   n: nat)
    requires Converges(f, inv, goal, rank)
    requires inv(s) && (goal(s) || n > rank(s))
    ensures goal(Iterate(f, s, n))
    decreases n
  {
    if n > 0 {
      IterateReaches(f, inv, goal, rank, f(s), n - 1);
    }
  }

  /** The client is up to date after `n` answers. */
  ghost predicate Arrives(srv: Server, s: TrustedState, limit: nat, n: nat) {
    UpToDate(srv, Iterate(t => AfterSync(srv, t, limit), s, n))
  }

  predicate MultipleOf(a: nat, m: nat)
    requires m > 0
  {
    a == 0 || (a >= m && MultipleOf(a - m, m))
  }

  /** Every page moves the first epoch sent forward by `limit - 1`; the client is lost when one of
      those pages installs exactly the epoch that the latest ledger info ends. With pages of one
      entry the first epoch sent never moves. */
  ghost predicate Doomed(srv: Server, s: TrustedState, limit: nat)
    requires limit >= 1
  {
    var gap := |srv.endings| - 1 - Known(srv, s) - limit;
    gap >= 0 && (limit == 1 || (LatestEndsEpoch(srv) && MultipleOf(gap, limit - 1)))
  }

  lemma {:induction false} BlockedIsDoomed(srv: Server, s: TrustedState, limit: nat)
    requires ValidServer(srv) && Follows(srv, s) && limit >= 1 && Blocked(srv, s, limit)
    ensures Doomed(srv, s, limit)
  {
    KnownIs(srv, s);
    assert limit > 1 ==> |srv.endings| - 1 - Known(srv, s) - limit == 0;
  }

  /** A page changes nothing about being lost. */
  lemma {:induction false} ProgressKeepsDoom(srv: Server, s: TrustedState, s': TrustedState, limit: nat)
    requires limit >= 1 && s.InEpoch? && Progress(srv, s, s', limit)
    requires |srv.endings| - Known(srv, s) > limit && !Blocked(srv, s, limit)
    ensures Doomed(srv, s', limit) <==> Doomed(srv, s, limit)
  {
  }

  lemma {:induction false} LatestKnown(srv: Server, s: TrustedState)
    requires ValidServer(srv) && Follows(srv, s) && UpToDate(srv, s)
    ensures Known(srv, s) >= |srv.endings| - 1
  {
    var n := |srv.endings|;
    if LatestEndsEpoch(srv) {
      if n >= 2 {
        assert Earlier(srv, n - 2, n - 1);
      }
      GetEpochIs(srv, n, s.Version(), n - 1);
    } else {
      GetEpochIs(srv, n, s.Version(), n);
    }
  }

  lemma {:induction false} UpToDateNotDoomed(srv: Server, s: TrustedState, limit: nat)
    requires ValidServer(srv) && Follows(srv, s) && limit >= 1 && UpToDate(srv, s)
    ensures !Doomed(srv, s, limit)
  {
    LatestKnown(srv, s);
  }

  ghost predicate Lost(srv: Server, s: TrustedState, limit: nat) {
    limit >= 1 && Follows(srv, s) && Doomed(srv, s, limit)
  }

  lemma {:induction false} LostStays(srv: Server, s: TrustedState, limit: nat)
    requires ValidServer(srv) && Lost(srv, s, limit)
    ensures Lost(srv, AfterSync(srv, s, limit), limit)
  {
    SyncOutcome(srv, s, limit);
    if !Blocked(srv, s, limit) {
      ProgressKeepsDoom(srv, s, AfterSync(srv, s, limit), limit);
    }
  }

  lemma {:induction false} LostNeverArrives(srv: Server, s: TrustedState, limit: nat, n: nat)
    requires ValidServer(srv) && Lost(srv, s, limit)
    ensures !Arrives(srv, s, limit, n)
  {
    forall t | Lost(srv, t, limit)
      ensures Lost(srv, AfterSync(srv, t, limit), limit)
    {
      LostStays(srv, t, limit);
    }
    IterateKeeps(t => AfterSync(srv, t, limit), t => Lost(srv, t, limit), s, n);
    var last := Iterate(t => AfterSync(srv, t, limit), s, n);
    if UpToDate(srv, last) {
      UpToDateNotDoomed(srv, last, limit);
    }
  }

  ghost predicate OnTrack(srv: Server, s: TrustedState, limit: nat) {
    limit >= 1 && Follows(srv, s) && !Doomed(srv, s, limit)
  }

  lemma {:induction false} OnTrackStays(srv: Server, s: TrustedState, limit: nat)
    requires ValidServer(srv) && OnTrack(srv, s, limit)
    ensures var s' := AfterSync(srv, s, limit);
            && OnTrack(srv, s', limit)
            && (UpToDate(srv, s') || s.epochState.epoch < s'.epochState.epoch)
            && (UpToDate(srv, s) ==> UpToDate(srv, s'))
  {
    if Blocked(srv, s, limit) {
      BlockedIsDoomed(srv, s, limit);
    }
    SyncOutcome(srv, s, limit);
    var s' := AfterSync(srv, s, limit);
    if |srv.endings| - Known(srv, s) > limit {
      ProgressKeepsDoom(srv, s, s', limit);
    } else {
      UpToDateNotDoomed(srv, s', limit);
    }
    if UpToDate(srv, s) {
      LatestKnown(srv, s);
    }
  }

  ghost function EpochsBehind(srv: Server, s: TrustedState): int {
    if s.InEpoch? then |srv.endings| - s.epochState.epoch else 0
  }

  lemma {:induction false} SyncConverges(srv: Server, limit: nat)
    requires ValidServer(srv)
    ensures Converges(t => AfterSync(srv, t, limit), t => OnTrack(srv, t, limit), t => UpToDate(srv, t),
                      t => EpochsBehind(srv, t))
  {
    forall t | OnTrack(srv, t, limit)
      ensures var t' := AfterSync(srv, t, limit);
              && OnTrack(srv, t', limit) && EpochsBehind(srv, t) >= 0
              && (UpToDate(srv, t') || EpochsBehind(srv, t') < EpochsBehind(srv, t))
              && (UpToDate(srv, t) ==> UpToDate(srv, t'))
    {
      OnTrackStays(srv, t, limit);
    }
  }

  /** One answer for every epoch it is behind, plus one, is enough. */
  lemma {:induction false} OnTrackArrives(srv: Server, s: TrustedState, limit: nat)
    requires ValidServer(srv) && OnTrack(srv, s, limit)
    ensures EpochsBehind(srv, s) >= 0 && Arrives(srv, s, limit, EpochsBehind(srv, s) + 1)
  {
    SyncConverges(srv, limit);
    IterateReaches(t => AfterSync(srv, t, limit), t => OnTrack(srv, t, limit), t => UpToDate(srv, t),
                   t => EpochsBehind(srv, t), s, EpochsBehind(srv, s) + 1);
  }

  /** Whatever the page size, a client reaches the latest ledger info exactly when it is not lost;
      `OnTrackArrives` bounds how many answers it needs. */
  lemma {:induction false} CatchesUpIff(srv: Server, s: TrustedState, limit: nat)
    requires ValidServer(srv) && Follows(srv, s) && limit >= 1
    ensures (exists n: nat :: Arrives(srv, s, limit, n)) <==> !Doomed(srv, s, limit)
  {
    if Doomed(srv, s, limit) {
      forall n: nat
        ensures !Arrives(srv, s, limit, n)
      {
        LostNeverArrives(srv, s, limit, n);
      }
    } else {
      OnTrackArrives(srv, s, limit);
    }
  }

  // ----- Lost clients exist -----

  /** The client that starts from the first epoch's validator set. */
  ghost function ExampleClient(): TrustedState {
    InEpoch(NewAny(ExampleEnding(0).ledgerInfo), EpochState(1, SOLE_VALIDATOR), Zeros(1))
  }

  lemma {:induction false} ExampleFollows(n: nat)
    requires n >= 1
    ensures ValidServer(ExampleServer(n)) && LatestEndsEpoch(ExampleServer(n))
    ensures Follows(ExampleServer(n), ExampleClient()) && Known(ExampleServer(n), ExampleClient()) == 0
  {
    ExampleIsValid(n);
    assert Zeros(n)[..1] == Zeros(1);
    KnownIs(ExampleServer(n), ExampleClient());
  }

  /** For every page size some client is lost: it stands one page and one epoch before a
      latest ledger info that ends its epoch. */
  lemma {:induction false} LostClient(limit: nat) returns (srv: Server, s: TrustedState)
    requires limit >= 1
    ensures ValidServer(srv) && Lost(srv, s, limit)
  {
    srv, s := ExampleServer(limit + 1), ExampleClient();
    ExampleFollows(limit + 1);
    assert |srv.endings| - 1 - Known(srv, s) - limit == 0;
  }
}
