/** The honest validators' runs joined to the light clients: the ledger infos that a reachable world
    can produce, over all its epochs, are one chain. */
module LedgerSafety {
  import opened Wrappers
  import opened Validators
  import opened Types
  import opened EpochChange
  import opened SafetyRules
  import opened Protocol
  import opened CommitSafety
  import opened TrustedState
  import LightClient
  import Recovery
  import opened TimeoutEpochs

  // ----- One epoch, without any hypothesis on execution -----

  /** The client moves on inside epoch `e` to a ledger info past the genesis round. */
  ghost predicate MovesWithin(cfg: Config, w: World, e: nat, s: TrustedState, p: StateProof,
                              initial: Option<Accumulator>)
  {
    && s.InEpoch? && s.epochState == cfg.epochStates(e) && Aligned(s)
    && LiDerivable(w, p.latest) && p.latest.ledgerInfo.commitInfo.round > 0
    && Ratchet(s, p, initial).Ok? && Ratchet(s, p, initial).value.VersionChange?
  }

  /** Two clients of one epoch, whatever they trusted before, never see two ledgers. */
  lemma {:induction false} ClientsOfEpochAgree(cfg: Config, run: seq<World>, e: nat,
                                               s: TrustedState, p: StateProof, initial: Option<Accumulator>,
                                               s': TrustedState, p': StateProof, initial': Option<Accumulator>)
    requires ValidConfig(cfg) && IsRun(cfg, run) && TcsChecked(cfg, run[|run| - 1], e) && cfg.coupled(e)
    requires MovesWithin(cfg, run[|run| - 1], e, s, p, initial)
    requires MovesWithin(cfg, run[|run| - 1], e, s', p', initial')
    ensures var t, t' := After(s, p, initial), After(s', p', initial');
            && t.InEpoch? && t'.InEpoch?
            && (t.accumulator <= t'.accumulator || t'.accumulator <= t.accumulator)
  {
    var w := run[|run| - 1];
    assert Final(cfg, w, e, p.latest) && Final(cfg, w, e, p'.latest);
    if p.latest.ledgerInfo.commitInfo.round <= p'.latest.ledgerInfo.commitInfo.round {
      LedgerInfosOnOneChain(cfg, run, e, p.latest, p'.latest);
    } else {
      LedgerInfosOnOneChain(cfg, run, e, p'.latest, p.latest);
    }
  }

  // ----- What execution and the block store guarantee -----

  function StateOf(li: LedgerInfo): Accumulator {
    li.commitInfo.executedStateId
  }

  /** The ledger info that everything starts from: the end of epoch 0. */
  ghost predicate ValidGenesis(cfg: Config, genesis: LedgerInfo) {
    var info := genesis.commitInfo;
    && info.epoch == 0 && info.nextEpochState == Some(cfg.epochStates(1))
    && info.executedStateId != [] && info.version == AccumulatorVersion(info.executedStateId)
  }

  /** A ledger info that the validator set of epoch `e` vouches for, of whatever round. */
  ghost predicate Signed(cfg: Config, w: World, e: nat, lis: LedgerInfoWithSignatures) {
    ByEpochState(cfg.epochStates(e)).Verify(lis) && LiDerivable(w, lis)
  }

  ghost predicate SignedAs(cfg: Config, w: World, e: nat, li: LedgerInfo) {
    exists lis :: Signed(cfg, w, e, lis) && lis.ledgerInfo == li
  }

  /** A commit that ends epoch `e`. */
  ghost predicate Ends(cfg: Config, w: World, genesis: LedgerInfo, e: nat, li: LedgerInfo) {
    if e == 0 then li == genesis else SignedAs(cfg, w, e, li) && li.commitInfo.nextEpochState.Some?
  }

  /** The block that epoch `e + 1` starts from when epoch `e` ended with `li`. */
  function GenesisInfo(li: LedgerInfo): BlockInfo {
    Recovery.GenesisCert(li, Recovery.GenesisBlock(li).Id()).CertifiedBlock()
  }

  /** `info` is the start of epoch `e`. */
  ghost predicate Starts(cfg: Config, w: World, genesis: LedgerInfo, e: nat, info: BlockInfo) {
    e >= 1 && exists li :: Ends(cfg, w, genesis, e - 1, li) && info == GenesisInfo(li)
  }

  /** The executor behind an honest vote leaves the state and the next set alone once the epoch was
      ended, and the block store behind it grows from the end of the previous epoch. */
  ghost predicate Executed(cfg: Config, w: World, genesis: LedgerInfo, entry: Entry) {
    entry.Voted? ==>
      var VoteData(proposed, parent) := entry.vote.voteData;
      && (parent.nextEpochState.Some? ==>
            proposed.nextEpochState == parent.nextEpochState && proposed.executedStateId == parent.executedStateId)
      && (parent.round == 0 && entry.block.epoch >= 1 ==> Starts(cfg, w, genesis, entry.block.epoch, parent))
  }

  /** The set of epoch `e + 1` is the one that a commit ending epoch `e` names. */
  ghost predicate SetNamed(cfg: Config, w: World, genesis: LedgerInfo, e: nat) {
    (exists li :: Ends(cfg, w, genesis, e, li)) ==>
      exists li :: Ends(cfg, w, genesis, e, li) && li.commitInfo.nextEpochState == Some(cfg.epochStates(e + 1))
  }

  ghost predicate Lawful(cfg: Config, w: World, genesis: LedgerInfo) {
    && (forall e: nat :: cfg.coupled(e))
    && (forall a, k :: a in w.nodes && 0 <= k < |w.nodes[a].log| ==> Executed(cfg, w, genesis, w.nodes[a].log[k]))
    && (forall e: nat :: TcsChecked(cfg, w, e))
    && (forall e: nat :: SetNamed(cfg, w, genesis, e))
  }

  /** A reachable world over lawful execution. */
  ghost predicate Sound(cfg: Config, w: World, genesis: LedgerInfo) {
    ValidConfig(cfg) && WorldInv(cfg, w) && ValidGenesis(cfg, genesis) && Lawful(cfg, w, genesis)
  }

  // ----- Certified blocks -----

  /** Some honest validator executed the certified block on its parent. */
  lemma {:induction false} ExecutedBehind(cfg: Config, w: World, genesis: LedgerInfo, e: nat, qc: QuorumCert)
    requires Sound(cfg, w, genesis) && Certificate(cfg, w, e, qc)
    ensures qc.CertifiedBlock().version == AccumulatorVersion(qc.CertifiedBlock().executedStateId)
    ensures qc.ParentBlock().nextEpochState.Some? ==>
              && qc.CertifiedBlock().nextEpochState == qc.ParentBlock().nextEpochState
              && qc.CertifiedBlock().executedStateId == qc.ParentBlock().executedStateId
    ensures qc.ParentBlock().round == 0 && e >= 1 ==> Starts(cfg, w, genesis, e, qc.ParentBlock())
  {
    var a, k := SomeHonestVote(cfg, w, e, qc);
    assert Executed(cfg, w, genesis, w.nodes[a].log[k]);
  }

  /** Every certified block grows from the end of the previous epoch. */
  lemma {:induction false} CertifiedGrows(cfg: Config, w: World, genesis: LedgerInfo, e: nat, qc: QuorumCert)
    returns (li: LedgerInfo)
    requires Sound(cfg, w, genesis) && e >= 1 && Certificate(cfg, w, e, qc)
    ensures Ends(cfg, w, genesis, e - 1, li)
    ensures StateOf(li) <= qc.CertifiedBlock().executedStateId
    decreases qc.CertifiedBlock().round
  {
    ExecutedBehind(cfg, w, genesis, e, qc);
    var up := ParentOf(cfg, w, e, qc);
    if up.CertifiedBlock().round == 0 {
      li :| Ends(cfg, w, genesis, e - 1, li) && up.CertifiedBlock() == GenesisInfo(li);
    } else {
      li := CertifiedGrows(cfg, w, genesis, e, up);
    }
  }

  /** Nothing changes after the end of an epoch. */
  lemma {:induction false} SuffixUnchanged(cfg: Config, w: World, genesis: LedgerInfo, e: nat, a: BlockInfo,
                                           d: BlockInfo, path: seq<QuorumCert>)
    requires Sound(cfg, w, genesis) && Branch(cfg, w, e, a, d, path) && a.nextEpochState.Some?
    ensures d.nextEpochState == a.nextEpochState && d.executedStateId == a.executedStateId
    decreases |path|
  {
    var n := |path| - 1;
    if n > 0 {
      var before := path[n - 1].CertifiedBlock();
      assert Branch(cfg, w, e, a, before, path[..n]);
      SuffixUnchanged(cfg, w, genesis, e, a, before, path[..n]);
      var up := ParentOf(cfg, w, e, path[n]);
      assert ChildOf(cfg, e, path[n].CertifiedBlock(), before);
      ExecutedBehind(cfg, w, genesis, e, path[n]);
    }
  }

  // ----- Signed ledger infos -----

  /** Some honest validator voted for what is signed. */
  lemma {:induction false} SignerVoted(cfg: Config, w: World, e: nat, lis: LedgerInfoWithSignatures)
    returns (a: Address)
    requires ValidConfig(cfg) && w.nodes.Keys == cfg.honest && Signed(cfg, w, e, lis)
    ensures a in w.nodes && HasVoted(w.nodes[a], lis.ledgerInfo)
  {
    assert ValidEpoch(cfg, e);
    var v := VerifierOf(cfg, e);
    a := HonestInCommon(v, cfg.honest, lis.signatures.Keys, lis.signatures.Keys);
    assert ValidSignature(v, a, lis.ledgerInfo, lis.signatures[a]);
  }

  /** A ledger info of the genesis round commits the start of its epoch. */
  lemma {:induction false} CommitsStart(cfg: Config, w: World, genesis: LedgerInfo, e: nat,
                                        lis: LedgerInfoWithSignatures)
    requires Sound(cfg, w, genesis) && e >= 1 && Signed(cfg, w, e, lis) && lis.ledgerInfo.commitInfo.round == 0
    ensures Starts(cfg, w, genesis, e, lis.ledgerInfo.commitInfo)
  {
    assert ValidEpoch(cfg, e);
    var a := SignerVoted(cfg, w, e, lis);
    var log := w.nodes[a].log;
    var k :| 0 <= k < |log| && log[k].Voted? && log[k].vote.ledgerInfo == lis.ledgerInfo;
    assert NodeInv(cfg, a, w.nodes[a]);
    CommitsStartOf(cfg, w, genesis, e, a, k);
  }

  lemma {:induction false} CommitsStartOf(cfg: Config, w: World, genesis: LedgerInfo, e: nat, a: Address, k: nat)
    requires Sound(cfg, w, genesis) && e >= 1 && a in w.nodes && k < |w.nodes[a].log|
    requires var entry := w.nodes[a].log[k];
             && entry.Voted? && EntryOk(cfg, a, entry) && EntryDerivable(w, entry)
             && entry.vote.ledgerInfo.commitInfo.round == 0 && entry.vote.ledgerInfo.commitInfo.epoch == e
    ensures Starts(cfg, w, genesis, e, w.nodes[a].log[k].vote.ledgerInfo.commitInfo)
  {
    var entry := w.nodes[a].log[k];
    var qc := entry.block.quorumCert;
    assert Executed(cfg, w, genesis, entry);
    if !cfg.twoChain(entry.block.epoch) {
      assert qc.voteData.Verify();
      ExecutedBehind(cfg, w, genesis, e, qc);
    }
  }

  /** Past the genesis round, a signed ledger info commits a certified block. */
  lemma {:induction false} CommitsCertified(cfg: Config, w: World, genesis: LedgerInfo, e: nat,
                                            lis: LedgerInfoWithSignatures)
    returns (commit: QuorumCert, qc: QuorumCert)
    requires Sound(cfg, w, genesis) && Signed(cfg, w, e, lis) && lis.ledgerInfo.commitInfo.round > 0
    ensures Commits(cfg, w, e, commit) && commit.signedLedgerInfo == lis
    ensures Certificate(cfg, w, e, qc) && qc.CertifiedBlock() == lis.ledgerInfo.commitInfo
  {
    commit := CertificateBehind(cfg, w, e, lis);
    qc := CommitCertified(cfg, w, e, commit);
  }

  /** Every signed ledger info grows from the end of the previous epoch; at the genesis round it is that
      state, and it does not end its epoch. */
  lemma {:induction false} SignedGrows(cfg: Config, w: World, genesis: LedgerInfo, e: nat,
                                       lis: LedgerInfoWithSignatures)
    returns (li: LedgerInfo)
    requires Sound(cfg, w, genesis) && e >= 1 && Signed(cfg, w, e, lis)
    ensures Ends(cfg, w, genesis, e - 1, li) && StateOf(li) <= StateOf(lis.ledgerInfo)
    ensures lis.ledgerInfo.commitInfo.round == 0 ==>
              && StateOf(lis.ledgerInfo) == StateOf(li) && lis.ledgerInfo.commitInfo.version == li.commitInfo.version
              && Next(lis).None?
  {
    if lis.ledgerInfo.commitInfo.round == 0 {
      CommitsStart(cfg, w, genesis, e, lis);
      li :| Ends(cfg, w, genesis, e - 1, li) && lis.ledgerInfo.commitInfo == GenesisInfo(li);
    } else {
      var commit, qc := CommitsCertified(cfg, w, genesis, e, lis);
      li := CertifiedGrows(cfg, w, genesis, e, qc);
    }
  }

  /** Of two ledger infos of an epoch, past the genesis round, the later one descends from the earlier
      one, and is the same state if the earlier one ended the epoch. */
  lemma {:induction false} LaterInEpoch(cfg: Config, w: World, genesis: LedgerInfo, e: nat,
                                        one: LedgerInfoWithSignatures, two: LedgerInfoWithSignatures)
    requires Sound(cfg, w, genesis) && Signed(cfg, w, e, one) && Signed(cfg, w, e, two)
    requires 0 < one.ledgerInfo.commitInfo.round <= two.ledgerInfo.commitInfo.round
    ensures StateOf(one.ledgerInfo) <= StateOf(two.ledgerInfo)
    ensures Next(one).Some? ==> Next(two) == Next(one) && StateOf(two.ledgerInfo) == StateOf(one.ledgerInfo)
  {
    var commit1, _ := CommitsCertified(cfg, w, genesis, e, one);
    var commit2, _ := CommitsCertified(cfg, w, genesis, e, two);
    var path := CommitsOnOneBranch(cfg, w, e, commit1, commit2);
    BranchDescends(cfg, w, e, commit1.CommitInfo(), commit2.CommitInfo(), path);
    if Next(one).Some? {
      SuffixUnchanged(cfg, w, genesis, e, commit1.CommitInfo(), commit2.CommitInfo(), path);
    }
  }

  /** An epoch that ended, other than epoch 0, was ended by a signed ledger info. */
  lemma {:induction false} EndIsSigned(cfg: Config, w: World, genesis: LedgerInfo, e: nat, li: LedgerInfo)
    returns (lis: LedgerInfoWithSignatures)
    requires e >= 1 && Ends(cfg, w, genesis, e, li)
    ensures Signed(cfg, w, e, lis) && lis.ledgerInfo == li && Next(lis).Some?
  {
    lis :| Signed(cfg, w, e, lis) && lis.ledgerInfo == li;
  }

  /** All commits that end an epoch agree on the state and on the next validator set. */
  lemma {:induction false} SignedEndsAgree(cfg: Config, w: World, genesis: LedgerInfo, e: nat,
                                           end: LedgerInfoWithSignatures, end': LedgerInfoWithSignatures)
    requires Sound(cfg, w, genesis) && e >= 1
    requires Signed(cfg, w, e, end) && Next(end).Some? && Signed(cfg, w, e, end') && Next(end').Some?
    ensures StateOf(end.ledgerInfo) == StateOf(end'.ledgerInfo) && Next(end) == Next(end')
  {
    var _ := SignedGrows(cfg, w, genesis, e, end);
    var _ := SignedGrows(cfg, w, genesis, e, end');
    if end.ledgerInfo.commitInfo.round <= end'.ledgerInfo.commitInfo.round {
      LaterInEpoch(cfg, w, genesis, e, end, end');
    } else {
      LaterInEpoch(cfg, w, genesis, e, end', end);
    }
  }

  lemma {:induction false} EndsAgree(cfg: Config, w: World, genesis: LedgerInfo, e: nat, li: LedgerInfo,
                                     li': LedgerInfo)
    requires Sound(cfg, w, genesis) && Ends(cfg, w, genesis, e, li) && Ends(cfg, w, genesis, e, li')
    ensures StateOf(li) == StateOf(li') && li.commitInfo.nextEpochState == li'.commitInfo.nextEpochState
  {
    if e >= 1 {
      var end := EndIsSigned(cfg, w, genesis, e, li);
      var end' := EndIsSigned(cfg, w, genesis, e, li');
      SignedEndsAgree(cfg, w, genesis, e, end, end');
    }
  }

  /** The end of an epoch names the next epoch's set. */
  lemma {:induction false} EndNamesSet(cfg: Config, w: World, genesis: LedgerInfo, e: nat, li: LedgerInfo)
    requires Sound(cfg, w, genesis) && Ends(cfg, w, genesis, e, li)
    ensures li.commitInfo.nextEpochState == Some(cfg.epochStates(e + 1))
  {
    assert SetNamed(cfg, w, genesis, e);
    var named :| Ends(cfg, w, genesis, e, named) && named.commitInfo.nextEpochState == Some(cfg.epochStates(e + 1));
    EndsAgree(cfg, w, genesis, e, li, named);
  }

  // ----- The order of ledger infos -----

  lemma {:induction false} PrefixOfPrefix(a: Accumulator, b: Accumulator, c: Accumulator)
    requires a <= b <= c
    ensures a <= c
  {
  }

  /** `lis` continues the state that `base` describes; at the genesis round it is that state. */
  ghost predicate Continues(base: LedgerInfo, lis: LedgerInfoWithSignatures) {
    && StateOf(base) <= StateOf(lis.ledgerInfo)
    && (lis.ledgerInfo.commitInfo.round == 0 ==>
          && StateOf(lis.ledgerInfo) == StateOf(base) && lis.ledgerInfo.commitInfo.version == base.commitInfo.version)
  }

  lemma {:induction false} FirstEpochContinues(cfg: Config, w: World, genesis: LedgerInfo,
                                               lis: LedgerInfoWithSignatures)
    requires Sound(cfg, w, genesis) && Signed(cfg, w, 1, lis)
    ensures Continues(genesis, lis)
  {
    var _ := SignedGrows(cfg, w, genesis, 1, lis);
  }

  lemma {:induction false} LaterEpochContinues(cfg: Config, w: World, genesis: LedgerInfo, e: nat,
                                               lis: LedgerInfoWithSignatures)
    returns (end: LedgerInfoWithSignatures)
    requires Sound(cfg, w, genesis) && e > 1 && Signed(cfg, w, e, lis)
    ensures Signed(cfg, w, e - 1, end) && Next(end).Some? && Continues(end.ledgerInfo, lis)
  {
    var li := SignedGrows(cfg, w, genesis, e, lis);
    end := EndIsSigned(cfg, w, genesis, e - 1, li);
  }

  /** In one epoch two ledger infos are ordered by round. */
  lemma {:induction false} OrderedInEpoch(cfg: Config, w: World, genesis: LedgerInfo, e: nat,
                                          one: LedgerInfoWithSignatures, two: LedgerInfoWithSignatures)
    requires Sound(cfg, w, genesis) && e >= 1 && Signed(cfg, w, e, one) && Signed(cfg, w, e, two)
    requires one.ledgerInfo.commitInfo.round <= two.ledgerInfo.commitInfo.round
    ensures StateOf(one.ledgerInfo) <= StateOf(two.ledgerInfo)
  {
    if one.ledgerInfo.commitInfo.round > 0 {
      LaterInEpoch(cfg, w, genesis, e, one, two);
    } else {
      StartIsFirst(cfg, w, genesis, e, one, two);
    }
  }

  lemma {:induction false} ContinuesEveryEnd(cfg: Config, w: World, genesis: LedgerInfo, e: nat,
                                             end: LedgerInfoWithSignatures, lis: LedgerInfoWithSignatures)
    requires Sound(cfg, w, genesis) && e > 1 && Signed(cfg, w, e, lis)
    requires Signed(cfg, w, e - 1, end) && Next(end).Some?
    ensures StateOf(end.ledgerInfo) <= StateOf(lis.ledgerInfo)
  {
    var end' := LaterEpochContinues(cfg, w, genesis, e, lis);
    SignedEndsAgree(cfg, w, genesis, e - 1, end, end');
  }

  lemma {:induction false} StartIsFirst(cfg: Config, w: World, genesis: LedgerInfo, e: nat,
                                        one: LedgerInfoWithSignatures, two: LedgerInfoWithSignatures)
    requires Sound(cfg, w, genesis) && e >= 1 && Signed(cfg, w, e, one) && Signed(cfg, w, e, two)
    requires one.ledgerInfo.commitInfo.round == 0
    ensures StateOf(one.ledgerInfo) <= StateOf(two.ledgerInfo)
  {
    if e == 1 {
      FirstEpochContinues(cfg, w, genesis, one);
      FirstEpochContinues(cfg, w, genesis, two);
    } else {
      var end := LaterEpochContinues(cfg, w, genesis, e, one);
      ContinuesEveryEnd(cfg, w, genesis, e, end, two);
    }
  }

  /** The end of an epoch is not behind anything signed in it. */
  lemma {:induction false} EndIsLast(cfg: Config, w: World, genesis: LedgerInfo, e: nat,
                                     one: LedgerInfoWithSignatures, end: LedgerInfoWithSignatures)
    requires Sound(cfg, w, genesis) && e >= 1 && Signed(cfg, w, e, one) && Signed(cfg, w, e, end) && Next(end).Some?
    ensures StateOf(one.ledgerInfo) <= StateOf(end.ledgerInfo)
  {
    var _ := SignedGrows(cfg, w, genesis, e, end);
    if one.ledgerInfo.commitInfo.round <= end.ledgerInfo.commitInfo.round {
      OrderedInEpoch(cfg, w, genesis, e, one, end);
    } else {
      LaterInEpoch(cfg, w, genesis, e, end, one);
    }
  }

  /** Ledger infos of an earlier epoch are prefixes of those of a later one. */
  lemma {:induction false} OrderedAcrossEpochs(cfg: Config, w: World, genesis: LedgerInfo, e: nat,
                                               one: LedgerInfoWithSignatures, e': nat, two: LedgerInfoWithSignatures)
    requires Sound(cfg, w, genesis) && 1 <= e < e' && Signed(cfg, w, e, one) && Signed(cfg, w, e', two)
    ensures StateOf(one.ledgerInfo) <= StateOf(two.ledgerInfo)
    decreases e'
  {
    var end := LaterEpochContinues(cfg, w, genesis, e', two);
    if e' - 1 == e {
      EndIsLast(cfg, w, genesis, e, one, end);
    } else {
      OrderedAcrossEpochs(cfg, w, genesis, e, one, e' - 1, end);
    }
    PrefixOfPrefix(StateOf(one.ledgerInfo), StateOf(end.ledgerInfo), StateOf(two.ledgerInfo));
  }

  /** Everything signed grows from genesis. */
  lemma {:induction false} GrowsFromGenesis(cfg: Config, w: World, genesis: LedgerInfo, e: nat,
                                            lis: LedgerInfoWithSignatures)
    requires Sound(cfg, w, genesis) && e >= 1 && Signed(cfg, w, e, lis)
    ensures StateOf(genesis) <= StateOf(lis.ledgerInfo)
    decreases e
  {
    if e == 1 {
      FirstEpochContinues(cfg, w, genesis, lis);
    } else {
      var end := LaterEpochContinues(cfg, w, genesis, e, lis);
      GrowsFromGenesis(cfg, w, genesis, e - 1, end);
      PrefixOfPrefix(StateOf(genesis), StateOf(end.ledgerInfo), StateOf(lis.ledgerInfo));
    }
  }

  lemma {:induction false} CommittedVersion(cfg: Config, w: World, genesis: LedgerInfo, e: nat,
                                            lis: LedgerInfoWithSignatures)
    requires Sound(cfg, w, genesis) && Signed(cfg, w, e, lis) && lis.ledgerInfo.commitInfo.round > 0
    ensures lis.ledgerInfo.commitInfo.version == AccumulatorVersion(StateOf(lis.ledgerInfo))
  {
    var _, qc := CommitsCertified(cfg, w, genesis, e, lis);
    ExecutedBehind(cfg, w, genesis, e, qc);
  }

  /** Its version counts its transactions. */
  lemma {:induction false} VersionCounts(cfg: Config, w: World, genesis: LedgerInfo, e: nat,
                                         lis: LedgerInfoWithSignatures)
    requires Sound(cfg, w, genesis) && e >= 1 && Signed(cfg, w, e, lis)
    ensures lis.ledgerInfo.commitInfo.version == AccumulatorVersion(StateOf(lis.ledgerInfo))
    decreases e
  {
    if lis.ledgerInfo.commitInfo.round > 0 {
      CommittedVersion(cfg, w, genesis, e, lis);
    } else if e == 1 {
      FirstEpochContinues(cfg, w, genesis, lis);
    } else {
      var end := LaterEpochContinues(cfg, w, genesis, e, lis);
      VersionCounts(cfg, w, genesis, e - 1, end);
    }
  }

  // ----- The chain -----

  ghost predicate Committed(cfg: Config, w: World, genesis: LedgerInfo, d: WaypointData) {
    || d == DataOf(genesis)
    || exists e: nat, lis :: e >= 1 && Signed(cfg, w, e, lis) && d == DataOf(lis.ledgerInfo)
  }

  ghost function ChainOf(cfg: Config, w: World, genesis: LedgerInfo): LightClient.Chain {
    LightClient.Chain((iset d | Committed(cfg, w, genesis, d)), cfg.epochStates)
  }

  ghost predicate Comparable(d: WaypointData, d': WaypointData) {
    d.rootHash <= d'.rootHash || d'.rootHash <= d.rootHash
  }

  lemma {:induction false} SignedComparable(cfg: Config, w: World, genesis: LedgerInfo, e: nat,
                                            one: LedgerInfoWithSignatures, e': nat, two: LedgerInfoWithSignatures)
    requires Sound(cfg, w, genesis) && e >= 1 && Signed(cfg, w, e, one) && e' >= 1 && Signed(cfg, w, e', two)
    ensures Comparable(DataOf(one.ledgerInfo), DataOf(two.ledgerInfo))
  {
    if e < e' {
      OrderedAcrossEpochs(cfg, w, genesis, e, one, e', two);
    } else if e' < e {
      OrderedAcrossEpochs(cfg, w, genesis, e', two, e, one);
    } else if one.ledgerInfo.commitInfo.round <= two.ledgerInfo.commitInfo.round {
      OrderedInEpoch(cfg, w, genesis, e, one, two);
    } else {
      OrderedInEpoch(cfg, w, genesis, e, two, one);
    }
  }

  /** What every commit is: not empty, with the right version, naming the right set. */
  ghost predicate GoodCommit(cfg: Config, d: WaypointData) {
    && d.rootHash != [] && d.version == AccumulatorVersion(d.rootHash)
    && (d.nextEpochState.Some? ==> d.nextEpochState.value == cfg.epochStates(d.epoch + 1))
  }

  lemma {:induction false} GenesisIs(cfg: Config, genesis: LedgerInfo)
    requires ValidGenesis(cfg, genesis)
    ensures GoodCommit(cfg, DataOf(genesis))
  {
  }

  lemma {:induction false} SignedFacts(cfg: Config, w: World, genesis: LedgerInfo, e: nat,
                                       lis: LedgerInfoWithSignatures)
    requires Sound(cfg, w, genesis) && e >= 1 && Signed(cfg, w, e, lis)
    ensures EpochOf(lis) == e && StateOf(lis.ledgerInfo) != []
    ensures lis.ledgerInfo.commitInfo.version == AccumulatorVersion(StateOf(lis.ledgerInfo))
    ensures Next(lis).Some? ==> Next(lis).value == cfg.epochStates(e + 1)
  {
    assert ValidEpoch(cfg, e);
    GrowsFromGenesis(cfg, w, genesis, e, lis);
    VersionCounts(cfg, w, genesis, e, lis);
    if Next(lis).Some? {
      assert Ends(cfg, w, genesis, e, lis.ledgerInfo);
      EndNamesSet(cfg, w, genesis, e, lis.ledgerInfo);
    }
  }

  lemma {:induction false} SignedIs(cfg: Config, w: World, genesis: LedgerInfo, e: nat, lis: LedgerInfoWithSignatures,
                                    d: WaypointData)
    requires Sound(cfg, w, genesis) && e >= 1 && Signed(cfg, w, e, lis) && d == DataOf(lis.ledgerInfo)
    ensures GoodCommit(cfg, d)
  {
    SignedFacts(cfg, w, genesis, e, lis);
  }

  lemma {:induction false} CommittedIs(cfg: Config, w: World, genesis: LedgerInfo, d: WaypointData)
    requires Sound(cfg, w, genesis) && Committed(cfg, w, genesis, d)
    ensures GoodCommit(cfg, d)
  {
    GenesisIs(cfg, genesis);
    if d != DataOf(genesis) {
      var e: nat, lis :| e >= 1 && Signed(cfg, w, e, lis) && d == DataOf(lis.ledgerInfo);
      SignedIs(cfg, w, genesis, e, lis, d);
    }
  }

  lemma {:induction false} CommittedComparable(cfg: Config, w: World, genesis: LedgerInfo, d: WaypointData,
                                               d': WaypointData)
    requires Sound(cfg, w, genesis) && Committed(cfg, w, genesis, d) && Committed(cfg, w, genesis, d')
    ensures Comparable(d, d')
  {
    if d == DataOf(genesis) && d' == DataOf(genesis) {
    } else if d == DataOf(genesis) {
      var e: nat, lis :| e >= 1 && Signed(cfg, w, e, lis) && d' == DataOf(lis.ledgerInfo);
      GrowsFromGenesis(cfg, w, genesis, e, lis);
    } else if d' == DataOf(genesis) {
      var e: nat, lis :| e >= 1 && Signed(cfg, w, e, lis) && d == DataOf(lis.ledgerInfo);
      GrowsFromGenesis(cfg, w, genesis, e, lis);
    } else {
      var e: nat, lis :| e >= 1 && Signed(cfg, w, e, lis) && d == DataOf(lis.ledgerInfo);
      var e': nat, lis' :| e' >= 1 && Signed(cfg, w, e', lis') && d' == DataOf(lis'.ledgerInfo);
      SignedComparable(cfg, w, genesis, e, lis, e', lis');
    }
  }

  /** What the validators of a reachable world can sign, in all epochs, is one chain. */
  lemma {:induction false} SignedIsChain(cfg: Config, w: World, genesis: LedgerInfo)
    requires Sound(cfg, w, genesis)
    ensures LightClient.ValidChain(ChainOf(cfg, w, genesis))
  {
    var c := ChainOf(cfg, w, genesis);
    forall d | d in c.commits
      ensures LightClient.ValidCommit(c, d)
    {
      CommittedIs(cfg, w, genesis, d);
    }
    forall d, d' | d in c.commits && d' in c.commits && d.version <= d'.version
      ensures d.rootHash <= d'.rootHash
    {
      CommittedIs(cfg, w, genesis, d);
      CommittedIs(cfg, w, genesis, d');
      CommittedComparable(cfg, w, genesis, d, d');
    }
    forall e: nat
      ensures c.epochStates(e).epoch == e
    {
      assert ValidEpoch(cfg, e);
    }
  }

  /** Whatever is shown with unforged signatures is vouched for. */
  lemma {:induction false} DerivableIsVouched(cfg: Config, w: World, genesis: LedgerInfo, lis: LedgerInfoWithSignatures)
    requires LiDerivable(w, lis)
    ensures LightClient.Vouched(ChainOf(cfg, w, genesis), lis)
  {
    forall e: nat | e >= 1 && ByEpochState(cfg.epochStates(e)).Verify(lis)
      ensures LightClient.OnChain(ChainOf(cfg, w, genesis), lis)
    {
      assert Signed(cfg, w, e, lis);
    }
  }

  // ----- Clients of a reachable world -----

  ghost predicate DerivableRun(w: World, attempts: seq<LightClient.Attempt>) {
    forall i :: 0 <= i < |attempts| ==>
                  LiDerivable(w, attempts[i].proof.latest) && ProofDerivable(w, attempts[i].proof.epochChanges)
  }

  lemma {:induction false} DerivableRunIsVouched(cfg: Config, w: World, genesis: LedgerInfo,
                                                 attempts: seq<LightClient.Attempt>)
    requires DerivableRun(w, attempts)
    ensures LightClient.VouchedRun(ChainOf(cfg, w, genesis), attempts)
  {
    forall i | 0 <= i < |attempts|
      ensures LightClient.VouchedProof(ChainOf(cfg, w, genesis), attempts[i].proof)
    {
      var p := attempts[i].proof;
      DerivableIsVouched(cfg, w, genesis, p.latest);
      forall j | 0 <= j < |p.epochChanges.lis|
        ensures LightClient.Vouched(ChainOf(cfg, w, genesis), p.epochChanges.lis[j])
      {
        DerivableIsVouched(cfg, w, genesis, p.epochChanges.lis[j]);
      }
    }
  }

  /** Clients that start from the genesis waypoint and are fed any proofs of a reachable world, through
      any number of epochs, see one ledger and, in one epoch, one validator set. */
  lemma {:induction false} ClientsOfRunAgree(cfg: Config, run: seq<World>, genesis: LedgerInfo,
                                             attempts: seq<LightClient.Attempt>, attempts': seq<LightClient.Attempt>)
    requires ValidConfig(cfg) && IsRun(cfg, run) && ValidGenesis(cfg, genesis) && Lawful(cfg, run[|run| - 1], genesis)
    requires DerivableRun(run[|run| - 1], attempts) && DerivableRun(run[|run| - 1], attempts')
    requires LightClient.Run(EpochWaypoint(NewAny(genesis)), attempts).InEpoch?
    requires LightClient.Run(EpochWaypoint(NewAny(genesis)), attempts').InEpoch?
    ensures var t := LightClient.Run(EpochWaypoint(NewAny(genesis)), attempts);
            var t' := LightClient.Run(EpochWaypoint(NewAny(genesis)), attempts');
            && (t.accumulator <= t'.accumulator || t'.accumulator <= t.accumulator)
            && t.epochState == cfg.epochStates(t.epochState.epoch)
            && t'.epochState == cfg.epochStates(t'.epochState.epoch)
  {
    var w, s := run[|run| - 1], EpochWaypoint(NewAny(genesis));
    RunKeepsWorldInv(cfg, run, |run| - 1);
    var c := ChainOf(cfg, w, genesis);
    SignedIsChain(cfg, w, genesis);
    DerivableRunIsVouched(cfg, w, genesis, attempts);
    DerivableRunIsVouched(cfg, w, genesis, attempts');
    assert LightClient.Canonical(c, s);
    LightClient.ClientsAgree(c, s, attempts, s, attempts');
    LightClient.RunStaysOnChain(c, s, attempts);
    LightClient.RunStaysOnChain(c, s, attempts');
  }

  // ----- Validator sets are learned, not given -----

  /** A step in which nothing is said about the validator set that an epoch change installs. */
  ghost predicate OpenStep(cfg: Config, w: World, w': World) {
    exists a, call, n' :: a in w.nodes && NodeStep(cfg, w, w.nodes[a], n', call) && w' == World(w.nodes[a := n'])
  }

  ghost predicate OpenStepAt(cfg: Config, run: seq<World>, i: nat)
    requires i + 1 < |run|
  {
    OpenStep(cfg, run[i], run[i + 1])
  }

  ghost predicate LawfulAt(cfg: Config, run: seq<World>, genesis: LedgerInfo, i: nat)
    requires i < |run|
  {
    Lawful(cfg, run[i], genesis)
  }

  /** Validators that start from the genesis waypoint and learn everything else from epoch-change
      proofs of the adversary's choice. */
  ghost predicate IsOpenRun(cfg: Config, run: seq<World>, genesis: LedgerInfo) {
    && run != [] && Initial(cfg, run[0])
    && (forall a :: a in run[0].nodes ==> run[0].nodes[a].state.waypoint == NewAny(genesis))
    && (forall i: nat :: i + 1 < |run| ==> OpenStepAt(cfg, run, i))
    && (forall i: nat :: i < |run| ==> LawfulAt(cfg, run, genesis, i))
  }

  ghost predicate WaypointsOnChain(cfg: Config, w: World, genesis: LedgerInfo) {
    forall a :: a in w.nodes ==> LightClient.CanonicalWaypoint(ChainOf(cfg, w, genesis), w.nodes[a].state.waypoint)
  }

  lemma {:induction false} SignedPersists(cfg: Config, w: World, w': World, e: nat, lis: LedgerInfoWithSignatures)
    requires Grows(w, w') && Signed(cfg, w, e, lis)
    ensures Signed(cfg, w', e, lis)
  {
    LiDerivablePersists(w, w', lis);
  }

  lemma {:induction false} WaypointPersists(cfg: Config, w: World, w': World, genesis: LedgerInfo, waypoint: Waypoint)
    requires Grows(w, w') && LightClient.CanonicalWaypoint(ChainOf(cfg, w, genesis), waypoint)
    ensures LightClient.CanonicalWaypoint(ChainOf(cfg, w', genesis), waypoint)
  {
    var d := waypoint.value.value;
    if d != DataOf(genesis) {
      var e: nat, lis :| e >= 1 && Signed(cfg, w, e, lis) && d == DataOf(lis.ledgerInfo);
      SignedPersists(cfg, w, w', e, lis);
    }
  }

  lemma {:induction false} ProofInstalls(cfg: Config, w: World, genesis: LedgerInfo, waypoint: Waypoint,
                                         proof: EpochChangeProof) returns (c: LightClient.Chain)
    requires Sound(cfg, w, genesis) && ProofDerivable(w, proof)
    requires LightClient.CanonicalWaypoint(ChainOf(cfg, w, genesis), waypoint)
    requires VerifyProof(ByWaypoint(waypoint), proof.lis).Ok?
    ensures c == ChainOf(cfg, w, genesis) && LightClient.Installs(c, VerifyProof(ByWaypoint(waypoint), proof.lis).value)
  {
    c := ChainOf(cfg, w, genesis);
    SignedIsChain(cfg, w, genesis);
    forall i | 0 <= i < |proof.lis|
      ensures LightClient.Vouched(c, proof.lis[i])
    {
      DerivableIsVouched(cfg, w, genesis, proof.lis[i]);
    }
    LightClient.AcceptedOnChain(c, ByWaypoint(waypoint), proof.lis);
  }

  lemma {:induction false} InitializeEither(s: State, proof: EpochChangeProof, io: InitializeIo)
    ensures var s' := Initialize(s, proof, io).0;
            var last := VerifyProof(ByWaypoint(s.waypoint), proof.lis);
            && (s'.waypoint == s.waypoint || (last.Ok? && s'.waypoint == NewAny(last.value.ledgerInfo)))
            && (s'.epochState == s.epochState || (last.Ok? && s'.epochState == Next(last.value)))
  {
  }

  /** What an epoch-change proof installs is the set of its epoch, and the waypoint stays on the chain. */
  lemma {:induction false} InitializeInstalls(cfg: Config, w: World, genesis: LedgerInfo, s: State,
                                              proof: EpochChangeProof, io: InitializeIo)
    requires Sound(cfg, w, genesis) && ProofDerivable(w, proof) && KnownSet(cfg, s)
    requires LightClient.CanonicalWaypoint(ChainOf(cfg, w, genesis), s.waypoint)
    ensures var s' := Initialize(s, proof, io).0;
            KnownSet(cfg, s') && LightClient.CanonicalWaypoint(ChainOf(cfg, w, genesis), s'.waypoint)
  {
    InitializeEither(s, proof, io);
    if VerifyProof(ByWaypoint(s.waypoint), proof.lis).Ok? {
      var _ := ProofInstalls(cfg, w, genesis, s.waypoint, proof);
    }
  }

  lemma {:induction false} OpenNodeStepInstalls(cfg: Config, w: World, genesis: LedgerInfo, a: Address, n': Node,
                                                call: Call)
    requires Sound(cfg, w, genesis) && WaypointsOnChain(cfg, w, genesis)
    requires a in w.nodes && NodeStep(cfg, w, w.nodes[a], n', call)
    ensures KnownSet(cfg, n'.state)
    ensures LightClient.CanonicalWaypoint(ChainOf(cfg, w, genesis), n'.state.waypoint)
  {
    var s := w.nodes[a].state;
    assert NodeInv(cfg, a, w.nodes[a]);
    assert ValidEpoch(cfg, s.safetyData.epoch);
    assert LightClient.CanonicalWaypoint(ChainOf(cfg, w, genesis), s.waypoint);
    if call.CallInitialize? {
      InitializeInstalls(cfg, w, genesis, s, call.proof, call.io);
    } else {
      assert n'.state.waypoint == s.waypoint;
      assert n'.state.epochState == s.epochState || n'.state.epochState.None?;
    }
  }

  lemma {:induction false} WaypointsPersist(cfg: Config, w: World, genesis: LedgerInfo, a: Address, n': Node)
    requires a in w.nodes && Grows(w, World(w.nodes[a := n'])) && WaypointsOnChain(cfg, w, genesis)
    requires LightClient.CanonicalWaypoint(ChainOf(cfg, w, genesis), n'.state.waypoint)
    ensures WaypointsOnChain(cfg, World(w.nodes[a := n']), genesis)
  {
    var w' := World(w.nodes[a := n']);
    forall b | b in w'.nodes
      ensures LightClient.CanonicalWaypoint(ChainOf(cfg, w', genesis), w'.nodes[b].state.waypoint)
    {
      assert b != a ==> w'.nodes[b] == w.nodes[b];
      WaypointPersists(cfg, w, w', genesis, w'.nodes[b].state.waypoint);
    }
  }

  lemma {:induction false} OpenStepIsStep(cfg: Config, w: World, w': World, genesis: LedgerInfo)
    requires Sound(cfg, w, genesis) && WaypointsOnChain(cfg, w, genesis) && OpenStep(cfg, w, w')
    ensures Step(cfg, w, w') && WaypointsOnChain(cfg, w', genesis)
  {
    var a, call, n' :| a in w.nodes && NodeStep(cfg, w, w.nodes[a], n', call) && w' == World(w.nodes[a := n']);
    OpenNodeStepInstalls(cfg, w, genesis, a, n', call);
    assert Step(cfg, w, w');
    StepKeepsWorldInv(cfg, w, w');
    WaypointsPersist(cfg, w, genesis, a, n');
  }

  lemma {:induction false} StartOnChain(cfg: Config, w: World, genesis: LedgerInfo)
    requires forall a :: a in w.nodes ==> w.nodes[a].state.waypoint == NewAny(genesis)
    ensures WaypointsOnChain(cfg, w, genesis)
  {
  }

  lemma {:induction false} OpenPrefixGrows(cfg: Config, run: seq<World>, genesis: LedgerInfo, w': World)
    requires ValidConfig(cfg) && ValidGenesis(cfg, genesis) && IsRun(cfg, run)
    requires Lawful(cfg, run[|run| - 1], genesis) && WaypointsOnChain(cfg, run[|run| - 1], genesis)
    requires OpenStep(cfg, run[|run| - 1], w')
    ensures IsRun(cfg, run + [w']) && WaypointsOnChain(cfg, w', genesis)
  {
    RunKeepsWorldInv(cfg, run, |run| - 1);
    OpenStepIsStep(cfg, run[|run| - 1], w', genesis);
    RunGrows(cfg, run, w');
  }

  lemma {:induction false} OpenPrefixContinues(cfg: Config, run: seq<World>, genesis: LedgerInfo, i: nat)
    requires ValidConfig(cfg) && ValidGenesis(cfg, genesis) && 0 < i < |run|
    requires LawfulAt(cfg, run, genesis, i - 1) && OpenStepAt(cfg, run, i - 1)
    requires IsRun(cfg, run[..i]) && WaypointsOnChain(cfg, run[i - 1], genesis)
    ensures IsRun(cfg, run[..i + 1]) && WaypointsOnChain(cfg, run[i], genesis)
  {
    var prefix := run[..i];
    assert prefix[|prefix| - 1] == run[i - 1];
    OpenPrefixGrows(cfg, prefix, genesis, run[i]);
    assert prefix + [run[i]] == run[..i + 1];
  }

  lemma {:induction false} OpenPrefixIsRun(cfg: Config, run: seq<World>, genesis: LedgerInfo, i: nat)
    requires ValidConfig(cfg) && ValidGenesis(cfg, genesis) && IsOpenRun(cfg, run, genesis) && i < |run|
    ensures IsRun(cfg, run[..i + 1]) && WaypointsOnChain(cfg, run[i], genesis)
  {
    if i == 0 {
      StartOnChain(cfg, run[0], genesis);
    } else {
      OpenPrefixIsRun(cfg, run, genesis, i - 1);
      assert LawfulAt(cfg, run, genesis, i - 1) && OpenStepAt(cfg, run, i - 1);
      OpenPrefixContinues(cfg, run, genesis, i);
    }
  }

  /** Validators that learn the sets from proofs only ever install the right ones: every open run is a
      run of the protocol. */
  lemma {:induction false} OpenRunIsRun(cfg: Config, run: seq<World>, genesis: LedgerInfo)
    requires ValidConfig(cfg) && ValidGenesis(cfg, genesis) && IsOpenRun(cfg, run, genesis)
    ensures IsRun(cfg, run)
  {
    OpenPrefixIsRun(cfg, run, genesis, |run| - 1);
    assert run[..|run|] == run;
  }

  /** The same for clients: nothing is assumed of the sets but that each is named by a commit that ends
      the epoch before it. */
  lemma {:induction false} OneLedger(cfg: Config, run: seq<World>, genesis: LedgerInfo,
                                     attempts: seq<LightClient.Attempt>, attempts': seq<LightClient.Attempt>)
    requires ValidConfig(cfg) && ValidGenesis(cfg, genesis) && IsOpenRun(cfg, run, genesis)
    requires DerivableRun(run[|run| - 1], attempts) && DerivableRun(run[|run| - 1], attempts')
    requires LightClient.Run(EpochWaypoint(NewAny(genesis)), attempts).InEpoch?
    requires LightClient.Run(EpochWaypoint(NewAny(genesis)), attempts').InEpoch?
    ensures var t := LightClient.Run(EpochWaypoint(NewAny(genesis)), attempts);
            var t' := LightClient.Run(EpochWaypoint(NewAny(genesis)), attempts');
            t.accumulator <= t'.accumulator || t'.accumulator <= t.accumulator
  {
    OpenRunIsRun(cfg, run, genesis);
    assert LawfulAt(cfg, run, genesis, |run| - 1);
    ClientsOfRunAgree(cfg, run, genesis, attempts, attempts');
  }

  // ----- Such runs exist -----

  /** The sole validator is ending epoch 1, in rounds 1 and 2, and has come as far as `log`. */
  ghost predicate EndsInTwoRounds(log: seq<Entry>, one: Vote, two: Vote) {
    && one == VoteFor(NewNil(1, GenesisQc(GenesisLi().ledgerInfo)), [1], Some(SetOf(2)))
    && two == VoteFor(NewNil(2, QcOf(one)), [], Some(SetOf(2)))
    && log <= [Voted(NewNil(1, GenesisQc(GenesisLi().ledgerInfo)).data, one, None),
               Voted(NewNil(2, QcOf(one)).data, two, None)]
  }

  lemma {:induction false} TwoRoundsExecuted(n: Node, one: Vote, two: Vote, k: nat)
    requires EndsInTwoRounds(n.log, one, two) && k < |n.log|
    ensures Executed(Cfg(), Alone(n), GenesisLi().ledgerInfo, n.log[k]) && n.log[k].tc.None?
  {
    var genesis := GenesisLi().ledgerInfo;
    assert Ends(Cfg(), Alone(n), genesis, 0, genesis);
    assert one.voteData.parent == GenesisInfo(genesis);
    assert two.voteData.parent == one.voteData.proposed;
  }

  /** Only the second vote ends an epoch. */
  lemma {:induction false} TwoRoundsVoted(n: Node, one: Vote, two: Vote, li: LedgerInfo)
    requires EndsInTwoRounds(n.log, one, two) && HasVoted(n, li)
    ensures li.commitInfo.epoch == 1
    ensures li.commitInfo.nextEpochState.None? || (|n.log| == 2 && li == two.ledgerInfo)
  {
    assert one.ledgerInfo.commitInfo == GenesisQc(GenesisLi().ledgerInfo).CertifiedBlock();
    assert two.ledgerInfo.commitInfo == one.voteData.proposed;
  }

  lemma {:induction false} TwoRoundsEnd(n: Node, one: Vote, two: Vote)
    requires EndsInTwoRounds(n.log, one, two) && |n.log| == 2
    ensures Ends(Cfg(), Alone(n), GenesisLi().ledgerInfo, 1, two.ledgerInfo)
    ensures two.ledgerInfo.commitInfo.nextEpochState == Some(Cfg().epochStates(2))
  {
    EndFacts(1, GenesisQc(GenesisLi().ledgerInfo), one, two);
    assert n.log[1].vote == two && HasVoted(n, two.ledgerInfo);
    assert Signed(Cfg(), Alone(n), 1, QcOf(two).signedLedgerInfo);
  }

  lemma {:induction false} TwoRoundsEndings(n: Node, one: Vote, two: Vote, e: nat, li: LedgerInfo)
    requires EndsInTwoRounds(n.log, one, two) && e >= 1 && Ends(Cfg(), Alone(n), GenesisLi().ledgerInfo, e, li)
    ensures e == 1 && |n.log| == 2
  {
    ConfigExists((e: nat) => true, (e: nat) => true);
    var lis := EndIsSigned(Cfg(), Alone(n), GenesisLi().ledgerInfo, e, li);
    var a := SignerVoted(Cfg(), Alone(n), e, lis);
    TwoRoundsVoted(n, one, two, li);
  }

  lemma {:induction false} TwoRoundsName(n: Node, one: Vote, two: Vote, e: nat)
    requires EndsInTwoRounds(n.log, one, two)
    ensures SetNamed(Cfg(), Alone(n), GenesisLi().ledgerInfo, e)
  {
    var genesis := GenesisLi().ledgerInfo;
    if e == 0 {
      assert Ends(Cfg(), Alone(n), genesis, 0, genesis);
    } else if li :| Ends(Cfg(), Alone(n), genesis, e, li) {
      TwoRoundsEndings(n, one, two, e, li);
      TwoRoundsEnd(n, one, two);
    }
  }

  lemma {:induction false} TwoRoundsLawful(n: Node, one: Vote, two: Vote)
    requires EndsInTwoRounds(n.log, one, two)
    ensures Lawful(Cfg(), Alone(n), GenesisLi().ledgerInfo)
  {
    var genesis := GenesisLi().ledgerInfo;
    forall a, k | a in Alone(n).nodes && 0 <= k < |Alone(n).nodes[a].log|
      ensures Executed(Cfg(), Alone(n), genesis, Alone(n).nodes[a].log[k]) && Alone(n).nodes[a].log[k].tc.None?
    {
      TwoRoundsExecuted(n, one, two, k);
    }
    forall e: nat
      ensures SetNamed(Cfg(), Alone(n), genesis, e)
    {
      TwoRoundsName(n, one, two, e);
    }
  }

  /** The run itself: start, entry into epoch 1, two votes. */
  lemma {:induction false} TwoRoundsRun() returns (run: seq<World>, nodes: seq<Node>, one: Vote, two: Vote)
    ensures IsRun(Cfg(), run) && |run| == |nodes| == 4
    ensures nodes[0].state.waypoint == FirstWaypoint() && |nodes[3].log| == 2
    ensures forall i :: 0 <= i < 4 ==> run[i] == Alone(nodes[i]) && EndsInTwoRounds(nodes[i].log, one, two)
  {
    var s := FirstEpochEntered();
    GenesisUsable(NodeIn(1, s), GenesisLi().ledgerInfo);
    var s';
    s', one, two := EpochEnds(s, 1, GenesisQc(GenesisLi().ledgerInfo), None);
    var n2 :| s'.run[2] == Alone(n2) && n2.log == s'.log[..1];
    run := s'.run;
    nodes := [Node(State(1, FirstWaypoint(), FRESH, None, None, None), []), NodeIn(1, s), n2, NodeIn(1, s')];
  }

  /** An open run, lawful at every state, in which an epoch ends. */
  lemma {:induction false} OpenRunExists() returns (run: seq<World>, genesis: LedgerInfo, end: LedgerInfo)
    ensures ValidConfig(Cfg()) && ValidGenesis(Cfg(), genesis) && IsOpenRun(Cfg(), run, genesis)
    ensures Ends(Cfg(), run[|run| - 1], genesis, 1, end)
  {
    ConfigExists((e: nat) => true, (e: nat) => true);
    var nodes, one, two;
    run, nodes, one, two := TwoRoundsRun();
    genesis, end := GenesisLi().ledgerInfo, two.ledgerInfo;
    forall i: nat | i < |run|
      ensures LawfulAt(Cfg(), run, genesis, i)
    {
      TwoRoundsLawful(nodes[i], one, two);
    }
    forall i: nat | i + 1 < |run|
      ensures OpenStepAt(Cfg(), run, i)
    {
      assert StepAt(Cfg(), run, i);
    }
    TwoRoundsEnd(nodes[3], one, two);
  }
}
