/** Whatever the adversary does, certificates of one round agree and committed blocks of one epoch
    lie on one chain, under the three-chain rule and under the two-chain rule. */
module CommitSafety {
  import opened Wrappers
  import opened Validators
  import opened Types
  import opened EpochChange
  import opened Protocol

  /** A certificate of epoch `e`, past the genesis round, that some replica may come to hold. */
  ghost predicate Certificate(cfg: Config, w: World, e: nat, qc: QuorumCert) {
    && qc.signedLedgerInfo.ledgerInfo.consensusDataHash == HashOf(qc.voteData)
    && qc.signedLedgerInfo.VerifySignatures(VerifierOf(cfg, e))
    && QcDerivable(w, qc)
    && qc.CertifiedBlock().epoch == e
    && qc.CertifiedBlock().round > 0
  }

  /** A certificate that makes a replica commit: its commit info is past the genesis round, and
      so higher than the root of any block tree can be without having been committed itself. */
  ghost predicate Commits(cfg: Config, w: World, e: nat, qc: QuorumCert) {
    Certificate(cfg, w, e, qc) && qc.CommitInfo().round > 0
  }

  predicate IsVoteFor(entry: Entry, qc: QuorumCert) {
    entry.Voted? && entry.vote.ledgerInfo == qc.signedLedgerInfo.ledgerInfo
  }

  /** An honest signer of a certificate voted for exactly what it certifies. */
  lemma {:induction false} HonestVoteBehind(cfg: Config, w: World, e: nat, qc: QuorumCert, a: Address) returns (k: nat)
    requires ValidConfig(cfg) && WorldInv(cfg, w) && Certificate(cfg, w, e, qc)
    requires a in qc.signedLedgerInfo.signatures && a in cfg.honest
    ensures a in w.nodes && k < |w.nodes[a].log|
    ensures var entry := w.nodes[a].log[k];
            && IsVoteFor(entry, qc) && EntryOk(cfg, a, entry) && EntryDerivable(w, entry)
            && entry.vote.voteData == qc.voteData
            && entry.block.epoch == e && entry.block.round == qc.CertifiedBlock().round
  {
    assert ValidEpoch(cfg, e);
    var sigs := qc.signedLedgerInfo.signatures;
    assert ValidSignature(VerifierOf(cfg, e), a, qc.signedLedgerInfo.ledgerInfo, sigs[a]);
    assert HasVoted(w.nodes[a], sigs[a].message);
    k :| 0 <= k < |w.nodes[a].log| && w.nodes[a].log[k].Voted? && w.nodes[a].log[k].vote.ledgerInfo == sigs[a].message;
    assert NodeInv(cfg, a, w.nodes[a]);
  }

  lemma {:induction false} SomeHonestVote(cfg: Config, w: World, e: nat, qc: QuorumCert) returns (a: Address, k: nat)
    requires ValidConfig(cfg) && WorldInv(cfg, w) && Certificate(cfg, w, e, qc)
    ensures a in w.nodes && k < |w.nodes[a].log|
    ensures var entry := w.nodes[a].log[k];
            && IsVoteFor(entry, qc) && EntryOk(cfg, a, entry) && EntryDerivable(w, entry)
            && entry.vote.voteData == qc.voteData
            && entry.block.epoch == e && entry.block.round == qc.CertifiedBlock().round
  {
    assert ValidEpoch(cfg, e);
    var signers := qc.signedLedgerInfo.signatures.Keys;
    a := HonestInCommon(VerifierOf(cfg, e), cfg.honest, signers, signers);
    k := HonestVoteBehind(cfg, w, e, qc, a);
  }

  /** Two certificates have an honest voter in common. */
  lemma {:induction false} CommonVoter(cfg: Config, w: World, e: nat, qc1: QuorumCert, qc2: QuorumCert)
    returns (a: Address, i: nat, j: nat)
    requires ValidConfig(cfg) && WorldInv(cfg, w) && Certificate(cfg, w, e, qc1) && Certificate(cfg, w, e, qc2)
    ensures a in w.nodes && i < |w.nodes[a].log| && j < |w.nodes[a].log|
    ensures var (one, two) := (w.nodes[a].log[i], w.nodes[a].log[j]);
            && IsVoteFor(one, qc1) && one.block.epoch == e && one.block.round == qc1.CertifiedBlock().round
            && EntryOk(cfg, a, one) && one.vote.voteData == qc1.voteData
            && IsVoteFor(two, qc2) && two.block.epoch == e && two.block.round == qc2.CertifiedBlock().round
            && EntryOk(cfg, a, two) && two.vote.voteData == qc2.voteData
            && (i < j ==> Ordered(cfg, one, two)) && (j < i ==> Ordered(cfg, two, one))
  {
    assert ValidEpoch(cfg, e);
    a := HonestInCommon(VerifierOf(cfg, e), cfg.honest, qc1.signedLedgerInfo.signatures.Keys,
                        qc2.signedLedgerInfo.signatures.Keys);
    i := HonestVoteBehind(cfg, w, e, qc1, a);
    j := HonestVoteBehind(cfg, w, e, qc2, a);
    assert NodeInv(cfg, a, w.nodes[a]);
  }

  /** Certificates of one round certify the same block, with the same execution result and the
      same commit decision. */
  lemma {:induction false} CertificatesAgree(cfg: Config, w: World, e: nat, qc1: QuorumCert, qc2: QuorumCert)
    requires ValidConfig(cfg) && WorldInv(cfg, w) && Certificate(cfg, w, e, qc1) && Certificate(cfg, w, e, qc2)
    requires qc1.CertifiedBlock().round == qc2.CertifiedBlock().round
    ensures qc1.signedLedgerInfo.ledgerInfo == qc2.signedLedgerInfo.ledgerInfo && qc1.voteData == qc2.voteData
  {
    var a, i, j := CommonVoter(cfg, w, e, qc1, qc2);
  }

  // ----- Chains of certified blocks -----

  /** `d` extends `a` and, if blocks are executed before the vote, the transactions executed up to `a`
      are a prefix of those up to `d`. */
  ghost predicate Descends(cfg: Config, e: nat, d: BlockInfo, a: BlockInfo) {
    Extends(d, a) && (cfg.coupled(e) ==> a.executedStateId <= d.executedStateId)
  }

  /** `a` is the parent of `d` and, if blocks are executed before the vote, the state of `d` extends
      that of `a`. */
  ghost predicate ChildOf(cfg: Config, e: nat, d: BlockInfo, a: BlockInfo) {
    && d.id.HashOf? && d.id.value.quorumCert.CertifiedBlock() == a
    && (cfg.coupled(e) ==> a.executedStateId <= d.executedStateId)
  }

  /** A branch of certified blocks from `a` to `d`, each the parent of the next. */
  ghost predicate Branch(cfg: Config, w: World, e: nat, a: BlockInfo, d: BlockInfo, path: seq<QuorumCert>) {
    && path != [] && path[0].CertifiedBlock() == a && path[|path| - 1].CertifiedBlock() == d
    && (forall i :: 0 <= i < |path| ==> Certificate(cfg, w, e, path[i]))
    && (forall i :: 0 < i < |path| ==> ChildOf(cfg, e, path[i].CertifiedBlock(), path[i - 1].CertifiedBlock()))
  }

  lemma {:induction false} BranchGrows(cfg: Config, w: World, e: nat, a: BlockInfo, d: BlockInfo, path: seq<QuorumCert>,
                                       qc: QuorumCert)
    requires Branch(cfg, w, e, a, d, path) && Certificate(cfg, w, e, qc) && ChildOf(cfg, e, qc.CertifiedBlock(), d)
    ensures Branch(cfg, w, e, a, qc.CertifiedBlock(), path + [qc])
  {
  }

  lemma {:induction false} BranchDescends(cfg: Config, w: World, e: nat, a: BlockInfo, d: BlockInfo,
                                          path: seq<QuorumCert>)
    requires Branch(cfg, w, e, a, d, path)
    ensures Descends(cfg, e, d, a)
    decreases |path|
  {
    var n := |path| - 1;
    if n > 0 {
      assert Branch(cfg, w, e, a, path[n - 1].CertifiedBlock(), path[..n]);
      BranchDescends(cfg, w, e, a, path[n - 1].CertifiedBlock(), path[..n]);
    }
  }

  /** A certificate of the round at which a branch ends certifies the block at its end. */
  lemma {:induction false} SameRoundSameBranch(cfg: Config, w: World, e: nat, a: BlockInfo, d: BlockInfo,
                                               path: seq<QuorumCert>, qc: QuorumCert)
    requires ValidConfig(cfg) && WorldInv(cfg, w) && Branch(cfg, w, e, a, d, path)
    requires Certificate(cfg, w, e, qc) && qc.CertifiedBlock().round == d.round
    ensures Branch(cfg, w, e, a, qc.CertifiedBlock(), path)
  {
    CertificatesAgree(cfg, w, e, qc, path[|path| - 1]);
  }

  /** The block a certificate certifies is a child of the certificate's parent block, and that parent
      is certified, by a certificate carried in the block, unless it is of the genesis round. */
  lemma {:induction false} ParentOf(cfg: Config, w: World, e: nat, qc: QuorumCert) returns (up: QuorumCert)
    requires ValidConfig(cfg) && WorldInv(cfg, w) && Certificate(cfg, w, e, qc)
    ensures up.CertifiedBlock() == qc.ParentBlock() && ChildOf(cfg, e, qc.CertifiedBlock(), up.CertifiedBlock())
    ensures qc.CertifiedBlock().id.value.quorumCert == up
    ensures up.CertifiedBlock().round < qc.CertifiedBlock().round && up.CertifiedBlock().epoch == e
    ensures up.CertifiedBlock().round > 0 ==> Certificate(cfg, w, e, up)
  {
    var a, k := SomeHonestVote(cfg, w, e, qc);
    up := w.nodes[a].log[k].block.quorumCert;
  }

  // ----- What a certificate commits -----

  /** The block below the parent of a certified block. */
  function Grandparent(qc: QuorumCert): BlockInfo {
    if qc.CertifiedBlock().id.HashOf? then qc.CertifiedBlock().id.value.quorumCert.ParentBlock() else EMPTY_BLOCK_INFO
  }

  /** The rounds at the end of the branch that the certificate certifies are consecutive, and so commit
      `info`, which is past the genesis round. */
  ghost predicate Consecutive(cfg: Config, e: nat, qc: QuorumCert, info: BlockInfo) {
    && info.round > 0
    && if cfg.twoChain(e) then info == qc.ParentBlock() && info.round + 1 == qc.CertifiedBlock().round
       else
         && info == Grandparent(qc)
         && info.round + 1 == qc.ParentBlock().round && info.round + 2 == qc.CertifiedBlock().round
  }

  lemma {:induction false} CertificateCommits(cfg: Config, w: World, e: nat, qc: QuorumCert)
    requires ValidConfig(cfg) && WorldInv(cfg, w) && Certificate(cfg, w, e, qc)
    ensures qc.CertifiedBlock().id.HashOf?
    ensures var block := qc.CertifiedBlock().id.value;
            && qc.CommitInfo() == CommittedWith(cfg.twoChain(e), block) && block.round == qc.CertifiedBlock().round
            && block.quorumCert.CertifiedBlock() == qc.ParentBlock()
  {
    var a, k := SomeHonestVote(cfg, w, e, qc);
  }

  /** In every reachable state a certificate commits exactly what consecutive rounds say, whatever the
      kinds of the blocks: it commits a block if and only if the rounds above it are consecutive. */
  lemma {:induction false} CommitsIffConsecutive(cfg: Config, run: seq<World>, e: nat, qc: QuorumCert, info: BlockInfo)
    requires ValidConfig(cfg) && IsRun(cfg, run) && Certificate(cfg, run[|run| - 1], e, qc)
    ensures Consecutive(cfg, e, qc, info) <==> Commits(cfg, run[|run| - 1], e, qc) && qc.CommitInfo() == info
    ensures !Commits(cfg, run[|run| - 1], e, qc) ==> qc.CommitInfo().round == 0
  {
    RunKeepsWorldInv(cfg, run, |run| - 1);
    CertificateCommits(cfg, run[|run| - 1], e, qc);
  }

  /** In every reachable state, a certified block is not before its parent in time and later unless it is
      empty by its kind or follows the end of the epoch; and it does not build on a certificate that
      commits an end of the epoch. */
  lemma {:induction false} CertifiedFollows(cfg: Config, run: seq<World>, e: nat, qc: QuorumCert)
    requires ValidConfig(cfg) && IsRun(cfg, run) && Certificate(cfg, run[|run| - 1], e, qc)
    ensures qc.CertifiedBlock().id.HashOf?
    ensures var block, info, parent := qc.CertifiedBlock().id.value, qc.CertifiedBlock(), qc.ParentBlock();
            && !block.quorumCert.EndsEpoch()
            && parent.timestamp <= info.timestamp == block.timestamp
            && (parent.timestamp < info.timestamp <==> block.blockType.Proposal? && parent.nextEpochState.None?)
            && (parent.nextEpochState.Some? && block.blockType.Proposal? ==> block.blockType.payload == [])
  {
    RunKeepsWorldInv(cfg, run, |run| - 1);
    var a, k := SomeHonestVote(cfg, run[|run| - 1], e, qc);
  }

  // ----- Three-chain -----

  /** A three-chain commit certifies B2 with B0 <- B1 <- B2 in consecutive rounds; B1 and B0 are
      certified too. */
  lemma {:induction false} ThreeChainBehindCommit(cfg: Config, w: World, e: nat, commit: QuorumCert)
    returns (qc1: QuorumCert, qc0: QuorumCert)
    requires ValidConfig(cfg) && WorldInv(cfg, w) && !cfg.twoChain(e) && Commits(cfg, w, e, commit)
    ensures Certificate(cfg, w, e, qc1) && Certificate(cfg, w, e, qc0)
    ensures qc0.CertifiedBlock() == commit.CommitInfo() == qc1.ParentBlock()
    ensures commit.CertifiedBlock().id.HashOf? && commit.CertifiedBlock().id.value.quorumCert == qc1
    ensures commit.CertifiedBlock().round == qc1.CertifiedBlock().round + 1 == qc0.CertifiedBlock().round + 2
    ensures ChildOf(cfg, e, qc1.CertifiedBlock(), qc0.CertifiedBlock())
            && ChildOf(cfg, e, commit.CertifiedBlock(), qc1.CertifiedBlock())
  {
    var a, k := SomeHonestVote(cfg, w, e, commit);
    qc1 := ParentOf(cfg, w, e, commit);
    qc0 := ParentOf(cfg, w, e, qc1);
  }

  /** Up to the round of the commit certificate there is nothing but the three-chain itself. */
  lemma {:induction false} WithinThreeChain(cfg: Config, w: World, e: nat, commit: QuorumCert, qc: QuorumCert)
    returns (path: seq<QuorumCert>)
    requires ValidConfig(cfg) && WorldInv(cfg, w) && !cfg.twoChain(e)
    requires Commits(cfg, w, e, commit) && Certificate(cfg, w, e, qc)
    requires commit.CommitInfo().round <= qc.CertifiedBlock().round <= commit.CertifiedBlock().round
    ensures Branch(cfg, w, e, commit.CommitInfo(), qc.CertifiedBlock(), path)
  {
    var qc1, qc0 := ThreeChainBehindCommit(cfg, w, e, commit);
    var a := commit.CommitInfo();
    path := [qc0];
    var last := qc0;
    if qc.CertifiedBlock().round > qc0.CertifiedBlock().round {
      BranchGrows(cfg, w, e, a, last.CertifiedBlock(), path, qc1);
      path, last := path + [qc1], qc1;
    }
    if qc.CertifiedBlock().round > qc1.CertifiedBlock().round {
      BranchGrows(cfg, w, e, a, last.CertifiedBlock(), path, commit);
      path, last := path + [commit], commit;
    }
    SameRoundSameBranch(cfg, w, e, a, last.CertifiedBlock(), path, qc);
  }

  /** Past that round, the common voter cast the commit vote first and then preferred what it commits. */
  lemma {:induction false} ParentPreferred(cfg: Config, w: World, e: nat, commit: QuorumCert, qc: QuorumCert)
    returns (up: QuorumCert)
    requires ValidConfig(cfg) && WorldInv(cfg, w) && !cfg.twoChain(e)
    requires Commits(cfg, w, e, commit) && Certificate(cfg, w, e, qc)
    requires commit.CertifiedBlock().round < qc.CertifiedBlock().round
    ensures ChildOf(cfg, e, qc.CertifiedBlock(), up.CertifiedBlock()) && Certificate(cfg, w, e, up)
    ensures commit.CommitInfo().round <= up.CertifiedBlock().round < qc.CertifiedBlock().round
  {
    var a, i, j := CommonVoter(cfg, w, e, commit, qc);
    assert i < j;
    up := ParentOf(cfg, w, e, qc);
  }

  /** Every certified block at or above a committed one is on a branch that starts from it. */
  lemma {:induction false} CertifiedDescends(cfg: Config, w: World, e: nat, commit: QuorumCert, qc: QuorumCert)
    returns (path: seq<QuorumCert>)
    requires ValidConfig(cfg) && WorldInv(cfg, w) && !cfg.twoChain(e)
    requires Commits(cfg, w, e, commit) && Certificate(cfg, w, e, qc)
    requires commit.CommitInfo().round <= qc.CertifiedBlock().round
    ensures Branch(cfg, w, e, commit.CommitInfo(), qc.CertifiedBlock(), path)
    decreases qc.CertifiedBlock().round
  {
    if qc.CertifiedBlock().round <= commit.CertifiedBlock().round {
      path := WithinThreeChain(cfg, w, e, commit, qc);
    } else {
      var up := ParentPreferred(cfg, w, e, commit, qc);
      path := CertifiedDescends(cfg, w, e, commit, up);
      BranchGrows(cfg, w, e, commit.CommitInfo(), up.CertifiedBlock(), path, qc);
      path := path + [qc];
    }
  }

  // ----- Two-chain -----

  lemma {:induction false} TwoChainBehindCommit(cfg: Config, w: World, e: nat, commit: QuorumCert)
    returns (qc0: QuorumCert)
    requires ValidConfig(cfg) && WorldInv(cfg, w) && cfg.twoChain(e) && Commits(cfg, w, e, commit)
    ensures Certificate(cfg, w, e, qc0)
    ensures commit.CertifiedBlock().id.HashOf? && commit.CertifiedBlock().id.value.quorumCert == qc0
    ensures qc0.CertifiedBlock() == commit.CommitInfo()
    ensures commit.CertifiedBlock().round == qc0.CertifiedBlock().round + 1
    ensures ChildOf(cfg, e, commit.CertifiedBlock(), commit.CommitInfo())
  {
    var a, k := SomeHonestVote(cfg, w, e, commit);
    qc0 := ParentOf(cfg, w, e, commit);
  }

  /** Whether a vote needed its timeout certificate: its block does not follow the parent's round. */
  predicate ReliesOnTc(entry: Entry)
    requires entry.Voted?
  {
    entry.block.round != entry.block.quorumCert.CertifiedBlock().round + 1
  }

  /** A timeout certificate does no harm in epoch `e` if it is of that epoch, or if its round follows
      the round of the highest certificate that was timed out with. */
  predicate Harmless(t: TwoChainTimeout, e: nat) {
    t.epoch == e || t.round == t.HqcRound() + 1
  }

  /** The guard that no caller of the safety rules applies: the timeout certificates on which votes of
      epoch `e` relied are harmless. */
  ghost predicate TcsHarmless(w: World, e: nat) {
    forall a, k :: a in w.nodes && 0 <= k < |w.nodes[a].log| ==> TcHarmless(w.nodes[a].log[k], e)
  }

  ghost predicate TcHarmless(entry: Entry, e: nat) {
    entry.Voted? && entry.block.epoch == e && entry.tc.Some? && ReliesOnTc(entry) ==>
      Harmless(entry.tc.value.timeout, e)
  }

  /** A timeout certificate of a round at or above that of a commit certificate carries a signature of
      an honest voter for the commit, given after that vote, hence with a high enough certificate. */
  lemma {:induction false} TimeoutAfterCommit(cfg: Config, w: World, e: nat, commit: QuorumCert,
                                              tc: TwoChainTimeoutCertificate)
    requires ValidConfig(cfg) && WorldInv(cfg, w) && cfg.twoChain(e) && Commits(cfg, w, e, commit)
    requires tc.Verify(VerifierOf(cfg, e)) && TcDerivable(w, tc) && tc.timeout.epoch == e
    requires tc.timeout.round >= commit.CertifiedBlock().round
    ensures tc.timeout.HqcRound() >= commit.CommitInfo().round
  {
    assert ValidEpoch(cfg, e);
    var v := VerifierOf(cfg, e);
    var a := HonestInCommon(v, cfg.honest, commit.signedLedgerInfo.signatures.Keys, tc.signatures.Keys);
    var i := HonestVoteBehind(cfg, w, e, commit, a);
    assert tc.SignedFor(v, a);
    assert HasTimedOut(w.nodes[a], tc.signatures[a].1.message);
    var n := w.nodes[a];
    var j :|
      && 0 <= j < |n.log| && n.log[j].TimedOutTwoChain?
      && n.log[j].twoChainTimeout.SigningFormat() == tc.signatures[a].1.message;
    assert NodeInv(cfg, a, n);
    var qc0 := TwoChainBehindCommit(cfg, w, e, commit);
    assert n.log[i].block == commit.CertifiedBlock().id.value;
    assert if i < j then Ordered(cfg, n.log[i], n.log[j]) else Ordered(cfg, n.log[j], n.log[i]);
  }

  /** A certified block that does not follow the round of its parent rests on a harmless timeout
      certificate of the round before it, whose highest certificate is not above the parent. */
  lemma {:induction false} TcBehind(cfg: Config, w: World, e: nat, qc: QuorumCert)
    returns (tc: TwoChainTimeoutCertificate)
    requires ValidConfig(cfg) && WorldInv(cfg, w) && cfg.twoChain(e) && TcsHarmless(w, e)
    requires Certificate(cfg, w, e, qc) && qc.ParentBlock().round + 1 != qc.CertifiedBlock().round
    ensures tc.Verify(VerifierOf(cfg, e)) && TcDerivable(w, tc) && Harmless(tc.timeout, e)
    ensures tc.timeout.round + 1 == qc.CertifiedBlock().round && tc.timeout.HqcRound() <= qc.ParentBlock().round
  {
    var a, k := SomeHonestVote(cfg, w, e, qc);
    assert TcHarmless(w.nodes[a].log[k], e);
    tc := w.nodes[a].log[k].tc.value;
  }

  /** Past the round of a commit certificate, the parent of a certified block is at or above what was
      committed: it is of the round just before, or it is at least as high as the certificate in a
      timeout certificate of that round; and that one is of the epoch, or two rounds below. */
  lemma {:induction false} ParentAboveCommit(cfg: Config, w: World, e: nat, commit: QuorumCert, qc: QuorumCert)
    returns (up: QuorumCert)
    requires ValidConfig(cfg) && WorldInv(cfg, w) && cfg.twoChain(e) && TcsHarmless(w, e)
    requires Commits(cfg, w, e, commit) && Certificate(cfg, w, e, qc)
    requires commit.CertifiedBlock().round < qc.CertifiedBlock().round
    requires commit.CommitInfo().round < commit.CertifiedBlock().round
    ensures ChildOf(cfg, e, qc.CertifiedBlock(), up.CertifiedBlock()) && Certificate(cfg, w, e, up)
    ensures commit.CommitInfo().round <= up.CertifiedBlock().round < qc.CertifiedBlock().round
  {
    up := ParentOf(cfg, w, e, qc);
    if up.CertifiedBlock().round + 1 != qc.CertifiedBlock().round {
      var tc := TcBehind(cfg, w, e, qc);
      if tc.timeout.epoch == e {
        TimeoutAfterCommit(cfg, w, e, commit, tc);
      }
    }
  }

  lemma {:induction false} CertifiedDescendsTwoChain(cfg: Config, w: World, e: nat, commit: QuorumCert, qc: QuorumCert)
    returns (path: seq<QuorumCert>)
    requires ValidConfig(cfg) && WorldInv(cfg, w) && cfg.twoChain(e) && TcsHarmless(w, e)
    requires Commits(cfg, w, e, commit) && Certificate(cfg, w, e, qc)
    requires commit.CommitInfo().round <= qc.CertifiedBlock().round
    ensures Branch(cfg, w, e, commit.CommitInfo(), qc.CertifiedBlock(), path)
    decreases qc.CertifiedBlock().round
  {
    var qc0 := TwoChainBehindCommit(cfg, w, e, commit);
    if qc.CertifiedBlock().round <= commit.CertifiedBlock().round {
      path := if qc.CertifiedBlock().round == qc0.CertifiedBlock().round then [qc0] else [qc0, commit];
      SameRoundSameBranch(cfg, w, e, commit.CommitInfo(), path[|path| - 1].CertifiedBlock(), path, qc);
    } else {
      var up := ParentAboveCommit(cfg, w, e, commit, qc);
      path := CertifiedDescendsTwoChain(cfg, w, e, commit, up);
      BranchGrows(cfg, w, e, commit.CommitInfo(), up.CertifiedBlock(), path, qc);
      path := path + [qc];
    }
  }

  // ----- The theorems -----

  /** What has to be true of the timeout certificates used in an epoch: nothing under the three-chain
      rule, which does not use them, and the guard under the two-chain rule. */
  ghost predicate TcsChecked(cfg: Config, w: World, e: nat) {
    cfg.twoChain(e) ==> TcsHarmless(w, e)
  }

  /** What a commit certificate commits is itself certified. */
  lemma {:induction false} CommitCertified(cfg: Config, w: World, e: nat, commit: QuorumCert) returns (qc0: QuorumCert)
    requires ValidConfig(cfg) && WorldInv(cfg, w) && Commits(cfg, w, e, commit)
    ensures Certificate(cfg, w, e, qc0) && qc0.CertifiedBlock() == commit.CommitInfo()
  {
    if cfg.twoChain(e) {
      qc0 := TwoChainBehindCommit(cfg, w, e, commit);
    } else {
      var qc1;
      qc1, qc0 := ThreeChainBehindCommit(cfg, w, e, commit);
    }
  }

  lemma {:induction false} CommitsOnOneBranch(cfg: Config, w: World, e: nat, one: QuorumCert, two: QuorumCert)
    returns (path: seq<QuorumCert>)
    requires ValidConfig(cfg) && WorldInv(cfg, w) && TcsChecked(cfg, w, e)
    requires Commits(cfg, w, e, one) && Commits(cfg, w, e, two)
    requires one.CommitInfo().round <= two.CommitInfo().round
    ensures Branch(cfg, w, e, one.CommitInfo(), two.CommitInfo(), path)
  {
    var qc0 := CommitCertified(cfg, w, e, two);
    if cfg.twoChain(e) {
      path := CertifiedDescendsTwoChain(cfg, w, e, one, qc0);
    } else {
      path := CertifiedDescends(cfg, w, e, one, qc0);
    }
  }

  /** In every reachable state, of two committed blocks of an epoch one descends from the other, and
      the transactions committed by one are a prefix of those committed by the other. */
  lemma {:induction false} CommittedBlocksOnOneChain(cfg: Config, run: seq<World>, e: nat, one: QuorumCert,
                                                     two: QuorumCert)
    requires ValidConfig(cfg) && IsRun(cfg, run) && TcsChecked(cfg, run[|run| - 1], e)
    requires Commits(cfg, run[|run| - 1], e, one) && Commits(cfg, run[|run| - 1], e, two)
    requires one.CommitInfo().round <= two.CommitInfo().round
    ensures Descends(cfg, e, two.CommitInfo(), one.CommitInfo())
  {
    var w := run[|run| - 1];
    RunKeepsWorldInv(cfg, run, |run| - 1);
    var path := CommitsOnOneBranch(cfg, w, e, one, two);
    BranchDescends(cfg, w, e, one.CommitInfo(), two.CommitInfo(), path);
  }

  /** In every reachable state, certificates of one round, wherever they were aggregated, agree. */
  lemma {:induction false} OneCertificatePerRound(cfg: Config, run: seq<World>, e: nat, one: QuorumCert,
                                                  two: QuorumCert)
    requires ValidConfig(cfg) && IsRun(cfg, run)
    requires Certificate(cfg, run[|run| - 1], e, one) && Certificate(cfg, run[|run| - 1], e, two)
    requires one.CertifiedBlock().round == two.CertifiedBlock().round
    ensures one.signedLedgerInfo.ledgerInfo == two.signedLedgerInfo.ledgerInfo && one.voteData == two.voteData
  {
    RunKeepsWorldInv(cfg, run, |run| - 1);
    CertificatesAgree(cfg, run[|run| - 1], e, one, two);
  }

  // ----- Ledger infos as clients see them -----

  /** A ledger info past the genesis round that the validator set of epoch `e` vouches for. */
  ghost predicate Final(cfg: Config, w: World, e: nat, lis: LedgerInfoWithSignatures) {
    && ByEpochState(cfg.epochStates(e)).Verify(lis)
    && LiDerivable(w, lis)
    && lis.ledgerInfo.commitInfo.round > 0
  }

  /** An honest vote commits blocks of its own epoch only. */
  lemma {:induction false} CommitEpoch(cfg: Config, a: Address, entry: Entry)
    requires EntryOk(cfg, a, entry) && entry.Voted? && entry.vote.ledgerInfo.commitInfo.round > 0
    ensures entry.vote.ledgerInfo.commitInfo.epoch == entry.block.epoch
  {
    var qc := entry.block.quorumCert;
    assert qc.CertifiedBlock().round > 0 ==> qc.voteData.Verify();
  }

  /** Behind the bare ledger info there is a commit certificate. */
  lemma {:induction false} CertificateBehind(cfg: Config, w: World, e: nat, lis: LedgerInfoWithSignatures)
    returns (qc: QuorumCert)
    requires ValidConfig(cfg) && WorldInv(cfg, w) && Final(cfg, w, e, lis)
    ensures Commits(cfg, w, e, qc) && qc.signedLedgerInfo == lis
  {
    assert ValidEpoch(cfg, e);
    var v := VerifierOf(cfg, e);
    var a := HonestInCommon(v, cfg.honest, lis.signatures.Keys, lis.signatures.Keys);
    assert ValidSignature(v, a, lis.ledgerInfo, lis.signatures[a]);
    assert HasVoted(w.nodes[a], lis.ledgerInfo);
    var n := w.nodes[a];
    var k :| 0 <= k < |n.log| && n.log[k].Voted? && n.log[k].vote.ledgerInfo == lis.ledgerInfo;
    assert NodeInv(cfg, a, n);
    CommitEpoch(cfg, a, n.log[k]);
    qc := QuorumCert(n.log[k].vote.voteData, lis);
  }

  /** In every reachable state, any two ledger infos that clients can be shown for one epoch describe
      one ledger: the transactions of one are a prefix of those of the other. */
  lemma {:induction false} LedgerInfosOnOneChain(cfg: Config, run: seq<World>, e: nat, one: LedgerInfoWithSignatures,
                                                 two: LedgerInfoWithSignatures)
    requires ValidConfig(cfg) && IsRun(cfg, run) && TcsChecked(cfg, run[|run| - 1], e)
    requires Final(cfg, run[|run| - 1], e, one) && Final(cfg, run[|run| - 1], e, two)
    requires one.ledgerInfo.commitInfo.round <= two.ledgerInfo.commitInfo.round
    ensures Descends(cfg, e, two.ledgerInfo.commitInfo, one.ledgerInfo.commitInfo)
  {
    RunKeepsWorldInv(cfg, run, |run| - 1);
    var qc1 := CertificateBehind(cfg, run[|run| - 1], e, one);
    var qc2 := CertificateBehind(cfg, run[|run| - 1], e, two);
    CommittedBlocksOnOneChain(cfg, run, e, qc1, qc2);
  }
}
