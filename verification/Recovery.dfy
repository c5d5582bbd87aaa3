/** Restarting consensus from what was persisted: finding the root and pruning every block that is
    not below it (consensus/src/persistent_liveness_storage.rs). */
module Recovery {
  import opened Wrappers
  import opened Validators
  import opened Types

  // ----- The virtual genesis block of the epoch that a ledger info begins -----

  function GenesisBlock(li: LedgerInfo): Block {
    var info := li.commitInfo;
    var ancestor := BlockInfo(info.epoch, 0, Zero, info.executedStateId, info.version, info.timestamp, None);
    var qc := QuorumCert(VoteData(ancestor, ancestor), LedgerInfoWithSignatures(LedgerInfo(ancestor, Zero), map[]));
    Block(BlockData(info.epoch + 1, 0, info.timestamp, qc, Genesis), None)
  }

  function GenesisCert(li: LedgerInfo, id: BlockId): QuorumCert {
    var info := li.commitInfo;
    var ancestor := BlockInfo(info.epoch + 1, 0, id, info.executedStateId, info.version, info.timestamp, None);
    var voteData := VoteData(ancestor, ancestor);
    QuorumCert(voteData, LedgerInfoWithSignatures(LedgerInfo(ancestor, HashOf(voteData)), map[]))
  }

  /** The genesis block of an epoch starts where the previous one ended, in state and in time, and its
      certificate passes under every validator set. */
  lemma {:induction false} GenesisContinues(li: LedgerInfo, v: ValidatorVerifier)
    ensures var block, end := GenesisBlock(li), li.commitInfo; var qc := GenesisCert(li, block.Id());
            && block.data.epoch == end.epoch + 1 && block.data.round == 0 && block.data.blockType.Genesis?
            && block.data.timestamp == end.timestamp
            && qc.CertifiedBlock() == BlockInfo(end.epoch + 1, 0, HashOf(block.data), end.executedStateId, end.version,
                                                end.timestamp, None)
            && qc.ParentBlock() == qc.CertifiedBlock() == qc.CommitInfo() && qc.Verify(v)
  {
  }

  // ----- Sorting by (epoch, round) -----

  predicate KeyLess(a: Block, b: Block) {
    a.data.epoch < b.data.epoch || (a.data.epoch == b.data.epoch && a.data.round < b.data.round)
  }

  ghost predicate Sorted(blocks: seq<Block>) {
    forall i, j :: 0 <= i < j < |blocks| ==> !KeyLess(blocks[j], blocks[i])
  }

  /** Where `b` goes: behind everything that is not greater, so that equal keys keep their order. */
  function InsertionPoint(blocks: seq<Block>, b: Block, n: nat): (p: nat)
    requires n <= |blocks|
    ensures p <= n
  {
    if n == 0 || !KeyLess(b, blocks[n - 1]) then n else InsertionPoint(blocks, b, n - 1)
  }

  function InsertSorted(blocks: seq<Block>, b: Block): seq<Block> {
    var p := InsertionPoint(blocks, b, |blocks|);
    blocks[..p] + [b] + blocks[p..]
  }

  function SortBlocks(blocks: seq<Block>): seq<Block> {
    if blocks == [] then []
    else InsertSorted(SortBlocks(blocks[..|blocks| - 1]), blocks[|blocks| - 1])
  }

  lemma {:induction false} InsertionPointIs(blocks: seq<Block>, b: Block, n: nat)
    requires Sorted(blocks) && n <= |blocks|
    ensures forall j :: InsertionPoint(blocks, b, n) <= j < n ==> KeyLess(b, blocks[j])
    ensures forall j :: 0 <= j < InsertionPoint(blocks, b, n) ==> !KeyLess(b, blocks[j])
  {
    if n > 0 && KeyLess(b, blocks[n - 1]) {
      InsertionPointIs(blocks, b, n - 1);
    } else {
      forall j | 0 <= j < n
        ensures !KeyLess(b, blocks[j])
      {
        assert j < n - 1 ==> !KeyLess(blocks[n - 1], blocks[j]);
      }
    }
  }

  lemma {:induction false} InsertionSorted(blocks: seq<Block>, b: Block)
    requires Sorted(blocks)
    ensures Sorted(InsertSorted(blocks, b))
  {
    var p, r := InsertionPoint(blocks, b, |blocks|), InsertSorted(blocks, b);
    InsertionPointIs(blocks, b, |blocks|);
    forall i, j | 0 <= i < j < |r|
      ensures !KeyLess(r[j], r[i])
    {
      var i', j' := if i < p then i else i - 1, if j < p then j else j - 1;
      assert i == p || r[i] == blocks[i'];
      assert j == p || r[j] == blocks[j'];
    }
  }

  lemma {:induction false} InsertionKeepsAll(blocks: seq<Block>, b: Block)
    ensures multiset(InsertSorted(blocks, b)) == multiset(blocks) + multiset{b}
  {
    var p := InsertionPoint(blocks, b, |blocks|);
    assert blocks == blocks[..p] + blocks[p..];
  }

  lemma {:induction false} SortBlocksSorts(blocks: seq<Block>)
    ensures Sorted(SortBlocks(blocks))
    ensures multiset(SortBlocks(blocks)) == multiset(blocks)
  {
    if blocks != [] {
      var n := |blocks| - 1;
      assert blocks == blocks[..n] + [blocks[n]];
      SortBlocksSorts(blocks[..n]);
      InsertionSorted(SortBlocks(blocks[..n]), blocks[n]);
      InsertionKeepsAll(SortBlocks(blocks[..n]), blocks[n]);
    }
  }

  // ----- Finding the root -----

  datatype RootInfo = RootInfo(
    block: Block,
    quorumCert: QuorumCert,
    orderedCert: QuorumCert,
    ledgerInfo: LedgerInfoWithSignatures)

  datatype RecoveryError = NoRoot | NoRootCert | NoRootLedgerInfo

  /** What consensus persisted. */
  datatype Stored = Stored(blocks: seq<Block>, quorumCerts: seq<QuorumCert>)

  function Position(blocks: seq<Block>, id: BlockId): (i: nat)
    ensures i <= |blocks|
    ensures forall j :: 0 <= j < i ==> blocks[j].Id() != id
    ensures i < |blocks| ==> blocks[i].Id() == id
  {
    if blocks == [] then 0
    else if blocks[0].Id() == id then 0
    else 1 + Position(blocks[1..], id)
  }

  /** The stored data with the virtual genesis added when the ledger stopped at an epoch's end. */
  function WithGenesis(ledger: LedgerInfoWithSignatures, s: Stored): Stored {
    var li := ledger.ledgerInfo;
    if li.commitInfo.nextEpochState.None? then s
    else
      var genesis := GenesisBlock(li);
      Stored(s.blocks + [genesis], s.quorumCerts + [GenesisCert(li, genesis.Id())])
  }

  function RootId(ledger: LedgerInfoWithSignatures): BlockId {
    var li := ledger.ledgerInfo;
    if li.commitInfo.nextEpochState.None? then li.commitInfo.id else GenesisBlock(li).Id()
  }

  function RootLedgerInfo(ledger: LedgerInfoWithSignatures): LedgerInfoWithSignatures {
    var li := ledger.ledgerInfo;
    if li.commitInfo.nextEpochState.None? then ledger else GenesisCert(li, GenesisBlock(li).Id()).signedLedgerInfo
  }

  predicate Certifies(qc: QuorumCert, id: BlockId) {
    qc.CertifiedBlock().id == id
  }

  predicate Commits(qc: QuorumCert, id: BlockId) {
    qc.CommitInfo().id == id
  }

  function FirstCert(quorumCerts: seq<QuorumCert>, id: BlockId): Option<QuorumCert> {
    if quorumCerts == [] then None
    else if Certifies(quorumCerts[0], id) then Some(quorumCerts[0])
    else FirstCert(quorumCerts[1..], id)
  }

  function FirstCommit(quorumCerts: seq<QuorumCert>, id: BlockId): Option<QuorumCert> {
    if quorumCerts == [] then None
    else if Commits(quorumCerts[0], id) then Some(quorumCerts[0])
    else FirstCommit(quorumCerts[1..], id)
  }

  function RemoveAt(blocks: seq<Block>, i: nat): seq<Block>
    requires i < |blocks|
  {
    blocks[..i] + blocks[i + 1..]
  }

  /** What is left and what is found. */
  function Root(ledger: LedgerInfoWithSignatures, s: Stored): (Stored, Result<RootInfo, RecoveryError>) {
    var all := WithGenesis(ledger, s);
    var rootId := RootId(ledger);
    var sorted := SortBlocks(all.blocks);
    var i := Position(sorted, rootId);
    if i == |sorted| then (all.(blocks := sorted), Err(NoRoot))
    else
      var left := all.(blocks := RemoveAt(sorted, i));
      var cert := FirstCert(all.quorumCerts, rootId);
      var ordered := FirstCommit(all.quorumCerts, rootId);
      if cert.None? then (left, Err(NoRootCert))
      else if ordered.None? then (left, Err(NoRootLedgerInfo))
      else (left, Ok(RootInfo(sorted[i], cert.value, ordered.value, RootLedgerInfo(ledger))))
  }

  // ----- Pruning -----

  datatype Pruning = Pruning(tree: set<BlockId>, kept: seq<Block>, removed: seq<BlockId>)

  /** One pass over the first `n` blocks. */
  function Prune(rootId: BlockId, blocks: seq<Block>, n: nat): Pruning
    requires n <= |blocks|
  {
    if n == 0 then Pruning({rootId}, [], [])
    else
      var p := Prune(rootId, blocks, n - 1);
      var b := blocks[n - 1];
      if b.ParentId() in p.tree then Pruning(p.tree + {b.Id()}, p.kept + [b], p.removed)
      else p.(removed := p.removed + [b.Id()])
  }

  function KeepCerts(quorumCerts: seq<QuorumCert>, tree: set<BlockId>, n: nat): (r: seq<QuorumCert>)
    requires n <= |quorumCerts|
    ensures forall qc :: qc in r <==> qc in quorumCerts[..n] && qc.CertifiedBlock().id in tree
  {
    if n == 0 then []
    else
      assert quorumCerts[..n] == quorumCerts[..n - 1] + [quorumCerts[n - 1]];
      var r := KeepCerts(quorumCerts, tree, n - 1);
      if quorumCerts[n - 1].CertifiedBlock().id in tree then r + [quorumCerts[n - 1]] else r
  }

  /** The vectors that recovery rearranges in place. */
  class RecoveryStore {
    var blocks: seq<Block>
    var quorumCerts: seq<QuorumCert>

    constructor (stored: Stored)
      ensures blocks == stored.blocks && quorumCerts == stored.quorumCerts
    {
      blocks, quorumCerts := stored.blocks, stored.quorumCerts;
    }

    /** Adds the virtual genesis if the ledger ends an epoch, sorts, and takes the root out. */
    method FindRoot(ledger: LedgerInfoWithSignatures) returns (r: Result<RootInfo, RecoveryError>)
      modifies this
      ensures (Stored(blocks, quorumCerts), r) == Root(ledger, old(Stored(blocks, quorumCerts)))
    {
      var li := ledger.ledgerInfo;
      var rootId, latest := li.commitInfo.id, ledger;
      if li.commitInfo.nextEpochState.Some? {
        var genesis := GenesisBlock(li);
        var genesisCert := GenesisCert(li, genesis.Id());
        rootId, latest := genesis.Id(), genesisCert.signedLedgerInfo;
        blocks := blocks + [genesis];
        quorumCerts := quorumCerts + [genesisCert];
      }
      blocks := SortBlocks(blocks);
      var i := Position(blocks, rootId);
      if i == |blocks| {
        return Err(NoRoot);
      }
      var root := blocks[i];
      blocks := RemoveAt(blocks, i);
      var cert := FirstCert(quorumCerts, root.Id());
      if cert.None? {
        return Err(NoRootCert);
      }
      var ordered := FirstCommit(quorumCerts, root.Id());
      if ordered.None? {
        return Err(NoRootLedgerInfo);
      }
      return Ok(RootInfo(root, cert.value, ordered.value, latest));
    }

    /** Keeps the blocks below the root, in order, and the certificates of what is left. */
    method FindBlocksToPrune(rootId: BlockId) returns (toRemove: seq<BlockId>)
      modifies this
      ensures var p := Prune(rootId, old(blocks), |old(blocks)|);
              && blocks == p.kept && toRemove == p.removed
              && quorumCerts == KeepCerts(old(quorumCerts), p.tree, |old(quorumCerts)|)
    {
      var tree := {rootId};
      var kept := [];
      toRemove := [];
      for i := 0 to |blocks|
        invariant blocks == old(blocks) && quorumCerts == old(quorumCerts)
        invariant Prune(rootId, blocks, i) == Pruning(tree, kept, toRemove)
      {
        if blocks[i].ParentId() in tree {
          tree := tree + {blocks[i].Id()};
          kept := kept + [blocks[i]];
        } else {
          toRemove := toRemove + [blocks[i].Id()];
        }
      }
      var certs := [];
      for i := 0 to |quorumCerts|
        invariant quorumCerts == old(quorumCerts)
        invariant certs == KeepCerts(quorumCerts, tree, i)
      {
        if quorumCerts[i].CertifiedBlock().id in tree {
          certs := certs + [quorumCerts[i]];
        }
      }
      blocks, quorumCerts := kept, certs;
    }
  }

  // ----- What finding the root guarantees -----

  lemma {:induction false} SameElements(a: seq<Block>, b: seq<Block>)
    requires multiset(a) == multiset(b)
    ensures forall x :: x in a <==> x in b
  {
    assert forall x :: x in a <==> x in multiset(a);
    assert forall x :: x in b <==> x in multiset(b);
  }

  ghost predicate HasBlock(s: Stored, id: BlockId) {
    exists b :: b in s.blocks && b.Id() == id
  }

  ghost predicate HasCert(s: Stored, id: BlockId) {
    exists qc :: qc in s.quorumCerts && Certifies(qc, id)
  }

  ghost predicate HasCommit(s: Stored, id: BlockId) {
    exists qc :: qc in s.quorumCerts && Commits(qc, id)
  }

  lemma {:induction false} FirstCertIs(quorumCerts: seq<QuorumCert>, id: BlockId)
    ensures var r := FirstCert(quorumCerts, id);
            if r.Some? then r.value in quorumCerts && Certifies(r.value, id)
            else forall qc :: qc in quorumCerts ==> !Certifies(qc, id)
  {
    if quorumCerts != [] {
      assert quorumCerts == [quorumCerts[0]] + quorumCerts[1..];
      FirstCertIs(quorumCerts[1..], id);
    }
  }

  lemma {:induction false} FirstCommitIs(quorumCerts: seq<QuorumCert>, id: BlockId)
    ensures var r := FirstCommit(quorumCerts, id);
            if r.Some? then r.value in quorumCerts && Commits(r.value, id)
            else forall qc :: qc in quorumCerts ==> !Commits(qc, id)
  {
    if quorumCerts != [] {
      assert quorumCerts == [quorumCerts[0]] + quorumCerts[1..];
      FirstCommitIs(quorumCerts[1..], id);
    }
  }

  lemma {:induction false} RemoveAtIs(blocks: seq<Block>, i: nat)
    requires i < |blocks|
    ensures multiset(RemoveAt(blocks, i)) + multiset{blocks[i]} == multiset(blocks)
    ensures Sorted(blocks) ==> Sorted(RemoveAt(blocks, i))
  {
    assert blocks == blocks[..i] + [blocks[i]] + blocks[i + 1..];
  }

  /** Nothing but the root is taken out. */
  lemma {:induction false} RootTaken(ledger: LedgerInfoWithSignatures, s: Stored)
    requires Root(ledger, s).1.Ok?
    ensures multiset(Root(ledger, s).0.blocks) + multiset{Root(ledger, s).1.value.block}
         == multiset(WithGenesis(ledger, s).blocks)
  {
    var sorted := SortBlocks(WithGenesis(ledger, s).blocks);
    SortBlocksSorts(WithGenesis(ledger, s).blocks);
    RemoveAtIs(sorted, Position(sorted, RootId(ledger)));
  }

  /** The root is found exactly if it, a certificate for it and a commit of it are stored; then
      nothing but the root is gone and what is left is in topological order. */
  lemma {:induction false} RootExact(ledger: LedgerInfoWithSignatures, s: Stored)
    ensures var all := WithGenesis(ledger, s);
            var id := RootId(ledger);
            var (left, r) := Root(ledger, s);
            && left.quorumCerts == all.quorumCerts && Sorted(left.blocks)
            && (r.Ok? <==> HasBlock(all, id) && HasCert(all, id) && HasCommit(all, id))
            && (r == Err(NoRoot) <==> !HasBlock(all, id))
            && (r == Err(NoRootCert) <==> HasBlock(all, id) && !HasCert(all, id))
            && (r.Ok? ==>
                  && r.value.block.Id() == id
                  && multiset(left.blocks) + multiset{r.value.block} == multiset(all.blocks)
                  && r.value.quorumCert in all.quorumCerts && Certifies(r.value.quorumCert, id)
                  && r.value.orderedCert in all.quorumCerts && Commits(r.value.orderedCert, id))
  {
    var all := WithGenesis(ledger, s);
    var sorted := SortBlocks(all.blocks);
    SortBlocksSorts(all.blocks);
    SameElements(sorted, all.blocks);
    FirstCertIs(all.quorumCerts, RootId(ledger));
    FirstCommitIs(all.quorumCerts, RootId(ledger));
    var i := Position(sorted, RootId(ledger));
    if i < |sorted| {
      assert sorted[i] in all.blocks;
      RemoveAtIs(sorted, i);
    }
  }

  /** A ledger that stopped at the end of an epoch always has a root: the next epoch's genesis. */
  lemma {:induction false} EpochEndHasRoot(ledger: LedgerInfoWithSignatures, s: Stored)
    requires ledger.ledgerInfo.commitInfo.nextEpochState.Some?
    ensures Root(ledger, s).1.Ok?
    ensures Root(ledger, s).1.value.block.data.epoch == ledger.ledgerInfo.commitInfo.epoch + 1
    ensures Root(ledger, s).1.value.block.data.blockType.Genesis?
  {
    var all := WithGenesis(ledger, s);
    var genesis := GenesisBlock(ledger.ledgerInfo);
    var cert := GenesisCert(ledger.ledgerInfo, genesis.Id());
    assert all.blocks[|all.blocks| - 1] == genesis && genesis in all.blocks;
    assert all.quorumCerts[|all.quorumCerts| - 1] == cert && cert in all.quorumCerts;
    assert Certifies(cert, genesis.Id()) && Commits(cert, genesis.Id());
    RootExact(ledger, s);
  }

  /** The first certificate for the block, and the first that commits it. */
  ghost predicate IsFirstCert(quorumCerts: seq<QuorumCert>, id: BlockId, qc: QuorumCert) {
    exists i: nat :: i < |quorumCerts| && quorumCerts[i] == qc && Certifies(qc, id)
                     && forall j :: 0 <= j < i ==> !Certifies(quorumCerts[j], id)
  }

  ghost predicate IsFirstCommit(quorumCerts: seq<QuorumCert>, id: BlockId, qc: QuorumCert) {
    exists i: nat :: i < |quorumCerts| && quorumCerts[i] == qc && Commits(qc, id)
                     && forall j :: 0 <= j < i ==> !Commits(quorumCerts[j], id)
  }

  lemma {:induction false} FirstCertAt(quorumCerts: seq<QuorumCert>, id: BlockId) returns (i: nat)
    requires FirstCert(quorumCerts, id).Some?
    ensures i < |quorumCerts| && FirstCert(quorumCerts, id) == Some(quorumCerts[i]) && Certifies(quorumCerts[i], id)
    ensures forall j :: 0 <= j < i ==> !Certifies(quorumCerts[j], id)
  {
    if Certifies(quorumCerts[0], id) {
      i := 0;
    } else {
      i := FirstCertAt(quorumCerts[1..], id);
      i := i + 1;
    }
  }

  lemma {:induction false} FirstCommitAt(quorumCerts: seq<QuorumCert>, id: BlockId) returns (i: nat)
    requires FirstCommit(quorumCerts, id).Some?
    ensures i < |quorumCerts| && FirstCommit(quorumCerts, id) == Some(quorumCerts[i]) && Commits(quorumCerts[i], id)
    ensures forall j :: 0 <= j < i ==> !Commits(quorumCerts[j], id)
  {
    if Commits(quorumCerts[0], id) {
      i := 0;
    } else {
      i := FirstCommitAt(quorumCerts[1..], id);
      i := i + 1;
    }
  }

  /** Which root it is. In the middle of an epoch, the stored block that the ledger ends with, with the first
      certificates stored for it, and nothing is added; at its end, the genesis block of the next epoch,
      which carries on with the state, version and time of the ledger. */
  lemma {:induction false} RootIs(ledger: LedgerInfoWithSignatures, s: Stored)
    requires Root(ledger, s).1.Ok?
    ensures var (left, r) := Root(ledger, s); var root, end := r.value, ledger.ledgerInfo.commitInfo;
            && IsFirstCert(left.quorumCerts, root.block.Id(), root.quorumCert)
            && IsFirstCommit(left.quorumCerts, root.block.Id(), root.orderedCert)
            && if end.nextEpochState.None? then
                 && root.block in s.blocks && root.block.Id() == end.id && root.ledgerInfo == ledger
                 && left.quorumCerts == s.quorumCerts
               else
                 && root.block.data == GenesisBlock(ledger.ledgerInfo).data
                 && root.ledgerInfo.ledgerInfo.commitInfo
                    == BlockInfo(end.epoch + 1, 0, root.block.Id(), end.executedStateId, end.version, end.timestamp,
                                 None)
                 && left.quorumCerts == s.quorumCerts + [GenesisCert(ledger.ledgerInfo, root.block.Id())]
  {
    var all, id := WithGenesis(ledger, s), RootId(ledger);
    SortBlocksSorts(all.blocks);
    assert Root(ledger, s).1.value.block in multiset(SortBlocks(all.blocks));
    var i := FirstCertAt(all.quorumCerts, id);
    var j := FirstCommitAt(all.quorumCerts, id);
  }

  // ----- What pruning guarantees -----

  /** The id names the root or one of the first `n` kept blocks. */
  ghost predicate Below(rootId: BlockId, kept: seq<Block>, n: nat, id: BlockId)
    requires n <= |kept|
  {
    id == rootId || exists j :: 0 <= j < n && kept[j].Id() == id
  }

  /** Every block hangs off the root or an earlier block. */
  ghost predicate Rooted(rootId: BlockId, kept: seq<Block>) {
    forall i :: 0 <= i < |kept| ==> Below(rootId, kept, i, kept[i].ParentId())
  }

  /** The tree is the root with the kept blocks. */
  ghost predicate TreeIsKept(rootId: BlockId, p: Pruning) {
    forall id :: id in p.tree <==> Below(rootId, p.kept, |p.kept|, id)
  }

  lemma {:induction false} BelowPrefix(rootId: BlockId, a: seq<Block>, b: seq<Block>, n: nat, id: BlockId)
    requires a <= b && n <= |a|
    ensures Below(rootId, a, n, id) <==> Below(rootId, b, n, id)
  {
    assert forall j :: 0 <= j < n ==> a[j] == b[j];
  }

  lemma {:induction false} Extended(rootId: BlockId, q: Pruning, b: Block, p: Pruning)
    requires Rooted(rootId, q.kept) && TreeIsKept(rootId, q)
    requires b.ParentId() in q.tree && p.tree == q.tree + {b.Id()} && p.kept == q.kept + [b]
    ensures Rooted(rootId, p.kept) && TreeIsKept(rootId, p)
  {
    var k := |q.kept|;
    forall i | 0 <= i < |p.kept|
      ensures Below(rootId, p.kept, i, p.kept[i].ParentId())
    {
      assert Below(rootId, q.kept, i, p.kept[i].ParentId());
      BelowPrefix(rootId, q.kept, p.kept, i, p.kept[i].ParentId());
    }
    forall id
      ensures id in p.tree <==> Below(rootId, p.kept, |p.kept|, id)
    {
      assert p.kept[k] == b;
      BelowPrefix(rootId, q.kept, p.kept, k, id);
      assert id in q.tree <==> Below(rootId, q.kept, k, id);
    }
  }

  /** What is kept is a tree below the root, parents first; nothing is assumed about rounds. */
  lemma {:induction false} KeptIsTree(rootId: BlockId, blocks: seq<Block>, n: nat)
    requires n <= |blocks|
    ensures Rooted(rootId, Prune(rootId, blocks, n).kept)
    ensures TreeIsKept(rootId, Prune(rootId, blocks, n))
  {
    if n > 0 {
      KeptIsTree(rootId, blocks, n - 1);
      var q, p := Prune(rootId, blocks, n - 1), Prune(rootId, blocks, n);
      if blocks[n - 1].ParentId() in q.tree {
        Extended(rootId, q, blocks[n - 1], p);
      }
    }
  }

  function Ids(blocks: seq<Block>): seq<BlockId> {
    seq(|blocks|, i requires 0 <= i < |blocks| => blocks[i].Id())
  }

  /** No block is lost or invented: kept and removed together are the input. */
  lemma {:induction false} NothingLost(rootId: BlockId, blocks: seq<Block>, n: nat)
    requires n <= |blocks|
    ensures var p := Prune(rootId, blocks, n);
            && multiset(Ids(p.kept)) + multiset(p.removed) == multiset(Ids(blocks[..n]))
            && (forall b :: b in p.kept ==> b in blocks[..n])
  {
    if n > 0 {
      NothingLost(rootId, blocks, n - 1);
      var q, b := Prune(rootId, blocks, n - 1), blocks[n - 1];
      assert Ids(blocks[..n]) == Ids(blocks[..n - 1]) + [b.Id()];
      assert Ids(q.kept + [b]) == Ids(q.kept) + [b.Id()];
      assert blocks[..n] == blocks[..n - 1] + [b];
    }
  }

  /** A second pass over what was kept prunes nothing and changes no order. */
  lemma {:induction false} PruneIdempotent(rootId: BlockId, blocks: seq<Block>, n: nat)
    requires n <= |blocks|
    ensures var p := Prune(rootId, blocks, n); Prune(rootId, p.kept, |p.kept|) == Pruning(p.tree, p.kept, [])
  {
    if n > 0 {
      PruneIdempotent(rootId, blocks, n - 1);
      var q, b := Prune(rootId, blocks, n - 1), blocks[n - 1];
      if b.ParentId() in q.tree {
        PrunePrefix(rootId, q.kept, q.kept + [b], |q.kept|);
      }
    }
  }

  lemma {:induction false} PrunePrefix(rootId: BlockId, a: seq<Block>, b: seq<Block>, n: nat)
    requires a <= b && n <= |a|
    ensures Prune(rootId, a, n) == Prune(rootId, b, n)
  {
    if n > 0 {
      PrunePrefix(rootId, a, b, n - 1);
    }
  }

  // ----- Exactness when rounds grow along parent links -----

  /** A child lies in a later round, or epoch, than its parent. */
  ghost predicate Growing(blocks: seq<Block>) {
    forall a, b :: a in blocks && b in blocks && a.Id() == b.ParentId() ==> KeyLess(a, b)
  }

  /** A chain of stored blocks from a child of the root to its last element. */
  ghost predicate IsPath(rootId: BlockId, blocks: seq<Block>, path: seq<Block>) {
    && path != []
    && path[0].ParentId() == rootId
    && (forall i :: 0 <= i < |path| ==> path[i] in blocks)
    && (forall i :: 0 < i < |path| ==> path[i].ParentId() == path[i - 1].Id())
  }

  ghost predicate Descends(rootId: BlockId, blocks: seq<Block>, b: Block) {
    exists path :: IsPath(rootId, blocks, path) && path[|path| - 1] == b
  }

  lemma {:induction false} TreeGrows(rootId: BlockId, blocks: seq<Block>, m: nat, n: nat)
    requires m <= n <= |blocks|
    ensures Prune(rootId, blocks, m).tree <= Prune(rootId, blocks, n).tree
    ensures Prune(rootId, blocks, m).kept <= Prune(rootId, blocks, n).kept
  {
    if m < n {
      TreeGrows(rootId, blocks, m, n - 1);
    }
  }

  /** Whether a block is kept is decided when the pass reaches it. */
  lemma {:induction false} KeptWhenReached(rootId: BlockId, blocks: seq<Block>, i: nat)
    requires i < |blocks| && blocks[i].ParentId() in Prune(rootId, blocks, i).tree
    ensures blocks[i] in Prune(rootId, blocks, |blocks|).kept
    ensures blocks[i].Id() in Prune(rootId, blocks, i + 1).tree
  {
    TreeGrows(rootId, blocks, i + 1, |blocks|);
    var kept := Prune(rootId, blocks, i + 1).kept;
    assert kept[|kept| - 1] == blocks[i];
    assert Prune(rootId, blocks, |blocks|).kept[|kept| - 1] == blocks[i];
  }

  lemma {:induction false} ParentPrecedes(blocks: seq<Block>, path: seq<Block>, rootId: BlockId, i: nat)
    returns (j: nat)
    requires Sorted(blocks) && Growing(blocks) && IsPath(rootId, blocks, path) && |path| > 1
    requires i < |blocks| && blocks[i] == path[|path| - 1]
    ensures j < i && blocks[j] == path[|path| - 2] && blocks[j].Id() == blocks[i].ParentId()
    ensures IsPath(rootId, blocks, path[..|path| - 1])
  {
    var parent := path[|path| - 2];
    assert parent in blocks && path[|path| - 1].ParentId() == parent.Id();
    j :| 0 <= j < |blocks| && blocks[j] == parent;
    assert KeyLess(parent, blocks[i]);
  }

  /** The last block of a path is in the tree once the pass has gone by it. */
  lemma {:induction false} PathKept(rootId: BlockId, blocks: seq<Block>, path: seq<Block>, i: nat)
    requires Sorted(blocks) && Growing(blocks) && IsPath(rootId, blocks, path)
    requires i < |blocks| && blocks[i] == path[|path| - 1]
    ensures blocks[i].ParentId() in Prune(rootId, blocks, i).tree
    decreases |path|
  {
    if |path| == 1 {
      TreeGrows(rootId, blocks, 0, i);
    } else {
      var j := ParentPrecedes(blocks, path, rootId, i);
      PathKept(rootId, blocks, path[..|path| - 1], j);
      KeptWhenReached(rootId, blocks, j);
      TreeGrows(rootId, blocks, j + 1, i);
    }
  }

  /** Every kept block has a path to the root, through kept blocks. */
  lemma {:induction false} KeptDescends(rootId: BlockId, kept: seq<Block>, i: nat)
    requires Rooted(rootId, kept) && i < |kept|
    ensures Descends(rootId, kept, kept[i])
    decreases i
  {
    if kept[i].ParentId() == rootId {
      assert IsPath(rootId, kept, [kept[i]]);
    } else {
      assert Below(rootId, kept, i, kept[i].ParentId());
      var j :| 0 <= j < i && kept[j].Id() == kept[i].ParentId();
      KeptDescends(rootId, kept, j);
      var path :| IsPath(rootId, kept, path) && path[|path| - 1] == kept[j];
      assert IsPath(rootId, kept, path + [kept[i]]);
      assert (path + [kept[i]])[|path|] == kept[i];
    }
  }

  lemma {:induction false} MorePaths(rootId: BlockId, some: seq<Block>, blocks: seq<Block>, b: Block)
    requires Descends(rootId, some, b) && forall x :: x in some ==> x in blocks
    ensures Descends(rootId, blocks, b)
  {
    var path :| IsPath(rootId, some, path) && path[|path| - 1] == b;
    assert IsPath(rootId, blocks, path);
  }

  /** The pass keeps exactly the stored blocks below the root. */
  lemma {:induction false} KeepsExactlySubtree(rootId: BlockId, blocks: seq<Block>, b: Block)
    requires Sorted(blocks) && Growing(blocks)
    ensures b in Prune(rootId, blocks, |blocks|).kept <==> Descends(rootId, blocks, b)
  {
    var kept := Prune(rootId, blocks, |blocks|).kept;
    if b in kept {
      var i :| 0 <= i < |kept| && kept[i] == b;
      KeptIsTree(rootId, blocks, |blocks|);
      KeptDescends(rootId, kept, i);
      NothingLost(rootId, blocks, |blocks|);
      assert blocks[..|blocks|] == blocks;
      MorePaths(rootId, kept, blocks, b);
    }
    if Descends(rootId, blocks, b) {
      var path :| IsPath(rootId, blocks, path) && path[|path| - 1] == b;
      var i :| 0 <= i < |blocks| && blocks[i] == b;
      PathKept(rootId, blocks, path, i);
      KeptWhenReached(rootId, blocks, i);
    }
  }

  // ----- Recovery as a whole -----

  /** What was persisted about liveness, to be kept only if it is of the root's epoch. */
  datatype Liveness = Liveness(
    lastVote: Option<Vote>,
    highestTimeoutCert: Option<TimeoutCertificate>,
    highestTwoChainTimeoutCert: Option<TwoChainTimeoutCertificate>)

  function OfEpoch(l: Liveness, epoch: nat): Liveness {
    Liveness(
      if l.lastVote.Some? && l.lastVote.value.voteData.proposed.epoch == epoch then l.lastVote else None,
      if l.highestTimeoutCert.Some? && l.highestTimeoutCert.value.timeout.epoch == epoch
      then l.highestTimeoutCert else None,
      if l.highestTwoChainTimeoutCert.Some? && l.highestTwoChainTimeoutCert.value.timeout.epoch == epoch
      then l.highestTwoChainTimeoutCert else None)
  }

  /** The accumulator at the root, passed through. */
  datatype RootMetadata = RootMetadata(accuHash: Accumulator, frozenRootHashes: seq<Accumulator>, numLeaves: nat)

  datatype RecoveryData = RecoveryData(
    root: RootInfo,
    rootMetadata: RootMetadata,
    blocks: seq<Block>,
    quorumCerts: seq<QuorumCert>,
    blocksToPrune: seq<BlockId>,
    liveness: Liveness)

  function Recovered(ledger: LedgerInfoWithSignatures, s: Stored, m: RootMetadata, l: Liveness)
    : Result<RecoveryData, RecoveryError>
  {
    var (left, r) := Root(ledger, s);
    var root :- r;
    var p := Prune(root.block.Id(), left.blocks, |left.blocks|);
    Ok(RecoveryData(root, m, p.kept, KeepCerts(left.quorumCerts, p.tree, |left.quorumCerts|), p.removed,
                    OfEpoch(l, root.block.data.epoch)))
  }

  method Recover(ledger: LedgerInfoWithSignatures, s: Stored, m: RootMetadata, l: Liveness)
    returns (r: Result<RecoveryData, RecoveryError>)
    ensures r == Recovered(ledger, s, m, l)
  {
    var store := new RecoveryStore(s);
    var root := store.FindRoot(ledger);
    if root.Err? {
      return Err(root.error);
    }
    var toPrune := store.FindBlocksToPrune(root.value.block.Id());
    return Ok(RecoveryData(root.value, m, store.blocks, store.quorumCerts, toPrune,
                           OfEpoch(l, root.value.block.data.epoch)));
  }

  /** What survives a restart of the vote and of the timeout certificates: exactly what is of the epoch
      of the root, nothing else, unchanged. */
  lemma {:induction false} RecoversLiveness(ledger: LedgerInfoWithSignatures, s: Stored, m: RootMetadata, l: Liveness)
    requires Recovered(ledger, s, m, l).Ok?
    ensures var d := Recovered(ledger, s, m, l).value; var epoch := d.root.block.data.epoch;
            && (forall vote :: d.liveness.lastVote == Some(vote) <==>
                                 l.lastVote == Some(vote) && vote.voteData.proposed.epoch == epoch)
            && (forall tc :: d.liveness.highestTimeoutCert == Some(tc) <==>
                               l.highestTimeoutCert == Some(tc) && tc.timeout.epoch == epoch)
            && (forall tc :: d.liveness.highestTwoChainTimeoutCert == Some(tc) <==>
                               l.highestTwoChainTimeoutCert == Some(tc) && tc.timeout.epoch == epoch)
  {
    assert Recovered(ledger, s, m, l).value.liveness == OfEpoch(l, Root(ledger, s).1.value.block.data.epoch);
  }

  lemma {:induction false} AfterRoot(rootId: BlockId, root: Block, blocks: seq<Block>, path: seq<Block>, i: nat)
    requires Growing(blocks) && root in blocks && root.Id() == rootId
    requires IsPath(rootId, blocks, path) && i < |path|
    ensures KeyLess(root, path[i])
  {
    if i > 0 {
      AfterRoot(rootId, root, blocks, path, i - 1);
      assert path[i - 1] in blocks && path[i] in blocks;
    } else {
      assert path[0] in blocks;
    }
  }

  /** Taking the root out of the blocks cuts no path. */
  lemma {:induction false} PathsAvoidRoot(rootId: BlockId, root: Block, blocks: seq<Block>, left: seq<Block>, b: Block)
    requires Growing(blocks) && root.Id() == rootId
    requires multiset(left) + multiset{root} == multiset(blocks)
    ensures Descends(rootId, left, b) <==> Descends(rootId, blocks, b)
  {
    assert forall x :: x in blocks <==> x in multiset(blocks);
    assert forall x :: x in left <==> x in multiset(left);
    if Descends(rootId, left, b) {
      MorePaths(rootId, left, blocks, b);
    }
    if Descends(rootId, blocks, b) {
      var path :| IsPath(rootId, blocks, path) && path[|path| - 1] == b;
      forall i | 0 <= i < |path|
        ensures path[i] in left
      {
        AfterRoot(rootId, root, blocks, path, i);
        assert path[i] in blocks && path[i] != root;
        assert multiset(blocks)[path[i]] == multiset(left)[path[i]];
      }
      assert IsPath(rootId, left, path);
    }
  }

  lemma {:induction false} GrowingLeft(blocks: seq<Block>, left: seq<Block>, root: Block)
    requires Growing(blocks) && multiset(left) + multiset{root} == multiset(blocks)
    ensures Growing(left)
  {
    assert forall x :: x in left ==> x in multiset(left);
    assert forall x :: x in left ==> x in multiset(blocks);
    assert forall x :: x in left ==> x in blocks;
  }

  /** If rounds grow along parent links, a restart keeps exactly the stored blocks below the root. */
  lemma {:induction false} RecoversSubtree(ledger: LedgerInfoWithSignatures, s: Stored, m: RootMetadata, l: Liveness,
                                           b: Block)
    requires Recovered(ledger, s, m, l).Ok? && Growing(WithGenesis(ledger, s).blocks)
    ensures var d := Recovered(ledger, s, m, l).value;
            b in d.blocks <==> Descends(RootId(ledger), WithGenesis(ledger, s).blocks, b)
  {
    RootExact(ledger, s);
    var left, root := Root(ledger, s).0, Root(ledger, s).1.value.block;
    var all := WithGenesis(ledger, s);
    GrowingLeft(all.blocks, left.blocks, root);
    KeepsExactlySubtree(RootId(ledger), left.blocks, b);
    PathsAvoidRoot(RootId(ledger), root, all.blocks, left.blocks, b);
  }

  /** Whatever was stored, a restart yields a tree below the root, parents first, with exactly the
      certificates of the root and of the kept blocks, among them the root's own. */
  lemma {:induction false} RecoversTree(ledger: LedgerInfoWithSignatures, s: Stored, m: RootMetadata, l: Liveness)
    requires Recovered(ledger, s, m, l).Ok?
    ensures var d := Recovered(ledger, s, m, l).value;
            Rooted(RootId(ledger), d.blocks) && d.root.quorumCert in d.quorumCerts
    ensures var d := Recovered(ledger, s, m, l).value;
            forall qc :: qc in d.quorumCerts <==>
                           qc in WithGenesis(ledger, s).quorumCerts
                           && Below(RootId(ledger), d.blocks, |d.blocks|, qc.CertifiedBlock().id)
  {
    RootExact(ledger, s);
    var left := Root(ledger, s).0;
    KeptIsTree(RootId(ledger), left.blocks, |left.blocks|);
    assert left.quorumCerts[..|left.quorumCerts|] == left.quorumCerts;
    var d := Recovered(ledger, s, m, l).value;
    assert Below(RootId(ledger), d.blocks, |d.blocks|, d.root.quorumCert.CertifiedBlock().id);
  }

  lemma {:induction false} CancelOne(m: multiset<Block>, n: multiset<Block>, x: Block)
    requires m + multiset{x} == n + multiset{x}
    ensures m == n
  {
    forall y
      ensures m[y] == n[y]
    {
      assert (m + multiset{x})[y] == m[y] + multiset{x}[y];
      assert (n + multiset{x})[y] == n[y] + multiset{x}[y];
    }
  }

  lemma {:induction false} IdsOfRest(b: seq<Block>, i: nat)
    requires i < |b|
    ensures multiset(Ids(b)) == multiset(Ids(RemoveAt(b, i))) + multiset{b[i].Id()}
  {
    var ids := Ids(b);
    RemoveAtIs(b, i);
    assert Ids(RemoveAt(b, i)) == ids[..i] + ids[i + 1..];
    assert ids == ids[..i] + [ids[i]] + ids[i + 1..];
  }

  lemma {:induction false} BlocksOfRest(a: seq<Block>, b: seq<Block>, i: nat)
    requires a != [] && multiset(a) == multiset(b) && i < |b| && b[i] == a[|a| - 1]
    ensures multiset(a[..|a| - 1]) == multiset(RemoveAt(b, i))
  {
    RemoveAtIs(b, i);
    assert a == a[..|a| - 1] + [a[|a| - 1]];
    CancelOne(multiset(a[..|a| - 1]), multiset(RemoveAt(b, i)), a[|a| - 1]);
  }

  lemma {:induction false} IdsPermute(a: seq<Block>, b: seq<Block>)
    requires multiset(a) == multiset(b)
    ensures multiset(Ids(a)) == multiset(Ids(b))
    decreases |a|
  {
    if a == [] {
      assert |multiset(b)| == 0;
    } else {
      var n := |a| - 1;
      assert a[n] in multiset(b);
      var i :| 0 <= i < |b| && b[i] == a[n];
      BlocksOfRest(a, b, i);
      IdsPermute(a[..n], RemoveAt(b, i));
      assert Ids(a) == Ids(a[..n]) + [a[n].Id()];
      IdsOfRest(b, i);
    }
  }

  lemma {:induction false} IdsTaken(left: seq<Block>, root: Block, all: seq<Block>)
    requires multiset(left) + multiset{root} == multiset(all)
    ensures multiset(Ids(left)) + multiset{root.Id()} == multiset(Ids(all))
  {
    assert Ids(left + [root]) == Ids(left) + [root.Id()];
    IdsPermute(left + [root], all);
  }

  /** Every stored block is the root, kept, or reported for pruning, exactly once. */
  lemma {:induction false} RecoveryLosesNothing(ledger: LedgerInfoWithSignatures, s: Stored, m: RootMetadata,
                                                l: Liveness)
    requires Recovered(ledger, s, m, l).Ok?
    ensures var d := Recovered(ledger, s, m, l).value;
            multiset(Ids(d.blocks)) + multiset(d.blocksToPrune) + multiset{d.root.block.Id()}
            == multiset(Ids(WithGenesis(ledger, s).blocks))
  {
    var left, root := Root(ledger, s).0.blocks, Root(ledger, s).1.value.block;
    RootTaken(ledger, s);
    IdsTaken(left, root, WithGenesis(ledger, s).blocks);
    NothingLost(root.Id(), left, |left|);
    assert left[..|left|] == left;
  }
}
