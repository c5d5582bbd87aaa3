/** Answering a request for a chain of blocks (consensus/src/round_manager.rs) and checking the answer
    (consensus/consensus-types/src/block_retrieval.rs). */
module BlockRetrieval {
  import opened Wrappers
  import opened Validators
  import opened Types
  import opened SigningRules

  datatype Request = Request(blockId: BlockId, numBlocks: nat, targetBlockId: Option<BlockId>) {
    predicate MatchTargetId(id: BlockId) {
      targetBlockId == Some(id)
    }
  }

  datatype Status = Succeeded | IdNotFound | NotEnoughBlocks | SucceededWithTarget

  datatype Response = Response(status: Status, blocks: seq<Block>) {

    /** The chain check of the client, from block `i` on. */
    predicate ChainFrom(expectedId: BlockId, i: nat, v: ValidatorVerifier, now: nat)
      requires i <= |blocks|
      decreases |blocks| - i
    {
      i == |blocks| || (
        && blocks[i].ValidateSignature(v)
        && blocks[i].WellFormed(now)
        && blocks[i].Id() == expectedId
        && ChainFrom(blocks[i].ParentId(), i + 1, v, now))
    }

    predicate Verify(request: Request, v: ValidatorVerifier, now: nat) {
      && (status == Succeeded ==> |blocks| == request.numBlocks)
      && (status == SucceededWithTarget ==> blocks != [] && request.MatchTargetId(blocks[|blocks| - 1].Id()))
      && ChainFrom(request.blockId, 0, v, now)
    }
  }

  /** The block store answers an id with the block of that id. */
  ghost predicate ValidStore(store: map<BlockId, Block>) {
    forall id :: id in store ==> store[id].Id() == id
  }

  /** The id that follows the first `i` blocks of a chain from `id`. */
  ghost function NextId(id: BlockId, blocks: seq<Block>, i: nat): BlockId
    requires i <= |blocks|
  {
    if i == 0 then id else blocks[i - 1].ParentId()
  }

  ghost predicate IsLink(id: BlockId, blocks: seq<Block>, i: nat)
    requires i < |blocks|
  {
    blocks[i].Id() == NextId(id, blocks, i)
  }

  /** The blocks are a chain of parent links from `id`. */
  ghost predicate IsChain(id: BlockId, blocks: seq<Block>) {
    forall i: nat :: i < |blocks| ==> IsLink(id, blocks, i)
  }

  /** A chain grows by the block its last parent link names. */
  lemma {:induction false} ChainGrows(id: BlockId, blocks: seq<Block>, b: Block)
    requires IsChain(id, blocks) && b.Id() == NextId(id, blocks, |blocks|)
    ensures IsChain(id, blocks + [b])
  {
    forall i: nat | i < |blocks + [b]|
      ensures IsLink(id, blocks + [b], i)
    {
      assert i < |blocks| ==> IsLink(id, blocks, i);
    }
  }

  ghost predicate EndsAtTarget(request: Request, blocks: seq<Block>) {
    blocks != [] && request.targetBlockId == Some(HashOf(blocks[|blocks| - 1].data))
  }

  /** The answer is the stored chain from the requested id, cut at the first of: the target, the
      requested length, a missing block. The status says which, with one exception: a request for no
      blocks is answered as if the id were missing. */
  ghost predicate Answers(store: map<BlockId, Block>, request: Request, response: Response) {
    var blocks := response.blocks;
    && IsChain(request.blockId, blocks)
    && |blocks| <= request.numBlocks
    && (forall i :: 0 <= i < |blocks| ==> blocks[i].Id() in store && store[blocks[i].Id()] == blocks[i])
    && (forall i :: 0 <= i < |blocks| - 1 ==> request.targetBlockId != Some(HashOf(blocks[i].data)))
    && (blocks == [] <==> request.numBlocks == 0 || request.blockId !in store)
    && (response.status == IdNotFound <==> blocks == [])
    && (response.status == SucceededWithTarget <==> EndsAtTarget(request, blocks))
    && (response.status == Succeeded <==> 0 < |blocks| == request.numBlocks && !EndsAtTarget(request, blocks))
    && (response.status == NotEnoughBlocks <==>
          0 < |blocks| < request.numBlocks && !EndsAtTarget(request, blocks)
          && NextId(request.blockId, blocks, |blocks|) !in store)
  }

  method ProcessBlockRetrieval(store: map<BlockId, Block>, request: Request) returns (response: Response)
    requires ValidStore(store)
    ensures Answers(store, request, response)
  {
    var blocks: seq<Block> := [];
    var status := Succeeded;
    var id := request.blockId;
    while |blocks| < request.numBlocks
      invariant |blocks| <= request.numBlocks
      invariant status == Succeeded && id == NextId(request.blockId, blocks, |blocks|)
      invariant IsChain(request.blockId, blocks) && (blocks != [] ==> request.blockId in store)
      invariant forall i :: 0 <= i < |blocks| ==> blocks[i].Id() in store && store[blocks[i].Id()] == blocks[i]
      invariant forall i :: 0 <= i < |blocks| ==> !request.MatchTargetId(blocks[i].Id())
      decreases request.numBlocks - |blocks|
    {
      if id in store {
        ChainGrows(request.blockId, blocks, store[id]);
        blocks := blocks + [store[id]];
        if request.MatchTargetId(id) {
          status := SucceededWithTarget;
          break;
        }
        id := store[id].ParentId();
      } else {
        status := NotEnoughBlocks;
        break;
      }
    }
    if blocks == [] {
      status := IdNotFound;
    }
    return Response(status, blocks);
  }

  lemma {:induction false} ChainFromIs(r: Response, expectedId: BlockId, i: nat, v: ValidatorVerifier, now: nat)
    requires i <= |r.blocks|
    ensures r.ChainFrom(expectedId, i, v, now) <==>
            && (i < |r.blocks| ==> r.blocks[i].Id() == expectedId)
            && (forall j :: i < j < |r.blocks| ==> r.blocks[j].Id() == r.blocks[j - 1].ParentId())
            && (forall j :: i <= j < |r.blocks| ==> r.blocks[j].ValidateSignature(v) && r.blocks[j].WellFormed(now))
    decreases |r.blocks| - i
  {
    if i < |r.blocks| {
      ChainFromIs(r, r.blocks[i].ParentId(), i + 1, v, now);
    }
  }

  lemma {:induction false} IsChainIff(id: BlockId, blocks: seq<Block>)
    ensures IsChain(id, blocks) <==>
            && (blocks != [] ==> blocks[0].Id() == id)
            && (forall j :: 0 < j < |blocks| ==> blocks[j].Id() == blocks[j - 1].ParentId())
  {
    if IsChain(id, blocks) {
      forall j: nat | j < |blocks|
        ensures blocks[j].Id() == NextId(id, blocks, j)
      {
        assert IsLink(id, blocks, j);
      }
    }
  }

  /** Whoever answers: what passes the client's check is as long as asked or ends at the target, if it says
      so, and is a chain of blocks from the id asked for, proposed by validators on good certificates. */
  lemma {:induction false} AcceptedIff(r: Response, request: Request, v: ValidatorVerifier, now: nat)
    ensures r.Verify(request, v, now) <==>
            && (r.status == Succeeded ==> |r.blocks| == request.numBlocks)
            && (r.status == SucceededWithTarget ==> EndsAtTarget(request, r.blocks))
            && IsChain(request.blockId, r.blocks)
            && (forall i :: 0 <= i < |r.blocks| ==>
                              && ProposedBy(v, r.blocks[i]) && QcGood(v, r.blocks[i].data.quorumCert)
                              && Follows(r.blocks[i].data, now))
  {
    ChainFromIs(r, request.blockId, 0, v, now);
    IsChainIff(request.blockId, r.blocks);
    forall i | 0 <= i < |r.blocks|
      ensures r.blocks[i].ValidateSignature(v) && r.blocks[i].WellFormed(now) <==>
              && ProposedBy(v, r.blocks[i]) && QcGood(v, r.blocks[i].data.quorumCert)
              && Follows(r.blocks[i].data, now)
    {
      BlockGoodIff(v, r.blocks[i], now);
    }
  }

  /** An answer passes the client's check exactly if every block in it is valid on its own. */
  lemma {:induction false} AnswerPasses(store: map<BlockId, Block>, request: Request, response: Response,
                                        v: ValidatorVerifier, now: nat)
    requires Answers(store, request, response)
    ensures response.Verify(request, v, now) <==>
            forall b :: b in response.blocks ==> b.ValidateSignature(v) && b.WellFormed(now)
  {
    ChainFromIs(response, request.blockId, 0, v, now);
    var blocks := response.blocks;
    forall j: nat | j < |blocks|
      ensures j == 0 ==> blocks[j].Id() == request.blockId
      ensures j > 0 ==> blocks[j].Id() == blocks[j - 1].ParentId()
    {
      assert IsLink(request.blockId, blocks, j);
    }
    if forall b :: b in blocks ==> b.ValidateSignature(v) && b.WellFormed(now) {
      assert forall j :: 0 <= j < |blocks| ==> blocks[j] in blocks;
      assert response.ChainFrom(request.blockId, 0, v, now);
    }
  }

  /** Whoever answers: two responses that pass the check agree on every block both contain. */
  lemma {:induction false} VerifiedResponsesAgree(request: Request, r: Response, r': Response, v: ValidatorVerifier,
                                                  v': ValidatorVerifier, now: nat, now': nat, i: nat)
    requires r.Verify(request, v, now) && r'.Verify(request, v', now')
    requires i < |r.blocks| && i < |r'.blocks|
    ensures r.blocks[i].data == r'.blocks[i].data
    decreases i
  {
    ChainFromIs(r, request.blockId, 0, v, now);
    ChainFromIs(r', request.blockId, 0, v', now');
    if i > 0 {
      VerifiedResponsesAgree(request, r, r', v, v', now, now', i - 1);
    }
    assert r.blocks[i].Id() == r'.blocks[i].Id();
  }

  /** The chain of an answer is unique: the store and the request leave no choice. */
  lemma {:induction false} AnswerPrefix(store: map<BlockId, Block>, request: Request, r: Response, r': Response, i: nat)
    requires Answers(store, request, r) && Answers(store, request, r')
    requires i <= |r.blocks| && i <= |r'.blocks|
    ensures r.blocks[..i] == r'.blocks[..i]
  {
    if i > 0 {
      AnswerPrefix(store, request, r, r', i - 1);
      var k := i - 1;
      assert IsLink(request.blockId, r.blocks, k) && IsLink(request.blockId, r'.blocks, k);
      if k > 0 {
        assert r.blocks[..k][k - 1] == r'.blocks[..k][k - 1];
      }
      assert r.blocks[..i] == r.blocks[..k] + [r.blocks[k]];
      assert r'.blocks[..i] == r'.blocks[..k] + [r'.blocks[k]];
    }
  }

  lemma {:induction false} SameBlock(store: map<BlockId, Block>, request: Request, r: Response, r': Response, i: nat)
    requires Answers(store, request, r) && Answers(store, request, r')
    requires i < |r.blocks| && i < |r'.blocks|
    ensures r.blocks[i] == r'.blocks[i]
  {
    AnswerPrefix(store, request, r, r', i + 1);
    assert r.blocks[..i + 1][i] == r'.blocks[..i + 1][i];
  }

  lemma {:induction false} NotShorter(store: map<BlockId, Block>, request: Request, r: Response, r': Response)
    requires Answers(store, request, r) && Answers(store, request, r')
    ensures |r'.blocks| <= |r.blocks|
  {
    var n := |r.blocks|;
    if 0 < n < |r'.blocks| {
      assert IsLink(request.blockId, r'.blocks, n);
      SameBlock(store, request, r, r', n - 1);
    }
  }

  lemma {:induction false} AnswerUnique(store: map<BlockId, Block>, request: Request, r: Response, r': Response)
    requires Answers(store, request, r) && Answers(store, request, r')
    ensures r == r'
  {
    NotShorter(store, request, r, r');
    NotShorter(store, request, r', r);
    AnswerPrefix(store, request, r, r', |r.blocks|);
    assert r.blocks[..|r.blocks|] == r.blocks && r'.blocks[..|r.blocks|] == r'.blocks;
  }
}
