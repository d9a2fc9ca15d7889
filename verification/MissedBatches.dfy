/** Two batches of a node are recorded on L1 before the stream hears of the first one. Only the latest
    batch is checked, against all cached blocks up to its last one. */
module MissedBatches {
  import opened Addresses
  import opened BatchEncoding
  import opened Blocks
  import opened HeadStream
  import opened HeadStreamProofs
  import opened Repair
  import opened TopBytes
  import opened Verification
  import opened Wrappers

  /** The verdict on the cached blocks is the check of the latest record. */
  ghost predicate Checks(env: ConfirmEnv, crypto: Crypto, record: Batch, facts: L1Facts, useBlobs: bool) {
    forall blocks :: env.verify(blocks) == VerifyLastBatch(crypto, record, facts, useBlobs, blocks)
  }

  /** The check of an honest batch against a cache that holds it behind `earlier` blocks of the same chain
      passes if there are none of them, and only then, short of a hash collision. */
  lemma CheckPassesIff(crypto: Crypto, facts: L1Facts, useBlobs: bool, unconfirmed: seq<Block>,
                       earlier: seq<Block>, blocks: seq<Block>, anchorId: nat, batchId: nat, id: nat)
    requires |blocks| > 0 && HasAnchors(Taken(blocks)) && HasAnchors(earlier)
    requires var own := blocks[0].header.beneficiary;
             Propose(crypto, blocks, anchorId, own, useBlobs).Some? &&
             |Propose(crypto, blocks, anchorId, own, useBlobs).value.blobs| <= 255
    requires useBlobs ==> crypto.compress(FlatTxs(Taken(blocks))) != Some([])
    requires Retained(unconfirmed, NumberAtMost(id)) == earlier + Taken(blocks)
    requires crypto.compress(FlatTxs(earlier + Taken(blocks))).Some?
    ensures var p := Propose(crypto, blocks, anchorId, blocks[0].header.beneficiary, useBlobs).value;
            var record := Recorded(crypto, p, batchId, id, facts);
            var verdict := VerifyLastBatch(crypto, record, facts, useBlobs, unconfirmed);
            (|earlier| == 0 ==> verdict == Some(true)) &&
            (verdict == Some(true) ==>
               |earlier| == 0 ||
               RecordCollides(crypto, p, batchId, id, facts, useBlobs, earlier + Taken(blocks)))
  {
    hide FlatTxs, Retained, RecordCollides, Taken, VerifyLastBatch, Recorded;
    var own := blocks[0].header.beneficiary;
    if |earlier| == 0 {
      assert earlier + Taken(blocks) == Taken(blocks);
      HonestBatchVerifies(crypto, blocks, anchorId, useBlobs, batchId, id, facts, unconfirmed);
    } else {
      var p := Propose(crypto, blocks, anchorId, own, useBlobs).value;
      OtherCountIsRejected(crypto, p, batchId, id, facts, useBlobs, unconfirmed);
    }
  }

  /** The later batch was posted from the cached blocks and the earlier ones were all confirmed before
      it, so the chain agrees with the cache. Short of a hash collision the check fails all the same,
      and the cache is cleared, with the blocks after the batch; the confirmed block is emitted if it can
      be read. */
  lemma MissedBatchClearsCache(s: State, env: ConfirmEnv, crypto: Crypto, facts: L1Facts, useBlobs: bool,
                               earlier: seq<Block>, blocks: seq<Block>, anchorId: nat, own: Address,
                               batchId: nat, id: nat)
    requires |blocks| > 0 && HasAnchors(Taken(blocks)) && |earlier| > 0 && HasAnchors(earlier)
    requires Propose(crypto, blocks, anchorId, own, useBlobs).Some?
    requires var p := Propose(crypto, blocks, anchorId, own, useBlobs).value;
             Checks(env, crypto, Recorded(crypto, p, batchId, id, facts), facts, useBlobs)
    requires !s.first && id > s.confirmed.GetOr(0)
    requires Retained(Retained(s.cache, env.beforeVerify), NumberAtMost(id)) == earlier + Taken(blocks)
    requires crypto.compress(FlatTxs(earlier + Taken(blocks))).Some?
    ensures var o, p := AfterConfirmed(s, id, env), Propose(crypto, blocks, anchorId, own, useBlobs).value;
            (o.state == State([], Some(id), false, s.ended) &&
             o.yielded == if env.confirmedBlock.Some? then [env.confirmedBlock.value.header] else []) ||
            RecordCollides(crypto, p, batchId, id, facts, useBlobs, earlier + Taken(blocks))
  {
    hide FlatTxs, Retained, RecordCollides, Taken, VerifyLastBatch, Recorded;
    var p := Propose(crypto, blocks, anchorId, own, useBlobs).value;
    OtherCountIsRejected(crypto, p, batchId, id, facts, useBlobs, Retained(s.cache, env.beforeVerify));
    assert Retained([], env.afterUpdate) == [];
  }

  /** Hashes that keep apart what has different numbers of blocks. */
  function CountingCrypto(): Crypto {
    Crypto((txs: seq<Tx>) => Some([]), (bytes: seq<byte>) => 0, (blob: seq<byte>) => 0,
           (list: Digest, blobs: seq<Digest>) => 0, (info: BatchInfo) => |info.blocks|,
           (meta: BatchMetadata) => meta.infoHash)
  }

  lemma CountingKeepsApart(p: Proposal, batchId: nat, id: nat, facts: L1Facts, useBlobs: bool, blocks: seq<Block>)
    requires 0 < |blocks| != |p.blocks| && HasAnchors(blocks)
    ensures !RecordCollides(CountingCrypto(), p, batchId, id, facts, useBlobs, blocks)
  {
    hide FlatTxs, BlobHashes;
  }

  lemma SingleTaken(b: Block)
    ensures Taken([b]) == [b]
  {
    TakenIsLongest([b]);
  }

  lemma SampleUpTo6()
    ensures Retained([Sample(5, 0), Sample(6, 0), Sample(7, 0)], NumberAtMost(6)) == [Sample(5, 0), Sample(6, 0)]
  {
    var s := [Sample(5, 0), Sample(6, 0), Sample(7, 0)];
    RetainedAll(s[..2], NumberAtMost(6));
    assert s[..2] == [Sample(5, 0), Sample(6, 0)];
  }

  /** Blocks 5 and 6 are cached, each was posted as a batch of its own, and block 7 is not posted yet.
      Hearing of the second batch only, with no other task near, the check fails and the cache is cleared. */
  lemma SecondBatchClearsCache() returns (s: State, env: ConfirmEnv, p: Proposal, facts: L1Facts)
    ensures s == State([Sample(5, 0), Sample(6, 0), Sample(7, 0)], Some(4), false, false) && Inv(s)
    ensures Propose(CountingCrypto(), [Sample(6, 0)], 0, 0, false) == Some(p)
    ensures Checks(env, CountingCrypto(), Recorded(CountingCrypto(), p, 1, 6, facts), facts, false)
    ensures QuietConfirm(env) && env.verify(s.cache) == Some(false)
    ensures AfterConfirmed(s, 6, env).state.cache == []
  {
    hide Retained, Taken, AfterConfirmed, RecordCollides, VerifyLastBatch, Recorded;
    var crypto, a, b := CountingCrypto(), Sample(5, 0), Sample(6, 0);
    s := State([a, b, Sample(7, 0)], Some(4), false, false);
    var noFacts := L1Facts(0, 0, 0, BaseFeeConfig(0, []));
    facts := noFacts;
    SingleTaken(b);
    p := Propose(crypto, [b], 0, 0, false).value;
    var record, keep := Recorded(crypto, p, 1, 6, facts), (b: Block) => true;
    env := ConfirmEnv(blocks => VerifyLastBatch(crypto, record, noFacts, false, blocks), None, keep, keep, keep);
    RetainedAll(s.cache, keep);
    SampleUpTo6();
    assert [a, b] == [a] + Taken([b]);
    CountingKeepsApart(p, 1, 6, facts, false, [a, b]);
    OtherCountIsRejected(crypto, p, 1, 6, facts, false, s.cache);
    MissedBatchClearsCache(s, env, crypto, facts, false, [a], [b], 0, 0, 1, 6);
  }
}
