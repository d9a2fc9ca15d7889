/** What is posted to L1 for a batch, what the inbox records of it, and how the record is checked
    against the cached blocks. Compression and hashes are arbitrary functions. */
module Verification {
  import opened Addresses
  import opened BatchEncoding
  import opened BlobLayout
  import opened Blocks
  import opened TopBytes
  import opened Wrappers

  type Digest = nat

  /** The foreign functions: compression can fail, and nothing is assumed about the hashes. */
  datatype Crypto = Crypto(
    compress: seq<Tx> -> Option<seq<byte>>,
    bytesHash: seq<byte> -> Digest,
    blobHash: seq<byte> -> Digest,
    txsHash: (Digest, seq<Digest>) -> Digest,
    infoHash: BatchInfo -> Digest,
    metaHash: BatchMetadata -> Digest)

  datatype BaseFeeConfig = BaseFeeConfig(sharingPctg: nat, others: seq<nat>)

  datatype BatchInfo = BatchInfo(
    txsHash: Digest,
    blocks: seq<BlockParams>,
    blobHashes: seq<Digest>,
    extraData: nat,
    coinbase: Address,
    proposedIn: nat,
    blobCreatedIn: nat,
    blobByteOffset: nat,
    blobByteSize: nat,
    gasLimit: nat,
    lastBlockId: nat,
    lastBlockTimestamp: nat,
    anchorBlockId: nat,
    anchorBlockHash: Digest,
    baseFeeConfig: BaseFeeConfig)

  datatype BatchMetadata = BatchMetadata(infoHash: Digest, proposer: Address, batchId: nat, proposedAt: nat)

  const GAS_LIMIT := 240_000_000

  /** The gas limit of a block in the inbox's configuration. */
  const BLOCK_MAX_GAS_LIMIT := 240_000_000

  /** What the inbox stores of its latest batch. */
  datatype Batch = Batch(batchId: nat, lastBlockId: nat, lastBlockTimestamp: nat, anchorBlockId: nat, metaHash: Digest)

  /** What L1 knows about the proposal besides its contents. */
  datatype L1Facts = L1Facts(proposedAt: nat, proposedIn: nat, anchorBlockHash: Digest, baseFeeConfig: BaseFeeConfig)

  /** A proposal: the batch parameters with the transaction list, or with blobs and an empty list. */
  datatype Proposal = Proposal(
    proposer: Address,
    coinbase: Address,
    anchorBlockId: nat,
    lastBlockTimestamp: nat,
    blocks: seq<BlockParams>,
    numBlobs: nat,
    byteSize: nat,
    txList: seq<byte>,
    blobs: seq<seq<byte>>)

  /** Posts the taken prefix of `blocks`. */
  function Propose(crypto: Crypto, blocks: seq<Block>, anchorId: nat, preconfer: Address, useBlobs: bool)
    : Option<Proposal>
    requires |blocks| > 0 && HasAnchors(Taken(blocks))
  {
    var taken := Taken(blocks);
    TakenIsLongest(blocks);
    var compressed := crypto.compress(FlatTxs(taken));
    if compressed.None? then None
    else
      var bytes := compressed.value;
      var blobs := if useBlobs then BlobsOf(bytes) else [];
      Some(Proposal(preconfer, preconfer, anchorId, taken[|taken| - 1].header.timestamp, ParamsOf(taken),
                    |blobs| % TWO_8, AsU32(|bytes|), if useBlobs then [] else bytes, blobs))
  }

  /** The compressed transactions as posted: all in the list, or all in the blobs. */
  function ListPart(bytes: seq<byte>, useBlobs: bool): seq<byte> {
    if useBlobs then [] else bytes
  }

  function BlobPart(bytes: seq<byte>, useBlobs: bool): seq<seq<byte>> {
    if useBlobs then BlobsOf(bytes) else []
  }

  function BlobHashes(crypto: Crypto, blobs: seq<seq<byte>>): (r: seq<Digest>)
    ensures |r| == |blobs|
  {
    if |blobs| == 0 then [] else [crypto.blobHash(blobs[0])] + BlobHashes(crypto, blobs[1..])
  }

  /** The blobs the proposal announces, as far as it carries them. */
  function Announced(p: Proposal): seq<seq<byte>> {
    if p.numBlobs <= |p.blobs| then p.blobs[..p.numBlobs] else p.blobs
  }

  /** The inbox's rule: the announced blobs are hashed, and the transaction list is. */
  function RecordedInfo(crypto: Crypto, p: Proposal, lastBlockId: nat, facts: L1Facts): BatchInfo {
    var blobHashes := BlobHashes(crypto, Announced(p));
    BatchInfo(crypto.txsHash(crypto.bytesHash(p.txList), blobHashes), p.blocks, blobHashes,
              facts.baseFeeConfig.sharingPctg, p.coinbase, facts.proposedIn,
              if |p.blobs| > 0 then facts.proposedIn else 0, 0, p.byteSize, BLOCK_MAX_GAS_LIMIT,
              lastBlockId, p.lastBlockTimestamp, p.anchorBlockId, facts.anchorBlockHash, facts.baseFeeConfig)
  }

  /** The record of an accepted proposal. */
  function Recorded(crypto: Crypto, p: Proposal, batchId: nat, lastBlockId: nat, facts: L1Facts): Batch {
    var info := RecordedInfo(crypto, p, lastBlockId, facts);
    Batch(batchId, lastBlockId, p.lastBlockTimestamp, p.anchorBlockId,
          crypto.metaHash(BatchMetadata(crypto.infoHash(info), p.proposer, batchId, facts.proposedAt)))
  }

  /** The info as recomputed from cached blocks and the record. */
  function RecomputedInfo(crypto: Crypto, preconfer: Address, blocks: seq<Block>, batch: Batch, facts: L1Facts,
                          bytes: seq<byte>, useBlobs: bool): BatchInfo
  {
    var blobHashes := BlobHashes(crypto, BlobPart(bytes, useBlobs));
    var listHash := crypto.bytesHash(ListPart(bytes, useBlobs));
    BatchInfo(crypto.txsHash(listHash, blobHashes), RecomputedParams(blocks), blobHashes,
              facts.baseFeeConfig.sharingPctg, preconfer, facts.proposedIn,
              if useBlobs then facts.proposedIn else 0, 0, AsU32(|bytes|), GAS_LIMIT,
              batch.lastBlockId, batch.lastBlockTimestamp, batch.anchorBlockId, facts.anchorBlockHash,
              facts.baseFeeConfig)
  }

  function BatchMetaHash(crypto: Crypto, preconfer: Address, blocks: seq<Block>, batch: Batch, facts: L1Facts,
                         useBlobs: bool): Option<Digest>
    requires HasAnchors(blocks)
  {
    var compressed := crypto.compress(FlatTxs(blocks));
    if compressed.None? then None
    else
      var info := RecomputedInfo(crypto, preconfer, blocks, batch, facts, compressed.value, useBlobs);
      Some(crypto.metaHash(BatchMetadata(crypto.infoHash(info), preconfer, batch.batchId, facts.proposedAt)))
  }

  /** The check of the latest batch. There is no verdict when compression fails or a block has no
      anchor transaction to skip. */
  function VerifyLastBatch(crypto: Crypto, batch: Batch, facts: L1Facts, useBlobs: bool, unconfirmed: seq<Block>)
    : Option<bool>
  {
    var blocks := Retained(unconfirmed, NumberAtMost(batch.lastBlockId));
    if |blocks| == 0 then Some(true)
    else if !HasAnchors(blocks) then None
    else
      var computed := BatchMetaHash(crypto, blocks[0].header.beneficiary, blocks, batch, facts, useBlobs);
      if computed.None? then None else Some(computed.value == batch.metaHash)
  }

  /** What is posted and recorded of a batch besides its contents: who posted it, its anchor, the time of its
      last block, the number of bytes as far as it fits 32 bits, and the number of blobs, announced and
      hashed, as far as it fits 8. */
  lemma RecordedAs(crypto: Crypto, blocks: seq<Block>, anchorId: nat, preconfer: Address, useBlobs: bool,
                   batchId: nat, lastBlockId: nat, facts: L1Facts)
    requires |blocks| > 0 && HasAnchors(Taken(blocks))
    requires Propose(crypto, blocks, anchorId, preconfer, useBlobs).Some?
    ensures var p := Propose(crypto, blocks, anchorId, preconfer, useBlobs).value;
            var record := Recorded(crypto, p, batchId, lastBlockId, facts);
            p.proposer == p.coinbase == preconfer && p.numBlobs == |p.blobs| % 256 &&
            |RecordedInfo(crypto, p, lastBlockId, facts).blobHashes| == |p.blobs| % 256 &&
            p.byteSize == |crypto.compress(FlatTxs(Taken(blocks))).value| % 0x1_0000_0000 &&
            record.anchorBlockId == p.anchorBlockId == anchorId &&
            record.batchId == batchId && record.lastBlockId == lastBlockId && |Taken(blocks)| > 0 &&
            record.lastBlockTimestamp == p.lastBlockTimestamp == Taken(blocks)[|Taken(blocks)| - 1].header.timestamp
  {
    hide FlatTxs, ParamsOf, BlobsOf, Taken;
    TakenIsLongest(blocks);
  }

  /** There is no verdict exactly when the cached blocks up to the batch's last one cannot be encoded: one of
      them has no anchor transaction to skip, or their transactions do not compress. */
  lemma NoVerdictIff(crypto: Crypto, batch: Batch, facts: L1Facts, useBlobs: bool, unconfirmed: seq<Block>)
    ensures var blocks := Retained(unconfirmed, NumberAtMost(batch.lastBlockId));
            VerifyLastBatch(crypto, batch, facts, useBlobs, unconfirmed).None? <==>
            (exists b | b in blocks :: |b.txs| == 0) ||
            (|blocks| > 0 && HasAnchors(blocks) && crypto.compress(FlatTxs(blocks)).None?)
  {
    hide Retained, FlatTxs;
  }

  /** With no cached block up to the batch's last one there is nothing to object to. */
  lemma NothingToCheck(crypto: Crypto, batch: Batch, facts: L1Facts, useBlobs: bool, unconfirmed: seq<Block>)
    requires forall b | b in unconfirmed :: b.header.number > batch.lastBlockId
    ensures VerifyLastBatch(crypto, batch, facts, useBlobs, unconfirmed) == Some(true)
  {
    RetainedNone(unconfirmed, NumberAtMost(batch.lastBlockId));
  }

  /** An honestly posted batch passes the check, whatever the hashes are, on every cache whose part
      up to the batch's last block is what was posted. */
  lemma HonestBatchVerifies(crypto: Crypto, blocks: seq<Block>, anchorId: nat, useBlobs: bool, batchId: nat,
                            lastBlockId: nat, facts: L1Facts, unconfirmed: seq<Block>)
    requires |blocks| > 0 && HasAnchors(Taken(blocks))
    requires Retained(unconfirmed, NumberAtMost(lastBlockId)) == Taken(blocks)
    requires Propose(crypto, blocks, anchorId, blocks[0].header.beneficiary, useBlobs).Some?
    requires |Propose(crypto, blocks, anchorId, blocks[0].header.beneficiary, useBlobs).value.blobs| <= 255
    requires useBlobs ==> crypto.compress(FlatTxs(Taken(blocks))) != Some([])
    ensures var p := Propose(crypto, blocks, anchorId, blocks[0].header.beneficiary, useBlobs).value;
            var record := Recorded(crypto, p, batchId, lastBlockId, facts);
            VerifyLastBatch(crypto, record, facts, useBlobs, unconfirmed) == Some(true)
  {
    hide ParamsOf, RecomputedParams, FlatTxs, BlobsOf, Retained;
    var taken := Taken(blocks);
    TakenIsLongest(blocks);
    EncodersAgree(taken);
    var preconfer := blocks[0].header.beneficiary;
    var p := Propose(crypto, blocks, anchorId, preconfer, useBlobs).value;
    var bytes := crypto.compress(FlatTxs(taken)).value;
    var batch := Recorded(crypto, p, batchId, lastBlockId, facts);
    assert p.blobs[..p.numBlobs] == p.blobs;
    if useBlobs {
      NonEmptyHasBlobs(bytes);
    }
    assert RecomputedInfo(crypto, preconfer, taken, batch, facts, bytes, useBlobs)
           == RecordedInfo(crypto, p, lastBlockId, facts);
  }

  lemma NonEmptyHasBlobs(bytes: seq<byte>)
    requires |bytes| > 0
    ensures |BlobsOf(bytes)| > 0
  {
  }

  // ---- what an accepted batch tells ----------------------------------------------------------

  /** Two different values with one hash. */
  ghost predicate Collide<A(!new), B>(hash: A -> B, a: A, b: A) {
    a != b && hash(a) == hash(b)
  }

  /** The first blobs that differ have one hash. */
  ghost predicate BlobsCollide(crypto: Crypto, a: seq<seq<byte>>, b: seq<seq<byte>>) {
    exists i | 0 <= i < |a| && i < |b| :: a[..i] == b[..i] && Collide(crypto.blobHash, a[i], b[i])
  }

  /** One of the pairs that are compared when a transaction hash is, collides. */
  ghost predicate TxsCollide(crypto: Crypto, list: seq<byte>, blobs: seq<seq<byte>>,
                             list': seq<byte>, blobs': seq<seq<byte>>)
  {
    Collide((p: (Digest, seq<Digest>)) => crypto.txsHash(p.0, p.1),
            (crypto.bytesHash(list), BlobHashes(crypto, blobs)),
            (crypto.bytesHash(list'), BlobHashes(crypto, blobs'))) ||
    Collide(crypto.bytesHash, list, list') || BlobsCollide(crypto, blobs, blobs')
  }

  lemma {:induction false} SameBlobHashes(crypto: Crypto, a: seq<seq<byte>>, b: seq<seq<byte>>)
    requires BlobHashes(crypto, a) == BlobHashes(crypto, b)
    ensures a == b || BlobsCollide(crypto, a, b)
  {
    if |a| > 0 {
      assert BlobHashes(crypto, a)[0] == BlobHashes(crypto, b)[0];
      assert BlobHashes(crypto, a)[1..] == BlobHashes(crypto, a[1..]);
      assert BlobHashes(crypto, b)[1..] == BlobHashes(crypto, b[1..]);
      if a[0] != b[0] {
        assert a[..0] == b[..0];
      } else {
        SameBlobHashes(crypto, a[1..], b[1..]);
        assert a == [a[0]] + a[1..] && b == [b[0]] + b[1..];
        if i :| 0 <= i < |a[1..]| && i < |b[1..]| && a[1..][..i] == b[1..][..i] &&
                Collide(crypto.blobHash, a[1..][i], b[1..][i])
        {
          assert a[..i + 1] == [a[0]] + a[1..][..i] && b[..i + 1] == [b[0]] + b[1..][..i];
        }
      }
    }
  }

  lemma SameTxsHash(crypto: Crypto, list: seq<byte>, blobs: seq<seq<byte>>, list': seq<byte>, blobs': seq<seq<byte>>)
    requires crypto.txsHash(crypto.bytesHash(list), BlobHashes(crypto, blobs))
             == crypto.txsHash(crypto.bytesHash(list'), BlobHashes(crypto, blobs'))
    ensures (list == list' && blobs == blobs') || TxsCollide(crypto, list, blobs, list', blobs')
  {
    hide BlobHashes, BlobsCollide;
    if BlobHashes(crypto, blobs) == BlobHashes(crypto, blobs') {
      SameBlobHashes(crypto, blobs, blobs');
    }
  }

  /** Everything recomputed from some cached blocks is what was proposed: their number, counts and time
      shifts, the builder, and the compressed transactions, as a list or as blobs. */
  ghost predicate Matches(p: Proposal, blocks: seq<Block>, bytes: seq<byte>, useBlobs: bool) {
    |blocks| > 0 && RecomputedParams(blocks) == p.blocks && blocks[0].header.beneficiary == p.coinbase == p.proposer &&
    AsU32(|bytes|) == p.byteSize && p.txList == ListPart(bytes, useBlobs) && Announced(p) == BlobPart(bytes, useBlobs)
  }

  /** What is recomputed from some blocks and what was recorded of the proposal differ, but not in one of
      the two hashes that lead to the compared value. */
  ghost predicate RecordCollides(crypto: Crypto, p: Proposal, batchId: nat, lastBlockId: nat, facts: L1Facts,
                                 useBlobs: bool, blocks: seq<Block>)
    requires |blocks| > 0 && HasAnchors(blocks) && crypto.compress(FlatTxs(blocks)).Some?
  {
    var batch := Recorded(crypto, p, batchId, lastBlockId, facts);
    var preconfer, bytes := blocks[0].header.beneficiary, crypto.compress(FlatTxs(blocks)).value;
    var recomputed := RecomputedInfo(crypto, preconfer, blocks, batch, facts, bytes, useBlobs);
    var recorded := RecordedInfo(crypto, p, lastBlockId, facts);
    Collide(crypto.metaHash, BatchMetadata(crypto.infoHash(recomputed), preconfer, batchId, facts.proposedAt),
            BatchMetadata(crypto.infoHash(recorded), p.proposer, batchId, facts.proposedAt)) ||
    Collide(crypto.infoHash, recomputed, recorded)
  }

  /** If the check accepts some cached blocks they match the proposal, or one of the pairs of values
      that it compares by their hashes collides. Nothing is assumed about the hashes. */
  lemma AcceptedBlocksMatch(crypto: Crypto, p: Proposal, batchId: nat, lastBlockId: nat, facts: L1Facts,
                            useBlobs: bool, unconfirmed: seq<Block>)
    requires var record := Recorded(crypto, p, batchId, lastBlockId, facts);
             VerifyLastBatch(crypto, record, facts, useBlobs, unconfirmed) == Some(true)
    requires |Retained(unconfirmed, NumberAtMost(lastBlockId))| > 0
    ensures var blocks := Retained(unconfirmed, NumberAtMost(lastBlockId));
            HasAnchors(blocks) && crypto.compress(FlatTxs(blocks)).Some? &&
            var bytes := crypto.compress(FlatTxs(blocks)).value;
            Matches(p, blocks, bytes, useBlobs) ||
            RecordCollides(crypto, p, batchId, lastBlockId, facts, useBlobs, blocks) ||
            TxsCollide(crypto, ListPart(bytes, useBlobs), BlobPart(bytes, useBlobs), p.txList, Announced(p))
  {
    hide RecomputedParams, FlatTxs, BlobsOf, Retained, BlobHashes, TxsCollide;
    var blocks := Retained(unconfirmed, NumberAtMost(lastBlockId));
    var batch := Recorded(crypto, p, batchId, lastBlockId, facts);
    var preconfer, bytes := blocks[0].header.beneficiary, crypto.compress(FlatTxs(blocks)).value;
    var recomputed := RecomputedInfo(crypto, preconfer, blocks, batch, facts, bytes, useBlobs);
    if recomputed == RecordedInfo(crypto, p, lastBlockId, facts) {
      SameTxsHash(crypto, ListPart(bytes, useBlobs), BlobPart(bytes, useBlobs), p.txList, Announced(p));
    }
  }

  /** Blocks of another number than the proposal's are accepted only if the info or the metadata collide. */
  lemma OtherCountIsRejected(crypto: Crypto, p: Proposal, batchId: nat, lastBlockId: nat, facts: L1Facts,
                             useBlobs: bool, unconfirmed: seq<Block>)
    requires var blocks := Retained(unconfirmed, NumberAtMost(lastBlockId));
             0 < |blocks| != |p.blocks| && HasAnchors(blocks) && crypto.compress(FlatTxs(blocks)).Some?
    ensures var blocks := Retained(unconfirmed, NumberAtMost(lastBlockId));
            var record := Recorded(crypto, p, batchId, lastBlockId, facts);
            var verdict := VerifyLastBatch(crypto, record, facts, useBlobs, unconfirmed);
            verdict == Some(false) ||
            (verdict == Some(true) && RecordCollides(crypto, p, batchId, lastBlockId, facts, useBlobs, blocks))
  {
    hide FlatTxs, BlobsOf, Retained, BlobHashes;
  }
}
