/** From cached blocks to L1 and back: what a reader of a posted batch recovers. */
module PostedBatch {
  import opened Addresses
  import opened BatchEncoding
  import opened BlobLayout
  import opened BlobRoundTrip
  import opened Blocks
  import opened Confirmation
  import opened TopBytes
  import opened Verification
  import opened Wrappers

  /** The inverse of the compression, as far as there is one. */
  type Decompress = seq<byte> -> Option<seq<Tx>>

  datatype Contents = Contents(timestamps: seq<nat>, txLists: seq<seq<Tx>>)

  ghost predicate WholeBlobs(p: Proposal) {
    forall blob | blob in p.blobs :: |blob| == BYTES_PER_BLOB
  }

  /** The compressed list: inside the blobs, or posted as it is. */
  ghost function PostedBytes(p: Proposal): Option<seq<byte>>
    requires WholeBlobs(p)
  {
    if |p.blobs| == 0 then Some(p.txList) else DecodeAll(p.blobs)
  }

  /** What the batch says about its blocks, to somebody who has nothing else. */
  ghost function ReadBack(decompress: Decompress, p: Proposal): Option<Contents>
    requires WholeBlobs(p)
  {
    var bytes := PostedBytes(p);
    if bytes.None? || decompress(bytes.value).None? then None
    else Some(Contents(Timestamps(p.blocks, p.lastBlockTimestamp), SplitTxs(p.blocks, decompress(bytes.value).value)))
  }

  /** The blobs keep every byte: the last one is read completely, or what it skips is zero. */
  ghost predicate BlobsKeep(bytes: seq<byte>) {
    LastChunk(|bytes|) % 127 <= 123 ||
    forall i | 0 <= i < |bytes| && |bytes| - Lost(LastChunk(|bytes|)) <= i :: bytes[i] == 0
  }

  /** The posted bytes are the compressed transactions exactly when no blobs are used or they keep
      every byte. */
  lemma PostedBytesIff(crypto: Crypto, blocks: seq<Block>, anchorId: nat, preconfer: Address, useBlobs: bool)
    requires |blocks| > 0 && HasAnchors(Taken(blocks))
    requires Propose(crypto, blocks, anchorId, preconfer, useBlobs).Some?
    ensures var p := Propose(crypto, blocks, anchorId, preconfer, useBlobs).value;
            WholeBlobs(p) &&
            (PostedBytes(p) == crypto.compress(FlatTxs(Taken(blocks))) <==>
             !useBlobs || BlobsKeep(crypto.compress(FlatTxs(Taken(blocks))).value))
  {
    hide FlatTxs, ParamsOf, Taken;
    TakenIsLongest(blocks);
    var bytes := crypto.compress(FlatTxs(Taken(blocks))).value;
    if useBlobs && |bytes| > 0 {
      BlobsDecode(bytes);
      BlobsRoundTripIff(bytes);
    }
  }

  /** A posted batch is self-contained: with a faithful compression, counts that fit 16 bits and
      blobs that keep every byte, a reader recovers the times and the transactions of exactly the
      blocks that were taken. */
  lemma PostedBatchReadsBack(crypto: Crypto, decompress: Decompress, blocks: seq<Block>, anchorId: nat,
                             preconfer: Address, useBlobs: bool)
    requires |blocks| > 0 && HasAnchors(Taken(blocks)) && TimesFit(Taken(blocks)) && CountsFit(Taken(blocks))
    requires Propose(crypto, blocks, anchorId, preconfer, useBlobs).Some?
    requires decompress(crypto.compress(FlatTxs(Taken(blocks))).value) == Some(FlatTxs(Taken(blocks)))
    requires useBlobs ==> BlobsKeep(crypto.compress(FlatTxs(Taken(blocks))).value)
    ensures var p := Propose(crypto, blocks, anchorId, preconfer, useBlobs).value;
            WholeBlobs(p) && p.anchorBlockId == anchorId && p.proposer == p.coinbase == preconfer &&
            ReadBack(decompress, p) == Some(Contents(TimesOf(Taken(blocks)), TxListsOf(Taken(blocks))))
  {
    hide FlatTxs, ParamsOf, Taken, BlobsKeep, PostedBytes, WholeBlobs, Timestamps, SplitTxs;
    PostedBytesIff(crypto, blocks, anchorId, preconfer, useBlobs);
    BatchRoundTrip(blocks);
  }

  /** What a call submits is posted and recorded with the anchor that every one of its blocks names. */
  lemma SubmittedIsPosted(crypto: Crypto, eligible: seq<Block>, maxBlocks: nat, force: bool, currentAnchor: nat,
                          own: Address, useBlobs: bool, batchId: nat, lastBlockId: nat, facts: L1Facts)
    requires var outcome := Decision(eligible, maxBlocks, force, currentAnchor);
             outcome.Submitted? && |outcome.batch| > 0 && HasAnchors(Taken(outcome.batch)) &&
             Propose(crypto, outcome.batch, outcome.anchorId, own, useBlobs).Some?
    ensures var outcome := Decision(eligible, maxBlocks, force, currentAnchor);
            var p := Propose(crypto, outcome.batch, outcome.anchorId, own, useBlobs).value;
            var record := Recorded(crypto, p, batchId, lastBlockId, facts);
            forall b | b in Taken(outcome.batch) :: Names(b, p.anchorBlockId) && Names(b, record.anchorBlockId)
  {
    hide AnchorRun, Propose, Recorded;
    var outcome := Decision(eligible, maxBlocks, force, currentAnchor);
    assert forall b | b in outcome.batch :: Names(b, outcome.anchorId);
    RecordedAs(crypto, outcome.batch, outcome.anchorId, own, useBlobs, batchId, lastBlockId, facts);
  }
}
