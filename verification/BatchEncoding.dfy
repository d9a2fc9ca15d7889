/** How a batch of blocks becomes time shifts, transaction counts and one flat transaction list:
    once when it is posted, and once more when the latest L1 batch is checked. Arithmetic wraps as
    in the release build. */
module BatchEncoding {
  import opened Blocks
  import opened Sequences

  const TWO_64 := 0x1_0000_0000_0000_0000
  const TWO_16 := 0x1_0000
  const TWO_8 := 0x100

  /** `numTransactions` is 16 bits wide, `timeShift` 8 bits; the signal slots are always empty. */
  datatype BlockParams = BlockParams(numTransactions: nat, timeShift: nat)

  function WrappingSub(a: int, b: int, modulus: nat): (r: nat)
    requires modulus > 0
    ensures r < modulus
  {
    (a - b) % modulus
  }

  function WithoutAnchor(block: Block): seq<Tx>
    requires |block.txs| > 0
  {
    block.txs[1..]
  }

  predicate HasAnchors(blocks: seq<Block>) {
    forall b | b in blocks :: |b.txs| > 0
  }

  /** The time between block `i` and the block before it, as a 64-bit difference. */
  function Gap(blocks: seq<Block>, i: nat): nat
    requires i < |blocks|
  {
    WrappingSub(blocks[i].header.timestamp, blocks[if i == 0 then 0 else i - 1].header.timestamp, TWO_64)
  }

  /** The number of leading blocks from `i` on whose gaps fit a byte. */
  function ConsumedFrom(blocks: seq<Block>, i: nat): (k: nat)
    requires i <= |blocks|
    ensures i <= k <= |blocks|
    ensures forall j | i <= j < k :: Gap(blocks, j) < TWO_8
    ensures k < |blocks| ==> Gap(blocks, k) >= TWO_8
    decreases |blocks| - i
  {
    if i < |blocks| && Gap(blocks, i) < TWO_8 then ConsumedFrom(blocks, i + 1) else i
  }

  /** The prefix that one batch takes. */
  function Taken(blocks: seq<Block>): seq<Block> {
    blocks[..ConsumedFrom(blocks, 0)]
  }

  function ParamsOf(blocks: seq<Block>): (r: seq<BlockParams>)
    requires HasAnchors(blocks)
    ensures |r| == |blocks|
  {
    seq(|blocks|, i requires 0 <= i < |blocks| => BlockParams((|blocks[i].txs| - 1) % TWO_16, Gap(blocks, i)))
  }

  /** The transactions of all blocks without the anchors, in order. */
  function FlatTxs(blocks: seq<Block>): seq<Tx>
    requires HasAnchors(blocks)
  {
    if |blocks| == 0 then [] else WithoutAnchor(blocks[0]) + FlatTxs(blocks[1..])
  }

  lemma {:induction false} FlatTxsAppend(blocks: seq<Block>, block: Block)
    requires HasAnchors(blocks) && |block.txs| > 0
    ensures FlatTxs(blocks + [block]) == FlatTxs(blocks) + WithoutAnchor(block)
  {
    if |blocks| == 0 {
      assert blocks + [block] == [block];
      assert FlatTxs([block]) == WithoutAnchor(block) + FlatTxs([block][1..]);
    } else {
      assert (blocks + [block])[1..] == blocks[1..] + [block];
      FlatTxsAppend(blocks[1..], block);
    }
  }

  lemma ParamsOfAppend(blocks: seq<Block>, block: Block)
    requires HasAnchors(blocks) && |block.txs| > 0
    ensures HasAnchors(blocks + [block])
    ensures ParamsOf(blocks + [block])
            == ParamsOf(blocks) + [BlockParams((|block.txs| - 1) % TWO_16, Gap(blocks + [block], |blocks|))]
  {
  }

  /** Encodes the leading blocks of a batch. Asks for what the source panics without: a first
      block, and an anchor transaction in every block that is taken. */
  method ReadBlocks(blocks: seq<Block>) returns (blockParams: seq<BlockParams>, txs: seq<Tx>, lastTimestamp: nat)
    requires |blocks| > 0 && HasAnchors(Taken(blocks))
    ensures |Taken(blocks)| > 0
    ensures blockParams == ParamsOf(Taken(blocks)) && txs == FlatTxs(Taken(blocks))
    ensures lastTimestamp == Taken(blocks)[|Taken(blocks)| - 1].header.timestamp
  {
    lastTimestamp := blocks[0].header.timestamp;
    blockParams, txs := [], [];
    var i := 0;
    while i < |blocks|
      invariant 0 <= i <= |blocks| && ConsumedFrom(blocks, i) == ConsumedFrom(blocks, 0)
      invariant lastTimestamp == blocks[if i == 0 then 0 else i - 1].header.timestamp
      invariant HasAnchors(blocks[..i]) && blockParams == ParamsOf(blocks[..i]) && txs == FlatTxs(blocks[..i])
    {
      var timestamp := blocks[i].header.timestamp;
      var timeShift := WrappingSub(timestamp, lastTimestamp, TWO_64);
      if timeShift >= TWO_8 {
        break;
      }
      assert blocks[..i + 1] == blocks[..i] + [blocks[i]] && blocks[i] == Taken(blocks)[i];
      var blockTxs := WithoutAnchor(blocks[i]);
      blockParams := blockParams + [BlockParams(|blockTxs| % TWO_16, timeShift)];
      lastTimestamp := timestamp;
      txs := txs + blockTxs;
      ParamsOfAppend(blocks[..i], blocks[i]);
      FlatTxsAppend(blocks[..i], blocks[i]);
      i := i + 1;
    }
  }

  /** The parameters as the verification recomputes them: 16-bit subtraction, truncating cast. */
  function RecomputedParams(blocks: seq<Block>): (r: seq<BlockParams>)
    ensures |r| == |blocks|
  {
    seq(|blocks|, i requires 0 <= i < |blocks| =>
      BlockParams(WrappingSub(|blocks[i].txs| % TWO_16, 1, TWO_16), Gap(blocks, i) % TWO_8))
  }

  method RecomputeParams(blocks: seq<Block>) returns (blockParams: seq<BlockParams>)
    requires |blocks| > 0
    ensures blockParams == RecomputedParams(blocks)
  {
    var lastTimestamp := blocks[0].header.timestamp;
    blockParams := [];
    for i := 0 to |blocks|
      invariant lastTimestamp == blocks[if i == 0 then 0 else i - 1].header.timestamp
      invariant blockParams == RecomputedParams(blocks)[..i]
    {
      var timeShift := WrappingSub(blocks[i].header.timestamp, lastTimestamp, TWO_64);
      lastTimestamp := blocks[i].header.timestamp;
      blockParams := blockParams + [BlockParams(WrappingSub(|blocks[i].txs| % TWO_16, 1, TWO_16), timeShift % TWO_8)];
    }
  }

  /** Every gap inside the taken prefix fits a byte, and the next one does not. */
  lemma TakenIsLongest(blocks: seq<Block>)
    ensures forall i | 0 <= i < |Taken(blocks)| :: Gap(Taken(blocks), i) <= 255
    ensures |Taken(blocks)| < |blocks| ==> Gap(blocks, |Taken(blocks)|) > 255
    ensures |blocks| > 0 ==> |Taken(blocks)| > 0
  {
    assert forall i | 0 <= i < |Taken(blocks)| :: Gap(Taken(blocks), i) == Gap(blocks, i);
  }

  /** The two encoders agree wherever the first one does not split, so on every taken prefix. */
  lemma EncodersAgree(blocks: seq<Block>)
    requires HasAnchors(blocks) && forall i | 0 <= i < |blocks| :: Gap(blocks, i) <= 255
    ensures RecomputedParams(blocks) == ParamsOf(blocks)
  {
    forall i | 0 <= i < |blocks|
      ensures RecomputedParams(blocks)[i] == ParamsOf(blocks)[i]
    {
      assert blocks[i] in blocks;
      WrappedCount(|blocks[i].txs|);
    }
  }

  /** The recomputed parameters, in plain terms, for any blocks: the count without the anchor modulo 2^16 and
      the difference of the times modulo 2^8. */
  lemma RecomputedExactly(blocks: seq<Block>, i: nat)
    requires i < |blocks| && |blocks[i].txs| > 0
    ensures RecomputedParams(blocks)[i].numTransactions == (|blocks[i].txs| - 1) % 65536
    ensures RecomputedParams(blocks)[i].timeShift ==
            if i == 0 then 0 else (blocks[i].header.timestamp - blocks[i - 1].header.timestamp) % 256
  {
    WrappedCount(|blocks[i].txs|);
    var diff := blocks[i].header.timestamp - blocks[if i == 0 then 0 else i - 1].header.timestamp;
    ModuloTwice(diff);
  }

  lemma ModuloTwice(n: int)
    ensures n % 0x1_0000_0000_0000_0000 % 256 == n % 256
  {
    ModuloPlus(n % 0x1_0000_0000_0000_0000, n / 0x1_0000_0000_0000_0000 * 0x100_0000_0000_0000);
  }

  lemma ModuloPlus(n: int, k: int)
    ensures (n + 256 * k) % 256 == n % 256
  {
  }

  lemma WrappedCount(n: nat)
    requires n > 0
    ensures WrappingSub(n % TWO_16, 1, TWO_16) == (n - 1) % TWO_16
  {
    if n % TWO_16 == 0 {
      assert n - 1 == (n / TWO_16 - 1) * TWO_16 + 0xFFFF;
    }
  }

  // ---- reading a batch back ------------------------------------------------------------------

  /** The block times of a batch, from its last one backwards. */
  function Timestamps(blockParams: seq<BlockParams>, last: nat): seq<nat> {
    if |blockParams| == 0 then []
    else
      var front, p := blockParams[..|blockParams| - 1], blockParams[|blockParams| - 1];
      Timestamps(front, WrappingSub(last, p.timeShift, TWO_64)) + [last]
  }

  /** The transaction lists of a batch: as many transactions as announced, as long as there are any. */
  function SplitTxs(blockParams: seq<BlockParams>, txs: seq<Tx>): seq<seq<Tx>> {
    if |blockParams| == 0 then []
    else
      var n := if blockParams[0].numTransactions <= |txs| then blockParams[0].numTransactions else |txs|;
      [txs[..n]] + SplitTxs(blockParams[1..], txs[n..])
  }

  function TimesOf(blocks: seq<Block>): (r: seq<nat>)
    ensures |r| == |blocks|
  {
    seq(|blocks|, i requires 0 <= i < |blocks| => blocks[i].header.timestamp)
  }

  function TxListsOf(blocks: seq<Block>): (r: seq<seq<Tx>>)
    requires HasAnchors(blocks)
    ensures |r| == |blocks|
  {
    seq(|blocks|, i requires 0 <= i < |blocks| && |blocks[i].txs| > 0 => blocks[i].txs[1..])
  }

  /** Block times are 64-bit numbers. */
  ghost predicate TimesFit(blocks: seq<Block>) {
    forall b | b in blocks :: b.header.timestamp < 0x1_0000_0000_0000_0000
  }

  lemma WrappingSubUndoes(a: nat, b: nat)
    requires a < TWO_64 && b < TWO_64
    ensures WrappingSub(a, WrappingSub(a, b, TWO_64), TWO_64) == b
  {
  }

  /** The time shifts determine the times. */
  lemma {:induction false} TimesReturn(blocks: seq<Block>)
    requires |blocks| > 0 && HasAnchors(blocks) && TimesFit(blocks)
    ensures Timestamps(ParamsOf(blocks), blocks[|blocks| - 1].header.timestamp) == TimesOf(blocks)
  {
    hide ParamsOf, WrappingSub;
    var front, last := blocks[..|blocks| - 1], blocks[|blocks| - 1];
    assert blocks == front + [last] && last in blocks;
    ParamsOfAppend(front, last);
    if |front| > 0 {
      assert front[|front| - 1] in blocks;
      WrappingSubUndoes(last.header.timestamp, front[|front| - 1].header.timestamp);
      TimesReturn(front);
    }
  }

  ghost predicate CountsFit(blocks: seq<Block>) {
    forall b | b in blocks :: |b.txs| <= 65536
  }

  lemma ParamsTail(blocks: seq<Block>)
    requires |blocks| > 0 && HasAnchors(blocks)
    ensures HasAnchors(blocks[1..])
    ensures forall i | 0 <= i < |blocks| - 1 ::
              ParamsOf(blocks)[1..][i].numTransactions == ParamsOf(blocks[1..])[i].numTransactions
  {
  }

  /** Only the counts matter for splitting. */
  lemma {:induction false} SplitByCounts(p: seq<BlockParams>, q: seq<BlockParams>, txs: seq<Tx>)
    requires |p| == |q| && forall i | 0 <= i < |p| :: p[i].numTransactions == q[i].numTransactions
    ensures SplitTxs(p, txs) == SplitTxs(q, txs)
  {
    if |p| > 0 {
      var n := if p[0].numTransactions <= |txs| then p[0].numTransactions else |txs|;
      SplitByCounts(p[1..], q[1..], txs[n..]);
    }
  }

  lemma CountOf(n: nat)
    requires n > 0
    ensures if n <= TWO_16 then (n - 1) % TWO_16 == n - 1 else (n - 1) % TWO_16 < n - 1
  {
  }

  lemma SplitStep(p: seq<BlockParams>, own: seq<Tx>, rest: seq<Tx>)
    requires |p| > 0 && p[0].numTransactions == |own|
    ensures SplitTxs(p, own + rest) == [own] + SplitTxs(p[1..], rest)
  {
  }

  lemma SplitTooShort(p: seq<BlockParams>, txs: seq<Tx>)
    requires |p| > 0
    ensures |SplitTxs(p, txs)| > 0 && |SplitTxs(p, txs)[0]| <= p[0].numTransactions
  {
  }

  /** The transaction lists come back exactly when no count overflows its 16 bits. */
  lemma {:induction false} TxListsReturnIff(blocks: seq<Block>)
    requires HasAnchors(blocks)
    ensures SplitTxs(ParamsOf(blocks), FlatTxs(blocks)) == TxListsOf(blocks) <==> CountsFit(blocks)
  {
    hide SplitTxs;
    if |blocks| == 0 {
      NothingToSplit(blocks);
    } else if |blocks[0].txs| > TWO_16 {
      assert blocks[0] in blocks;
      assert |TxListsOf(blocks)[0]| == |WithoutAnchor(blocks[0])| == |blocks[0].txs| - 1;
      CountOf(|blocks[0].txs|);
      SplitTooShort(ParamsOf(blocks), FlatTxs(blocks));
    } else {
      var rest := blocks[1..];
      assert blocks[0] in blocks;
      CountOf(|blocks[0].txs|);
      ParamsTail(blocks);
      SplitStep(ParamsOf(blocks), WithoutAnchor(blocks[0]), FlatTxs(rest));
      SplitByCounts(ParamsOf(blocks)[1..], ParamsOf(rest), FlatTxs(rest));
      TxListsReturnIff(rest);
      assert blocks == [blocks[0]] + rest;
      assert TxListsOf(blocks) == [WithoutAnchor(blocks[0])] + TxListsOf(rest);
      SameRest([WithoutAnchor(blocks[0])], SplitTxs(ParamsOf(rest), FlatTxs(rest)), TxListsOf(rest));
    }
  }

  lemma NothingToSplit(blocks: seq<Block>)
    requires |blocks| == 0
    ensures SplitTxs(ParamsOf(blocks), FlatTxs(blocks)) == TxListsOf(blocks)
  {
  }

  function Total(blockParams: seq<BlockParams>): nat {
    if |blockParams| == 0 then 0 else blockParams[0].numTransactions + Total(blockParams[1..])
  }

  lemma {:induction false} TotalByCounts(p: seq<BlockParams>, q: seq<BlockParams>)
    requires |p| == |q| && forall i | 0 <= i < |p| :: p[i].numTransactions == q[i].numTransactions
    ensures Total(p) == Total(q)
  {
    if |p| > 0 {
      TotalByCounts(p[1..], q[1..]);
    }
  }

  /** The announced counts add up to the length of the flat list. */
  lemma {:induction false} CountsAddUp(blocks: seq<Block>)
    requires HasAnchors(blocks) && CountsFit(blocks)
    ensures Total(ParamsOf(blocks)) == |FlatTxs(blocks)|
  {
    if |blocks| > 0 {
      assert blocks[0] in blocks;
      ParamsTail(blocks);
      CountsAddUp(blocks[1..]);
      TotalByCounts(ParamsOf(blocks)[1..], ParamsOf(blocks[1..]));
    }
  }

  /** What one posted batch determines, for any non-empty list of blocks: the taken prefix is the
      longest one whose gaps fit a byte and is not empty; its times are determined; its transaction
      lists are determined exactly when every count fits 16 bits. */
  lemma BatchRoundTrip(blocks: seq<Block>)
    requires |blocks| > 0 && HasAnchors(Taken(blocks)) && TimesFit(Taken(blocks))
    ensures var taken := Taken(blocks);
            var params, txs := ParamsOf(taken), FlatTxs(taken);
            |taken| > 0 && params[0].timeShift == 0 &&
            (forall i | 0 <= i < |taken| :: params[i].timeShift <= 255) &&
            (|taken| < |blocks| ==> Gap(blocks, |taken|) > 255) &&
            Timestamps(params, taken[|taken| - 1].header.timestamp) == TimesOf(taken) &&
            (SplitTxs(params, txs) == TxListsOf(taken) <==> CountsFit(taken)) &&
            (CountsFit(taken) ==> Total(params) == |txs|)
  {
    var taken := Taken(blocks);
    TakenIsLongest(blocks);
    TimesReturn(taken);
    TxListsReturnIff(taken);
    if CountsFit(taken) {
      CountsAddUp(taken);
    }
  }

  /** With times that do not run backwards the gaps are plain differences. */
  lemma ForwardGaps(blocks: seq<Block>, i: nat)
    requires 0 < i < |blocks| && TimesFit(blocks)
    requires blocks[i - 1].header.timestamp <= blocks[i].header.timestamp
    ensures Gap(blocks, i) == blocks[i].header.timestamp - blocks[i - 1].header.timestamp
  {
  }

  /** With such times a batch takes the longest prefix in which no block is more than 255 seconds behind the
      one before it. */
  lemma ForwardTaken(blocks: seq<Block>)
    requires |blocks| > 0 && TimesFit(blocks)
    requires forall i | 0 < i < |blocks| :: blocks[i - 1].header.timestamp <= blocks[i].header.timestamp
    ensures var taken := Taken(blocks);
            0 < |taken| && taken <= blocks &&
            (forall i | 0 < i < |taken| :: blocks[i].header.timestamp <= blocks[i - 1].header.timestamp + 255) &&
            (|taken| < |blocks| ==>
               blocks[|taken|].header.timestamp > blocks[|taken| - 1].header.timestamp + 255)
  {
    TakenIsLongest(blocks);
    var taken := Taken(blocks);
    forall i | 0 < i < |taken|
      ensures blocks[i].header.timestamp <= blocks[i - 1].header.timestamp + 255
    {
      assert Gap(taken, i) == Gap(blocks, i);
      ForwardGaps(blocks, i);
    }
    if |taken| < |blocks| {
      ForwardGaps(blocks, |taken|);
    }
  }
}
