/** Selecting the batch to confirm: the cache is pruned in place, then the leading blocks that share
    an anchor are collected. */
module Confirmation {
  import opened Addresses
  import opened Blocks
  import opened Cache
  import opened Wrappers

  datatype ConfirmationError = MissingAnchor(number: nat) | UndecodableAnchor

  /** What one call does: nothing, fail, or hand a batch to the L1 client. */
  datatype Outcome = Nothing | Failed(error: ConfirmationError) | Submitted(batch: seq<Block>, anchorId: nat)

  predicate IsNotOutdatedTimestamp(lastL2: nat, l1: nat, previousBatch: nat, totalShift: nat, maxOffset: nat) {
    lastL2 >= previousBatch && lastL2 >= totalShift && lastL2 + maxOffset >= l1 + totalShift
  }

  /** The same without sums that could overflow: not before the previous batch, and no more than the offset
      behind L1 once the shift is taken off. */
  lemma NotOutdatedIff(lastL2: nat, l1: nat, previousBatch: nat, totalShift: nat, maxOffset: nat)
    ensures IsNotOutdatedTimestamp(lastL2, l1, previousBatch, totalShift, maxOffset) <==>
            previousBatch <= lastL2 && 0 <= lastL2 - totalShift && l1 - maxOffset <= lastL2 - totalShift
  {
  }

  /** The retention rule of a call: own blocks that are not outdated. */
  function ValidFor(l1: nat, maxOffset: nat, own: Address): Keep {
    (b: Block) => IsNotOutdatedTimestamp(b.header.timestamp, l1, 0, 0, maxOffset) && b.header.beneficiary == own
  }

  function EarlierThan(l1: nat): Keep {
    (b: Block) => b.header.timestamp < l1
  }

  /** What the stream does to the shared cache between two waiting points of a call. Clearing it is a
      pruning that keeps nothing. */
  datatype Change = Add(block: Block) | Prune(keep: Keep)

  function ChangedBy(cache: seq<Block>, change: Change): seq<Block> {
    match change
    case Add(block) => Added(cache, block)
    case Prune(keep) => Retained(cache, keep)
  }

  function Changed(cache: seq<Block>, changes: seq<Change>): seq<Block> {
    if |changes| == 0 then cache
    else ChangedBy(Changed(cache, changes[..|changes| - 1]), changes[|changes| - 1])
  }

  /** The cache as a call reads it, after it pruned the cache and the stream made some changes. */
  function Seen(cache: seq<Block>, changes: seq<Change>, l1: nat, maxOffset: nat, own: Address): seq<Block> {
    Changed(Retained(cache, ValidFor(l1, maxOffset, own)), changes)
  }

  /** The blocks a call considers: what it reads from the cache and is older than the L1 slot. */
  function Eligible(cache: seq<Block>, changes: seq<Change>, l1: nat, maxOffset: nat, own: Address): seq<Block> {
    Retained(Seen(cache, changes, l1, maxOffset, own), EarlierThan(l1))
  }

  /** The anchor a block is built on, read from its first transaction. */
  function AnchorOf(block: Block): Result<nat, ConfirmationError> {
    if |block.txs| == 0 then Err(MissingAnchor(block.header.number))
    else if block.txs[0].anchorId.None? then Err(UndecodableAnchor)
    else Ok(block.txs[0].anchorId.value)
  }

  /** The number of leading blocks from `i` on that have the given anchor. */
  function AnchorRun(blocks: seq<Block>, i: nat, anchorId: nat): (k: nat)
    requires i <= |blocks|
    ensures i <= k <= |blocks|
    ensures forall j | i <= j < k :: AnchorOf(blocks[j]) == Ok(anchorId)
    ensures k < |blocks| ==> AnchorOf(blocks[k]) != Ok(anchorId)
    decreases |blocks| - i
  {
    if i < |blocks| && AnchorOf(blocks[i]) == Ok(anchorId) then AnchorRun(blocks, i + 1, anchorId) else i
  }

  /** The decision on a list of eligible blocks. */
  function Decision(blocks: seq<Block>, maxBlocks: nat, force: bool, currentAnchor: nat): Outcome {
    if |blocks| == 0 then Nothing
    else if AnchorOf(blocks[0]).Err? then Failed(AnchorOf(blocks[0]).error)
    else
      var anchorId := AnchorOf(blocks[0]).value;
      var k := AnchorRun(blocks, 0, anchorId);
      if k < |blocks| && AnchorOf(blocks[k]).Err? then Failed(AnchorOf(blocks[k]).error)
      else if k < maxBlocks && !(force || k != |blocks| || anchorId != currentAnchor) then Nothing
      else Submitted(blocks[..k], anchorId)
  }

  class ConfirmationStrategy {
    const cache: TxCache
    const own: Address
    const maxBlocks: nat
    const maxOffset: nat

    constructor (cache: TxCache, own: Address, maxBlocks: nat, maxOffset: nat)
      ensures this.cache == cache && this.own == own && this.maxBlocks == maxBlocks && this.maxOffset == maxOffset
    {
      this.cache := cache;
      this.own := own;
      this.maxBlocks := maxBlocks;
      this.maxOffset := maxOffset;
    }

    /** The call waits twice, to prune the cache and to read it; `changes` happen in between. */
    method Send(l1: nat, force: bool, currentAnchor: nat, changes: seq<Change>) returns (outcome: Outcome)
      modifies cache
      ensures cache.unconfirmed == Seen(old(cache.unconfirmed), changes, l1, maxOffset, own)
      ensures var eligible := Eligible(old(cache.unconfirmed), changes, l1, maxOffset, own);
              outcome == Decision(eligible, maxBlocks, force, currentAnchor)
    {
      hide Retained, Added;
      cache.Retain(ValidFor(l1, maxOffset, own));
      Interfere(changes);
      var blocks := Retained(cache.unconfirmed, EarlierThan(l1));
      if |blocks| == 0 {
        return Nothing;
      }
      var first := AnchorOf(blocks[0]);
      if first.Err? {
        return Failed(first.error);
      }
      var batchAnchor := first.value;
      var batch := [];
      var i := 0;
      while i < |blocks|
        invariant 0 <= i <= |blocks| && batch == blocks[..i]
        invariant AnchorRun(blocks, i, batchAnchor) == AnchorRun(blocks, 0, batchAnchor)
      {
        var anchor := AnchorOf(blocks[i]);
        if anchor.Err? {
          return Failed(anchor.error);
        }
        if anchor.value != batchAnchor {
          break;
        }
        batch := batch + [blocks[i]];
        i := i + 1;
      }
      var forced := force || |batch| != |blocks| || batchAnchor != currentAnchor;
      if |batch| == 0 || (|batch| < maxBlocks && !forced) {
        return Nothing;
      }
      outcome := Submitted(batch, batchAnchor);
    }

    /** The stream's turn. */
    method Interfere(changes: seq<Change>)
      modifies cache
      ensures cache.unconfirmed == Changed(old(cache.unconfirmed), changes)
    {
      hide Retained, Added;
      for i := 0 to |changes|
        invariant cache.unconfirmed == Changed(old(cache.unconfirmed), changes[..i])
      {
        assert changes[..i + 1][..i] == changes[..i];
        match changes[i] {
          case Add(block) => cache.AddBlock(block);
          case Prune(keep) => cache.Retain(keep);
        }
      }
      assert changes[..|changes|] == changes;
    }
  }

  // ---- what the decision means ---------------------------------------------------------------

  /** The first transaction of a block names an anchor. */
  predicate Names(b: Block, anchorId: nat) {
    |b.txs| > 0 && b.txs[0].anchorId == Some(anchorId)
  }

  /** A block without a readable anchor, and the error it causes. */
  predicate Unreadable(b: Block, error: ConfirmationError) {
    if |b.txs| == 0 then error == MissingAnchor(b.header.number)
    else b.txs[0].anchorId.None? && error == UndecodableAnchor
  }

  ghost predicate WellFormed(blocks: seq<Block>) {
    forall b | b in blocks :: |b.txs| > 0 && b.txs[0].anchorId.Some?
  }

  /** An own block, not older than the time window. */
  predicate IsCurrent(b: Block, l1: nat, maxOffset: nat, own: Address) {
    b.header.beneficiary == own && b.header.timestamp + maxOffset >= l1
  }

  /** `batch` is the longest leading part of `blocks` built on one anchor. */
  ghost predicate LongestSameAnchor(batch: seq<Block>, blocks: seq<Block>, anchorId: nat) {
    0 < |batch| && batch <= blocks &&
    (forall b | b in batch :: Names(b, anchorId)) &&
    (|batch| < |blocks| ==> !Names(blocks[|batch|], anchorId))
  }

  /** The changes from the `i`-th on leave a block in the cache. */
  ghost predicate Survives(b: Block, changes: seq<Change>, i: nat) {
    forall j | i <= j < |changes| ::
      match changes[j]
      case Add(block) => block.header.number == b.header.number ==> block == b
      case Prune(keep) => keep(b)
  }

  lemma SurvivesOne(b: Block, changes: seq<Change>, i: nat)
    requires i < |changes|
    ensures Survives(b, changes, i) <==>
            Survives(b, changes[..|changes| - 1], i) && Survives(b, changes, |changes| - 1)
  {
    var front := changes[..|changes| - 1];
    assert forall j | 0 <= j < |front| :: front[j] == changes[j];
  }

  ghost predicate AddedAt(b: Block, changes: seq<Change>, i: nat) {
    i < |changes| && changes[i] == Add(b) && Survives(b, changes, i + 1)
  }

  /** A block was added by one of the changes, and the later ones leave it. */
  ghost predicate AddedIn(b: Block, changes: seq<Change>) {
    exists i: nat :: AddedAt(b, changes, i)
  }

  lemma {:induction false} ChangedOrdered(cache: seq<Block>, changes: seq<Change>)
    requires Ordered(cache)
    ensures Ordered(Changed(cache, changes))
  {
    hide Retained, Added;
    if |changes| > 0 {
      var before := Changed(cache, changes[..|changes| - 1]);
      ChangedOrdered(cache, changes[..|changes| - 1]);
      match changes[|changes| - 1] {
        case Add(block) => AddedMembers(before, block);
        case Prune(keep) => RetainedOrdered(before, keep);
      }
    }
  }

  /** What the changes leave: surviving blocks, cached before or added meanwhile. */
  lemma {:induction false} ChangedMembers(cache: seq<Block>, changes: seq<Change>, b: Block)
    requires Ordered(cache)
    ensures b in Changed(cache, changes) <==> (b in cache && Survives(b, changes, 0)) || AddedIn(b, changes)
  {
    hide Retained, Added;
    if |changes| > 0 {
      var n := |changes| - 1;
      var front := changes[..n];
      ChangedMembers(cache, front, b);
      ChangedOrdered(cache, front);
      if changes[n].Add? {
        AddedMembers(Changed(cache, front), changes[n].block);
      }
      SurvivesOne(b, changes, 0);
      AddedBefore(b, changes);
    }
  }

  lemma AddedBefore(b: Block, changes: seq<Change>)
    requires |changes| > 0
    ensures AddedIn(b, changes) <==>
            changes[|changes| - 1] == Add(b) ||
            (Survives(b, changes, |changes| - 1) && AddedIn(b, changes[..|changes| - 1]))
  {
    var n := |changes| - 1;
    var front := changes[..n];
    forall i: nat | i < n
      ensures AddedAt(b, changes, i) <==> AddedAt(b, front, i) && Survives(b, changes, n)
    {
      SurvivesOne(b, changes, i + 1);
    }
    assert AddedAt(b, changes, n) <==> changes[n] == Add(b);
  }

  /** A submitted batch is the longest same-anchor prefix of the eligible blocks: blocks older than the
      L1 slot, in ascending order, each either own, cached before and inside the time window, or added
      between the pruning and the reading. */
  lemma SubmittedBatch(cache: seq<Block>, changes: seq<Change>, l1: nat, maxOffset: nat, own: Address,
                       maxBlocks: nat, force: bool, currentAnchor: nat)
    requires Ordered(cache)
    requires Decision(Eligible(cache, changes, l1, maxOffset, own), maxBlocks, force, currentAnchor).Submitted?
    ensures var eligible := Eligible(cache, changes, l1, maxOffset, own);
            var outcome := Decision(eligible, maxBlocks, force, currentAnchor);
            LongestSameAnchor(outcome.batch, eligible, outcome.anchorId) && Ordered(outcome.batch) &&
            forall b | b in outcome.batch :: b.header.timestamp < l1 &&
              ((b in cache && b.header.beneficiary == own && l1 - maxOffset <= b.header.timestamp) ||
               AddedIn(b, changes))
  {
    hide Retained, AnchorRun, Changed, AddedIn, Survives;
    var eligible := Eligible(cache, changes, l1, maxOffset, own);
    var pruned := Retained(cache, ValidFor(l1, maxOffset, own));
    RetainedOrdered(cache, ValidFor(l1, maxOffset, own));
    ChangedOrdered(pruned, changes);
    forall b
      ensures b in Changed(pruned, changes) ==> b in pruned || AddedIn(b, changes)
    {
      ChangedMembers(pruned, changes, b);
    }
    RetainedOrdered(Changed(pruned, changes), EarlierThan(l1));
    var batch := Decision(eligible, maxBlocks, force, currentAnchor).batch;
    assert forall b | b in batch :: b in eligible;
  }

  /** What a call reads, and what it considers: the own blocks that are not too old, as far as they survive
      the changes, and the added ones; of these the ones older than the L1 slot. */
  lemma EligibleIff(cache: seq<Block>, changes: seq<Change>, l1: nat, maxOffset: nat, own: Address, b: Block)
    requires Ordered(cache)
    ensures b in Seen(cache, changes, l1, maxOffset, own) <==>
            (b in cache && b.header.beneficiary == own && b.header.timestamp + maxOffset >= l1 &&
             Survives(b, changes, 0)) ||
            AddedIn(b, changes)
    ensures b in Eligible(cache, changes, l1, maxOffset, own) <==>
            b in Seen(cache, changes, l1, maxOffset, own) && b.header.timestamp < l1
  {
    hide Retained, Changed, AddedIn, Survives;
    RetainedOrdered(cache, ValidFor(l1, maxOffset, own));
    ChangedMembers(Retained(cache, ValidFor(l1, maxOffset, own)), changes, b);
  }

  /** Undisturbed, a call leaves exactly the own blocks cached that are not too old, and considers exactly
      those of them that are older than the L1 slot. */
  lemma UndisturbedIff(cache: seq<Block>, l1: nat, maxOffset: nat, own: Address, b: Block)
    requires Ordered(cache)
    ensures b in Seen(cache, [], l1, maxOffset, own) <==>
            b in cache && b.header.beneficiary == own && b.header.timestamp + maxOffset >= l1
    ensures b in Eligible(cache, [], l1, maxOffset, own) <==>
            b in cache && b.header.beneficiary == own && l1 - maxOffset <= b.header.timestamp < l1
  {
    hide Retained;
    EligibleIff(cache, [], l1, maxOffset, own, b);
  }

  /** Every eligible block is own and inside the time window if and only if every older block is that
      was added between the pruning and the reading and is still there. */
  lemma EligibleValidIff(cache: seq<Block>, changes: seq<Change>, l1: nat, maxOffset: nat, own: Address)
    requires Ordered(cache)
    ensures (forall b | b in Eligible(cache, changes, l1, maxOffset, own) :: IsCurrent(b, l1, maxOffset, own)) <==>
            (forall b | AddedIn(b, changes) && b.header.timestamp < l1 :: IsCurrent(b, l1, maxOffset, own))
  {
    hide Retained, Changed, Survives, AddedIn;
    var keep := ValidFor(l1, maxOffset, own);
    RetainedOrdered(cache, keep);
    forall b
      ensures b in Seen(cache, changes, l1, maxOffset, own) <==>
              (b in Retained(cache, keep) && Survives(b, changes, 0)) || AddedIn(b, changes)
    {
      ChangedMembers(Retained(cache, keep), changes, b);
    }
  }

  /** Undisturbed, the batch consists of cached blocks, and is above the watermark if they are. */
  lemma UndisturbedBatch(cache: seq<Block>, watermark: Option<nat>, l1: nat, maxOffset: nat, own: Address,
                         maxBlocks: nat, force: bool, currentAnchor: nat)
    requires Ordered(cache) && Above(cache, watermark)
    requires Decision(Eligible(cache, [], l1, maxOffset, own), maxBlocks, force, currentAnchor).Submitted?
    ensures var batch := Decision(Eligible(cache, [], l1, maxOffset, own), maxBlocks, force, currentAnchor).batch;
            Ordered(batch) && Above(batch, watermark) &&
            forall b | b in batch ::
              b in cache && b.header.beneficiary == own && l1 - maxOffset <= b.header.timestamp < l1
  {
    SubmittedBatch(cache, [], l1, maxOffset, own, maxBlocks, force, currentAnchor);
  }

  /** Another node's block that arrives between the two waiting points is submitted as one's own. */
  lemma StrayBlockIsSubmitted() returns (stray: Block)
    ensures stray.header.beneficiary == 9
    ensures Decision(Eligible([], [Add(stray)], 10, 100, 7), 1, true, 0) == Submitted([stray], 0)
  {
    stray := Block(Header(1, 5, 9), [Tx(0, Some(0))]);
    assert Changed([], [Add(stray)][..0]) == [];
    assert Added([], stray) == [stray];
    assert Retained([stray], EarlierThan(10)) == [stray];
  }

  lemma NamesIff(b: Block, anchorId: nat)
    ensures Names(b, anchorId) <==> AnchorOf(b) == Ok(anchorId)
  {
  }

  /** A well-formed eligible list is withheld exactly when it is empty, or when it all shares the
      current anchor, is short, and sending is not forced. It never fails. */
  lemma WithheldIff(blocks: seq<Block>, maxBlocks: nat, force: bool, currentAnchor: nat)
    requires WellFormed(blocks)
    ensures !Decision(blocks, maxBlocks, force, currentAnchor).Failed?
    ensures Decision(blocks, maxBlocks, force, currentAnchor) == Nothing <==>
            |blocks| == 0 ||
            ((forall b | b in blocks :: Names(b, currentAnchor)) && |blocks| < maxBlocks && !force)
  {
    hide AnchorRun;
    if |blocks| > 0 {
      assert blocks[0] in blocks;
      var anchorId := AnchorOf(blocks[0]).value;
      var k := AnchorRun(blocks, 0, anchorId);
      forall b | b in blocks
        ensures AnchorOf(b).Ok? && (Names(b, anchorId) <==> AnchorOf(b) == Ok(anchorId))
        ensures Names(b, currentAnchor) <==> AnchorOf(b) == Ok(currentAnchor)
      {
        NamesIff(b, anchorId);
        NamesIff(b, currentAnchor);
      }
      if k < |blocks| {
        assert blocks[k] in blocks;
        assert !(forall b | b in blocks :: Names(b, currentAnchor));
      } else {
        assert forall i | 0 <= i < |blocks| :: AnchorOf(blocks[i]) == Ok(anchorId);
        assert forall b | b in blocks :: Names(b, anchorId);
      }
    }
  }

  /** A submitted batch keeps to `maxBlocks` exactly unless more blocks than that share the first anchor. */
  lemma BatchWithinLimitIff(blocks: seq<Block>, maxBlocks: nat, force: bool, currentAnchor: nat)
    requires Decision(blocks, maxBlocks, force, currentAnchor).Submitted?
    ensures var outcome := Decision(blocks, maxBlocks, force, currentAnchor);
            |outcome.batch| <= maxBlocks <==>
            !(|blocks| > maxBlocks && forall i | 0 <= i <= maxBlocks :: Names(blocks[i], outcome.anchorId))
  {
    hide AnchorRun;
    var outcome := Decision(blocks, maxBlocks, force, currentAnchor);
    var k, anchorId := AnchorRun(blocks, 0, AnchorOf(blocks[0]).value), outcome.anchorId;
    assert outcome.batch == blocks[..k];
    forall i | 0 <= i < |blocks|
      ensures Names(blocks[i], anchorId) <==> AnchorOf(blocks[i]) == Ok(anchorId)
    {
      NamesIff(blocks[i], anchorId);
    }
    assert forall i | 0 <= i < k :: Names(blocks[i], anchorId);
    assert k < |blocks| ==> !Names(blocks[k], anchorId);
  }

  /** Two blocks on the current anchor go out together although `maxBlocks` is one and nothing is forced. */
  lemma OversizedBatch() returns (blocks: seq<Block>)
    ensures |blocks| == 2 && Decision(blocks, 1, false, 0) == Submitted(blocks, 0)
  {
    var txs := [Tx(0, Some(0))];
    blocks := [Block(Header(1, 5, 7), txs), Block(Header(2, 6, 7), txs)];
    assert AnchorRun(blocks, 0, 0) == 2;
    assert blocks[..2] == blocks;
  }

  /** Block `k` has no readable anchor, and all blocks before it name the anchor of the first one. */
  ghost predicate FirstUnreadable(blocks: seq<Block>, k: nat, error: ConfirmationError) {
    k < |blocks| && Unreadable(blocks[k], error) &&
    forall j | 0 <= j < k :: |blocks[j].txs| > 0 && blocks[j].txs[0].anchorId.Some? &&
                             Names(blocks[0], blocks[j].txs[0].anchorId.value)
  }

  lemma UnreadableIff(b: Block, error: ConfirmationError)
    ensures Unreadable(b, error) <==> AnchorOf(b) == Err(error)
  {
  }

  lemma SameAnchors(blocks: seq<Block>, k: nat, anchorId: nat)
    requires k <= |blocks| && |blocks| > 0 && Names(blocks[0], anchorId)
    requires forall j | 0 <= j < k :: |blocks[j].txs| > 0 && blocks[j].txs[0].anchorId.Some? &&
                                      Names(blocks[0], blocks[j].txs[0].anchorId.value)
    ensures forall j | 0 <= j < k :: AnchorOf(blocks[j]) == Ok(anchorId)
  {
  }

  /** A call fails exactly when the first block that is not on the first block's anchor, or the
      first block itself, has no readable anchor; the error is that block's. */
  lemma FailsIff(blocks: seq<Block>, maxBlocks: nat, force: bool, currentAnchor: nat, error: ConfirmationError)
    ensures Decision(blocks, maxBlocks, force, currentAnchor) == Failed(error) <==>
            exists k: nat :: FirstUnreadable(blocks, k, error)
  {
    hide AnchorRun;
    if |blocks| > 0 {
      var k := if AnchorOf(blocks[0]).Err? then 0 else AnchorRun(blocks, 0, AnchorOf(blocks[0]).value);
      FailsAt(blocks, k, error);
    }
  }

  /** The only block that can be the first unreadable one is the first that is not on the first anchor. */
  lemma FailsAt(blocks: seq<Block>, k: nat, error: ConfirmationError)
    requires |blocks| > 0 && k <= |blocks|
    requires if AnchorOf(blocks[0]).Err? then k == 0
             else
               (forall j | 0 <= j < k :: AnchorOf(blocks[j]) == AnchorOf(blocks[0])) &&
               (k < |blocks| ==> AnchorOf(blocks[k]) != AnchorOf(blocks[0]))
    ensures (exists i: nat :: FirstUnreadable(blocks, i, error)) <==> k < |blocks| && AnchorOf(blocks[k]) == Err(error)
  {
    forall i: nat | FirstUnreadable(blocks, i, error)
      ensures i == k && AnchorOf(blocks[i]) == Err(error)
    {
      UnreadableIff(blocks[i], error);
      if AnchorOf(blocks[0]).Ok? {
        SameAnchors(blocks, i, AnchorOf(blocks[0]).value);
      }
    }
    if k < |blocks| && AnchorOf(blocks[k]) == Err(error) {
      UnreadableIff(blocks[k], error);
      assert FirstUnreadable(blocks, k, error);
    }
  }
}
