/** Select, post, confirm, prune - repeated. One round runs the confirmation strategy, the batch
    encoder, the inbox's record, the check of that record and the head stream's confirmation step. */
module Drain {
  import opened Addresses
  import opened BatchEncoding
  import opened BlobLayout
  import opened Blocks
  import opened Confirmation
  import opened Wrappers
  import opened Verification
  import HeadStream

  type State = HeadStream.State

  /** What stays fixed while the cache drains. The inbox's own numbers for a batch depend on its
      last block. */
  datatype Setup = Setup(
    crypto: Crypto,
    useBlobs: bool,
    own: Address,
    l1: nat,
    maxOffset: nat,
    maxBlocks: nat,
    currentAnchor: nat,
    batchId: nat -> nat,
    facts: nat -> L1Facts)

  /** The transactions of some blocks compress and, if blobs are used, fill some but not too many. */
  ghost predicate Fits(setup: Setup, blocks: seq<Block>)
    requires HasAnchors(blocks)
  {
    var compressed := setup.crypto.compress(FlatTxs(blocks));
    compressed.Some? &&
    (setup.useBlobs ==> |compressed.value| > 0 && |BlobsOf(compressed.value)| <= 255)
  }

  /** Any run of consecutive blocks can be posted. */
  ghost predicate CanPost(setup: Setup, blocks: seq<Block>) {
    forall i, j | 0 <= i < j <= |blocks| && HasAnchors(blocks[i..j]) :: Fits(setup, blocks[i..j])
  }

  function Kept(s: State, setup: Setup): seq<Block> {
    Retained(s.cache, ValidFor(setup.l1, setup.maxOffset, setup.own))
  }

  function ToSend(s: State, setup: Setup): seq<Block> {
    Eligible(s.cache, [], setup.l1, setup.maxOffset, setup.own)
  }

  /** Consecutive numbers right after the confirmed block. */
  ghost predicate Contiguous(blocks: seq<Block>, confirmed: nat) {
    forall i | 0 <= i < |blocks| :: blocks[i].header.number == confirmed + 1 + i
  }

  ghost predicate TimesAscend(blocks: seq<Block>) {
    forall i, j | 0 <= i < j < |blocks| :: blocks[i].header.timestamp <= blocks[j].header.timestamp
  }

  /** A running stream whose own, current blocks follow the confirmed one without a gap, in time
      order, each with a readable anchor. */
  ghost predicate Ready(s: State, setup: Setup) {
    CanPost(setup, Kept(s, setup)) && s.confirmed.Some? && !s.ended &&
    Contiguous(Kept(s, setup), s.confirmed.value) && TimesAscend(Kept(s, setup)) && WellFormed(Kept(s, setup))
  }

  function KeepAll(): Keep { (b: Block) => true }

  /** The inbox numbers the blocks of a batch from its last block on. */
  function LastBlockId(s: State, taken: seq<Block>): nat {
    s.confirmed.GetOr(0) + |taken|
  }

  /** What a forced call decides. */
  function Sent(s: State, setup: Setup): Outcome {
    Decision(ToSend(s, setup), setup.maxBlocks, true, setup.currentAnchor)
  }

  /** The state after the posted part of a batch is recorded, announced and checked. */
  function Confirm(s: State, batch: seq<Block>, anchorId: nat, setup: Setup): State
    requires |batch| > 0 && HasAnchors(Taken(batch))
  {
    var pruned, record := s.(cache := Kept(s, setup)), RecordOf(s, batch, anchorId, setup);
    if record.None? then pruned
    else HeadStream.AfterConfirmed(pruned, record.value.lastBlockId, CheckedBy(record.value, setup)).state
  }

  /** What the inbox records of a posted batch. */
  function RecordOf(s: State, batch: seq<Block>, anchorId: nat, setup: Setup): Option<Batch>
    requires |batch| > 0 && HasAnchors(Taken(batch))
  {
    var proposal := Propose(setup.crypto, batch, anchorId, setup.own, setup.useBlobs);
    if proposal.None? then None
    else
      var id := LastBlockId(s, Taken(batch));
      Some(Recorded(setup.crypto, proposal.value, setup.batchId(id), id, setup.facts(id)))
  }

  /** Nobody else touches the cache, and the verdict is the check of the record. */
  function CheckedBy(record: Batch, setup: Setup): HeadStream.ConfirmEnv {
    var verify := (blocks: seq<Block>) =>
      VerifyLastBatch(setup.crypto, record, setup.facts(record.lastBlockId), setup.useBlobs, blocks);
    HeadStream.ConfirmEnv(verify, None, KeepAll(), KeepAll(), KeepAll())
  }

  // ---- one round -----------------------------------------------------------------------------

  /** In time order, the blocks older than the slot come first. */
  lemma {:induction false} EarlierIsPrefix(blocks: seq<Block>, l1: nat)
    requires TimesAscend(blocks)
    ensures Retained(blocks, EarlierThan(l1)) <= blocks
    ensures var n := |Retained(blocks, EarlierThan(l1))|;
            n < |blocks| ==> blocks[n].header.timestamp >= l1
  {
    if |blocks| > 0 {
      var front, last := blocks[..|blocks| - 1], blocks[|blocks| - 1];
      EarlierIsPrefix(front, l1);
      assert blocks == front + [last];
      var n := |Retained(front, EarlierThan(l1))|;
      if n < |front| {
        assert front[n].header.timestamp <= last.header.timestamp;
      }
    }
  }

  /** Pruning by number splits a contiguous list by position. */
  lemma ContiguousSplit(blocks: seq<Block>, confirmed: nat, k: nat)
    requires Contiguous(blocks, confirmed) && k <= |blocks|
    ensures Retained(blocks, NumberAtMost(confirmed + k)) == blocks[..k]
    ensures Retained(blocks, NumberAbove(confirmed + k)) == blocks[k..]
  {
    ContiguousOrdered(blocks, confirmed);
    RetainedOrdered(blocks, NumberAtMost(confirmed + k));
    RetainedOrdered(blocks, NumberAbove(confirmed + k));
    OrderedUnique(Retained(blocks, NumberAtMost(confirmed + k)), blocks[..k]);
    OrderedUnique(Retained(blocks, NumberAbove(confirmed + k)), blocks[k..]);
  }

  lemma ContiguousOrdered(blocks: seq<Block>, confirmed: nat)
    requires Contiguous(blocks, confirmed)
    ensures Ordered(blocks)
  {
  }

  /** A forced call on a non-empty, well-formed list submits a leading part of it. */
  lemma ForcedCallSubmits(s: State, setup: Setup)
    requires Ready(s, setup) && |ToSend(s, setup)| > 0
    ensures Sent(s, setup).Submitted?
    ensures 0 < |Sent(s, setup).batch| && Sent(s, setup).batch <= ToSend(s, setup) <= Kept(s, setup)
    ensures forall b | b in Sent(s, setup).batch :: Names(b, Sent(s, setup).anchorId)
    ensures Sent(s, setup).batch[0].header.beneficiary == setup.own
  {
    hide Retained, AnchorRun;
    var eligible := ToSend(s, setup);
    EarlierIsPrefix(Kept(s, setup), setup.l1);
    assert eligible[0] in Kept(s, setup);
    assert forall b | b in eligible :: AnchorOf(b).Ok?;
    WithheldIff(eligible, setup.maxBlocks, true, setup.currentAnchor);
    var batch := Sent(s, setup).batch;
    assert |batch| > 0 by {
      assert AnchorOf(eligible[0]) == Ok(AnchorOf(eligible[0]).value);
    }
    assert forall b | b in batch :: b in eligible;
  }

  /** Confirming the first `k` kept blocks leaves the others. */
  lemma ConfirmationLeavesRest(s: State, setup: Setup, k: nat, env: HeadStream.ConfirmEnv)
    requires Ready(s, setup) && 0 < k <= |Kept(s, setup)|
    requires env.beforeVerify == env.beforeUpdate == env.afterUpdate == KeepAll()
    requires env.verify(Kept(s, setup)) == Some(true)
    ensures var pruned, id := s.(cache := Kept(s, setup)), s.confirmed.value + k;
            HeadStream.AfterConfirmed(pruned, id, env).state
            == HeadStream.State(Kept(s, setup)[k..], Some(id), false, false)
  {
    hide Kept, Retained, Fits;
    var kept := Kept(s, setup);
    RetainedAll(kept, KeepAll());
    ContiguousSplit(kept, s.confirmed.value, k);
    RetainedAll(kept[k..], KeepAll());
  }

  lemma RestKept(s: State, setup: Setup, k: nat, next: State)
    requires Ready(s, setup) && 0 < k <= |Kept(s, setup)|
    requires next == HeadStream.State(Kept(s, setup)[k..], Some(s.confirmed.value + k), false, false)
    ensures Kept(next, setup) == next.cache && Ready(next, setup)
  {
    hide Retained, Fits;
    var kept := Kept(s, setup);
    assert forall b | b in kept[k..] :: b in kept;
    RetainedAll(kept[k..], ValidFor(setup.l1, setup.maxOffset, setup.own));
    RestCanPost(setup, kept, k);
  }

  lemma RestCanPost(setup: Setup, blocks: seq<Block>, k: nat)
    requires CanPost(setup, blocks) && k <= |blocks|
    ensures CanPost(setup, blocks[k..])
  {
    hide Fits;
    forall i, j | 0 <= i < j <= |blocks| - k && HasAnchors(blocks[k..][i..j]) ensures Fits(setup, blocks[k..][i..j]) {
      assert blocks[k..][i..j] == blocks[k + i..k + j];
    }
  }

  lemma RestEligible(blocks: seq<Block>, l1: nat, k: nat)
    requires TimesAscend(blocks) && k <= |Retained(blocks, EarlierThan(l1))|
    ensures Retained(blocks, EarlierThan(l1)) <= blocks
    ensures Retained(blocks[k..], EarlierThan(l1)) == Retained(blocks, EarlierThan(l1))[k..]
  {
    hide Retained;
    EarlierIsPrefix(blocks, l1);
    assert blocks == blocks[..k] + blocks[k..];
    RetainedConcat(blocks[..k], blocks[k..], EarlierThan(l1));
    assert forall b | b in blocks[..k] :: b in Retained(blocks, EarlierThan(l1));
    RetainedAll(blocks[..k], EarlierThan(l1));
  }

  /** The rest is ready again, and what is to be sent shrinks by what was posted. */
  lemma RestIsReady(s: State, setup: Setup, k: nat, next: State)
    requires Ready(s, setup) && 0 < k <= |ToSend(s, setup)|
    requires next == HeadStream.State(Kept(s, setup)[k..], Some(s.confirmed.value + k), false, false)
    ensures Ready(next, setup) && Kept(next, setup) == next.cache
    ensures ToSend(s, setup) <= Kept(s, setup) && ToSend(next, setup) == ToSend(s, setup)[k..]
  {
    hide Retained;
    RestKept(s, setup, k, next);
    RestEligible(Kept(s, setup), setup.l1, k);
  }

  /** What a forced call submits, as far as the encoder takes it, is a leading part of the kept blocks. */
  lemma RoundTakes(s: State, setup: Setup)
    requires Ready(s, setup) && |ToSend(s, setup)| > 0
    ensures var sent := Sent(s, setup);
            sent.Submitted? && |sent.batch| > 0 && sent.batch[0].header.beneficiary == setup.own &&
            var taken := Taken(sent.batch);
            0 < |taken| && taken <= ToSend(s, setup) <= Kept(s, setup) && HasAnchors(taken) && Fits(setup, taken) &&
            (forall b | b in taken :: Names(b, sent.anchorId)) &&
            taken[|taken| - 1].header.number == s.confirmed.value + |taken| &&
            Retained(Kept(s, setup), NumberAtMost(s.confirmed.value + |taken|)) == taken
  {
    hide Retained, Decision, Fits, Kept, ToSend, Sent;
    ForcedCallSubmits(s, setup);
    var batch := Sent(s, setup).batch;
    var taken := Taken(batch);
    TakenIsLongest(batch);
    assert forall b | b in taken :: b in batch;
    ContiguousSplit(Kept(s, setup), s.confirmed.value, |taken|);
    assert Kept(s, setup)[0..|taken|] == Kept(s, setup)[..|taken|] == taken;
  }

  /** One round posts a non-empty leading part of the eligible blocks, the inbox records it with its own
      anchor, last number and last time, the check accepts it, and exactly that part leaves the cache. */
  lemma RoundPosts(s: State, setup: Setup)
    requires Ready(s, setup) && |ToSend(s, setup)| > 0
    ensures var sent := Sent(s, setup);
            sent.Submitted? && |sent.batch| > 0 && HasAnchors(Taken(sent.batch)) &&
            var taken, next := Taken(sent.batch), Confirm(s, sent.batch, sent.anchorId, setup);
            var record := RecordOf(s, sent.batch, sent.anchorId, setup);
            0 < |taken| && taken <= ToSend(s, setup) <= Kept(s, setup) &&
            record.Some? && record.value.lastBlockId == taken[|taken| - 1].header.number &&
            record.value.lastBlockTimestamp == taken[|taken| - 1].header.timestamp &&
            (forall b | b in taken :: Names(b, record.value.anchorBlockId)) &&
            next == HeadStream.State(Kept(s, setup)[|taken|..], Some(s.confirmed.value + |taken|), false, false) &&
            Ready(next, setup) && ToSend(next, setup) == ToSend(s, setup)[|taken|..]
  {
    hide Retained, Taken, Fits, Kept, ToSend, Sent, Propose, Recorded, VerifyLastBatch, HeadStream.AfterConfirmed;
    RoundTakes(s, setup);
    var sent := Sent(s, setup);
    var taken := Taken(sent.batch);
    var id := LastBlockId(s, taken);
    ProposalExists(sent.batch, sent.anchorId, setup);
    var proposal := Propose(setup.crypto, sent.batch, sent.anchorId, setup.own, setup.useBlobs).value;
    HonestBatchVerifies(setup.crypto, sent.batch, sent.anchorId, setup.useBlobs, setup.batchId(id), id,
                        setup.facts(id), Kept(s, setup));
    var record := Recorded(setup.crypto, proposal, setup.batchId(id), id, setup.facts(id));
    RecordedAs(setup.crypto, sent.batch, sent.anchorId, setup.own, setup.useBlobs, setup.batchId(id), id,
               setup.facts(id));
    ConfirmationLeavesRest(s, setup, |taken|, CheckedBy(record, setup));
    RestIsReady(s, setup, |taken|, Confirm(s, sent.batch, sent.anchorId, setup));
  }

  lemma ProposalExists(batch: seq<Block>, anchorId: nat, setup: Setup)
    requires |batch| > 0 && HasAnchors(Taken(batch)) && Fits(setup, Taken(batch))
    ensures var proposal := Propose(setup.crypto, batch, anchorId, setup.own, setup.useBlobs);
            proposal.Some? && |proposal.value.blobs| <= 255
    ensures setup.useBlobs ==> setup.crypto.compress(FlatTxs(Taken(batch))) != Some([])
  {
    hide BlobsOf, FlatTxs;
  }

  // ---- until nothing is left to send ---------------------------------------------------------

  datatype Drained = Drained(batches: seq<seq<Block>>, state: State)

  /** Forced rounds until nothing is eligible. Each round takes at least one block off the cache. */
  function DrainAll(s: State, setup: Setup): Drained
    requires Ready(s, setup)
    decreases |ToSend(s, setup)|
  {
    if |ToSend(s, setup)| == 0 then Drained([], s)
    else
      RoundPosts(s, setup);
      var sent := Sent(s, setup);
      var rest := DrainAll(Confirm(s, sent.batch, sent.anchorId, setup), setup);
      Drained([Taken(sent.batch)] + rest.batches, rest.state)
  }

  function Concat(batches: seq<seq<Block>>): seq<Block> {
    if |batches| == 0 then [] else batches[0] + Concat(batches[1..])
  }

  /** The posted batches, put together in order, are exactly the eligible blocks; afterwards nothing
      is eligible, the confirmed id has moved past them, and the other kept blocks are still there. */
  lemma {:induction false} DrainPartitions(s: State, setup: Setup)
    requires Ready(s, setup)
    ensures var drained := DrainAll(s, setup);
            Concat(drained.batches) == ToSend(s, setup) &&
            ToSend(s, setup) <= Kept(s, setup) &&
            ToSend(drained.state, setup) == [] &&
            drained.state.confirmed == Some(s.confirmed.value + |ToSend(s, setup)|) &&
            Kept(drained.state, setup) == Kept(s, setup)[|ToSend(s, setup)|..]
    decreases |ToSend(s, setup)|
  {
    hide Kept, ToSend, Confirm, Sent, Taken;
    if |ToSend(s, setup)| == 0 {
      NothingToSend(s, setup);
    } else {
      RoundPosts(s, setup);
      var sent := Sent(s, setup);
      var taken, next := Taken(sent.batch), Confirm(s, sent.batch, sent.anchorId, setup);
      DrainPartitions(next, setup);
      assert ToSend(s, setup) == taken + ToSend(s, setup)[|taken|..];
      RestKept(s, setup, |taken|, next);
    }
  }

  lemma NothingToSend(s: State, setup: Setup)
    requires Ready(s, setup) && |ToSend(s, setup)| == 0
    ensures ToSend(s, setup) <= Kept(s, setup) && Kept(s, setup) == Kept(s, setup)[0..]
  {
  }

  /** Behind a leading part that holds every block older than the slot, the others are not. */
  lemma RestNotEarlier(blocks: seq<Block>, sent: seq<Block>, l1: nat, b: Block)
    requires Ordered(blocks) && sent <= blocks && sent == Retained(blocks, EarlierThan(l1))
    ensures b in blocks[|sent|..] <==> b in blocks && b.header.timestamp >= l1
  {
    hide Retained;
    assert blocks == sent + blocks[|sent|..] && sent == blocks[..|sent|];
    PartsDisjoint(blocks, |sent|);
  }

  lemma PartsDisjoint(blocks: seq<Block>, n: nat)
    requires Ordered(blocks) && n <= |blocks|
    ensures forall b | b in blocks[n..] :: b !in blocks[..n]
  {
  }

  /** What is posted until nothing is left, in plain terms: exactly the own cached blocks inside the time
      window, in the order of their numbers; the own ones of the running slot or later stay cached. */
  lemma DrainPosts(s: State, setup: Setup)
    requires Ready(s, setup)
    ensures var drained := DrainAll(s, setup);
            Ordered(Concat(drained.batches)) &&
            (forall b :: b in Concat(drained.batches) <==>
               b in s.cache && b.header.beneficiary == setup.own &&
               setup.l1 - setup.maxOffset <= b.header.timestamp < setup.l1) &&
            (forall b :: b in Kept(drained.state, setup) <==>
               b in s.cache && b.header.beneficiary == setup.own && setup.l1 <= b.header.timestamp)
  {
    hide Retained, DrainAll, Concat, TimesAscend, CanPost, WellFormed, Contiguous;
    DrainPartitions(s, setup);
    ContiguousOrdered(Kept(s, setup), s.confirmed.value);
    forall b
      ensures b in Kept(s, setup)[|ToSend(s, setup)|..] <==> b in Kept(s, setup) && b.header.timestamp >= setup.l1
    {
      RestNotEarlier(Kept(s, setup), ToSend(s, setup), setup.l1, b);
    }
    RetainedOrdered(Kept(s, setup), EarlierThan(setup.l1));
  }
}
