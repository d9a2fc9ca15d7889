# Preconfirmation node

A Dafny model of the Taiko preconfirmation node and proofs about it. A node does four things that
have to fit together:

* it packs compressed transactions into **blobs** that a rollup reader can decode again;
* it keeps a **cache of unconfirmed L2 blocks** and an **L2-head stream** that follows L2 blocks and L1
  confirmations through reorgs;
* it selects cached blocks, **posts them as a batch**, and checks that the batch L1 recorded is what it has
  in its cache;
* it takes part in an **operator handover**: per epoch one whitelisted operator builds, and in the last
  slots of an epoch (the handover window) the next one already does.

## How it is organised

| files | content |
|---|---|
| `TopBytes`, `FieldElements`, `BlobLayout` | bytes and masks, the field-element bound, the blob layout in closed form and its decoder |
| `BlobCodec`, `BlobRoundTrip` | the encoder with its cursors and arrays; what decoding gives back, exactly |
| `Blocks`, `TxCache` | ordered block lists; the cache and the map it refines |
| `HeadStream`, `HeadStreamProofs`, `Outcomes` | the event loop; its invariant and its output over all runs; one event in plain terms |
| `Repair`, `CachedBlocks`, `Contiguity` | what a reorg repair leaves, exactly; what kind of blocks get cached; when there is no gap |
| `BatchEncoding`, `Verification`, `PostedBatch`, `MissedBatches` | the two batch encoders; proposal, record and check; reading a posted batch back; batches that are not checked |
| `Confirmation`, `Interference`, `Drain` | batch selection; selecting while the stream runs; repeated rounds until the cache is drained |
| `Slots`, `Whitelist` | slot arithmetic; the whitelist monitor |
| `Handover`, `Ticks`, `HandoverProofs`, `Coverage`, `Waiting`, `MissedEpochs` | both loops, one iteration a tick; the tick in plain counts; mutual exclusion; coverage; when the wait begins; what missed epoch starts do |

Code that changes state in the repository is a class or a loop here, and each of its methods is proved to
do what a function on values says. The properties are then lemmas about those functions.
`dafny verify dfyconfig.toml` checks everything.

## What the proofs bring to light

* **The last bytes of a blob can be lost.** The first round carries 123 data bytes and later ones 127, but
  the round count is `len / 127 + 1` (`preconfirmation/src/blob.rs:83`). When `len % 127` is 124, 125 or 126
  the last one to three bytes are never read and come back as zeros (`BlobRoundTripsIff`). Rounding
  `(len + 4) / 127` up would lose nothing (`EnoughRoundsAreLossless`).
* **`add_block` stores empty blocks.** Its warning says they are ignored
  (`preconfirmation/src/tx_cache.rs:24-26`), but nothing skips them. The stream drops empty incoming blocks;
  an empty answer during a repair is cached (`EmptyBlockIsCached`), and that is the only way
  (`EmptyBlocksIff`).
* **A failing fetch during a repair leaves the old block of that number in the cache**
  (`FailedFetchLeavesStale`). The repair is exact if and only if that block is the chain's anyway
  (`RepairExact`, and `RepairExactIff` under concurrent pruning).
* **`max_blocks` is a threshold**, not an upper bound on the size of a batch (`OversizedBatch`);
  `BatchWithinLimitIff` says when it is kept to.
* **A block that arrives while `send` is between pruning and reading the cache escapes its owner and age
  filter** (`preconfirmation/src/preconf/confirmation_strategy.rs:73-80`, `StrayBlockIsSubmitted`);
  `EligibleValidIff` says exactly when.
* **The wait for the previous preconfer never begins after the startup epoch**, in any configuration
  (`taiko-preconfer/src/preconfirmation_loop.rs:107`, `WaitBeginsIff`). It needs the first slot of the window
  and the first subslot of the epoch at once, so a window as long as the epoch; but then no slot is the last
  one before the window, and no later operator is ever read.
* **A batch that is confirmed unnoticed clears the cache.** Only the latest batch is checked, against all cached
  blocks up to its last one. If the stream hears of two own batches at once the counts differ, the check fails
  and the cache is cleared although the chain agrees (`CheckPassesIff`, `MissedBatchClearsCache`,
  `SecondBatchClearsCache`).
* **Mutual exclusion depends on the first iterations of the epochs.** They drop past entries; only a
  successful read in the last slot before the window also does. A node that misses one can build in somebody
  else's slot (`MissedEpochStartTrespasses`); `TrespassIff` says exactly when, and
  `OneBuilderDespiteMisses` which misses are harmless. Sending is more robust: it takes
  missing the first slots of two epochs in a row (`SendTrespassIff`, `OneSenderPerSlot`,
  `MissedTwoStartsTrespasses`).

## Assumptions

* The release build is modelled (`Dockerfile:6`), so the narrow arithmetic of the batch encoders wraps.
  Other numbers are naturals.
* `get_block(Some(id))` returns block `id` or fails (`HonestResync`, `Honest` in `HeadStreamProofs`).
* The initial cache is ordered and above the confirmed id, as `taiko-preconfer/src/main.rs:200-227` builds it.
* Other tasks touch the stream's cache only by `retain`. They may do so between two events and at every point
  where the stream waits; only `RepairExact` asks that they do not while the block is handled.
* The whitelist is one function from epochs to addresses, and a successful read returns its value for the
  epoch it is asked about. Mutual exclusion allows any read to fail; coverage needs both reads of the
  startup and one per later epoch.
* An epoch is a whole number of L1 slots, the configured one (`taiko-preconfer/src/main.rs:143-147`), and an
  L1 slot a whole number of L2 slots; the handover window is not longer than the epoch.
* What the inbox records of a proposal is stated in `Verification.Recorded`. The inbox contract is not part
  of this model.
* For `Drain`: sending is forced, the L1 time and the anchor are fixed, no blocks arrive, the own blocks are
  contiguous above the confirmed one and in time order, each has a readable anchor, and their transactions
  compress and, if blobs are used, fit 255 of them. Contiguity and anchors follow from what the stream is given
  (`RunIsReady`).

## Model

| member | source | states |
|---|---|---|
| BlobCodec.ByteWriter.Write | preconfirmation/src/blob.rs:28-31 | the 32 bytes at the cursor become the word, every other byte of the blob is unchanged, the cursor moves by 32 |
| BlobCodec.ByteReader.ReadByte | preconfirmation/src/blob.rs:49-57 | the byte at the cursor, or 0 past the end; the cursor moves even past the end |
| BlobCodec.ByteReader.ReadBytes | preconfirmation/src/blob.rs:59-70 | the buffer holds the next data bytes followed by zeros; the cursor moves by what was there to read and not at all once the data is exhausted |
| BlobCodec.WriteVersionAndDataSize | preconfirmation/src/blob.rs:146-152 | version byte and 24-bit big-endian size in the four bytes behind the top byte |
| BlobCodec.EncodeRound | preconfirmation/src/blob.rs:84-106 | one pass of the loop extends a blob that holds `idx` rounds of the payload to one that holds `idx + 1`, and touches nothing outside its 128 bytes |
| BlobCodec.CreateBlob | preconfirmation/src/blob.rs:73-109 | the blob filled in place by the two cursors is the closed-form layout of header and data, for data of any length |
| BlobCodec.TxBytesToBlobs | preconfirmation/src/blob.rs:111-117 | one laid-out blob per piece of 130044 bytes, in order |
| TopBytes.TopXIsMask | preconfirmation/src/blob.rs:90-100 | the layout's first and third top byte are the low six bits of their spread byte |
| TopBytes.TopXYIsMask | preconfirmation/src/blob.rs:95-95 | the second top byte is the masked and shifted combination of two spread bytes |
| TopBytes.TopYZIsMask | preconfirmation/src/blob.rs:104-104 | the same for the fourth top byte |
| TopBytes.SpreadBytesRejoin | preconfirmation/src/blob.rs:89-104 | the three bytes that a round spreads over its four top bytes can be put together again, for all values |
| BlobRoundTrip.StoredByteOfEncoded | preconfirmation/src/blob.rs:83-106 | every payload position inside the rounds that ran reads back as what was written |
| BlobRoundTrip.SizeSurvives | preconfirmation/src/blob.rs:79-79 | version and size read back from every blob whose data fit one blob |
| BlobRoundTrip.BlobIsCanonical | preconfirmation/src/blob.rs:73-109 | for data of any length the blob has 131072 bytes, all 4096 words are below 2^254, hence below BLS_MODULUS (Parameters section of EIP-4844), and every byte past the last round is zero |
| BlobRoundTrip.RestIsZero | preconfirmation/src/blob.rs:59-70 | behind the data every payload position of the rounds that ran is zero |
| BlobRoundTrip.BlobDecodes | preconfirmation/src/blob.rs:73-109 | decoding a blob gives its data with exactly the last `len % 127 - 123` bytes replaced by zeros when `len % 127` exceeds 123, and all of it otherwise |
| BlobRoundTrip.BlobRoundTripsIff | preconfirmation/src/blob.rs:83-83 | a blob decodes to its data if and only if `len % 127 <= 123` or the bytes that the round count skips are zero anyway |
| BlobRoundTrip.RoundTripFailsFor124 | preconfirmation/src/blob.rs:83-83 | a concrete input that does not come back: 124 ones |
| BlobRoundTrip.EnoughRoundsAreLossless | preconfirmation/src/blob.rs:83-83 | with `ceil((len + 4) / 127)` rounds instead, every length up to 130044 fits the 1024 rounds and decodes to itself |
| BlobRoundTrip.ChunkCount | preconfirmation/src/blob.rs:111-117 | a payload is cut into `ceil(len / 130044)` pieces |
| BlobRoundTrip.BlobsDecode | preconfirmation/src/blob.rs:111-117 | the decoded blobs of a payload, concatenated, are the payload with at most the last bytes of its last piece blanked |
| BlobRoundTrip.BlobsRoundTripIff | preconfirmation/src/blob.rs:111-117 | a non-empty payload fills `ceil(len / 130044)` blobs and comes back from them if and only if its last piece meets the single-blob condition |
| Cache.TxCache.AddBlock | preconfirmation/src/tx_cache.rs:23-37 | find-replace or push, then the sort, leave the specified list; an empty block is stored like any other |
| Cache.SortStable | preconfirmation/src/tx_cache.rs:36-36 | the sort, on any list: numbers do not decrease afterwards and blocks of one number keep their order |
| Cache.TxCache.Retain | preconfirmation/src/tx_cache.rs:39-41 | the blocks that satisfy the predicate stay, in their order |
| Cache.TxCache.Clear | preconfirmation/src/tx_cache.rs:43-45 | nothing stays |
| Cache.AddedIsMapUpdate | preconfirmation/src/tx_cache.rs:23-37 | on distinct numbers, adding a block is the update of a map from numbers to blocks, and the list ends up strictly ordered |
| Cache.AddedSplices | preconfirmation/src/tx_cache.rs:23-37 | on an ordered cache, the result is what was below the number, the block, and what was above it |
| Cache.RetainedIsMapFilter | preconfirmation/src/tx_cache.rs:39-41 | on distinct numbers, in any order, retaining keeps them distinct and is filtering the map |
| Cache.MapDeterminesCache | preconfirmation/src/tx_cache.rs:19-21 | the list is the map's values in key order: no other ordered list has the same map |
| Blocks.RetainedTwice | preconfirmation/src/tx_cache.rs:39-41 | two consecutive prunings are one with both predicates, so prunings by several tasks compose |
| HeadStream.L2HeadStream.OnUnconfirmed | preconfirmation/src/stream/l2_head_info_stream.rs:82-133 | handling a block yields and leaves exactly what the specification says, whatever other tasks prune at each waiting point |
| HeadStream.L2HeadStream.Resync | preconfirmation/src/stream/l2_head_info_stream.rs:107-130 | the repair as it runs: latest block, re-fetch loop, final pruning |
| HeadStream.L2HeadStream.FetchRange | preconfirmation/src/stream/l2_head_info_stream.rs:115-122 | the re-fetch loop: a failing fetch is skipped and leaves the cached block of that number |
| HeadStream.L2HeadStream.OnConfirmed | preconfirmation/src/stream/l2_head_info_stream.rs:134-154 | the confirmation branch: first confirmation unchecked, prune on success, clear on failure, end on an error |
| HeadStream.L2HeadStream.Consume | preconfirmation/src/stream/l2_head_info_stream.rs:80-156 | the whole event loop over any list of events ends in the state of the specified run and yields exactly its headers, in order |
| HeadStreamProofs.StepKeeps | preconfirmation/src/stream/l2_head_info_stream.rs:80-156 | one event, with any concurrent pruning: the cache stays strictly ordered and above the watermark, the watermark stays or strictly rises, no yielded header is below it |
| HeadStreamProofs.RunKeeps | preconfirmation/src/stream/l2_head_info_stream.rs:76-156 | the invariant holds in every state of every run |
| HeadStreamProofs.WatermarkOnlyRises | preconfirmation/src/stream/l2_head_info_stream.rs:134-149 | between any two points of any run the confirmed id is the same or strictly larger |
| HeadStreamProofs.HeadsAreSafe | preconfirmation/src/stream/l2_head_info_stream.rs:88-152 | cut the output of any run at any point: everything yielded after the cut is at or above the id confirmed there, and what an event itself yields is at or above the id confirmed after it |
| HeadStreamProofs.FetchedAscend | preconfirmation/src/stream/l2_head_info_stream.rs:115-122 | the re-fetched headers have strictly ascending numbers, whatever fetches fail |
| Outcomes.ConfirmationLeaves | preconfirmation/src/stream/l2_head_info_stream.rs:136-149 | what a confirmation leaves, member by member: nothing changes if the id is not new; without a verdict the stream ends; with a good one the spared blocks above the id stay; with a bad one none |
| Outcomes.ConfirmationEmits | preconfirmation/src/stream/l2_head_info_stream.rs:139-152 | a confirmation emits the header of the confirmed block if the check fails and the block can be read, and nothing in every other case |
| Outcomes.ForeignBatchKeepsCache | preconfirmation/src/verification.rs:73-79 | if every cached block is above the batch, an undisturbed confirmation keeps the whole cache and emits nothing |
| Outcomes.ArrivalEmits | preconfirmation/src/stream/l2_head_info_stream.rs:84-127 | a block that is empty, or below the confirmed one, changes and emits nothing; any other is the first header emitted, followed only by higher ascending ones |
| Outcomes.ArrivalCaches | preconfirmation/src/stream/l2_head_info_stream.rs:87-101 | undisturbed, such a block is cached if and only if it is not the confirmed one, and without a higher one all others stay |
| Repair.RepairMembers | preconfirmation/src/stream/l2_head_info_stream.rs:112-129 | the members of the cache after a repair, with any fetches failing and any concurrent pruning: answers where a fetch succeeded, the old block where it failed, as far as they are spared |
| Repair.RepairExactIff | preconfirmation/src/stream/l2_head_info_stream.rs:112-129 | with answers from one chain, the repaired cache above `n` is exactly the chain up to its head if and only if each of its blocks was fetched, or cached before, and spared by concurrent pruning |
| Repair.RepairSoundIff | preconfirmation/src/stream/l2_head_info_stream.rs:112-129 | no stale block is left above `n` if and only if none was cached, and spared, where a fetch failed; with every fetch answering none is, whatever other tasks prune |
| Repair.RepairExact | preconfirmation/src/stream/l2_head_info_stream.rs:87-130 | undisturbed, the cache is what was below the arriving block, that block if above the watermark, and exactly the chain up to its head, if and only if the chain's block was already cached wherever a fetch fails; the headers of all of them are yielded in order if and only if no fetch fails |
| Repair.FailedFetchLeavesStale | preconfirmation/src/stream/l2_head_info_stream.rs:115-122 | a concrete repair: with 5, 6 and 7 cached, a new 5, a head 7 and no answer for 6, the old 6 stays |
| Repair.RepairFallsBack | preconfirmation/src/stream/l2_head_info_stream.rs:107-130 | if the latest block cannot be read or is not above the arriving one, nothing above the arriving one remains, whatever other tasks prune, and of the rest exactly what they spare |
| CachedBlocks.StepHas | preconfirmation/src/stream/l2_head_info_stream.rs:82-133 | a property of the cached blocks is kept by every event whose block and answers have it |
| CachedBlocks.EmptyBlocksIff | preconfirmation/src/tx_cache.rs:24-36 | handling a block leaves an empty block in a cache without one if and only if a repair to a higher block takes place and stores an empty answer |
| CachedBlocks.EmptyBlockIsCached | preconfirmation/src/tx_cache.rs:24-36 | a concrete repair whose head is an empty block, which ends up cached |
| CachedBlocks.RunHasAnchors | preconfirmation/src/stream/l2_head_info_stream.rs:84-124 | in every state of a run without empty answers every cached block has an anchor transaction |
| CachedBlocks.CheckDecides | preconfirmation/src/verification.rs:60-108 | after such a run the check of the latest batch has no verdict if and only if the transactions do not compress |
| CachedBlocks.RunIsWellFormed | preconfirmation/src/preconf/confirmation_strategy.rs:95-117 | after a run whose blocks and answers have readable anchors, every cached block has one |
| Contiguity.StaysContiguousIff | preconfirmation/src/stream/l2_head_info_stream.rs:87-130 | undisturbed, an arriving block leaves a gapless cache gapless if and only if it is at most one above the cached blocks and no fetch above them fails in the repair it causes |
| Contiguity.MembersAfter | preconfirmation/src/stream/l2_head_info_stream.rs:82-133 | the cache after an arriving block, with any fetches failing and any concurrent pruning: exactly the stored blocks that remain and the answers that enter |
| Contiguity.ContiguousAfterIff | preconfirmation/src/stream/l2_head_info_stream.rs:82-133 | whatever is pruned or fails, the cache is gapless afterwards if and only if, below every number of which a block remains or enters, one does of every number above the confirmed id |
| Contiguity.ConfirmedContiguous | preconfirmation/src/stream/l2_head_info_stream.rs:134-154 | an undisturbed confirmation leaves a gapless cache gapless above the new confirmed id, whatever the check says |
| Contiguity.RunContiguous | preconfirmation/src/stream/l2_head_info_stream.rs:80-156 | along an undisturbed run whose blocks connect in this way, the cached numbers follow the confirmed id without a gap |
| Contiguity.RunIsReady | preconfirmation/src/preconf/confirmation_strategy.rs:66-134 | such a run of own, current blocks with readable anchors leaves a cache that can be drained completely, once its times ascend and it can be posted |
| BatchEncoding.ReadBlocks | preconfirmation/src/taiko/taiko_l1_client.rs:353-388 | counts, time shifts, flat list and last timestamp are those of the longest prefix whose gaps fit a byte |
| BatchEncoding.RecomputeParams | preconfirmation/src/verification.rs:167-188 | the recomputed parameters, with the captured timestamp, 16-bit subtraction and truncating cast |
| BatchEncoding.RecomputedExactly | preconfirmation/src/verification.rs:173-188 | for any blocks, the count is the number of transactions without the anchor modulo 65536 and the shift the difference of times modulo 256 |
| BatchEncoding.TakenIsLongest | preconfirmation/src/taiko/taiko_l1_client.rs:368-383 | the encoded prefix is non-empty, all its gaps fit a byte, and the next gap does not |
| BatchEncoding.ForwardTaken | preconfirmation/src/taiko/taiko_l1_client.rs:358-384 | with times that do not run backwards, the encoded prefix is the longest one in which no block is more than 255 seconds behind the one before it |
| BatchEncoding.EncodersAgree | preconfirmation/src/verification.rs:173-188 | both encoders give the same parameters on every encoded prefix, for every transaction count of at least one |
| BatchEncoding.TxListsReturnIff | preconfirmation/src/taiko/taiko_l1_client.rs:369-376 | the flat list splits back into the blocks' own lists if and only if no block has more than 65536 transactions, anchor included |
| BatchEncoding.BatchRoundTrip | preconfirmation/src/taiko/taiko_l1_client.rs:353-388 | what the output determines: the times and non-anchor lists of exactly the longest prefix; its first shift is 0 and the counts sum to the length of the flat list |
| BatchEncoding.ForwardGaps | preconfirmation/src/taiko/taiko_l1_client.rs:368-368 | between times that do not run backwards the wrapping difference is the plain one |
| Verification.HonestBatchVerifies | preconfirmation/src/verification.rs:60-108 | a batch posted from some blocks passes the check on every cache whose part up to the batch's last block is what was posted, whatever the hash functions are |
| Verification.NothingToCheck | preconfirmation/src/verification.rs:73-79 | if every cached block is above the batch, the check passes |
| Verification.NoVerdictIff | preconfirmation/src/verification.rs:73-107 | there is no verdict if and only if a block up to the batch's last one has no transaction, or their transactions do not compress |
| Verification.RecordedAs | preconfirmation/src/taiko/taiko_l1_client.rs:236-251 | who posted a batch, its anchor, the time of its last block, its number of bytes as far as it fits 32 bits, and its number of blobs, announced and hashed, as far as it fits 8 |
| Verification.AcceptedBlocksMatch | preconfirmation/src/verification.rs:155-235 | conversely, blocks that pass the check have the proposal's counts, shifts, builder and compressed transactions, or one of the pairs compared by hash collides: metadata, info, transaction hashes, lists, or the first differing blobs; nothing is assumed about the hashes |
| Verification.OtherCountIsRejected | preconfirmation/src/verification.rs:155-235 | cached blocks of another number than the batch's fail the check, unless the info or the metadata collide |
| MissedBatches.CheckPassesIff | preconfirmation/src/verification.rs:60-108 | an honest batch passes the check against a cache that holds it behind earlier blocks if there are none of them, and only then, short of a collision |
| MissedBatches.MissedBatchClearsCache | preconfirmation/src/stream/l2_head_info_stream.rs:136-149 | if an earlier own batch was confirmed without a check of its own, the check of the latest batch fails, short of a collision; the cache is cleared although the chain agrees with it, and the confirmed block is emitted if it can be read |
| MissedBatches.SecondBatchClearsCache | preconfirmation/src/stream/l2_head_info_stream.rs:136-149 | a concrete state in which, with no other task near, hearing of the second of two batches makes the check answer false and clears the cache, with a block that is not confirmed yet |
| PostedBatch.PostedBytesIff | preconfirmation/src/taiko/taiko_l1_client.rs:229-237 | what is posted holds the compressed transactions if and only if no blobs are used or the last blob skips nothing but zeros |
| PostedBatch.PostedBatchReadsBack | preconfirmation/src/taiko/taiko_l1_client.rs:226-251 | from the parameters and the decoded blobs or list alone, a reader recovers the anchor, the builder, and the times and transactions of exactly the encoded blocks |
| PostedBatch.SubmittedIsPosted | preconfirmation/src/preconf/confirmation_strategy.rs:106-132 | what a call submits is posted and recorded with the anchor that the first transaction of every one of its blocks names |
| Confirmation.ConfirmationStrategy.Send | preconfirmation/src/preconf/confirmation_strategy.rs:66-134 | the cache is pruned to own, current blocks, the stream makes any changes, and the outcome is the specified decision on what is then read |
| Confirmation.NotOutdatedIff | preconfirmation/src/util.rs:140-150 | the check of times, without sums that could overflow |
| Confirmation.EligibleIff | preconfirmation/src/preconf/confirmation_strategy.rs:73-91 | a call reads exactly the own blocks with `timestamp + max_offset >= l1` that survive the changes, and the added ones, and considers exactly those of them with `timestamp < l1` |
| Confirmation.UndisturbedIff | preconfirmation/src/preconf/confirmation_strategy.rs:73-91 | undisturbed, it leaves cached exactly the own blocks with `timestamp + max_offset >= l1` and considers exactly those with `timestamp < l1` |
| Confirmation.ChangedMembers | preconfirmation/src/preconf/confirmation_strategy.rs:73-80 | what the stream's changes between the two waiting points leave: the surviving blocks cached before or added meanwhile |
| Confirmation.SubmittedBatch | preconfirmation/src/preconf/confirmation_strategy.rs:82-133 | a submitted batch is the longest same-anchor prefix of the eligible blocks, ordered; each block is older than the L1 slot and either own, cached and inside the window or added between pruning and reading |
| Confirmation.EligibleValidIff | preconfirmation/src/preconf/confirmation_strategy.rs:73-91 | every eligible block is own and inside the window if and only if every older block is that was added between pruning and reading and is still there |
| Confirmation.StrayBlockIsSubmitted | preconfirmation/src/preconf/confirmation_strategy.rs:73-91 | a concrete call: another node's block that arrives in between is submitted |
| Confirmation.UndisturbedBatch | preconfirmation/src/preconf/confirmation_strategy.rs:82-133 | without changes in between, every submitted block is cached, own, inside `[l1 - max_offset, l1)` and above the watermark |
| Interference.RunChanges | preconfirmation/src/stream/l2_head_info_stream.rs:80-156 | the changes that the stream makes and others make while it waits, listed step by step from state and events, lead exactly to the state of the run, and add only blocks that the events bring |
| Interference.ReadAnytime | preconfirmation/src/stream/l2_head_info_stream.rs:80-156 | a reader at any of the stream's waiting points, in the middle of a repair or a confirmation too, finds an ordered cache above the id confirmed by then, of blocks cached before or brought by the events |
| Interference.SentWhileStreaming | preconfirmation/src/preconf/confirmation_strategy.rs:73-133 | a call that waits while the stream handles any honest events, and reads at any of its waiting points, submits the longest same-anchor prefix of what it reads, in order, above the id confirmed by then; each block is own, cached before and inside the window, or was brought by one of the events |
| Confirmation.WithheldIff | preconfirmation/src/preconf/confirmation_strategy.rs:92-130 | a well-formed list is withheld if and only if it is empty, or all of it has the current anchor, is shorter than `max_blocks` and sending is not forced |
| Confirmation.BatchWithinLimitIff | preconfirmation/src/preconf/confirmation_strategy.rs:108-130 | a submitted batch has at most `max_blocks` blocks if and only if not more than that many leading blocks share the first anchor |
| Confirmation.OversizedBatch | preconfirmation/src/preconf/confirmation_strategy.rs:124-132 | a concrete decision: two blocks are submitted with `max_blocks` one, unforced |
| Confirmation.FailsIff | preconfirmation/src/preconf/confirmation_strategy.rs:95-117 | a call fails if and only if the first block off the first block's anchor, or the first block, has no readable anchor; the error is that block's |
| Drain.ContiguousSplit | preconfirmation/src/stream/l2_head_info_stream.rs:141-141 | pruning a contiguous cache by the confirmed number is a split by position |
| Drain.RoundPosts | preconfirmation/src/preconf/confirmation_strategy.rs:66-134 | one forced round of select, encode, record, check and confirm posts a non-empty leading part of the eligible blocks, recorded with the anchor they all name and the number and time of the last one, and removes exactly that part |
| Drain.DrainPartitions | preconfirmation/src/preconf/confirmation_strategy.rs:66-134 | repeated rounds terminate; the posted batches concatenate to exactly the eligible blocks, the watermark moves past them and every other kept block stays |
| Drain.DrainPosts | preconfirmation/src/preconf/confirmation_strategy.rs:66-134 | what is posted until nothing is left: exactly the own cached blocks with timestamp in `[l1 - max_offset, l1)`, in the order of their numbers; the own ones not older than the slot stay |
| Slots.SlotRoundTripIff | preconfirmation/src/slot_model.rs:25-40 | reading a slot's start back gives the slot if and only if the slot exists in its epoch |
| Slots.PositionFound | taiko-preconfer/src/preconfirmation_loop.rs:67-78 | the arithmetic of the loop finds epoch, slot and subslot of every time |
| Slots.SubslotContainsTime | taiko-preconfer/src/preconfirmation_loop.rs:67-78 | `slot_timestamp <= t < slot_timestamp + l2_duration`, and the subslot is one of the slot's |
| Slots.NextSubslot | taiko-preconfer/src/preconfirmation_loop.rs:157-161 | one L2 slot later it is the next subslot, or the first one of the following slot or epoch |
| Slots.NextSlot | taiko-preconfer/src/confirmation_loop.rs:104-108 | one L1 slot later it is the following slot |
| Slots.EpochsMonotone | preconfirmation/src/slot_model.rs:25-31 | epochs do not run backwards |
| Whitelist.WhitelistMonitor.ChangeEpoch | taiko-preconfer/src/util.rs:53-56 | past epochs are dropped |
| Whitelist.WhitelistMonitor.UpdateCurrentOperator | taiko-preconfer/src/util.rs:58-73 | the entry of the current epoch is replaced in front; a failed read changes nothing |
| Whitelist.WhitelistMonitor.UpdateNextOperator | taiko-preconfer/src/util.rs:75-91 | the entry of the next epoch is appended or overwritten; a failed read changes nothing |
| Whitelist.CurrentUpdatedEntries | taiko-preconfer/src/util.rs:58-73 | the entries after a read of the current operator: it, and the later ones; a failed read leaves them |
| Whitelist.NextUpdatedEntries | taiko-preconfer/src/util.rs:75-91 | the entries after a read of the next operator: it, and those of the current epoch; a failed read leaves them |
| Whitelist.MonitorStaysTidy | taiko-preconfer/src/util.rs:53-91 | after any operations with epochs that do not decrease and any reads failing: at most two entries, for consecutive epochs, none beyond the latest argument plus one |
| Handover.Node.Start | taiko-preconfer/src/preconfirmation_loop.rs:46-57 | the startup of both loops |
| Handover.Node.Build | taiko-preconfer/src/preconfirmation_loop.rs:65-155 | one iteration of the building loop, in place, is the specified tick |
| Handover.Node.Confirm | taiko-preconfer/src/confirmation_loop.rs:56-102 | one iteration of the confirmation loop, in place, is the specified tick |
| HandoverProofs.StartedExactly | taiko-preconfer/src/preconfirmation_loop.rs:46-57 | what a node knows and activates at startup, for every outcome of the two reads |
| Coverage.SubslotCounts | taiko-preconfer/src/preconfirmation_loop.rs:67-72 | the subslot that the loop computes counts the L2 slots since the start of the epoch |
| Ticks.BuildTickExactly | taiko-preconfer/src/preconfirmation_loop.rs:65-155 | one iteration of the building loop, with the start, the window and the last slot before it located by counting L2 slots from the start of the epoch: what is forgotten, activated and read, and when the node passes, waits, builds and ends the sequencing |
| Ticks.ConfirmTickExactly | taiko-preconfer/src/confirmation_loop.rs:56-102 | the same for the confirmation loop, counting L1 slots: what is forgotten, activated and read, and when the node sends and forces |
| HandoverProofs.BuildGuardIsOperator | preconfirmation/src/preconf/slot_model.rs:27-37 | with true and current entries the build guard selects the operator of the responsible epoch |
| HandoverProofs.ConfirmGuardIsOperator | preconfirmation/src/preconf/slot_model.rs:39-44 | with true and current entries the confirm guard selects the operator of the slot's epoch |
| HandoverProofs.BuilderSafe | taiko-preconfer/src/preconfirmation_loop.rs:46-155 | in every state of every run that does not miss an epoch's first iteration, the entries are true and current and only own epochs are activated, whatever reads fail |
| HandoverProofs.OneBuilderPerSlot | taiko-preconfer/src/preconfirmation_loop.rs:85-98 | mutual exclusion: any two iterations of any two nodes that pass the build guard in one slot belong to one address, the operator of the responsible epoch |
| HandoverProofs.ConfirmerSafe | taiko-preconfer/src/confirmation_loop.rs:39-102 | the same invariant for the confirmation loop |
| Coverage.WaitNeedsFullWindow | taiko-preconfer/src/preconfirmation_loop.rs:107-107 | a wait for the previous preconfer can only begin when the handover window is as long as the epoch; the step from which WaitBeginsIff follows |
| Waiting.WaitBeginsIff | taiko-preconfer/src/preconfirmation_loop.rs:107-110 | in any run, the wait begins if and only if the window is as long as the epoch and an iteration runs in the first subslot of the startup epoch, on a node whose startup read that it operates the next one |
| Coverage.EndOfSequencingIsUnique | taiko-preconfer/src/preconfirmation_loop.rs:138-140 | exactly one subslot of an epoch ends the sequencing: the last one before the window |
| Coverage.BuildsExactlyItsSlots | taiko-preconfer/src/preconfirmation_loop.rs:65-155 | a node that enters every slot in its first subslot, and reads the next operator successfully at least once per epoch in the last slot before the window, passes the guard if and only if it operates the responsible epoch, and ends the sequencing in exactly the last subslot before the window |
| Coverage.SendsExactlyInItsEpochs | taiko-preconfer/src/confirmation_loop.rs:56-102 | a node that misses no slot, and reads the next operator successfully at least once per epoch in the last slot before the window, sends if and only if it operates the slot's epoch and the slot is not the last before the window, and forces exactly inside the window |
| Coverage.ShortGapsBuilder | taiko-preconfer/src/preconfirmation_loop.rs:157-161 | iterations at most one L2 slot apart never skip the first subslot of a slot |
| Coverage.ShortGapsConfirmer | taiko-preconfer/src/confirmation_loop.rs:104-108 | iterations at most one L1 slot apart never skip a slot |
| Coverage.RegularIsAttentive | taiko-preconfer/src/preconfirmation_loop.rs:157-161 | regular schedules of any length meet the hypotheses of the coverage results on every configuration |
| Coverage.EverySlotVisited | taiko-preconfer/src/preconfirmation_loop.rs:157-161 | such a run has an iteration in every slot after its startup, up to the last |
| Coverage.EveryOwnSlotIsBuilt | taiko-preconfer/src/preconfirmation_loop.rs:46-155 | coverage: every slot after startup that the node is responsible for has an iteration that builds |
| Coverage.EveryOwnSlotIsSent | taiko-preconfer/src/confirmation_loop.rs:39-102 | coverage: every slot of the node's own epochs, except the last before the window, has an iteration that sends |
| MissedEpochs.TrespassIff | taiko-preconfer/src/preconfirmation_loop.rs:85-98 | in any run, an iteration passes the guard in a slot of somebody else if and only if it runs with two own entries of which the first is for a past epoch, and is not the one that drops past epochs |
| MissedEpochs.MissedEpochStartTrespasses | taiko-preconfer/src/preconfirmation_loop.rs:85-98 | a concrete run: a node that misses the first iteration of an epoch passes the guard in a slot of another operator |
| MissedEpochs.BuilderIsOperator | taiko-preconfer/src/preconfirmation_loop.rs:85-98 | a node that may miss epoch starts, but then operates no two epochs in a row since its latest drop of past entries, or operates the slot anyway, passes the guard only in its own slots |
| MissedEpochs.OneBuilderDespiteMisses | taiko-preconfer/src/preconfirmation_loop.rs:85-98 | mutual exclusion of building for all nodes whose misses are harmless in this sense, whatever reads fail |
| MissedEpochs.PunctualIsHarmless | taiko-preconfer/src/preconfirmation_loop.rs:85-88 | having the first iteration of every epoch is more than that asks for |
| MissedEpochs.SendTrespassIff | taiko-preconfer/src/confirmation_loop.rs:60-98 | in any run, an iteration sends in a foreign epoch if and only if it runs with two own entries that are both for past epochs, outside the first slot and the last before the window |
| MissedEpochs.SenderIsOperator | taiko-preconfer/src/confirmation_loop.rs:56-98 | a node that never misses the first slots of two epochs in a row sends only in its own epochs |
| MissedEpochs.OneSenderPerSlot | taiko-preconfer/src/confirmation_loop.rs:56-98 | mutual exclusion: any two iterations of such nodes that send in one slot belong to one address, the operator of that slot's epoch |
| MissedEpochs.PunctualKeepsUp | taiko-preconfer/src/confirmation_loop.rs:60-62 | having the first slot of every epoch is more than that asks for |
| MissedEpochs.MissedTwoStartsTrespasses | taiko-preconfer/src/confirmation_loop.rs:60-98 | a concrete run: a node that misses the first slots of two epochs in a row sends in an epoch of another operator |

## Left out

- RPC, HTTP and websocket clients, configuration, signing, logging and the wiring in `main.rs`: input and output only.
- KZG commitments and proofs, keccak, RLP and ABI encoding, zlib: foreign code. Compression and hashes are arbitrary functions, and a transaction carries the anchor id that decoding it yields.
- The blob decoder is this model's own; the repository only encodes. It inverts the layout and refuses an unknown version, an impossible size and words that are not canonical.
- Bytes are numbers below 256 and the masks are written as arithmetic; `TopXIsMask` and its companions tie them to the bit operations. Slice copies are `forall` assignments.
- Gas and fee computation and the retrying of transactions in `taiko_l1_client.rs`: floating point around library estimates. A send that is skipped because the previous transaction has not finished is not modelled, nor is the parent hash in the proposal.
- BatchEncoding.ReadBlocks: returns its two lists where the source appends to vectors it is given.
- Panics are preconditions where the source panics: a batch without blocks, a block without transactions to take the anchor from. Inside the check of the last batch such a block gives no verdict.
- Real time, sleeping and scheduling: an iteration is a tick with a time, and liveness of the loops is not claimed. The waiting branches that `continue` without sleeping are ticks that build and send nothing.
- An iteration that ends its loop because the anchor could not be updated is a run without further ticks.
- What the sequencing monitor waits for: its answer is an input of a tick.
- The merging of the two event streams is an arbitrary order of events, and the stream's own deduplication (`header_stream.rs`) and the hex helpers are short local facts.
- Coverage.BuildsExactlyItsSlots: a block is built when the builder is called; what the builder does and whether it times out is not modelled.
- Confirmation.ConfirmationStrategy.Send: the client's answer to a submitted batch is not an outcome.
- Drain.DrainPartitions: blocks that arrive while the cache drains are not modelled.
- Repair.RepairExact: asks for a repair that no other task disturbs, because the part below the arriving block is then whole; Repair.RepairExactIff and Repair.RepairSoundIff do not.
