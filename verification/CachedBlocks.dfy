/** What kind of blocks the stream caches: whatever holds of every block it is given holds of every
    cached one. Empty blocks get in through a repair, and only there. */
module CachedBlocks {
  import opened BatchEncoding
  import opened Blocks
  import opened Cache
  import opened Confirmation
  import opened HeadStream
  import opened HeadStreamProofs
  import opened Repair
  import opened Verification
  import opened Wrappers

  type BlockProperty = Block -> bool

  ghost predicate Every(blocks: seq<Block>, p: BlockProperty) {
    forall b | b in blocks :: p(b)
  }

  /** Every block that an event may store has the property. */
  ghost predicate Brings(e: HeadStream.Event, p: BlockProperty) {
    e.Unconfirmed? ==> (|e.block.txs| != 0 ==> p(e.block)) && AnswersHave(e.resync, p)
  }

  ghost predicate AnswersHave(env: ResyncEnv, p: BlockProperty) {
    (env.latest.Some? ==> p(env.latest.value)) && forall k: nat | env.fetch(k).Some? :: p(env.fetch(k).value)
  }

  // ---- every run -----------------------------------------------------------------------------

  lemma AddedFrom(blocks: seq<Block>, block: Block)
    ensures forall b | b in Added(blocks, block) :: b == block || b in blocks
  {
    var i := FirstIndex(blocks, block.header.number);
    if i < |blocks| {
      assert blocks[i := block] == blocks[..i] + [block] + blocks[i + 1..];
    }
  }

  lemma {:induction false} RefetchHas(cache: seq<Block>, from: nat, to: nat, env: ResyncEnv, p: BlockProperty)
    requires Every(cache, p) && AnswersHave(env, p)
    ensures Every(RefetchedCache(cache, from, to, env), p)
  {
    hide Retained, Added;
    if from < to {
      RefetchHas(cache, from, to - 1, env, p);
      if env.fetch(to - 1).Some? {
        var before := RefetchedCache(cache, from, to - 1, env);
        AddedFrom(Retained(before, env.beforeFetched(to - 1)), env.fetch(to - 1).value);
      }
    }
  }

  lemma ResyncHas(cache: seq<Block>, n: nat, env: ResyncEnv, p: BlockProperty)
    requires Every(cache, p) && AnswersHave(env, p)
    ensures Every(Resynced(cache, n, env).cache, p)
  {
    hide Retained, Added;
    if env.latest.Some? && env.latest.value.header.number > n {
      var latest := env.latest.value;
      var m := latest.header.number;
      RefetchHas(cache, n + 1, m, env, p);
      AddedFrom(Retained(RefetchedCache(cache, n + 1, m, env), env.beforeFetched(m)), latest);
    }
  }

  lemma StoredHas(s: HeadStream.State, block: Block, env: ResyncEnv, p: BlockProperty)
    requires Every(s.cache, p) && p(block)
    ensures Every(Stored(s, block, env), p)
  {
    hide Retained, Added;
    AddedFrom(Retained(s.cache, env.beforeAdd), block);
  }

  /** No step stores a block without the property if it is not given one. */
  lemma StepHas(s: HeadStream.State, e: HeadStream.Event, p: BlockProperty)
    requires Every(s.cache, p) && Brings(e, p)
    ensures Every(Step(s, e).state.cache, p)
  {
    hide Retained, Stored, Resynced;
    if e.Unconfirmed? && Accepts(s, e.block) {
      StoredHas(s, e.block, e.resync, p);
      ResyncHas(Stored(s, e.block, e.resync), e.block.header.number, e.resync, p);
    }
  }

  lemma {:induction false} RunHas(s: HeadStream.State, events: seq<HeadStream.Event>, p: BlockProperty)
    requires Every(s.cache, p) && forall e | e in events :: Brings(e, p)
    ensures Every(Run(s, events).cache, p)
  {
    hide Step, Brings;
    if |events| > 0 {
      var front := events[..|events| - 1];
      assert forall e | e in front :: e in events;
      RunHas(s, front, p);
      StepHas(Run(s, front), events[|events| - 1], p);
    }
  }

  // ---- empty blocks --------------------------------------------------------------------------

  /** The answers that a repair above `n` stores, as far as other tasks spare them, have the property. */
  ghost predicate StoredAnswersHave(env: ResyncEnv, n: nat, p: BlockProperty)
    requires env.latest.Some?
  {
    var m := env.latest.value.header.number;
    (env.beforePrune(env.latest.value) ==> p(env.latest.value)) &&
    forall k: nat | n < k < m && env.fetch(k).Some? && SparedToEnd(env.fetch(k).value, k + 1, m, env) ::
      p(env.fetch(k).value)
  }

  lemma ResyncHasIff(cache: seq<Block>, n: nat, env: ResyncEnv, p: BlockProperty)
    requires Ordered(cache) && HonestResync(env) && Every(cache, p)
    requires env.latest.Some? && env.latest.value.header.number > n
    ensures Every(Resynced(cache, n, env).cache, p) <==> StoredAnswersHave(env, n, p)
  {
    hide Resynced, SparedToEnd;
    RepairMembers(cache, n, env);
    var repaired, latest := Resynced(cache, n, env).cache, env.latest.value;
    assert latest in repaired <==> env.beforePrune(latest);
    forall k: nat | n < k < latest.header.number && env.fetch(k).Some?
      ensures env.fetch(k).value in repaired <==> SparedToEnd(env.fetch(k).value, k + 1, latest.header.number, env)
    {
    }
  }

  function HasTxs(): BlockProperty { (b: Block) => |b.txs| > 0 }

  /** Handling a block leaves an empty block in a cache that had none if and only if a repair to a
      higher block takes place and stores an empty answer. */
  lemma EmptyBlocksIff(s: HeadStream.State, block: Block, env: ResyncEnv)
    requires Inv(s) && HonestResync(env) && Every(s.cache, HasTxs())
    ensures Every(AfterUnconfirmed(s, block, env).state.cache, HasTxs()) <==>
            !(Accepts(s, block) && Repairs(s, block, env) &&
              env.latest.Some? && env.latest.value.header.number > block.header.number &&
              !StoredAnswersHave(env, block.header.number, HasTxs()))
  {
    hide Stored, Resynced, Retained, StoredAnswersHave, SparedToEnd, Repairs;
    if Accepts(s, block) {
      var n, stored := block.header.number, Stored(s, block, env);
      AfterRepair(s, block, env);
      StoredHas(s, block, env, HasTxs());
      StoredMembers(s, block, env);
      if env.latest.Some? && env.latest.value.header.number > n {
        ResyncHasIff(stored, n, env, HasTxs());
      } else {
        FallbackHas(stored, n, env, HasTxs());
      }
    }
  }

  lemma FallbackHas(cache: seq<Block>, n: nat, env: ResyncEnv, p: BlockProperty)
    requires Every(cache, p) && (env.latest.Some? ==> env.latest.value.header.number <= n)
    ensures Every(Resynced(cache, n, env).cache, p)
  {
    hide Retained;
  }

  /** A run that is given no empty answers never caches an empty block: every cached block has an anchor
      transaction to skip. */
  lemma RunHasAnchors(s: HeadStream.State, events: seq<HeadStream.Event>)
    requires HasAnchors(s.cache)
    requires forall e | e in events && e.Unconfirmed? :: AnswersHave(e.resync, HasTxs())
    ensures HasAnchors(Run(s, events).cache)
  {
    hide AnswersHave, Run;
    RunHas(s, events, HasTxs());
  }

  /** Blocks 5, 6 and 7 are cached, a new block 5 arrives and the head is an empty block 7: it is cached. */
  lemma EmptyBlockIsCached() returns (s: HeadStream.State, env: ResyncEnv, empty: Block)
    ensures s.cache == [Sample(5, 0), Sample(6, 0), Sample(7, 0)] && Inv(s) && Every(s.cache, HasTxs())
    ensures empty == Block(Header(7, 0, 0), []) && env.latest == Some(empty) && HonestResync(env) && Quiet(env)
    ensures empty in AfterUnconfirmed(s, Sample(5, 1), env).state.cache
  {
    hide Stored, AfterUnconfirmed, KeptBelow, Resynced;
    s := HeadStream.State([Sample(5, 0), Sample(6, 0), Sample(7, 0)], Some(4), false, false);
    empty := Block(Header(7, 0, 0), []);
    var keep := (b: Block) => true;
    env := ResyncEnv(Some(empty), (k: nat) => None, keep, keep, (k: nat) => keep, keep);
    var block := Sample(5, 1);
    assert s.cache[1] in s.cache;
    StoredMembers(s, block, env);
    BeginsRepair(s, block, env);
    AfterRepair(s, block, env);
    RepairMembers(Stored(s, block, env), 5, env);
  }

  // ---- what the other components ask of the cache ----------------------------------------------

  /** With every answer non-empty, the check of a batch reaches a verdict in every state of the run
      unless the transactions do not compress. */
  lemma CheckDecides(s: HeadStream.State, events: seq<HeadStream.Event>, crypto: Crypto, batch: Batch, facts: L1Facts,
                     useBlobs: bool)
    requires HasAnchors(s.cache)
    requires forall e | e in events && e.Unconfirmed? :: AnswersHave(e.resync, HasTxs())
    ensures var blocks := Retained(Run(s, events).cache, NumberAtMost(batch.lastBlockId));
            HasAnchors(blocks) &&
            (VerifyLastBatch(crypto, batch, facts, useBlobs, Run(s, events).cache).None? <==>
             |blocks| > 0 && crypto.compress(FlatTxs(blocks)).None?)
  {
    hide AnswersHave, Run, Retained, FlatTxs;
    RunHasAnchors(s, events);
  }

  function HasReadableAnchor(): BlockProperty { (b: Block) => |b.txs| > 0 && b.txs[0].anchorId.Some? }

  /** If every block the stream was given has a readable anchor, every cached block has, so no call of the
      confirmation task fails on one. */
  lemma RunIsWellFormed(s: HeadStream.State, events: seq<HeadStream.Event>)
    requires WellFormed(s.cache) && forall e | e in events :: Brings(e, HasReadableAnchor())
    ensures WellFormed(Run(s, events).cache)
  {
    hide Run, Brings;
    RunHas(s, events, HasReadableAnchor());
  }
}
