/** What a reorg repair leaves in the cache, exactly: with any fetches failing and other tasks pruning
    the cache while the repair waits. */
module Repair {
  import opened Blocks
  import opened Cache
  import opened HeadStream
  import opened HeadStreamProofs
  import opened Sequences
  import opened Wrappers

  // ---- members -------------------------------------------------------------------------------

  /** Other tasks spare a block while the fetched blocks `from..to` are stored. */
  ghost predicate Spared(b: Block, from: nat, to: nat, env: ResyncEnv) {
    forall k: nat | from <= k < to && env.fetch(k).Some? :: env.beforeFetched(k)(b)
  }

  /** What a cache holds after re-fetching `from..to`: fetched blocks where the fetch succeeded,
      whatever was there where it failed, and the rest untouched - as far as they are spared. */
  ghost predicate Refreshed(b: Block, cache: seq<Block>, from: nat, to: nat, env: ResyncEnv) {
    if from <= b.header.number < to && env.fetch(b.header.number).Some? then
      env.fetch(b.header.number) == Some(b) && Spared(b, b.header.number + 1, to, env)
    else b in cache && Spared(b, from, to, env)
  }

  lemma {:induction false} RefetchMembers(cache: seq<Block>, from: nat, to: nat, env: ResyncEnv)
    requires Ordered(cache) && HonestResync(env)
    ensures Ordered(RefetchedCache(cache, from, to, env))
    ensures forall b :: b in RefetchedCache(cache, from, to, env) <==> Refreshed(b, cache, from, to, env)
  {
    hide Retained, Added;
    if from < to {
      RefetchMembers(cache, from, to - 1, env);
      var before := RefetchedCache(cache, from, to - 1, env);
      if env.fetch(to - 1).Some? {
        var pruned := Retained(before, env.beforeFetched(to - 1));
        RetainedOrdered(before, env.beforeFetched(to - 1));
        AddedMembers(pruned, env.fetch(to - 1).value);
      }
    }
  }

  /** Other tasks spare a block from the storing of block `from` on until the repair up to the latest
      block `m` is done. */
  ghost predicate SparedToEnd(b: Block, from: nat, m: nat, env: ResyncEnv) {
    Spared(b, from, m, env) && (b.header.number < m ==> env.beforeFetched(m)(b)) && env.beforePrune(b)
  }

  /** The cache after a repair that reached the latest block `m`, member by member: a failing fetch
      leaves the block of that number as it was. */
  lemma RepairMembers(cache: seq<Block>, n: nat, env: ResyncEnv)
    requires Ordered(cache) && HonestResync(env)
    requires env.latest.Some? && env.latest.value.header.number > n
    ensures var r, latest := Resynced(cache, n, env), env.latest.value;
            var m := latest.header.number;
            Ordered(r.cache) &&
            forall b :: b in r.cache <==>
              if b.header.number >= m then b == latest && env.beforePrune(b)
              else if b.header.number > n && env.fetch(b.header.number).Some? then
                env.fetch(b.header.number) == Some(b) && SparedToEnd(b, b.header.number + 1, m, env)
              else b in cache && SparedToEnd(b, n + 1, m, env)
  {
    hide Retained, Added, Spared;
    var latest := env.latest.value;
    var m := latest.header.number;
    RefetchMembers(cache, n + 1, m, env);
    var fetched := RefetchedCache(cache, n + 1, m, env);
    var before := Retained(fetched, env.beforeFetched(m));
    RetainedOrdered(fetched, env.beforeFetched(m));
    AddedMembers(before, latest);
    var complete := Added(before, latest);
    RetainedOrdered(complete, env.beforePrune);
    RetainedOrdered(Retained(complete, env.beforePrune), NumberAtMost(m));
  }

  // ---- one chain -----------------------------------------------------------------------------

  /** Blocks `from..to` of a chain. */
  function ChainRange(chain: nat -> Block, from: nat, to: nat): (r: seq<Block>)
    requires from <= to
    ensures |r| == to - from
  {
    seq(to - from, i requires 0 <= i < to - from => chain(from + i))
  }

  function Headers(blocks: seq<Block>): (r: seq<Header>)
    ensures |r| == |blocks|
  {
    seq(|blocks|, i requires 0 <= i < |blocks| => blocks[i].header)
  }

  /** The answers that a repair above `n` gets come from one chain, whose head is block `m`. */
  ghost predicate OneChain(env: ResyncEnv, chain: nat -> Block, n: nat, m: nat) {
    n < m && env.latest == Some(chain(m)) && (forall k: nat :: chain(k).header.number == k) &&
    forall k: nat | n < k < m && env.fetch(k).Some? :: env.fetch(k) == Some(chain(k))
  }

  lemma ChainRangeMembers(chain: nat -> Block, from: nat, to: nat)
    requires from <= to && forall k: nat :: chain(k).header.number == k
    ensures Ordered(ChainRange(chain, from, to))
    ensures forall b: Block ::
              b in ChainRange(chain, from, to) <==> from <= b.header.number < to && chain(b.header.number) == b
  {
    var r := ChainRange(chain, from, to);
    forall b: Block | from <= b.header.number < to && chain(b.header.number) == b
      ensures b in r
    {
      assert r[b.header.number - from] == b;
    }
  }

  /** A repair above `n` brings in block `k` of the chain: fetched, or there before, and spared. */
  ghost predicate Arrives(k: nat, cache: seq<Block>, n: nat, m: nat, env: ResyncEnv, chain: nat -> Block) {
    if k == m then env.beforePrune(chain(k))
    else if env.fetch(k).Some? then SparedToEnd(chain(k), k + 1, m, env)
    else chain(k) in cache && SparedToEnd(chain(k), n + 1, m, env)
  }

  lemma ArrivesIff(cache: seq<Block>, n: nat, env: ResyncEnv, chain: nat -> Block, m: nat, k: nat)
    requires Ordered(cache) && HonestResync(env) && OneChain(env, chain, n, m) && n < k <= m
    ensures chain(k) in Resynced(cache, n, env).cache <==> Arrives(k, cache, n, m, env, chain)
  {
    hide Resynced, SparedToEnd;
    RepairMembers(cache, n, env);
  }

  /** The repaired cache above `n` is exactly the chain up to its head if and only if every block of
      the chain arrives, whatever else is cached, fails or is pruned. */
  lemma RepairExactIff(cache: seq<Block>, n: nat, env: ResyncEnv, chain: nat -> Block, m: nat)
    requires Ordered(cache) && HonestResync(env) && OneChain(env, chain, n, m)
    ensures Beyond(Resynced(cache, n, env).cache, n) == ChainRange(chain, n + 1, m + 1) <==>
            forall k | n < k <= m :: Arrives(k, cache, n, m, env, chain)
  {
    hide Resynced, SparedToEnd, Retained, ChainRange;
    var repaired, range := Resynced(cache, n, env).cache, ChainRange(chain, n + 1, m + 1);
    RepairMembers(cache, n, env);
    ChainRangeMembers(chain, n + 1, m + 1);
    RetainedOrdered(repaired, NumberAbove(n));
    forall k | n < k <= m
      ensures chain(k) in repaired <==> Arrives(k, cache, n, m, env, chain)
      ensures chain(k) in range
    {
      ArrivesIff(cache, n, env, chain, m, k);
    }
    if forall k | n < k <= m :: Arrives(k, cache, n, m, env, chain) {
      forall b | b in Beyond(repaired, n)
        ensures b == chain(b.header.number)
      {
        OnlyOneOfANumber(repaired, b, chain(b.header.number));
      }
      OrderedUnique(Beyond(repaired, n), range);
    } else {
      var k :| n < k <= m && !Arrives(k, cache, n, m, env, chain);
      assert chain(k) in range && chain(k) !in Beyond(repaired, n);
    }
  }

  lemma OnlyOneOfANumber(s: seq<Block>, a: Block, b: Block)
    requires Ordered(s) && a in s && b in s && a.header.number == b.header.number
    ensures a == b
  {
  }

  /** No stale block is left above `n` if and only if none is cached where a fetch fails, as far as
      other tasks spare it. With every fetch answering, whatever they prune, nothing stale is left. */
  lemma RepairSoundIff(cache: seq<Block>, n: nat, env: ResyncEnv, chain: nat -> Block, m: nat)
    requires Ordered(cache) && HonestResync(env) && OneChain(env, chain, n, m)
    ensures (forall b | b in Resynced(cache, n, env).cache && b.header.number > n :: b == chain(b.header.number)) <==>
            (forall b | b in cache && n < b.header.number < m && env.fetch(b.header.number).None? &&
                        SparedToEnd(b, n + 1, m, env) :: b == chain(b.header.number))
  {
    hide Resynced, SparedToEnd;
    RepairMembers(cache, n, env);
  }

  // ---- one arriving block, start to end ------------------------------------------------------

  /** No other task prunes while the block is handled. */
  ghost predicate Quiet(env: ResyncEnv) {
    (forall b: Block :: env.beforeAdd(b)) && (forall b: Block :: env.afterYield(b)) &&
    (forall b: Block :: env.beforePrune(b)) && (forall id: nat, b: Block :: env.beforeFetched(id)(b))
  }

  /** No other task prunes while a confirmation is handled. */
  ghost predicate QuietConfirm(env: ConfirmEnv) {
    (forall b: Block :: env.beforeVerify(b)) && (forall b: Block :: env.beforeUpdate(b)) &&
    (forall b: Block :: env.afterUpdate(b))
  }

  /** The arriving block itself is cached unless it is the confirmed one. */
  function Arrived(s: State, block: Block): seq<Block> {
    if s.confirmed == Some(block.header.number) then [] else [block]
  }

  /** What an accepted block leaves of the cache up to its own number. */
  function KeptBelow(s: State, block: Block): seq<Block> {
    Below(s.cache, block.header.number) + Arrived(s, block)
  }

  lemma KeptBelowOrdered(s: State, block: Block)
    requires Ordered(s.cache)
    ensures Ordered(KeptBelow(s, block))
    ensures forall b | b in KeptBelow(s, block) :: b.header.number <= block.header.number
  {
    RetainedOrdered(s.cache, NumberBelow(block.header.number));
    OrderedConcat(Below(s.cache, block.header.number), Arrived(s, block));
  }

  /** Other tasks spare a cached block until the repair begins. */
  ghost predicate SparedBefore(b: Block, s: State, block: Block, env: ResyncEnv) {
    (s.confirmed != Some(block.header.number) && b in s.cache && b != block ==> env.beforeAdd(b)) && env.afterYield(b)
  }

  /** Storing an accepted block is a splice of what is spared. */
  lemma StoredMembers(s: State, block: Block, env: ResyncEnv)
    requires Inv(s) && Accepts(s, block)
    ensures Ordered(Stored(s, block, env))
    ensures forall b :: b in Stored(s, block, env) <==>
              SparedBefore(b, s, block, env) &&
              (b in KeptBelow(s, block) || (b in s.cache && b.header.number > block.header.number))
  {
    hide Retained, Added;
    StoredKeeps(s, block, env);
    if s.confirmed != Some(block.header.number) {
      RetainedOrdered(s.cache, env.beforeAdd);
      AddedMembers(Retained(s.cache, env.beforeAdd), block);
    }
  }

  /** The stored cache still has a block above the arriving one, so the repair begins. */
  ghost predicate Repairs(s: State, block: Block, env: ResyncEnv) {
    exists b | b in Stored(s, block, env) :: b.header.number > block.header.number
  }

  lemma AfterRepair(s: State, block: Block, env: ResyncEnv)
    requires Accepts(s, block)
    ensures var n, stored := block.header.number, Stored(s, block, env);
            AfterUnconfirmed(s, block, env) ==
            if Repairs(s, block, env) then
              Outcome(s.(cache := Resynced(stored, n, env).cache), [block.header] + Resynced(stored, n, env).yielded)
            else Outcome(s.(cache := stored), [block.header])
  {
    hide Resynced, Stored;
    var n, stored := block.header.number, Stored(s, block, env);
    assert n < MaxNumber(stored).GetOr(n) <==> Repairs(s, block, env);
  }

  lemma OrderedSplit(s: seq<Block>, n: nat)
    requires Ordered(s)
    ensures s == Retained(s, NumberAtMost(n)) + Beyond(s, n)
  {
    hide Retained;
    RetainedOrdered(s, NumberAtMost(n));
    RetainedOrdered(s, NumberAbove(n));
    OrderedConcat(Retained(s, NumberAtMost(n)), Beyond(s, n));
    OrderedUnique(s, Retained(s, NumberAtMost(n)) + Beyond(s, n));
  }

  /** Left to itself, a repair leaves everything up to the arriving block alone. */
  lemma RepairedBelow(s: State, block: Block, env: ResyncEnv)
    requires Inv(s) && Accepts(s, block) && HonestResync(env) && Quiet(env)
    requires env.latest.Some? && env.latest.value.header.number > block.header.number
    ensures var n, repaired := block.header.number, Resynced(Stored(s, block, env), block.header.number, env).cache;
            Ordered(repaired) && repaired == KeptBelow(s, block) + Beyond(repaired, n)
  {
    hide Resynced, Stored, Retained, Accepts, KeptBelow;
    var n, stored := block.header.number, Stored(s, block, env);
    var repaired := Resynced(stored, n, env).cache;
    StoredMembers(s, block, env);
    RepairMembers(stored, n, env);
    KeptBelowOrdered(s, block);
    OrderedSplit(repaired, n);
    RetainedOrdered(repaired, NumberAtMost(n));
    OrderedUnique(Retained(repaired, NumberAtMost(n)), KeptBelow(s, block));
  }

  ghost predicate AllAnswered(env: ResyncEnv, from: nat, to: nat) {
    forall k: nat | from <= k < to :: env.fetch(k).Some?
  }

  lemma {:induction false} ChainYieldsIff(from: nat, to: nat, env: ResyncEnv, chain: nat -> Block)
    requires from <= to && forall k: nat | from <= k < to && env.fetch(k).Some? :: env.fetch(k) == Some(chain(k))
    ensures |FetchedHeaders(from, to, env)| <= to - from
    ensures FetchedHeaders(from, to, env) == Headers(ChainRange(chain, from, to)) <==> AllAnswered(env, from, to)
    ensures |FetchedHeaders(from, to, env)| == to - from <==> AllAnswered(env, from, to)
  {
    if from < to {
      ChainYieldsIff(from, to - 1, env, chain);
      assert Headers(ChainRange(chain, from, to)) == Headers(ChainRange(chain, from, to - 1)) + [chain(to - 1).header];
    }
  }

  lemma RepairYieldsIff(cache: seq<Block>, n: nat, env: ResyncEnv, chain: nat -> Block, m: nat)
    requires OneChain(env, chain, n, m)
    ensures Resynced(cache, n, env).yielded == Headers(ChainRange(chain, n + 1, m + 1)) <==> AllAnswered(env, n + 1, m)
  {
    hide Retained, Added;
    ChainYieldsIff(n + 1, m, env, chain);
    var range, yielded := Headers(ChainRange(chain, n + 1, m)), FetchedHeaders(n + 1, m, env);
    assert Headers(ChainRange(chain, n + 1, m + 1)) == range + [chain(m).header];
    assert (yielded + [chain(m).header])[..|yielded|] == yielded && (range + [chain(m).header])[..m - n - 1] == range;
  }

  /** Undisturbed, a block of the chain arrives unless its fetch fails and it was not cached. */
  lemma QuietArrives(s: State, block: Block, env: ResyncEnv, chain: nat -> Block, m: nat)
    requires Inv(s) && Accepts(s, block) && Quiet(env) && OneChain(env, chain, block.header.number, m)
    ensures var n := block.header.number;
            (forall k | n < k <= m :: Arrives(k, Stored(s, block, env), n, m, env, chain)) <==>
            (forall k | n < k < m && env.fetch(k).None? :: chain(k) in s.cache)
  {
    hide Stored, Accepts, KeptBelow;
    var n, stored := block.header.number, Stored(s, block, env);
    StoredMembers(s, block, env);
    KeptBelowOrdered(s, block);
    forall k | n < k <= m
      ensures Arrives(k, stored, n, m, env, chain) <==> k == m || env.fetch(k).Some? || chain(k) in s.cache
    {
    }
  }

  /** A reorg repair that no other task disturbs. The cache becomes what was below the arriving block,
      the block itself if it is above the watermark, and then exactly the chain up to its head, if and
      only if the chain's block was cached already wherever a fetch fails. The headers yielded are
      those of all these blocks, in order, if and only if no fetch fails. */
  lemma RepairExact(s: State, block: Block, env: ResyncEnv, chain: nat -> Block, m: nat)
    requires Inv(s) && Accepts(s, block) && HonestResync(env) && Quiet(env)
    requires OneChain(env, chain, block.header.number, m)
    requires exists b | b in s.cache :: b.header.number > block.header.number
    ensures var n, o := block.header.number, AfterUnconfirmed(s, block, env);
            var range := ChainRange(chain, n + 1, m + 1);
            (o.state == s.(cache := KeptBelow(s, block) + range) <==>
             forall k | n < k < m && env.fetch(k).None? :: chain(k) in s.cache) &&
            (o.yielded == [block.header] + Headers(range) <==> AllAnswered(env, n + 1, m))
  {
    hide Resynced, Stored, Retained, Accepts, KeptBelow, ChainRange, Headers, AfterUnconfirmed, Quiet, Inv;
    hide HonestResync;
    hide Arrives;
    var n, stored := block.header.number, Stored(s, block, env);
    var range, resynced := ChainRange(chain, n + 1, m + 1), Resynced(stored, n, env);
    BeginsRepair(s, block, env);
    AfterRepair(s, block, env);
    RepairedBelow(s, block, env);
    SameRest(KeptBelow(s, block), Beyond(resynced.cache, n), range);
    RepairExactIff(stored, n, env, chain, m);
    QuietArrives(s, block, env, chain, m);
    RepairYieldsIff(stored, n, env, chain, m);
    SameRest([block.header], resynced.yielded, Headers(range));
  }

  lemma BeginsRepair(s: State, block: Block, env: ResyncEnv)
    requires Inv(s) && Accepts(s, block) && Quiet(env)
    requires exists b | b in s.cache :: b.header.number > block.header.number
    ensures Repairs(s, block, env) && Ordered(Stored(s, block, env))
  {
    hide Stored, Accepts, KeptBelow;
    StoredMembers(s, block, env);
  }

  /** When the latest block cannot be read or is not above `n`, nothing above `n` remains, whatever
      other tasks prune, and of the rest exactly what they spare; undisturbed, all of it. */
  lemma RepairFallsBack(s: State, block: Block, env: ResyncEnv)
    requires Inv(s) && Accepts(s, block)
    requires env.latest.Some? ==> env.latest.value.header.number <= block.header.number
    ensures var o := AfterUnconfirmed(s, block, env);
            o.yielded == [block.header] && Ordered(o.state.cache) &&
            (forall b :: b in o.state.cache <==>
               b in KeptBelow(s, block) && SparedBefore(b, s, block, env) &&
               (Repairs(s, block, env) ==> env.beforePrune(b))) &&
            (Quiet(env) ==> o.state == s.(cache := KeptBelow(s, block)))
  {
    hide Stored, Retained, Accepts, KeptBelow;
    var n, stored := block.header.number, Stored(s, block, env);
    StoredMembers(s, block, env);
    KeptBelowOrdered(s, block);
    AfterRepair(s, block, env);
    RetainedOrdered(stored, env.beforePrune);
    RetainedOrdered(Retained(stored, env.beforePrune), NumberAtMost(n));
    if Quiet(env) {
      OrderedUnique(AfterUnconfirmed(s, block, env).state.cache, KeptBelow(s, block));
    }
  }

  // ---- a failing fetch ------------------------------------------------------------------------

  /** Block `number` of one of two chains. */
  function Sample(number: nat, content: nat): Block {
    Block(Header(number, 0, 0), [Tx(content, Some(0))])
  }

  /** Blocks 5, 6 and 7 are cached, a new block 5 arrives, the head is a new block 7 and reading block 6
      fails: the old block 6 stays between the new ones. */
  lemma FailedFetchLeavesStale() returns (s: State, env: ResyncEnv)
    ensures s == State([Sample(5, 0), Sample(6, 0), Sample(7, 0)], Some(4), false, false) && Inv(s)
    ensures env.fetch(6).None? && HonestResync(env) && Quiet(env) && OneChain(env, (k: nat) => Sample(k, 1), 5, 7)
    ensures Sample(6, 0) in AfterUnconfirmed(s, Sample(5, 1), env).state.cache
    ensures Sample(6, 1) !in AfterUnconfirmed(s, Sample(5, 1), env).state.cache
  {
    hide Stored, AfterUnconfirmed, KeptBelow, Resynced;
    s := State([Sample(5, 0), Sample(6, 0), Sample(7, 0)], Some(4), false, false);
    var keep := (b: Block) => true;
    env := ResyncEnv(Some(Sample(7, 1)), (k: nat) => None, keep, keep, (k: nat) => keep, keep);
    var block := Sample(5, 1);
    assert s.cache[1] in s.cache;
    StoredMembers(s, block, env);
    BeginsRepair(s, block, env);
    AfterRepair(s, block, env);
    RepairMembers(Stored(s, block, env), 5, env);
  }
}
