/** When the cached blocks follow the confirmed one without a gap: exactly what an arriving block and the
    repair it causes must satisfy, and what this gives a run that nobody disturbs. */
module Contiguity {
  import opened Blocks
  import opened CachedBlocks
  import opened Confirmation
  import opened Drain
  import opened HeadStream
  import opened HeadStreamProofs
  import opened Repair
  import opened Wrappers

  ghost predicate Has(blocks: seq<Block>, number: nat) {
    exists b | b in blocks :: b.header.number == number
  }

  ghost predicate GapFree(blocks: seq<Block>, confirmed: nat) {
    forall b, k: nat | b in blocks && confirmed < k < b.header.number :: Has(blocks, k)
  }

  /** If the first `i` numbers are without a gap and the next one leaves one, nothing fills it. */
  lemma GapStays(blocks: seq<Block>, confirmed: nat, i: nat)
    requires Ordered(blocks) && i < |blocks| && Contiguous(blocks[..i], confirmed)
    ensures blocks[i].header.number > confirmed + i + 1 ==> !Has(blocks, confirmed + i + 1)
  {
    assert forall j | 0 <= j < i :: blocks[j] == blocks[..i][j];
  }

  lemma {:induction false} FilledUp(blocks: seq<Block>, confirmed: nat, i: nat)
    requires Ordered(blocks) && Above(blocks, Some(confirmed)) && GapFree(blocks, confirmed) && i <= |blocks|
    ensures Contiguous(blocks[..i], confirmed)
  {
    if i > 0 {
      FilledUp(blocks, confirmed, i - 1);
      GapStays(blocks, confirmed, i - 1);
      assert forall j | 0 <= j < i - 1 :: blocks[..i - 1][j] == blocks[j];
      assert blocks[i - 1] in blocks;
      if i > 1 {
        assert blocks[i - 2].header.number == confirmed + i - 1;
      }
      assert blocks[i - 1].header.number == confirmed + i;
    }
  }

  /** On an ordered cache above the confirmed block, having no gap is being contiguous. */
  lemma ContiguousIffGapFree(blocks: seq<Block>, confirmed: nat)
    requires Ordered(blocks) && Above(blocks, Some(confirmed))
    ensures Contiguous(blocks, confirmed) <==> GapFree(blocks, confirmed)
  {
    if Contiguous(blocks, confirmed) {
      forall b, k: nat | b in blocks && confirmed < k < b.header.number
        ensures Has(blocks, k)
      {
        assert blocks[k - confirmed - 1] in blocks;
      }
    }
    if GapFree(blocks, confirmed) {
      FilledUp(blocks, confirmed, |blocks|);
      assert blocks[..|blocks|] == blocks;
    }
  }

  lemma GapFreeNumbers(blocks: seq<Block>, confirmed: nat)
    ensures GapFree(blocks, confirmed) <==>
            forall j: nat, k: nat | Has(blocks, j) && confirmed < k < j :: Has(blocks, k)
  {
    assert forall b | b in blocks :: Has(blocks, b.header.number);
  }

  lemma ContiguousHas(blocks: seq<Block>, confirmed: nat, k: nat)
    requires Contiguous(blocks, confirmed)
    ensures Has(blocks, k) <==> confirmed < k <= confirmed + |blocks|
  {
    if confirmed < k <= confirmed + |blocks| {
      assert blocks[k - confirmed - 1] in blocks;
    }
  }

  // ---- one event -----------------------------------------------------------------------------

  /** The largest cached number, or the confirmed one. */
  function Top(s: State): nat {
    s.confirmed.GetOr(0) + |s.cache|
  }

  /** The block arrives at most one above the cached ones, and if it causes a repair that reaches the
      latest block, no fetch above the cached ones fails. */
  ghost predicate Connects(s: State, block: Block, env: ResyncEnv) {
    block.header.number <= Top(s) + 1 &&
    (block.header.number < Top(s) && env.latest.Some? && env.latest.value.header.number > block.header.number ==>
       forall k: nat | Top(s) < k < env.latest.value.header.number :: env.fetch(k).Some?)
  }

  /** The numbers cached once an accepted block is stored. */
  lemma StoredNumbers(s: State, block: Block, env: ResyncEnv, k: nat)
    requires Inv(s) && s.confirmed.Some? && Contiguous(s.cache, s.confirmed.value)
    requires Accepts(s, block) && Quiet(env)
    ensures Has(Stored(s, block, env), k) <==>
            s.confirmed.value < k && (k <= Top(s) || k == block.header.number)
  {
    hide Stored, Retained;
    var stored := Stored(s, block, env);
    StoredMembers(s, block, env);
    ContiguousHas(s.cache, s.confirmed.value, k);
    assert forall b | b in stored :: b == block || b in s.cache;
    if k == block.header.number && s.confirmed.value < k {
      assert block in stored;
    } else if Has(s.cache, k) {
      var b :| b in s.cache && b.header.number == k;
      assert b in stored;
    }
  }

  /** The numbers cached once a repair reached the latest block. */
  lemma RepairedNumbers(cache: seq<Block>, n: nat, env: ResyncEnv, k: nat)
    requires Ordered(cache) && HonestResync(env) && Quiet(env)
    requires env.latest.Some? && env.latest.value.header.number > n
    ensures var m := env.latest.value.header.number;
            Has(Resynced(cache, n, env).cache, k) <==>
            k == m || (k < m && ((k > n && env.fetch(k).Some?) || Has(cache, k)))
  {
    hide Resynced;
    var r, latest := Resynced(cache, n, env).cache, env.latest.value;
    RepairMembers(cache, n, env);
    assert latest in r;
    if n < k < latest.header.number && env.fetch(k).Some? {
      assert env.fetch(k).value in r;
    } else if k < latest.header.number && Has(cache, k) {
      var b :| b in cache && b.header.number == k;
      assert b in r;
    }
  }

  lemma RepairsIff(s: State, block: Block, env: ResyncEnv)
    requires Inv(s) && s.confirmed.Some? && Contiguous(s.cache, s.confirmed.value)
    requires Accepts(s, block) && Quiet(env)
    ensures Repairs(s, block, env) <==> block.header.number < Top(s)
  {
    hide Stored, Contiguous;
    var stored := Stored(s, block, env);
    StoredNumbers(s, block, env, Top(s));
    if Repairs(s, block, env) {
      var b :| b in stored && b.header.number > block.header.number;
      StoredNumbers(s, block, env, b.header.number);
      assert Has(stored, b.header.number);
    }
  }

  /** A fallback keeps what is stored up to the arriving block. */
  lemma FallbackNumbers(cache: seq<Block>, n: nat, env: ResyncEnv, k: nat)
    requires Quiet(env) && (env.latest.Some? ==> env.latest.value.header.number <= n)
    ensures Has(Resynced(cache, n, env).cache, k) <==> k <= n && Has(cache, k)
  {
    var r := Resynced(cache, n, env).cache;
    assert forall b :: b in r <==> b in cache && b.header.number <= n;
  }

  /** The numbers cached once an arriving block is handled. */
  ghost predicate NumberCached(s: State, block: Block, env: ResyncEnv, k: nat) {
    var n, stored := block.header.number, s.confirmed.GetOr(0) < k && (k <= Top(s) || k == block.header.number);
    if n >= Top(s) then stored
    else if env.latest.Some? && env.latest.value.header.number > n then
      var m := env.latest.value.header.number;
      k == m || (k < m && ((k > n && env.fetch(k).Some?) || stored))
    else k <= n && stored
  }

  lemma NumbersAfter(s: State, block: Block, env: ResyncEnv, k: nat)
    requires Inv(s) && s.confirmed.Some? && Contiguous(s.cache, s.confirmed.value)
    requires Accepts(s, block) && HonestResync(env) && Quiet(env)
    ensures Has(AfterUnconfirmed(s, block, env).state.cache, k) <==> NumberCached(s, block, env, k)
  {
    hide Stored, Resynced, AfterUnconfirmed, Contiguous, Quiet, Has, Repairs;
    var n, stored := block.header.number, Stored(s, block, env);
    StoredKeeps(s, block, env);
    StoredNumbers(s, block, env, k);
    RepairsIff(s, block, env);
    AfterRepair(s, block, env);
    if env.latest.Some? && env.latest.value.header.number > n {
      RepairedNumbers(stored, n, env, k);
    } else {
      FallbackNumbers(stored, n, env, k);
    }
  }

  /** The numbers cached afterwards have no gap exactly when the block connects. */
  lemma NumbersGapFreeIff(s: State, block: Block, env: ResyncEnv)
    requires s.confirmed.Some? && Accepts(s, block)
    ensures Connects(s, block, env) <==>
            forall j: nat, k: nat | NumberCached(s, block, env, j) && s.confirmed.value < k < j ::
              NumberCached(s, block, env, k)
  {
    var n, top := block.header.number, Top(s);
    var reached := n < top && env.latest.Some? && env.latest.value.header.number > n;
    var last := if reached then env.latest.value.header.number else n;
    assert forall j: nat | NumberCached(s, block, env, j) :: j <= last;
    assert last > s.confirmed.value ==> NumberCached(s, block, env, last);
    assert Connects(s, block, env) <==>
           forall k: nat | s.confirmed.value < k < last :: NumberCached(s, block, env, k) by {
      if reached {
        assert forall k: nat | top < k < last :: NumberCached(s, block, env, k) <==> env.fetch(k).Some?;
      } else {
        assert n > top + 1 ==> !NumberCached(s, block, env, top + 1);
      }
    }
  }

  /** Undisturbed, a block that arrives leaves a contiguous cache contiguous if and only if it connects. */
  lemma StaysContiguousIff(s: State, block: Block, env: ResyncEnv)
    requires Inv(s) && s.confirmed.Some? && Contiguous(s.cache, s.confirmed.value)
    requires Accepts(s, block) && HonestResync(env) && Quiet(env)
    ensures Contiguous(AfterUnconfirmed(s, block, env).state.cache, s.confirmed.value) <==> Connects(s, block, env)
  {
    hide AfterUnconfirmed, Contiguous, Quiet, HonestResync, NumberCached, Connects, Accepts;
    var cache, confirmed := AfterUnconfirmed(s, block, env).state.cache, s.confirmed.value;
    UnconfirmedKeeps(s, block, env);
    ContiguousIffGapFree(cache, confirmed);
    GapFreeNumbers(cache, confirmed);
    forall k: nat
      ensures Has(cache, k) <==> NumberCached(s, block, env, k)
    {
      NumbersAfter(s, block, env, k);
    }
    NumbersGapFreeIff(s, block, env);
  }

  /** A stored block is left once the arriving block is handled, whatever other tasks prune. */
  ghost predicate Remains(b: Block, s: State, block: Block, env: ResyncEnv) {
    var n := block.header.number;
    SparedBefore(b, s, block, env) && (b in KeptBelow(s, block) || (b in s.cache && b.header.number > n)) &&
    (Repairs(s, block, env) ==>
       if env.latest.Some? && env.latest.value.header.number > n then
         b.header.number < env.latest.value.header.number &&
         (b.header.number > n ==> env.fetch(b.header.number).None?) &&
         SparedToEnd(b, n + 1, env.latest.value.header.number, env)
       else b.header.number <= n && env.beforePrune(b))
  }

  /** An answer of the repair is left. */
  ghost predicate Enters(b: Block, s: State, block: Block, env: ResyncEnv) {
    var n := block.header.number;
    Repairs(s, block, env) && env.latest.Some? && env.latest.value.header.number > n &&
    var m := env.latest.value.header.number;
    if b.header.number >= m then b == env.latest.value && env.beforePrune(b)
    else n < b.header.number && env.fetch(b.header.number) == Some(b) && SparedToEnd(b, b.header.number + 1, m, env)
  }

  lemma FallbackMembers(cache: seq<Block>, n: nat, env: ResyncEnv, b: Block)
    requires env.latest.Some? ==> env.latest.value.header.number <= n
    ensures b in Resynced(cache, n, env).cache <==> b in cache && env.beforePrune(b) && b.header.number <= n
  {
  }

  /** The cache after an arriving block is handled, with any fetches failing and any pruning. */
  lemma MembersAfter(s: State, block: Block, env: ResyncEnv, b: Block)
    requires Inv(s) && Accepts(s, block) && HonestResync(env)
    ensures b in AfterUnconfirmed(s, block, env).state.cache <==>
            Remains(b, s, block, env) || Enters(b, s, block, env)
  {
    hide Stored, AfterUnconfirmed, Accepts, KeptBelow, SparedBefore, SparedToEnd, Repairs, Retained, Resynced;
    hide HonestResync;
    var n, stored := block.header.number, Stored(s, block, env);
    StoredMembers(s, block, env);
    KeptBelowOrdered(s, block);
    AfterRepair(s, block, env);
    if env.latest.Some? && env.latest.value.header.number > n {
      RepairMembers(stored, n, env);
    } else {
      FallbackMembers(stored, n, env, b);
    }
  }

  /** A block of this number remains or enters. */
  ghost predicate NumberLeft(s: State, block: Block, env: ResyncEnv, k: nat) {
    exists b: Block :: b.header.number == k && (Remains(b, s, block, env) || Enters(b, s, block, env))
  }

  /** Whatever other tasks prune and whichever fetches fail, the cache is contiguous afterwards if and only
      if, below every number of which a block remains or enters, one does of every number above the
      confirmed one. */
  lemma ContiguousAfterIff(s: State, block: Block, env: ResyncEnv)
    requires Inv(s) && s.confirmed.Some? && Accepts(s, block) && HonestResync(env)
    ensures Contiguous(AfterUnconfirmed(s, block, env).state.cache, s.confirmed.value) <==>
            forall j: nat, k: nat | NumberLeft(s, block, env, j) && s.confirmed.value < k < j ::
              NumberLeft(s, block, env, k)
  {
    hide AfterUnconfirmed, Contiguous, Remains, Enters, Accepts, GapFree;
    var cache := AfterUnconfirmed(s, block, env).state.cache;
    UnconfirmedKeeps(s, block, env);
    ContiguousIffGapFree(cache, s.confirmed.value);
    GapFreeNumbers(cache, s.confirmed.value);
    forall b
      ensures b in cache <==> Remains(b, s, block, env) || Enters(b, s, block, env)
    {
      MembersAfter(s, block, env, b);
    }
    assert forall k: nat :: Has(cache, k) <==> NumberLeft(s, block, env, k);
  }

  /** A confirmation that nobody disturbs leaves a contiguous cache contiguous, whatever the check says. */
  lemma ConfirmedContiguous(s: State, id: nat, env: ConfirmEnv)
    requires s.confirmed.Some? && Contiguous(s.cache, s.confirmed.value) && QuietConfirm(env)
    ensures var o := AfterConfirmed(s, id, env);
            o.state.confirmed.Some? && Contiguous(o.state.cache, o.state.confirmed.value)
  {
    hide Retained;
    if id > s.confirmed.value {
      RetainedAll(s.cache, env.beforeVerify);
      RetainedAll(s.cache, env.beforeUpdate);
      var rest := Retained(s.cache, NumberAbove(id));
      if id <= s.confirmed.value + |s.cache| {
        ContiguousSplit(s.cache, s.confirmed.value, id - s.confirmed.value);
      } else {
        assert |rest| > 0 ==> rest[0] in rest;
      }
      RetainedAll(rest, env.afterUpdate);
      RetainedAll([], env.afterUpdate);
    }
  }

  // ---- a run ---------------------------------------------------------------------------------

  /** Nobody disturbs the handling of an event, and an accepted block connects. */
  ghost predicate Joins(s: State, e: Event) {
    match e
    case Pruned(keep) => forall b: Block :: keep(b)
    case Unconfirmed(block, env) => HonestResync(env) && Quiet(env) && (Accepts(s, block) ==> Connects(s, block, env))
    case Confirmed(id, env) => QuietConfirm(env)
  }

  lemma StepContiguous(s: State, e: Event)
    requires Inv(s) && s.confirmed.Some? && Contiguous(s.cache, s.confirmed.value) && Joins(s, e)
    ensures var o := Step(s, e);
            o.state.confirmed.Some? && Contiguous(o.state.cache, o.state.confirmed.value)
  {
    hide Contiguous, Connects, Accepts, Quiet, HonestResync, QuietConfirm, AfterConfirmed;
    match e {
      case Pruned(keep) => RetainedAll(s.cache, keep);
      case Confirmed(id, env) => ConfirmedContiguous(s, id, env);
      case Unconfirmed(block, env) =>
        UnconfirmedKeeps(s, block, env);
        if Accepts(s, block) {
          StaysContiguousIff(s, block, env);
        }
    }
  }

  /** Along a run whose blocks connect and that nobody disturbs, the cache stays contiguous. */
  lemma {:induction false} RunContiguous(s: State, events: seq<Event>)
    requires Inv(s) && s.confirmed.Some? && Contiguous(s.cache, s.confirmed.value)
    requires forall e | e in events :: Honest(e)
    requires forall i | 0 <= i < |events| :: Joins(Run(s, events[..i]), events[i])
    ensures var r := Run(s, events);
            r.confirmed.Some? && Contiguous(r.cache, r.confirmed.value)
  {
    hide Contiguous, Joins, Step, Honest;
    if |events| > 0 {
      var front := events[..|events| - 1];
      assert forall e | e in front :: e in events;
      forall i | 0 <= i < |front|
        ensures Joins(Run(s, front[..i]), front[i])
      {
        assert front[..i] == events[..i];
      }
      RunContiguous(s, front);
      RunKeeps(s, front);
      StepContiguous(Run(s, front), events[|events| - 1]);
    }
  }

  /** Own, current blocks with a readable anchor. */
  function Sendable(setup: Setup): BlockProperty {
    (b: Block) => IsCurrent(b, setup.l1, setup.maxOffset, setup.own) && |b.txs| > 0 && b.txs[0].anchorId.Some?
  }

  /** Such a run of sendable blocks leaves a cache that is ready to drain, as soon as the blocks are in time
      order and can be posted: nothing of it is pruned, and it follows the confirmed block. */
  lemma RunIsReady(s: State, events: seq<Event>, setup: Setup)
    requires Inv(s) && s.confirmed.Some? && Contiguous(s.cache, s.confirmed.value) && Every(s.cache, Sendable(setup))
    requires forall e | e in events :: Honest(e) && Brings(e, Sendable(setup))
    requires forall i | 0 <= i < |events| :: Joins(Run(s, events[..i]), events[i])
    requires var r := Run(s, events);
             !r.ended && TimesAscend(r.cache) && CanPost(setup, r.cache)
    ensures Ready(Run(s, events), setup) && Kept(Run(s, events), setup) == Run(s, events).cache
  {
    hide Contiguous, Joins, Run, Brings, Honest, CanPost, TimesAscend, Retained;
    RunContiguous(s, events);
    RunHas(s, events, Sendable(setup));
    RetainedAll(Run(s, events).cache, ValidFor(setup.l1, setup.maxOffset, setup.own));
  }
}
