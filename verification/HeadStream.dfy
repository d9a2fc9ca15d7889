/** The L2-head event loop: it stores incoming blocks, repairs the cache after a reorg, and prunes
    or clears it on confirmation. While it waits, the confirmation task may prune the shared cache;
    every such point is an interference step of the environment. */
module HeadStream {
  import opened Blocks
  import opened Cache
  import opened Wrappers

  /** What the outside does during the handling of an unconfirmed block: the answers to
      `get_block` and what other tasks retain at each waiting point. */
  datatype ResyncEnv = ResyncEnv(
    latest: Option<Block>,
    fetch: nat -> Option<Block>,
    beforeAdd: Keep,
    afterYield: Keep,
    beforeFetched: nat -> Keep,
    beforePrune: Keep)

  /** What the outside does during the handling of a confirmation. `verify` is the verdict on the
      cached blocks; without one the verification failed with an error. */
  datatype ConfirmEnv = ConfirmEnv(
    verify: seq<Block> -> Option<bool>,
    confirmedBlock: Option<Block>,
    beforeVerify: Keep,
    beforeUpdate: Keep,
    afterUpdate: Keep)

  datatype Event =
    | Unconfirmed(block: Block, resync: ResyncEnv)
    | Confirmed(id: nat, confirm: ConfirmEnv)
    | Pruned(keep: Keep)  // another task prunes between two events

  datatype State = State(cache: seq<Block>, confirmed: Option<nat>, first: bool, ended: bool)

  datatype Outcome = Outcome(state: State, yielded: seq<Header>)

  // ---- specification -------------------------------------------------------------------------

  /** The largest block number, if there is a block. */
  function MaxNumber(blocks: seq<Block>): (r: Option<nat>)
    ensures r.None? <==> |blocks| == 0
    ensures r.Some? ==> exists b | b in blocks :: b.header.number == r.value
    ensures r.Some? ==> forall b | b in blocks :: b.header.number <= r.value
  {
    if |blocks| == 0 then None
    else
      var front := MaxNumber(blocks[..|blocks| - 1]);
      var last := blocks[|blocks| - 1];
      assert blocks == blocks[..|blocks| - 1] + [last];
      if front.Some? && front.value >= last.header.number then front else Some(last.header.number)
  }

  datatype Refetch = Refetch(cache: seq<Block>, yielded: seq<Header>)

  /** The cache after fetching the blocks `from..to` one by one. A failing fetch leaves the cached
      block as it is. */
  function RefetchedCache(cache: seq<Block>, from: nat, to: nat, env: ResyncEnv): seq<Block> {
    if to <= from then cache
    else
      var before := RefetchedCache(cache, from, to - 1, env);
      var fetched := env.fetch(to - 1);
      if fetched.None? then before else Added(Retained(before, env.beforeFetched(to - 1)), fetched.value)
  }

  /** The headers of the successful fetches. */
  function FetchedHeaders(from: nat, to: nat, env: ResyncEnv): seq<Header> {
    if to <= from then []
    else
      var fetched := env.fetch(to - 1);
      FetchedHeaders(from, to - 1, env) + (if fetched.None? then [] else [fetched.value.header])
  }

  /** The repair that follows a block `n` below the cached maximum. */
  function Resynced(cache: seq<Block>, n: nat, env: ResyncEnv): Refetch {
    if env.latest.Some? && env.latest.value.header.number > n then
      var latest := env.latest.value;
      var m := latest.header.number;
      var fetched := RefetchedCache(cache, n + 1, m, env);
      var complete := Added(Retained(fetched, env.beforeFetched(m)), latest);
      Refetch(Retained(Retained(complete, env.beforePrune), NumberAtMost(m)),
              FetchedHeaders(n + 1, m, env) + [latest.header])
    else
      Refetch(Retained(Retained(cache, env.beforePrune), NumberAtMost(n)), [])
  }

  /** The cache once an acceptable block is stored and its header yielded. */
  function Stored(s: State, block: Block, env: ResyncEnv): seq<Block> {
    var stored :=
      if s.confirmed == Some(block.header.number) then s.cache
      else Added(Retained(s.cache, env.beforeAdd), block);
    Retained(stored, env.afterYield)
  }

  predicate Accepts(s: State, block: Block) {
    |block.txs| != 0 && (s.confirmed.Some? ==> block.header.number >= s.confirmed.value)
  }

  function AfterUnconfirmed(s: State, block: Block, env: ResyncEnv): Outcome {
    if !Accepts(s, block) then Outcome(s, [])
    else
      var n := block.header.number;
      var cache := Stored(s, block, env);
      if n < MaxNumber(cache).GetOr(n) then
        var repaired := Resynced(cache, n, env);
        Outcome(s.(cache := repaired.cache), [block.header] + repaired.yielded)
      else Outcome(s.(cache := cache), [block.header])
  }

  function AfterConfirmed(s: State, id: nat, env: ConfirmEnv): Outcome {
    if id <= s.confirmed.GetOr(0) then Outcome(s, [])
    else
      var seen := Retained(s.cache, env.beforeVerify);
      if !s.first && env.verify(seen).None? then Outcome(s.(cache := seen, ended := true), [])
      else
        var successful := s.first || env.verify(seen).value;
        var cache := if successful then Retained(Retained(seen, env.beforeUpdate), NumberAbove(id)) else [];
        var yielded := if !successful && env.confirmedBlock.Some? then [env.confirmedBlock.value.header] else [];
        Outcome(s.(cache := Retained(cache, env.afterUpdate), confirmed := Some(id), first := false), yielded)
  }

  function Step(s: State, e: Event): Outcome {
    match e
    case Pruned(keep) => Outcome(s.(cache := Retained(s.cache, keep)), [])
    case Unconfirmed(block, env) => if s.ended then Outcome(s, []) else AfterUnconfirmed(s, block, env)
    case Confirmed(id, env) => if s.ended then Outcome(s, []) else AfterConfirmed(s, id, env)
  }

  /** The state after a run of events. */
  function Run(s: State, events: seq<Event>): State {
    if |events| == 0 then s else Step(Run(s, events[..|events| - 1]), events[|events| - 1]).state
  }

  /** The headers that a run of events yields, in order. */
  function Emitted(s: State, events: seq<Event>): seq<Header> {
    if |events| == 0 then []
    else
      var front := events[..|events| - 1];
      Emitted(s, front) + Step(Run(s, front), events[|events| - 1]).yielded
  }

  // ---- the loop as it runs -------------------------------------------------------------------

  class L2HeadStream {
    const cache: TxCache
    var lastConfirmedBlockId: Option<nat>
    var firstConfirmation: bool
    var ended: bool

    constructor (cache: TxCache, initialConfirmedBlockId: Option<nat>)
      ensures this.cache == cache
      ensures Current() == State(cache.unconfirmed, initialConfirmedBlockId, true, false)
    {
      this.cache := cache;
      lastConfirmedBlockId := initialConfirmedBlockId;
      firstConfirmation := true;
      ended := false;
    }

    function Current(): State
      reads this, cache
    {
      State(cache.unconfirmed, lastConfirmedBlockId, firstConfirmation, ended)
    }

    method OnUnconfirmed(block: Block, env: ResyncEnv) returns (yielded: seq<Header>)
      modifies cache
      ensures Outcome(Current(), yielded) == AfterUnconfirmed(old(Current()), block, env)
    {
      hide Retained, Added, Resynced;
      yielded := [];
      if |block.txs| != 0 {
        var number := block.header.number;
        var shouldYield := true;
        if lastConfirmedBlockId.Some? {
          if number >= lastConfirmedBlockId.value {
            if number > lastConfirmedBlockId.value {
              cache.Retain(env.beforeAdd);
              cache.AddBlock(block);
            }
          } else {
            shouldYield := false;
          }
        } else {
          cache.Retain(env.beforeAdd);
          cache.AddBlock(block);
        }
        if shouldYield {
          yielded := [block.header];
          cache.Retain(env.afterYield);
          var currentMax := MaxNumber(cache.unconfirmed).GetOr(number);
          if number < currentMax {
            var refetched := Resync(number, env);
            yielded := yielded + refetched;
          }
        }
      }
    }

    method Resync(number: nat, env: ResyncEnv) returns (yielded: seq<Header>)
      modifies cache
      ensures Refetch(cache.unconfirmed, yielded) == Resynced(old(cache.unconfirmed), number, env)
    {
      yielded := [];
      var latestBlockNumber := number;
      if env.latest.Some? {
        var latest := env.latest.value;
        if latest.header.number > number {
          latestBlockNumber := latest.header.number;
          yielded := FetchRange(number + 1, latestBlockNumber, env);
          cache.Retain(env.beforeFetched(latestBlockNumber));
          cache.AddBlock(latest);
          yielded := yielded + [latest.header];
        }
      }
      cache.Retain(env.beforePrune);
      cache.Retain(NumberAtMost(latestBlockNumber));
    }

    method FetchRange(from: nat, to: nat, env: ResyncEnv) returns (yielded: seq<Header>)
      requires from <= to
      modifies cache
      ensures cache.unconfirmed == RefetchedCache(old(cache.unconfirmed), from, to, env)
      ensures yielded == FetchedHeaders(from, to, env)
    {
      hide Retained, Added;
      yielded := [];
      for id := from to to
        invariant cache.unconfirmed == RefetchedCache(old(cache.unconfirmed), from, id, env)
        invariant yielded == FetchedHeaders(from, id, env)
      {
        var fetched := env.fetch(id);
        if fetched.Some? {
          cache.Retain(env.beforeFetched(id));
          cache.AddBlock(fetched.value);
          yielded := yielded + [fetched.value.header];
        }
      }
    }

    method OnConfirmed(id: nat, env: ConfirmEnv) returns (yielded: seq<Header>)
      modifies this, cache
      ensures Outcome(Current(), yielded) == AfterConfirmed(old(Current()), id, env)
    {
      yielded := [];
      if id > lastConfirmedBlockId.GetOr(0) {
        cache.Retain(env.beforeVerify);
        var successful := true;
        if !firstConfirmation {
          var verdict := env.verify(cache.unconfirmed);
          if verdict.None? {
            ended := true;
            return;
          }
          successful := verdict.value;
        }
        firstConfirmation := false;
        if successful {
          cache.Retain(env.beforeUpdate);
          cache.Retain(NumberAbove(id));
        } else {
          cache.Clear();
          if env.confirmedBlock.Some? {
            yielded := [env.confirmedBlock.value.header];
          }
        }
        cache.Retain(env.afterUpdate);
        lastConfirmedBlockId := Some(id);
      }
    }

    /** The whole loop over a finite prefix of the merged stream. */
    method Consume(events: seq<Event>) returns (yielded: seq<Header>)
      modifies this, cache
      ensures Current() == Run(old(Current()), events) && yielded == Emitted(old(Current()), events)
    {
      hide AfterUnconfirmed, AfterConfirmed;
      yielded := [];
      for i := 0 to |events|
        invariant Current() == Run(old(Current()), events[..i]) && yielded == Emitted(old(Current()), events[..i])
      {
        assert events[..i + 1][..i] == events[..i];
        var headers := [];
        match events[i] {
          case Pruned(keep) =>
            cache.Retain(keep);
          case Unconfirmed(block, env) =>
            if !ended {
              headers := OnUnconfirmed(block, env);
            }
          case Confirmed(id, env) =>
            if !ended {
              headers := OnConfirmed(id, env);
            }
        }
        yielded := yielded + headers;
      }
      assert events[..|events|] == events;
    }
  }
}
