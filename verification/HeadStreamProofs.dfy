/** Safety of the L2-head loop over every run, and what a repair leaves in the cache. */
module HeadStreamProofs {
  import opened Blocks
  import opened Cache
  import opened HeadStream
  import opened Wrappers

  /** A successful `get_block(Some(id))` returns the block numbered `id`. */
  ghost predicate HonestResync(env: ResyncEnv) {
    forall id: nat | env.fetch(id).Some? :: env.fetch(id).value.header.number == id
  }

  ghost predicate Honest(e: Event) {
    match e
    case Pruned(_) => true
    case Unconfirmed(_, env) => HonestResync(env)
    case Confirmed(id, env) => env.confirmedBlock.Some? ==> env.confirmedBlock.value.header.number == id
  }

  /** Cached numbers strictly increase and lie above the last confirmed id. */
  ghost predicate Inv(s: State) {
    Ordered(s.cache) && Above(s.cache, s.confirmed)
  }

  /** The watermark never moves but upwards. */
  ghost predicate Advances(before: Option<nat>, after: Option<nat>) {
    after == before || (after.Some? && after.value > before.GetOr(0))
  }

  // ---- invariants of one step ----------------------------------------------------------------

  lemma PruneKeeps(cache: seq<Block>, watermark: Option<nat>, keep: Keep)
    requires Ordered(cache) && Above(cache, watermark)
    ensures Ordered(Retained(cache, keep)) && Above(Retained(cache, keep), watermark)
  {
    RetainedOrdered(cache, keep);
  }

  lemma AddKeeps(cache: seq<Block>, watermark: Option<nat>, block: Block)
    requires Ordered(cache) && Above(cache, watermark)
    requires watermark.Some? ==> block.header.number > watermark.value
    ensures Ordered(Added(cache, block)) && Above(Added(cache, block), watermark)
  {
    AddedMembers(cache, block);
  }

  lemma {:induction false} RefetchKeeps(cache: seq<Block>, watermark: Option<nat>, from: nat, to: nat, env: ResyncEnv)
    requires Ordered(cache) && Above(cache, watermark) && HonestResync(env)
    requires watermark.Some? ==> from > watermark.value
    ensures Ordered(RefetchedCache(cache, from, to, env)) && Above(RefetchedCache(cache, from, to, env), watermark)
  {
    if from < to {
      RefetchKeeps(cache, watermark, from, to - 1, env);
      var before := RefetchedCache(cache, from, to - 1, env);
      PruneKeeps(before, watermark, env.beforeFetched(to - 1));
      if env.fetch(to - 1).Some? {
        AddKeeps(Retained(before, env.beforeFetched(to - 1)), watermark, env.fetch(to - 1).value);
      }
    }
  }

  /** Re-fetching yields only the fetched numbers, in ascending order, whichever fetches fail. */
  lemma {:induction false} FetchedAscend(from: nat, to: nat, env: ResyncEnv)
    requires HonestResync(env)
    ensures forall h | h in FetchedHeaders(from, to, env) :: from <= h.number < to
    ensures forall i, j | 0 <= i < j < |FetchedHeaders(from, to, env)| ::
              FetchedHeaders(from, to, env)[i].number < FetchedHeaders(from, to, env)[j].number
  {
    if from < to {
      FetchedAscend(from, to - 1, env);
      assert env.fetch(to - 1).Some? ==> env.fetch(to - 1).value.header.number == to - 1;
    }
  }

  lemma PruneToKeeps(cache: seq<Block>, watermark: Option<nat>, n: nat, env: ResyncEnv)
    requires Ordered(cache) && Above(cache, watermark)
    ensures var pruned := Retained(Retained(cache, env.beforePrune), NumberAtMost(n));
            Ordered(pruned) && Above(pruned, watermark)
  {
    PruneKeeps(cache, watermark, env.beforePrune);
    PruneKeeps(Retained(cache, env.beforePrune), watermark, NumberAtMost(n));
  }

  lemma ResyncKeeps(cache: seq<Block>, watermark: Option<nat>, n: nat, env: ResyncEnv)
    requires Ordered(cache) && Above(cache, watermark) && HonestResync(env)
    requires watermark.Some? ==> n >= watermark.value
    ensures var r := Resynced(cache, n, env);
            Ordered(r.cache) && Above(r.cache, watermark) && forall h | h in r.yielded :: h.number > n
  {
    hide Retained, Added;
    if env.latest.Some? && env.latest.value.header.number > n {
      var latest := env.latest.value;
      var m := latest.header.number;
      RefetchKeeps(cache, watermark, n + 1, m, env);
      FetchedAscend(n + 1, m, env);
      var fetched := RefetchedCache(cache, n + 1, m, env);
      var before := Retained(fetched, env.beforeFetched(m));
      PruneKeeps(fetched, watermark, env.beforeFetched(m));
      AddKeeps(before, watermark, latest);
      PruneToKeeps(Added(before, latest), watermark, m, env);
    } else {
      PruneToKeeps(cache, watermark, n, env);
    }
  }

  lemma StoredKeeps(s: State, block: Block, env: ResyncEnv)
    requires Inv(s) && Accepts(s, block)
    ensures Ordered(Stored(s, block, env)) && Above(Stored(s, block, env), s.confirmed)
  {
    if s.confirmed == Some(block.header.number) {
      PruneKeeps(s.cache, s.confirmed, env.afterYield);
    } else {
      PruneKeeps(s.cache, s.confirmed, env.beforeAdd);
      AddKeeps(Retained(s.cache, env.beforeAdd), s.confirmed, block);
      PruneKeeps(Added(Retained(s.cache, env.beforeAdd), block), s.confirmed, env.afterYield);
    }
  }

  lemma UnconfirmedKeeps(s: State, block: Block, env: ResyncEnv)
    requires Inv(s) && HonestResync(env)
    ensures var o := AfterUnconfirmed(s, block, env);
            Inv(o.state) && o.state.confirmed == s.confirmed &&
            (s.confirmed.Some? ==> forall h | h in o.yielded :: h.number >= s.confirmed.value)
  {
    if Accepts(s, block) {
      var n, cache := block.header.number, Stored(s, block, env);
      StoredKeeps(s, block, env);
      ResyncKeeps(cache, s.confirmed, n, env);
      var repaired := Resynced(cache, n, env);
      assert forall h | h in [block.header] + repaired.yielded :: h == block.header || h in repaired.yielded;
      if n < MaxNumber(cache).GetOr(n) {
        assert AfterUnconfirmed(s, block, env)
               == Outcome(s.(cache := repaired.cache), [block.header] + repaired.yielded);
      } else {
        assert AfterUnconfirmed(s, block, env) == Outcome(s.(cache := cache), [block.header]);
      }
    }
  }

  lemma ConfirmedKeeps(s: State, id: nat, env: ConfirmEnv)
    requires Inv(s) && (env.confirmedBlock.Some? ==> env.confirmedBlock.value.header.number == id)
    ensures var o := AfterConfirmed(s, id, env);
            Inv(o.state) && Advances(s.confirmed, o.state.confirmed) &&
            forall h | h in o.yielded :: o.state.confirmed == Some(h.number)
  {
    if id > s.confirmed.GetOr(0) {
      PruneKeeps(s.cache, s.confirmed, env.beforeVerify);
      var seen := Retained(s.cache, env.beforeVerify);
      PruneKeeps(seen, s.confirmed, env.beforeUpdate);
      PruneKeeps(Retained(seen, env.beforeUpdate), s.confirmed, NumberAbove(id));
      PruneKeeps(Retained(Retained(seen, env.beforeUpdate), NumberAbove(id)), Some(id), env.afterUpdate);
    }
  }

  /** Whatever happens next, and whatever other tasks prune meanwhile: the cache stays ordered and
      above the watermark, the watermark only moves up, and every yielded header is at or above it. */
  lemma StepKeeps(s: State, e: Event)
    requires Inv(s) && Honest(e)
    ensures var o := Step(s, e);
            Inv(o.state) && Advances(s.confirmed, o.state.confirmed) &&
            (o.state.confirmed.Some? ==> forall h | h in o.yielded :: h.number >= o.state.confirmed.value)
  {
    match e {
      case Pruned(keep) => PruneKeeps(s.cache, s.confirmed, keep);
      case Unconfirmed(block, env) => UnconfirmedKeeps(s, block, env);
      case Confirmed(id, env) => ConfirmedKeeps(s, id, env);
    }
  }

  // ---- every run -----------------------------------------------------------------------------

  /** The invariant holds in every state of every run. */
  lemma {:induction false} RunKeeps(s: State, events: seq<Event>)
    requires Inv(s) && forall e | e in events :: Honest(e)
    ensures Inv(Run(s, events))
  {
    if |events| > 0 {
      var front := events[..|events| - 1];
      assert forall e | e in front :: e in events;
      RunKeeps(s, front);
      StepKeeps(Run(s, front), events[|events| - 1]);
    }
  }

  lemma {:induction false} RunSplits(s: State, first: seq<Event>, second: seq<Event>)
    ensures Run(s, first + second) == Run(Run(s, first), second)
  {
    if |second| == 0 {
      assert first + second == first;
    } else {
      var front := second[..|second| - 1];
      RunSplits(s, first, front);
      assert (first + second)[..|first + second| - 1] == first + front;
    }
  }

  lemma {:induction false} RunAdvances(s: State, events: seq<Event>)
    requires Inv(s) && forall e | e in events :: Honest(e)
    ensures Advances(s.confirmed, Run(s, events).confirmed)
  {
    if |events| > 0 {
      var front := events[..|events| - 1];
      assert forall e | e in front :: e in events;
      RunAdvances(s, front);
      RunKeeps(s, front);
      StepKeeps(Run(s, front), events[|events| - 1]);
    }
  }

  /** Between any two points of a run the confirmed id is the same or strictly larger, and at the
      later point everything cached is above it. */
  lemma WatermarkOnlyRises(s: State, events: seq<Event>, i: nat, j: nat)
    requires Inv(s) && forall e | e in events :: Honest(e)
    requires i <= j <= |events|
    ensures Advances(Run(s, events[..i]).confirmed, Run(s, events[..j]).confirmed)
    ensures Inv(Run(s, events[..j]))
  {
    assert events[..j] == events[..i] + events[i..j];
    RunSplits(s, events[..i], events[i..j]);
    RunKeeps(s, events[..i]);
    RunKeeps(s, events[..j]);
    RunAdvances(Run(s, events[..i]), events[i..j]);
  }

  lemma {:induction false} EmittedSplits(s: State, first: seq<Event>, second: seq<Event>)
    ensures Emitted(s, first + second) == Emitted(s, first) + Emitted(Run(s, first), second)
  {
    hide Step;
    if |second| == 0 {
      assert first + second == first;
    } else {
      var front := second[..|second| - 1];
      EmittedSplits(s, first, front);
      RunSplits(s, first, front);
      assert (first + second)[..|first + second| - 1] == first + front;
    }
  }

  lemma {:induction false} EmittedAbove(s: State, events: seq<Event>)
    requires Inv(s) && forall e | e in events :: Honest(e)
    ensures s.confirmed.Some? ==> forall h | h in Emitted(s, events) :: h.number >= s.confirmed.value
  {
    if |events| > 0 {
      var front := events[..|events| - 1];
      assert forall e | e in front :: e in events;
      EmittedAbove(s, front);
      RunKeeps(s, front);
      RunAdvances(s, events);
      StepKeeps(Run(s, front), events[|events| - 1]);
    }
  }

  /** Cut the output of a run at any point: what comes after the cut is at or above the id confirmed
      there, and what an event itself yields is at or above the id confirmed once it is handled. */
  lemma HeadsAreSafe(s: State, events: seq<Event>, i: nat)
    requires Inv(s) && (forall e | e in events :: Honest(e)) && i <= |events|
    ensures var at := Run(s, events[..i]);
            Emitted(s, events) == Emitted(s, events[..i]) + Emitted(at, events[i..]) &&
            (at.confirmed.Some? ==> forall h | h in Emitted(at, events[i..]) :: h.number >= at.confirmed.value) &&
            (i < |events| ==>
               var o := Step(at, events[i]);
               o.state.confirmed.Some? ==> forall h | h in o.yielded :: h.number >= o.state.confirmed.value)
  {
    assert events == events[..i] + events[i..];
    EmittedSplits(s, events[..i], events[i..]);
    RunKeeps(s, events[..i]);
    EmittedAbove(Run(s, events[..i]), events[i..]);
    if i < |events| {
      StepKeeps(Run(s, events[..i]), events[i]);
    }
  }
}
