/** The confirmation loop and the stream share the cache: what the stream does while a call of the loop
    waits, up to any of its own waiting points, and what the call then submits. */
module Interference {
  import opened Addresses
  import opened Blocks
  import opened Cache
  import opened CachedBlocks
  import opened Confirmation
  import opened HeadStream
  import opened HeadStreamProofs
  import opened Wrappers

  // ---- the stream, change by change ----------------------------------------------------------

  function RefetchSteps(from: nat, to: nat, env: ResyncEnv): seq<Change> {
    if to <= from then []
    else
      var fetched := env.fetch(to - 1);
      RefetchSteps(from, to - 1, env) +
      (if fetched.None? then [] else [Prune(env.beforeFetched(to - 1)), Add(fetched.value)])
  }

  function ResyncSteps(n: nat, env: ResyncEnv): seq<Change> {
    if env.latest.Some? && env.latest.value.header.number > n then
      var m := env.latest.value.header.number;
      RefetchSteps(n + 1, m, env) + [Prune(env.beforeFetched(m)), Add(env.latest.value)] +
      [Prune(env.beforePrune), Prune(NumberAtMost(m))]
    else [Prune(env.beforePrune), Prune(NumberAtMost(n))]
  }

  function StoredSteps(s: State, block: Block, env: ResyncEnv): seq<Change> {
    (if s.confirmed == Some(block.header.number) then [] else [Prune(env.beforeAdd), Add(block)]) +
    [Prune(env.afterYield)]
  }

  function UnconfirmedSteps(s: State, block: Block, env: ResyncEnv): seq<Change> {
    if !Accepts(s, block) then []
    else
      var n := block.header.number;
      StoredSteps(s, block, env) +
      (if n < MaxNumber(Stored(s, block, env)).GetOr(n) then ResyncSteps(n, env) else [])
  }

  function KeepNone(): Keep { (b: Block) => false }

  function ConfirmedSteps(s: State, id: nat, env: ConfirmEnv): seq<Change> {
    if id <= s.confirmed.GetOr(0) then []
    else
      var verdict := env.verify(Retained(s.cache, env.beforeVerify));
      if !s.first && verdict.None? then [Prune(env.beforeVerify)]
      else
        [Prune(env.beforeVerify)] +
        (if s.first || verdict.value then [Prune(env.beforeUpdate), Prune(NumberAbove(id))] else [Prune(KeepNone())]) +
        [Prune(env.afterUpdate)]
  }

  /** The changes that handling an event makes to the cache, those of other tasks among them, in order. */
  function EventSteps(s: State, e: Event): seq<Change> {
    match e
    case Pruned(keep) => [Prune(keep)]
    case Unconfirmed(block, env) => if s.ended then [] else UnconfirmedSteps(s, block, env)
    case Confirmed(id, env) => if s.ended then [] else ConfirmedSteps(s, id, env)
  }

  function RunSteps(s: State, events: seq<Event>): seq<Change> {
    if |events| == 0 then []
    else
      var front := events[..|events| - 1];
      RunSteps(s, front) + EventSteps(Run(s, front), events[|events| - 1])
  }

  // ---- the changes lead where the stream does --------------------------------------------------

  lemma {:induction false} ChangedConcat(cache: seq<Block>, first: seq<Change>, second: seq<Change>)
    ensures Changed(cache, first + second) == Changed(Changed(cache, first), second)
  {
    hide Retained, Added;
    if |second| == 0 {
      assert first + second == first;
    } else {
      ChangedConcat(cache, first, second[..|second| - 1]);
      assert (first + second)[..|first + second| - 1] == first + second[..|second| - 1];
    }
  }

  lemma OneChange(cache: seq<Block>, change: Change)
    ensures Changed(cache, [change]) == ChangedBy(cache, change)
  {
    assert [change][..0] == [];
  }

  lemma TwoChanges(cache: seq<Block>, first: Change, second: Change)
    ensures Changed(cache, [first, second]) == ChangedBy(ChangedBy(cache, first), second)
  {
    hide ChangedBy;
    OneChange(cache, first);
    OneChange(ChangedBy(cache, first), second);
    ChangedConcat(cache, [first], [second]);
    assert [first, second] == [first] + [second];
  }

  lemma {:induction false} RefetchStepsLead(cache: seq<Block>, from: nat, to: nat, env: ResyncEnv)
    ensures Changed(cache, RefetchSteps(from, to, env)) == RefetchedCache(cache, from, to, env)
  {
    hide Retained, Added;
    if from < to {
      RefetchStepsLead(cache, from, to - 1, env);
      assert RefetchSteps(from, to - 1, env) + [] == RefetchSteps(from, to - 1, env);
      if env.fetch(to - 1).Some? {
        var before, keep, block := RefetchSteps(from, to - 1, env), env.beforeFetched(to - 1), env.fetch(to - 1).value;
        ChangedConcat(cache, before, [Prune(keep), Add(block)]);
        TwoChanges(Changed(cache, before), Prune(keep), Add(block));
      }
    }
  }

  lemma ResyncStepsLead(cache: seq<Block>, n: nat, env: ResyncEnv)
    ensures Changed(cache, ResyncSteps(n, env)) == Resynced(cache, n, env).cache
  {
    hide Retained, Added;
    if env.latest.Some? && env.latest.value.header.number > n {
      var latest := env.latest.value;
      var m := latest.header.number;
      var before, step := RefetchSteps(n + 1, m, env), [Prune(env.beforeFetched(m)), Add(latest)];
      RefetchStepsLead(cache, n + 1, m, env);
      ChangedConcat(cache, before, step);
      TwoChanges(Changed(cache, before), Prune(env.beforeFetched(m)), Add(latest));
      ChangedConcat(cache, before + step, [Prune(env.beforePrune), Prune(NumberAtMost(m))]);
      TwoChanges(Changed(cache, before + step), Prune(env.beforePrune), Prune(NumberAtMost(m)));
    } else {
      TwoChanges(cache, Prune(env.beforePrune), Prune(NumberAtMost(n)));
    }
  }

  lemma StoredStepsLead(s: State, block: Block, env: ResyncEnv)
    ensures Changed(s.cache, StoredSteps(s, block, env)) == Stored(s, block, env)
  {
    hide Retained, Added;
    var before := if s.confirmed == Some(block.header.number) then [] else [Prune(env.beforeAdd), Add(block)];
    TwoChanges(s.cache, Prune(env.beforeAdd), Add(block));
    ChangedConcat(s.cache, before, [Prune(env.afterYield)]);
    OneChange(Changed(s.cache, before), Prune(env.afterYield));
  }

  lemma UnconfirmedStepsLead(s: State, block: Block, env: ResyncEnv)
    ensures Changed(s.cache, UnconfirmedSteps(s, block, env)) == AfterUnconfirmed(s, block, env).state.cache
  {
    hide Resynced, Stored, ResyncSteps, StoredSteps;
    if Accepts(s, block) {
      var n := block.header.number;
      StoredStepsLead(s, block, env);
      ResyncStepsLead(Stored(s, block, env), n, env);
      ChangedConcat(s.cache, StoredSteps(s, block, env), ResyncSteps(n, env));
      assert StoredSteps(s, block, env) + [] == StoredSteps(s, block, env);
    }
  }

  lemma ConfirmedStepsLead(s: State, id: nat, env: ConfirmEnv)
    ensures Changed(s.cache, ConfirmedSteps(s, id, env)) == AfterConfirmed(s, id, env).state.cache
  {
    hide Retained, Added;
    if id > s.confirmed.GetOr(0) {
      var seen, verdict := Retained(s.cache, env.beforeVerify), env.verify(Retained(s.cache, env.beforeVerify));
      OneChange(s.cache, Prune(env.beforeVerify));
      if s.first || verdict.Some? {
        var step := if s.first || verdict.value then [Prune(env.beforeUpdate), Prune(NumberAbove(id))]
                    else [Prune(KeepNone())];
        TwoChanges(seen, Prune(env.beforeUpdate), Prune(NumberAbove(id)));
        OneChange(seen, Prune(KeepNone()));
        RetainedNone(seen, KeepNone());
        ChangedConcat(s.cache, [Prune(env.beforeVerify)], step);
        var before := [Prune(env.beforeVerify)] + step;
        ChangedConcat(s.cache, before, [Prune(env.afterUpdate)]);
        OneChange(Changed(s.cache, before), Prune(env.afterUpdate));
      }
    }
  }

  lemma EventStepsLead(s: State, e: Event)
    ensures Changed(s.cache, EventSteps(s, e)) == Step(s, e).state.cache
  {
    hide Retained, Added, AfterUnconfirmed, AfterConfirmed, UnconfirmedSteps, ConfirmedSteps;
    match e {
      case Pruned(keep) => OneChange(s.cache, Prune(keep));
      case Unconfirmed(block, env) => UnconfirmedStepsLead(s, block, env);
      case Confirmed(id, env) => ConfirmedStepsLead(s, id, env);
    }
  }

  // ---- which blocks are added ------------------------------------------------------------------

  /** An event brings a block: it arrives with it, or is an answer given while it is handled. */
  ghost predicate Brought(b: Block, e: Event) {
    e.Unconfirmed? &&
    (b == e.block || e.resync.latest == Some(b) || exists k: nat :: e.resync.fetch(k) == Some(b))
  }

  ghost predicate BroughtBy(b: Block, events: seq<Event>) {
    exists e | e in events :: Brought(b, e)
  }

  /** Every added block is brought by the event and above the watermark. */
  ghost predicate AddsOnly(changes: seq<Change>, e: Event, watermark: Option<nat>) {
    forall c | c in changes && c.Add? ::
      Brought(c.block, e) && (watermark.Some? ==> c.block.header.number > watermark.value)
  }

  lemma {:induction false} RefetchStepsAdd(from: nat, to: nat, e: Event, watermark: Option<nat>)
    requires e.Unconfirmed? && Honest(e) && (watermark.Some? ==> from > watermark.value)
    ensures AddsOnly(RefetchSteps(from, to, e.resync), e, watermark)
  {
    if from < to {
      RefetchStepsAdd(from, to - 1, e, watermark);
    }
  }

  /** Handling an event adds only what it brings, above the watermark. */
  lemma EventStepsAdd(s: State, e: Event)
    requires Honest(e)
    ensures AddsOnly(EventSteps(s, e), e, s.confirmed)
  {
    hide Stored, RefetchSteps, HonestResync;
    if e.Unconfirmed? && Accepts(s, e.block) {
      var n := e.block.header.number;
      if e.resync.latest.Some? && e.resync.latest.value.header.number > n {
        RefetchStepsAdd(n + 1, e.resync.latest.value.header.number, e, s.confirmed);
      }
    }
  }

  /** Whatever the stream does to the cache in a run is the list of its changes, and it adds only blocks
      that the events bring. */
  lemma {:induction false} RunChanges(s: State, events: seq<Event>)
    requires forall e | e in events :: Honest(e)
    ensures Changed(s.cache, RunSteps(s, events)) == Run(s, events).cache
    ensures forall c | c in RunSteps(s, events) && c.Add? :: BroughtBy(c.block, events)
  {
    hide Step, EventSteps, Brought, Honest;
    if |events| > 0 {
      var front, e := events[..|events| - 1], events[|events| - 1];
      assert e in events && forall e | e in front :: e in events;
      RunChanges(s, front);
      EventStepsLead(Run(s, front), e);
      EventStepsAdd(Run(s, front), e);
      ChangedConcat(s.cache, RunSteps(s, front), EventSteps(Run(s, front), e));
    }
  }

  // ---- reading the cache at any moment ---------------------------------------------------------

  lemma {:induction false} StepsKeep(cache: seq<Block>, changes: seq<Change>, watermark: Option<nat>)
    requires Ordered(cache) && Above(cache, watermark)
    requires forall c | c in changes && c.Add? :: watermark.Some? ==> c.block.header.number > watermark.value
    ensures Ordered(Changed(cache, changes)) && Above(Changed(cache, changes), watermark)
  {
    hide Retained, Added, Ordered, Above;
    if |changes| > 0 {
      var before := Changed(cache, changes[..|changes| - 1]);
      StepsKeep(cache, changes[..|changes| - 1], watermark);
      match changes[|changes| - 1] {
        case Add(block) => AddKeeps(before, watermark, block);
        case Prune(keep) => PruneKeeps(before, watermark, keep);
      }
    }
  }

  /** What happened to the cache when a call reads it: the changes of some events, and the first `j`
      changes of the next one, which the stream is still handling. */
  function StepsSoFar(s: State, events: seq<Event>, e: Event, j: nat): seq<Change>
    requires j <= |EventSteps(Run(s, events), e)|
  {
    RunSteps(s, events) + EventSteps(Run(s, events), e)[..j]
  }

  lemma {:induction false} ChangedFrom(cache: seq<Block>, changes: seq<Change>, p: BlockProperty)
    requires Every(cache, p) && forall c | c in changes && c.Add? :: p(c.block)
    ensures Every(Changed(cache, changes), p)
  {
    hide Retained, Added;
    if |changes| > 0 {
      var before := Changed(cache, changes[..|changes| - 1]);
      ChangedFrom(cache, changes[..|changes| - 1], p);
      if changes[|changes| - 1].Add? {
        AddedFrom(before, changes[|changes| - 1].block);
      }
    }
  }

  /** What a reader finds at any moment: an ordered cache above the id confirmed by then, of blocks that
      were cached before or that the events brought. */
  lemma ReadAnytime(s: State, events: seq<Event>, e: Event, j: nat)
    requires Inv(s) && Honest(e) && forall e | e in events :: Honest(e)
    requires j <= |EventSteps(Run(s, events), e)|
    ensures var r, cache := Run(s, events), Changed(s.cache, StepsSoFar(s, events, e, j));
            Ordered(cache) && Above(cache, r.confirmed) &&
            (j == 0 ==> cache == r.cache) &&
            (j == |EventSteps(r, e)| ==> cache == Step(r, e).state.cache && Above(cache, Step(r, e).state.confirmed)) &&
            forall b | b in cache :: b in s.cache || BroughtBy(b, events + [e])
  {
    hide Changed, Run, RunSteps, Step, EventSteps, Brought, Honest, Ordered, Above;
    var r := Run(s, events);
    var steps := EventSteps(r, e);
    RunChanges(s, events);
    RunKeeps(s, events);
    EventStepsAdd(r, e);
    ChangedConcat(s.cache, RunSteps(s, events), steps[..j]);
    assert forall c | c in steps[..j] :: c in steps;
    StepsKeep(r.cache, steps[..j], r.confirmed);
    NoChange(r.cache);
    if j == |steps| {
      assert steps[..j] == steps;
      EventStepsLead(r, e);
      StepKeeps(r, e);
    }
    OriginsOf(s, events, e, j);
  }

  lemma NoChange(cache: seq<Block>)
    ensures Changed(cache, []) == cache
  {
  }

  lemma OriginsOf(s: State, events: seq<Event>, e: Event, j: nat)
    requires Honest(e) && forall e | e in events :: Honest(e)
    requires j <= |EventSteps(Run(s, events), e)|
    ensures forall b | b in Changed(s.cache, StepsSoFar(s, events, e, j)) :: b in s.cache || BroughtBy(b, events + [e])
  {
    hide Changed, Run, RunSteps, EventSteps, Brought, Honest;
    var steps, all := StepsSoFar(s, events, e, j), events + [e];
    RunChanges(s, events);
    EventStepsAdd(Run(s, events), e);
    assert e in all && forall e | e in events :: e in all;
    var p: BlockProperty := (b: Block) => b in s.cache || Add(b) in steps;
    ChangedFrom(s.cache, steps, p);
  }

  /** A call prunes the cache and waits; the stream handles any honest events, and the call reads the
      cache at any of the stream's waiting points. What it submits is the longest same-anchor prefix of
      what it read, in order and above the id confirmed by then, and each block is either own, cached
      before and inside the time window, or was brought by one of the events. */
  lemma SentWhileStreaming(s: State, events: seq<Event>, e: Event, j: nat, l1: nat, maxOffset: nat, own: Address,
                           maxBlocks: nat, force: bool, currentAnchor: nat)
    requires Inv(s) && Honest(e) && forall e | e in events :: Honest(e)
    requires var pruned := s.(cache := Retained(s.cache, ValidFor(l1, maxOffset, own)));
             j <= |EventSteps(Run(pruned, events), e)|
    ensures var pruned := s.(cache := Retained(s.cache, ValidFor(l1, maxOffset, own)));
            var r, changes := Run(pruned, events), StepsSoFar(pruned, events, e, j);
            var eligible := Eligible(s.cache, changes, l1, maxOffset, own);
            var outcome := Decision(eligible, maxBlocks, force, currentAnchor);
            (j == 0 ==> Seen(s.cache, changes, l1, maxOffset, own) == r.cache) &&
            (j == |EventSteps(r, e)| ==> Seen(s.cache, changes, l1, maxOffset, own) == Step(r, e).state.cache) &&
            (outcome.Submitted? ==>
               LongestSameAnchor(outcome.batch, eligible, outcome.anchorId) &&
               Ordered(outcome.batch) && Above(outcome.batch, r.confirmed) &&
               (j == |EventSteps(r, e)| ==> Above(outcome.batch, Step(r, e).state.confirmed)) &&
               forall b | b in outcome.batch :: b.header.timestamp < l1 &&
                 ((b in s.cache && b.header.beneficiary == own && l1 - maxOffset <= b.header.timestamp) ||
                  BroughtBy(b, events + [e])))
  {
    hide Retained, Run, RunSteps, EventSteps, Step, Changed, Decision, BroughtBy, Honest, Above, StepsSoFar;
    var keep := ValidFor(l1, maxOffset, own);
    var pruned := s.(cache := Retained(s.cache, keep));
    PruneKeeps(s.cache, s.confirmed, keep);
    ReadAnytime(pruned, events, e, j);
    var changes := StepsSoFar(pruned, events, e, j);
    var eligible := Eligible(s.cache, changes, l1, maxOffset, own);
    var outcome := Decision(eligible, maxBlocks, force, currentAnchor);
    if outcome.Submitted? {
      SubmittedBatch(s.cache, changes, l1, maxOffset, own, maxBlocks, force, currentAnchor);
      assert forall b | b in outcome.batch :: b in eligible;
      AboveToo(outcome.batch, Changed(pruned.cache, changes), Run(pruned, events).confirmed);
      if j == |EventSteps(Run(pruned, events), e)| {
        AboveToo(outcome.batch, Changed(pruned.cache, changes), Step(Run(pruned, events), e).state.confirmed);
      }
    }
  }

  lemma AboveToo(some: seq<Block>, all: seq<Block>, watermark: Option<nat>)
    requires Above(all, watermark) && forall b | b in some :: b in all
    ensures Above(some, watermark)
  {
  }
}
