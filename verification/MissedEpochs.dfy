/** Why the first iterations of the epochs matter: without them a node may build, or send, in a slot of
    somebody else. This is when exactly, for the building loop and for the confirmation loop. */
module MissedEpochs {
  import opened Addresses
  import opened Coverage
  import opened Handover
  import opened HandoverProofs
  import opened Slots
  import opened Whitelist
  import opened Wrappers

  /** What holds of the state of any node in any run, whatever it misses. */
  ghost predicate Honest(whitelist: WhitelistOf, me: Address, s: NodeState, e: nat) {
    Truthful(s.operators, whitelist) && Tidy(s.operators, e) && (s.active.Some? ==> whitelist(s.active.value) == me)
  }

  lemma NextUpdatedHonest(whitelist: WhitelistOf, operators: seq<ActiveOperator>, e: nat, ok: bool)
    requires Truthful(operators, whitelist) && Tidy(operators, e)
    ensures var updated := NextUpdated(operators, e, Read(whitelist, e + 1, ok));
            Truthful(updated, whitelist) && Tidy(updated, e)
  {
    hide Within;
    NextUpdatedTidy(operators, e, e, Read(whitelist, e + 1, ok));
    WithinTidy(operators, e, e, Some(e + 1));
    var kept := Within(operators, e, Some(e + 1));
    assert |kept| > 0 ==> kept[|kept| - 1] in kept;
    assert forall o | o in kept :: o in operators;
  }

  lemma PreparedHonest(cfg: Config, whitelist: WhitelistOf, me: Address, s: NodeState, before: nat, slot: Slot,
                       epochStart: bool, slotStart: bool)
    requires cfg.Valid() && Honest(whitelist, me, s, before) && before <= slot.epoch
    ensures Honest(whitelist, me, Prepared(cfg, me, s, slot, epochStart, slotStart), slot.epoch)
  {
    hide Within;
    WithinTidy(s.operators, before, slot.epoch, None);
  }

  lemma BuilderTickHonest(cfg: Config, whitelist: WhitelistOf, run: NodeRun, k: nat)
    requires Timely(cfg, run) && k < |run.ticks|
    requires Honest(whitelist, run.me, BuilderState(cfg, whitelist, run, k), EpochAt(cfg, run, k))
    ensures Honest(whitelist, run.me, BuilderTick(cfg, whitelist, run, k).state, EpochAt(cfg, run, k + 1))
  {
    hide Prepared, BuilderState, SlotModel.SubslotInSlot, Subslot, IsEndOfSequencing, IsFirstPreconfirmationSlot;
    hide EpochAt;
    hide NextUpdated, BuildGuard;
    EpochsAdvance(cfg, run, k);
    AfterGenesis(cfg, run, k + 1);
    var s, input, slot := BuilderState(cfg, whitelist, run, k), run.ticks[k], SlotOf(cfg, run, k);
    if !input.waiting {
      var epochStart := Subslot(cfg, input.time) == 0;
      var slotStart := cfg.slots.SubslotInSlot(input.time, cfg.l2) == 0;
      PreparedHonest(cfg, whitelist, run.me, s, EpochAt(cfg, run, k), slot, epochStart, slotStart);
      var prepared := Prepared(cfg, run.me, s, slot, epochStart, slotStart);
      NextUpdatedHonest(whitelist, prepared.operators, slot.epoch, input.readOk);
    }
  }

  lemma {:induction false} BuilderHonest(cfg: Config, whitelist: WhitelistOf, run: NodeRun, k: nat)
    requires Timely(cfg, run) && k <= |run.ticks|
    ensures Honest(whitelist, run.me, BuilderState(cfg, whitelist, run, k), EpochAt(cfg, run, k))
  {
    hide Started, BuilderTick, EpochAt;
    if k == 0 {
      StartedSafe(whitelist, run.me, EpochAt(cfg, run, 0), run.currentOk, run.nextOk);
    } else {
      BuilderHonest(cfg, whitelist, run, k - 1);
      BuilderTickHonest(cfg, whitelist, run, k - 1);
    }
  }

  /** Both entries are the node's own, and the first one is for a past epoch. */
  ghost predicate StalePair(operators: seq<ActiveOperator>, me: Address, e: nat) {
    IsCurrentAndNext(operators, me) && operators[0].epoch < e
  }

  lemma GuardTrespassIff(cfg: Config, whitelist: WhitelistOf, me: Address, s: NodeState, slot: Slot)
    requires cfg.Valid() && Honest(whitelist, me, s, slot.epoch) && whitelist(Responsible(cfg, slot)) != me
    ensures BuildGuard(cfg, me, s, slot) <==> StalePair(s.operators, me, slot.epoch)
  {
  }

  /** In any run at all, an iteration passes the guard in a slot the node is not responsible for exactly
      when it starts, unhindered, with a stale pair and is not the one that drops past epochs. */
  lemma TrespassIff(cfg: Config, whitelist: WhitelistOf, run: NodeRun, k: nat)
    requires Timely(cfg, run) && k < |run.ticks| && whitelist(Responsible(cfg, SlotOf(cfg, run, k))) != run.me
    ensures BuilderTick(cfg, whitelist, run, k).passed <==>
            !run.ticks[k].waiting && SubslotOf(cfg, run, k) != 0 &&
            StalePair(BuilderState(cfg, whitelist, run, k).operators, run.me, SlotOf(cfg, run, k).epoch)
  {
    hide Within, Responsible, BuildGuard, BuilderState, SlotModel.SubslotInSlot, Subslot, IsEndOfSequencing, EpochAt;
    hide Finished;
    hide IsFirstPreconfirmationSlot;
    BuilderHonest(cfg, whitelist, run, k);
    EpochsAdvance(cfg, run, k);
    AfterGenesis(cfg, run, k + 1);
    var s, input, slot := BuilderState(cfg, whitelist, run, k), run.ticks[k], SlotOf(cfg, run, k);
    var epochStart, slotStart := Subslot(cfg, input.time) == 0, cfg.slots.SubslotInSlot(input.time, cfg.l2) == 0;
    var prepared := Prepared(cfg, run.me, s, slot, epochStart, slotStart);
    PreparedHonest(cfg, whitelist, run.me, s, EpochAt(cfg, run, k), slot, epochStart, slotStart);
    GuardTrespassIff(cfg, whitelist, run.me, prepared, slot);
    assert |prepared.operators| > 0 ==> prepared.operators[0] in prepared.operators;
  }

  /** A node that sleeps through the start of epoch 1 and wakes in the handover window trespasses. */
  lemma MissedEpochStartTrespasses()
    ensures var cfg := Config(SlotModel(0, 1, 4), 1, 1);
            var whitelist := (e: nat) => if e < 2 then 7 else 9;
            var run := NodeRun(7, 0, true, true, [TickInput(7, false, false, true)]);
            Timely(cfg, run) && BuilderTick(cfg, whitelist, run, 0).passed &&
            whitelist(Responsible(cfg, SlotOf(cfg, run, 0))) == 9
  {
    var cfg := Config(SlotModel(0, 1, 4), 1, 1);
    var whitelist := (e: nat) => if e < 2 then 7 else 9;
    var run := NodeRun(7, 0, true, true, [TickInput(7, false, false, true)]);
    assert SlotOf(cfg, run, 0) == Slot(1, 3);
    assert Subslot(cfg, 7) == 3;
    assert EpochAt(cfg, run, 0) == 0;
    assert CurrentUpdated([], 0, Some(7)) == Single(whitelist, 0);
    NextCompletes(whitelist, Single(whitelist, 0), 0);
    assert BuilderState(cfg, whitelist, run, 0).operators == Both(whitelist, 0);
    TrespassIff(cfg, whitelist, run, 0);
  }

  // ---- sending -------------------------------------------------------------------------------

  lemma ConfirmerTickHonest(cfg: Config, whitelist: WhitelistOf, run: NodeRun, k: nat)
    requires Timely(cfg, run) && k < |run.ticks|
    requires Honest(whitelist, run.me, ConfirmerState(cfg, whitelist, run, k), EpochAt(cfg, run, k))
    ensures Honest(whitelist, run.me, ConfirmerTick(cfg, whitelist, run, k).state, EpochAt(cfg, run, k + 1))
  {
    hide Prepared, ConfirmerState, EpochAt, NextUpdated, ConfirmGuard;
    EpochsAdvance(cfg, run, k);
    AfterGenesis(cfg, run, k + 1);
    var s, input, slot := ConfirmerState(cfg, whitelist, run, k), run.ticks[k], SlotOf(cfg, run, k);
    PreparedHonest(cfg, whitelist, run.me, s, EpochAt(cfg, run, k), slot, slot.slot == 0, true);
    var prepared := Prepared(cfg, run.me, s, slot, slot.slot == 0, true);
    NextUpdatedHonest(whitelist, prepared.operators, slot.epoch, input.readOk);
  }

  lemma {:induction false} ConfirmerHonest(cfg: Config, whitelist: WhitelistOf, run: NodeRun, k: nat)
    requires Timely(cfg, run) && k <= |run.ticks|
    ensures Honest(whitelist, run.me, ConfirmerState(cfg, whitelist, run, k), EpochAt(cfg, run, k))
  {
    hide Started, ConfirmerTick, EpochAt;
    if k == 0 {
      StartedSafe(whitelist, run.me, EpochAt(cfg, run, 0), run.currentOk, run.nextOk);
    } else {
      ConfirmerHonest(cfg, whitelist, run, k - 1);
      ConfirmerTickHonest(cfg, whitelist, run, k - 1);
    }
  }

  /** Both entries are the node's own, and both are for past epochs. */
  ghost predicate PastPair(operators: seq<ActiveOperator>, me: Address, e: nat) {
    IsCurrentAndNext(operators, me) && operators[1].epoch < e
  }

  lemma ConfirmGuardTrespassIff(cfg: Config, whitelist: WhitelistOf, me: Address, s: NodeState, slot: Slot)
    requires cfg.Valid() && Honest(whitelist, me, s, slot.epoch) && whitelist(slot.epoch) != me
    ensures ConfirmGuard(cfg, me, s, slot) <==>
            PastPair(s.operators, me, slot.epoch) && slot.slot + cfg.handoverSlots + 1 != cfg.slots.SlotsPerEpoch()
  {
    assert |s.operators| == 2 ==> s.operators[0] in s.operators && s.operators[1] in s.operators;
  }

  /** In any run at all, an iteration sends in a slot of an epoch that is not the node's own exactly when
      it starts, unhindered, with two own entries for past epochs and is neither in the slot that drops
      them nor in the last one before the window. Missing one epoch's start is not enough. */
  lemma SendTrespassIff(cfg: Config, whitelist: WhitelistOf, run: NodeRun, k: nat)
    requires Timely(cfg, run) && k < |run.ticks| && whitelist(SlotOf(cfg, run, k).epoch) != run.me
    ensures var slot := SlotOf(cfg, run, k);
            ConfirmerTick(cfg, whitelist, run, k).sends <==>
            !run.ticks[k].waiting && slot.slot != 0 &&
            slot.slot + cfg.handoverSlots + 1 != cfg.slots.SlotsPerEpoch() &&
            PastPair(ConfirmerState(cfg, whitelist, run, k).operators, run.me, slot.epoch)
  {
    hide Within, ConfirmGuard, ConfirmerState, EpochAt, Finished;
    ConfirmerHonest(cfg, whitelist, run, k);
    EpochsAdvance(cfg, run, k);
    AfterGenesis(cfg, run, k + 1);
    var s, slot := ConfirmerState(cfg, whitelist, run, k), SlotOf(cfg, run, k);
    var prepared := Prepared(cfg, run.me, s, slot, slot.slot == 0, true);
    PreparedHonest(cfg, whitelist, run.me, s, EpochAt(cfg, run, k), slot, slot.slot == 0, true);
    ConfirmGuardTrespassIff(cfg, whitelist, run.me, prepared, slot);
    assert |prepared.operators| == 2 ==> prepared.operators[1] in prepared.operators;
  }

  /** The startup epoch, or the latest epoch in whose first slot the node had an iteration. */
  function LatestStart(cfg: Config, run: NodeRun, k: nat): nat
    requires Timely(cfg, run) && k <= |run.ticks|
  {
    if k == 0 then EpochAt(cfg, run, 0)
    else if SlotOf(cfg, run, k - 1).slot == 0 then SlotOf(cfg, run, k - 1).epoch
    else LatestStart(cfg, run, k - 1)
  }

  /** A node never misses the first slots of two epochs in a row. */
  ghost predicate KeepsUp(cfg: Config, run: NodeRun) {
    Timely(cfg, run) && forall k | 0 <= k < |run.ticks| :: SlotOf(cfg, run, k).epoch <= LatestStart(cfg, run, k + 1) + 1
  }

  ghost predicate NoneBefore(operators: seq<ActiveOperator>, e: nat) {
    forall o | o in operators :: o.epoch >= e
  }

  lemma NextUpdatedNoneBefore(operators: seq<ActiveOperator>, e: nat, read: Option<Address>, least: nat)
    requires NoneBefore(operators, least) && least <= e
    ensures NoneBefore(NextUpdated(operators, e, read), least)
  {
    hide Within;
    if read.Some? {
      var kept, updated := Within(operators, e, Some(e + 1)), NextUpdated(operators, e, read);
      assert NoneBefore(kept, e);
      forall o | o in updated
        ensures o.epoch >= least
      {
        var i :| 0 <= i < |updated| && updated[i] == o;
        assert i < |kept| ==> kept[i] in kept;
      }
    }
  }

  lemma {:induction false} LatestStartBound(cfg: Config, run: NodeRun, k: nat)
    requires Timely(cfg, run) && k <= |run.ticks|
    ensures LatestStart(cfg, run, k) <= EpochAt(cfg, run, k)
  {
    if k > 0 {
      LatestStartBound(cfg, run, k - 1);
      EpochsAdvance(cfg, run, k - 1);
    }
  }

  lemma ConfirmTickNoneBefore(cfg: Config, whitelist: WhitelistOf, me: Address, s: NodeState, input: TickInput,
                              least: nat)
    requires cfg.Valid() && input.time >= cfg.slots.genesis
    requires NoneBefore(s.operators, least) && least <= cfg.slots.GetSlot(input.time).epoch
    ensures var slot := cfg.slots.GetSlot(input.time);
            NoneBefore(AfterConfirmTick(cfg, whitelist, me, s, input).state.operators,
                       if slot.slot == 0 then slot.epoch else least)
  {
    hide Within, NextUpdated, ConfirmGuard, SlotModel.GetSlot;
    var slot := cfg.slots.GetSlot(input.time);
    var prepared := Prepared(cfg, me, s, slot, slot.slot == 0, true);
    NextUpdatedNoneBefore(prepared.operators, slot.epoch, Read(whitelist, slot.epoch + 1, input.readOk),
                          if slot.slot == 0 then slot.epoch else least);
  }

  /** What a node knows is not older than its latest epoch start. */
  lemma {:induction false} ConfirmerNoneBefore(cfg: Config, whitelist: WhitelistOf, run: NodeRun, k: nat)
    requires Timely(cfg, run) && k <= |run.ticks|
    ensures NoneBefore(ConfirmerState(cfg, whitelist, run, k).operators, LatestStart(cfg, run, k))
  {
    hide AfterConfirmTick, Started, SlotModel.GetSlot;
    if k == 0 {
      StartedSafe(whitelist, run.me, EpochAt(cfg, run, 0), run.currentOk, run.nextOk);
    } else {
      ConfirmerNoneBefore(cfg, whitelist, run, k - 1);
      LatestStartBound(cfg, run, k - 1);
      EpochsAdvance(cfg, run, k - 1);
      AfterGenesis(cfg, run, k);
      ConfirmTickNoneBefore(cfg, whitelist, run.me, ConfirmerState(cfg, whitelist, run, k - 1), run.ticks[k - 1],
                            LatestStart(cfg, run, k - 1));
    }
  }

  /** A node that keeps up sends only in its own epochs. */
  lemma SenderIsOperator(cfg: Config, whitelist: WhitelistOf, run: NodeRun, k: nat)
    requires KeepsUp(cfg, run) && k < |run.ticks| && ConfirmerTick(cfg, whitelist, run, k).sends
    ensures whitelist(SlotOf(cfg, run, k).epoch) == run.me
  {
    hide ConfirmerTick, ConfirmerState, EpochAt;
    var operators := ConfirmerState(cfg, whitelist, run, k).operators;
    assert |operators| == 2 ==> operators[0] in operators;
    ConfirmerHonest(cfg, whitelist, run, k);
    ConfirmerNoneBefore(cfg, whitelist, run, k);
    if whitelist(SlotOf(cfg, run, k).epoch) != run.me {
      SendTrespassIff(cfg, whitelist, run, k);
    }
  }

  /** Mutual exclusion of confirmation: whoever sends in a slot operates the slot's epoch, on all nodes
      that never miss the first slots of two epochs in a row, whatever reads fail. */
  lemma OneSenderPerSlot(cfg: Config, whitelist: WhitelistOf, a: NodeRun, b: NodeRun, i: nat, j: nat)
    requires KeepsUp(cfg, a) && KeepsUp(cfg, b) && i < |a.ticks| && j < |b.ticks|
    requires SlotOf(cfg, a, i) == SlotOf(cfg, b, j)
    requires ConfirmerTick(cfg, whitelist, a, i).sends && ConfirmerTick(cfg, whitelist, b, j).sends
    ensures a.me == b.me == whitelist(SlotOf(cfg, a, i).epoch)
  {
    hide ConfirmerTick, KeepsUp;
    SenderIsOperator(cfg, whitelist, a, i);
    SenderIsOperator(cfg, whitelist, b, j);
  }

  lemma {:induction false} PunctualStart(cfg: Config, run: NodeRun, k: nat)
    requires PunctualConfirmer(cfg, run) && k <= |run.ticks|
    ensures LatestStart(cfg, run, k) == EpochAt(cfg, run, k)
  {
    hide EpochAt;
    if k > 0 {
      PunctualStart(cfg, run, k - 1);
      EpochsAdvance(cfg, run, k - 1);
    }
  }

  /** A node that has the first slot of every epoch keeps up. */
  lemma PunctualKeepsUp(cfg: Config, run: NodeRun)
    requires PunctualConfirmer(cfg, run)
    ensures KeepsUp(cfg, run)
  {
    hide EpochAt, LatestStart;
    forall k | 0 <= k < |run.ticks|
      ensures SlotOf(cfg, run, k).epoch <= LatestStart(cfg, run, k + 1) + 1
    {
      PunctualStart(cfg, run, k + 1);
      EpochsAdvance(cfg, run, k);
    }
  }

  /** A node that sleeps through the first slots of epochs 1 and 2 sends in an epoch of somebody else. */
  lemma MissedTwoStartsTrespasses()
    ensures var cfg := Config(SlotModel(0, 1, 4), 1, 1);
            var whitelist := (e: nat) => if e < 2 then 7 else 9;
            var run := NodeRun(7, 0, true, true, [TickInput(9, false, false, true)]);
            Timely(cfg, run) && SlotOf(cfg, run, 0).epoch == 2 && whitelist(2) == 9 &&
            ConfirmerTick(cfg, whitelist, run, 0).sends
  {
    var cfg := Config(SlotModel(0, 1, 4), 1, 1);
    var whitelist := (e: nat) => if e < 2 then 7 else 9;
    var run := NodeRun(7, 0, true, true, [TickInput(9, false, false, true)]);
    assert SlotOf(cfg, run, 0) == Slot(2, 1);
    assert EpochAt(cfg, run, 0) == 0;
    assert CurrentUpdated([], 0, Some(7)) == Single(whitelist, 0);
    NextCompletes(whitelist, Single(whitelist, 0), 0);
    assert ConfirmerState(cfg, whitelist, run, 0).operators == Both(whitelist, 0);
    SendTrespassIff(cfg, whitelist, run, 0);
  }

  // ---- misses that do no harm to building -----------------------------------------------------

  /** The startup epoch, or the latest epoch at whose start an iteration dropped past entries. */
  function LatestDrop(cfg: Config, run: NodeRun, k: nat): nat
    requires Timely(cfg, run) && k <= |run.ticks|
  {
    if k == 0 then EpochAt(cfg, run, 0)
    else if !run.ticks[k - 1].waiting && SubslotOf(cfg, run, k - 1) == 0 then SlotOf(cfg, run, k - 1).epoch
    else LatestDrop(cfg, run, k - 1)
  }

  /** Whenever an iteration may build while it still has entries from a past epoch on, the node operates no
      two epochs in a row from its latest drop up to now, or it operates the slot anyway. */
  ghost predicate MissesHarmlessly(cfg: Config, whitelist: WhitelistOf, run: NodeRun) {
    Timely(cfg, run) &&
    forall k, f: nat | 0 <= k < |run.ticks| && !run.ticks[k].waiting && SubslotOf(cfg, run, k) != 0 &&
                       LatestDrop(cfg, run, k) <= f < SlotOf(cfg, run, k).epoch ::
      (whitelist(f) == run.me && whitelist(f + 1) == run.me) ==>
        whitelist(Responsible(cfg, SlotOf(cfg, run, k))) == run.me
  }

  lemma BuildTickNoneBefore(cfg: Config, whitelist: WhitelistOf, me: Address, s: NodeState, input: TickInput,
                            least: nat)
    requires cfg.Valid() && input.time >= cfg.slots.genesis
    requires NoneBefore(s.operators, least) && least <= cfg.slots.GetSlot(input.time).epoch
    ensures var slot := cfg.slots.GetSlot(input.time);
            NoneBefore(AfterBuildTick(cfg, whitelist, me, s, input).state.operators,
                       if !input.waiting && Subslot(cfg, input.time) == 0 then slot.epoch else least)
  {
    hide Within, NextUpdated, BuildGuard, SlotModel.GetSlot, SlotModel.SubslotInSlot, Subslot, IsEndOfSequencing;
    hide IsFirstPreconfirmationSlot;
    if !input.waiting {
      var slot, dropped := cfg.slots.GetSlot(input.time), Subslot(cfg, input.time) == 0;
      var prepared := Prepared(cfg, me, s, slot, dropped, cfg.slots.SubslotInSlot(input.time, cfg.l2) == 0);
      NextUpdatedNoneBefore(prepared.operators, slot.epoch, Read(whitelist, slot.epoch + 1, input.readOk),
                            if dropped then slot.epoch else least);
    }
  }

  lemma {:induction false} LatestDropBound(cfg: Config, run: NodeRun, k: nat)
    requires Timely(cfg, run) && k <= |run.ticks|
    ensures LatestDrop(cfg, run, k) <= EpochAt(cfg, run, k)
  {
    hide SubslotOf;
    if k > 0 {
      LatestDropBound(cfg, run, k - 1);
      EpochsAdvance(cfg, run, k - 1);
    }
  }

  lemma {:induction false} BuilderNoneBefore(cfg: Config, whitelist: WhitelistOf, run: NodeRun, k: nat)
    requires Timely(cfg, run) && k <= |run.ticks|
    ensures NoneBefore(BuilderState(cfg, whitelist, run, k).operators, LatestDrop(cfg, run, k))
  {
    hide AfterBuildTick, Started, SlotModel.GetSlot, Subslot;
    if k == 0 {
      StartedSafe(whitelist, run.me, EpochAt(cfg, run, 0), run.currentOk, run.nextOk);
    } else {
      BuilderNoneBefore(cfg, whitelist, run, k - 1);
      LatestDropBound(cfg, run, k - 1);
      EpochsAdvance(cfg, run, k - 1);
      AfterGenesis(cfg, run, k);
      BuildTickNoneBefore(cfg, whitelist, run.me, BuilderState(cfg, whitelist, run, k - 1), run.ticks[k - 1],
                          LatestDrop(cfg, run, k - 1));
    }
  }

  /** A node whose misses are harmless passes the guard only in its own slots. */
  lemma BuilderIsOperator(cfg: Config, whitelist: WhitelistOf, run: NodeRun, k: nat)
    requires MissesHarmlessly(cfg, whitelist, run) && k < |run.ticks| && BuilderTick(cfg, whitelist, run, k).passed
    ensures whitelist(Responsible(cfg, SlotOf(cfg, run, k))) == run.me
  {
    hide BuilderTick, BuilderState, EpochAt, LatestDrop, SubslotOf, Responsible;
    var operators := BuilderState(cfg, whitelist, run, k).operators;
    assert |operators| == 2 ==> operators[0] in operators && operators[1] in operators;
    BuilderHonest(cfg, whitelist, run, k);
    BuilderNoneBefore(cfg, whitelist, run, k);
    if whitelist(Responsible(cfg, SlotOf(cfg, run, k))) != run.me {
      TrespassIff(cfg, whitelist, run, k);
    }
  }

  /** Mutual exclusion of building, for nodes that may miss epoch starts as long as it does no harm. */
  lemma OneBuilderDespiteMisses(cfg: Config, whitelist: WhitelistOf, a: NodeRun, b: NodeRun, i: nat, j: nat)
    requires MissesHarmlessly(cfg, whitelist, a) && MissesHarmlessly(cfg, whitelist, b)
    requires i < |a.ticks| && j < |b.ticks| && SlotOf(cfg, a, i) == SlotOf(cfg, b, j)
    requires BuilderTick(cfg, whitelist, a, i).passed && BuilderTick(cfg, whitelist, b, j).passed
    ensures a.me == b.me == whitelist(Responsible(cfg, SlotOf(cfg, a, i)))
  {
    hide BuilderTick, MissesHarmlessly;
    BuilderIsOperator(cfg, whitelist, a, i);
    BuilderIsOperator(cfg, whitelist, b, j);
  }

  lemma {:induction false} PunctualDrop(cfg: Config, run: NodeRun, k: nat)
    requires PunctualBuilder(cfg, run) && k <= |run.ticks|
    ensures LatestDrop(cfg, run, k) == EpochAt(cfg, run, k)
  {
    hide EpochAt, SubslotOf;
    if k > 0 {
      PunctualDrop(cfg, run, k - 1);
      EpochsAdvance(cfg, run, k - 1);
    }
  }

  /** A node that has the first iteration of every epoch misses harmlessly, whatever the whitelist. */
  lemma PunctualIsHarmless(cfg: Config, whitelist: WhitelistOf, run: NodeRun)
    requires PunctualBuilder(cfg, run)
    ensures MissesHarmlessly(cfg, whitelist, run)
  {
    hide EpochAt, LatestDrop, SubslotOf, Responsible;
    forall k | 0 <= k < |run.ticks| && !run.ticks[k].waiting && SubslotOf(cfg, run, k) != 0
      ensures LatestDrop(cfg, run, k) >= SlotOf(cfg, run, k).epoch
    {
      PunctualDrop(cfg, run, k);
      EpochsAdvance(cfg, run, k);
    }
  }
}
