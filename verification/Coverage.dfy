/** When no slot is missed and one read of the next operator succeeds per epoch, the guards select
    exactly the operator. */
module Coverage {
  import opened Addresses
  import opened Handover
  import opened HandoverProofs
  import opened Slots
  import opened Whitelist
  import opened Wrappers

  /** A proper handover window: not empty and shorter than the epoch. */
  ghost predicate ProperWindow(cfg: Config) {
    cfg.Valid() && 0 < cfg.handoverSlots < cfg.slots.SlotsPerEpoch()
  }

  // ---- the wait for the previous preconfer ---------------------------------------------------

  /** The wait can only begin when the window is as long as the epoch: it needs the first slot of
      the window and the first subslot of the epoch at once. */
  lemma WaitNeedsFullWindow(cfg: Config, whitelist: WhitelistOf, me: Address, s: NodeState, input: TickInput)
    requires cfg.Valid() && input.time >= cfg.slots.genesis
    requires AfterBuildTick(cfg, whitelist, me, s, input).startsWait
    ensures cfg.handoverSlots == cfg.slots.SlotsPerEpoch()
  {
    hide SlotModel.SubslotInSlot;
    SubslotDuration(cfg.slots, cfg.l2);
    var slot, sps := cfg.slots.GetSlot(input.time), cfg.slots.SubslotsPerSlot(cfg.l2);
    assert Subslot(cfg, input.time) == 0;
    if slot.slot > 0 {
      ProductGap(0, slot.slot, sps);
    }
  }

  // ---- end of sequencing ---------------------------------------------------------------------

  /** Exactly one subslot of an epoch ends the sequencing: the last one before the window. */
  lemma EndOfSequencingIsUnique(cfg: Config, subslot: nat)
    requires cfg.Valid() && cfg.handoverSlots < cfg.slots.SlotsPerEpoch()
    ensures cfg.slots.SubslotsPerSlot(cfg.l2) > 0
    ensures IsEndOfSequencing(cfg, subslot / cfg.slots.SubslotsPerSlot(cfg.l2), subslot) <==>
            subslot + 1 == (cfg.slots.SlotsPerEpoch() - cfg.handoverSlots) * cfg.slots.SubslotsPerSlot(cfg.l2)
  {
    SubslotDuration(cfg.slots, cfg.l2);
    var q, h := cfg.slots.SubslotsPerSlot(cfg.l2), cfg.slots.SlotsPerEpoch() - cfg.handoverSlots;
    var s, j := subslot / q, subslot % q;
    assert subslot == s * q + j;
    assert (s + 1) * q == s * q + q;
    if subslot + 1 == h * q {
      assert (h - 1) * q + (q - 1) == subslot;
      QuotientUnique(subslot, q, h - 1, q - 1);
    }
  }

  // ---- what a node knows, slot by slot -------------------------------------------------------

  function Single(whitelist: WhitelistOf, e: nat): seq<ActiveOperator> {
    [ActiveOperator(e, whitelist(e))]
  }

  function Both(whitelist: WhitelistOf, e: nat): seq<ActiveOperator> {
    [ActiveOperator(e, whitelist(e)), ActiveOperator(e + 1, whitelist(e + 1))]
  }

  /** The node activated epoch `e` if it operates it. */
  ghost predicate OwnActive(whitelist: WhitelistOf, me: Address, active: Option<nat>, e: nat) {
    whitelist(e) == me ==> active == Some(e)
  }

  /** The node activated the later of the two epochs it operates. */
  ghost predicate LatestActive(whitelist: WhitelistOf, me: Address, active: Option<nat>, e: nat) {
    if whitelist(e + 1) == me then active == Some(e + 1) else OwnActive(whitelist, me, active, e)
  }

  /** Inside an iteration in `slot`, on a node started in epoch `e0`. */
  ghost predicate Informed(cfg: Config, whitelist: WhitelistOf, me: Address, s: NodeState, slot: Slot, e0: nat)
    requires cfg.Valid()
  {
    var e, h := slot.epoch, cfg.slots.SlotsPerEpoch() - cfg.handoverSlots;
    e >= e0 &&
    ((s.operators == Both(whitelist, e) && LatestActive(whitelist, me, s.active, e) && (e == e0 || slot.slot >= h)) ||
     (s.operators == Single(whitelist, e) && OwnActive(whitelist, me, s.active, e) && e > e0 && slot.slot < h) ||
     (s.operators == Both(whitelist, e) && OwnActive(whitelist, me, s.active, e) && e > e0 && slot.slot == h - 1))
  }

  lemma WithinSingle(o: ActiveOperator, from: nat, upTo: Option<nat>)
    ensures Within([o], from, upTo) == if from <= o.epoch && (upTo.Some? ==> o.epoch <= upTo.value) then [o] else []
  {
  }

  lemma WithinBoth(whitelist: WhitelistOf, e: nat)
    ensures Within(Both(whitelist, e), e, Some(e + 1)) == Both(whitelist, e)
    ensures Within(Both(whitelist, e), e, None) == Both(whitelist, e)
    ensures Within(Both(whitelist, e), e + 1, None) == Single(whitelist, e + 1)
  {
    assert Both(whitelist, e)[1..] == Single(whitelist, e + 1);
    WithinSingle(ActiveOperator(e + 1, whitelist(e + 1)), e, Some(e + 1));
    WithinSingle(ActiveOperator(e + 1, whitelist(e + 1)), e, None);
    WithinSingle(ActiveOperator(e + 1, whitelist(e + 1)), e + 1, None);
  }

  /** Reading the next operator completes the entries, or confirms them. */
  lemma NextCompletes(whitelist: WhitelistOf, operators: seq<ActiveOperator>, e: nat)
    requires operators == Single(whitelist, e) || operators == Both(whitelist, e)
    ensures NextUpdated(operators, e, Some(whitelist(e + 1))) == Both(whitelist, e)
  {
    WithinSingle(ActiveOperator(e, whitelist(e)), e, Some(e + 1));
    WithinBoth(whitelist, e);
  }

  lemma StartedInformed(cfg: Config, whitelist: WhitelistOf, me: Address, slot: Slot)
    requires cfg.Valid()
    ensures Informed(cfg, whitelist, me, Started(whitelist, me, slot.epoch, true, true), slot, slot.epoch)
  {
  }

  lemma BothActive(whitelist: WhitelistOf, me: Address, e: nat)
    ensures IsActiveIn(Both(whitelist, e), me, e) <==> whitelist(e) == me
    ensures IsActiveIn(Both(whitelist, e), me, e + 1) <==> whitelist(e + 1) == me
    ensures IsCurrentAndNext(Both(whitelist, e), me) <==> whitelist(e) == me && whitelist(e + 1) == me
  {
  }

  /** From one iteration into the next one, in the same slot or the following one. */
  lemma PreparedInformed(cfg: Config, whitelist: WhitelistOf, me: Address, s: NodeState, before: Slot, slot: Slot,
                         slotStart: bool, e0: nat)
    requires ProperWindow(cfg) && Informed(cfg, whitelist, me, s, before, e0)
    requires before.slot < cfg.slots.SlotsPerEpoch()
    requires slot == before || (slot == Following(cfg.slots, before) && slotStart)
    requires slot != before && slot.slot + cfg.handoverSlots == cfg.slots.SlotsPerEpoch() ==>
               s.operators == Both(whitelist, slot.epoch)
    ensures Informed(cfg, whitelist, me, Prepared(cfg, me, s, slot, slot.slot == 0 && slotStart, slotStart), slot, e0)
    ensures slot == before && s.operators == Both(whitelist, slot.epoch) ==>
            Prepared(cfg, me, s, slot, slot.slot == 0 && slotStart, slotStart).operators == Both(whitelist, slot.epoch)
  {
    hide Within;
    var e := slot.epoch;
    if slot.epoch != before.epoch {
      WithinBoth(whitelist, before.epoch);
    } else {
      WithinBoth(whitelist, e);
      WithinSingle(ActiveOperator(e, whitelist(e)), e, None);
    }
    BothActive(whitelist, me, e);
  }

  /** The end of an iteration keeps what is known, and a successful read completes it. */
  lemma FinishedInformed(cfg: Config, whitelist: WhitelistOf, me: Address, s: NodeState, slot: Slot, e0: nat,
                         readOk: bool)
    requires cfg.Valid() && Informed(cfg, whitelist, me, s, slot, e0)
    ensures var finished := Finished(cfg, whitelist, s, slot, readOk);
            Informed(cfg, whitelist, me, finished, slot, e0) &&
            (s.operators == Both(whitelist, slot.epoch) ||
             (readOk && slot.slot + cfg.handoverSlots + 1 == cfg.slots.SlotsPerEpoch()) ==>
               finished.operators == Both(whitelist, slot.epoch))
  {
    hide Within;
    NextCompletes(whitelist, Single(whitelist, slot.epoch), slot.epoch);
    NextCompletes(whitelist, Both(whitelist, slot.epoch), slot.epoch);
  }

  /** An informed node passes the guards wherever it should. */
  lemma InformedPasses(cfg: Config, whitelist: WhitelistOf, me: Address, s: NodeState, slot: Slot, e0: nat)
    requires cfg.Valid() && Informed(cfg, whitelist, me, s, slot, e0)
    ensures whitelist(Responsible(cfg, slot)) == me ==> BuildGuard(cfg, me, s, slot)
    ensures whitelist(slot.epoch) == me && slot.slot + cfg.handoverSlots + 1 != cfg.slots.SlotsPerEpoch() ==>
              ConfirmGuard(cfg, me, s, slot)
  {
  }

  // ---- schedules -----------------------------------------------------------------------------

  /** The slot at startup, or at iteration `k - 1`. */
  function SlotAt(cfg: Config, run: NodeRun, k: nat): Slot
    requires Timely(cfg, run) && k <= |run.ticks|
  {
    AfterGenesis(cfg, run, k);
    cfg.slots.GetSlot(TimeAt(run, k))
  }

  function SubslotInSlotOf(cfg: Config, run: NodeRun, k: nat): nat
    requires Timely(cfg, run) && k < |run.ticks|
  {
    AfterGenesis(cfg, run, k + 1);
    cfg.slots.SubslotInSlot(run.ticks[k].time, cfg.l2)
  }

  /** Before iteration `k` a read of the next operator succeeded in the current slot, the last one
      before the window. */
  ghost predicate KnowsNext(cfg: Config, run: NodeRun, k: nat)
    requires Timely(cfg, run) && k <= |run.ticks|
  {
    k > 0 && SlotOf(cfg, run, k - 1).slot + cfg.handoverSlots + 1 == cfg.slots.SlotsPerEpoch() &&
    (run.ticks[k - 1].readOk || (SlotOf(cfg, run, k - 1) == SlotAt(cfg, run, k - 1) && KnowsNext(cfg, run, k - 1)))
  }

  /** Both reads of the startup succeed and, in every later epoch, at least one of the reads in the last
      slot before the window. */
  ghost predicate ReadsSuffice(cfg: Config, run: NodeRun)
    requires Timely(cfg, run)
  {
    run.currentOk && run.nextOk &&
    forall k | 0 <= k < |run.ticks| && SlotOf(cfg, run, k) != SlotAt(cfg, run, k) &&
               SlotAt(cfg, run, k).epoch > EpochAt(cfg, run, 0) &&
               SlotAt(cfg, run, k).slot + cfg.handoverSlots + 1 == cfg.slots.SlotsPerEpoch() ::
      KnowsNext(cfg, run, k)
  }

  /** From one iteration to the next it is the same slot or the following one. */
  ghost predicate SkipsNoSlot(cfg: Config, run: NodeRun)
    requires Timely(cfg, run)
  {
    forall k | 0 <= k < |run.ticks| ::
      SlotOf(cfg, run, k) == SlotAt(cfg, run, k) || SlotOf(cfg, run, k) == Following(cfg.slots, SlotAt(cfg, run, k))
  }

  /** No slot is skipped, and enough reads succeed. */
  ghost predicate Attentive(cfg: Config, run: NodeRun) {
    Timely(cfg, run) && SkipsNoSlot(cfg, run) && ReadsSuffice(cfg, run)
  }

  /** A slot is entered in its first subslot. Other subslots may be skipped. */
  ghost predicate StartsNoSlotLate(cfg: Config, run: NodeRun)
    requires Timely(cfg, run)
  {
    forall k | 0 <= k < |run.ticks| && SlotOf(cfg, run, k) != SlotAt(cfg, run, k) :: SubslotInSlotOf(cfg, run, k) == 0
  }

  ghost predicate AttentiveBuilder(cfg: Config, run: NodeRun) {
    Attentive(cfg, run) && StartsNoSlotLate(cfg, run)
  }

  /** The waiting flag of a node is raised by an iteration of its own building loop and by nothing else. */
  ghost predicate FlagRaisedByBuilder(cfg: Config, whitelist: WhitelistOf, builder: NodeRun, run: NodeRun)
    requires Timely(cfg, builder)
  {
    forall k | 0 <= k < |run.ticks| && run.ticks[k].waiting ::
      exists i | 0 <= i < |builder.ticks| :: BuilderTick(cfg, whitelist, builder, i).startsWait
  }

  lemma NeverWaits(cfg: Config, whitelist: WhitelistOf, builder: NodeRun, run: NodeRun)
    requires ProperWindow(cfg) && Timely(cfg, builder) && FlagRaisedByBuilder(cfg, whitelist, builder, run)
    ensures forall k | 0 <= k < |run.ticks| :: !run.ticks[k].waiting
  {
    hide AfterBuildTick;
    forall i | 0 <= i < |builder.ticks| ensures !BuilderTick(cfg, whitelist, builder, i).startsWait {
      AfterGenesis(cfg, builder, i + 1);
      if BuilderTick(cfg, whitelist, builder, i).startsWait {
        WaitNeedsFullWindow(cfg, whitelist, builder.me, BuilderState(cfg, whitelist, builder, i), builder.ticks[i]);
      }
    }
  }

  /** An iteration starts at most `step` seconds after the previous one. */
  ghost predicate ShortGaps(run: NodeRun, step: nat) {
    forall k | 0 <= k < |run.ticks| :: run.ticks[k].time <= TimeAt(run, k) + step
  }

  /** With gaps of at most an L2 slot no first subslot is skipped. */
  lemma ShortGapsBuilder(cfg: Config, run: NodeRun)
    requires Timely(cfg, run) && ShortGaps(run, cfg.l2)
    ensures SkipsNoSlot(cfg, run) && StartsNoSlotLate(cfg, run)
  {
    hide SlotModel.SubslotInSlot, SlotModel.GetSlot, Following;
    forall k | 0 <= k < |run.ticks|
      ensures SlotOf(cfg, run, k) == SlotAt(cfg, run, k) ||
              (SlotOf(cfg, run, k) == Following(cfg.slots, SlotAt(cfg, run, k)) && SubslotInSlotOf(cfg, run, k) == 0)
    {
      AfterGenesis(cfg, run, k);
      WithinOneSubslot(cfg.slots, cfg.l2, TimeAt(run, k), run.ticks[k].time);
      NextSubslot(cfg.slots, cfg.l2, TimeAt(run, k));
    }
  }

  /** With gaps of at most an L1 slot no slot is skipped. */
  lemma ShortGapsConfirmer(cfg: Config, run: NodeRun)
    requires Timely(cfg, run) && ShortGaps(run, cfg.slots.slotDuration)
    ensures SkipsNoSlot(cfg, run)
  {
    hide SlotModel.SubslotInSlot, SlotModel.GetSlot, Following;
    forall k | 0 <= k < |run.ticks|
      ensures SlotOf(cfg, run, k) == SlotAt(cfg, run, k) ||
              SlotOf(cfg, run, k) == Following(cfg.slots, SlotAt(cfg, run, k))
    {
      AfterGenesis(cfg, run, k);
      WithinOneSubslot(cfg.slots, cfg.slots.slotDuration, TimeAt(run, k), run.ticks[k].time);
      NextSlot(cfg.slots, TimeAt(run, k));
    }
  }

  ghost predicate EveryReadSucceeds(run: NodeRun) {
    forall k | 0 <= k < |run.ticks| :: run.ticks[k].readOk
  }

  /** If every read succeeds, enough reads do. */
  lemma EveryReadSuffices(cfg: Config, run: NodeRun)
    requires Timely(cfg, run) && run.currentOk && run.nextOk && EveryReadSucceeds(run)
    ensures ReadsSuffice(cfg, run)
  {
    hide SlotModel.GetSlot;
    forall k | 0 <= k < |run.ticks| && SlotOf(cfg, run, k) != SlotAt(cfg, run, k) &&
               SlotAt(cfg, run, k).epoch > EpochAt(cfg, run, 0) &&
               SlotAt(cfg, run, k).slot + cfg.handoverSlots + 1 == cfg.slots.SlotsPerEpoch()
      ensures KnowsNext(cfg, run, k)
    {
      if k > 0 {
        assert SlotAt(cfg, run, k) == SlotOf(cfg, run, k - 1);
      }
    }
  }

  /** `n` iterations, `step` seconds apart, with every read succeeding. */
  function Regular(me: Address, start: nat, step: nat, n: nat): NodeRun {
    NodeRun(me, start, true, true, seq(n, (i: nat) => TickInput(start + (i + 1) * step, false, false, true)))
  }

  lemma RegularGaps(cfg: Config, me: Address, start: nat, step: nat, n: nat)
    requires cfg.Valid() && start >= cfg.slots.genesis
    ensures var run := Regular(me, start, step, n);
            Timely(cfg, run) && ShortGaps(run, step) && run.currentOk && run.nextOk && EveryReadSucceeds(run)
  {
    var run := Regular(me, start, step, n);
    forall k | 0 <= k < n
      ensures TimeAt(run, k) <= run.ticks[k].time <= TimeAt(run, k) + step
    {
      assert (k + 1) * step == k * step + step;
    }
  }

  /** A regular schedule of any length is an attentive run, on every configuration. */
  lemma RegularIsAttentive(cfg: Config, whitelist: WhitelistOf, builder: NodeRun, me: Address, start: nat, n: nat)
    requires cfg.Valid() && start >= cfg.slots.genesis && Timely(cfg, builder)
    ensures AttentiveBuilder(cfg, Regular(me, start, cfg.l2, n))
    ensures Attentive(cfg, Regular(me, start, cfg.slots.slotDuration, n))
    ensures FlagRaisedByBuilder(cfg, whitelist, builder, Regular(me, start, cfg.l2, n))
    ensures FlagRaisedByBuilder(cfg, whitelist, builder, Regular(me, start, cfg.slots.slotDuration, n))
  {
    hide SkipsNoSlot, StartsNoSlotLate, ShortGaps, ReadsSuffice, Timely;
    var run, run' := Regular(me, start, cfg.l2, n), Regular(me, start, cfg.slots.slotDuration, n);
    RegularGaps(cfg, me, start, cfg.l2, n);
    ShortGapsBuilder(cfg, run);
    EveryReadSuffices(cfg, run);
    RegularGaps(cfg, me, start, cfg.slots.slotDuration, n);
    ShortGapsConfirmer(cfg, run');
    EveryReadSuffices(cfg, run');
  }

  lemma SlotInEpoch(cfg: Config, run: NodeRun, k: nat)
    requires Timely(cfg, run) && k <= |run.ticks|
    ensures cfg.Valid() && SlotAt(cfg, run, k).slot < cfg.slots.SlotsPerEpoch()
  {
    hide SlotModel.SubslotInSlot;
    AfterGenesis(cfg, run, k);
    SubslotContainsTime(cfg.slots, cfg.l2, TimeAt(run, k));
  }

  lemma Regroup(s: nat, q: nat, j: nat, d: nat)
    ensures s * (q * d) + j * d == (s * q + j) * d
  {
    assert s * (q * d) == (s * q) * d;
  }

  /** The subslot that the loop computes counts the L2 slots since the start of the epoch. */
  lemma SubslotCounts(cfg: Config, time: nat)
    requires cfg.Valid() && time >= cfg.slots.genesis
    ensures Subslot(cfg, time) == (time - cfg.slots.genesis) % cfg.slots.epochDuration / cfg.l2
    ensures cfg.slots.GetSlot(time).epoch == (time - cfg.slots.genesis) / cfg.slots.epochDuration
  {
    hide SlotModel.SubslotInSlot, SlotModel.SubslotsPerSlot, SlotModel.SlotsPerEpoch;
    var m, l2 := cfg.slots, cfg.l2;
    var e, s, j, r := PositionExists(m, l2, time);
    PositionFound(m, l2, time, e, s, j, r);
    SubslotDuration(m, l2);
    Regroup(s, m.SubslotsPerSlot(l2), j, l2);
    PositionInEpoch(m, l2, time, e, s, j, r);
    QuotientUnique((time - m.genesis) % m.epochDuration, l2, s * m.SubslotsPerSlot(l2) + j, r);
  }

  lemma SubslotZero(cfg: Config, time: nat)
    requires cfg.Valid() && time >= cfg.slots.genesis
    ensures Subslot(cfg, time) == 0 <==>
            cfg.slots.GetSlot(time).slot == 0 && cfg.slots.SubslotInSlot(time, cfg.l2) == 0
  {
    hide SlotModel.SubslotInSlot, SlotModel.GetSlot;
    SubslotDuration(cfg.slots, cfg.l2);
    if cfg.slots.GetSlot(time).slot > 0 {
      ProductGap(0, cfg.slots.GetSlot(time).slot, cfg.slots.SubslotsPerSlot(cfg.l2));
    }
  }

  // ---- an attentive node serves all of its slots and no others --------------------------------

  lemma NewEpochStarts(cfg: Config, run: NodeRun, k: nat)
    requires AttentiveBuilder(cfg, run) && k < |run.ticks| && EpochAt(cfg, run, k) < EpochAt(cfg, run, k + 1)
    ensures SubslotOf(cfg, run, k) == 0
  {
    hide SlotModel.SubslotInSlot, SlotModel.GetSlot, Subslot;
    AfterGenesis(cfg, run, k + 1);
    assert SlotOf(cfg, run, k) == Following(cfg.slots, SlotAt(cfg, run, k));
    SubslotZero(cfg, run.ticks[k].time);
  }

  lemma AttentiveBuilderIsPunctual(cfg: Config, run: NodeRun)
    requires AttentiveBuilder(cfg, run) && forall k | 0 <= k < |run.ticks| :: !run.ticks[k].waiting
    ensures PunctualBuilder(cfg, run)
  {
    hide EpochAt, SubslotOf, SubslotInSlotOf;
    forall k | 0 <= k < |run.ticks| && EpochAt(cfg, run, k) < EpochAt(cfg, run, k + 1)
      ensures SubslotOf(cfg, run, k) == 0
    {
      NewEpochStarts(cfg, run, k);
    }
  }

  lemma AttentiveConfirmerIsPunctual(cfg: Config, run: NodeRun)
    requires Attentive(cfg, run)
    ensures PunctualConfirmer(cfg, run)
  {
    hide SlotModel.SubslotInSlot, SlotModel.GetSlot;
    forall k | 0 <= k < |run.ticks| && EpochAt(cfg, run, k) < EpochAt(cfg, run, k + 1)
      ensures SlotOf(cfg, run, k).slot == 0
    {
    }
  }

  /** Between iterations: the node is informed, and knows the next operator once a read told it. */
  ghost predicate Covered(cfg: Config, whitelist: WhitelistOf, run: NodeRun, s: NodeState, k: nat)
    requires Timely(cfg, run) && k <= |run.ticks|
  {
    Informed(cfg, whitelist, run.me, s, SlotAt(cfg, run, k), EpochAt(cfg, run, 0)) &&
    (KnowsNext(cfg, run, k) ==> s.operators == Both(whitelist, SlotAt(cfg, run, k).epoch))
  }

  /** Entering the window, a node knows the next operator. */
  lemma WindowKnown(cfg: Config, whitelist: WhitelistOf, run: NodeRun, s: NodeState, k: nat)
    requires ProperWindow(cfg) && Attentive(cfg, run) && k < |run.ticks| && Covered(cfg, whitelist, run, s, k)
    requires SlotOf(cfg, run, k) != SlotAt(cfg, run, k)
    requires SlotOf(cfg, run, k).slot + cfg.handoverSlots == cfg.slots.SlotsPerEpoch()
    ensures s.operators == Both(whitelist, SlotOf(cfg, run, k).epoch)
  {
    hide SlotModel.GetSlot, KnowsNext;
    assert SlotOf(cfg, run, k) == Following(cfg.slots, SlotAt(cfg, run, k));
  }

  /** One iteration of either loop, as far as its state is concerned. */
  lemma TickCovered(cfg: Config, whitelist: WhitelistOf, run: NodeRun, s: NodeState, k: nat, slotStart: bool)
    requires ProperWindow(cfg) && Attentive(cfg, run) && k < |run.ticks| && Covered(cfg, whitelist, run, s, k)
    requires SlotOf(cfg, run, k) != SlotAt(cfg, run, k) ==> slotStart
    ensures var slot := SlotOf(cfg, run, k);
            var prepared := Prepared(cfg, run.me, s, slot, slot.slot == 0 && slotStart, slotStart);
            Informed(cfg, whitelist, run.me, prepared, slot, EpochAt(cfg, run, 0)) &&
            Covered(cfg, whitelist, run, Finished(cfg, whitelist, prepared, slot, run.ticks[k].readOk), k + 1)
  {
    hide SlotModel.GetSlot, Informed, Prepared, Finished, Following;
    var slot, e0 := SlotOf(cfg, run, k), EpochAt(cfg, run, 0);
    SlotInEpoch(cfg, run, k);
    if slot != SlotAt(cfg, run, k) && slot.slot + cfg.handoverSlots == cfg.slots.SlotsPerEpoch() {
      WindowKnown(cfg, whitelist, run, s, k);
    }
    PreparedInformed(cfg, whitelist, run.me, s, SlotAt(cfg, run, k), slot, slotStart, e0);
    var prepared := Prepared(cfg, run.me, s, slot, slot.slot == 0 && slotStart, slotStart);
    FinishedInformed(cfg, whitelist, run.me, prepared, slot, e0, run.ticks[k].readOk);
  }

  lemma {:induction false} BuilderCovered(cfg: Config, whitelist: WhitelistOf, run: NodeRun, k: nat)
    requires ProperWindow(cfg) && AttentiveBuilder(cfg, run) && k <= |run.ticks|
    requires forall k | 0 <= k < |run.ticks| :: !run.ticks[k].waiting
    ensures Covered(cfg, whitelist, run, BuilderState(cfg, whitelist, run, k), k)
  {
    hide Informed, Started, BuilderTick, SlotModel.GetSlot;
    if k == 0 {
      StartedInformed(cfg, whitelist, run.me, SlotAt(cfg, run, 0));
    } else {
      BuilderCovered(cfg, whitelist, run, k - 1);
      BuilderTickCovered(cfg, whitelist, run, k - 1);
    }
  }

  lemma BuilderTickCovered(cfg: Config, whitelist: WhitelistOf, run: NodeRun, k: nat)
    requires ProperWindow(cfg) && AttentiveBuilder(cfg, run) && k < |run.ticks| && !run.ticks[k].waiting
    requires Covered(cfg, whitelist, run, BuilderState(cfg, whitelist, run, k), k)
    ensures Covered(cfg, whitelist, run, BuilderTick(cfg, whitelist, run, k).state, k + 1)
    ensures whitelist(Responsible(cfg, SlotOf(cfg, run, k))) == run.me ==> BuilderTick(cfg, whitelist, run, k).passed
    ensures BuilderTick(cfg, whitelist, run, k).built == BuilderTick(cfg, whitelist, run, k).passed
  {
    hide Covered, Informed, Prepared, Finished, BuildGuard, Responsible, BuilderState, Following;
    hide SlotModel.SubslotInSlot;
    hide SlotModel.GetSlot, Subslot, IsEndOfSequencing, IsFirstPreconfirmationSlot, Started;
    AfterGenesis(cfg, run, k + 1);
    var s, input, slot := BuilderState(cfg, whitelist, run, k), run.ticks[k], SlotOf(cfg, run, k);
    var slotStart := cfg.slots.SubslotInSlot(input.time, cfg.l2) == 0;
    SubslotZero(cfg, input.time);
    TickCovered(cfg, whitelist, run, s, k, slotStart);
    var prepared := Prepared(cfg, run.me, s, slot, slot.slot == 0 && slotStart, slotStart);
    InformedPasses(cfg, whitelist, run.me, prepared, slot, EpochAt(cfg, run, 0));
    if AfterBuildTick(cfg, whitelist, run.me, s, input).startsWait {
      WaitNeedsFullWindow(cfg, whitelist, run.me, s, input);
    }
  }

  /** A node that misses no first subslot, and reads the next operator once per epoch, builds in exactly
      the slots it is responsible for, and ends the sequencing in exactly the last subslot before the window. */
  lemma BuildsExactlyItsSlots(cfg: Config, whitelist: WhitelistOf, run: NodeRun, k: nat)
    requires ProperWindow(cfg) && AttentiveBuilder(cfg, run) && FlagRaisedByBuilder(cfg, whitelist, run, run)
    requires k < |run.ticks|
    ensures var tick := BuilderTick(cfg, whitelist, run, k);
            (tick.passed <==> whitelist(Responsible(cfg, SlotOf(cfg, run, k))) == run.me) &&
            tick.built == tick.passed &&
            (tick.endOfSequencing <==>
             tick.passed &&
             SubslotOf(cfg, run, k) + 1
             == (cfg.slots.SlotsPerEpoch() - cfg.handoverSlots) * cfg.slots.SubslotsPerSlot(cfg.l2))
  {
    hide AfterBuildTick, BuilderState, Covered, Informed, Safe, Responsible, SlotModel.GetSlot;
    hide SlotModel.SubslotInSlot, Subslot;
    AfterGenesis(cfg, run, k + 1);
    NeverWaits(cfg, whitelist, run, run);
    AttentiveBuilderIsPunctual(cfg, run);
    BuilderSafe(cfg, whitelist, run, k);
    BuilderTickSafe(cfg, whitelist, run, k);
    BuilderCovered(cfg, whitelist, run, k);
    BuilderTickCovered(cfg, whitelist, run, k);
    EndsSequencing(cfg, whitelist, run.me, BuilderState(cfg, whitelist, run, k), run.ticks[k]);
  }

  lemma EndsSequencing(cfg: Config, whitelist: WhitelistOf, me: Address, s: NodeState, input: TickInput)
    requires ProperWindow(cfg) && input.time >= cfg.slots.genesis && !input.waiting
    ensures var tick := AfterBuildTick(cfg, whitelist, me, s, input);
            tick.endOfSequencing <==>
            tick.passed &&
            Subslot(cfg, input.time) + 1
            == (cfg.slots.SlotsPerEpoch() - cfg.handoverSlots) * cfg.slots.SubslotsPerSlot(cfg.l2)
  {
    hide SlotModel.SubslotInSlot, SlotModel.GetSlot, Prepared, Finished, BuildGuard, IsEndOfSequencing;
    hide IsFirstPreconfirmationSlot;
    if AfterBuildTick(cfg, whitelist, me, s, input).startsWait {
      WaitNeedsFullWindow(cfg, whitelist, me, s, input);
    }
    var subslot := Subslot(cfg, input.time);
    SubslotContainsTime(cfg.slots, cfg.l2, input.time);
    EndOfSequencingIsUnique(cfg, subslot);
    QuotientUnique(subslot, cfg.slots.SubslotsPerSlot(cfg.l2), cfg.slots.GetSlot(input.time).slot,
                   cfg.slots.SubslotInSlot(input.time, cfg.l2));
  }

  lemma {:induction false} ConfirmerCovered(cfg: Config, whitelist: WhitelistOf, run: NodeRun, k: nat)
    requires ProperWindow(cfg) && Attentive(cfg, run) && k <= |run.ticks|
    requires forall k | 0 <= k < |run.ticks| :: !run.ticks[k].waiting
    ensures Covered(cfg, whitelist, run, ConfirmerState(cfg, whitelist, run, k), k)
  {
    hide Informed, Started, ConfirmerTick, SlotModel.GetSlot;
    if k == 0 {
      StartedInformed(cfg, whitelist, run.me, SlotAt(cfg, run, 0));
    } else {
      ConfirmerCovered(cfg, whitelist, run, k - 1);
      ConfirmerTickCovered(cfg, whitelist, run, k - 1);
    }
  }

  lemma ConfirmerTickCovered(cfg: Config, whitelist: WhitelistOf, run: NodeRun, k: nat)
    requires ProperWindow(cfg) && Attentive(cfg, run) && k < |run.ticks| && !run.ticks[k].waiting
    requires Covered(cfg, whitelist, run, ConfirmerState(cfg, whitelist, run, k), k)
    ensures Covered(cfg, whitelist, run, ConfirmerTick(cfg, whitelist, run, k).state, k + 1)
    ensures var slot := SlotOf(cfg, run, k);
            whitelist(slot.epoch) == run.me && slot.slot + cfg.handoverSlots + 1 != cfg.slots.SlotsPerEpoch()
            ==> ConfirmerTick(cfg, whitelist, run, k).sends
  {
    hide Covered, Informed, Prepared, Finished, ConfirmGuard, ConfirmerState, Following, SlotModel.GetSlot, Started;
    AfterGenesis(cfg, run, k + 1);
    var s, slot := ConfirmerState(cfg, whitelist, run, k), SlotOf(cfg, run, k);
    TickCovered(cfg, whitelist, run, s, k, true);
    var prepared := Prepared(cfg, run.me, s, slot, slot.slot == 0, true);
    InformedPasses(cfg, whitelist, run.me, prepared, slot, EpochAt(cfg, run, 0));
  }

  /** A node that misses no slot, and reads the next operator once per epoch, sends in exactly the slots of
      its own epochs, except the last one before the window, and forces the sending in exactly the window. */
  lemma SendsExactlyInItsEpochs(cfg: Config, whitelist: WhitelistOf, builder: NodeRun, run: NodeRun, k: nat)
    requires ProperWindow(cfg) && Attentive(cfg, run)
    requires Timely(cfg, builder) && FlagRaisedByBuilder(cfg, whitelist, builder, run)
    requires k < |run.ticks|
    ensures var (slot, tick) := (SlotOf(cfg, run, k), ConfirmerTick(cfg, whitelist, run, k));
            (tick.sends <==>
             whitelist(slot.epoch) == run.me && slot.slot + cfg.handoverSlots + 1 != cfg.slots.SlotsPerEpoch()) &&
            (tick.force <==>
             whitelist(slot.epoch) == run.me && slot.slot + cfg.handoverSlots >= cfg.slots.SlotsPerEpoch())
  {
    hide ConfirmerState, Covered, Informed, Safe, Prepared, Finished, SlotModel.GetSlot;
    NeverWaits(cfg, whitelist, builder, run);
    AttentiveConfirmerIsPunctual(cfg, run);
    ConfirmerSafe(cfg, whitelist, run, k);
    ConfirmerTickSafe(cfg, whitelist, run, k);
    ConfirmerCovered(cfg, whitelist, run, k);
    ConfirmerTickCovered(cfg, whitelist, run, k);
  }

  // ---- no slot is skipped --------------------------------------------------------------------

  lemma FollowingNumber(m: SlotModel, slot: Slot)
    requires m.Valid() && slot.slot < m.SlotsPerEpoch()
    ensures m.GetSlotNumber(Following(m, slot)) == m.GetSlotNumber(slot) + 1
  {
    assert (slot.epoch + 1) * m.SlotsPerEpoch() == slot.epoch * m.SlotsPerEpoch() + m.SlotsPerEpoch();
  }

  lemma SlotNumberInjective(m: SlotModel, a: Slot, b: Slot)
    requires m.Valid() && a.slot < m.SlotsPerEpoch() && b.slot < m.SlotsPerEpoch()
    requires m.GetSlotNumber(a) == m.GetSlotNumber(b)
    ensures a == b
  {
    QuotientUnique(m.GetSlotNumber(a), m.SlotsPerEpoch(), a.epoch, a.slot);
    QuotientUnique(m.GetSlotNumber(b), m.SlotsPerEpoch(), b.epoch, b.slot);
  }

  /** An iteration falls into every slot after the startup's, up to the slot of the last iteration. */
  lemma {:induction false} EverySlotVisited(cfg: Config, run: NodeRun, upTo: nat, slot: Slot) returns (k: nat)
    requires Attentive(cfg, run)
    requires upTo <= |run.ticks| && slot.slot < cfg.slots.SlotsPerEpoch()
    requires cfg.slots.GetSlotNumber(SlotAt(cfg, run, 0)) < cfg.slots.GetSlotNumber(slot)
             <= cfg.slots.GetSlotNumber(SlotAt(cfg, run, upTo))
    ensures k < upTo && SlotOf(cfg, run, k) == slot
  {
    hide SlotModel.GetSlot, SlotModel.GetSlotNumber, Following;
    var before := SlotAt(cfg, run, upTo - 1);
    SlotInEpoch(cfg, run, upTo - 1);
    FollowingNumber(cfg.slots, before);
    if cfg.slots.GetSlotNumber(slot) <= cfg.slots.GetSlotNumber(before) {
      k := EverySlotVisited(cfg, run, upTo - 1, slot);
    } else {
      k := upTo - 1;
      SlotInEpoch(cfg, run, upTo);
      SlotNumberInjective(cfg.slots, SlotOf(cfg, run, k), slot);
    }
  }

  /** Coverage of building: in every slot after its startup's that the run reaches and that it is
      responsible for, the node builds a block. */
  lemma EveryOwnSlotIsBuilt(cfg: Config, whitelist: WhitelistOf, run: NodeRun, slot: Slot) returns (k: nat)
    requires ProperWindow(cfg) && AttentiveBuilder(cfg, run) && FlagRaisedByBuilder(cfg, whitelist, run, run)
    requires slot.slot < cfg.slots.SlotsPerEpoch() && whitelist(Responsible(cfg, slot)) == run.me
    requires cfg.slots.GetSlotNumber(SlotAt(cfg, run, 0)) < cfg.slots.GetSlotNumber(slot)
             <= cfg.slots.GetSlotNumber(SlotAt(cfg, run, |run.ticks|))
    ensures k < |run.ticks| && SlotOf(cfg, run, k) == slot && BuilderTick(cfg, whitelist, run, k).built
  {
    hide SlotModel.GetSlot, SlotModel.GetSlotNumber, Responsible, BuilderTick;
    k := EverySlotVisited(cfg, run, |run.ticks|, slot);
    BuildsExactlyItsSlots(cfg, whitelist, run, k);
  }

  /** Coverage of confirmation. */
  lemma EveryOwnSlotIsSent(cfg: Config, whitelist: WhitelistOf, builder: NodeRun, run: NodeRun, slot: Slot)
    returns (k: nat)
    requires ProperWindow(cfg) && Attentive(cfg, run)
    requires Timely(cfg, builder) && FlagRaisedByBuilder(cfg, whitelist, builder, run)
    requires slot.slot < cfg.slots.SlotsPerEpoch()
    requires slot.slot + cfg.handoverSlots + 1 != cfg.slots.SlotsPerEpoch()
    requires whitelist(slot.epoch) == run.me
    requires cfg.slots.GetSlotNumber(SlotAt(cfg, run, 0)) < cfg.slots.GetSlotNumber(slot)
             <= cfg.slots.GetSlotNumber(SlotAt(cfg, run, |run.ticks|))
    ensures k < |run.ticks| && SlotOf(cfg, run, k) == slot && ConfirmerTick(cfg, whitelist, run, k).sends
  {
    hide SlotModel.GetSlot, SlotModel.GetSlotNumber, ConfirmerTick;
    k := EverySlotVisited(cfg, run, |run.ticks|, slot);
    SendsExactlyInItsEpochs(cfg, whitelist, builder, run, k);
  }
}
