/** Who passes the guards, over all runs of all nodes: never anyone but the slot's operator, and,
    when nothing is missed, always the operator. */
module HandoverProofs {
  import opened Addresses
  import opened Handover
  import opened Slots
  import opened Whitelist
  import opened Wrappers

  // ---- safety of one iteration ---------------------------------------------------------------

  /** The epoch whose operator may build in a slot: the next one in the last `handoverSlots` slots. */
  function Responsible(cfg: Config, slot: Slot): nat
    requires cfg.Valid()
  {
    if slot.slot + cfg.handoverSlots >= cfg.slots.SlotsPerEpoch() then slot.epoch + 1 else slot.epoch
  }

  /** What a node knows in epoch `e` is true and not out of date, and it activated only its own epochs. */
  ghost predicate Safe(whitelist: WhitelistOf, me: Address, s: NodeState, e: nat) {
    Truthful(s.operators, whitelist) && Tidy(s.operators, e) &&
    (forall o | o in s.operators :: o.epoch >= e) &&
    (s.active.Some? ==> whitelist(s.active.value) == me)
  }

  lemma NextUpdatedSafe(whitelist: WhitelistOf, operators: seq<ActiveOperator>, e: nat, ok: bool)
    requires Truthful(operators, whitelist) && Tidy(operators, e) && forall o | o in operators :: o.epoch >= e
    ensures var updated := NextUpdated(operators, e, Read(whitelist, e + 1, ok));
            Truthful(updated, whitelist) && Tidy(updated, e) && forall o | o in updated :: o.epoch >= e
  {
    hide Within;
    NextUpdatedTidy(operators, e, e, Read(whitelist, e + 1, ok));
    WithinTidy(operators, e, e, Some(e + 1));
    var kept := Within(operators, e, Some(e + 1));
    assert forall o | o in kept :: o in operators;
    assert |kept| > 0 ==> kept[|kept| - 1] in kept;
    assert forall o | o in kept[..|kept|] :: o in kept;
  }

  /** What a node knows and activates at its startup: the operators it could read, and the later one of its
      own epochs. */
  lemma StartedExactly(whitelist: WhitelistOf, me: Address, e: nat, currentOk: bool, nextOk: bool)
    ensures var s := Started(whitelist, me, e, currentOk, nextOk);
            s.operators == (if currentOk then [ActiveOperator(e, whitelist(e))] else []) +
                           (if nextOk then [ActiveOperator(e + 1, whitelist(e + 1))] else []) &&
            s.active == if nextOk && whitelist(e + 1) == me then Some(e + 1)
                        else if currentOk && whitelist(e) == me then Some(e)
                        else None
  {
    var current := CurrentUpdated([], e, Read(whitelist, e, currentOk));
    assert Within([], e + 1, None) == [];
    assert current == if currentOk then [ActiveOperator(e, whitelist(e))] else [];
    if currentOk {
      assert current[1..] == [];
      assert Within(current, e, Some(e + 1)) == current;
    }
  }

  lemma StartedSafe(whitelist: WhitelistOf, me: Address, e: nat, currentOk: bool, nextOk: bool)
    ensures Safe(whitelist, me, Started(whitelist, me, e, currentOk, nextOk), e)
  {
    var current := CurrentUpdated([], e, Read(whitelist, e, currentOk));
    assert forall o | o in current :: o == ActiveOperator(e, whitelist(e));
    NextUpdatedSafe(whitelist, current, e, nextOk);
  }

  /** Preparing is safe in the same epoch, and in a later one if past epochs are dropped. */
  lemma PreparedSafe(cfg: Config, whitelist: WhitelistOf, me: Address, s: NodeState, before: nat, slot: Slot,
                     epochStart: bool, slotStart: bool)
    requires cfg.Valid() && Safe(whitelist, me, s, before)
    requires before == slot.epoch || (before < slot.epoch && epochStart)
    ensures Safe(whitelist, me, Prepared(cfg, me, s, slot, epochStart, slotStart), slot.epoch)
  {
    hide Within;
    if epochStart {
      WithinTidy(s.operators, before, slot.epoch, None);
    }
  }

  lemma FinishedSafe(cfg: Config, whitelist: WhitelistOf, me: Address, s: NodeState, slot: Slot, readOk: bool)
    requires cfg.Valid() && Safe(whitelist, me, s, slot.epoch)
    ensures Safe(whitelist, me, Finished(cfg, whitelist, s, slot, readOk), slot.epoch)
  {
    hide NextUpdated;
    if cfg.IsLastSlotBeforeHandoverWindow(slot.slot) {
      NextUpdatedSafe(whitelist, s.operators, slot.epoch, readOk);
    }
  }

  lemma BuildGuardIsOperator(cfg: Config, whitelist: WhitelistOf, me: Address, s: NodeState, slot: Slot)
    requires cfg.Valid() && Safe(whitelist, me, s, slot.epoch) && BuildGuard(cfg, me, s, slot)
    ensures whitelist(Responsible(cfg, slot)) == me
  {
  }

  lemma ConfirmGuardIsOperator(cfg: Config, whitelist: WhitelistOf, me: Address, s: NodeState, slot: Slot)
    requires cfg.Valid() && Safe(whitelist, me, s, slot.epoch) && ConfirmGuard(cfg, me, s, slot)
    ensures whitelist(slot.epoch) == me
  {
  }

  // ---- runs ----------------------------------------------------------------------------------

  /** One node: its address, its startup and the iterations it gets to make. */
  datatype NodeRun = NodeRun(me: Address, startTime: nat, currentOk: bool, nextOk: bool, ticks: seq<TickInput>)

  /** The time of the startup, or of iteration `k - 1`. */
  function TimeAt(run: NodeRun, k: nat): nat
    requires k <= |run.ticks|
  {
    if k == 0 then run.startTime else run.ticks[k - 1].time
  }

  /** Time starts at genesis and does not run backwards. */
  ghost predicate Timely(cfg: Config, run: NodeRun) {
    cfg.Valid() && run.startTime >= cfg.slots.genesis &&
    forall k | 0 <= k < |run.ticks| :: TimeAt(run, k) <= run.ticks[k].time
  }

  lemma {:induction false} AfterGenesis(cfg: Config, run: NodeRun, k: nat)
    requires Timely(cfg, run) && k <= |run.ticks|
    ensures cfg.Valid() && TimeAt(run, k) >= cfg.slots.genesis
  {
    if k > 0 {
      AfterGenesis(cfg, run, k - 1);
    }
  }

  function EpochAt(cfg: Config, run: NodeRun, k: nat): nat
    requires Timely(cfg, run) && k <= |run.ticks|
  {
    AfterGenesis(cfg, run, k);
    cfg.slots.GetSlot(TimeAt(run, k)).epoch
  }

  function SlotOf(cfg: Config, run: NodeRun, k: nat): Slot
    requires Timely(cfg, run) && k < |run.ticks|
  {
    AfterGenesis(cfg, run, k + 1);
    cfg.slots.GetSlot(run.ticks[k].time)
  }

  function SubslotOf(cfg: Config, run: NodeRun, k: nat): nat
    requires Timely(cfg, run) && k < |run.ticks|
  {
    AfterGenesis(cfg, run, k + 1);
    Subslot(cfg, run.ticks[k].time)
  }

  lemma EpochsAdvance(cfg: Config, run: NodeRun, k: nat)
    requires Timely(cfg, run) && k < |run.ticks|
    ensures EpochAt(cfg, run, k) <= EpochAt(cfg, run, k + 1) == SlotOf(cfg, run, k).epoch
  {
    AfterGenesis(cfg, run, k);
    EpochsMonotone(cfg.slots, TimeAt(run, k), run.ticks[k].time);
  }

  /** The first iteration a building node makes in a new epoch is the one that drops past epochs. */
  ghost predicate PunctualBuilder(cfg: Config, run: NodeRun) {
    Timely(cfg, run) &&
    forall k | 0 <= k < |run.ticks| && EpochAt(cfg, run, k) < EpochAt(cfg, run, k + 1) ::
      !run.ticks[k].waiting && SubslotOf(cfg, run, k) == 0
  }

  ghost predicate PunctualConfirmer(cfg: Config, run: NodeRun) {
    Timely(cfg, run) &&
    forall k | 0 <= k < |run.ticks| && EpochAt(cfg, run, k) < EpochAt(cfg, run, k + 1) :: SlotOf(cfg, run, k).slot == 0
  }

  function BuilderState(cfg: Config, whitelist: WhitelistOf, run: NodeRun, k: nat): NodeState
    requires Timely(cfg, run) && k <= |run.ticks|
    decreases k, 0
  {
    if k == 0 then Started(whitelist, run.me, EpochAt(cfg, run, 0), run.currentOk, run.nextOk)
    else BuilderTick(cfg, whitelist, run, k - 1).state
  }

  /** Iteration `k` of the preconfirmation loop. */
  function BuilderTick(cfg: Config, whitelist: WhitelistOf, run: NodeRun, k: nat): BuildTick
    requires Timely(cfg, run) && k < |run.ticks|
    decreases k, 1
  {
    AfterGenesis(cfg, run, k + 1);
    AfterBuildTick(cfg, whitelist, run.me, BuilderState(cfg, whitelist, run, k), run.ticks[k])
  }

  function ConfirmerState(cfg: Config, whitelist: WhitelistOf, run: NodeRun, k: nat): NodeState
    requires Timely(cfg, run) && k <= |run.ticks|
    decreases k, 0
  {
    if k == 0 then Started(whitelist, run.me, EpochAt(cfg, run, 0), run.currentOk, run.nextOk)
    else ConfirmerTick(cfg, whitelist, run, k - 1).state
  }

  /** Iteration `k` of the confirmation loop. */
  function ConfirmerTick(cfg: Config, whitelist: WhitelistOf, run: NodeRun, k: nat): ConfirmTick
    requires Timely(cfg, run) && k < |run.ticks|
    decreases k, 1
  {
    AfterGenesis(cfg, run, k + 1);
    AfterConfirmTick(cfg, whitelist, run.me, ConfirmerState(cfg, whitelist, run, k), run.ticks[k])
  }

  lemma {:induction false} BuilderSafe(cfg: Config, whitelist: WhitelistOf, run: NodeRun, k: nat)
    requires PunctualBuilder(cfg, run) && k <= |run.ticks|
    ensures Safe(whitelist, run.me, BuilderState(cfg, whitelist, run, k), EpochAt(cfg, run, k))
  {
    hide Safe, Started, BuilderTick, EpochAt;
    if k == 0 {
      StartedSafe(whitelist, run.me, EpochAt(cfg, run, 0), run.currentOk, run.nextOk);
    } else {
      BuilderSafe(cfg, whitelist, run, k - 1);
      BuilderTickSafe(cfg, whitelist, run, k - 1);
    }
  }

  /** An iteration of a punctual node is safe, and if it passes the guard the node is the operator. */
  lemma BuilderTickSafe(cfg: Config, whitelist: WhitelistOf, run: NodeRun, k: nat)
    requires PunctualBuilder(cfg, run) && k < |run.ticks|
    requires Safe(whitelist, run.me, BuilderState(cfg, whitelist, run, k), EpochAt(cfg, run, k))
    ensures Safe(whitelist, run.me, BuilderTick(cfg, whitelist, run, k).state, EpochAt(cfg, run, k + 1))
    ensures BuilderTick(cfg, whitelist, run, k).passed ==> whitelist(Responsible(cfg, SlotOf(cfg, run, k))) == run.me
  {
    hide Safe, Prepared, Finished, BuildGuard, Responsible, BuilderState, SlotModel.SubslotInSlot, Subslot;
    hide IsEndOfSequencing, IsFirstPreconfirmationSlot, Timely, EpochAt;
    EpochsAdvance(cfg, run, k);
    AfterGenesis(cfg, run, k + 1);
    var s, input, slot := BuilderState(cfg, whitelist, run, k), run.ticks[k], SlotOf(cfg, run, k);
    if !input.waiting {
      var epochStart := Subslot(cfg, input.time) == 0;
      var slotStart := cfg.slots.SubslotInSlot(input.time, cfg.l2) == 0;
      var prepared := Prepared(cfg, run.me, s, slot, epochStart, slotStart);
      PreparedSafe(cfg, whitelist, run.me, s, EpochAt(cfg, run, k), slot, epochStart, slotStart);
      FinishedSafe(cfg, whitelist, run.me, prepared, slot, input.readOk);
      if BuildGuard(cfg, run.me, prepared, slot) {
        BuildGuardIsOperator(cfg, whitelist, run.me, prepared, slot);
      }
    }
  }

  /** Mutual exclusion of block building: whoever passes the guard in a slot, on whatever node and
      in whatever run, is the operator of the slot's responsible epoch. */
  lemma OneBuilderPerSlot(cfg: Config, whitelist: WhitelistOf, a: NodeRun, b: NodeRun, i: nat, j: nat)
    requires PunctualBuilder(cfg, a) && PunctualBuilder(cfg, b) && i < |a.ticks| && j < |b.ticks|
    requires SlotOf(cfg, a, i) == SlotOf(cfg, b, j)
    requires BuilderTick(cfg, whitelist, a, i).passed && BuilderTick(cfg, whitelist, b, j).passed
    ensures a.me == b.me == whitelist(Responsible(cfg, SlotOf(cfg, a, i)))
  {
    BuilderSafe(cfg, whitelist, a, i);
    BuilderTickSafe(cfg, whitelist, a, i);
    BuilderSafe(cfg, whitelist, b, j);
    BuilderTickSafe(cfg, whitelist, b, j);
  }

  lemma {:induction false} ConfirmerSafe(cfg: Config, whitelist: WhitelistOf, run: NodeRun, k: nat)
    requires PunctualConfirmer(cfg, run) && k <= |run.ticks|
    ensures Safe(whitelist, run.me, ConfirmerState(cfg, whitelist, run, k), EpochAt(cfg, run, k))
  {
    hide Safe, Started, ConfirmerTick, EpochAt;
    if k == 0 {
      StartedSafe(whitelist, run.me, EpochAt(cfg, run, 0), run.currentOk, run.nextOk);
    } else {
      ConfirmerSafe(cfg, whitelist, run, k - 1);
      ConfirmerTickSafe(cfg, whitelist, run, k - 1);
    }
  }

  lemma ConfirmerTickSafe(cfg: Config, whitelist: WhitelistOf, run: NodeRun, k: nat)
    requires PunctualConfirmer(cfg, run) && k < |run.ticks|
    requires Safe(whitelist, run.me, ConfirmerState(cfg, whitelist, run, k), EpochAt(cfg, run, k))
    ensures Safe(whitelist, run.me, ConfirmerTick(cfg, whitelist, run, k).state, EpochAt(cfg, run, k + 1))
    ensures ConfirmerTick(cfg, whitelist, run, k).sends ==> whitelist(SlotOf(cfg, run, k).epoch) == run.me
  {
    hide Safe, Prepared, Finished, ConfirmGuard, ConfirmerState;
    EpochsAdvance(cfg, run, k);
    AfterGenesis(cfg, run, k + 1);
    var s, input, slot := ConfirmerState(cfg, whitelist, run, k), run.ticks[k], SlotOf(cfg, run, k);
    var prepared := Prepared(cfg, run.me, s, slot, slot.slot == 0, true);
    PreparedSafe(cfg, whitelist, run.me, s, EpochAt(cfg, run, k), slot, slot.slot == 0, true);
    FinishedSafe(cfg, whitelist, run.me, prepared, slot, input.readOk);
    if ConfirmGuard(cfg, run.me, prepared, slot) {
      ConfirmGuardIsOperator(cfg, whitelist, run.me, prepared, slot);
    }
  }
}
