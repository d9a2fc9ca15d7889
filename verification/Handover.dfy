/** The two loops of a node, one iteration a tick: who builds blocks and who confirms them. All
    nodes read one whitelist; a read, and any tick, may be missed. */
module Handover {
  import opened Addresses
  import opened Slots
  import opened Whitelist
  import opened Wrappers

  // ---- responsibility for a slot -------------------------------------------------------------

  datatype Config = Config(slots: SlotModel, l2: nat, handoverSlots: nat) {
    /** The handover window fits the epoch; subtracting more would wrap. */
    predicate Valid() {
      slots.Divides(l2) && handoverSlots <= slots.SlotsPerEpoch()
    }

    function HandoverStart(): nat
      requires Valid()
    {
      slots.SlotsPerEpoch() - handoverSlots
    }

    predicate WithinHandoverPeriod(slot: nat)
      requires Valid()
    {
      slot >= HandoverStart()
    }

    predicate IsHandoverStartSlot(slot: nat)
      requires Valid()
    {
      slot == HandoverStart()
    }

    /** With a window as long as the epoch the subtraction wraps, and no slot qualifies. */
    predicate IsLastSlotBeforeHandoverWindow(slot: nat)
      requires Valid()
    {
      slot == HandoverStart() - 1
    }
  }

  predicate CanPreconfirm(cfg: Config, active: Option<nat>, slot: Slot)
    requires cfg.Valid()
  {
    active.Some? &&
    ((slot.epoch + 1 == active.value && cfg.WithinHandoverPeriod(slot.slot)) ||
     (slot.epoch == active.value && !cfg.WithinHandoverPeriod(slot.slot)))
  }

  predicate CanConfirm(active: Option<nat>, slot: Slot) {
    active.Some? && slot.epoch == active.value
  }

  predicate IsFirstPreconfirmationSlot(cfg: Config, active: Option<nat>, slot: Slot)
    requires cfg.Valid()
  {
    active.Some? && slot.epoch + 1 == active.value && slot.slot == cfg.HandoverStart()
  }

  // ---- ticks as functions --------------------------------------------------------------------

  type WhitelistOf = nat -> Address

  datatype NodeState = NodeState(operators: seq<ActiveOperator>, active: Option<nat>)

  /** One loop iteration: its time, whether the wait for the previous preconfer is on at its start
      and, should this iteration begin that wait, whether it outlasts the grace period, and whether
      the read of the next operator succeeds. */
  datatype TickInput = TickInput(time: nat, waiting: bool, stillWaiting: bool, readOk: bool)

  function Read(whitelist: WhitelistOf, epoch: nat, ok: bool): Option<Address> {
    if ok then Some(whitelist(epoch)) else None
  }

  /** What both loops do before they start ticking. */
  function Started(whitelist: WhitelistOf, me: Address, epoch: nat, currentOk: bool, nextOk: bool): NodeState {
    var current := CurrentUpdated([], epoch, Read(whitelist, epoch, currentOk));
    var operators := NextUpdated(current, epoch, Read(whitelist, epoch + 1, nextOk));
    var active := if IsActiveIn(operators, me, epoch) then Some(epoch) else None;
    NodeState(operators, if IsActiveIn(operators, me, epoch + 1) then Some(epoch + 1) else active)
  }

  /** The first half of an iteration: drop past epochs, activate the next one. */
  function Prepared(cfg: Config, me: Address, s: NodeState, slot: Slot, epochStart: bool, slotStart: bool): NodeState
    requires cfg.Valid()
  {
    var operators := if epochStart then EpochChanged(s.operators, slot.epoch) else s.operators;
    var activate := cfg.IsHandoverStartSlot(slot.slot) && slotStart && IsActiveIn(operators, me, slot.epoch + 1);
    NodeState(operators, if activate then Some(slot.epoch + 1) else s.active)
  }

  /** The end of an iteration: look up the next operator in the last slot before the window. */
  function Finished(cfg: Config, whitelist: WhitelistOf, s: NodeState, slot: Slot, readOk: bool): NodeState
    requires cfg.Valid()
  {
    if cfg.IsLastSlotBeforeHandoverWindow(slot.slot) then
      s.(operators := NextUpdated(s.operators, slot.epoch, Read(whitelist, slot.epoch + 1, readOk)))
    else s
  }

  /** `passed`: the build guard holds; `built`: a block is built; `startsWait`: the wait begins. */
  datatype BuildTick = BuildTick(state: NodeState, passed: bool, built: bool, endOfSequencing: bool, startsWait: bool)

  predicate BuildGuard(cfg: Config, me: Address, s: NodeState, slot: Slot)
    requires cfg.Valid()
  {
    CanPreconfirm(cfg, s.active, slot) || IsCurrentAndNext(s.operators, me)
  }

  function Subslot(cfg: Config, time: nat): nat
    requires cfg.Valid() && time >= cfg.slots.genesis
  {
    cfg.slots.GetSlot(time).slot * cfg.slots.SubslotsPerSlot(cfg.l2) + cfg.slots.SubslotInSlot(time, cfg.l2)
  }

  /** The last subslot of the last slot before the window. */
  predicate IsEndOfSequencing(cfg: Config, slot: nat, subslot: nat)
    requires cfg.Valid()
  {
    SubslotDuration(cfg.slots, cfg.l2);
    cfg.IsLastSlotBeforeHandoverWindow(slot) &&
    subslot % cfg.slots.SubslotsPerSlot(cfg.l2) == cfg.slots.SubslotsPerSlot(cfg.l2) - 1
  }

  function AfterBuildTick(cfg: Config, whitelist: WhitelistOf, me: Address, s: NodeState, input: TickInput): BuildTick
    requires cfg.Valid() && input.time >= cfg.slots.genesis
  {
    if input.waiting then BuildTick(s, false, false, false, false)
    else
      var slot, subslotInSlot := cfg.slots.GetSlot(input.time), cfg.slots.SubslotInSlot(input.time, cfg.l2);
      var subslot := Subslot(cfg, input.time);
      var prepared := Prepared(cfg, me, s, slot, subslot == 0, subslotInSlot == 0);
      var passed := BuildGuard(cfg, me, prepared, slot);
      var startsWait := passed && IsFirstPreconfirmationSlot(cfg, prepared.active, slot) && subslot == 0;
      if startsWait && input.stillWaiting then BuildTick(prepared, true, false, false, true)
      else BuildTick(Finished(cfg, whitelist, prepared, slot, input.readOk), passed, passed,
                     passed && IsEndOfSequencing(cfg, slot.slot, subslot), startsWait)
  }

  /** `sends`: the confirmation strategy is called, with `force` in the handover window. */
  datatype ConfirmTick = ConfirmTick(state: NodeState, sends: bool, force: bool)

  predicate ConfirmGuard(cfg: Config, me: Address, s: NodeState, slot: Slot)
    requires cfg.Valid()
  {
    (CanConfirm(s.active, slot) || IsCurrentAndNext(s.operators, me)) && !cfg.IsLastSlotBeforeHandoverWindow(slot.slot)
  }

  function AfterConfirmTick(cfg: Config, whitelist: WhitelistOf, me: Address, s: NodeState, input: TickInput)
    : ConfirmTick
    requires cfg.Valid() && input.time >= cfg.slots.genesis
  {
    var slot := cfg.slots.GetSlot(input.time);
    var prepared := Prepared(cfg, me, s, slot, slot.slot == 0, true);
    if input.waiting then ConfirmTick(prepared, false, false)
    else
      var sends := ConfirmGuard(cfg, me, prepared, slot);
      ConfirmTick(Finished(cfg, whitelist, prepared, slot, input.readOk), sends,
                  sends && cfg.WithinHandoverPeriod(slot.slot))
  }

  // ---- the loops as they run -----------------------------------------------------------------

  class PreconfSlotModel {
    const cfg: Config
    var activeEpoch: Option<nat>

    constructor (cfg: Config)
      ensures this.cfg == cfg && activeEpoch == None
    {
      this.cfg := cfg;
      activeEpoch := None;
    }

    method SetActiveEpoch(epoch: nat)
      modifies this
      ensures activeEpoch == Some(epoch)
    {
      activeEpoch := Some(epoch);
    }
  }

  /** What the two loops share: a monitor and a slot model of their own. */
  class Node {
    const cfg: Config
    const me: Address
    const monitor: WhitelistMonitor
    const model: PreconfSlotModel

    function Current(): NodeState
      reads monitor, model
    {
      NodeState(monitor.operators, model.activeEpoch)
    }

    constructor (cfg: Config, me: Address)
      requires cfg.Valid()
      ensures this.cfg == cfg && this.me == me && fresh(monitor) && fresh(model)
      ensures model.cfg == cfg && Current() == NodeState([], None)
    {
      this.cfg := cfg;
      this.me := me;
      monitor := new WhitelistMonitor();
      model := new PreconfSlotModel(cfg);
    }

    method Start(whitelist: WhitelistOf, time: nat, currentOk: bool, nextOk: bool)
      requires cfg.Valid() && time >= cfg.slots.genesis
      requires Current() == NodeState([], None)
      modifies monitor, model
      ensures Current() == Started(whitelist, me, cfg.slots.GetSlot(time).epoch, currentOk, nextOk)
    {
      var epoch := cfg.slots.GetSlot(time).epoch;
      monitor.UpdateCurrentOperator(epoch, Read(whitelist, epoch, currentOk));
      monitor.UpdateNextOperator(epoch, Read(whitelist, epoch + 1, nextOk));
      if IsActiveIn(monitor.operators, me, epoch) {
        model.SetActiveEpoch(epoch);
      }
      if IsActiveIn(monitor.operators, me, epoch + 1) {
        model.SetActiveEpoch(epoch + 1);
      }
    }

    method Build(whitelist: WhitelistOf, input: TickInput)
      returns (passed: bool, built: bool, endOfSequencing: bool, startsWait: bool)
      requires cfg.Valid() && input.time >= cfg.slots.genesis
      modifies monitor, model
      ensures BuildTick(Current(), passed, built, endOfSequencing, startsWait)
              == AfterBuildTick(cfg, whitelist, me, old(Current()), input)
    {
      passed, built, endOfSequencing, startsWait := false, false, false, false;
      if input.waiting {
        return;
      }
      var slot := cfg.slots.GetSlot(input.time);
      var subslotInSlot := cfg.slots.SubslotInSlot(input.time, cfg.l2);
      var subslot := slot.slot * cfg.slots.SubslotsPerSlot(cfg.l2) + subslotInSlot;
      if subslot == 0 {
        monitor.ChangeEpoch(slot.epoch);
      }
      if cfg.IsHandoverStartSlot(slot.slot) && subslotInSlot == 0 && IsActiveIn(monitor.operators, me, slot.epoch + 1) {
        model.SetActiveEpoch(slot.epoch + 1);
      }
      if CanPreconfirm(cfg, model.activeEpoch, slot) || IsCurrentAndNext(monitor.operators, me) {
        passed := true;
        startsWait := IsFirstPreconfirmationSlot(cfg, model.activeEpoch, slot) && subslot == 0;
        if startsWait && input.stillWaiting {
          return;
        }
        endOfSequencing := IsEndOfSequencing(cfg, slot.slot, subslot);
        built := true;
      }
      if cfg.IsLastSlotBeforeHandoverWindow(slot.slot) {
        monitor.UpdateNextOperator(slot.epoch, Read(whitelist, slot.epoch + 1, input.readOk));
      }
    }

    method Confirm(whitelist: WhitelistOf, input: TickInput) returns (sends: bool, force: bool)
      requires cfg.Valid() && input.time >= cfg.slots.genesis
      modifies monitor, model
      ensures ConfirmTick(Current(), sends, force) == AfterConfirmTick(cfg, whitelist, me, old(Current()), input)
    {
      sends, force := false, false;
      var slot := cfg.slots.GetSlot(input.time);
      if slot.slot == 0 {
        monitor.ChangeEpoch(slot.epoch);
      }
      if cfg.IsHandoverStartSlot(slot.slot) && IsActiveIn(monitor.operators, me, slot.epoch + 1) {
        model.SetActiveEpoch(slot.epoch + 1);
      }
      if input.waiting {
        return;
      }
      if (CanConfirm(model.activeEpoch, slot) || IsCurrentAndNext(monitor.operators, me)) &&
         !cfg.IsLastSlotBeforeHandoverWindow(slot.slot) {
        force := cfg.WithinHandoverPeriod(slot.slot);
        sends := true;
      }
      if cfg.IsLastSlotBeforeHandoverWindow(slot.slot) {
        monitor.UpdateNextOperator(slot.epoch, Read(whitelist, slot.epoch + 1, input.readOk));
      }
    }
  }
}
