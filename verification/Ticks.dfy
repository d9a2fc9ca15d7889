/** What one iteration of each loop does, with every point in time given by counting L2 or L1 slots from
    the start of the epoch. */
module Ticks {
  import opened Addresses
  import opened Coverage
  import opened Handover
  import opened Slots
  import opened Whitelist
  import opened Wrappers

  // ---- counting ------------------------------------------------------------------------------

  /** The running epoch. */
  function EpochOf(cfg: Config, time: nat): nat
    requires cfg.Valid() && time >= cfg.slots.genesis
  {
    (time - cfg.slots.genesis) / cfg.slots.epochDuration
  }

  /** The L2 slots of the running epoch that are over. */
  function SubslotsOver(cfg: Config, time: nat): nat
    requires cfg.Valid() && time >= cfg.slots.genesis
  {
    (time - cfg.slots.genesis) % cfg.slots.epochDuration / cfg.l2
  }

  /** The L1 slots of the running epoch that are over. */
  function SlotsOver(cfg: Config, time: nat): nat
    requires cfg.Valid() && time >= cfg.slots.genesis
  {
    (time - cfg.slots.genesis) % cfg.slots.epochDuration / cfg.slots.slotDuration
  }

  /** The L2 slots of an epoch, of an L1 slot and of the handover window. */
  function PerEpoch(cfg: Config): nat
    requires cfg.Valid()
  {
    cfg.slots.epochDuration / cfg.l2
  }

  function PerSlot(cfg: Config): nat
    requires cfg.Valid()
  {
    cfg.slots.slotDuration / cfg.l2
  }

  function PerWindow(cfg: Config): nat
    requires cfg.Valid()
  {
    cfg.handoverSlots * PerSlot(cfg)
  }

  lemma EpochCount(cfg: Config)
    requires cfg.Valid()
    ensures PerSlot(cfg) > 0 && PerEpoch(cfg) == cfg.slots.SlotsPerEpoch() * PerSlot(cfg)
    ensures cfg.slots.SlotsPerEpoch() == cfg.slots.epochDuration / cfg.slots.slotDuration
  {
    var m := cfg.slots;
    SubslotDuration(m, cfg.l2);
    var n, q := m.SlotsPerEpoch(), PerSlot(cfg);
    assert m.epochDuration == n * (q * cfg.l2) == (n * q) * cfg.l2;
    QuotientUnique(m.epochDuration, cfg.l2, n * q, 0);
  }

  /** Where the code's slot and subslot lie when counted. */
  lemma Counted(cfg: Config, time: nat)
    requires cfg.Valid() && time >= cfg.slots.genesis
    ensures var slot, j := cfg.slots.GetSlot(time), cfg.slots.SubslotInSlot(time, cfg.l2);
            slot == Slot(EpochOf(cfg, time), SlotsOver(cfg, time)) &&
            Subslot(cfg, time) == SubslotsOver(cfg, time) == slot.slot * PerSlot(cfg) + j && j < PerSlot(cfg)
  {
    hide SlotModel.SubslotInSlot;
    SubslotCounts(cfg, time);
    SubslotContainsTime(cfg.slots, cfg.l2, time);
  }

  /** Comparing a slot with the window is comparing its subslots with the window's. */
  lemma WindowCount(cfg: Config, slot: nat, j: nat)
    requires cfg.Valid() && j < PerSlot(cfg)
    ensures var over := slot * PerSlot(cfg) + j;
            (slot + cfg.handoverSlots >= cfg.slots.SlotsPerEpoch() <==> over + PerWindow(cfg) >= PerEpoch(cfg)) &&
            (slot + cfg.handoverSlots == cfg.slots.SlotsPerEpoch() && j == 0 <==>
             over + PerWindow(cfg) == PerEpoch(cfg)) &&
            (slot + cfg.handoverSlots + 1 == cfg.slots.SlotsPerEpoch() <==>
             over + PerWindow(cfg) < PerEpoch(cfg) <= over + PerWindow(cfg) + PerSlot(cfg)) &&
            (slot + cfg.handoverSlots + 1 == cfg.slots.SlotsPerEpoch() && j == PerSlot(cfg) - 1 <==>
             over + PerWindow(cfg) + 1 == PerEpoch(cfg))
  {
    EpochCount(cfg);
    var q, n, h := PerSlot(cfg), cfg.slots.SlotsPerEpoch(), cfg.handoverSlots;
    assert (slot + h) * q == slot * q + h * q;
    assert (slot + h + 1) * q == (slot + h) * q + q;
    if slot + h + 1 < n {
      ProductGap(slot + h + 1, n, q);
    } else if slot + h > n {
      ProductGap(n, slot + h, q);
    }
  }

  // ---- the iterations ------------------------------------------------------------------------

  /** What a node knows in an iteration: past epochs are forgotten at the start of an epoch. */
  function Known(s: NodeState, e: nat, epochStart: bool): seq<ActiveOperator> {
    if epochStart then EpochChanged(s.operators, e) else s.operators
  }

  /** The active epoch in an iteration: the next one from the start of the window on, if it is known to be own. */
  function Active(s: NodeState, known: seq<ActiveOperator>, me: Address, e: nat, windowStart: bool): Option<nat> {
    if windowStart && ActiveOperator(e + 1, me) in known then Some(e + 1) else s.active
  }

  /** Two entries, both own. */
  ghost predicate BothOwn(known: seq<ActiveOperator>, me: Address) {
    |known| == 2 && known[0].operator == me && known[1].operator == me
  }

  lemma BothOwnIff(known: seq<ActiveOperator>, me: Address)
    ensures BothOwn(known, me) <==> IsCurrentAndNext(known, me)
  {
    assert |known| == 2 ==> forall o | o in known :: o == known[0] || o == known[1];
    assert |known| == 2 ==> known[0] in known && known[1] in known;
  }

  /** The entries an iteration leaves: completed by a read, if there is one and it succeeds. */
  function Left(whitelist: WhitelistOf, known: seq<ActiveOperator>, e: nat, read: bool): seq<ActiveOperator> {
    if read then NextUpdated(known, e, Some(whitelist(e + 1))) else known
  }

  /** What moments of an epoch a time is at. */
  datatype Moment = Moment(
    epochStart: bool,     // in the first subslot of the epoch
    windowStart: bool,    // in the first subslot of the handover window
    inWindow: bool,       // inside the window
    beforeWindow: bool,   // in the last slot before the window
    lastBefore: bool)     // in the last subslot before the window

  /** The moment, by slot and subslot. */
  function MomentBySlot(cfg: Config, time: nat): Moment
    requires cfg.Valid() && time >= cfg.slots.genesis
  {
    var slot, j := cfg.slots.GetSlot(time).slot, cfg.slots.SubslotInSlot(time, cfg.l2);
    var before := slot + cfg.handoverSlots + 1 == cfg.slots.SlotsPerEpoch();
    Moment(Subslot(cfg, time) == 0, slot + cfg.handoverSlots == cfg.slots.SlotsPerEpoch() && j == 0,
           slot + cfg.handoverSlots >= cfg.slots.SlotsPerEpoch(), before, before && j == PerSlot(cfg) - 1)
  }

  /** The moment, by counting the L2 slots that are over. */
  function MomentByCount(cfg: Config, over: nat): Moment
    requires cfg.Valid()
  {
    var reached := over + PerWindow(cfg);
    Moment(over == 0, reached == PerEpoch(cfg), reached >= PerEpoch(cfg),
           reached < PerEpoch(cfg) <= reached + PerSlot(cfg), reached + 1 == PerEpoch(cfg))
  }

  lemma SameMoment(cfg: Config, time: nat)
    requires cfg.Valid() && time >= cfg.slots.genesis
    ensures MomentBySlot(cfg, time) == MomentByCount(cfg, SubslotsOver(cfg, time))
  {
    hide SlotModel.SubslotInSlot, SlotModel.GetSlot, Subslot, SubslotsOver, PerEpoch, PerWindow, PerSlot;
    Counted(cfg, time);
    WindowCount(cfg, cfg.slots.GetSlot(time).slot, cfg.slots.SubslotInSlot(time, cfg.l2));
  }

  /** A tick of the building loop at a moment. A waiting node does nothing. Otherwise it forgets at the start
      of the epoch and activates at the start of the window; it passes with the next epoch active inside
      the window, the running one outside, or two own entries; it builds unless it begins a wait that
      outlasts the grace period; it ends the sequencing in the last subslot before the window; and it
      reads the next operator in the slot before the window. */
  ghost predicate BuildsAt(tick: BuildTick, whitelist: WhitelistOf, me: Address, s: NodeState, input: TickInput,
                           e: nat, at: Moment)
  {
    if input.waiting then tick == BuildTick(s, false, false, false, false)
    else
      var known := Known(s, e, at.epochStart);
      var active := Active(s, known, me, e, at.windowStart);
      (tick.passed <==>
       (active == Some(e + 1) && at.inWindow) || (active == Some(e) && !at.inWindow) || BothOwn(known, me)) &&
      (tick.startsWait <==> tick.passed && active == Some(e + 1) && at.epochStart && at.windowStart) &&
      (tick.built <==> tick.passed && !(tick.startsWait && input.stillWaiting)) &&
      (tick.endOfSequencing <==> tick.built && at.lastBefore) &&
      tick.state == NodeState(Left(whitelist, known, e, at.beforeWindow && input.readOk), active)
  }

  lemma EndsAtLastSubslot(cfg: Config, time: nat)
    requires cfg.Valid() && time >= cfg.slots.genesis
    ensures IsEndOfSequencing(cfg, cfg.slots.GetSlot(time).slot, Subslot(cfg, time)) <==>
            MomentBySlot(cfg, time).lastBefore
  {
    hide SlotModel.SubslotInSlot, SlotModel.GetSlot, SubslotsOver;
    Counted(cfg, time);
    QuotientUnique(Subslot(cfg, time), PerSlot(cfg), cfg.slots.GetSlot(time).slot,
                   cfg.slots.SubslotInSlot(time, cfg.l2));
  }

  lemma BuildTickBySlot(cfg: Config, whitelist: WhitelistOf, me: Address, s: NodeState, input: TickInput)
    requires cfg.Valid() && input.time >= cfg.slots.genesis
    ensures BuildsAt(AfterBuildTick(cfg, whitelist, me, s, input), whitelist, me, s, input,
                     cfg.slots.GetSlot(input.time).epoch, MomentBySlot(cfg, input.time))
  {
    hide SlotModel.SubslotInSlot, SlotModel.GetSlot, IsEndOfSequencing, EpochChanged, Within, BothOwn;
    SubslotZero(cfg, input.time);
    EndsAtLastSubslot(cfg, input.time);
    BothOwnIff(Known(s, cfg.slots.GetSlot(input.time).epoch, Subslot(cfg, input.time) == 0), me);
    hide Subslot, IsCurrentAndNext;
  }

  /** One iteration of the building loop, counted in L2 slots from the start of the epoch. */
  lemma BuildTickExactly(cfg: Config, whitelist: WhitelistOf, me: Address, s: NodeState, input: TickInput)
    requires cfg.Valid() && input.time >= cfg.slots.genesis
    ensures BuildsAt(AfterBuildTick(cfg, whitelist, me, s, input), whitelist, me, s, input,
                     EpochOf(cfg, input.time), MomentByCount(cfg, SubslotsOver(cfg, input.time)))
  {
    hide BuildsAt, AfterBuildTick, MomentBySlot, MomentByCount, SlotModel.SubslotInSlot;
    BuildTickBySlot(cfg, whitelist, me, s, input);
    SameMoment(cfg, input.time);
    Counted(cfg, input.time);
  }

  /** One iteration of the confirmation loop, counted in L1 slots. It forgets in the first slot of the epoch
      and activates in the first one of the window, waiting or not. Unless it waits, it sends with the
      running epoch active or two own entries, but not in the last slot before the window, where it reads
      the next operator; inside the window it forces the sending. */
  lemma ConfirmTickExactly(cfg: Config, whitelist: WhitelistOf, me: Address, s: NodeState, input: TickInput)
    requires cfg.Valid() && input.time >= cfg.slots.genesis
    ensures var e, over := EpochOf(cfg, input.time), SlotsOver(cfg, input.time);
            var n := cfg.slots.epochDuration / cfg.slots.slotDuration;
            var known := Known(s, e, over == 0);
            var active := Active(s, known, me, e, over + cfg.handoverSlots == n);
            var last := over + cfg.handoverSlots + 1 == n;
            var tick := AfterConfirmTick(cfg, whitelist, me, s, input);
            (tick.sends <==> !input.waiting && (active == Some(e) || BothOwn(known, me)) && !last) &&
            (tick.force <==> tick.sends && over + cfg.handoverSlots >= n) &&
            tick.state == NodeState(Left(whitelist, known, e, !input.waiting && last && input.readOk), active)
  {
    hide SlotModel.SubslotInSlot, SlotModel.GetSlot, EpochOf, SlotsOver, EpochChanged, Within, BothOwn;
    Counted(cfg, input.time);
    BothOwnIff(Known(s, cfg.slots.GetSlot(input.time).epoch, cfg.slots.GetSlot(input.time).slot == 0), me);
    hide IsCurrentAndNext;
  }
}
