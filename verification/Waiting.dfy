/** When the wait for the previous preconfer begins, exactly. */
module Waiting {
  import opened Coverage
  import opened Handover
  import opened HandoverProofs
  import opened Slots
  import opened Whitelist
  import opened Wrappers

  /** The window is as long as the epoch. */
  ghost predicate FullWindow(cfg: Config) {
    cfg.Valid() && cfg.handoverSlots == cfg.slots.SlotsPerEpoch()
  }

  /** The startup read the next operator, and it is the node itself. */
  ghost predicate NextIsOwn(whitelist: WhitelistOf, run: NodeRun, e0: nat) {
    run.nextOk && whitelist(e0 + 1) == run.me
  }

  /** With a full window nothing is read after the startup in epoch `e0`, and nothing later activated. */
  ghost predicate Frozen(whitelist: WhitelistOf, run: NodeRun, s: NodeState, e0: nat) {
    (forall o | o in s.operators :: o.epoch <= e0 + 1 && o.operator == whitelist(o.epoch)) &&
    (ActiveOperator(e0 + 1, run.me) in s.operators ==> NextIsOwn(whitelist, run, e0)) &&
    (s.active.Some? ==> e0 <= s.active.value <= e0 + 1) &&
    (s.active == Some(e0 + 1) <==> NextIsOwn(whitelist, run, e0))
  }

  lemma StartedFrozen(whitelist: WhitelistOf, run: NodeRun, e0: nat)
    ensures Frozen(whitelist, run, Started(whitelist, run.me, e0, run.currentOk, run.nextOk), e0)
  {
    var current := CurrentUpdated([], e0, Read(whitelist, e0, run.currentOk));
    assert Within([], e0 + 1, None) == [];
    assert current == if run.currentOk then Single(whitelist, e0) else [];
    if run.nextOk && run.currentOk {
      NextCompletes(whitelist, current, e0);
    }
    if run.nextOk && !run.currentOk {
      assert Within([], e0, Some(e0 + 1)) == [];
    }
  }

  /** An iteration leaves a frozen node frozen, and begins the wait in the first subslot of the startup
      epoch only. */
  lemma TickFrozen(cfg: Config, whitelist: WhitelistOf, run: NodeRun, s: NodeState, input: TickInput, e0: nat)
    requires FullWindow(cfg) && input.time >= cfg.slots.genesis && cfg.slots.GetSlot(input.time).epoch >= e0
    requires Frozen(whitelist, run, s, e0)
    ensures var tick := AfterBuildTick(cfg, whitelist, run.me, s, input);
            Frozen(whitelist, run, tick.state, e0) &&
            (tick.startsWait <==>
             !input.waiting && Subslot(cfg, input.time) == 0 && cfg.slots.GetSlot(input.time).epoch == e0 &&
             NextIsOwn(whitelist, run, e0))
  {
    hide SlotModel.SubslotInSlot, SlotModel.GetSlot, Subslot, Within, IsEndOfSequencing;
    SubslotZero(cfg, input.time);
  }

  lemma {:induction false} BuilderFrozen(cfg: Config, whitelist: WhitelistOf, run: NodeRun, k: nat)
    requires Timely(cfg, run) && FullWindow(cfg) && k <= |run.ticks|
    ensures Frozen(whitelist, run, BuilderState(cfg, whitelist, run, k), EpochAt(cfg, run, 0))
    ensures EpochAt(cfg, run, 0) <= EpochAt(cfg, run, k)
  {
    hide Frozen, Started, AfterBuildTick, SlotModel.GetSlot;
    if k == 0 {
      StartedFrozen(whitelist, run, EpochAt(cfg, run, 0));
    } else {
      BuilderFrozen(cfg, whitelist, run, k - 1);
      EpochsAdvance(cfg, run, k - 1);
      AfterGenesis(cfg, run, k);
      TickFrozen(cfg, whitelist, run, BuilderState(cfg, whitelist, run, k - 1), run.ticks[k - 1], EpochAt(cfg, run, 0));
    }
  }

  /** In any run, the wait begins exactly when the window is as long as the epoch and an iteration runs
      in the first subslot of the startup epoch, on a node that read at its startup that it operates the
      next one. In no later epoch does it ever begin. */
  lemma WaitBeginsIff(cfg: Config, whitelist: WhitelistOf, run: NodeRun, k: nat)
    requires Timely(cfg, run) && k < |run.ticks|
    ensures BuilderTick(cfg, whitelist, run, k).startsWait <==>
            FullWindow(cfg) && !run.ticks[k].waiting && SubslotOf(cfg, run, k) == 0 &&
            SlotOf(cfg, run, k).epoch == EpochAt(cfg, run, 0) && NextIsOwn(whitelist, run, EpochAt(cfg, run, 0))
  {
    hide Frozen, AfterBuildTick, BuilderState, Subslot, SlotModel.GetSlot;
    AfterGenesis(cfg, run, k + 1);
    var s, input := BuilderState(cfg, whitelist, run, k), run.ticks[k];
    if FullWindow(cfg) {
      BuilderFrozen(cfg, whitelist, run, k);
      EpochsAdvance(cfg, run, k);
      TickFrozen(cfg, whitelist, run, s, input, EpochAt(cfg, run, 0));
    } else if AfterBuildTick(cfg, whitelist, run.me, s, input).startsWait {
      WaitNeedsFullWindow(cfg, whitelist, run.me, s, input);
    }
  }
}
