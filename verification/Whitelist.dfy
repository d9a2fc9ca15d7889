/** Who may preconfirm in the current and in the next epoch, as last read from L1. */
module Whitelist {
  import opened Addresses
  import opened Wrappers

  datatype ActiveOperator = ActiveOperator(epoch: nat, operator: Address)

  /** The entries whose epoch lies within the bounds. */
  function Within(operators: seq<ActiveOperator>, from: nat, upTo: Option<nat>): (r: seq<ActiveOperator>)
    ensures forall o {:trigger o in r} :: o in r <==>
              o in operators && from <= o.epoch && (upTo.Some? ==> o.epoch <= upTo.value)
    ensures |r| <= |operators|
  {
    if |operators| == 0 then []
    else
      var rest := Within(operators[1..], from, upTo);
      if from <= operators[0].epoch && (upTo.Some? ==> operators[0].epoch <= upTo.value) then [operators[0]] + rest
      else rest
  }

  predicate IsCurrentAndNext(operators: seq<ActiveOperator>, preconfer: Address) {
    |operators| == 2 && forall o | o in operators :: o.operator == preconfer
  }

  predicate IsActiveIn(operators: seq<ActiveOperator>, preconfer: Address, epoch: nat) {
    ActiveOperator(epoch, preconfer) in operators
  }

  function EpochChanged(operators: seq<ActiveOperator>, epoch: nat): seq<ActiveOperator> {
    Within(operators, epoch, None)
  }

  /** A failed read changes nothing. */
  function CurrentUpdated(operators: seq<ActiveOperator>, epoch: nat, read: Option<Address>): seq<ActiveOperator> {
    if read.None? then operators else [ActiveOperator(epoch, read.value)] + Within(operators, epoch + 1, None)
  }

  function NextUpdated(operators: seq<ActiveOperator>, epoch: nat, read: Option<Address>): seq<ActiveOperator> {
    if read.None? then operators
    else
      var kept := Within(operators, epoch, Some(epoch + 1));
      var lastEpoch := if |kept| == 0 then 0 else kept[|kept| - 1].epoch;
      if lastEpoch < epoch + 1 then kept + [ActiveOperator(epoch + 1, read.value)]
      else kept[..|kept| - 1] + [kept[|kept| - 1].(operator := read.value)]
  }

  class WhitelistMonitor {
    var operators: seq<ActiveOperator>

    constructor ()
      ensures operators == []
    {
      operators := [];
    }

    method ChangeEpoch(currentEpoch: nat)
      modifies this
      ensures operators == EpochChanged(old(operators), currentEpoch)
    {
      operators := Within(operators, currentEpoch, None);
    }

    /** `read` is the whitelist's answer for the current epoch, if it came. */
    method UpdateCurrentOperator(epoch: nat, read: Option<Address>)
      modifies this
      ensures operators == CurrentUpdated(old(operators), epoch, read)
    {
      if read.Some? {
        operators := Within(operators, epoch + 1, None);
        if |operators| == 0 {
          operators := operators + [ActiveOperator(epoch, read.value)];
        } else {
          operators := [ActiveOperator(epoch, read.value)] + operators;
        }
      }
    }

    /** `read` is the whitelist's answer for the next epoch, if it came. */
    method UpdateNextOperator(epoch: nat, read: Option<Address>)
      modifies this
      ensures operators == NextUpdated(old(operators), epoch, read)
    {
      if read.Some? {
        operators := Within(operators, epoch, Some(epoch + 1));
        var last := if |operators| == 0 then ActiveOperator(0, 0) else operators[|operators| - 1];
        if last.epoch < epoch + 1 {
          operators := operators + [ActiveOperator(epoch + 1, read.value)];
        } else {
          operators := operators[|operators| - 1 := last.(operator := read.value)];
        }
      }
    }
  }

  // ---- what one operation leaves ---------------------------------------------------------------

  /** The entries after a successful read of the current operator: it, and the later ones. */
  lemma CurrentUpdatedEntries(operators: seq<ActiveOperator>, epoch: nat, operator: Address, o: ActiveOperator)
    ensures o in CurrentUpdated(operators, epoch, Some(operator)) <==>
            o == ActiveOperator(epoch, operator) || (o in operators && o.epoch > epoch)
    ensures CurrentUpdated(operators, epoch, None) == operators
  {
  }

  /** The entries after a successful read of the next operator: it, and those of the current epoch. */
  lemma NextUpdatedEntries(operators: seq<ActiveOperator>, epoch: nat, operator: Address, o: ActiveOperator)
    requires Tidy(operators, epoch)
    ensures o in NextUpdated(operators, epoch, Some(operator)) <==>
            o == ActiveOperator(epoch + 1, operator) || (o in operators && o.epoch == epoch)
    ensures NextUpdated(operators, epoch, None) == operators
  {
    hide Within;
    WithinTidy(operators, epoch, epoch, Some(epoch + 1));
    var kept := Within(operators, epoch, Some(epoch + 1));
    assert |kept| > 0 ==> kept == kept[..|kept| - 1] + [kept[|kept| - 1]];
  }

  /** The entries after past ones are dropped. */
  lemma EpochChangedEntries(operators: seq<ActiveOperator>, epoch: nat, o: ActiveOperator)
    ensures o in EpochChanged(operators, epoch) <==> o in operators && o.epoch >= epoch
  {
  }

  // ---- what any sequence of operations keeps -------------------------------------------------

  datatype Operation =
    | ChangeEpoch(epoch: nat)
    | UpdateCurrent(epoch: nat, read: Option<Address>)
    | UpdateNext(epoch: nat, read: Option<Address>)

  function Applied(operators: seq<ActiveOperator>, op: Operation): seq<ActiveOperator> {
    match op
    case ChangeEpoch(epoch) => EpochChanged(operators, epoch)
    case UpdateCurrent(epoch, read) => CurrentUpdated(operators, epoch, read)
    case UpdateNext(epoch, read) => NextUpdated(operators, epoch, read)
  }

  function AllApplied(operators: seq<ActiveOperator>, ops: seq<Operation>): seq<ActiveOperator> {
    if |ops| == 0 then operators else Applied(AllApplied(operators, ops[..|ops| - 1]), ops[|ops| - 1])
  }

  /** At most two entries, for consecutive epochs, none beyond the next one. */
  ghost predicate Tidy(operators: seq<ActiveOperator>, latest: nat) {
    |operators| <= 2 && (|operators| == 2 ==> operators[1].epoch == operators[0].epoch + 1) &&
    forall o | o in operators :: o.epoch <= latest + 1
  }

  /** Every entry names the whitelisted operator of its epoch. */
  ghost predicate Truthful(operators: seq<ActiveOperator>, whitelist: nat -> Address) {
    forall o | o in operators :: o.operator == whitelist(o.epoch)
  }

  /** What is left of at most two consecutive entries. */
  lemma WithinTidy(operators: seq<ActiveOperator>, latest: nat, from: nat, upTo: Option<nat>)
    requires Tidy(operators, latest)
    ensures var r := Within(operators, from, upTo);
            Tidy(r, latest) &&
            (r <= operators || (|operators| == 2 && r == [operators[1]])) &&
            forall i | 0 <= i < |r| :: from <= r[i].epoch <= latest + 1 && (upTo.Some? ==> r[i].epoch <= upTo.value)
  {
    if |operators| > 0 {
      assert |operators[1..]| <= 1;
      assert operators[0] in operators;
      if |operators| == 2 {
        assert operators[1..] == [operators[1]] && operators[1] in operators;
        assert operators[1..][1..] == [];
      }
    }
    var r := Within(operators, from, upTo);
    assert forall i | 0 <= i < |r| :: r[i] in r;
  }

  lemma CurrentUpdatedTidy(operators: seq<ActiveOperator>, latest: nat, epoch: nat, read: Option<Address>)
    requires Tidy(operators, latest) && latest <= epoch
    ensures Tidy(CurrentUpdated(operators, epoch, read), epoch)
  {
    hide Within;
    WithinTidy(operators, latest, epoch + 1, None);
  }

  lemma NextUpdatedTidy(operators: seq<ActiveOperator>, latest: nat, epoch: nat, read: Option<Address>)
    requires Tidy(operators, latest) && latest <= epoch
    ensures Tidy(NextUpdated(operators, epoch, read), epoch)
  {
    hide Within;
    WithinTidy(operators, latest, epoch, Some(epoch + 1));
  }

  lemma AppliedTidy(operators: seq<ActiveOperator>, latest: nat, op: Operation)
    requires Tidy(operators, latest) && latest <= op.epoch
    ensures Tidy(Applied(operators, op), op.epoch)
  {
    match op {
      case ChangeEpoch(epoch) => WithinTidy(operators, latest, epoch, None);
      case UpdateCurrent(epoch, read) => CurrentUpdatedTidy(operators, latest, epoch, read);
      case UpdateNext(epoch, read) => NextUpdatedTidy(operators, latest, epoch, read);
    }
  }

  ghost predicate EpochsAscend(ops: seq<Operation>) {
    forall i, j | 0 <= i < j < |ops| :: ops[i].epoch <= ops[j].epoch
  }

  /** Any sequence of operations whose epochs do not decrease, with any reads failing, starting from
      a new monitor: the stored entries stay tidy. */
  lemma {:induction false} MonitorStaysTidy(ops: seq<Operation>)
    requires EpochsAscend(ops)
    ensures Tidy(AllApplied([], ops), if |ops| == 0 then 0 else ops[|ops| - 1].epoch)
  {
    if |ops| > 0 {
      MonitorStaysTidy(ops[..|ops| - 1]);
      AppliedTidy(AllApplied([], ops[..|ops| - 1]), if |ops| == 1 then 0 else ops[|ops| - 2].epoch, ops[|ops| - 1]);
    }
  }
}
