/** L1 slots, epochs and the L2 subslots inside a slot. */
module Slots {
  datatype Slot = Slot(epoch: nat, slot: nat)

  datatype SlotModel = SlotModel(genesis: nat, slotDuration: nat, epochDuration: nat) {
    predicate Valid() {
      slotDuration > 0 && epochDuration > 0
    }

    function SlotsPerEpoch(): nat
      requires Valid()
    {
      epochDuration / slotDuration
    }

    function GetSlot(timestamp: nat): Slot
      requires Valid() && timestamp >= genesis
    {
      var diff := timestamp - genesis;
      Slot(diff / epochDuration, diff % epochDuration / slotDuration)
    }

    function GetSlotNumber(slot: Slot): nat
      requires Valid()
    {
      slot.epoch * SlotsPerEpoch() + slot.slot
    }

    function GetTimestamp(slot: Slot): nat
      requires Valid()
    {
      genesis + slotDuration * GetSlotNumber(slot)
    }

    /** The L2 slot duration divides the L1 slot duration, which divides the epoch. */
    predicate Divides(l2: nat) {
      Valid() && l2 > 0 && slotDuration % l2 == 0 && epochDuration % slotDuration == 0
    }

    function SubslotsPerSlot(l2: nat): nat
      requires l2 > 0
    {
      slotDuration / l2
    }

    /** The running subslot of a slot, as the preconfirmation loop computes it. */
    function SubslotInSlot(timestamp: nat, l2: nat): nat
      requires Divides(l2) && timestamp >= genesis
    {
      SlotStartsBefore(this, l2, timestamp);
      SubslotDuration(this, l2);
      (timestamp - GetTimestamp(GetSlot(timestamp))) / (slotDuration / SubslotsPerSlot(l2))
    }

    /** The start of the running subslot. */
    function SubslotTimestamp(timestamp: nat, l2: nat): nat
      requires Divides(l2) && timestamp >= genesis
    {
      GetTimestamp(GetSlot(timestamp)) + SubslotInSlot(timestamp, l2) * l2
    }
  }

  // ---- arithmetic ----------------------------------------------------------------------------

  lemma {:induction false} ProductGap(x: nat, y: nat, k: nat)
    requires x < y
    ensures x * k + k <= y * k
  {
    assert y * k == (y - 1) * k + k;
    if x < y - 1 {
      ProductGap(x, y - 1, k);
    }
  }

  lemma QuotientUnique(d: nat, k: nat, q: nat, r: nat)
    requires r < k && d == q * k + r
    ensures d / k == q && d % k == r
  {
    var p := d / k;
    assert d == p * k + d % k;
    if p < q {
      ProductGap(p, q, k);
    } else if q < p {
      ProductGap(q, p, k);
    }
  }

  lemma ExactQuotient(a: nat, b: nat)
    requires b > 0 && a % b == 0 && a > 0
    ensures a == a / b * b && a / b > 0
  {
  }

  lemma SlotStart(m: SlotModel, l2: nat, slot: Slot)
    requires m.Divides(l2)
    ensures m.GetTimestamp(slot) == m.genesis + slot.epoch * m.epochDuration + slot.slot * m.slotDuration
  {
    var n, sd := m.SlotsPerEpoch(), m.slotDuration;
    ExactQuotient(m.epochDuration, sd);
    assert sd * (slot.epoch * n + slot.slot) == slot.epoch * (n * sd) + slot.slot * sd;
  }

  lemma SlotStartsBefore(m: SlotModel, l2: nat, t: nat)
    requires m.Divides(l2) && t >= m.genesis
    ensures m.GetTimestamp(m.GetSlot(t)) <= t
  {
    SlotStart(m, l2, m.GetSlot(t));
  }

  lemma SubslotDuration(m: SlotModel, l2: nat)
    requires m.Divides(l2)
    ensures m.SubslotsPerSlot(l2) > 0 && m.slotDuration / m.SubslotsPerSlot(l2) == l2
    ensures m.slotDuration == m.SubslotsPerSlot(l2) * l2
    ensures m.epochDuration == m.SlotsPerEpoch() * m.slotDuration && m.SlotsPerEpoch() > 0
  {
    ExactQuotient(m.slotDuration, l2);
    ExactQuotient(m.epochDuration, m.slotDuration);
    QuotientUnique(m.slotDuration, m.SubslotsPerSlot(l2), l2, 0);
  }

  /** Time `t` lies `r` seconds into subslot `j` of slot `s` of epoch `e`. */
  predicate LiesAt(m: SlotModel, l2: nat, t: nat, e: nat, s: nat, j: nat, r: nat)
    requires m.Divides(l2)
  {
    s < m.SlotsPerEpoch() && j < m.SubslotsPerSlot(l2) && r < l2 &&
    t == m.genesis + e * m.epochDuration + s * m.slotDuration + j * l2 + r
  }

  lemma SlotFound(m: SlotModel, l2: nat, t: nat, e: nat, s: nat, j: nat, r: nat)
    requires m.Divides(l2) && LiesAt(m, l2, t, e, s, j, r)
    ensures m.GetSlot(t) == Slot(e, s) && t == m.GetTimestamp(Slot(e, s)) + j * l2 + r
  {
    hide SlotModel.GetTimestamp;
    var n, q, sd := m.SlotsPerEpoch(), m.SubslotsPerSlot(l2), m.slotDuration;
    SubslotDuration(m, l2);
    ProductGap(j, q, l2);
    ProductGap(s, n, sd);
    QuotientUnique(t - m.genesis, m.epochDuration, e, s * sd + j * l2 + r);
    QuotientUnique(s * sd + j * l2 + r, sd, s, j * l2 + r);
    SlotStart(m, l2, Slot(e, s));
  }

  /** The code's arithmetic finds every position. */
  lemma PositionFound(m: SlotModel, l2: nat, t: nat, e: nat, s: nat, j: nat, r: nat)
    requires m.Divides(l2) && LiesAt(m, l2, t, e, s, j, r)
    ensures m.GetSlot(t) == Slot(e, s) && m.SubslotInSlot(t, l2) == j && t == m.SubslotTimestamp(t, l2) + r
  {
    hide SlotModel.GetTimestamp, SlotModel.GetSlot, SlotModel.SubslotsPerSlot;
    SlotFound(m, l2, t, e, s, j, r);
    SubslotDuration(m, l2);
    QuotientUnique(j * l2 + r, l2, j, r);
  }

  lemma PositionInEpoch(m: SlotModel, l2: nat, t: nat, e: nat, s: nat, j: nat, r: nat)
    requires m.Divides(l2) && LiesAt(m, l2, t, e, s, j, r)
    ensures (t - m.genesis) % m.epochDuration == s * m.slotDuration + j * l2 + r
  {
    SubslotDuration(m, l2);
    ProductGap(j, m.SubslotsPerSlot(l2), l2);
    ProductGap(s, m.SlotsPerEpoch(), m.slotDuration);
    QuotientUnique(t - m.genesis, m.epochDuration, e, s * m.slotDuration + j * l2 + r);
  }

  /** Every time from genesis on has a position. */
  lemma PositionExists(m: SlotModel, l2: nat, t: nat) returns (e: nat, s: nat, j: nat, r: nat)
    requires m.Divides(l2) && t >= m.genesis
    ensures LiesAt(m, l2, t, e, s, j, r)
    ensures e == (t - m.genesis) / m.epochDuration && s == (t - m.genesis) % m.epochDuration / m.slotDuration
  {
    var n, q, sd, ed := m.SlotsPerEpoch(), m.SubslotsPerSlot(l2), m.slotDuration, m.epochDuration;
    SubslotDuration(m, l2);
    var d := t - m.genesis;
    e := d / ed;
    var inEpoch := d % ed;
    assert d == e * ed + inEpoch;
    s := inEpoch / sd;
    var inSlot := inEpoch % sd;
    assert inEpoch == s * sd + inSlot;
    j := inSlot / l2;
    r := inSlot % l2;
    assert inSlot == j * l2 + r;
    if s >= n {
      assert s == n || n < s;
      if n < s {
        ProductGap(n, s, sd);
      }
      assert false;
    }
    if j >= q {
      if q < j {
        ProductGap(q, j, l2);
      }
      assert false;
    }
  }

  /** `slot_timestamp <= t < slot_timestamp + l2_duration`, and the subslot is one of the slot's. */
  lemma SubslotContainsTime(m: SlotModel, l2: nat, t: nat)
    requires m.Divides(l2) && t >= m.genesis
    ensures m.GetSlot(t).slot < m.SlotsPerEpoch() && m.SubslotInSlot(t, l2) < m.SubslotsPerSlot(l2)
    ensures m.SubslotTimestamp(t, l2) <= t < m.SubslotTimestamp(t, l2) + l2
    ensures m.GetTimestamp(m.GetSlot(t)) <= t < m.GetTimestamp(m.GetSlot(t)) + m.slotDuration
  {
    var e, s, j, r := PositionExists(m, l2, t);
    PositionFound(m, l2, t, e, s, j, r);
    SubslotDuration(m, l2);
    ProductGap(j, m.SubslotsPerSlot(l2), l2);
  }

  /** Reading a slot's start back gives the slot exactly when the slot exists in its epoch. */
  lemma SlotRoundTripIff(m: SlotModel, l2: nat, slot: Slot)
    requires m.Divides(l2)
    ensures m.GetSlot(m.GetTimestamp(slot)) == slot <==> slot.slot < m.SlotsPerEpoch()
  {
    SlotStart(m, l2, slot);
    SubslotDuration(m, l2);
    if slot.slot < m.SlotsPerEpoch() {
      PositionFound(m, l2, m.GetTimestamp(slot), slot.epoch, slot.slot, 0, 0);
    } else {
      SubslotContainsTime(m, l2, m.GetTimestamp(slot));
    }
  }

  /** One L2 slot later: the next subslot, or the first one of the next slot or epoch. */
  lemma NextSubslot(m: SlotModel, l2: nat, t: nat)
    requires m.Divides(l2) && t >= m.genesis
    ensures var (slot, j) := (m.GetSlot(t), m.SubslotInSlot(t, l2));
            var (slot', j') := (m.GetSlot(t + l2), m.SubslotInSlot(t + l2, l2));
            if j + 1 < m.SubslotsPerSlot(l2) then slot' == slot && j' == j + 1
            else j' == 0 && slot' == Following(m, slot)
  {
    hide LiesAt, SlotModel.SubslotInSlot;
    var e, s, j, r := PositionExists(m, l2, t);
    PositionFound(m, l2, t, e, s, j, r);
    StepForward(m, l2, t, e, s, j, r);
    if j + 1 < m.SubslotsPerSlot(l2) {
      PositionFound(m, l2, t + l2, e, s, j + 1, r);
    } else if s + 1 < m.SlotsPerEpoch() {
      PositionFound(m, l2, t + l2, e, s + 1, 0, r);
    } else {
      PositionFound(m, l2, t + l2, e + 1, 0, 0, r);
    }
  }

  lemma StepForward(m: SlotModel, l2: nat, t: nat, e: nat, s: nat, j: nat, r: nat)
    requires m.Divides(l2) && LiesAt(m, l2, t, e, s, j, r)
    ensures if j + 1 < m.SubslotsPerSlot(l2) then LiesAt(m, l2, t + l2, e, s, j + 1, r)
            else if s + 1 < m.SlotsPerEpoch() then LiesAt(m, l2, t + l2, e, s + 1, 0, r)
            else LiesAt(m, l2, t + l2, e + 1, 0, 0, r)
  {
    var n, q, sd, ed := m.SlotsPerEpoch(), m.SubslotsPerSlot(l2), m.slotDuration, m.epochDuration;
    SubslotDuration(m, l2);
    assert (j + 1) * l2 == j * l2 + l2;
    assert (s + 1) * sd == s * sd + sd;
    assert (e + 1) * ed == e * ed + ed;
  }

  function Following(m: SlotModel, slot: Slot): Slot
    requires m.Valid()
  {
    if slot.slot + 1 < m.SlotsPerEpoch() then Slot(slot.epoch, slot.slot + 1) else Slot(slot.epoch + 1, 0)
  }

  /** One L1 slot later: the next slot. */
  lemma NextSlot(m: SlotModel, t: nat)
    requires m.Divides(m.slotDuration) && t >= m.genesis
    ensures m.GetSlot(t + m.slotDuration) == Following(m, m.GetSlot(t))
  {
    NextSubslot(m, m.slotDuration, t);
    SubslotContainsTime(m, m.slotDuration, t);
    assert m.SubslotsPerSlot(m.slotDuration) == 1;
  }

  lemma EpochsMonotone(m: SlotModel, t: nat, t': nat)
    requires m.Valid() && m.genesis <= t <= t'
    ensures m.GetSlot(t).epoch <= m.GetSlot(t').epoch
  {
    var ed, d, d' := m.epochDuration, t - m.genesis, t' - m.genesis;
    assert d == d / ed * ed + d % ed && d' == d' / ed * ed + d' % ed;
    if d' / ed < d / ed {
      ProductGap(d' / ed, d / ed, ed);
    }
  }

  /** Less than a subslot later: still the same subslot, or already the next one. */
  lemma WithinOneSubslot(m: SlotModel, l2: nat, t: nat, t': nat)
    requires m.Divides(l2) && m.genesis <= t <= t' <= t + l2
    ensures (m.GetSlot(t') == m.GetSlot(t) && m.SubslotInSlot(t', l2) == m.SubslotInSlot(t, l2)) ||
            (m.GetSlot(t') == m.GetSlot(t + l2) && m.SubslotInSlot(t', l2) == m.SubslotInSlot(t + l2, l2))
  {
    hide SlotModel.SubslotInSlot;
    var e, s, j, r := PositionExists(m, l2, t);
    PositionFound(m, l2, t, e, s, j, r);
    if r + (t' - t) < l2 {
      PositionFound(m, l2, t', e, s, j, r + (t' - t));
    } else {
      var e1, s1, j1, r1 := PositionExists(m, l2, t + l2);
      PositionFound(m, l2, t + l2, e1, s1, j1, r1);
      SameRemainder(m, l2, t, e, s, j, r, e1, s1, j1, r1);
      PositionFound(m, l2, t', e1, s1, j1, r1 - (t + l2 - t'));
    }
  }

  lemma SameRemainder(m: SlotModel, l2: nat, t: nat, e: nat, s: nat, j: nat, r: nat, e1: nat, s1: nat, j1: nat, r1: nat)
    requires m.Divides(l2) && LiesAt(m, l2, t, e, s, j, r) && LiesAt(m, l2, t + l2, e1, s1, j1, r1)
    ensures r1 == r
  {
    hide SlotModel.SubslotInSlot;
    StepForward(m, l2, t, e, s, j, r);
    PositionFound(m, l2, t + l2, e1, s1, j1, r1);
    if j + 1 < m.SubslotsPerSlot(l2) {
      PositionFound(m, l2, t + l2, e, s, j + 1, r);
    } else if s + 1 < m.SlotsPerEpoch() {
      PositionFound(m, l2, t + l2, e, s + 1, 0, r);
    } else {
      PositionFound(m, l2, t + l2, e + 1, 0, 0, r);
    }
  }
}
