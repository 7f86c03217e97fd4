/** Relayers and orders of the fee market (modules/fee-market/src/types.rs). */
module FeeMarketTypes {
  import opened Wrappers
  import opened MessagePrimitives

  type Balance = nat
  type BlockNumber = nat

  datatype Relayer = Relayer(id: AccountId, collateral: Balance, fee: Balance)

  /** An assigned relayer is on duty during `start..end`, the end excluded. */
  datatype AssignedRelayer = AssignedRelayer(id: AccountId, fee: Balance, start: BlockNumber, end: BlockNumber)

  datatype Order = Order(
    lane: LaneId, message: Nonce, sentTime: BlockNumber, confirmTime: Option<BlockNumber>, collateral: Balance,
    assignedRelayers: seq<AssignedRelayer>)

  // ---------------------------------------------------------------- ordering of relayers

  /** Cheaper first; at the same fee, more collateral first. */
  predicate Precedes(a: Relayer, b: Relayer) {
    a.fee < b.fee || (a.fee == b.fee && a.collateral > b.collateral)
  }

  function InsertSorted(r: Relayer, sorted: seq<Relayer>): seq<Relayer> {
    if sorted == [] then [r]
    else if Precedes(sorted[0], r) then [sorted[0]] + InsertSorted(r, sorted[1..])
    else [r] + sorted
  }

  /** Stable sort: relayers that neither precede each other keep their order. */
  function StableSort(relayers: seq<Relayer>): seq<Relayer> {
    if relayers == [] then [] else InsertSorted(relayers[0], StableSort(relayers[1..]))
  }

  /** `a` may stand before `b`: it is cheaper, or as cheap with at least as much collateral. */
  predicate NotAfter(a: Relayer, b: Relayer) {
    a.fee < b.fee || (a.fee == b.fee && a.collateral >= b.collateral)
  }

  predicate Ordered(relayers: seq<Relayer>) {
    forall i, j | 0 <= i < j < |relayers| :: NotAfter(relayers[i], relayers[j])
  }

  lemma {:induction false} InsertPermutes(r: Relayer, sorted: seq<Relayer>)
    ensures multiset(InsertSorted(r, sorted)) == multiset(sorted) + multiset{r}
    ensures forall s :: s in InsertSorted(r, sorted) <==> s == r || s in sorted
  {
    if sorted != [] && Precedes(sorted[0], r) {
      InsertPermutes(r, sorted[1..]);
      assert sorted == [sorted[0]] + sorted[1..];
    }
  }

  lemma {:induction false} InsertOrders(r: Relayer, sorted: seq<Relayer>)
    requires Ordered(sorted)
    ensures Ordered(InsertSorted(r, sorted))
  {
    if sorted != [] {
      var rest := sorted[1..];
      assert sorted == [sorted[0]] + rest;
      forall s | s in rest ensures NotAfter(sorted[0], s) {
        var j :| 0 <= j < |rest| && rest[j] == s;
        assert sorted[j + 1] == s;
      }
      if Precedes(sorted[0], r) {
        InsertOrders(r, rest);
        InsertPermutes(r, rest);
      }
    }
  }

  /** The sort permutes its input into order. */
  lemma {:induction false} SortIsOrdered(relayers: seq<Relayer>)
    ensures multiset(StableSort(relayers)) == multiset(relayers)
    ensures Ordered(StableSort(relayers))
  {
    if relayers != [] {
      SortIsOrdered(relayers[1..]);
      InsertPermutes(relayers[0], StableSort(relayers[1..]));
      InsertOrders(relayers[0], StableSort(relayers[1..]));
      assert relayers == [relayers[0]] + relayers[1..];
    }
  }

  /** Relayers of one rank, in their order. */
  function OfRank(relayers: seq<Relayer>, fee: Balance, collateral: Balance): seq<Relayer> {
    if relayers == [] then []
    else (if relayers[0].fee == fee && relayers[0].collateral == collateral then [relayers[0]] else [])
         + OfRank(relayers[1..], fee, collateral)
  }

  lemma {:induction false} InsertIsStable(r: Relayer, sorted: seq<Relayer>, fee: Balance, collateral: Balance)
    ensures OfRank(InsertSorted(r, sorted), fee, collateral) == OfRank([r], fee, collateral) + OfRank(sorted, fee, collateral)
  {
    if sorted != [] && Precedes(sorted[0], r) {
      InsertIsStable(r, sorted[1..], fee, collateral);
      var inserted := InsertSorted(r, sorted);
      assert inserted[1..] == InsertSorted(r, sorted[1..]);
    } else {
      assert ([r] + sorted)[1..] == sorted;
    }
  }

  /** The sort keeps relayers of equal rank in enrolment order. */
  lemma {:induction false} SortIsStable(relayers: seq<Relayer>, fee: Balance, collateral: Balance)
    ensures OfRank(StableSort(relayers), fee, collateral) == OfRank(relayers, fee, collateral)
  {
    if relayers != [] {
      SortIsStable(relayers[1..], fee, collateral);
      InsertIsStable(relayers[0], StableSort(relayers[1..]), fee, collateral);
    }
  }

  // ---------------------------------------------------------------- orders

  function Slots(relayers: seq<Relayer>, start: BlockNumber, slot: BlockNumber): seq<AssignedRelayer> {
    if relayers == [] then []
    else [AssignedRelayer(relayers[0].id, relayers[0].fee, start, start + slot)]
         + Slots(relayers[1..], start + slot, slot)
  }

  function NewOrder(
    lane: LaneId, message: Nonce, sentTime: BlockNumber, collateral: Balance, relayers: seq<Relayer>, slot: BlockNumber): Order
  {
    Order(lane, message, sentTime, None, collateral, Slots(relayers, sentTime, slot))
  }

  /** Slots follow each other without gap or overlap, one per relayer in the given order. */
  lemma {:induction false} SlotsTile(relayers: seq<Relayer>, start: BlockNumber, slot: BlockNumber)
    ensures var slots := Slots(relayers, start, slot);
            && |slots| == |relayers|
            && forall i | 0 <= i < |slots| ::
                 && slots[i].id == relayers[i].id && slots[i].fee == relayers[i].fee
                 && slots[i].start == start + i * slot && slots[i].end == start + (i + 1) * slot
  {
    if relayers != [] {
      SlotsTile(relayers[1..], start + slot, slot);
      var slots := Slots(relayers, start, slot);
      forall i | 0 < i < |slots|
        ensures slots[i].start == start + i * slot && slots[i].end == start + (i + 1) * slot
      {
        assert slots[i] == Slots(relayers[1..], start + slot, slot)[i - 1];
        assert start + slot + (i - 1) * slot == start + i * slot;
      }
    }
  }

  function OrderFee(o: Order): Balance {
    if o.assignedRelayers == [] then 0 else o.assignedRelayers[|o.assignedRelayers| - 1].fee
  }

  function RangeEnd(o: Order): Option<BlockNumber> {
    if o.assignedRelayers == [] then None else Some(o.assignedRelayers[|o.assignedRelayers| - 1].end)
  }

  function ConfirmDelay(o: Order): Option<nat> {
    if o.confirmTime.Some? && RangeEnd(o).Some? && o.confirmTime.value > RangeEnd(o).value
    then Some(o.confirmTime.value - RangeEnd(o).value)
    else None
  }

  predicate OnDuty(a: AssignedRelayer, time: BlockNumber) { a.start <= time < a.end }

  function FirstOnDuty(assignedRelayers: seq<AssignedRelayer>, time: BlockNumber): (r: Option<nat>)
    ensures r.Some? ==> r.value < |assignedRelayers| && OnDuty(assignedRelayers[r.value], time)
  {
    if assignedRelayers == [] then None
    else if OnDuty(assignedRelayers[0], time) then Some(0)
    else
      match FirstOnDuty(assignedRelayers[1..], time)
      case None => None
      case Some(i) => Some(i + 1)
  }

  /** Index and fee of the slot in which the order was confirmed, if it was confirmed in one. */
  function ConfirmedInfo(o: Order): (r: Option<(nat, Balance)>)
    ensures r.Some? ==> r.value.0 < |o.assignedRelayers| && r.value.1 == o.assignedRelayers[r.value.0].fee
  {
    match FirstOnDuty(o.assignedRelayers, if o.confirmTime.Some? then o.confirmTime.value else 0)
    case None => None
    case Some(i) => Some((i, o.assignedRelayers[i].fee))
  }

  /** For a new order the confirmation slot is the number of whole slots that have passed, while there are slots left. */
  lemma {:induction false} ConfirmedSlotIs(relayers: seq<Relayer>, sent: BlockNumber, slot: BlockNumber, time: BlockNumber, i: nat)
    requires slot > 0 && i < |relayers| && sent + i * slot <= time < sent + (i + 1) * slot
    ensures FirstOnDuty(Slots(relayers, sent, slot), time) == Some(i)
  {
    if i == 0 {
    } else {
      assert i * slot >= slot;
      assert sent + slot + (i - 1) * slot == sent + i * slot && sent + slot + i * slot == sent + (i + 1) * slot;
      ConfirmedSlotIs(relayers[1..], sent + slot, slot, time, i - 1);
      assert Slots(relayers, sent, slot)[1..] == Slots(relayers[1..], sent + slot, slot);
    }
  }

  /** Slot `k` is the first one that contains the block in which the order was confirmed. */
  predicate ConfirmedInSlot(o: Order, k: nat) {
    var time := if o.confirmTime.Some? then o.confirmTime.value else 0;
    && k < |o.assignedRelayers|
    && o.assignedRelayers[k].start <= time < o.assignedRelayers[k].end
    && forall h | 0 <= h < k :: !OnDuty(o.assignedRelayers[h], time)
  }

  lemma {:induction false} FirstOnDutyIs(assignedRelayers: seq<AssignedRelayer>, time: BlockNumber)
    ensures match FirstOnDuty(assignedRelayers, time)
            case None => forall i | 0 <= i < |assignedRelayers| :: !OnDuty(assignedRelayers[i], time)
            case Some(k) => forall h | 0 <= h < k :: !OnDuty(assignedRelayers[h], time)
  {
    if assignedRelayers != [] {
      FirstOnDutyIs(assignedRelayers[1..], time);
      assert assignedRelayers == [assignedRelayers[0]] + assignedRelayers[1..];
    }
  }

  /** The lookup gives the first slot that contains the confirmation and that slot's price, and nothing exactly when no
      slot contains it. */
  lemma ConfirmedInfoIs(o: Order)
    ensures ConfirmedInfo(o).None? <==> forall k: nat :: !ConfirmedInSlot(o, k)
    ensures forall k: nat :: ConfirmedInSlot(o, k) <==> k < |o.assignedRelayers| && ConfirmedInfo(o) == Some((k, o.assignedRelayers[k].fee))
  {
    var time := if o.confirmTime.Some? then o.confirmTime.value else 0;
    FirstOnDutyIs(o.assignedRelayers, time);
    if ConfirmedInfo(o).Some? {
      var first := ConfirmedInfo(o).value.0;
      assert ConfirmedInSlot(o, first);
      forall k: nat | ConfirmedInSlot(o, k) ensures k == first {
        assert OnDuty(o.assignedRelayers[k], time) && OnDuty(o.assignedRelayers[first], time);
      }
    } else {
      forall k: nat ensures !ConfirmedInSlot(o, k) {
        if k < |o.assignedRelayers| { assert !OnDuty(o.assignedRelayers[k], time); }
      }
    }
  }

  /** An order confirmed within its slots is found in the slot counted from its sending, at that relayer's price; one
      confirmed after them is found in none. */
  lemma NewOrderConfirmedAt(
    lane: LaneId, message: Nonce, sent: BlockNumber, collateral: Balance, relayers: seq<Relayer>, slot: BlockNumber, time: BlockNumber, i: nat)
    requires slot > 0 && sent <= time
    ensures var o := NewOrder(lane, message, sent, collateral, relayers, slot).(confirmTime := Some(time));
            && (i < |relayers| && sent + i * slot <= time < sent + (i + 1) * slot ==> ConfirmedInfo(o) == Some((i, relayers[i].fee)))
            && (sent + |relayers| * slot <= time ==> ConfirmedInfo(o) == None)
  {
    var o := NewOrder(lane, message, sent, collateral, relayers, slot).(confirmTime := Some(time));
    SlotsTile(relayers, sent, slot);
    if i < |relayers| && sent + i * slot <= time < sent + (i + 1) * slot {
      ConfirmedSlotIs(relayers, sent, slot, time, i);
    }
    if sent + |relayers| * slot <= time {
      forall k | 0 <= k < |relayers| ensures !OnDuty(o.assignedRelayers[k], time) {
        MoreTimes(k + 1, |relayers|, slot);
      }
    }
  }

  lemma MoreTimes(k: nat, n: nat, slot: nat)
    requires k <= n
    ensures k * slot <= n * slot
  {}

  predicate SortedFees(assignedRelayers: seq<AssignedRelayer>) {
    forall i, j | 0 <= i < j < |assignedRelayers| :: assignedRelayers[i].fee <= assignedRelayers[j].fee
  }

  predicate DistinctAssigned(assignedRelayers: seq<AssignedRelayer>) {
    forall i, j | 0 <= i < j < |assignedRelayers| :: assignedRelayers[i].id != assignedRelayers[j].id
  }

  /** With sorted fees, the price of any slot is at most the order's fee. */
  lemma SlotPriceWithinFee(o: Order)
    requires SortedFees(o.assignedRelayers) && ConfirmedInfo(o).Some?
    ensures ConfirmedInfo(o).value.1 <= OrderFee(o)
  {}

  predicate Assigned(o: Order, who: AccountId) {
    exists i :: 0 <= i < |o.assignedRelayers| && o.assignedRelayers[i].id == who
  }

  // ---------------------------------------------------------------- procedures

  method CreateOrder(
    lane: LaneId, message: Nonce, sentTime: BlockNumber, collateral: Balance, relayers: seq<Relayer>, slot: BlockNumber)
    returns (o: Order)
    ensures o == NewOrder(lane, message, sentTime, collateral, relayers, slot)
  {
    var assignedRelayers: seq<AssignedRelayer> := [];
    var startTime: BlockNumber := sentTime;
    for i := 0 to |relayers|
      invariant assignedRelayers + Slots(relayers[i..], startTime, slot) == Slots(relayers, sentTime, slot)
    {
      assert relayers[i..][0] == relayers[i] && relayers[i..][1..] == relayers[i + 1..];
      assignedRelayers := assignedRelayers + [AssignedRelayer(relayers[i].id, relayers[i].fee, startTime, startTime + slot)];
      startTime := startTime + slot;
    }
    assert relayers[|relayers|..] == [];
    o := Order(lane, message, sentTime, None, collateral, assignedRelayers);
  }

  /** The search for the slot of the confirmation. */
  method FindConfirmedInfo(o: Order) returns (info: Option<(nat, Balance)>)
    ensures info == ConfirmedInfo(o)
  {
    var time := if o.confirmTime.Some? then o.confirmTime.value else 0;
    for i := 0 to |o.assignedRelayers|
      invariant FirstOnDuty(o.assignedRelayers, time)
                == (match FirstOnDuty(o.assignedRelayers[i..], time) case None => None case Some(k) => Some(i + k))
    {
      if OnDuty(o.assignedRelayers[i], time) {
        return Some((i, o.assignedRelayers[i].fee));
      }
      assert o.assignedRelayers[i..][1..] == o.assignedRelayers[i + 1..];
    }
    info := None;
  }
}
