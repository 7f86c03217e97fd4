/** The target-chain end of a lane (modules/messages/src/inbound_lane.rs). */
module InboundLane {
  import opened Wrappers
  import opened MessagePrimitives

  /** Limits configured on the target chain. */
  datatype Limits = Limits(maxEntries: Nonce, maxUnconfirmed: Nonce)

  /** What the dispatcher answers for one message; nothing is assumed about it. */
  datatype DispatchOutcome = DispatchOutcome(preDispatchOk: bool, flag: bool)

  datatype ReceivalResult =
    | Dispatched(flag: bool)
    | InvalidNonce
    | TooManyUnrewardedRelayers
    | TooManyUnconfirmedMessages
    | PreDispatchValidateFailed

  /** What every run keeps true of a lane's stored data. */
  predicate ValidLane(d: InboundLaneData) {
    && ValidChain(d.relayers)
    && DistinctNeighbours(d.relayers)
    && (d.relayers != [] ==>
          && d.lastConfirmed <= d.relayers[0].messages.begin <= d.lastConfirmed + 1
          && d.lastConfirmed < d.relayers[0].messages.end)
  }

  /** What the limits guarantee about a lane's stored data. */
  predicate WithinLimits(limits: Limits, d: InboundLaneData) {
    |d.relayers| <= limits.maxEntries
    && LastDelivered(d) - d.lastConfirmed <= limits.maxUnconfirmed
  }

  function DropConfirmed(relayers: seq<UnrewardedRelayer>, confirmed: Nonce): seq<UnrewardedRelayer> {
    if relayers != [] && relayers[0].messages.end <= confirmed
    then DropConfirmed(relayers[1..], confirmed)
    else relayers
  }

  function TrimEntry(e: UnrewardedRelayer, confirmed: Nonce): (r: UnrewardedRelayer)
    requires ValidEntry(e) && e.messages.begin <= confirmed < e.messages.end
  {
    e.(messages := DeliveredMessages(
      confirmed + 1, e.messages.end, e.messages.dispatchResults[confirmed + 1 - e.messages.begin..]))
  }

  function TrimFront(relayers: seq<UnrewardedRelayer>, confirmed: Nonce): seq<UnrewardedRelayer>
    requires ValidEntries(relayers)
    requires relayers != [] ==> confirmed < relayers[0].messages.end
  {
    if relayers != [] && relayers[0].messages.begin < confirmed
    then [TrimEntry(relayers[0], confirmed)] + relayers[1..]
    else relayers
  }

  /** True when the source's confirmation is new to this lane and not ahead of it. */
  predicate UpdateApplies(d: InboundLaneData, confirmed: Nonce) {
    d.lastConfirmed < confirmed <= LastDelivered(d)
  }

  /** Stored lane data after the source reports `confirmed` as its latest received nonce. */
  function StateUpdated(d: InboundLaneData, confirmed: Nonce): InboundLaneData
    requires ValidEntries(d.relayers)
  {
    if UpdateApplies(d, confirmed) then
      DroppedIsSuffix(d.relayers, confirmed);
      InboundLaneData(TrimFront(DropConfirmed(d.relayers, confirmed), confirmed), confirmed)
    else d
  }

  function Appended(relayers: seq<UnrewardedRelayer>, relayer: AccountId, nonce: Nonce, flag: bool)
    : seq<UnrewardedRelayer>
    requires relayers != [] ==> relayers[|relayers| - 1].messages.end < U64_MAX
  {
    var last := |relayers| - 1;
    if relayers != [] && relayers[last].relayer == relayer then
      var m := relayers[last].messages;
      relayers[last := relayers[last].(messages :=
        DeliveredMessages(m.begin, m.end + 1, m.dispatchResults + [flag]))]
    else
      relayers + [UnrewardedRelayer(relayer, DeliveredMessages(nonce, nonce, [flag]))]
  }

  /** The lane's answer to one message. */
  function Receival(limits: Limits, d: InboundLaneData, nonce: Nonce, outcome: DispatchOutcome): ReceivalResult
  {
    if nonce != LastDelivered(d) + 1 then InvalidNonce
    else if |d.relayers| >= limits.maxEntries then TooManyUnrewardedRelayers
    else if nonce - d.lastConfirmed > limits.maxUnconfirmed then TooManyUnconfirmedMessages
    else if !outcome.preDispatchOk then PreDispatchValidateFailed
    else Dispatched(outcome.flag)
  }

  /** Stored lane data after one message. */
  function Received(limits: Limits, d: InboundLaneData, relayer: AccountId, nonce: Nonce, outcome: DispatchOutcome)
    : InboundLaneData
    requires LastDelivered(d) < U64_MAX
  {
    if Receival(limits, d, nonce, outcome).Dispatched?
    then d.(relayers := Appended(d.relayers, relayer, nonce, outcome.flag))
    else d
  }

  // ---------------------------------------------------------------- state update

  /** Dropping confirmed entries leaves a suffix, and what it drops is exactly what is fully confirmed. */
  lemma {:induction false} DroppedIsSuffix(relayers: seq<UnrewardedRelayer>, confirmed: Nonce)
    ensures var kept := DropConfirmed(relayers, confirmed);
            && |kept| <= |relayers| && kept == relayers[|relayers| - |kept|..]
            && (forall i | 0 <= i < |relayers| - |kept| :: relayers[i].messages.end <= confirmed)
            && (kept != [] ==> confirmed < kept[0].messages.end)
  {
    if relayers != [] && relayers[0].messages.end <= confirmed {
      DroppedIsSuffix(relayers[1..], confirmed);
      var kept := DropConfirmed(relayers[1..], confirmed);
      assert forall i | 0 < i < |relayers| - |kept| :: relayers[i] == relayers[1..][i - 1];
      assert kept == relayers[|relayers| - |kept|..];
    }
  }

  /** A state update never moves the last delivered nonce, whatever the stored entries are. */
  lemma StateUpdateKeepsLastDelivered(d: InboundLaneData, confirmed: Nonce)
    requires ValidEntries(d.relayers)
    ensures LastDelivered(StateUpdated(d, confirmed)) == LastDelivered(d)
  {
    if UpdateApplies(d, confirmed) {
      DroppedIsSuffix(d.relayers, confirmed);
      var kept := DropConfirmed(d.relayers, confirmed);
      if kept == [] {
        assert d.relayers[|d.relayers| - 1].messages.end <= confirmed;
      } else {
        assert kept[|kept| - 1] == d.relayers[|d.relayers| - 1];
      }
    }
  }

  lemma SuffixKeepsChain(relayers: seq<UnrewardedRelayer>, skip: nat)
    requires skip <= |relayers| && ValidChain(relayers) && DistinctNeighbours(relayers)
    ensures ValidChain(relayers[skip..]) && DistinctNeighbours(relayers[skip..])
  {
    var kept := relayers[skip..];
    forall i | 0 <= i < |kept| ensures ValidEntry(kept[i]) {
      assert ValidEntry(relayers[skip + i]);
    }
    forall i | 0 < i < |kept| ensures Linked(kept, i) && Alternates(kept, i) {
      assert Linked(relayers, skip + i) && Alternates(relayers, skip + i);
    }
  }

  lemma TrimKeepsChain(relayers: seq<UnrewardedRelayer>, confirmed: Nonce)
    requires ValidChain(relayers) && DistinctNeighbours(relayers)
    requires relayers != [] ==> confirmed < relayers[0].messages.end
    ensures var trimmed := TrimFront(relayers, confirmed);
            && ValidChain(trimmed) && DistinctNeighbours(trimmed) && |trimmed| == |relayers|
            && (relayers != [] ==>
                  && trimmed[0].messages.end == relayers[0].messages.end
                  && trimmed[0].messages.begin == if relayers[0].messages.begin < confirmed
                                                  then confirmed + 1 else relayers[0].messages.begin)
  {
    var trimmed := TrimFront(relayers, confirmed);
    if relayers != [] && relayers[0].messages.begin < confirmed {
      assert ValidEntry(relayers[0]) && ValidEntry(trimmed[0]);
      forall i | 0 < i < |trimmed| ensures ValidEntry(trimmed[i]) && Linked(trimmed, i) && Alternates(trimmed, i) {
        assert ValidEntry(relayers[i]) && Linked(relayers, i) && Alternates(relayers, i);
      }
    }
  }

  lemma StateUpdateKeepsValid(d: InboundLaneData, confirmed: Nonce)
    requires ValidLane(d)
    ensures ValidLane(StateUpdated(d, confirmed))
    ensures StateUpdated(d, confirmed).lastConfirmed
            == if d.lastConfirmed < confirmed <= LastDelivered(d) then confirmed else d.lastConfirmed
  {
    if UpdateApplies(d, confirmed) {
      DroppedIsSuffix(d.relayers, confirmed);
      var kept := DropConfirmed(d.relayers, confirmed);
      var skip := |d.relayers| - |kept|;
      SuffixKeepsChain(d.relayers, skip);
      if kept != [] {
        assert kept[0] == d.relayers[skip];
        if skip > 0 { assert Linked(d.relayers, skip); }
      }
      TrimKeepsChain(kept, confirmed);
    }
  }

  lemma StateUpdateKeepsLimits(limits: Limits, d: InboundLaneData, confirmed: Nonce)
    requires ValidEntries(d.relayers) && WithinLimits(limits, d)
    ensures WithinLimits(limits, StateUpdated(d, confirmed))
  {
    DroppedIsSuffix(d.relayers, confirmed);
    StateUpdateKeepsLastDelivered(d, confirmed);
  }

  /** `relayers` says that `relayer` delivered `n` and that its dispatch gave `flag`. */
  ghost predicate Recorded(relayers: seq<UnrewardedRelayer>, n: Nonce, relayer: AccountId, flag: bool)
    requires ValidEntries(relayers)
  {
    exists i :: 0 <= i < |relayers| && RecordedAt(relayers, i, n, relayer, flag)
  }

  ghost predicate RecordedAt(relayers: seq<UnrewardedRelayer>, i: nat, n: Nonce, relayer: AccountId, flag: bool)
    requires ValidEntries(relayers) && i < |relayers|
  {
    && ValidEntry(relayers[i])
    && EntryCovers(relayers[i], n)
    && relayers[i].relayer == relayer
    && relayers[i].messages.dispatchResults[n - relayers[i].messages.begin] == flag
  }

  /** A state update forgets confirmed deliveries and keeps every unconfirmed one unchanged. */
  lemma StateUpdateKeepsRecords(d: InboundLaneData, confirmed: Nonce, n: Nonce, relayer: AccountId, flag: bool)
    requires ValidLane(d) && UpdateApplies(d, confirmed) && confirmed < n
    ensures ValidLane(StateUpdated(d, confirmed))
    ensures Recorded(StateUpdated(d, confirmed).relayers, n, relayer, flag) <==> Recorded(d.relayers, n, relayer, flag)
  {
    StateUpdateKeepsValid(d, confirmed);
    DroppedIsSuffix(d.relayers, confirmed);
    var kept := DropConfirmed(d.relayers, confirmed);
    var skip := |d.relayers| - |kept|;
    SuffixKeepsChain(d.relayers, skip);
    TrimKeepsRecords(kept, confirmed, n, relayer, flag);
    SuffixKeepsRecords(d.relayers, skip, n, relayer, flag);
  }

  lemma TrimKeepsRecords(relayers: seq<UnrewardedRelayer>, confirmed: Nonce, n: Nonce, relayer: AccountId, flag: bool)
    requires relayers != [] ==> confirmed < relayers[0].messages.end
    requires ValidEntries(relayers) && ValidEntries(TrimFront(relayers, confirmed)) && confirmed < n
    ensures Recorded(TrimFront(relayers, confirmed), n, relayer, flag) <==> Recorded(relayers, n, relayer, flag)
  {
    var after := TrimFront(relayers, confirmed);
    forall i | 0 <= i < |relayers|
      ensures RecordedAt(after, i, n, relayer, flag) <==> RecordedAt(relayers, i, n, relayer, flag)
    {
      assert ValidEntry(relayers[i]) && ValidEntry(after[i]);
    }
  }

  lemma SuffixKeepsRecords(relayers: seq<UnrewardedRelayer>, skip: nat, n: Nonce, relayer: AccountId, flag: bool)
    requires ValidEntries(relayers) && skip <= |relayers| && ValidEntries(relayers[skip..])
    requires forall i | 0 <= i < skip :: relayers[i].messages.end < n
    ensures Recorded(relayers[skip..], n, relayer, flag) <==> Recorded(relayers, n, relayer, flag)
  {
    var kept := relayers[skip..];
    if Recorded(kept, n, relayer, flag) {
      var i :| 0 <= i < |kept| && RecordedAt(kept, i, n, relayer, flag);
      assert RecordedAt(relayers, skip + i, n, relayer, flag);
    }
    if Recorded(relayers, n, relayer, flag) {
      var i :| 0 <= i < |relayers| && RecordedAt(relayers, i, n, relayer, flag);
      assert RecordedAt(kept, i - skip, n, relayer, flag);
    }
  }

  /** Every nonce held by the lane lies strictly between the confirmed and the last delivered nonce.
      The comment on `InboundLaneData::relayers` promises this range. */
  predicate HoldsOnlyUnconfirmed(d: InboundLaneData) {
    forall i | 0 <= i < |d.relayers| :: d.lastConfirmed < d.relayers[i].messages.begin
  }

  /** The promised range is met after an applied update exactly when no entry starts at the
      confirmed nonce and goes on past it: the trim tests `begin < confirmed`. */
  lemma UpdateHoldsOnlyUnconfirmedIff(d: InboundLaneData, confirmed: Nonce)
    requires ValidLane(d) && UpdateApplies(d, confirmed)
    ensures HoldsOnlyUnconfirmed(StateUpdated(d, confirmed))
            <==> !exists i :: 0 <= i < |d.relayers| && StraddlesFrom(d.relayers[i], confirmed)
  {
    DroppedIsSuffix(d.relayers, confirmed);
    var kept := DropConfirmed(d.relayers, confirmed);
    var skip := |d.relayers| - |kept|;
    SuffixKeepsChain(d.relayers, skip);
    TrimKeepsChain(kept, confirmed);
    forall i | 0 < i < |kept| ensures confirmed < kept[i].messages.begin {
      ChainIsOrdered(kept, 0, i);
    }
    StartsAtConfirmed(d.relayers, skip, confirmed);
  }

  predicate StraddlesFrom(e: UnrewardedRelayer, confirmed: Nonce) {
    e.messages.begin == confirmed < e.messages.end
  }

  /** Only the first entry left after dropping the confirmed ones can start at the confirmed nonce. */
  lemma StartsAtConfirmed(relayers: seq<UnrewardedRelayer>, skip: nat, confirmed: Nonce)
    requires skip <= |relayers| && ValidChain(relayers) && DistinctNeighbours(relayers)
    requires forall i | 0 <= i < skip :: relayers[i].messages.end <= confirmed
    requires skip < |relayers| ==> confirmed < relayers[skip].messages.end
    ensures (exists i :: 0 <= i < |relayers| && StraddlesFrom(relayers[i], confirmed))
            <==> skip < |relayers| && relayers[skip].messages.begin == confirmed
  {
    if skip < |relayers| && relayers[skip].messages.begin == confirmed {
      assert StraddlesFrom(relayers[skip], confirmed);
    }
    forall i | skip < i < |relayers| ensures !StraddlesFrom(relayers[i], confirmed) {
      ChainIsOrdered(relayers, skip, i);
    }
  }

  /** A delivery of nonces 1 to 3 in one entry, of which nonce 1 is then confirmed, keeps nonce 1. */
  lemma PromisedRangeCanFail() returns (d: InboundLaneData)
    ensures ValidLane(d) && UpdateApplies(d, 1) && !HoldsOnlyUnconfirmed(StateUpdated(d, 1))
    ensures ValidLane(StateUpdated(d, 1)) && HoldsOnlyUnconfirmed(StateUpdated(StateUpdated(d, 1), 2))
  {
    d := InboundLaneData([UnrewardedRelayer(7, DeliveredMessages(1, 3, [true, false, true]))], 0);
    StateUpdateKeepsValid(d, 1);
    var once := StateUpdated(d, 1);
    assert once.relayers[0].messages.begin == 1;
    assert DropConfirmed(once.relayers, 2) == once.relayers;
  }

  // ---------------------------------------------------------------- message receipt

  lemma ReceivedKeepsValid(limits: Limits, d: InboundLaneData, relayer: AccountId, nonce: Nonce, outcome: DispatchOutcome)
    requires ValidLane(d) && LastDelivered(d) < U64_MAX
    ensures ValidLane(Received(limits, d, relayer, nonce, outcome))
  {
    var after := Received(limits, d, relayer, nonce, outcome);
    if Receival(limits, d, nonce, outcome).Dispatched? {
      var rs, last := after.relayers, |d.relayers| - 1;
      forall i | 0 <= i < |rs| ensures ValidEntry(rs[i]) {
        if i <= last { assert ValidEntry(d.relayers[i]); }
      }
      forall i | 0 < i < |rs| ensures Linked(rs, i) && Alternates(rs, i) {
        if i <= last { assert Linked(d.relayers, i) && Alternates(d.relayers, i); }
      }
    }
  }

  lemma ReceivedKeepsLimits(limits: Limits, d: InboundLaneData, relayer: AccountId, nonce: Nonce, outcome: DispatchOutcome)
    requires WithinLimits(limits, d) && LastDelivered(d) < U64_MAX
    ensures WithinLimits(limits, Received(limits, d, relayer, nonce, outcome))
  {}

  /** A dispatched message is recorded under its nonce, relayer and flag, and every other record stays as it was. */
  lemma ReceivedAddsRecord(
    limits: Limits, d: InboundLaneData, relayer: AccountId, nonce: Nonce, outcome: DispatchOutcome, n: Nonce, who: AccountId, flag: bool)
    requires ValidLane(d) && LastDelivered(d) < U64_MAX
    ensures ValidLane(Received(limits, d, relayer, nonce, outcome))
    ensures Recorded(Received(limits, d, relayer, nonce, outcome).relayers, n, who, flag)
            <==> || Recorded(d.relayers, n, who, flag)
                 || (Receival(limits, d, nonce, outcome).Dispatched? && n == nonce && who == relayer && flag == outcome.flag)
  {
    hide Appended, RecordedAt, ValidChain, DistinctNeighbours;
    ReceivedKeepsValid(limits, d, relayer, nonce, outcome);
    if Receival(limits, d, nonce, outcome).Dispatched? {
      ValidLaneHasEntries(d);
      ValidLaneHasEntries(Received(limits, d, relayer, nonce, outcome));
      AppendedRecords(d.relayers, relayer, nonce, outcome.flag, n, who, flag);
    }
  }

  lemma ValidLaneHasEntries(d: InboundLaneData)
    requires ValidLane(d)
    ensures ValidEntries(d.relayers)
  {}

  lemma AppendedRecords(
    relayers: seq<UnrewardedRelayer>, relayer: AccountId, nonce: Nonce, result: bool, n: Nonce, who: AccountId, flag: bool)
    requires ValidEntries(relayers)
    requires relayers != [] ==> nonce == relayers[|relayers| - 1].messages.end + 1
    requires ValidEntries(Appended(relayers, relayer, nonce, result))
    ensures Recorded(Appended(relayers, relayer, nonce, result), n, who, flag)
            <==> Recorded(relayers, n, who, flag) || (n == nonce && who == relayer && flag == result)
  {
    hide RecordedAt;
    var after := Appended(relayers, relayer, nonce, result);
    forall i | 0 <= i < |after|
      ensures RecordedAt(after, i, n, who, flag)
              <==> || (i < |relayers| && RecordedAt(relayers, i, n, who, flag))
                   || (i == |after| - 1 && n == nonce && who == relayer && flag == result)
    {
      AppendedRecordAt(relayers, relayer, nonce, result, i, n, who, flag);
    }
    if n == nonce && who == relayer && flag == result {
      assert RecordedAt(after, |after| - 1, n, who, flag);
    }
    if Recorded(relayers, n, who, flag) {
      var i :| 0 <= i < |relayers| && RecordedAt(relayers, i, n, who, flag);
      assert RecordedAt(after, i, n, who, flag);
    }
  }

  lemma AppendedRecordAt(
    relayers: seq<UnrewardedRelayer>, relayer: AccountId, nonce: Nonce, result: bool, i: nat, n: Nonce, who: AccountId, flag: bool)
    requires ValidEntries(relayers)
    requires relayers != [] ==> nonce == relayers[|relayers| - 1].messages.end + 1
    requires ValidEntries(Appended(relayers, relayer, nonce, result)) && i < |Appended(relayers, relayer, nonce, result)|
    ensures var after := Appended(relayers, relayer, nonce, result);
            RecordedAt(after, i, n, who, flag)
            <==> || (i < |relayers| && RecordedAt(relayers, i, n, who, flag))
                 || (i == |after| - 1 && n == nonce && who == relayer && flag == result)
  {
    var after := Appended(relayers, relayer, nonce, result);
    assert ValidEntry(after[i]);
    if i < |relayers| { assert ValidEntry(relayers[i]); }
  }

  /** Only a dispatched message moves the lane, and it moves it by exactly one nonce. */
  lemma ReceivedAdvancesByOne(limits: Limits, d: InboundLaneData, relayer: AccountId, nonce: Nonce, outcome: DispatchOutcome)
    requires LastDelivered(d) < U64_MAX
    ensures var after := Received(limits, d, relayer, nonce, outcome);
            && after.lastConfirmed == d.lastConfirmed
            && (if Receival(limits, d, nonce, outcome).Dispatched?
                then nonce == LastDelivered(d) + 1 == LastDelivered(after)
                else after == d)
  {}

  /** A message is dispatched exactly when it is the next one, an entry and a nonce are still free within the limits, and
      it passes pre-dispatch; the answer then carries the dispatch's flag. */
  lemma DispatchedIff(limits: Limits, d: InboundLaneData, nonce: Nonce, outcome: DispatchOutcome, flag: bool)
    ensures Receival(limits, d, nonce, outcome) == Dispatched(flag)
            <==> && nonce == LastDelivered(d) + 1
                 && |d.relayers| < limits.maxEntries && nonce <= d.lastConfirmed + limits.maxUnconfirmed
                 && outcome.preDispatchOk && outcome.flag == flag
  {}

  /** A full lane rejects every message until a state update really confirms something. */
  lemma FullLaneNeedsConfirmation(limits: Limits, d: InboundLaneData, confirmed: Nonce, nonce: Nonce, outcome: DispatchOutcome)
    requires ValidLane(d) && |d.relayers| >= limits.maxEntries && confirmed <= d.lastConfirmed
    ensures !Receival(limits, StateUpdated(d, confirmed), nonce, outcome).Dispatched?
  {}

  // ---------------------------------------------------------------- the lane object

  /** Inbound lane over runtime storage with a per-call cache (modules/messages/src/lib.rs). */
  class Lane {
    const limits: Limits
    var stored: InboundLaneData
    var cached: Option<InboundLaneData>

    /** A filled cache always equals the storage behind it. */
    ghost predicate Valid()
      reads this
    {
      cached.Some? ==> cached.value == stored
    }

    constructor (limits: Limits, stored: InboundLaneData)
      ensures Valid() && this.limits == limits && this.stored == stored
    {
      this.limits, this.stored, this.cached := limits, stored, None;
    }

    method Data() returns (d: InboundLaneData)
      requires Valid()
      modifies this`cached
      ensures Valid() && d == stored && cached == Some(stored)
    {
      match cached {
        case Some(data) => d := data;
        case None =>
          d := stored;
          cached := Some(d);
      }
    }

    method SetData(d: InboundLaneData)
      modifies this
      ensures Valid() && stored == d
    {
      cached := Some(d);
      stored := d;
    }

    method ReceiveStateUpdate(outbound: OutboundLaneData) returns (updated: Option<Nonce>)
      requires Valid() && ValidLane(stored)
      modifies this
      ensures Valid() && stored == StateUpdated(old(stored), outbound.latestReceived)
      ensures updated == if UpdateApplies(old(stored), outbound.latestReceived)
                         then Some(outbound.latestReceived) else None
    {
      var data := Data();
      if outbound.latestReceived > LastDelivered(data) {
        return None;
      }
      if outbound.latestReceived <= data.lastConfirmed {
        return None;
      }
      var confirmed := outbound.latestReceived;
      var relayers := data.relayers;
      while relayers != [] && relayers[0].messages.end <= confirmed
        invariant ValidEntries(relayers)
        invariant DropConfirmed(relayers, confirmed) == DropConfirmed(data.relayers, confirmed)
      {
        relayers := relayers[1..];
      }
      if relayers != [] && relayers[0].messages.begin < confirmed {
        var m := relayers[0].messages;
        assert ValidEntry(relayers[0]);
        relayers := relayers[0 := relayers[0].(messages :=
          DeliveredMessages(confirmed + 1, m.end, m.dispatchResults[confirmed + 1 - m.begin..]))];
      }
      SetData(InboundLaneData(relayers, confirmed));
      updated := Some(confirmed);
    }

    method ReceiveMessage(relayer: AccountId, nonce: Nonce, outcome: DispatchOutcome) returns (result: ReceivalResult)
      requires Valid() && LastDelivered(stored) < U64_MAX
      requires stored.lastConfirmed <= LastDelivered(stored)
      modifies this
      ensures Valid() && stored == Received(limits, old(stored), relayer, nonce, outcome)
      ensures result == Receival(limits, old(stored), nonce, outcome)
    {
      var data := Data();
      var expected: Nonce := LastDelivered(data) + 1;
      if nonce != expected {
        return InvalidNonce;
      }
      if |data.relayers| >= limits.maxEntries {
        return TooManyUnrewardedRelayers;
      }
      var unconfirmed: Nonce := nonce - data.lastConfirmed;
      if unconfirmed > limits.maxUnconfirmed {
        return TooManyUnconfirmedMessages;
      }
      if !outcome.preDispatchOk {
        return PreDispatchValidateFailed;
      }
      var relayers := data.relayers;
      var last := |relayers| - 1;
      if relayers != [] && relayers[last].relayer == relayer {
        var m := relayers[last].messages;
        var end: Nonce := m.end + 1;
        relayers := relayers[last := UnrewardedRelayer(
          relayer, DeliveredMessages(m.begin, end, m.dispatchResults + [outcome.flag]))];
      } else {
        relayers := relayers + [UnrewardedRelayer(relayer, DeliveredMessages(nonce, nonce, [outcome.flag]))];
      }
      SetData(data.(relayers := relayers));
      result := Dispatched(outcome.flag);
    }
  }
}
