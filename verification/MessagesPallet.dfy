/** The message delivery call of the target chain: proof reading (runtime-common/src/messages.rs) and the
    batch loop with its weight accounting (`receive_messages_proof`, modules/messages/src/lib.rs). */
module MessagesPallet {
  import opened Wrappers
  import opened MessagePrimitives
  import opened InboundLane
  import OutboundLane

  type Payload = OutboundLane.Payload

  datatype Weight = Weight(refTime: nat, proofSize: nat)

  const ZERO_WEIGHT: Weight := Weight(0, 0)

  predicate AnyGt(a: Weight, b: Weight) { a.refTime > b.refTime || a.proofSize > b.proofSize }

  predicate AllLe(a: Weight, b: Weight) { a.refTime <= b.refTime && a.proofSize <= b.proofSize }

  function WeightMin(a: Weight, b: Weight): Weight {
    Weight(Min(a.refTime, b.refTime), Min(a.proofSize, b.proofSize))
  }

  function Plus(a: Weight, b: Weight): Weight { Weight(a.refTime + b.refTime, a.proofSize + b.proofSize) }

  /** Plain subtraction: its precondition is that neither component underflows. */
  function Minus(a: Weight, b: Weight): Weight
    requires AllLe(b, a)
  {
    Weight(a.refTime - b.refTime, a.proofSize - b.proofSize)
  }

  function SaturatingMinus(a: Weight, b: Weight): Weight {
    Weight(Max(0, a.refTime - b.refTime), Max(0, a.proofSize - b.proofSize))
  }

  /** A stored message together with what the dispatcher will answer for it; nothing is assumed about the answers. */
  datatype StoredMessage = StoredMessage(
    payload: Payload, weight: Weight, outcome: DispatchOutcome, unspent: Weight, feePaidDuringDispatch: bool)

  datatype InboundMessage = InboundMessage(nonce: Nonce, data: StoredMessage)

  datatype LaneProof = LaneProof(laneState: Option<OutboundLaneData>, messages: seq<InboundMessage>)

  // ---------------------------------------------------------------- reading a proof

  /** The part of the source chain's storage that a proof makes readable; `None` stands for bytes that do not decode. */
  datatype ProvenStorage = ProvenStorage(
    messages: map<(LaneId, Nonce), Option<StoredMessage>>,
    lanes: map<LaneId, Option<OutboundLaneData>>)

  datatype MessagesProof = MessagesProof(
    storage: Option<ProvenStorage>, lane: LaneId, noncesStart: Nonce, noncesEnd: Nonce)

  datatype VerificationError =
    | MessagesCountMismatch
    | InvalidStorageProof
    | MissingRequiredMessage
    | FailedToDecodeMessage
    | FailedToDecodeOutboundLaneData
    | EmptyMessageProof

  predicate Readable(s: ProvenStorage, lane: LaneId, n: Nonce) {
    (lane, n) in s.messages && s.messages[(lane, n)].Some?
  }

  /** `messages` are the readable messages `start..=end` of the lane, in nonce order. */
  ghost predicate IsRange(s: ProvenStorage, lane: LaneId, start: Nonce, end: int, messages: seq<InboundMessage>) {
    && |messages| == Max(0, end + 1 - start)
    && forall k | 0 <= k < |messages| ::
         && messages[k].nonce == start + k
         && Readable(s, lane, messages[k].nonce)
         && messages[k].data == s.messages[(lane, messages[k].nonce)].value
  }

  /** When a proof is accepted. */
  ghost predicate Provable(proof: MessagesProof, count: nat) {
    && proof.storage.Some?
    && (proof.noncesStart <= proof.noncesEnd ==> Min(U64_MAX, proof.noncesEnd - proof.noncesStart + 1) == count)
    && (forall n: Nonce | proof.noncesStart <= n <= proof.noncesEnd :: Readable(proof.storage.value, proof.lane, n))
    && (proof.lane in proof.storage.value.lanes ==> proof.storage.value.lanes[proof.lane].Some?)
    && (proof.noncesEnd < proof.noncesStart ==> proof.lane in proof.storage.value.lanes)
  }

  /** Reads exactly the declared messages and the optional lane state, or refuses the proof. */
  method VerifyMessagesProof(proof: MessagesProof, count: nat) returns (result: Result<LaneProof, VerificationError>)
    ensures result.Ok? <==> Provable(proof, count)
    ensures result.Ok? ==>
              var storage := proof.storage.value;
              && IsRange(storage, proof.lane, proof.noncesStart, proof.noncesEnd, result.value.messages)
              && result.value.laneState == if proof.lane in storage.lanes then storage.lanes[proof.lane] else None
  {
    if proof.noncesStart <= proof.noncesEnd {
      var difference: Nonce := proof.noncesEnd - proof.noncesStart;
      if Min(U64_MAX, difference + 1) != count {
        return Err(MessagesCountMismatch);
      }
    }
    if proof.storage.None? {
      return Err(InvalidStorageProof);
    }
    var storage := proof.storage.value;
    var messages: seq<InboundMessage> := [];
    var next := proof.noncesStart as int;
    while next <= proof.noncesEnd
      invariant proof.noncesStart <= next <= Max(proof.noncesStart, proof.noncesEnd + 1)
      invariant IsRange(storage, proof.lane, proof.noncesStart, next - 1, messages)
      invariant forall n: Nonce | proof.noncesStart <= n < next :: Readable(storage, proof.lane, n)
      decreases proof.noncesEnd + 1 - next
    {
      var nonce: Nonce := next;
      if (proof.lane, nonce) !in storage.messages {
        assert !Readable(storage, proof.lane, nonce);
        return Err(MissingRequiredMessage);
      }
      match storage.messages[(proof.lane, nonce)] {
        case None =>
          assert !Readable(storage, proof.lane, nonce);
          return Err(FailedToDecodeMessage);
        case Some(data) =>
          messages := messages + [InboundMessage(nonce, data)];
      }
      next := next + 1;
    }
    var laneState: Option<OutboundLaneData> := None;
    if proof.lane in storage.lanes {
      laneState := storage.lanes[proof.lane];
      if laneState.None? {
        return Err(FailedToDecodeOutboundLaneData);
      }
    }
    if laneState.None? && messages == [] {
      return Err(EmptyMessageProof);
    }
    result := Ok(LaneProof(laneState, messages));
  }

  // ---------------------------------------------------------------- the batch

  /** What became of one message of the batch. */
  datatype Status =
    | Skipped(nonce: Nonce)
    | Handled(nonce: Nonce, result: ReceivalResult)

  datatype Progress = Progress(
    lane: InboundLaneData, left: Weight, actual: Weight, stopped: bool, statuses: seq<Status>)

  /** Weight really used by a handled message: a rejected message uses none. */
  function UsedWeight(m: InboundMessage, result: ReceivalResult): (used: Weight)
    ensures AllLe(used, m.data.weight)
  {
    Minus(m.data.weight, WeightMin(if result.Dispatched? then m.data.unspent else m.data.weight, m.data.weight))
  }

  /** Weight handed back for a handled message. */
  function Refund(overhead: Weight, m: InboundMessage, result: ReceivalResult, actual: Weight): Weight {
    var unspent := WeightMin(if result.Dispatched? then m.data.unspent else m.data.weight, m.data.weight);
    var refundsFee := if result.Dispatched? then !m.data.feePaidDuringDispatch else true;
    SaturatingMinus(SaturatingMinus(actual, unspent), if refundsFee then overhead else ZERO_WEIGHT)
  }

  function Processed(limits: Limits, overhead: Weight, relayer: AccountId, p: Progress, m: InboundMessage): Progress
    requires LastDelivered(p.lane) < U64_MAX
  {
    if p.stopped || AnyGt(m.data.weight, p.left) then
      p.(stopped := true, statuses := p.statuses + [Skipped(m.nonce)])
    else
      var result := Receival(limits, p.lane, m.nonce, m.data.outcome);
      var used := UsedWeight(m, result);
      Progress(Received(limits, p.lane, relayer, m.nonce, m.data.outcome), Minus(p.left, used),
               Refund(overhead, m, result, p.actual), false, p.statuses + [Handled(m.nonce, result)])
  }

  /** Nonces the source chain can have generated. */
  predicate GeneratedNonces(messages: seq<InboundMessage>) {
    forall k | 0 <= k < |messages| :: messages[k].nonce < U64_MAX
  }

  /** Progress after all messages of one lane. */
  function AllProcessed(
    limits: Limits, overhead: Weight, relayer: AccountId, p: Progress, messages: seq<InboundMessage>): (r: Progress)
    requires LastDelivered(p.lane) < U64_MAX && GeneratedNonces(messages)
    ensures LastDelivered(r.lane) < U64_MAX
    decreases |messages|
  {
    if messages == [] then p
    else
      var last := |messages| - 1;
      Processed(limits, overhead, relayer, AllProcessed(limits, overhead, relayer, p, messages[..last]), messages[last])
  }

  lemma AllProcessedNone(limits: Limits, overhead: Weight, relayer: AccountId, p: Progress)
    requires LastDelivered(p.lane) < U64_MAX
    ensures AllProcessed(limits, overhead, relayer, p, []) == p
  {}

  lemma AllProcessedStep(
    limits: Limits, overhead: Weight, relayer: AccountId, p: Progress, messages: seq<InboundMessage>, k: nat)
    requires LastDelivered(p.lane) < U64_MAX && GeneratedNonces(messages) && k < |messages|
    ensures AllProcessed(limits, overhead, relayer, p, messages[..k + 1])
            == Processed(limits, overhead, relayer, AllProcessed(limits, overhead, relayer, p, messages[..k]), messages[k])
  {
    assert messages[..k + 1][..k] == messages[..k];
  }

  function DispatchedNonces(statuses: seq<Status>): seq<Nonce> {
    if statuses == [] then []
    else
      var last := statuses[|statuses| - 1];
      DispatchedNonces(statuses[..|statuses| - 1])
      + if last.Handled? && last.result.Dispatched? then [last.nonce] else []
  }

  /** What a message costs: when dispatched, its weight without the part that the dispatch left unspent. */
  function Cost(m: InboundMessage, s: Status): Weight {
    if s.Handled? && s.result.Dispatched?
    then Weight(Max(0, m.data.weight.refTime - m.data.unspent.refTime), Max(0, m.data.weight.proofSize - m.data.unspent.proofSize))
    else ZERO_WEIGHT
  }

  function Spent(messages: seq<InboundMessage>, statuses: seq<Status>): Weight
    requires |messages| == |statuses|
  {
    if messages == [] then ZERO_WEIGHT
    else
      var last := |messages| - 1;
      Plus(Spent(messages[..last], statuses[..last]), Cost(messages[last], statuses[last]))
  }

  /** What a handled message takes off the charge: all of its weight but its cost, and the price of collecting the
      fee here unless the dispatch collected it. */
  function Returned(overhead: Weight, m: InboundMessage, s: Status): Weight {
    if s.Skipped? then ZERO_WEIGHT
    else
      var fee := if s.result.Dispatched? && m.data.feePaidDuringDispatch then ZERO_WEIGHT else overhead;
      Weight(m.data.weight.refTime - Cost(m, s).refTime + fee.refTime, m.data.weight.proofSize - Cost(m, s).proofSize + fee.proofSize)
  }

  function TotalReturned(overhead: Weight, messages: seq<InboundMessage>, statuses: seq<Status>): Weight
    requires |messages| == |statuses|
  {
    if messages == [] then ZERO_WEIGHT
    else
      var last := |messages| - 1;
      Plus(TotalReturned(overhead, messages[..last], statuses[..last]), Returned(overhead, messages[last], statuses[last]))
  }

  /** Message `m` still fits the declared weight when `spent` of it is gone. */
  predicate Fits(declared: Weight, spent: Weight, m: InboundMessage) {
    AllLe(Plus(spent, m.data.weight), declared)
  }

  /** Some message up to the `k`-th did not fit what the messages before it left of `declared`. */
  ghost predicate OverspentBy(declared: Weight, already: Weight, messages: seq<InboundMessage>, statuses: seq<Status>, k: nat)
    requires |messages| == |statuses| && k < |messages|
  {
    exists j :: 0 <= j <= k && !FitsAt(declared, already, messages, statuses, j)
  }

  predicate FitsAt(declared: Weight, already: Weight, messages: seq<InboundMessage>, statuses: seq<Status>, j: nat)
    requires |messages| == |statuses| && j < |messages|
  {
    Fits(declared, Plus(already, Spent(messages[..j], statuses[..j])), messages[j])
  }

  /** `nonces` is the block of consecutive nonces `first..=last`. */
  predicate ContiguousBlock(nonces: seq<Nonce>, first: int, last: int) {
    |nonces| == last + 1 - first && forall k | 0 <= k < |nonces| :: nonces[k] == first + k
  }

  lemma StatusAppended(overhead: Weight, messages: seq<InboundMessage>, m: InboundMessage, statuses: seq<Status>, s: Status)
    requires |messages| == |statuses|
    ensures DispatchedNonces(statuses + [s])
            == DispatchedNonces(statuses) + if s.Handled? && s.result.Dispatched? then [s.nonce] else []
    ensures Spent(messages + [m], statuses + [s]) == Plus(Spent(messages, statuses), Cost(m, s))
    ensures TotalReturned(overhead, messages + [m], statuses + [s])
            == Plus(TotalReturned(overhead, messages, statuses), Returned(overhead, m, s))
  {
    assert (statuses + [s])[..|statuses|] == statuses && (messages + [m])[..|messages|] == messages;
  }

  /** The dispatched nonces are the block that the lane advanced by, what the dispatched messages cost and the weight
      left add up to what was available, and the charge shrinks by exactly what the messages return. */
  predicate BatchTotals(overhead: Weight, messages: seq<InboundMessage>, p: Progress, r: Progress) {
    && |r.statuses| == |messages|
    && ContiguousBlock(DispatchedNonces(r.statuses), LastDelivered(p.lane) + 1, LastDelivered(r.lane))
    && r.lane.lastConfirmed == p.lane.lastConfirmed
    && Plus(Spent(messages, r.statuses), r.left) == p.left
    && r.actual == SaturatingMinus(p.actual, TotalReturned(overhead, messages, r.statuses))
  }

  /** One status per message in order; a message is skipped exactly when it or an earlier one did not fit. */
  ghost predicate BatchStatuses(messages: seq<InboundMessage>, p: Progress, r: Progress) {
    && |r.statuses| == |messages|
    && (forall k | 0 <= k < |messages| :: r.statuses[k].nonce == messages[k].nonce)
    && SkipsOverspent(p.left, ZERO_WEIGHT, messages, r.statuses)
    && (r.stopped <==> messages != [] && r.statuses[|messages| - 1].Skipped?)
  }

  ghost predicate SkipsOverspent(declared: Weight, already: Weight, messages: seq<InboundMessage>, statuses: seq<Status>)
    requires |messages| == |statuses|
  {
    forall k | 0 <= k < |messages| :: SkippedIffOverspent(declared, already, messages, statuses, k)
  }

  ghost predicate SkippedIffOverspent(
    declared: Weight, already: Weight, messages: seq<InboundMessage>, statuses: seq<Status>, k: nat)
    requires |messages| == |statuses| && k < |messages|
  {
    statuses[k].Skipped? <==> OverspentBy(declared, already, messages, statuses, k)
  }

  /** What one status means for the lane and the weights: `r` follows `before` by handling message `m`. */
  predicate FollowsBy(overhead: Weight, before: Progress, r: Progress, m: InboundMessage, status: Status) {
    && r.statuses == before.statuses + [status] && status.nonce == m.nonce
    && r.lane.lastConfirmed == before.lane.lastConfirmed
    && Plus(Cost(m, status), r.left) == before.left
    && r.actual == SaturatingMinus(before.actual, Returned(overhead, m, status))
    && (status.Skipped? <==> before.stopped || !Fits(before.left, ZERO_WEIGHT, m))
    && (r.stopped <==> status.Skipped?)
    && (if status.Handled? && status.result.Dispatched? then m.nonce == LastDelivered(before.lane) + 1 == LastDelivered(r.lane)
        else r.lane == before.lane)
  }

  lemma ProcessedFollows(limits: Limits, overhead: Weight, relayer: AccountId, before: Progress, m: InboundMessage)
    returns (status: Status)
    requires LastDelivered(before.lane) < U64_MAX
    ensures FollowsBy(overhead, before, Processed(limits, overhead, relayer, before, m), m, status)
  {
    var r := Processed(limits, overhead, relayer, before, m);
    status := r.statuses[|before.statuses|];
    ReceivedAdvancesByOne(limits, before.lane, relayer, m.nonce, m.data.outcome);
  }

  lemma TotalsStep(
    overhead: Weight, p: Progress, messages: seq<InboundMessage>, before: Progress, r: Progress, m: InboundMessage, status: Status)
    requires BatchTotals(overhead, messages, p, before) && FollowsBy(overhead, before, r, m, status)
    ensures BatchTotals(overhead, messages + [m], p, r)
  {
    hide DispatchedNonces, Spent, TotalReturned, Cost, Returned, Fits;
    StatusAppended(overhead, messages, m, before.statuses, status);
  }

  /** What happened to earlier messages does not depend on later ones. */
  lemma PrefixOverspent(
    declared: Weight, already: Weight, messages: seq<InboundMessage>, m: InboundMessage, statuses: seq<Status>, s: Status, k: nat)
    requires |messages| == |statuses| && k < |messages|
    ensures OverspentBy(declared, already, messages + [m], statuses + [s], k) <==> OverspentBy(declared, already, messages, statuses, k)
  {
    forall j | 0 <= j <= k
      ensures FitsAt(declared, already, messages + [m], statuses + [s], j) <==> FitsAt(declared, already, messages, statuses, j)
    {
      assert (messages + [m])[..j] == messages[..j] && (statuses + [s])[..j] == statuses[..j];
    }
  }

  lemma LastOverspent(
    declared: Weight, already: Weight, messages: seq<InboundMessage>, m: InboundMessage, statuses: seq<Status>, s: Status)
    requires |messages| == |statuses|
    ensures OverspentBy(declared, already, messages + [m], statuses + [s], |messages|)
            <==> || (messages != [] && OverspentBy(declared, already, messages, statuses, |messages| - 1))
                 || !Fits(declared, Plus(already, Spent(messages, statuses)), m)
  {
    hide Spent, Fits;
    var longer, after := messages + [m], statuses + [s];
    assert longer[..|messages|] == messages && after[..|messages|] == statuses;
    if messages != [] {
      PrefixOverspent(declared, already, messages, m, statuses, s, |messages| - 1);
    }
    if OverspentBy(declared, already, longer, after, |messages|) {
      var j :| 0 <= j <= |messages| && !FitsAt(declared, already, longer, after, j);
      assert j < |messages| ==> OverspentBy(declared, already, longer, after, |messages| - 1);
    }
    if messages != [] && OverspentBy(declared, already, longer, after, |messages| - 1) {
      var j :| 0 <= j <= |messages| - 1 && !FitsAt(declared, already, longer, after, j);
      assert j <= |messages|;
    }
    if !Fits(declared, Plus(already, Spent(messages, statuses)), m) {
      assert !FitsAt(declared, already, longer, after, |messages|);
    }
  }

  lemma StatusesStep(
    overhead: Weight, p: Progress, messages: seq<InboundMessage>, before: Progress, r: Progress, m: InboundMessage, status: Status)
    requires BatchTotals(overhead, messages, p, before) && BatchStatuses(messages, p, before)
    requires FollowsBy(overhead, before, r, m, status)
    ensures BatchStatuses(messages + [m], p, r)
  {
    hide DispatchedNonces, Spent, TotalReturned, Cost, Returned, OverspentBy;
    forall k | 0 <= k < |messages + [m]| ensures SkippedIffOverspent(p.left, ZERO_WEIGHT, messages + [m], r.statuses, k) {
      if k < |messages| {
        assert SkippedIffOverspent(p.left, ZERO_WEIGHT, messages, before.statuses, k);
        PrefixOverspent(p.left, ZERO_WEIGHT, messages, m, before.statuses, status, k);
      } else {
        LastOverspent(p.left, ZERO_WEIGHT, messages, m, before.statuses, status);
        if messages != [] {
          assert SkippedIffOverspent(p.left, ZERO_WEIGHT, messages, before.statuses, |messages| - 1);
        }
      }
    }
  }

  /** One lane's share of a batch. */
  lemma {:induction false} BatchIsContiguous(
    limits: Limits, overhead: Weight, relayer: AccountId, p: Progress, messages: seq<InboundMessage>)
    requires LastDelivered(p.lane) < U64_MAX && GeneratedNonces(messages)
    requires p.statuses == [] && !p.stopped
    ensures BatchTotals(overhead, messages, p, AllProcessed(limits, overhead, relayer, p, messages))
    ensures BatchStatuses(messages, p, AllProcessed(limits, overhead, relayer, p, messages))
    decreases |messages|
  {
    hide Processed, BatchTotals, BatchStatuses, FollowsBy;
    if messages == [] {
      NothingProcessed(limits, overhead, relayer, p);
    } else {
      var last := |messages| - 1;
      BatchIsContiguous(limits, overhead, relayer, p, messages[..last]);
      var before := AllProcessed(limits, overhead, relayer, p, messages[..last]);
      var r := AllProcessed(limits, overhead, relayer, p, messages);
      var status := ProcessedFollows(limits, overhead, relayer, before, messages[last]);
      TotalsStep(overhead, p, messages[..last], before, r, messages[last], status);
      StatusesStep(overhead, p, messages[..last], before, r, messages[last], status);
      assert messages[..last] + [messages[last]] == messages;
    }
  }

  lemma NothingProcessed(limits: Limits, overhead: Weight, relayer: AccountId, p: Progress)
    requires LastDelivered(p.lane) < U64_MAX && p.statuses == [] && !p.stopped
    ensures BatchTotals(overhead, [], p, AllProcessed(limits, overhead, relayer, p, []))
    ensures BatchStatuses([], p, AllProcessed(limits, overhead, relayer, p, []))
  {}

  /** A lane keeps its invariant and its limits through any batch. */
  lemma {:induction false} BatchKeepsValid(
    limits: Limits, overhead: Weight, relayer: AccountId, p: Progress, messages: seq<InboundMessage>)
    requires LastDelivered(p.lane) < U64_MAX && GeneratedNonces(messages)
    requires ValidLane(p.lane)
    ensures ValidLane(AllProcessed(limits, overhead, relayer, p, messages).lane)
    ensures WithinLimits(limits, p.lane) ==>
              WithinLimits(limits, AllProcessed(limits, overhead, relayer, p, messages).lane)
    decreases |messages|
  {
    hide ValidLane, WithinLimits, Received, Receival, Refund, UsedWeight;
    if messages != [] {
      var last := |messages| - 1;
      BatchKeepsValid(limits, overhead, relayer, p, messages[..last]);
      var before := AllProcessed(limits, overhead, relayer, p, messages[..last]);
      ReceivedKeepsValid(limits, before.lane, relayer, messages[last].nonce, messages[last].data.outcome);
      if WithinLimits(limits, before.lane) {
        ReceivedKeepsLimits(limits, before.lane, relayer, messages[last].nonce, messages[last].data.outcome);
      }
    }
  }

  /** Every message that a batch reports as dispatched is recorded on its lane under its nonce, the delivering relayer and
      the flag of its dispatch, and records of earlier batches stay. */
  lemma {:induction false} BatchIsRecorded(
    limits: Limits, overhead: Weight, relayer: AccountId, p: Progress, messages: seq<InboundMessage>, n: Nonce, who: AccountId, flag: bool)
    requires LastDelivered(p.lane) < U64_MAX && GeneratedNonces(messages)
    requires ValidLane(p.lane) && p.statuses == []
    ensures var r := AllProcessed(limits, overhead, relayer, p, messages);
            && ValidLane(r.lane) && |r.statuses| == |messages|
            && (Recorded(r.lane.relayers, n, who, flag)
                <==> Recorded(p.lane.relayers, n, who, flag)
                     || (who == relayer && exists k :: 0 <= k < |messages| && DispatchedAt(messages, r.statuses, k, n, flag)))
    decreases |messages|
  {
    hide Recorded, ValidLane, Received, Receival, Refund, UsedWeight;
    if messages != [] {
      var last := |messages| - 1;
      BatchIsRecorded(limits, overhead, relayer, p, messages[..last], n, who, flag);
      var before := AllProcessed(limits, overhead, relayer, p, messages[..last]);
      var r := AllProcessed(limits, overhead, relayer, p, messages);
      ReceivedAddsRecord(limits, before.lane, relayer, messages[last].nonce, messages[last].data.outcome, n, who, flag);
      DispatchedIff(limits, before.lane, messages[last].nonce, messages[last].data.outcome, messages[last].data.outcome.flag);
      DispatchGrows(messages, before.statuses, r.statuses[last], n, flag);
      assert r.statuses == before.statuses + [r.statuses[last]];
      FlagIsOutcome(limits, before.lane, messages[last].nonce, messages[last].data.outcome);
    }
  }

  lemma FlagIsOutcome(limits: Limits, d: InboundLaneData, nonce: Nonce, outcome: DispatchOutcome)
    ensures Receival(limits, d, nonce, outcome).Dispatched? ==> Receival(limits, d, nonce, outcome) == Dispatched(outcome.flag)
  {}

  /** The `k`-th message has nonce `n` and was dispatched with `flag`. */
  predicate DispatchedAt(messages: seq<InboundMessage>, statuses: seq<Status>, k: nat, n: Nonce, flag: bool)
    requires |messages| == |statuses| && k < |messages|
  {
    messages[k].nonce == n && statuses[k].Handled? && statuses[k].result == Dispatched(flag)
  }

  lemma DispatchGrows(messages: seq<InboundMessage>, statuses: seq<Status>, s: Status, n: Nonce, flag: bool)
    requires messages != [] && |statuses| == |messages| - 1
    ensures var last := |messages| - 1;
            (exists k :: 0 <= k < |messages| && DispatchedAt(messages, statuses + [s], k, n, flag))
            <==> || (exists k :: 0 <= k < last && DispatchedAt(messages[..last], statuses, k, n, flag))
                 || (messages[last].nonce == n && s.Handled? && s.result == Dispatched(flag))
  {
    var last := |messages| - 1;
    forall k | 0 <= k < last
      ensures DispatchedAt(messages, statuses + [s], k, n, flag) <==> DispatchedAt(messages[..last], statuses, k, n, flag)
    {}
    if messages[last].nonce == n && s.Handled? && s.result == Dispatched(flag) {
      assert DispatchedAt(messages, statuses + [s], last, n, flag);
    }
    if k :| 0 <= k < last && DispatchedAt(messages[..last], statuses, k, n, flag) {
      assert DispatchedAt(messages, statuses + [s], k, n, flag);
    }
  }

  // ---------------------------------------------------------------- the pallet

  datatype LaneBatch = LaneBatch(lane: LaneId, proof: LaneProof)

  /** The inbound lanes, the weight still available, the weight to charge and the statuses so far. */
  datatype Batch = Batch(
    lanes: map<LaneId, InboundLaneData>, left: Weight, actual: Weight, statuses: seq<(LaneId, seq<Status>)>)

  function LaneData(lanes: map<LaneId, InboundLaneData>, id: LaneId): InboundLaneData {
    if id in lanes then lanes[id] else EMPTY_INBOUND
  }

  predicate ValidLanes(lanes: map<LaneId, InboundLaneData>) {
    forall id | id in lanes :: ValidLane(lanes[id]) && LastDelivered(lanes[id]) < U64_MAX
  }

  /** The lane data that message processing starts from: the proven state, if any, is applied first. */
  function Refreshed(d: InboundLaneData, state: Option<OutboundLaneData>): InboundLaneData
    requires ValidLane(d)
  {
    if state.Some? then StateUpdated(d, state.value.latestReceived) else d
  }

  lemma RefreshedKeeps(d: InboundLaneData, state: Option<OutboundLaneData>)
    requires ValidLane(d)
    ensures ValidLane(Refreshed(d, state)) && LastDelivered(Refreshed(d, state)) == LastDelivered(d)
  {
    if state.Some? {
      StateUpdateKeepsValid(d, state.value.latestReceived);
      StateUpdateKeepsLastDelivered(d, state.value.latestReceived);
    }
  }

  function Stored(lanes: map<LaneId, InboundLaneData>, id: LaneId, d: InboundLaneData): map<LaneId, InboundLaneData> {
    if d == LaneData(lanes, id) then lanes else lanes[id := d]
  }

  function LaneProgress(limits: Limits, overhead: Weight, relayer: AccountId, b: Batch, l: LaneBatch): (r: Progress)
    requires ValidLanes(b.lanes) && GeneratedNonces(l.proof.messages)
    ensures ValidLane(r.lane) && LastDelivered(r.lane) < U64_MAX
  {
    var d := LaneData(b.lanes, l.lane);
    RefreshedKeeps(d, l.proof.laneState);
    var start := Progress(Refreshed(d, l.proof.laneState), b.left, b.actual, false, []);
    BatchKeepsValid(limits, overhead, relayer, start, l.proof.messages);
    AllProcessed(limits, overhead, relayer, start, l.proof.messages)
  }

  function LaneDone(limits: Limits, overhead: Weight, relayer: AccountId, b: Batch, l: LaneBatch): (r: Batch)
    requires ValidLanes(b.lanes) && GeneratedNonces(l.proof.messages)
    ensures ValidLanes(r.lanes)
  {
    var p := LaneProgress(limits, overhead, relayer, b, l);
    Batch(Stored(b.lanes, l.lane, p.lane), p.left, p.actual, b.statuses + [(l.lane, p.statuses)])
  }

  predicate GeneratedBatch(proof: seq<LaneBatch>) {
    forall i | 0 <= i < |proof| :: GeneratedNonces(proof[i].proof.messages)
  }

  function BatchDone(limits: Limits, overhead: Weight, relayer: AccountId, b: Batch, proof: seq<LaneBatch>): (r: Batch)
    requires ValidLanes(b.lanes) && GeneratedBatch(proof)
    ensures ValidLanes(r.lanes)
    decreases |proof|
  {
    if proof == [] then b
    else
      var last := |proof| - 1;
      LaneDone(limits, overhead, relayer, BatchDone(limits, overhead, relayer, b, proof[..last]), proof[last])
  }

  /** One list of statuses per lane of the proof, one status per message. */
  predicate Aligned(proof: seq<LaneBatch>, statuses: seq<(LaneId, seq<Status>)>) {
    && |proof| == |statuses|
    && forall i | 0 <= i < |proof| :: AlignedAt(proof[i], statuses[i])
  }

  predicate AlignedAt(l: LaneBatch, statuses: (LaneId, seq<Status>)) {
    l.lane == statuses.0 && |l.proof.messages| == |statuses.1|
  }

  function SpentByLanes(proof: seq<LaneBatch>, statuses: seq<(LaneId, seq<Status>)>): Weight
    requires Aligned(proof, statuses)
  {
    if proof == [] then ZERO_WEIGHT
    else
      var last := |proof| - 1;
      assert AlignedAt(proof[last], statuses[last]);
      Plus(SpentByLanes(proof[..last], statuses[..last]), Spent(proof[last].proof.messages, statuses[last].1))
  }

  function ReturnedByLanes(overhead: Weight, proof: seq<LaneBatch>, statuses: seq<(LaneId, seq<Status>)>): Weight
    requires Aligned(proof, statuses)
  {
    if proof == [] then ZERO_WEIGHT
    else
      var last := |proof| - 1;
      assert AlignedAt(proof[last], statuses[last]);
      Plus(ReturnedByLanes(overhead, proof[..last], statuses[..last]), TotalReturned(overhead, proof[last].proof.messages, statuses[last].1))
  }

  /** Nonces a batch dispatched on lane `id`, over all of its parts. */
  function LaneDispatches(statuses: seq<(LaneId, seq<Status>)>, id: LaneId): seq<Nonce> {
    if statuses == [] then []
    else
      var last := statuses[|statuses| - 1];
      LaneDispatches(statuses[..|statuses| - 1], id) + if last.0 == id then DispatchedNonces(last.1) else []
  }

  /** Over a whole batch, the nonces dispatched on a lane are exactly the block by which the lane advanced. */
  lemma {:induction false} BatchDispatchesBlocks(
    limits: Limits, overhead: Weight, relayer: AccountId, b: Batch, proof: seq<LaneBatch>, id: LaneId)
    requires ValidLanes(b.lanes) && GeneratedBatch(proof) && b.statuses == []
    ensures var r := BatchDone(limits, overhead, relayer, b, proof);
            ContiguousBlock(LaneDispatches(r.statuses, id),
                            LastDelivered(LaneData(b.lanes, id)) + 1, LastDelivered(LaneData(r.lanes, id)))
    decreases |proof|
  {
    if proof != [] {
      var last := |proof| - 1;
      BatchDispatchesBlocks(limits, overhead, relayer, b, proof[..last], id);
      var before := BatchDone(limits, overhead, relayer, b, proof[..last]);
      LaneDispatchesBlock(limits, overhead, relayer, before, proof[last], id);
      var p := LaneProgress(limits, overhead, relayer, before, proof[last]);
      BlocksJoin(before.statuses, proof[last].lane, p.statuses, id,
                 LastDelivered(LaneData(b.lanes, id)) + 1, LastDelivered(LaneData(before.lanes, id)),
                 LastDelivered(LaneData(LaneDone(limits, overhead, relayer, before, proof[last]).lanes, id)));
    }
  }

  lemma BlocksJoin(
    statuses: seq<(LaneId, seq<Status>)>, lane: LaneId, more: seq<Status>, id: LaneId, first: int, middle: int, last: int)
    requires ContiguousBlock(LaneDispatches(statuses, id), first, middle)
    requires if lane == id then ContiguousBlock(DispatchedNonces(more), middle + 1, last) else last == middle
    ensures ContiguousBlock(LaneDispatches(statuses + [(lane, more)], id), first, last)
  {
    assert (statuses + [(lane, more)])[..|statuses|] == statuses;
  }

  lemma LaneTotals(limits: Limits, overhead: Weight, relayer: AccountId, b: Batch, l: LaneBatch)
    requires ValidLanes(b.lanes) && GeneratedNonces(l.proof.messages)
    ensures var start := Progress(Refreshed(LaneData(b.lanes, l.lane), l.proof.laneState), b.left, b.actual, false, []);
            && BatchTotals(overhead, l.proof.messages, start, LaneProgress(limits, overhead, relayer, b, l))
            && BatchStatuses(l.proof.messages, start, LaneProgress(limits, overhead, relayer, b, l))
    ensures LastDelivered(Refreshed(LaneData(b.lanes, l.lane), l.proof.laneState)) == LastDelivered(LaneData(b.lanes, l.lane))
  {
    var d := LaneData(b.lanes, l.lane);
    RefreshedKeeps(d, l.proof.laneState);
    var start := Progress(Refreshed(d, l.proof.laneState), b.left, b.actual, false, []);
    BatchIsContiguous(limits, overhead, relayer, start, l.proof.messages);
  }

  /** Each lane of a batch first applies the source's confirmation that came with it, if it is new and not ahead of the
      lane; its messages do not touch the confirmed nonce, and other lanes stay as they are. */
  lemma LaneAppliesState(limits: Limits, overhead: Weight, relayer: AccountId, b: Batch, l: LaneBatch, id: LaneId)
    requires ValidLanes(b.lanes) && GeneratedNonces(l.proof.messages)
    ensures var before, after := LaneData(b.lanes, id), LaneData(LaneDone(limits, overhead, relayer, b, l).lanes, id);
            if id == l.lane && l.proof.laneState.Some?
               && before.lastConfirmed < l.proof.laneState.value.latestReceived <= LastDelivered(before)
            then after.lastConfirmed == l.proof.laneState.value.latestReceived
            else after.lastConfirmed == before.lastConfirmed && (id != l.lane ==> after == before)
  {
    hide LaneProgress, BatchStatuses, StateUpdated, ValidLane, Spent, TotalReturned, DispatchedNonces;
    LaneTotals(limits, overhead, relayer, b, l);
    LaneDataIsValid(b.lanes, l.lane);
    RefreshedConfirms(LaneData(b.lanes, l.lane), l.proof.laneState);
  }

  lemma LaneDataIsValid(lanes: map<LaneId, InboundLaneData>, id: LaneId)
    requires ValidLanes(lanes)
    ensures ValidLane(LaneData(lanes, id))
  {}

  lemma RefreshedConfirms(d: InboundLaneData, state: Option<OutboundLaneData>)
    requires ValidLane(d)
    ensures Refreshed(d, state).lastConfirmed
            == if state.Some? && d.lastConfirmed < state.value.latestReceived <= LastDelivered(d)
               then state.value.latestReceived else d.lastConfirmed
  {
    if state.Some? { StateUpdateKeepsValid(d, state.value.latestReceived); }
  }

  lemma LaneDispatchesBlock(limits: Limits, overhead: Weight, relayer: AccountId, b: Batch, l: LaneBatch, id: LaneId)
    requires ValidLanes(b.lanes) && GeneratedNonces(l.proof.messages)
    ensures var r := LaneDone(limits, overhead, relayer, b, l);
            if id == l.lane
            then ContiguousBlock(DispatchedNonces(LaneProgress(limits, overhead, relayer, b, l).statuses),
                                 LastDelivered(LaneData(b.lanes, id)) + 1, LastDelivered(LaneData(r.lanes, id)))
            else LaneData(r.lanes, id) == LaneData(b.lanes, id)
  {
    LaneTotals(limits, overhead, relayer, b, l);
  }

  /** Over a whole batch, what the dispatched messages cost plus the weight left is the declared dispatch weight, in
      both components, and the final charge is the declared one less what the messages return. */
  lemma {:induction false} BatchSpendsDeclaredWeight(
    limits: Limits, overhead: Weight, relayer: AccountId, b: Batch, proof: seq<LaneBatch>)
    requires ValidLanes(b.lanes) && GeneratedBatch(proof) && b.statuses == []
    ensures var r := BatchDone(limits, overhead, relayer, b, proof);
            && Aligned(proof, r.statuses)
            && Plus(SpentByLanes(proof, r.statuses), r.left) == b.left
            && r.actual == SaturatingMinus(b.actual, ReturnedByLanes(overhead, proof, r.statuses))
    decreases |proof|
  {
    hide LaneProgress, Spent, TotalReturned, BatchStatuses;
    if proof != [] {
      var last := |proof| - 1;
      BatchSpendsDeclaredWeight(limits, overhead, relayer, b, proof[..last]);
      var before := BatchDone(limits, overhead, relayer, b, proof[..last]);
      LaneTotals(limits, overhead, relayer, before, proof[last]);
      var r := LaneDone(limits, overhead, relayer, before, proof[last]);
      LaneAligned(proof, before.statuses, LaneProgress(limits, overhead, relayer, before, proof[last]).statuses);
      assert r.statuses[..|before.statuses|] == before.statuses;
    }
  }

  lemma LaneAligned(proof: seq<LaneBatch>, statuses: seq<(LaneId, seq<Status>)>, more: seq<Status>)
    requires proof != [] && Aligned(proof[..|proof| - 1], statuses) && |more| == |proof[|proof| - 1].proof.messages|
    ensures Aligned(proof, statuses + [(proof[|proof| - 1].lane, more)])
  {
    forall i | 0 <= i < |proof| ensures AlignedAt(proof[i], (statuses + [(proof[|proof| - 1].lane, more)])[i]) {
      if i < |proof| - 1 { assert AlignedAt(proof[..|proof| - 1][i], statuses[i]); }
    }
  }

  /** Over a whole batch, a message is skipped exactly when it, or an earlier message of its lane, no longer fits the
      declared weight after the costs of all messages dispatched before it on any lane. */
  lemma {:induction false} BatchSkipsExactlyOverspent(
    limits: Limits, overhead: Weight, relayer: AccountId, b: Batch, proof: seq<LaneBatch>, i: nat)
    requires ValidLanes(b.lanes) && GeneratedBatch(proof) && b.statuses == [] && i < |proof|
    ensures var r := BatchDone(limits, overhead, relayer, b, proof);
            && Aligned(proof, r.statuses) && Aligned(proof[..i], r.statuses[..i]) && AlignedAt(proof[i], r.statuses[i])
            && SkipsOverspent(b.left, SpentByLanes(proof[..i], r.statuses[..i]), proof[i].proof.messages, r.statuses[i].1)
    decreases |proof|
  {
    hide LaneProgress, Spent, TotalReturned, SkipsOverspent, SpentByLanes, ReturnedByLanes;
    var last := |proof| - 1;
    var before := BatchDone(limits, overhead, relayer, b, proof[..last]);
    var r := LaneDone(limits, overhead, relayer, before, proof[last]);
    BatchSpendsDeclaredWeight(limits, overhead, relayer, b, proof);
    BatchSpendsDeclaredWeight(limits, overhead, relayer, b, proof[..last]);
    assert r.statuses[..|before.statuses|] == before.statuses;
    assert AlignedAt(proof[i], r.statuses[i]);
    if i < last {
      BatchSkipsExactlyOverspent(limits, overhead, relayer, b, proof[..last], i);
      assert proof[..last][..i] == proof[..i] && before.statuses[..i] == r.statuses[..i];
    } else {
      LaneTotals(limits, overhead, relayer, before, proof[last]);
      SkipsShifted(before.left, SpentByLanes(proof[..last], before.statuses), b.left, proof[last].proof.messages, r.statuses[last].1);
    }
  }

  lemma SkipsShifted(left: Weight, already: Weight, declared: Weight, messages: seq<InboundMessage>, statuses: seq<Status>)
    requires |messages| == |statuses| && Plus(already, left) == declared && SkipsOverspent(left, ZERO_WEIGHT, messages, statuses)
    ensures SkipsOverspent(declared, already, messages, statuses)
  {
    forall k | 0 <= k < |messages| ensures SkippedIffOverspent(declared, already, messages, statuses, k) {
      assert SkippedIffOverspent(left, ZERO_WEIGHT, messages, statuses, k);
      forall j | 0 <= j <= k
        ensures FitsAt(declared, already, messages, statuses, j) <==> FitsAt(left, ZERO_WEIGHT, messages, statuses, j)
      {}
    }
  }

  datatype DeliveryError = TooManyMessagesInTheProof | InvalidMessagesProof

  class Pallet {
    const limits: Limits
    const overhead: Weight
    var inboundLanes: map<LaneId, InboundLaneData>

    ghost predicate Valid()
      reads this
    {
      ValidLanes(inboundLanes)
    }

    constructor (limits: Limits, overhead: Weight)
      ensures Valid() && this.limits == limits && this.overhead == overhead && inboundLanes == map[]
    {
      this.limits, this.overhead, inboundLanes := limits, overhead, map[];
    }

    /** Hand one message to the lane, unless the lane's weight has run out. */
    method ProcessMessage(lane: Lane, relayer: AccountId, m: InboundMessage, ghost before: Progress,
                          left: Weight, actual: Weight, stopped: bool, statuses: seq<Status>)
      returns (newLeft: Weight, newActual: Weight, nowStopped: bool, newStatuses: seq<Status>)
      requires lane.Valid() && lane.limits == limits
      requires ValidLane(lane.stored) && LastDelivered(lane.stored) < U64_MAX && m.nonce < U64_MAX
      requires before == Progress(lane.stored, left, actual, stopped, statuses)
      modifies lane
      ensures lane.Valid() && ValidLane(lane.stored) && LastDelivered(lane.stored) < U64_MAX
      ensures Progress(lane.stored, newLeft, newActual, nowStopped, newStatuses)
              == Processed(limits, overhead, relayer, before, m)
    {
      if stopped || AnyGt(m.data.weight, left) {
        return left, actual, true, statuses + [Skipped(m.nonce)];
      }
      ReceivedKeepsValid(limits, lane.stored, relayer, m.nonce, m.data.outcome);
      LastDeliveredIsAhead(lane.stored);
      var result := lane.ReceiveMessage(relayer, m.nonce, m.data.outcome);
      var unspent := WeightMin(if result.Dispatched? then m.data.unspent else m.data.weight, m.data.weight);
      var used := Minus(m.data.weight, unspent);
      newLeft, newActual := Minus(left, used), Refund(overhead, m, result, actual);
      nowStopped, newStatuses := false, statuses + [Handled(m.nonce, result)];
    }

    /** Process one lane of the batch. */
    method ProcessLane(relayer: AccountId, l: LaneBatch, left: Weight, actual: Weight) returns (p: Progress)
      requires Valid() && GeneratedNonces(l.proof.messages)
      modifies this
      ensures Valid()
      ensures p == LaneProgress(limits, overhead, relayer, Batch(old(inboundLanes), left, actual, []), l)
      ensures inboundLanes == Stored(old(inboundLanes), l.lane, p.lane)
    {
      hide AllProcessed, Processed, StateUpdated;
      var before := LaneData(inboundLanes, l.lane);
      var lane := new Lane(limits, before);
      if l.proof.laneState.Some? {
        var _ := lane.ReceiveStateUpdate(l.proof.laneState.value);
      }
      RefreshedKeeps(before, l.proof.laneState);
      ghost var start := Progress(lane.stored, left, actual, false, []);
      AllProcessedNone(limits, overhead, relayer, start);
      var statuses: seq<Status> := [];
      var weightLeft, charged, stopped := left, actual, false;
      for k := 0 to |l.proof.messages|
        invariant lane.Valid() && fresh(lane) && lane.limits == limits
        invariant ValidLane(lane.stored) && LastDelivered(lane.stored) < U64_MAX
        invariant Progress(lane.stored, weightLeft, charged, stopped, statuses)
                  == AllProcessed(limits, overhead, relayer, start, l.proof.messages[..k])
        invariant inboundLanes == old(inboundLanes)
      {
        AllProcessedStep(limits, overhead, relayer, start, l.proof.messages, k);
        weightLeft, charged, stopped, statuses := ProcessMessage(
          lane, relayer, l.proof.messages[k], Progress(lane.stored, weightLeft, charged, stopped, statuses),
          weightLeft, charged, stopped, statuses);
      }
      assert l.proof.messages[..|l.proof.messages|] == l.proof.messages;
      p := Progress(lane.stored, weightLeft, charged, stopped, statuses);
      if p.lane != before {
        inboundLanes := inboundLanes[l.lane := p.lane];
      }
    }

    /** The delivery call, for a proof that verified; `declared` is the weight the call was charged. */
    method ReceiveMessagesProof(
      relayer: AccountId, proof: seq<LaneBatch>, messagesCount: nat, dispatchWeight: Weight, declared: Weight)
      returns (result: Result<Batch, DeliveryError>)
      requires Valid() && GeneratedBatch(proof)
      modifies this
      ensures Valid()
      ensures result.Ok? <==> messagesCount <= limits.maxUnconfirmed
      ensures result.Ok? ==>
                && result.value == BatchDone(limits, overhead, relayer, Batch(old(inboundLanes), dispatchWeight, declared, []), proof)
                && inboundLanes == result.value.lanes
      ensures result.Err? ==> inboundLanes == old(inboundLanes)
    {
      if messagesCount > limits.maxUnconfirmed {
        return Err(TooManyMessagesInTheProof);
      }
      ghost var start := Batch(inboundLanes, dispatchWeight, declared, []);
      var left, actual := dispatchWeight, declared;
      var statuses: seq<(LaneId, seq<Status>)> := [];
      for i := 0 to |proof|
        invariant Valid()
        invariant Batch(inboundLanes, left, actual, statuses) == BatchDone(limits, overhead, relayer, start, proof[..i])
      {
        assert proof[..i + 1][..i] == proof[..i];
        var p := ProcessLane(relayer, proof[i], left, actual);
        left, actual, statuses := p.left, p.actual, statuses + [(proof[i].lane, p.statuses)];
      }
      assert proof[..|proof|] == proof;
      result := Ok(Batch(inboundLanes, left, actual, statuses));
    }
  }

  lemma LastDeliveredIsAhead(d: InboundLaneData)
    requires ValidLane(d)
    ensures d.lastConfirmed <= LastDelivered(d)
  {
    if d.relayers != [] { ChainEndsBound(d.relayers, 0); }
  }
}
