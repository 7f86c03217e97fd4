/** The transaction filter that drops obsolete lane transactions (runtime-common/src/messages_extension.rs). */
module CallFilter {
  import opened Wrappers
  import opened MessagePrimitives
  import opened InboundLane
  import OutboundLane
  import opened MessagesPallet
  import LaneProtocol

  datatype Call =
    | ReceiveMessagesProof(proof: MessagesProof)
    | ReceiveMessagesDeliveryProof(lane: LaneId, declared: UnrewardedRelayersState)
    | OtherCall

  datatype Validity = Accepted | Stale

  function Validate(
    inbound: map<LaneId, InboundLaneData>, outbound: map<LaneId, OutboundLaneData>, call: Call): Validity
  {
    match call
    case ReceiveMessagesProof(proof) =>
      if proof.noncesEnd <= LastDelivered(LaneData(inbound, proof.lane)) then Stale else Accepted
    case ReceiveMessagesDeliveryProof(lane, declared) =>
      var data := if lane in outbound then outbound[lane] else EMPTY_OUTBOUND;
      if declared.lastDelivered <= data.latestReceived then Stale else Accepted
    case OtherCall => Accepted
  }

  /** Exactly what is dropped: deliveries that end at or before the last delivered nonce and confirmations that declare
      at most the received nonce of their lane, which is zero for an unused lane. Every other call is accepted. */
  lemma StaleIff(inbound: map<LaneId, InboundLaneData>, outbound: map<LaneId, OutboundLaneData>, call: Call)
    ensures Validate(inbound, outbound, call) == Stale
            <==> || (call.ReceiveMessagesProof?
                     && call.proof.noncesEnd <= (if call.proof.lane in inbound then LastDelivered(inbound[call.proof.lane]) else 0))
                 || (call.ReceiveMessagesDeliveryProof?
                     && call.declared.lastDelivered <= (if call.lane in outbound then outbound[call.lane].latestReceived else 0))
  {}

  /** Messages that the lane already has leave it where it is, and cost no weight. */
  lemma {:induction false} OldMessagesAreIgnored(
    limits: Limits, overhead: Weight, relayer: AccountId, p: Progress, messages: seq<InboundMessage>)
    requires LastDelivered(p.lane) < U64_MAX && GeneratedNonces(messages)
    requires forall k | 0 <= k < |messages| :: messages[k].nonce <= LastDelivered(p.lane)
    ensures var r := AllProcessed(limits, overhead, relayer, p, messages);
            && r.lane == p.lane && r.left == p.left
            && (!p.stopped && (forall k | 0 <= k < |messages| :: !AnyGt(messages[k].data.weight, p.left)) ==> !r.stopped)
    decreases |messages|
  {
    if messages != [] {
      OldMessagesAreIgnored(limits, overhead, relayer, p, messages[..|messages| - 1]);
    }
  }

  /** A delivery that the filter calls stale would dispatch nothing on any lane, even if its lane state applied. */
  lemma StaleDeliveryDispatchesNothing(
    limits: Limits, overhead: Weight, relayer: AccountId, b: Batch, outbound: map<LaneId, OutboundLaneData>,
    proof: MessagesProof, read: LaneProof, id: LaneId)
    requires ValidLanes(b.lanes) && b.statuses == []
    requires Validate(b.lanes, outbound, ReceiveMessagesProof(proof)) == Stale
    requires proof.storage.Some?
    requires IsRange(proof.storage.value, proof.lane, proof.noncesStart, proof.noncesEnd, read.messages)
    ensures GeneratedNonces(read.messages)
    ensures var r := BatchDone(limits, overhead, relayer, b, [LaneBatch(proof.lane, read)]);
            && LaneDispatches(r.statuses, id) == []
            && LastDelivered(LaneData(r.lanes, id)) == LastDelivered(LaneData(b.lanes, id))
            && r.left == b.left
  {
    var d := LaneData(b.lanes, proof.lane);
    RefreshedKeeps(d, read.laneState);
    var start := Progress(Refreshed(d, read.laneState), b.left, b.actual, false, []);
    OldMessagesAreIgnored(limits, overhead, relayer, start, read.messages);
    var batch := [LaneBatch(proof.lane, read)];
    assert batch[..0] == [];
    BatchDispatchesBlocks(limits, overhead, relayer, b, batch, id);
  }

  /** The lane could take its next message: it is not full once the proven state is applied. */
  predicate HasRoom(limits: Limits, d: InboundLaneData) {
    |d.relayers| < limits.maxEntries && LastDelivered(d) + 1 - d.lastConfirmed <= limits.maxUnconfirmed
  }

  /** The filter drops nothing useful and keeps what is useful: a proof that starts no later than the next nonce,
      on a lane with room, whose next message passes pre-dispatch and whose messages up to it fit the declared
      weight, is accepted by the filter exactly when processing it advances the lane. */
  lemma FilterIsExactForDeliveries(
    limits: Limits, overhead: Weight, relayer: AccountId, b: Batch, outbound: map<LaneId, OutboundLaneData>,
    proof: MessagesProof, read: LaneProof)
    requires ValidLanes(b.lanes) && proof.noncesEnd < U64_MAX && proof.storage.Some?
    requires IsRange(proof.storage.value, proof.lane, proof.noncesStart, proof.noncesEnd, read.messages)
    requires proof.noncesStart <= LastDelivered(LaneData(b.lanes, proof.lane)) + 1
    requires HasRoom(limits, Refreshed(LaneData(b.lanes, proof.lane), read.laneState))
    requires var next := LastDelivered(LaneData(b.lanes, proof.lane)) + 1 - proof.noncesStart;
             && (forall k | 0 <= k < |read.messages| && k <= next :: !AnyGt(read.messages[k].data.weight, b.left))
             && (next < |read.messages| ==> read.messages[next].data.outcome.preDispatchOk)
    ensures GeneratedNonces(read.messages)
    ensures var p := LaneProgress(limits, overhead, relayer, b, LaneBatch(proof.lane, read));
            Validate(b.lanes, outbound, ReceiveMessagesProof(proof)) == Accepted
            <==> LastDelivered(p.lane) > LastDelivered(LaneData(b.lanes, proof.lane))
  {
    hide AllProcessed, StateUpdated;
    var d := LaneData(b.lanes, proof.lane);
    RefreshedKeeps(d, read.laneState);
    var start := Progress(Refreshed(d, read.laneState), b.left, b.actual, false, []);
    var next := LastDelivered(d) + 1 - proof.noncesStart;
    if next < |read.messages| {
      NextMessageAdvances(limits, overhead, relayer, start, read.messages, next);
    } else {
      OldMessagesAreIgnored(limits, overhead, relayer, start, read.messages);
    }
  }

  lemma NextMessageAdvances(
    limits: Limits, overhead: Weight, relayer: AccountId, p: Progress, messages: seq<InboundMessage>, next: nat)
    requires LastDelivered(p.lane) < U64_MAX && GeneratedNonces(messages) && !p.stopped
    requires next < |messages| && messages[next].nonce == LastDelivered(p.lane) + 1
    requires forall k | 0 <= k < next :: messages[k].nonce <= LastDelivered(p.lane)
    requires forall k | 0 <= k <= next :: !AnyGt(messages[k].data.weight, p.left)
    requires HasRoom(limits, p.lane) && messages[next].data.outcome.preDispatchOk
    ensures LastDelivered(AllProcessed(limits, overhead, relayer, p, messages).lane) > LastDelivered(p.lane)
  {
    hide AllProcessed;
    OldMessagesAreIgnored(limits, overhead, relayer, p, messages[..next]);
    AllProcessedStep(limits, overhead, relayer, p, messages, next);
    ProcessingNeverMovesBack(limits, overhead, relayer, p, messages, next + 1);
  }

  lemma {:induction false} ProcessingNeverMovesBack(
    limits: Limits, overhead: Weight, relayer: AccountId, p: Progress, messages: seq<InboundMessage>, k: nat)
    requires LastDelivered(p.lane) < U64_MAX && GeneratedNonces(messages) && k <= |messages|
    ensures LastDelivered(AllProcessed(limits, overhead, relayer, p, messages[..k]).lane)
            <= LastDelivered(AllProcessed(limits, overhead, relayer, p, messages).lane)
    decreases |messages| - k
  {
    if k == |messages| {
      assert messages[..k] == messages;
    } else {
      ProcessingNeverMovesBack(limits, overhead, relayer, p, messages, k + 1);
      AllProcessedStep(limits, overhead, relayer, p, messages, k);
      var before := AllProcessed(limits, overhead, relayer, p, messages[..k]);
      ReceivedAdvancesByOne(limits, before.lane, relayer, messages[k].nonce, messages[k].data.outcome);
    }
  }

  /** A confirmation that the filter calls stale would leave the outbound lane as it is, whatever lane data its
      proof holds and whether or not the declaration describes that data. */
  lemma StaleConfirmationChangesNothing(
    inbound: map<LaneId, InboundLaneData>, outbound: map<LaneId, OutboundLaneData>, lane: LaneId,
    laneData: InboundLaneData, declared: UnrewardedRelayersState)
    requires lane in outbound
    requires Validate(inbound, outbound, ReceiveMessagesDeliveryProof(lane, declared)) == Stale
    ensures OutboundLane.AfterDeliveryProof(outbound[lane], laneData, declared) == outbound[lane]
    ensures var result := OutboundLane.DeliveryProofResult(outbound[lane], laneData, declared);
            result.Ok? ==> result.value.None?
  {}

  /** In every run, an honestly declared confirmation passes the filter exactly when it confirms something. */
  lemma FilterIsExactForConfirmations(
    limits: Limits, actions: seq<LaneProtocol.Action>, inbound: map<LaneId, InboundLaneData>, lane: LaneId, t: InboundLaneData)
    requires t in LaneProtocol.Run(limits, actions).targetPast
    ensures var source := LaneProtocol.Run(limits, actions).source.lane;
            var result := OutboundLane.DeliveryProofResult(source, t, LaneProtocol.Honest(t));
            && result.Ok?
            && (Validate(inbound, map[lane := source], ReceiveMessagesDeliveryProof(lane, LaneProtocol.Honest(t))) == Accepted
                <==> result.value.Some?)
  {
    hide LaneProtocol.Run;
    LaneProtocol.RunsNeverRejectHonestProofs(limits, actions);
  }
}
