/** The source-chain end of a lane (modules/messages/src/outbound_lane.rs) and the delivery-proof
    checks in front of it (`receive_messages_delivery_proof`, modules/messages/src/lib.rs). */
module OutboundLane {
  import opened Wrappers
  import opened MessagePrimitives

  type Payload = seq<nat>

  datatype ConfirmationError =
    | FailedToConfirmFutureMessages
    | EmptyUnrewardedRelayerEntry
    | NonConsecutiveUnrewardedRelayerEntries
    | InvalidNumberOfDispatchResults
    | TryingToConfirmMoreMessagesThanExpected(count: Nonce)

  datatype ConfirmationResult =
    | ConfirmedMessages(messages: DeliveredMessages)
    | NoNewConfirmations
    | Rejected(error: ConfirmationError)

  datatype ProofError =
    | InvalidUnrewardedRelayersState
    | TooManyToConfirm
    | InvalidUnrewardedRelayers

  /** The part of an entry's flags that concerns nonces after `prev`. */
  function NewFlags(prev: Nonce, e: UnrewardedRelayer): seq<bool>
    requires ValidEntry(e)
  {
    if e.messages.end <= prev then []
    else e.messages.dispatchResults[Max(e.messages.begin, prev + 1) - e.messages.begin..]
  }

  /** First reason to refuse entry `e` following an entry that ended at `lastEnd`. */
  function EntryError(lastEnd: Option<Nonce>, latest: Nonce, e: UnrewardedRelayer): Option<ConfirmationError> {
    if e.messages.end < e.messages.begin then Some(EmptyUnrewardedRelayerEntry)
    else if lastEnd.Some? && (lastEnd.value == U64_MAX || e.messages.begin != lastEnd.value + 1)
    then Some(NonConsecutiveUnrewardedRelayerEntries)
    else if e.messages.end > latest then Some(FailedToConfirmFutureMessages)
    else if |e.messages.dispatchResults| != e.messages.end - e.messages.begin + 1
    then Some(InvalidNumberOfDispatchResults)
    else None
  }

  /** Dispatch flags of the nonces after `prev`, read from the target chain's entries. */
  function ExtractedResults(prev: Nonce, latest: Nonce, lastEnd: Option<Nonce>, relayers: seq<UnrewardedRelayer>)
    : Result<seq<bool>, ConfirmationError>
    decreases |relayers|
  {
    if relayers == [] then Ok([])
    else
      var e := relayers[0];
      match EntryError(lastEnd, latest, e)
      case Some(error) => Err(error)
      case None =>
        match ExtractedResults(prev, latest, Some(e.messages.end), relayers[1..])
        case Err(error) => Err(error)
        case Ok(rest) => Ok(NewFlags(prev, e) + rest)
  }

  /** The lane's answer to a confirmation. */
  function Confirmation(d: OutboundLaneData, maxAllowed: Nonce, latestDelivered: Nonce, relayers: seq<UnrewardedRelayer>)
    : ConfirmationResult
  {
    if latestDelivered <= d.latestReceived then NoNewConfirmations
    else if latestDelivered > d.latestGenerated then Rejected(FailedToConfirmFutureMessages)
    else if latestDelivered - d.latestReceived > maxAllowed
    then Rejected(TryingToConfirmMoreMessagesThanExpected(latestDelivered - d.latestReceived))
    else
      match ExtractedResults(d.latestReceived, latestDelivered, None, relayers)
      case Err(error) => Rejected(error)
      case Ok(flags) => ConfirmedMessages(DeliveredMessages(d.latestReceived + 1, latestDelivered, flags))
  }

  /** Stored lane data after a confirmation. */
  function Confirmed(d: OutboundLaneData, maxAllowed: Nonce, latestDelivered: Nonce, relayers: seq<UnrewardedRelayer>)
    : OutboundLaneData
  {
    if Confirmation(d, maxAllowed, latestDelivered, relayers).ConfirmedMessages?
    then d.(latestReceived := latestDelivered)
    else d
  }

  /** The relayer declared the inbound lane state that its proof really contains. */
  predicate DeclaredCorrectly(laneData: InboundLaneData, declared: UnrewardedRelayersState) {
    var total := TotalUnrewardedMessages(laneData.relayers);
    && declared.totalMessages == (if total.Some? then total.value else U64_MAX)
    && declared.entries == |laneData.relayers|
    && declared.lastDelivered == LastDelivered(laneData)
  }

  /** Answer of the delivery-proof call: the newly confirmed messages, if there are any. */
  function DeliveryProofResult(d: OutboundLaneData, laneData: InboundLaneData, declared: UnrewardedRelayersState)
    : Result<Option<DeliveredMessages>, ProofError>
  {
    if !DeclaredCorrectly(laneData, declared) then Err(InvalidUnrewardedRelayersState)
    else
      match Confirmation(d, declared.totalMessages, LastDelivered(laneData), laneData.relayers)
      case ConfirmedMessages(messages) => Ok(Some(messages))
      case NoNewConfirmations => Ok(None)
      case Rejected(TryingToConfirmMoreMessagesThanExpected(_)) => Err(TooManyToConfirm)
      case Rejected(_) => Err(InvalidUnrewardedRelayers)
  }

  /** Stored lane data after the delivery-proof call. */
  function AfterDeliveryProof(d: OutboundLaneData, laneData: InboundLaneData, declared: UnrewardedRelayersState)
    : OutboundLaneData
  {
    if DeclaredCorrectly(laneData, declared)
    then Confirmed(d, declared.totalMessages, LastDelivered(laneData), laneData.relayers)
    else d
  }

  /** Number of messages one pruning call removes. */
  function PruneCount(d: OutboundLaneData, limit: Nonce): Nonce {
    Max(0, Min(limit, d.latestReceived + 1 - d.oldestUnpruned))
  }

  // ---------------------------------------------------------------- extraction

  ghost predicate ChainAfter(lastEnd: Option<Nonce>, latest: Nonce, relayers: seq<UnrewardedRelayer>) {
    && ValidChain(relayers)
    && (forall i | 0 <= i < |relayers| :: relayers[i].messages.end <= latest)
    && (lastEnd.Some? && relayers != [] ==> relayers[0].messages.begin == lastEnd.value + 1)
  }

  lemma ChainTail(lastEnd: Option<Nonce>, latest: Nonce, relayers: seq<UnrewardedRelayer>)
    requires relayers != [] && relayers[0].messages.end <= U64_MAX
    ensures ChainAfter(lastEnd, latest, relayers)
            <==> EntryError(lastEnd, latest, relayers[0]).None?
                 && ChainAfter(Some(relayers[0].messages.end), latest, relayers[1..])
  {
    var tail := relayers[1..];
    assert forall i | 0 <= i < |tail| :: tail[i] == relayers[i + 1];
    if ChainAfter(lastEnd, latest, relayers) {
      assert ValidEntry(relayers[0]);
      forall i | 0 <= i < |tail| ensures ValidEntry(tail[i]) && tail[i].messages.end <= latest {
        assert ValidEntry(relayers[i + 1]);
      }
      forall i | 0 < i < |tail| ensures Linked(tail, i) {
        assert Linked(relayers, i + 1);
      }
      if tail != [] { assert Linked(relayers, 1); }
    }
    if EntryError(lastEnd, latest, relayers[0]).None? && ChainAfter(Some(relayers[0].messages.end), latest, tail) {
      forall i | 0 <= i < |relayers| ensures ValidEntry(relayers[i]) && relayers[i].messages.end <= latest {
        if i > 0 { assert ValidEntry(tail[i - 1]); }
      }
      forall i | 0 < i < |relayers| ensures Linked(relayers, i) {
        if i > 1 { assert Linked(tail, i - 1); }
      }
    }
  }

  /** Extraction accepts exactly the chains whose entries are non-empty, adjacent, fully flagged and not in the future. */
  lemma {:induction false} ExtractionAcceptsIff(prev: Nonce, latest: Nonce, lastEnd: Option<Nonce>, relayers: seq<UnrewardedRelayer>)
    ensures ExtractedResults(prev, latest, lastEnd, relayers).Ok? <==> ChainAfter(lastEnd, latest, relayers)
    decreases |relayers|
  {
    if relayers != [] {
      ChainTail(lastEnd, latest, relayers);
      ExtractionAcceptsIff(prev, latest, Some(relayers[0].messages.end), relayers[1..]);
    }
  }

  /** First nonce whose flag extraction reports. */
  function FirstNew(prev: Nonce, relayers: seq<UnrewardedRelayer>): int
    requires relayers != []
  {
    Max(relayers[0].messages.begin, prev + 1)
  }

  /** Extraction of a chain gives one flag for each nonce after `prev`. */
  lemma {:induction false} ExtractedCount(prev: Nonce, latest: Nonce, lastEnd: Option<Nonce>, relayers: seq<UnrewardedRelayer>)
    requires ChainAfter(lastEnd, latest, relayers) && relayers != []
    ensures var result := ExtractedResults(prev, latest, lastEnd, relayers);
            result.Ok? && |result.value| == Max(0, relayers[|relayers| - 1].messages.end + 1 - FirstNew(prev, relayers))
    decreases |relayers|
  {
    hide ExtractedResults, NewFlags, ChainAfter;
    var tail := relayers[1..];
    ExtractionUnfolds(prev, latest, lastEnd, relayers);
    if tail != [] {
      assert tail[|tail| - 1] == relayers[|relayers| - 1];
      ExtractedCount(prev, latest, Some(relayers[0].messages.end), tail);
      TailOffset(prev, latest, lastEnd, relayers);
      FrontEndsFirst(lastEnd, latest, relayers);
    } else {
      NothingToExtract(prev, latest, Some(relayers[0].messages.end));
    }
  }

  lemma NothingToExtract(prev: Nonce, latest: Nonce, lastEnd: Option<Nonce>)
    ensures ExtractedResults(prev, latest, lastEnd, []) == Ok([])
  {}

  lemma FrontEndsFirst(lastEnd: Option<Nonce>, latest: Nonce, relayers: seq<UnrewardedRelayer>)
    requires ChainAfter(lastEnd, latest, relayers) && relayers != []
    ensures relayers[0].messages.end <= relayers[|relayers| - 1].messages.end
  {
    ChainEndsBound(relayers, 0);
  }

  /** Each extracted flag is the flag its own entry recorded. */
  lemma {:induction false} ExtractedFlag(
    prev: Nonce, latest: Nonce, lastEnd: Option<Nonce>, relayers: seq<UnrewardedRelayer>, i: nat, k: nat)
    requires ChainAfter(lastEnd, latest, relayers) && i < |relayers| && k < |relayers[i].messages.dispatchResults|
    requires prev < relayers[i].messages.begin + k
    ensures ExtractedResults(prev, latest, lastEnd, relayers).Ok?
    ensures FlagAt(ExtractedResults(prev, latest, lastEnd, relayers).value,
                   relayers[i].messages.begin + k - FirstNew(prev, relayers), relayers[i].messages.dispatchResults[k])
    decreases |relayers|
  {
    hide ExtractedResults, NewFlags, ChainAfter;
    ExtractionUnfolds(prev, latest, lastEnd, relayers);
    var flags := NewFlags(prev, relayers[0]);
    if i == 0 {
      FrontFlag(prev, relayers[0], k);
      assert ExtractedResults(prev, latest, lastEnd, relayers).value[..|flags|] == flags;
    } else {
      var tail, tailEnd := relayers[1..], Some(relayers[0].messages.end);
      assert tail[i - 1] == relayers[i];
      ExtractedFlag(prev, latest, tailEnd, tail, i - 1, k);
      TailOffset(prev, latest, lastEnd, relayers);
      FlagAtLater(flags, ExtractedResults(prev, latest, tailEnd, tail).value,
                  relayers[i].messages.begin + k - FirstNew(prev, tail), relayers[i].messages.dispatchResults[k]);
    }
  }

  predicate FlagAt(flags: seq<bool>, at: int, flag: bool) {
    0 <= at < |flags| && flags[at] == flag
  }

  lemma FlagAtLater(front: seq<bool>, rest: seq<bool>, at: int, flag: bool)
    requires FlagAt(rest, at, flag)
    ensures FlagAt(front + rest, |front| + at, flag)
  {}

  lemma FrontFlag(prev: Nonce, e: UnrewardedRelayer, k: nat)
    requires ValidEntry(e) && k < |e.messages.dispatchResults| && prev < e.messages.begin + k
    ensures var at := e.messages.begin + k - Max(e.messages.begin, prev + 1);
            FlagAt(NewFlags(prev, e), at, e.messages.dispatchResults[k])
  {}

  /** The first new nonce of the tail comes right after the flags taken from the front entry. */
  lemma TailOffset(prev: Nonce, latest: Nonce, lastEnd: Option<Nonce>, relayers: seq<UnrewardedRelayer>)
    requires ChainAfter(lastEnd, latest, relayers) && |relayers| > 1
    ensures ValidEntry(relayers[0])
    ensures FirstNew(prev, relayers[1..]) == FirstNew(prev, relayers) + |NewFlags(prev, relayers[0])|
  {
    ExtractionUnfolds(prev, latest, lastEnd, relayers);
    assert Linked(relayers, 1);
  }

  lemma ExtractionUnfolds(prev: Nonce, latest: Nonce, lastEnd: Option<Nonce>, relayers: seq<UnrewardedRelayer>)
    requires ChainAfter(lastEnd, latest, relayers) && relayers != []
    ensures var e, tail := relayers[0], relayers[1..];
            && ValidEntry(e) && ChainAfter(Some(e.messages.end), latest, tail)
            && ExtractedResults(prev, latest, Some(e.messages.end), tail).Ok?
            && ExtractedResults(prev, latest, lastEnd, relayers)
               == Ok(NewFlags(prev, e) + ExtractedResults(prev, latest, Some(e.messages.end), tail).value)
            && |NewFlags(prev, e)| == Max(0, e.messages.end + 1 - FirstNew(prev, relayers))
  {
    ChainTail(lastEnd, latest, relayers);
    ExtractionAcceptsIff(prev, latest, lastEnd, relayers);
    assert ValidEntry(relayers[0]);
  }

  // ---------------------------------------------------------------- confirmation of untrusted data

  /** `messages` answers every nonce of its range with the flag of the one entry that covers it. */
  ghost predicate AnswersFrom(messages: DeliveredMessages, relayers: seq<UnrewardedRelayer>)
    requires ValidEntries(relayers)
  {
    && messages.begin <= messages.end
    && |messages.dispatchResults| == messages.end - messages.begin + 1
    && forall i, k | 0 <= i < |relayers| && 0 <= k < |relayers[i].messages.dispatchResults|
                  && messages.begin <= relayers[i].messages.begin + k
         :: AnswersAt(messages, relayers[i], k)
  }

  /** The flag of the `k`-th nonce of entry `e` is the flag `messages` gives for that nonce. */
  ghost predicate AnswersAt(messages: DeliveredMessages, e: UnrewardedRelayer, k: nat)
    requires k < |e.messages.dispatchResults|
  {
    var at := e.messages.begin + k - messages.begin;
    0 <= at < |messages.dispatchResults| && e.messages.dispatchResults[k] == messages.dispatchResults[at]
  }

  /** The entries clipped to `begin..=end` cover each of its nonces exactly once. */
  ghost predicate PartitionsRange(relayers: seq<UnrewardedRelayer>, begin: Nonce, end: Nonce) {
    forall n: Nonce | begin <= n <= end :: CoveredOnce(relayers, n)
  }

  ghost predicate CoveredOnce(relayers: seq<UnrewardedRelayer>, n: Nonce) {
    exists i :: 0 <= i < |relayers| && EntryCovers(relayers[i], n)
                && forall j | 0 <= j < |relayers| && EntryCovers(relayers[j], n) :: j == i
  }

  /** When the delivery-proof call confirms something: everything a caller could check beforehand. */
  ghost predicate Confirmable(d: OutboundLaneData, laneData: InboundLaneData, declared: UnrewardedRelayersState) {
    var rs := laneData.relayers;
    && rs != [] && ValidChain(rs)
    && declared.entries == |rs|
    && declared.totalMessages == rs[|rs| - 1].messages.end - rs[0].messages.begin + 1
    && declared.lastDelivered == rs[|rs| - 1].messages.end
    && rs[0].messages.begin <= d.latestReceived + 1
    && d.latestReceived < rs[|rs| - 1].messages.end <= d.latestGenerated
  }

  /** For a chain of entries, the declaration must state their number, the number of messages they cover and the last
      of these; without entries, nothing and the confirmed nonce. */
  lemma DeclaredCorrectlyIff(laneData: InboundLaneData, declared: UnrewardedRelayersState)
    requires ValidChain(laneData.relayers)
    requires laneData.relayers != [] ==> laneData.relayers[|laneData.relayers| - 1].messages.end < U64_MAX
    ensures var rs := laneData.relayers;
            DeclaredCorrectly(laneData, declared)
            <==> && declared.entries == |rs|
                 && (if rs == [] then declared.totalMessages == 0 && declared.lastDelivered == laneData.lastConfirmed
                     else && declared.totalMessages == rs[|rs| - 1].messages.end - rs[0].messages.begin + 1
                          && declared.lastDelivered == rs[|rs| - 1].messages.end)
  {
    var rs := laneData.relayers;
    if rs != [] {
      ChainEndsBound(rs, 0);
      assert ValidEntry(rs[0]);
    }
  }

  /** The exact success condition of the delivery-proof call on arbitrary lane data. */
  lemma DeliveryProofConfirmsIff(d: OutboundLaneData, laneData: InboundLaneData, declared: UnrewardedRelayersState)
    requires d.latestGenerated < U64_MAX
    ensures var result := DeliveryProofResult(d, laneData, declared);
            result.Ok? && result.value.Some? <==> Confirmable(d, laneData, declared)
  {
    var rs := laneData.relayers;
    var latest := LastDelivered(laneData);
    ExtractionAcceptsIff(d.latestReceived, latest, None, rs);
    if rs != [] && ValidChain(rs) {
      if latest < U64_MAX { DeclaredCorrectlyIff(laneData, declared); }
      assert ValidEntry(rs[0]);
      forall i | 0 <= i < |rs| ensures rs[i].messages.end <= latest && rs[0].messages.begin <= latest {
        ChainEndsBound(rs, i);
        ChainEndsBound(rs, |rs| - 1);
        assert ValidEntry(rs[|rs| - 1]);
      }
      assert rs[0].messages.begin <= rs[|rs| - 1].messages.end;
    }
  }

  /** Whatever lane data a proof carries, a confirmed range is contiguous, has one flag per nonce taken
      from the only entry covering that nonce, and the clipped entries partition it. */
  lemma DeliveryProofIsExact(d: OutboundLaneData, laneData: InboundLaneData, declared: UnrewardedRelayersState)
    returns (messages: DeliveredMessages)
    requires d.latestGenerated < U64_MAX
    requires Confirmable(d, laneData, declared)
    ensures DeliveryProofResult(d, laneData, declared) == Ok(Some(messages))
    ensures messages.begin == d.latestReceived + 1 && messages.end == LastDelivered(laneData)
    ensures AnswersFrom(messages, laneData.relayers)
    ensures PartitionsRange(laneData.relayers, messages.begin, messages.end)
    ensures AfterDeliveryProof(d, laneData, declared) == d.(latestReceived := messages.end)
  {
    DeliveryProofConfirmsIff(d, laneData, declared);
    messages := DeliveryProofResult(d, laneData, declared).value.value;
    FlagsAnswer(d.latestReceived, laneData.relayers, messages);
    forall n: Nonce | messages.begin <= n <= messages.end ensures CoveredOnce(laneData.relayers, n) {
      var i := ChainPartitions(laneData.relayers, n);
      assert EntryCovers(laneData.relayers[i], n);
    }
  }

  lemma FlagsAnswer(prev: Nonce, relayers: seq<UnrewardedRelayer>, messages: DeliveredMessages)
    requires ValidChain(relayers) && relayers != [] && messages.end == relayers[|relayers| - 1].messages.end
    requires relayers[0].messages.begin <= prev + 1 == messages.begin <= messages.end
    requires ExtractedResults(prev, messages.end, None, relayers) == Ok(messages.dispatchResults)
    ensures AnswersFrom(messages, relayers)
  {
    ExtractionAcceptsIff(prev, messages.end, None, relayers);
    ExtractedCount(prev, messages.end, None, relayers);
    forall i, k | 0 <= i < |relayers| && 0 <= k < |relayers[i].messages.dispatchResults|
                  && messages.begin <= relayers[i].messages.begin + k
      ensures AnswersAt(messages, relayers[i], k)
    {
      assert ValidEntry(relayers[i]);
      ExtractedFlag(prev, messages.end, None, relayers, i, k);
    }
  }

  /** The other answers: a wrong declaration is refused as such, old news is accepted without effect, and a confirmation
      of more messages than declared is refused as such. */
  lemma DeliveryProofAnswers(d: OutboundLaneData, laneData: InboundLaneData, declared: UnrewardedRelayersState)
    ensures var result, last := DeliveryProofResult(d, laneData, declared), LastDelivered(laneData);
            && (result == Err(InvalidUnrewardedRelayersState) <==> !DeclaredCorrectly(laneData, declared))
            && (result == Ok(None) <==> DeclaredCorrectly(laneData, declared) && last <= d.latestReceived)
            && (result == Err(TooManyToConfirm)
                <==> && DeclaredCorrectly(laneData, declared) && d.latestReceived < last <= d.latestGenerated
                     && last - d.latestReceived > declared.totalMessages)
  {
    hide ExtractedResults;
    ExtractionErrors(d.latestReceived, LastDelivered(laneData), None, laneData.relayers);
  }

  lemma {:induction false} ExtractionErrors(prev: Nonce, latest: Nonce, lastEnd: Option<Nonce>, relayers: seq<UnrewardedRelayer>)
    ensures ExtractedResults(prev, latest, lastEnd, relayers).Err? ==>
              !ExtractedResults(prev, latest, lastEnd, relayers).error.TryingToConfirmMoreMessagesThanExpected?
    decreases |relayers|
  {
    if relayers != [] {
      ExtractionErrors(prev, latest, Some(relayers[0].messages.end), relayers[1..]);
    }
  }

  /** A confirmation that confirms nothing leaves the lane as it was. */
  lemma UnsuccessfulProofChangesNothing(d: OutboundLaneData, laneData: InboundLaneData, declared: UnrewardedRelayersState)
    requires !(DeliveryProofResult(d, laneData, declared).Ok? && DeliveryProofResult(d, laneData, declared).value.Some?)
    ensures AfterDeliveryProof(d, laneData, declared) == d
  {}

  /** `confirm_delivery` without the checks before it can report fewer flags than nonces. */
  lemma UncheckedConfirmationCanMissFlags() returns (d: OutboundLaneData, relayers: seq<UnrewardedRelayer>)
    ensures var result := Confirmation(d, 3, 3, relayers);
            && result.ConfirmedMessages?
            && result.messages.begin == 1 && result.messages.end == 3
            && |result.messages.dispatchResults| == 1
  {
    d := OutboundLaneData(1, 0, 3);
    var e := UnrewardedRelayer(7, DeliveredMessages(2, 2, [true]));
    relayers := [e];
    assert relayers[1..] == [];
    assert ExtractedResults(0, 3, Some(2), relayers[1..]) == Ok([]);
    assert NewFlags(0, e) == [true];
  }

  /** When `confirm_delivery` on its own reports one flag per confirmed nonce: exactly when the entries reach from no
      later than the first new nonce to the last one. */
  lemma UncheckedConfirmationIsFullIff(d: OutboundLaneData, maxAllowed: Nonce, latestDelivered: Nonce, relayers: seq<UnrewardedRelayer>)
    requires Confirmation(d, maxAllowed, latestDelivered, relayers).ConfirmedMessages?
    ensures var messages := Confirmation(d, maxAllowed, latestDelivered, relayers).messages;
            |messages.dispatchResults| == messages.end - messages.begin + 1
            <==> (&& relayers != [] && relayers[0].messages.begin <= d.latestReceived + 1
                  && relayers[|relayers| - 1].messages.end == latestDelivered)
  {
    ExtractionAcceptsIff(d.latestReceived, latestDelivered, None, relayers);
    if relayers != [] {
      ExtractedCount(d.latestReceived, latestDelivered, None, relayers);
    }
  }

  // ---------------------------------------------------------------- the lane object

  class Lane {
    var data: OutboundLaneData
    var messages: map<Nonce, Payload>

    constructor ()
      ensures data == EMPTY_OUTBOUND && messages == map[]
    {
      data, messages := EMPTY_OUTBOUND, map[];
    }

    method SendMessage(payload: Payload) returns (nonce: Nonce)
      requires data.latestGenerated < U64_MAX
      modifies this
      ensures nonce == old(data.latestGenerated) + 1
      ensures data == old(data).(latestGenerated := nonce)
      ensures messages == old(messages)[nonce := payload]
    {
      nonce := data.latestGenerated + 1;
      messages := messages[nonce := payload];
      data := data.(latestGenerated := nonce);
    }

    method ConfirmDelivery(maxAllowed: Nonce, latestDelivered: Nonce, relayers: seq<UnrewardedRelayer>)
      returns (result: ConfirmationResult)
      requires data.latestGenerated < U64_MAX
      modifies this`data
      ensures result == Confirmation(old(data), maxAllowed, latestDelivered, relayers)
      ensures data == Confirmed(old(data), maxAllowed, latestDelivered, relayers)
    {
      if latestDelivered <= data.latestReceived {
        return NoNewConfirmations;
      }
      if latestDelivered > data.latestGenerated {
        return Rejected(FailedToConfirmFutureMessages);
      }
      var count: Nonce := latestDelivered - data.latestReceived;
      if count > maxAllowed {
        return Rejected(TryingToConfirmMoreMessagesThanExpected(count));
      }
      var extracted := ExtractDispatchResults(data.latestReceived, latestDelivered, relayers);
      match extracted {
        case Err(error) => return Rejected(error);
        case Ok(flags) =>
          var begin: Nonce := data.latestReceived + 1;
          data := data.(latestReceived := latestDelivered);
          return ConfirmedMessages(DeliveredMessages(begin, latestDelivered, flags));
      }
    }

    /** The call in front of `ConfirmDelivery`: check the relayer's declaration, then confirm. */
    method ReceiveDeliveryProof(laneData: InboundLaneData, declared: UnrewardedRelayersState)
      returns (result: Result<Option<DeliveredMessages>, ProofError>)
      requires data.latestGenerated < U64_MAX
      modifies this`data
      ensures result == DeliveryProofResult(old(data), laneData, declared)
      ensures data == AfterDeliveryProof(old(data), laneData, declared)
    {
      var total := TotalUnrewardedMessages(laneData.relayers);
      var actual: Nonce := if total.Some? then total.value else U64_MAX;
      if actual != declared.totalMessages || |laneData.relayers| != declared.entries {
        return Err(InvalidUnrewardedRelayersState);
      }
      if LastDelivered(laneData) != declared.lastDelivered {
        return Err(InvalidUnrewardedRelayersState);
      }
      var confirmation := ConfirmDelivery(declared.totalMessages, LastDelivered(laneData), laneData.relayers);
      match confirmation {
        case ConfirmedMessages(confirmed) => return Ok(Some(confirmed));
        case NoNewConfirmations => return Ok(None);
        case Rejected(TryingToConfirmMoreMessagesThanExpected(_)) => return Err(TooManyToConfirm);
        case Rejected(_) => return Err(InvalidUnrewardedRelayers);
      }
    }

    /** Removes a prefix of the received messages, oldest first, and nothing else: as many as the limit allows, or all. */
    method PruneMessages(limit: Nonce) returns (pruned: Nonce)
      requires data.latestReceived < U64_MAX
      modifies this
      ensures pruned == PruneCount(old(data), limit)
      ensures data == old(data).(oldestUnpruned := old(data).oldestUnpruned + pruned)
      ensures messages == map n | n in old(messages) && !(old(data).oldestUnpruned <= n < data.oldestUnpruned)
                            :: old(messages)[n]
      ensures pruned <= limit
      ensures pruned == limit || forall n | n in messages && old(data).oldestUnpruned <= n :: data.latestReceived < n
      ensures forall n | n in old(messages) && data.latestReceived < n :: n in messages
    {
      pruned := 0;
      var oldest := data.oldestUnpruned;
      while pruned < limit && oldest <= data.latestReceived
        invariant 0 <= pruned <= limit && oldest == old(data).oldestUnpruned + pruned
        invariant pruned > 0 ==> oldest <= data.latestReceived + 1
        invariant data == old(data)
        invariant messages == map n | n in old(messages) && !(old(data).oldestUnpruned <= n < oldest) :: old(messages)[n]
        decreases limit - pruned
      {
        messages := map n | n in messages && n != oldest :: messages[n];
        pruned := pruned + 1;
        oldest := oldest + 1;
      }
      if pruned > 0 {
        data := data.(oldestUnpruned := oldest);
      }
    }
  }

  /** Extraction of the entries before `k` gave `flags` and stopped at `lastEnd`; what is left decides the result. */
  ghost predicate Extracting(
    prev: Nonce, latest: Nonce, relayers: seq<UnrewardedRelayer>, k: nat, lastEnd: Option<Nonce>, flags: seq<bool>)
    requires k <= |relayers|
  {
    ExtractedResults(prev, latest, None, relayers)
    == match ExtractedResults(prev, latest, lastEnd, relayers[k..])
       case Err(error) => Err(error)
       case Ok(rest) => Ok(flags + rest)
  }

  lemma ExtractionStarts(prev: Nonce, latest: Nonce, relayers: seq<UnrewardedRelayer>)
    ensures Extracting(prev, latest, relayers, 0, None, [])
  {
    var whole := ExtractedResults(prev, latest, None, relayers);
    assert relayers[0..] == relayers;
    if whole.Ok? { assert [] + whole.value == whole.value; }
  }

  /** One turn of the extraction loop: the first bad entry decides, a good one adds its new flags. */
  lemma ExtractionStep(
    prev: Nonce, latest: Nonce, relayers: seq<UnrewardedRelayer>, k: nat, lastEnd: Option<Nonce>, flags: seq<bool>)
    requires k < |relayers| && Extracting(prev, latest, relayers, k, lastEnd, flags)
    ensures match EntryError(lastEnd, latest, relayers[k])
            case Some(error) => ExtractedResults(prev, latest, None, relayers) == Err(error)
            case None => Extracting(prev, latest, relayers, k + 1, Some(relayers[k].messages.end),
                                    flags + NewFlags(prev, relayers[k]))
  {
    assert relayers[k..][0] == relayers[k] && relayers[k..][1..] == relayers[k + 1..];
    if EntryError(lastEnd, latest, relayers[k]).None? {
      var rest := ExtractedResults(prev, latest, Some(relayers[k].messages.end), relayers[k + 1..]);
      if rest.Ok? {
        assert flags + (NewFlags(prev, relayers[k]) + rest.value) == (flags + NewFlags(prev, relayers[k])) + rest.value;
      }
    }
  }

  lemma ExtractionEnds(prev: Nonce, latest: Nonce, relayers: seq<UnrewardedRelayer>, lastEnd: Option<Nonce>, flags: seq<bool>)
    requires Extracting(prev, latest, relayers, |relayers|, lastEnd, flags)
    ensures ExtractedResults(prev, latest, None, relayers) == Ok(flags)
  {
    assert relayers[|relayers|..] == [] && flags + [] == flags;
  }

  method ExtractDispatchResults(prev: Nonce, latest: Nonce, relayers: seq<UnrewardedRelayer>)
    returns (result: Result<seq<bool>, ConfirmationError>)
    requires prev < latest < U64_MAX
    ensures result == ExtractedResults(prev, latest, None, relayers)
  {
    hide ExtractedResults, Extracting;
    var flags: seq<bool> := [];
    var lastEnd: Option<Nonce> := None;
    ExtractionStarts(prev, latest, relayers);
    for k := 0 to |relayers|
      invariant Extracting(prev, latest, relayers, k, lastEnd, flags)
    {
      var m := relayers[k].messages;
      ExtractionStep(prev, latest, relayers, k, lastEnd, flags);
      if m.end < m.begin {
        return Err(EmptyUnrewardedRelayerEntry);
      }
      if lastEnd.Some? {
        if lastEnd.value == U64_MAX || lastEnd.value + 1 != m.begin {
          return Err(NonConsecutiveUnrewardedRelayerEntries);
        }
      }
      lastEnd := Some(m.end);
      if m.end > latest {
        return Err(FailedToConfirmFutureMessages);
      }
      var length: Nonce := m.end - m.begin + 1;
      if |m.dispatchResults| != length {
        return Err(InvalidNumberOfDispatchResults);
      }
      var newBegin: Nonce := Max(m.begin, prev + 1);
      var newEnd: Nonce := Min(m.end, latest);
      if newBegin <= newEnd {
        flags := flags + m.dispatchResults[newBegin - m.begin..];
      } else {
        assert flags + NewFlags(prev, relayers[k]) == flags;
      }
    }
    ExtractionEnds(prev, latest, relayers, lastEnd, flags);
    result := Ok(flags);
  }
}
