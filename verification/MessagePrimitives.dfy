/** Data kept by the two ends of a message lane (primitives/messages/src/lib.rs). */
module MessagePrimitives {
  import opened Wrappers

  type AccountId = nat
  type LaneId = nat

  /** A 64-bit nonce. Assigning to this type proves that the arithmetic did not wrap. */
  type Nonce = n: int | 0 <= n <= U64_MAX

  /** A contiguous inclusive range of nonces with one dispatch flag per nonce. */
  datatype DeliveredMessages = DeliveredMessages(begin: Nonce, end: Nonce, dispatchResults: seq<bool>)

  datatype UnrewardedRelayer = UnrewardedRelayer(relayer: AccountId, messages: DeliveredMessages)

  datatype InboundLaneData = InboundLaneData(relayers: seq<UnrewardedRelayer>, lastConfirmed: Nonce)

  datatype OutboundLaneData = OutboundLaneData(oldestUnpruned: Nonce, latestReceived: Nonce, latestGenerated: Nonce)

  /** What the relayer declares about an inbound lane when it submits a delivery confirmation. */
  datatype UnrewardedRelayersState = UnrewardedRelayersState(
    entries: nat, totalMessages: Nonce, lastDelivered: Nonce)

  const EMPTY_INBOUND: InboundLaneData := InboundLaneData([], 0)
  const EMPTY_OUTBOUND: OutboundLaneData := OutboundLaneData(1, 0, 0)

  /** Nonce of the last message that reached the target chain. */
  function LastDelivered(d: InboundLaneData): Nonce {
    if d.relayers == [] then d.lastConfirmed else d.relayers[|d.relayers| - 1].messages.end
  }

  /** Number of messages between the ends of the relayers vector; `None` when it does not fit 64 bits. */
  function TotalUnrewardedMessages(relayers: seq<UnrewardedRelayer>): Option<Nonce> {
    if relayers == [] then Some(0)
    else
      var front, back := relayers[0].messages.begin, relayers[|relayers| - 1].messages.end;
      if back < front then Some(0)
      else if back - front == U64_MAX then None
      else Some(back - front + 1)
  }

  predicate ValidEntry(e: UnrewardedRelayer) {
    e.messages.begin <= e.messages.end
    && |e.messages.dispatchResults| == e.messages.end - e.messages.begin + 1
  }

  predicate ValidEntries(relayers: seq<UnrewardedRelayer>) {
    forall i | 0 <= i < |relayers| :: ValidEntry(relayers[i])
  }

  /** Entry `i` starts right after the entry before it ends. */
  predicate Linked(relayers: seq<UnrewardedRelayer>, i: nat)
    requires 0 < i < |relayers|
  {
    relayers[i].messages.begin == relayers[i - 1].messages.end + 1
  }

  /** Entry `i` and the entry before it belong to different relayers. */
  predicate Alternates(relayers: seq<UnrewardedRelayer>, i: nat)
    requires 0 < i < |relayers|
  {
    relayers[i].relayer != relayers[i - 1].relayer
  }

  predicate Consecutive(relayers: seq<UnrewardedRelayer>) {
    forall i | 0 < i < |relayers| :: Linked(relayers, i)
  }

  predicate DistinctNeighbours(relayers: seq<UnrewardedRelayer>) {
    forall i | 0 < i < |relayers| :: Alternates(relayers, i)
  }

  /** A non-empty, gap-free and overlap-free chain of entries, one dispatch flag per nonce. */
  predicate ValidChain(relayers: seq<UnrewardedRelayer>) {
    ValidEntries(relayers) && Consecutive(relayers)
  }

  predicate EntryCovers(e: UnrewardedRelayer, n: Nonce) {
    e.messages.begin <= n <= e.messages.end
  }

  /** In a chain, later entries hold only larger nonces. */
  lemma {:induction false} ChainIsOrdered(relayers: seq<UnrewardedRelayer>, i: nat, j: nat)
    requires ValidChain(relayers) && i < j < |relayers|
    ensures relayers[i].messages.end < relayers[j].messages.begin
    decreases j
  {
    assert Linked(relayers, j);
    if i < j - 1 {
      ChainIsOrdered(relayers, i, j - 1);
      assert ValidEntry(relayers[j - 1]);
    }
  }

  /** The ends of a chain bound all of its entries. */
  lemma ChainEndsBound(relayers: seq<UnrewardedRelayer>, i: nat)
    requires ValidChain(relayers) && i < |relayers|
    ensures relayers[i].messages.end <= relayers[|relayers| - 1].messages.end
    ensures relayers[0].messages.begin <= relayers[i].messages.begin
  {
    if i < |relayers| - 1 {
      ChainIsOrdered(relayers, i, |relayers| - 1);
      assert ValidEntry(relayers[|relayers| - 1]);
    }
    if 0 < i {
      ChainIsOrdered(relayers, 0, i);
      assert ValidEntry(relayers[0]);
    }
  }

  /** Exactly one entry of a chain covers each nonce between its ends. */
  lemma {:induction false} ChainPartitions(relayers: seq<UnrewardedRelayer>, n: Nonce) returns (i: nat)
    requires ValidChain(relayers) && relayers != []
    requires relayers[0].messages.begin <= n <= relayers[|relayers| - 1].messages.end
    ensures i < |relayers| && EntryCovers(relayers[i], n)
    ensures forall j | 0 <= j < |relayers| && EntryCovers(relayers[j], n) :: j == i
  {
    i := 0;
    while relayers[i].messages.end < n
      invariant i < |relayers| && relayers[i].messages.begin <= n
      decreases |relayers| - i
    {
      assert Linked(relayers, i + 1);
      i := i + 1;
    }
    forall j | 0 <= j < |relayers| && EntryCovers(relayers[j], n) ensures j == i {
      if j < i {
        ChainIsOrdered(relayers, j, i);
      } else if i < j {
        ChainIsOrdered(relayers, i, j);
      }
    }
  }
}
