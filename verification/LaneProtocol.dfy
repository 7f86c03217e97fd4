/** Both ends of a lane as one asynchronous system. A proof is any earlier state of the other chain,
    so proofs may be stale, reordered and repeated by competing relayers. */
module LaneProtocol {
  import opened Wrappers
  import opened MessagePrimitives
  import opened InboundLane
  import opened OutboundLane

  datatype SourceChain = SourceChain(lane: OutboundLaneData, messages: map<Nonce, Payload>)

  /** One dispatched message, as the target chain saw it. */
  datatype Delivery = Delivery(nonce: Nonce, payload: Payload, relayer: AccountId, flag: bool)

  /** The two chains, with the histories that the claims are about: payloads in sending order,
      dispatches in dispatch order, flags in the order the source learned them, and all past states. */
  datatype World = World(
    source: SourceChain,
    target: InboundLaneData,
    sent: seq<Payload>,
    log: seq<Delivery>,
    learned: seq<bool>,
    sourcePast: set<SourceChain>,
    targetPast: set<InboundLaneData>)

  datatype Action =
    | Send(payload: Payload)
    | Prune(limit: Nonce)
    | Update(source: SourceChain)
    | Deliver(from: SourceChain, relayer: AccountId, nonce: Nonce, outcome: DispatchOutcome)
    | Confirm(target: InboundLaneData, declared: UnrewardedRelayersState)

  const GENESIS: World :=
    World(SourceChain(EMPTY_OUTBOUND, map[]), EMPTY_INBOUND, [], [], [],
          {SourceChain(EMPTY_OUTBOUND, map[])}, {EMPTY_INBOUND})

  /** A proof must show some past state of the other chain; a message proof must contain the message. */
  predicate Enabled(w: World, a: Action) {
    match a
    case Send(_) => w.source.lane.latestGenerated + 1 < U64_MAX
    case Prune(_) => true
    case Update(s) => s in w.sourcePast
    case Deliver(s, _, nonce, _) => s in w.sourcePast && nonce in s.messages
    case Confirm(t, _) => t in w.targetPast
  }

  function WithSource(w: World, source: SourceChain): World {
    w.(source := source, sourcePast := w.sourcePast + {source})
  }

  function WithTarget(w: World, target: InboundLaneData): World {
    w.(target := target, targetPast := w.targetPast + {target})
  }

  function Pruned(s: SourceChain, limit: Nonce): SourceChain
    requires s.lane.latestReceived < U64_MAX
  {
    var oldest: Nonce := s.lane.oldestUnpruned + PruneCount(s.lane, limit);
    SourceChain(s.lane.(oldestUnpruned := oldest),
                map n | n in s.messages && !(s.lane.oldestUnpruned <= n < oldest) :: s.messages[n])
  }

  ghost function Step(limits: Limits, w: World, a: Action): World
    requires Inv(limits, w) && Enabled(w, a)
  {
    match a
    case Send(payload) =>
      var nonce: Nonce := w.source.lane.latestGenerated + 1;
      WithSource(w, SourceChain(w.source.lane.(latestGenerated := nonce), w.source.messages[nonce := payload]))
        .(sent := w.sent + [payload])
    case Prune(limit) =>
      WithSource(w, Pruned(w.source, limit))
    case Update(s) =>
      WithTarget(w, StateUpdated(w.target, s.lane.latestReceived))
    case Deliver(s, relayer, nonce, outcome) =>
      var next := WithTarget(w, Received(limits, w.target, relayer, nonce, outcome));
      if Receival(limits, w.target, nonce, outcome).Dispatched?
      then next.(log := w.log + [Delivery(nonce, s.messages[nonce], relayer, outcome.flag)])
      else next
    case Confirm(t, declared) =>
      var result := DeliveryProofResult(w.source.lane, t, declared);
      var next := WithSource(w, w.source.(lane := AfterDeliveryProof(w.source.lane, t, declared)));
      if result.Ok? && result.value.Some?
      then next.(learned := w.learned + result.value.value.dispatchResults)
      else next
  }

  /** A transaction that is not enabled is rejected and changes nothing. */
  ghost function Attempt(limits: Limits, w: World, a: Action): (next: World)
    requires Inv(limits, w)
    ensures Inv(limits, next)
  {
    if Enabled(w, a) then StepKeepsInv(limits, w, a); Step(limits, w, a) else w
  }

  /** The state after any sequence of attempted transactions; every reachable state satisfies `Inv`. */
  ghost function Run(limits: Limits, actions: seq<Action>): (w: World)
    ensures Inv(limits, w)
  {
    if actions == [] then
      GENESIS
    else
      Attempt(limits, Run(limits, actions[..|actions| - 1]), actions[|actions| - 1])
  }

  // ---------------------------------------------------------------- the invariant

  /** Flags of the first `n` dispatches. */
  ghost function Flags(log: seq<Delivery>): (flags: seq<bool>)
    ensures |flags| == |log| && forall i | 0 <= i < |log| :: flags[i] == log[i].flag
  {
    seq(|log|, i requires 0 <= i < |log| => log[i].flag)
  }

  ghost predicate EntryMatches(e: UnrewardedRelayer, log: seq<Delivery>) {
    && 1 <= e.messages.begin
    && e.messages.end <= |log|
    && ValidEntry(e)
    && forall k | 0 <= k < |e.messages.dispatchResults| :: LoggedAt(e, log, k)
  }

  /** The log agrees with entry `e` about the relayer and the flag of the entry's `k`-th nonce. */
  ghost predicate LoggedAt(e: UnrewardedRelayer, log: seq<Delivery>, k: nat)
    requires k < |e.messages.dispatchResults|
  {
    var at := e.messages.begin - 1 + k;
    && 0 <= at < |log|
    && log[at].relayer == e.relayer
    && log[at].flag == e.messages.dispatchResults[k]
  }

  /** Every entry says who really delivered its nonces and how their dispatch really went. */
  ghost predicate EntriesMatch(relayers: seq<UnrewardedRelayer>, log: seq<Delivery>) {
    forall i | 0 <= i < |relayers| :: EntryMatches(relayers[i], log)
  }

  ghost predicate SentAt(sent: seq<Payload>, n: Nonce, payload: Payload) {
    1 <= n <= |sent| && sent[n - 1] == payload
  }

  ghost predicate SourceInv(w: World) {
    var lane := w.source.lane;
    && lane.latestReceived <= lane.latestGenerated < U64_MAX
    && |w.sent| == lane.latestGenerated
    && 1 <= lane.oldestUnpruned <= lane.latestReceived + 1
    && (forall n: Nonce :: n in w.source.messages <==> lane.oldestUnpruned <= n <= lane.latestGenerated)
    && |w.learned| == lane.latestReceived
    && w.learned <= Flags(w.log)
  }

  /** The dispatch log is exactly the first payloads sent, in order, each once. */
  ghost predicate LogInv(w: World) {
    && |w.log| <= |w.sent|
    && forall k | 0 <= k < |w.log| :: w.log[k].nonce == k + 1 && w.log[k].payload == w.sent[k]
  }

  ghost predicate TargetInv(limits: Limits, w: World) {
    && ValidLane(w.target)
    && WithinLimits(limits, w.target)
    && LastDelivered(w.target) == |w.log|
  }

  ghost predicate SourcePastInv(w: World, s: SourceChain) {
    && s.lane.latestReceived <= w.source.lane.latestReceived
    && forall n | n in s.messages :: SentAt(w.sent, n, s.messages[n])
  }

  ghost predicate TargetPastInv(w: World, t: InboundLaneData) {
    && ValidLane(t)
    && LastDelivered(t) <= |w.log|
    && t.lastConfirmed <= w.source.lane.latestReceived
    && EntriesMatch(t.relayers, w.log)
  }

  ghost predicate Inv(limits: Limits, w: World) {
    && w.target.lastConfirmed <= w.source.lane.latestReceived <= |w.log|
    && LogInv(w)
    && SourceInv(w)
    && TargetInv(limits, w)
    && w.source in w.sourcePast
    && w.target in w.targetPast
    && (forall s | s in w.sourcePast :: SourcePastInv(w, s))
    && (forall t | t in w.targetPast :: TargetPastInv(w, t))
  }

  // ---------------------------------------------------------------- preservation

  lemma StepKeepsInv(limits: Limits, w: World, a: Action)
    requires Inv(limits, w) && Enabled(w, a)
    ensures Inv(limits, Step(limits, w, a))
  {
    match a {
      case Send(payload) => SendKeepsInv(limits, w, payload);
      case Prune(limit) => PruneKeepsInv(limits, w, limit);
      case Update(s) => UpdateKeepsInv(limits, w, s);
      case Deliver(s, relayer, nonce, outcome) => DeliverKeepsInv(limits, w, s, relayer, nonce, outcome);
      case Confirm(t, declared) => ConfirmKeepsInv(limits, w, t, declared);
    }
  }

  lemma SendKeepsInv(limits: Limits, w: World, payload: Payload)
    requires Inv(limits, w) && Enabled(w, Send(payload))
    ensures Inv(limits, Step(limits, w, Send(payload)))
  {
    var next := Step(limits, w, Send(payload));
    forall s | s in next.sourcePast ensures SourcePastInv(next, s) {
      if s in w.sourcePast {
        assert SourcePastInv(w, s);
        forall n | n in s.messages ensures SentAt(next.sent, n, s.messages[n]) {
          assert SentAt(w.sent, n, s.messages[n]);
        }
      } else {
        assert SourcePastInv(w, w.source);
        forall n | n in s.messages ensures SentAt(next.sent, n, s.messages[n]) {
          if n in w.source.messages { assert SentAt(w.sent, n, w.source.messages[n]); }
        }
      }
    }
    forall t | t in next.targetPast ensures TargetPastInv(next, t) {
      assert TargetPastInv(w, t);
    }
  }

  lemma PruneKeepsInv(limits: Limits, w: World, limit: Nonce)
    requires Inv(limits, w)
    ensures Inv(limits, Step(limits, w, Prune(limit)))
  {
    var next := Step(limits, w, Prune(limit));
    forall s | s in next.sourcePast ensures SourcePastInv(next, s) {
      assert SourcePastInv(w, if s in w.sourcePast then s else w.source);
      forall n | n in s.messages ensures SentAt(next.sent, n, s.messages[n]) {
        assert SentAt(w.sent, n, s.messages[n]);
      }
    }
    forall t | t in next.targetPast ensures TargetPastInv(next, t) {
      assert TargetPastInv(w, t);
    }
  }

  /** Trimming keeps what the remaining flags say. */
  lemma UpdateKeepsMatches(d: InboundLaneData, confirmed: Nonce, log: seq<Delivery>)
    requires ValidLane(d) && EntriesMatch(d.relayers, log)
    ensures EntriesMatch(StateUpdated(d, confirmed).relayers, log)
  {
    if UpdateApplies(d, confirmed) {
      DroppedIsSuffix(d.relayers, confirmed);
      var kept := DropConfirmed(d.relayers, confirmed);
      var after := StateUpdated(d, confirmed).relayers;
      forall i | 0 <= i < |after| ensures EntryMatches(after[i], log) {
        assert kept[i] == d.relayers[|d.relayers| - |kept| + i];
        assert EntryMatches(kept[i], log);
        if i == 0 && kept[0].messages.begin < confirmed {
          TrimKeepsMatch(kept[0], confirmed, log);
        }
      }
    }
  }

  lemma TrimKeepsMatch(e: UnrewardedRelayer, confirmed: Nonce, log: seq<Delivery>)
    requires EntryMatches(e, log) && e.messages.begin <= confirmed < e.messages.end
    ensures EntryMatches(TrimEntry(e, confirmed), log)
  {
    var cut := confirmed + 1 - e.messages.begin;
    var r := TrimEntry(e, confirmed);
    forall k | 0 <= k < |r.messages.dispatchResults| ensures LoggedAt(r, log, k) {
      assert LoggedAt(e, log, cut + k);
    }
  }

  lemma UpdateKeepsInv(limits: Limits, w: World, s: SourceChain)
    requires Inv(limits, w) && s in w.sourcePast
    ensures Inv(limits, Step(limits, w, Update(s)))
  {
    var confirmed := s.lane.latestReceived;
    var next := Step(limits, w, Update(s));
    assert SourcePastInv(w, s) && TargetPastInv(w, w.target);
    StateUpdateKeepsValid(w.target, confirmed);
    StateUpdateKeepsLimits(limits, w.target, confirmed);
    StateUpdateKeepsLastDelivered(w.target, confirmed);
    UpdateKeepsMatches(w.target, confirmed, w.log);
    forall t | t in next.targetPast ensures TargetPastInv(next, t) {
      if t in w.targetPast { assert TargetPastInv(w, t); }
    }
    forall t | t in next.sourcePast ensures SourcePastInv(next, t) {
      assert SourcePastInv(w, t);
    }
  }

  /** A longer log says the same about old entries. */
  lemma MatchesLongerLog(relayers: seq<UnrewardedRelayer>, log: seq<Delivery>, d: Delivery)
    requires EntriesMatch(relayers, log)
    ensures EntriesMatch(relayers, log + [d])
  {
    forall i | 0 <= i < |relayers| ensures EntryMatches(relayers[i], log + [d]) {
      var e := relayers[i];
      assert EntryMatches(e, log);
      forall k | 0 <= k < |e.messages.dispatchResults| ensures LoggedAt(e, log + [d], k) {
        assert LoggedAt(e, log, k);
      }
    }
  }

  lemma AppendedMatches(relayers: seq<UnrewardedRelayer>, log: seq<Delivery>, d: Delivery)
    requires EntriesMatch(relayers, log) && d.nonce == |log| + 1
    requires relayers != [] ==> relayers[|relayers| - 1].messages.end == |log| < U64_MAX
    ensures EntriesMatch(Appended(relayers, d.relayer, d.nonce, d.flag), log + [d])
  {
    MatchesLongerLog(relayers, log, d);
    var after := Appended(relayers, d.relayer, d.nonce, d.flag);
    forall i | 0 <= i < |after| ensures EntryMatches(after[i], log + [d]) {
      if i < |relayers| {
        assert EntryMatches(relayers[i], log + [d]) && EntryMatches(relayers[i], log);
      }
      forall k | 0 <= k < |after[i].messages.dispatchResults| ensures LoggedAt(after[i], log + [d], k) {
        if i < |relayers| && k < |relayers[i].messages.dispatchResults| { assert LoggedAt(relayers[i], log + [d], k); }
      }
    }
  }

  lemma DeliverKeepsInv(
    limits: Limits, w: World, s: SourceChain, relayer: AccountId, nonce: Nonce, outcome: DispatchOutcome)
    requires Inv(limits, w) && Enabled(w, Deliver(s, relayer, nonce, outcome))
    ensures Inv(limits, Step(limits, w, Deliver(s, relayer, nonce, outcome)))
  {
    var next := Step(limits, w, Deliver(s, relayer, nonce, outcome));
    assert SourcePastInv(w, s) && TargetPastInv(w, w.target);
    assert SentAt(w.sent, nonce, s.messages[nonce]);
    ReceivedKeepsValid(limits, w.target, relayer, nonce, outcome);
    ReceivedKeepsLimits(limits, w.target, relayer, nonce, outcome);
    ReceivedAdvancesByOne(limits, w.target, relayer, nonce, outcome);
    if Receival(limits, w.target, nonce, outcome).Dispatched? {
      var d := Delivery(nonce, s.messages[nonce], relayer, outcome.flag);
      AppendedMatches(w.target.relayers, w.log, d);
      forall t | t in next.targetPast ensures TargetPastInv(next, t) {
        if t in w.targetPast {
          assert TargetPastInv(w, t);
          MatchesLongerLog(t.relayers, w.log, d);
        }
      }
      assert Flags(w.log) <= Flags(next.log);
    } else {
      forall t | t in next.targetPast ensures TargetPastInv(next, t) {
        assert TargetPastInv(w, t);
      }
    }
    forall t | t in next.sourcePast ensures SourcePastInv(next, t) {
      assert SourcePastInv(w, t);
    }
  }

  /** Whatever a confirmed range reports is what the target chain logged for exactly those nonces. */
  lemma ConfirmedFlagsAreLogged(w: World, t: InboundLaneData, messages: DeliveredMessages)
    requires TargetPastInv(w, t) && t.relayers != [] && ValidChain(t.relayers)
    requires messages.begin >= 1 && messages.end == LastDelivered(t) <= |w.log|
    requires t.relayers[0].messages.begin <= messages.begin
    requires AnswersFrom(messages, t.relayers)
    ensures messages.dispatchResults == Flags(w.log)[messages.begin - 1..messages.end]
  {
    var expected := Flags(w.log)[messages.begin - 1..messages.end];
    forall j | 0 <= j < |messages.dispatchResults| ensures messages.dispatchResults[j] == expected[j] {
      var i := ChainPartitions(t.relayers, messages.begin + j);
      var e := t.relayers[i];
      assert EntryMatches(e, w.log);
      var k := messages.begin + j - e.messages.begin;
      assert AnswersAt(messages, e, k);
      assert LoggedAt(e, w.log, k);
    }
  }

  lemma ConfirmKeepsInv(limits: Limits, w: World, t: InboundLaneData, declared: UnrewardedRelayersState)
    requires Inv(limits, w) && t in w.targetPast
    ensures Inv(limits, Step(limits, w, Confirm(t, declared)))
  {
    var next := Step(limits, w, Confirm(t, declared));
    var lane := w.source.lane;
    assert TargetPastInv(w, t);
    DeliveryProofConfirmsIff(lane, t, declared);
    if Confirmable(lane, t, declared) {
      var messages := DeliveryProofIsExact(lane, t, declared);
      ConfirmedFlagsAreLogged(w, t, messages);
      assert next.learned == Flags(w.log)[..messages.end];
    } else {
      UnsuccessfulProofChangesNothing(lane, t, declared);
    }
    forall s | s in next.sourcePast ensures SourcePastInv(next, s) {
      assert SourcePastInv(w, if s in w.sourcePast then s else w.source);
      forall n | n in s.messages ensures SentAt(next.sent, n, s.messages[n]) {
        assert SentAt(w.sent, n, s.messages[n]);
      }
    }
    forall u | u in next.targetPast ensures TargetPastInv(next, u) {
      assert TargetPastInv(w, u);
    }
  }

  // ---------------------------------------------------------------- claims about all runs

  /** Nonces never overtake each other, and the target dispatches the sent payloads in order, each once. */
  lemma RunsDeliverInOrderOnce(limits: Limits, actions: seq<Action>)
    ensures var w := Run(limits, actions);
            && w.target.lastConfirmed <= w.source.lane.latestReceived
            && w.source.lane.latestReceived <= LastDelivered(w.target) <= w.source.lane.latestGenerated
            && |w.log| == LastDelivered(w.target) <= |w.sent|
            && forall k | 0 <= k < |w.log| :: w.log[k].nonce == k + 1 && w.log[k].payload == w.sent[k]
  {
    hide Run;
    var w := Run(limits, actions);
    assert Inv(limits, w);
  }

  function Honest(t: InboundLaneData): UnrewardedRelayersState {
    var total := TotalUnrewardedMessages(t.relayers);
    UnrewardedRelayersState(|t.relayers|, if total.Some? then total.value else U64_MAX, LastDelivered(t))
  }

  /** No honestly declared snapshot of the target is ever refused, however stale: it confirms the nonces the
      source has not seen, or nothing when there are none. No snapshot of the source claims more receipts than
      the target has deliveries. */
  lemma RunsNeverRejectHonestProofs(limits: Limits, actions: seq<Action>)
    ensures var w := Run(limits, actions);
            && (forall t | t in w.targetPast ::
                  DeliveryProofResult(w.source.lane, t, Honest(t)).Ok?
                  && (DeliveryProofResult(w.source.lane, t, Honest(t)).value.Some?
                      <==> w.source.lane.latestReceived < LastDelivered(t)))
            && (forall s | s in w.sourcePast :: s.lane.latestReceived <= LastDelivered(w.target))
  {
    hide Run;
    var w := Run(limits, actions);
    assert Inv(limits, w);
    forall t | t in w.targetPast
      ensures DeliveryProofResult(w.source.lane, t, Honest(t)).Ok?
      ensures DeliveryProofResult(w.source.lane, t, Honest(t)).value.Some? <==> w.source.lane.latestReceived < LastDelivered(t)
    {
      assert TargetPastInv(w, t);
      DeliveryProofConfirmsIff(w.source.lane, t, Honest(t));
    }
    forall s | s in w.sourcePast ensures s.lane.latestReceived <= LastDelivered(w.target) {
      assert SourcePastInv(w, s);
    }
  }

  /** The flags the source has learned are the flags of the first dispatches, none twice and none missing. */
  lemma RunsLearnEveryFlagOnce(limits: Limits, actions: seq<Action>)
    ensures var w := Run(limits, actions);
            && |w.learned| == w.source.lane.latestReceived <= |w.log|
            && forall k | 0 <= k < |w.learned| :: w.learned[k] == w.log[k].flag
  {
    hide Run;
    var w := Run(limits, actions);
    assert Inv(limits, w);
  }

  /** A confirmation with the target's present state teaches the source everything delivered so far. */
  lemma ConfirmCatchesUp(limits: Limits, w: World)
    requires Inv(limits, w)
    ensures var next := Attempt(limits, w, Confirm(w.target, Honest(w.target)));
            && next.source == w.source.(lane := w.source.lane.(latestReceived := LastDelivered(w.target)))
            && next.target == w.target && next.log == w.log && next.sent == w.sent
            && next.targetPast == w.targetPast
  {
    assert TargetPastInv(w, w.target);
    DeliveryProofConfirmsIff(w.source.lane, w.target, Honest(w.target));
    if Confirmable(w.source.lane, w.target, Honest(w.target)) {
      var _ := DeliveryProofIsExact(w.source.lane, w.target, Honest(w.target));
    } else {
      UnsuccessfulProofChangesNothing(w.source.lane, w.target, Honest(w.target));
    }
  }

  /** An update that confirms everything delivered empties the lane. */
  lemma FullUpdateEmpties(d: InboundLaneData)
    requires ValidLane(d)
    ensures StateUpdated(d, LastDelivered(d)) == InboundLaneData([], LastDelivered(d))
  {
    DroppedIsSuffix(d.relayers, LastDelivered(d));
    if d.relayers != [] {
      ChainEndsBound(d.relayers, 0);
      var dropped := |d.relayers| - |DropConfirmed(d.relayers, LastDelivered(d))|;
      if dropped < |d.relayers| {
        ChainEndsBound(d.relayers, dropped);
      }
    }
  }

  /** What a run looks like after a confirmation with the target's present state and then an update with the
      source's: nothing is pending on either side. */
  ghost predicate Refreshed(w: World, cleared: World) {
    && cleared.target == InboundLaneData([], LastDelivered(w.target))
    && cleared.source == w.source.(lane := w.source.lane.(latestReceived := LastDelivered(w.target)))
    && cleared.log == w.log && cleared.sent == w.sent
    && cleared.source in cleared.sourcePast
  }

  lemma RefreshClears(limits: Limits, actions: seq<Action>) returns (refresh: seq<Action>)
    ensures var w := Run(limits, actions);
            var confirmed := Run(limits, actions + [Confirm(w.target, Honest(w.target))]);
            && refresh == [Confirm(w.target, Honest(w.target)), Update(confirmed.source)]
            && Refreshed(w, Run(limits, actions + refresh))
  {
    hide Run;
    var w := Run(limits, actions);
    var confirm := Confirm(w.target, Honest(w.target));
    RunAppends(limits, actions, confirm);
    var confirmed := Run(limits, actions + [confirm]);
    ConfirmCatchesUp(limits, w);
    RunAppends(limits, actions + [confirm], Update(confirmed.source));
    FullUpdateEmpties(w.target);
    refresh := [confirm, Update(confirmed.source)];
    assert actions + refresh == actions + [confirm] + [Update(confirmed.source)];
  }

  /** From every reachable state the lane can be cleared, and then takes the next message if there is one. */
  lemma RunsAreNeverStuck(limits: Limits, actions: seq<Action>, flag: bool) returns (refresh: seq<Action>)
    requires limits.maxEntries >= 1 && limits.maxUnconfirmed >= 1
    ensures var w := Run(limits, actions);
            var confirmed := Run(limits, actions + [Confirm(w.target, Honest(w.target))]);
            var cleared := Run(limits, actions + refresh);
            && refresh == [Confirm(w.target, Honest(w.target)), Update(confirmed.source)]
            && cleared.target.relayers == []
            && LastDelivered(cleared.target) == LastDelivered(w.target)
            && (LastDelivered(w.target) < w.source.lane.latestGenerated ==>
                  var next: Nonce := LastDelivered(w.target) + 1;
                  && next in cleared.source.messages
                  && Receival(limits, cleared.target, next, DispatchOutcome(true, flag)) == Dispatched(flag))
  {
    hide Run;
    refresh := RefreshClears(limits, actions);
    var cleared := Run(limits, actions + refresh);
    assert Inv(limits, cleared);
  }

  lemma RunAppends(limits: Limits, actions: seq<Action>, a: Action)
    ensures Run(limits, actions + [a]) == Attempt(limits, Run(limits, actions), a)
  {
    assert (actions + [a])[..|actions + [a]| - 1] == actions;
  }

  /** Nothing is waiting anywhere: all sent messages are dispatched, confirmed and forgotten. */
  ghost predicate Drained(w: World) {
    |w.log| == |w.sent| == w.source.lane.latestReceived && w.target.relayers == []
  }

  /** On a cleared lane one more message can be dispatched. */
  lemma DeliverNext(limits: Limits, w: World, relayer: AccountId) returns (deliver: Action)
    requires limits.maxEntries >= 1 && limits.maxUnconfirmed >= 1
    requires Inv(limits, w) && w.target.relayers == [] && w.source.lane.latestReceived == |w.log| < |w.sent|
    ensures |Attempt(limits, w, deliver).log| == |w.log| + 1 && Attempt(limits, w, deliver).sent == w.sent
  {
    deliver := Deliver(w.source, relayer, LastDelivered(w.target) + 1, DispatchOutcome(true, true));
  }

  /** Every run can be continued by refreshing, and then either is drained or dispatches one more message. */
  lemma RunsCanProgress(limits: Limits, actions: seq<Action>, relayer: AccountId) returns (more: seq<Action>)
    requires limits.maxEntries >= 1 && limits.maxUnconfirmed >= 1
    ensures var w, after := Run(limits, actions), Run(limits, actions + more);
            && after.sent == w.sent && |w.log| <= |w.sent|
            && (Drained(after) || |after.log| == |w.log| + 1)
  {
    hide Run;
    more := RefreshClears(limits, actions);
    var cleared := Run(limits, actions + more);
    if |cleared.log| < |cleared.sent| {
      var deliver := DeliverNext(limits, cleared, relayer);
      RunAppends(limits, actions + more, deliver);
      assert actions + (more + [deliver]) == actions + more + [deliver];
      more := more + [deliver];
    }
  }

  /** Every run can be continued until all sent messages are dispatched, confirmed and forgotten. */
  lemma {:induction false} RunsCanDrain(limits: Limits, actions: seq<Action>, relayer: AccountId) returns (more: seq<Action>)
    requires limits.maxEntries >= 1 && limits.maxUnconfirmed >= 1
    ensures Run(limits, actions + more).sent == Run(limits, actions).sent
    ensures Drained(Run(limits, actions + more))
    decreases |Run(limits, actions).sent| - |Run(limits, actions).log|
  {
    hide Run;
    more := RunsCanProgress(limits, actions, relayer);
    if !Drained(Run(limits, actions + more)) {
      assert |Run(limits, actions + more).log| <= |Run(limits, actions + more).sent|;
      var rest := RunsCanDrain(limits, actions + more, relayer);
      assert actions + (more + rest) == actions + more + rest;
      more := more + rest;
    }
  }

  /** The lane data stored by the target in any run: consecutive non-empty entries of alternating relayers
      within the limits, each telling who really delivered each nonce and how its dispatch went. */
  lemma RunsKeepLaneData(limits: Limits, actions: seq<Action>)
    ensures var w := Run(limits, actions);
            && ValidLane(w.target) && WithinLimits(limits, w.target)
            && forall n: Nonce, relayer, flag :: Recorded(w.target.relayers, n, relayer, flag)
                 ==> 1 <= n <= |w.log| && w.log[n - 1].relayer == relayer && w.log[n - 1].flag == flag
  {
    hide Run;
    var w := Run(limits, actions);
    assert TargetPastInv(w, w.target);
    RecordsAreLogged(w.target.relayers, w.log);
  }

  lemma RecordsAreLogged(relayers: seq<UnrewardedRelayer>, log: seq<Delivery>)
    requires ValidEntries(relayers) && EntriesMatch(relayers, log)
    ensures forall n: Nonce, relayer, flag :: Recorded(relayers, n, relayer, flag)
                 ==> 1 <= n <= |log| && log[n - 1].relayer == relayer && log[n - 1].flag == flag
  {
    forall n: Nonce, relayer, flag | Recorded(relayers, n, relayer, flag)
      ensures 1 <= n <= |log| && log[n - 1].relayer == relayer && log[n - 1].flag == flag
    {
      var i :| 0 <= i < |relayers| && RecordedAt(relayers, i, n, relayer, flag);
      var e := relayers[i];
      assert EntryMatches(e, log);
      assert LoggedAt(e, log, n - e.messages.begin);
    }
  }
}
