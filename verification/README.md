# Verification of the bridge pallets

Dafny models of four connected parts of the bridge, with proofs that hold for all inputs, all runs or all
reachable states. `dafny verify dfyconfig.toml` checks the whole project.

**Message lanes.** `InboundLane` and `OutboundLane` are classes with the branches of the two lane objects, each
method proved equal to a specification function. `LaneProtocol` puts both ends into one asynchronous system: a
proof shown to one chain is *any* earlier state of the other chain, so proofs may be stale, reordered, repeated and
submitted by competing relayers. `MessagesPallet` is the batch loop of the delivery call with its weight accounting,
`CallFilter` the filter that drops obsolete transactions.

**Justifications.** `Ancestry` compares the walk that stops early at visited headers with the plain walk to the
target; `Justification` compares the vote loop with a definition of finality in terms of plain walks and sets of
signers.

**Fee market.** `FeeMarket` holds the market's storage and calls, `FeeMarketPayment` fees, slashing and rewards,
`FeeMarketSolvency` what payouts conserve, `FeeMarketInvariant` what every call and callback keeps, and
`FeeMarketRuns` the market together with the outbound lanes that create and settle its orders, over whole runs in
which balances of other accounts may change at any time.

**Stores.** `RingStore` is the ring of hashes with its map of items, used by `Grandpa` (headers under authority
hand-offs) and `Parachains` (heads of many parachains).

The shape of the code is kept: objects and storage that the code updates are class fields, its loops are loops. A
run is a sequence of transactions; a transaction that fails changes nothing, and where the code relies on the
roll-back of a failed call (the authority set is written before the header size is checked) the method restores the
old value explicitly.

## Findings

- `modules/messages/src/inbound_lane.rs:147` trims the front entry when `begin < new_confirmed_nonce`, so an entry that
  starts exactly at the confirmed nonce and goes on past it keeps that nonce. The comment at
  `primitives/messages/src/lib.rs:134-136` promises that all held nonces are above the confirmed one. The model follows
  the code: `UpdateHoldsOnlyUnconfirmedIff` says exactly when the comment is right, `PromisedRangeCanFail` is an input
  for which it is not, and the run invariant says that the front entry starts at the confirmed nonce or right after it.
- `confirm_delivery` alone can report fewer flags than nonces (`UncheckedConfirmationCanMissFlags`; exactly when is
  `UncheckedConfirmationIsFullIff`). The checks in front of it close this gap (`DeliveryProofIsExact`).
- The lane verifier compares the messages in flight with the limit before the new message is counted
  (`runtime-common/src/messages.rs:250-256`), so one message more than the documented maximum can be pending:
  `PendingLimitCanBeExceeded`, `PendingLimitIsKeptIff`, and the bound that does hold in every run, `RunsBoundPending`.
- On a cyclic parent map `ensure_descendant` terminates but accepts headers that never reach the target
  (`CyclicMapIsAccepted`); header hashes make such maps impossible (`HeadersAreAcyclic`).
- A parachain that comes back to the head about to be pruned loses its best head (`BestIsStoredIff`,
  `ReturningHeadIsLost`). A chain that only grows never does this.
- Rewards stay within fees only if the deliverer's and the confirmer's ratios sum to at most one (`SharesFitIff`).

## Model

| member | source | states |
|---|---|---|
| InboundLane.Lane.ReceiveStateUpdate | modules/messages/src/inbound_lane.rs:117-159 | the pop-and-trim loop stores the specified lane data, and reports the confirmed nonce exactly when it is new and not ahead of the lane |
| InboundLane.Lane.ReceiveMessage | modules/messages/src/inbound_lane.rs:162-216 | answers and stored data for the next nonce only, within both limits, joining the same relayer's last entry or opening a new one |
| InboundLane.Lane.SetData | modules/messages/src/lib.rs:956-999 | the per-call cache always equals the storage behind it |
| InboundLane.DroppedIsSuffix | modules/messages/src/inbound_lane.rs:135-141 | what the loop drops is exactly the prefix of fully confirmed entries |
| InboundLane.StateUpdateKeepsLastDelivered | primitives/messages/src/lib.rs:193-195 | a state update never moves the last delivered nonce |
| InboundLane.StateUpdateKeepsRecords | modules/messages/src/inbound_lane.rs:132-157 | for every unconfirmed nonce, who delivered it and with which flag is the same before and after an update |
| InboundLane.StateUpdateKeepsValid | modules/messages/src/inbound_lane.rs:117-159 | the confirmed nonce moves exactly when it is new and not ahead of the lane; entries stay non-empty, consecutive, fully flagged, of alternating relayers, starting at the confirmed nonce or right after it |
| InboundLane.UpdateHoldsOnlyUnconfirmedIff | primitives/messages/src/lib.rs:130-136 | the documented range of held nonces is met exactly when no entry starts at the confirmed nonce and goes on past it |
| InboundLane.PromisedRangeCanFail | modules/messages/src/inbound_lane.rs:147-153 | an input for which the documented range is not met, and the next update that repairs it |
| InboundLane.ReceivedKeepsValid | modules/messages/src/inbound_lane.rs:196-214 | receiving keeps the entries' invariant |
| InboundLane.ReceivedAdvancesByOne | modules/messages/src/inbound_lane.rs:170-194 | only a dispatched message changes the lane, and it moves it by exactly one nonce |
| InboundLane.DispatchedIff | modules/messages/src/inbound_lane.rs:170-194 | a message is dispatched exactly when it is the next one, fits both limits and passes pre-dispatch |
| InboundLane.ReceivedAddsRecord | modules/messages/src/inbound_lane.rs:196-214 | a dispatched message is recorded under its nonce, relayer and flag, and every other record stays |
| InboundLane.FullLaneNeedsConfirmation | primitives/messages/src/lib.rs:130-134 | a full lane rejects everything until an update confirms something new |
| MessagePrimitives.ChainPartitions | primitives/messages/src/lib.rs:123-143 | exactly one entry of a chain covers each nonce between its ends |
| OutboundLane.ExtractDispatchResults | modules/messages/src/outbound_lane.rs:224-286 | the loop returns the specified flags, or the error of the first bad entry |
| OutboundLane.ExtractionAcceptsIff | modules/messages/src/outbound_lane.rs:224-286 | accepted are exactly the chains of non-empty, adjacent, fully flagged entries not in the future |
| OutboundLane.ExtractedCount | modules/messages/src/outbound_lane.rs:262-283 | one flag per nonce after the last received one |
| OutboundLane.ExtractedFlag | modules/messages/src/outbound_lane.rs:262-283 | each flag is the one recorded by the entry that covers the nonce |
| OutboundLane.DeliveryProofConfirmsIff | modules/messages/src/lib.rs:498-544 | for arbitrary lane data, something is confirmed exactly when the entries form a chain starting no later than the next nonce, the declaration states their count, coverage and end, and the end is new and was generated |
| OutboundLane.DeclaredCorrectlyIff | modules/messages/src/lib.rs:498-515 | for a chain of entries, the declaration must state their number, the messages they cover and the last of these |
| OutboundLane.DeliveryProofAnswers | modules/messages/src/lib.rs:518-544 | exactly when a declaration is refused, old news is accepted without effect, or too many messages are refused |
| OutboundLane.DeliveryProofIsExact | modules/messages/src/lib.rs:498-544 | a confirmed range has one flag per nonce from the only entry covering it, and the clipped entries partition the range |
| OutboundLane.UnsuccessfulProofChangesNothing | modules/messages/src/outbound_lane.rs:153-195 | without a confirmation the lane stays as it was |
| OutboundLane.UncheckedConfirmationCanMissFlags | modules/messages/src/outbound_lane.rs:166-175 | an input for which `confirm_delivery` alone reports one flag for three nonces |
| OutboundLane.UncheckedConfirmationIsFullIff | modules/messages/src/outbound_lane.rs:153-195 | when `confirm_delivery` alone reports one flag per nonce |
| OutboundLane.Lane.SendMessage | modules/messages/src/outbound_lane.rs:141-150 | the next nonce, stored under it, nothing else changed |
| OutboundLane.Lane.ConfirmDelivery | modules/messages/src/outbound_lane.rs:153-195 | the specified answer, and the received nonce moves only on success |
| OutboundLane.Lane.ReceiveDeliveryProof | modules/messages/src/lib.rs:498-544 | declaration checks, then the confirmation, with their errors |
| OutboundLane.Lane.PruneMessages | modules/messages/src/outbound_lane.rs:200-217 | removes the oldest received messages and nothing else, as many as the limit or until no received one is stored |
| LaneProtocol.Run | modules/messages/src/lib.rs:296-605 | every state reachable by any sequence of sends, prunes, updates, deliveries and confirmations with any past snapshots satisfies the protocol invariant |
| LaneProtocol.StepKeepsInv | modules/messages/src/lib.rs:296-605 | every send, prune, update, delivery and confirmation with any past snapshot keeps the protocol invariant |
| LaneProtocol.RunsDeliverInOrderOnce | modules/messages/src/inbound_lane.rs:117-216 | in every run confirmed <= received <= delivered <= generated, and the dispatch log is exactly the payloads sent, in order, each once |
| LaneProtocol.RunsNeverRejectHonestProofs | modules/messages/src/outbound_lane.rs:153-195 | an honestly declared snapshot, however stale, is never refused; the branch for a confirmed nonce ahead of the lane is dead |
| LaneProtocol.RunsLearnEveryFlagOnce | modules/messages/src/outbound_lane.rs:224-286 | the flags the source has learned are the flags recorded at dispatch, none twice, none missing |
| LaneProtocol.RunsKeepLaneData | modules/messages/src/inbound_lane.rs:117-216 | entries are valid and within the limits in every run, and every record tells who delivered the nonce and how dispatch went |
| LaneProtocol.RunsAreNeverStuck | modules/messages/src/inbound_lane.rs:117-194 | from every reachable state one confirmation and one update with present states empty the lane, which then takes the next message, still stored at the source |
| LaneProtocol.RunsCanDrain | modules/messages/src/outbound_lane.rs:141-217 | every run can be continued until all sent messages are dispatched, confirmed and forgotten |
| MessagesPallet.VerifyMessagesProof | runtime-common/src/messages.rs:717-789 | accepts exactly the proofs with the declared count and all messages readable, and returns them in nonce order with the lane state |
| MessagesPallet.Pallet.ReceiveMessagesProof | modules/messages/src/lib.rs:296-449 | the nested loops over lanes and messages compute the specified batch |
| MessagesPallet.BatchDispatchesBlocks | modules/messages/src/lib.rs:341-435 | over any batch, the nonces dispatched on a lane are exactly the contiguous block by which the lane advanced |
| MessagesPallet.BatchSpendsDeclaredWeight | modules/messages/src/lib.rs:341-435 | computed from messages and receival results: weight left plus, for each dispatched message, its weight less its unspent part, is the declared weight in both components; the charge is the declared one less what each handled message returns |
| MessagesPallet.BatchSkipsExactlyOverspent | modules/messages/src/lib.rs:356-377 | over any batch, a message is skipped exactly when it, or an earlier one of its lane, does not fit what the costs of all messages before it leave of the declared weight |
| MessagesPallet.BatchIsRecorded | modules/messages/src/lib.rs:379-405 | over any messages of a lane, exactly the dispatched ones are newly recorded, under their nonce, the delivering relayer and their flag |
| MessagesPallet.LaneAppliesState | modules/messages/src/lib.rs:344-354 | a proven lane state is applied when it is new and not ahead of the lane, and other lanes stay as they are |
| MessagesPallet.BatchKeepsValid | modules/messages/src/lib.rs:341-435 | lanes keep their invariant and limits through any batch |
| CallFilter.StaleDeliveryDispatchesNothing | runtime-common/src/messages_extension.rs:50-97 | a delivery called stale would dispatch nothing on any lane, even if its lane state applies |
| CallFilter.FilterIsExactForDeliveries | runtime-common/src/messages_extension.rs:50-97 | with room and weight, a proof passes the filter exactly when it would advance the lane |
| CallFilter.StaleConfirmationChangesNothing | runtime-common/src/messages_extension.rs:50-97 | a confirmation called stale would leave the outbound lane as it is, whatever its proof holds |
| CallFilter.FilterIsExactForConfirmations | runtime-common/src/messages_extension.rs:50-97 | in every run an honest confirmation passes exactly when it confirms something |
| CallFilter.StaleIff | runtime-common/src/messages_extension.rs:50-97 | exactly which calls are dropped; all other calls are accepted |
| Ancestry.AncestryChain.EnsureDescendant | primitives/header-chain/src/justification.rs:200-228 | the loop marks and answers as specified on any parent map, in at most one turn more than there are unvisited headers |
| Ancestry.EnsuredIsExact | primitives/header-chain/src/justification.rs:200-228 | after any successful checks for one target, the early stop succeeds exactly when the full walk is not lost, and marks exactly the headers of the full walk |
| Ancestry.EarlyStopIsSound | primitives/header-chain/src/justification.rs:200-228 | on acyclic maps the early stop answers as a full walk to the target |
| Ancestry.AcyclicDescentIff | primitives/header-chain/src/justification.rs:200-228 | on acyclic maps a walk reaches the target exactly when it never leaves the known headers |
| Ancestry.CyclicMapIsAccepted | primitives/header-chain/src/justification.rs:200-228 | a cyclic map on which the check accepts a header that never reaches the target |
| Ancestry.HeadersAreAcyclic | primitives/header-chain/src/justification.rs:186-196 | parent links built from headers have no cycle |
| Justification.VerifyJustification | primitives/header-chain/src/justification.rs:86-173 | accepts exactly the justifications whose first votes all support the target, whose ancestry is exactly the paths walked and whose signers weigh more than two thirds of the total; the 64-bit weight sum never overflows |
| Justification.ThresholdIsLeast | primitives/header-chain/src/justification.rs:165-168 | the threshold is the least weight above two thirds of the total |
| Justification.RefusedBecause | primitives/header-chain/src/justification.rs:157-172 | with fine votes, a justification is refused exactly for unneeded headers, or else for too little weight |
| Justification.AcceptedIff | primitives/header-chain/src/justification.rs:86-173 | the verdict of the vote loop is the definition in terms of plain walks and signer sets |
| Justification.VoteIsExact | primitives/header-chain/src/justification.rs:104-160 | one vote is refused exactly when it is a first vote of a known authority that does not support the target |
| Justification.FirstBadVoteDecides | primitives/header-chain/src/justification.rs:104-160 | the first bad first vote decides the error |
| Justification.AcceptedQuorumsIntersect | primitives/header-chain/src/justification.rs:162-173 | two accepted justifications of one voter set share signers weighing more than a third of the total |
| RingStore.InsertionKeepsWindow | modules/grandpa/src/lib.rs:500-516 | inserting a new hash moves the stored window by exactly one entry |
| RingStore.HoldsExactlyWindow | modules/grandpa/src/lib.rs:500-516 | the map holds the last K entries and nothing else |
| RingStore.InsertedIsFoundIff | modules/parachains/src/lib.rs:571-580 | a just inserted entry is found exactly when it is not the one being pruned |
| Grandpa.Pallet.SubmitFinalityProof | modules/grandpa/src/lib.rs:166-238 | all checks in order with their errors; on any error the state is as before |
| Grandpa.Pallet.TryEnactAuthorityChange | modules/grandpa/src/lib.rs:419-459 | forced and delayed changes and too many authorities are refused, else the first scheduled change is stored under the next id; the answer tells whether the digest has one |
| Grandpa.ScheduledChangeIsFirst | modules/grandpa/src/lib.rs:621-636 | the search returns the first scheduled change of the whole digest, and nothing exactly when no item is one |
| Grandpa.ForcedChangeIsFirst | modules/grandpa/src/lib.rs:640-655 | the same for forced changes |
| Grandpa.EnactedIs | modules/grandpa/src/lib.rs:419-459 | in terms of the digest: exactly which changes are enacted, with what result, and which are refused as unsupported |
| Grandpa.VotersAreListed | modules/grandpa/src/lib.rs:467-480 | a stored list is a voter set exactly when its weights sum to a positive 64-bit number; each id votes with all of its listed weight |
| Grandpa.SubmissionAcceptedIff | modules/grandpa/src/lib.rs:166-238 | exactly when a header is imported, in terms of plain walks, signers and digest items |
| Grandpa.InitializedIff | modules/grandpa/src/lib.rs:520-558 | exactly when the pallet is initialised |
| Grandpa.Pallet.InsertHeader | modules/grandpa/src/lib.rs:500-516 | best header, ring slot and map are updated and the overwritten hash is pruned |
| Grandpa.Pallet.InitializeBridge | modules/grandpa/src/lib.rs:520-558 | initial state, or refusal without a change |
| Grandpa.Run | modules/grandpa/src/lib.rs:166-238 | every state reachable after initialisation satisfies the store and hand-off invariant |
| Grandpa.RunsKeepLastHeaders | modules/grandpa/src/lib.rs:500-516 | after any run the stored headers are exactly the last min(n, K) imported, the best is the newest and is stored, numbers strictly increase |
| Grandpa.RunsHandOverAuthorities | modules/grandpa/src/lib.rs:419-494 | read off the digests: the set id counts the imported headers with a scheduled change, the authorities are the first such change of the last of them, no import forces or delays a change, and each header was justified under the set then in force |
| Grandpa.RunsLimitImports | modules/grandpa/src/lib.rs:137-176 | in every run imports never exceed the request limit plus one per block, and submissions are refused as too many exactly at the limit |
| Parachains.Pallet.SubmitParachainHeads | modules/parachains/src/lib.rs:264-382 | the loop computes the specified state and outcomes; a refused submission changes nothing |
| Parachains.Pallet.UpdateParachainHead | modules/parachains/src/lib.rs:498-590 | obsolete and too large heads are refused, else best head, ring slot and map are updated |
| Parachains.Run | modules/parachains/src/lib.rs:264-382 | every state reachable by any submissions satisfies each parachain's invariant |
| Parachains.UpdateTouchesOneParachain | modules/parachains/src/lib.rs:498-590 | an update leaves every other parachain as it was |
| Parachains.ItemStoredIff | modules/parachains/src/lib.rs:294-376 | a head is stored exactly when its parachain is tracked, the proven head has the claimed hash, is newer than and different from the best, and is not too large; other items change nothing |
| Parachains.RunsStoreOnlyClaims | modules/parachains/src/lib.rs:264-376 | in every run each stored head belongs to a tracked parachain and was the proven head of a submission that claimed its hash at a known relay block |
| Parachains.SubmissionAcceptedIff | modules/parachains/src/lib.rs:264-292 | exactly which submissions are looked at |
| Parachains.RunsKeepLastHeads | modules/parachains/src/lib.rs:294-376 | in every run relay numbers strictly increase per parachain; without near repeats the stored heads are exactly the last min(n, K), the best among them |
| Parachains.BestIsStoredIff | modules/parachains/src/lib.rs:571-580 | the new best head is stored exactly when it is not the oldest head of a full ring |
| Parachains.ReturningHeadIsLost | modules/parachains/src/lib.rs:571-580 | a parachain returning to its oldest kept head loses its best head |
| FeeMarketTypes.SortIsOrdered | modules/fee-market/src/types.rs:44-74 | the sort permutes the relayers so that each stands before dearer ones, and before equally dear ones with less collateral |
| FeeMarketTypes.SortIsStable | modules/fee-market/src/lib.rs:484-488 | relayers of equal rank keep their enrolment order |
| FeeMarketTypes.CreateOrder | modules/fee-market/src/types.rs:92-122 | the loop with the moving start time builds the specified slots |
| FeeMarketTypes.SlotsTile | modules/fee-market/src/types.rs:92-122 | slots follow each other without gap or overlap, one per relayer in order |
| FeeMarketTypes.FindConfirmedInfo | modules/fee-market/src/types.rs:153-164 | the search finds the first slot containing the confirmation time |
| FeeMarketTypes.ConfirmedInfoIs | modules/fee-market/src/types.rs:153-164 | the slot found is the first that contains the confirmation time, at its price, and none exactly when no slot does |
| FeeMarketTypes.NewOrderConfirmedAt | modules/fee-market/src/types.rs:92-164 | an order confirmed i slots after sending is found in slot i at that relayer's price, and in none after all slots |
| FeeMarketTypes.ConfirmedSlotIs | modules/fee-market/src/types.rs:153-164 | for a new order that slot is the number of whole slots passed since sending |
| FeeMarketTypes.SlotPriceWithinFee | modules/fee-market/src/types.rs:132-164 | the price of any slot is at most the order's fee |
| FeeMarket.Pallet.OccupiedBy | modules/fee-market/src/lib.rs:547-563 | in any iteration order of the storage, the open orders' total collateral, and `None` exactly without open orders |
| FeeMarket.Pallet.UsableOrderCapacity | modules/fee-market/src/lib.rs:567-585 | whole orders' collateral still free, capped at 32 bits |
| FeeMarket.Pallet.UpdateMarket | modules/fee-market/src/lib.rs:464-500 | stores the assigned relayers recomputed from scratch, or none when too few qualify |
| FeeMarket.Pallet.Enroll | modules/fee-market/src/lib.rs:252-293 | checks in order with their errors, else lock, record and refreshed market |
| FeeMarket.Pallet.Increase | modules/fee-market/src/lib.rs:297-331 | only a larger collateral covered by the free balance is locked |
| FeeMarket.Pallet.Decrease | modules/fee-market/src/lib.rs:335-376 | only a smaller collateral that still covers the open orders is locked |
| FeeMarket.Pallet.UpdateFee | modules/fee-market/src/lib.rs:380-397 | only fees of at least the minimum are recorded |
| FeeMarket.Pallet.Cancel | modules/fee-market/src/lib.rs:401-425 | only relayers without open orders leave; lock, record and enrolment go together |
| FeeMarket.Pallet.OnMessageAccepted | modules/fee-market/src/s2s/callbacks.rs:29-63 | the order goes to the relayers assigned before, and the market is recomputed with it |
| FeeMarket.Pallet.OnMessagesDelivered | modules/fee-market/src/s2s/callbacks.rs:69-89 | exactly the unconfirmed orders of the range get the present block as confirmation time |
| FeeMarket.Pallet.OnFinalize | modules/fee-market/src/lib.rs:234-242 | exactly the confirmed orders are dropped |
| FeeMarketInvariant.CallKeepsInv | modules/fee-market/src/lib.rs:252-451 | every call keeps collateral above what open orders hold back, locks equal to recorded collateral and the assigned relayers up to date |
| FeeMarketInvariant.CallAllowedIff | modules/fee-market/src/lib.rs:252-451 | call by call, exactly when it is refused |
| FeeMarketInvariant.CallHasEffect | modules/fee-market/src/lib.rs:252-451 | call by call, exactly what changes: the caller's record, lock and enrolment, and nothing of anybody else |
| FeeMarketInvariant.CapacityIs | modules/fee-market/src/lib.rs:577-585 | the capacity is the number of whole orders a collateral covers, capped at 32 bits |
| FeeMarketInvariant.AcceptedKeepsInv | modules/fee-market/src/s2s/callbacks.rs:29-63 | a new order keeps the market sound, since each assigned relayer has the collateral to spare, and is worth the market fee |
| FeeMarketInvariant.AcceptedOrderIs | modules/fee-market/src/s2s/callbacks.rs:29-45 | the new order has one slot per relayer assigned before, in order, the first starting now, and no other order changes |
| FeeMarketInvariant.MarkingReleases | modules/fee-market/src/s2s/callbacks.rs:69-89 | confirming a range releases exactly its orders' share of any sum over open orders |
| FeeMarketInvariant.FinalizedKeepsInv | modules/fee-market/src/lib.rs:234-242 | dropping confirmed orders keeps the market sound |
| FeeMarketInvariant.OnlyOpenOrdersStay | modules/fee-market/src/lib.rs:234-242 | at the end of a block exactly the unconfirmed orders stay, unchanged |
| FeeMarketInvariant.BestAre | modules/fee-market/src/lib.rs:484-490 | the assigned relayers are different enrolled relayers, cheapest first, each able to take one more order |
| FeeMarketInvariant.BestArePreferred | modules/fee-market/src/lib.rs:484-490 | nobody who could take an order and is left out would go before an assigned relayer |
| FeeMarketInvariant.MarketFeeIsNthLowest | modules/fee-market/src/lib.rs:535-537 | fewer than N qualifying relayers are cheaper than the market fee and at least N are not dearer |
| FeeMarketPayment.PayDeliveryAndDispatchFee | modules/fee-market/src/s2s/payment.rs:56-85 | the whole fee reaches the fund or nothing happens; only a zero fee may come from nobody |
| FeeMarketPayment.SlashAssignedRelayer | modules/fee-market/src/s2s/payment.rs:299-334 | at most the order's collateral is taken, and the record and lock shrink only by what was collected |
| FeeMarketPayment.SettleOrder | modules/fee-market/src/s2s/payment.rs:163-281 | the three branches compute the specified rewards and slashes of one order; who gets what is stated by MessengersGetTheirShares, DutyIsRewarded, SurplusIsShared and MissedSlotsPay |
| FeeMarketPayment.CalculateRewards | modules/fee-market/src/s2s/payment.rs:151-292 | the nested loops settle exactly the clipped nonces of the entries, in order |
| FeeMarketPayment.PayRelayersRewards | modules/fee-market/src/s2s/payment.rs:87-146 | rewards are added up per account and paid in the code's order; who ends up with what is stated by EverybodyIsPaid and MessengersComeFirst |
| FeeMarketPayment.DoReward | modules/fee-market/src/s2s/payment.rs:337-358 | zero rewards are skipped, others are paid exactly or not at all |
| FeeMarketSolvency.SettlementConserves | modules/fee-market/src/s2s/payment.rs:173-279 | in every branch an order's rewards stay within its fee and the slashes really collected |
| FeeMarketSolvency.MessengersGetTheirShares | modules/fee-market/src/s2s/payment.rs:173-279 | in every branch the deliverer and the confirmer each get the nearest integer, halves down, to their own ratio of the slot's price, or the whole fee, plus what the fund gained |
| FeeMarketSolvency.DutyIsRewarded | modules/fee-market/src/s2s/payment.rs:180-241 | each relayer on duty gets an equal part, rounded down, of the duty ratio of the fee above the slot's price |
| FeeMarketSolvency.MissedSlotsPay | modules/fee-market/src/s2s/payment.rs:205-265 | with a currency that accepts, a relayer whose slot was missed loses exactly the fine, at most the order's collateral, and any other nothing |
| FeeMarketSolvency.SurplusIsShared | modules/fee-market/src/s2s/payment.rs:180-241 | the fee above the slot's price goes to the relayers on duty and the treasury to the last unit |
| FeeMarketSolvency.OnlyMissedSlotsAreSlashed | modules/fee-market/src/s2s/payment.rs:205-228 | only relayers whose slot had passed when the order was confirmed lose collateral |
| FeeMarketSolvency.SlashEffect | modules/fee-market/src/s2s/payment.rs:299-334 | a slash takes from one relayer exactly what the fund gets, and touches nobody else's collateral |
| FeeMarketSolvency.SlashCollects | modules/fee-market/src/s2s/payment.rs:299-334 | an accepted slash collects exactly the smaller of amount and collateral, a refused one takes nothing |
| FeeMarketSolvency.SlashNeverSaturates | modules/fee-market/src/s2s/payment.rs:299-334 | at every single slash of a range the relayer still has the order's whole collateral on record, even when slashed for many orders |
| FeeMarketSolvency.RewardsConserve | modules/fee-market/src/s2s/payment.rs:151-292 | all rewards of a range stay within its orders' fees and what was collected |
| FeeMarketSolvency.EachMessageIsRewarded | modules/fee-market/src/s2s/payment.rs:163-287 | every message of a range is rewarded, in order: the i-th item gives its own deliverer and the confirmer their shares |
| FeeMarketSolvency.AddingUpConserves | modules/fee-market/src/s2s/payment.rs:102-127 | adding up per account neither loses nor invents rewards |
| FeeMarketSolvency.PaidFairly | modules/fee-market/src/s2s/payment.rs:87-146 | a paid range costs the fund at most its orders' fees and a relayer at most what its orders held back, and no money appears or vanishes |
| FeeMarketSolvency.EverybodyIsPaid | modules/fee-market/src/s2s/payment.rs:87-146 | when the currency accepts and the fund can pay, each other account gains exactly what the items owe it over all of its roles; in any case it loses nothing and gains no more |
| FeeMarketSolvency.MessengersComeFirst | modules/fee-market/src/s2s/payment.rs:129-138 | a fund that cannot pay everybody still pays the confirmer first and then the deliverers in full if it can |
| FeeMarketSolvency.ConfirmedRangeIsWork | modules/fee-market/src/s2s/payment.rs:163-169 | for arbitrary proven entries, each confirmed nonce is rewarded once, in order, to the relayer of the only entry covering it |
| Permill.SharesFit | modules/fee-market/src/s2s/payment.rs:276-279 | two rounded shares of ratios summing to at most one never exceed the whole |
| Permill.ShareIsNearest | modules/fee-market/src/s2s/payment.rs:276-277 | a share is the integer nearest to its ratio of the amount, halves down, and no other integer is |
| Permill.SharesFitIff | modules/fee-market/src/s2s/payment.rs:276-279 | that condition on the ratios is exactly what is needed |
| FeeMarketRuns.SendMessage | modules/messages/src/lib.rs:824-900 | verifier checks, then the fee, then nonce and order; a refused message changes nothing |
| FeeMarketRuns.SendAcceptedIff | runtime-common/src/messages.rs:249-290 | exactly which messages the verifier accepts |
| FeeMarketRuns.FeeIsPaid | modules/fee-market/src/s2s/payment.rs:56-85 | who can pay a fee; the sender loses exactly it and nobody else anything |
| FeeMarketRuns.ReceiveDeliveryProof | modules/messages/src/lib.rs:498-590 | a confirmation marks its orders and then pays for them; otherwise the market stays as it was |
| FeeMarketRuns.Run | modules/fee-market/src/s2s/payment.rs:56-146 | every state reachable by any sequence of calls, messages, confirmations, blocks and outside balance changes is sound and solvent, with orders and settlements matching the lanes |
| FeeMarketRuns.StepKeepsInv | modules/fee-market/src/s2s/callbacks.rs:29-89 | every call, message, confirmation with arbitrary lane data, block end and outside balance change keeps the run invariant |
| FeeMarketRuns.RunsKeepFundSolvent | modules/fee-market/src/s2s/payment.rs:56-146 | in every run the fund holds its starting balance and the fees of all unconfirmed orders |
| FeeMarketRuns.RunsSettleEachMessageOnce | modules/fee-market/src/s2s/payment.rs:163-171 | in every run exactly the sent, unconfirmed messages have an open order, and exactly the confirmed ones have been settled, each once |
| FeeMarketRuns.RunsPayEverybody | modules/fee-market/src/s2s/payment.rs:87-146 | in every run the fund can pay an accepted confirmation, so with a currency that accepts each other account gets exactly what it is owed |
| FeeMarketRuns.RunsForgetConfirmedOrders | modules/fee-market/src/lib.rs:234-242 | after the end of a block exactly the sent, unconfirmed messages have an order |
| FeeMarketRuns.RunsCoverCollateral | modules/fee-market/src/lib.rs:335-425 | in every run each relayer's recorded and locked collateral covers all of its open orders |
| FeeMarketRuns.RunsKeepAssignedRelayers | modules/fee-market/src/lib.rs:464-537 | in every run the cached assigned relayers equal recomputing them, are different and ordered, and the market fee is the N-th lowest on offer |
| FeeMarketRuns.RunsNeverSaturateSlashes | modules/fee-market/src/s2s/payment.rs:299-334 | whatever confirmation comes next in any run, none of its slashes saturates |
| FeeMarketRuns.RunsBoundPending | runtime-common/src/messages.rs:250-256 | at most one message more than the limit is ever in flight |
| FeeMarketRuns.PendingLimitCanBeExceeded | runtime-common/src/messages.rs:250-256 | an accepted message that takes the lane over the limit |
| FeeMarketRuns.PendingLimitIsKeptIff | runtime-common/src/messages.rs:250-256 | an accepted message keeps the limit exactly when the lane was below it |

## Left out

- SCALE encoding, storage keys and trie proofs: a proof is the part of the other chain's storage it makes readable,
  with undecodable bytes as a separate case.
- Signature cryptography: an arbitrary predicate on vote, round and set id; the log of equivocations is not kept.
- Hashing: header and head hashes are injective and a header's hash is newer than its parent's; the code relies on
  collision resistance for the same.
- The dispatch pallet: dispatching a message yields arbitrary pre-dispatch results, flags and unspent weight.
- Weight tables, events, logging, genesis plumbing, owner and halt switches, message size and origin checks,
  `is_message_accepted`, benchmarks and mocks: straight-line checks that would add only easy members.
- `encoded_size_hint` and the `runtime-benchmarks` version of `verify_message`: documented as approximate, and
  accepting everything.
- The balances pallet: free balances, one lock per account, and a transfer that moves the exact amount or nothing.
  When else it refuses (existential deposit, other locks) is an arbitrary predicate. The slasher for late orders is
  an arbitrary function.
- Widths of balances, block numbers, set ids, request counts and order counts: unbounded numbers. Nonces, weights of
  voters and their sums are 64-bit, order capacity is capped at 32 bits.
- Assumptions about libraries that are not part of this model: `Permill` rounds to nearest with halves down, `sort` is
  stable, a voter set merges repeated ids and drops zero weights, B-tree maps iterate in ascending order of account.
- FeeMarketRuns.Run: signers of market calls and message senders are not the fund account, other pallets never take
  from the fund, and pruning of messages is left to `LaneProtocol.Run`, because it touches no order.
- LaneProtocol.Run: one lane, and no weight limits; batches over several lanes and weights are in `MessagesPallet`.
- Roll-back of failed calls: explicit where the code depends on it, otherwise a failing call has not written yet.
