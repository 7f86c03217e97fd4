/** The fee market and the outbound lanes that create and settle its orders, over whole runs. */
module FeeMarketRuns {
  import opened Wrappers
  import opened MessagePrimitives
  import opened FeeMarketTypes
  import opened FeeMarket
  import opened FeeMarketPayment
  import opened FeeMarketSolvency
  import opened FeeMarketInvariant
  import opened Permill
  import OutboundLane

  /** Configuration, and the limit on messages without a confirmation. */
  datatype Setup = Setup(config: Config, maxPending: nat)

  /** `settled` counts how often each order has been paid for. */
  datatype World = World(market: Market, lanes: Lanes, now: BlockNumber, settled: multiset<Key>)

  datatype Action =
    | MarketCall(call: Call)
    | Send(lane: LaneId, submitter: Option<AccountId>, fee: Balance, rules: Rules)
    | Confirm(lane: LaneId, laneData: InboundLaneData, declared: UnrewardedRelayersState, confirmer: AccountId, rules: Rules)
    | NextBlock
    | Outside(balances: map<AccountId, Balance>)

  datatype VerificationError = TooManyPendingMessages | MessageWithTooLowFee | NoMarketFee

  type Lanes = map<LaneId, OutboundLaneData>

  function LaneOf(lanes: Lanes, lane: LaneId): OutboundLaneData {
    if lane in lanes then lanes[lane] else EMPTY_OUTBOUND
  }

  /** The lane verifier's checks: not too many messages in flight, and at least the market fee. */
  function Objection(s: Setup, m: Market, d: OutboundLaneData, fee: Balance): Option<VerificationError> {
    if d.latestGenerated - d.latestReceived > s.maxPending then Some(TooManyPendingMessages)
    else if MarketFee(m).None? then Some(NoMarketFee)
    else if fee < MarketFee(m).value then Some(MessageWithTooLowFee)
    else None
  }

  /** The fund signs nothing and sends nothing; other pallets never take from it. */
  ghost predicate Enabled(s: Setup, w: World, a: Action) {
    match a
    case MarketCall(call) => Caller(call) != Some(s.config.fund)
    case Send(lane, submitter, _, _) => submitter != Some(s.config.fund) && LaneOf(w.lanes, lane).latestGenerated + 1 < U64_MAX
    case Confirm(_, _, _, _, _) => true
    case NextBlock => true
    case Outside(balances) => At(w.market.balances, s.config.fund) <= At(balances, s.config.fund)
  }

  /** Orders paid for by one confirmation. */
  function SettledIn(orders: map<Key, Order>, lane: LaneId, work: seq<(AccountId, Nonce)>): multiset<Key> {
    if work == [] then multiset{}
    else
      var key: Key := (lane, work[|work| - 1].1);
      SettledIn(orders, lane, work[..|work| - 1]) + if key in orders then multiset{key} else multiset{}
  }

  ghost function Sent(s: Setup, w: World, lane: LaneId, submitter: Option<AccountId>, fee: Balance, rules: Rules): World
    requires LaneOf(w.lanes, lane).latestGenerated < U64_MAX
  {
    var d := LaneOf(w.lanes, lane);
    if Objection(s, w.market, d, fee).Some? then w
    else
      match FeePaid(rules, w.market, submitter, fee, s.config.fund)
      case None => w
      case Some(paid) =>
        var nonce: Nonce := d.latestGenerated + 1;
        w.(market := Accepted(s.config, paid, (lane, nonce), w.now), lanes := w.lanes[lane := d.(latestGenerated := nonce)])
  }

  /** The market after the orders of a confirmed range have been marked and then paid for. */
  ghost function MarketAfter(
    config: Config, rules: Rules, m: Market, lane: LaneId, begin: nat, work: seq<(AccountId, Nonce)>, now: BlockNumber,
    confirmer: AccountId): Market
    requires begin + |work| <= U64_MAX + 1
  {
    Paid(config, rules, AllMarked(config, m, lane, begin, begin + |work|, now), lane, work, confirmer)
  }

  ghost function ConfirmedBy(
    s: Setup, w: World, lane: LaneId, laneData: InboundLaneData, declared: UnrewardedRelayersState, confirmer: AccountId, rules: Rules)
    : World
    requires LaneOf(w.lanes, lane).latestGenerated < U64_MAX
  {
    var d := LaneOf(w.lanes, lane);
    if !OutboundLane.Confirmable(d, laneData, declared) then w
    else
      OutboundLane.DeliveryProofConfirmsIff(d, laneData, declared);
      ConfirmedRangeIsWork(d, laneData, declared);
      var messages := OutboundLane.DeliveryProofResult(d, laneData, declared).value.value;
      var work := Work(laneData.relayers, messages.begin, messages.end);
      w.(market := MarketAfter(s.config, rules, w.market, lane, messages.begin, work, w.now, confirmer),
         lanes := w.lanes[lane := OutboundLane.AfterDeliveryProof(d, laneData, declared)],
         settled := w.settled + SettledIn(w.market.orders, lane, work))
  }

  ghost function Step(s: Setup, w: World, a: Action): World
    requires LanesInv(s, w.lanes) && Enabled(s, w, a)
  {
    match a
    case MarketCall(call) =>
      (match Called(s.config, w.market, call)
       case Ok(next) => w.(market := next)
       case Err(_) => w)
    case Send(lane, submitter, fee, rules) => Sent(s, w, lane, submitter, fee, rules)
    case Confirm(lane, laneData, declared, confirmer, rules) => ConfirmedBy(s, w, lane, laneData, declared, confirmer, rules)
    case NextBlock => w.(market := Finalized(w.market), now := w.now + 1)
    case Outside(balances) => w.(market := w.market.(balances := balances))
  }

  function Genesis(balances: map<AccountId, Balance>): World {
    World(Market([], map[], None, 3, map[], None, balances, map[]), map[], 0, multiset{})
  }

  // ---------------------------------------------------------------- the invariant

  predicate LaneInv(s: Setup, d: OutboundLaneData) {
    d.latestReceived <= d.latestGenerated < U64_MAX && d.latestGenerated - d.latestReceived <= s.maxPending + 1
  }

  ghost predicate LanesInv(s: Setup, lanes: Lanes) {
    forall lane :: LaneInv(s, LaneOf(lanes, lane))
  }

  /** Exactly the sent and unconfirmed messages have an unconfirmed order, and only sent messages have any. */
  ghost predicate OrdersInv(orders: map<Key, Order>, lanes: Lanes) {
    && (forall k: Key :: OpenIffPending(orders, lanes, k))
    && (forall k: Key | k in orders :: WasSent(lanes, k))
  }

  predicate OpenIffPending(orders: map<Key, Order>, lanes: Lanes, k: Key) {
    IsOpen(orders, k) <==> LaneOf(lanes, k.0).latestReceived < k.1 <= LaneOf(lanes, k.0).latestGenerated
  }

  predicate WasSent(lanes: Lanes, k: Key) {
    k.1 <= LaneOf(lanes, k.0).latestGenerated
  }

  /** Exactly the confirmed messages have been paid for, each once. */
  ghost predicate SettledInv(settled: multiset<Key>, lanes: Lanes) {
    forall k: Key :: SettledOnce(settled, lanes, k)
  }

  predicate SettledOnce(settled: multiset<Key>, lanes: Lanes, k: Key) {
    settled[k] == if 1 <= k.1 <= LaneOf(lanes, k.0).latestReceived then 1 else 0
  }

  /** The fund holds what it started with and the fees of all unconfirmed orders. */
  ghost predicate Solvent(config: Config, start: Balance, m: Market) {
    start + OpenSum(m.orders, Fee()) <= At(m.balances, config.fund)
  }

  ghost predicate Inv(s: Setup, start: Balance, w: World) {
    && MarketInv(s.config, w.market)
    && Solvent(s.config, start, w.market)
    && LanesInv(s, w.lanes)
    && OrdersInv(w.market.orders, w.lanes)
    && SettledInv(w.settled, w.lanes)
  }

  predicate ValidSetup(s: Setup) {
    s.config.deliverRatio + s.config.confirmRatio <= MILLION
  }

  // ---------------------------------------------------------------- runs

  /** A transaction that is not enabled changes nothing. */
  ghost function Attempt(s: Setup, start: Balance, w: World, a: Action): (next: World)
    requires ValidSetup(s) && Inv(s, start, w)
    ensures Inv(s, start, next)
  {
    if Enabled(s, w, a) then StepKeepsInv(s, start, w, a); Step(s, w, a) else w
  }

  /** The state after any sequence of attempted transactions. */
  ghost function Run(s: Setup, balances: map<AccountId, Balance>, actions: seq<Action>): (w: World)
    requires ValidSetup(s)
    ensures Inv(s, At(balances, s.config.fund), w)
    decreases |actions|
  {
    if actions == [] then
      GenesisInv(s, balances);
      Genesis(balances)
    else
      Attempt(s, At(balances, s.config.fund), Run(s, balances, actions[..|actions| - 1]), actions[|actions| - 1])
  }

  lemma GenesisInv(s: Setup, balances: map<AccountId, Balance>)
    ensures Inv(s, At(balances, s.config.fund), Genesis(balances))
  {
    var m := Genesis(balances).market;
    assert Qualified(s.config, m, []) == [];
    assert Recomputed(s.config, m) == None;
  }

  lemma StepKeepsInv(s: Setup, start: Balance, w: World, a: Action)
    requires ValidSetup(s) && Inv(s, start, w) && Enabled(s, w, a)
    ensures Inv(s, start, Step(s, w, a))
  {
    hide Sent, ConfirmedBy, MarketInv, Called, OpenSum, OrdersInv, SettledInv, Finalized, Fee;
    match a {
      case MarketCall(call) => CallKeeps(s, start, w, call);
      case Send(lane, submitter, fee, rules) =>
        assert LaneInv(s, LaneOf(w.lanes, lane));
        SendKeeps(s, start, w, lane, submitter, fee, rules);
      case Confirm(lane, laneData, declared, confirmer, rules) =>
        assert LaneInv(s, LaneOf(w.lanes, lane));
        ConfirmKeeps(s, start, w, lane, laneData, declared, confirmer, rules);
      case NextBlock => NextBlockKeeps(s, start, w);
      case Outside(balances) => OutsideKeeps(s, start, w, balances);
    }
  }

  lemma CallKeeps(s: Setup, start: Balance, w: World, call: Call)
    requires Inv(s, start, w) && Enabled(s, w, MarketCall(call))
    ensures Inv(s, start, Step(s, w, MarketCall(call)))
  {
    hide MarketInv, Called, OpenSum;
    if Called(s.config, w.market, call).Ok? {
      CallKeepsInv(s.config, w.market, call);
    }
  }

  lemma OutsideKeeps(s: Setup, start: Balance, w: World, balances: map<AccountId, Balance>)
    requires Inv(s, start, w) && Enabled(s, w, Outside(balances))
    ensures Inv(s, start, Step(s, w, Outside(balances)))
  {
    hide OpenSum, Recomputed;
    BalancesDoNotMatter(s.config, w.market, balances);
  }

  lemma BalancesDoNotMatter(config: Config, m: Market, balances: map<AccountId, Balance>)
    requires MarketInv(config, m)
    ensures MarketInv(config, m.(balances := balances))
  {
    hide Recomputed, OpenSum, SoundOrders;
    RecomputedSame(config, m, m.(balances := balances));
    forall who ensures Locked(m.orders, who) <= Collateral(m.(balances := balances), who) {
      assert Locked(m.orders, who) <= Collateral(m, who);
    }
  }

  lemma NextBlockKeeps(s: Setup, start: Balance, w: World)
    requires Inv(s, start, w)
    ensures Inv(s, start, Step(s, w, NextBlock))
  {
    hide MarketInv, OpenSum, Fee;
    FinalizedKeepsInv(s.config, w.market);
    OpenSumIgnoresConfirmed(w.market, Fee());
    FinalizedKeepsOrders(w.market, w.lanes);
  }

  lemma FinalizedKeepsOrders(m: Market, lanes: Lanes)
    requires OrdersInv(m.orders, lanes)
    ensures OrdersInv(Finalized(m).orders, lanes)
  {
    forall k: Key ensures OpenIffPending(Finalized(m).orders, lanes, k) {
      assert OpenIffPending(m.orders, lanes, k);
    }
  }

  lemma FeeIsMoved(config: Config, rules: Rules, m: Market, submitter: Option<AccountId>, fee: Balance)
    requires submitter != Some(config.fund) && FeePaid(rules, m, submitter, fee, config.fund).Some?
    ensures var n := FeePaid(rules, m, submitter, fee, config.fund).value;
            n == m.(balances := n.balances) && At(n.balances, config.fund) == At(m.balances, config.fund) + fee
  {
    if submitter.Some? {
      TransferConserves(rules, m, submitter.value, config.fund, fee, false);
    }
  }

  /** Who can pay a fee, given a currency that accepts: a sender whose balance beyond its lock covers it, or nobody when it
      is zero. The sender loses exactly the fee, and nobody else anything. */
  lemma FeeIsPaid(config: Config, rules: Rules, m: Market, submitter: Option<AccountId>, fee: Balance)
    requires submitter != Some(config.fund) && Accepting(rules)
    ensures FeePaid(rules, m, submitter, fee, config.fund).Some?
            <==> fee == 0 || (submitter.Some? && At(m.locks, submitter.value) + fee <= At(m.balances, submitter.value))
    ensures FeePaid(rules, m, submitter, fee, config.fund).Some? ==>
              var n := FeePaid(rules, m, submitter, fee, config.fund).value;
              && n == m.(balances := n.balances)
              && forall x | x != config.fund :: At(n.balances, x) == At(m.balances, x) - if submitter == Some(x) then fee else 0
  {
    if submitter.Some? {
      assert rules.transfer(FeeMarketPayment.Attempt(submitter.value, config.fund, fee, false, m.balances, m.locks));
    }
  }

  lemma SendKeeps(s: Setup, start: Balance, w: World, lane: LaneId, submitter: Option<AccountId>, fee: Balance, rules: Rules)
    requires Inv(s, start, w) && Enabled(s, w, Send(lane, submitter, fee, rules))
    ensures Inv(s, start, Sent(s, w, lane, submitter, fee, rules))
  {
    hide MarketInv, OpenSum, FeePaid, Accepted, OrderFor, OrdersInv, SettledInv, LanesInv;
    var d := LaneOf(w.lanes, lane);
    assert LaneInv(s, d) by { LaneIn(s, w.lanes, lane); }
    if Objection(s, w.market, d, fee).None? && FeePaid(rules, w.market, submitter, fee, s.config.fund).Some? {
      var paid := FeePaid(rules, w.market, submitter, fee, s.config.fund).value;
      var key: Key := (lane, d.latestGenerated + 1);
      assert key !in w.market.orders by { NotSentYet(w.market.orders, w.lanes, key); }
      FeeIsMoved(s.config, rules, w.market, submitter, fee);
      BalancesDoNotMatter(s.config, w.market, paid.balances);
      AcceptedKeepsInv(s.config, paid, key, w.now);
      var next := Sent(s, w, lane, submitter, fee, rules);
      OrderIsOpen(s.config, paid, key, w.now);
      SentKeepsOrders(w.market.orders, w.lanes, key, OrderFor(s.config, paid, key, w.now));
      SentKeepsSettled(w.settled, w.lanes, lane, key.1);
      OneLaneChanges(s, w.lanes, lane, d.(latestGenerated := key.1));
    }
  }

  lemma OrderIsOpen(config: Config, m: Market, key: Key, now: BlockNumber)
    requires m.best.Some?
    ensures OrderFor(config, m, key, now).confirmTime.None?
  {}

  lemma LaneIn(s: Setup, lanes: Lanes, lane: LaneId)
    requires LanesInv(s, lanes)
    ensures LaneInv(s, LaneOf(lanes, lane))
  {}

  lemma NotSentYet(orders: map<Key, Order>, lanes: Lanes, key: Key)
    requires OrdersInv(orders, lanes) && key.1 > LaneOf(lanes, key.0).latestGenerated
    ensures key !in orders
  {
    assert !WasSent(lanes, key);
  }

  lemma OneLaneChanges(s: Setup, lanes: Lanes, lane: LaneId, d: OutboundLaneData)
    requires LanesInv(s, lanes) && LaneInv(s, d)
    ensures LanesInv(s, lanes[lane := d])
  {
    var changed := lanes[lane := d];
    forall other ensures LaneInv(s, LaneOf(changed, other)) {
      assert LaneInv(s, LaneOf(lanes, other));
    }
  }

  lemma SentKeepsOrders(orders: map<Key, Order>, lanes: Lanes, key: Key, o: Order)
    requires OrdersInv(orders, lanes) && o.confirmTime.None?
    requires LaneOf(lanes, key.0).latestReceived < key.1 == LaneOf(lanes, key.0).latestGenerated + 1
    ensures OrdersInv(orders[key := o], lanes[key.0 := LaneOf(lanes, key.0).(latestGenerated := key.1)])
  {
    var orders', lanes' := orders[key := o], lanes[key.0 := LaneOf(lanes, key.0).(latestGenerated := key.1)];
    forall k: Key ensures OpenIffPending(orders', lanes', k) {
      assert OpenIffPending(orders, lanes, k);
    }
    forall k: Key | k in orders' ensures WasSent(lanes', k) {
      if k != key { assert WasSent(lanes, k); }
    }
  }

  lemma SentKeepsSettled(settled: multiset<Key>, lanes: Lanes, lane: LaneId, nonce: Nonce)
    requires SettledInv(settled, lanes)
    ensures SettledInv(settled, lanes[lane := LaneOf(lanes, lane).(latestGenerated := nonce)])
  {
    var lanes' := lanes[lane := LaneOf(lanes, lane).(latestGenerated := nonce)];
    forall k: Key ensures SettledOnce(settled, lanes', k) {
      assert SettledOnce(settled, lanes, k);
    }
  }

  // ---------------------------------------------------------------- confirmations

  lemma {:induction false} SettledInIs(orders: map<Key, Order>, lane: LaneId, begin: nat, work: seq<(AccountId, Nonce)>)
    requires IsRange(work, begin) && forall k | 0 <= k < |work| :: (lane, work[k].1) in orders
    ensures forall k: Key :: SettledIn(orders, lane, work)[k] == if InRange(k, lane, begin, begin + |work|) then 1 else 0
    decreases |work|
  {
    if work != [] {
      SettledInIs(orders, lane, begin, work[..|work| - 1]);
    }
  }

  /** Marking and paying a confirmed range keeps the market sound and solvent, and its slashes are covered. */
  lemma PayingKeepsInv(
    config: Config, rules: Rules, start: Balance, m: Market, lane: LaneId, begin: nat, work: seq<(AccountId, Nonce)>,
    now: BlockNumber, confirmer: AccountId)
    requires MarketInv(config, m) && Solvent(config, start, m) && config.deliverRatio + config.confirmRatio <= MILLION
    requires IsRange(work, begin) && begin + |work| <= U64_MAX + 1
    requires forall k | 0 <= k < |work| :: IsOpen(m.orders, (lane, work[k].1))
    ensures var marked := AllMarked(config, m, lane, begin, begin + |work|, now);
            var n := MarketAfter(config, rules, m, lane, begin, work, now, confirmer);
            && SoundOrders(config, marked.orders) && Covers(marked, lane, work)
            && MarketInv(config, n) && Solvent(config, start, n) && n.orders == marked.orders
  {
    hide AllMarked, Paid, OpenSum, WorkSum, SoundOrders, Recomputed, Current, Total, Fee, Hold, Locked, Collateral;
    var marked := AllMarked(config, m, lane, begin, begin + |work|, now);
    var n := MarketAfter(config, rules, m, lane, begin, work, now, confirmer);
    MarkingIs(config, m, lane, begin, begin + |work|, now);
    MarkingKeepsSound(config, m, lane, begin, begin + |work|, now);
    forall who
      ensures WorkSum(marked.orders, lane, work, Hold(who)) <= Collateral(marked, who)
      ensures Locked(n.orders, who) <= Collateral(n, who)
    {
      RangeIsCovered(config, m, lane, begin, work, now, who);
      PaidFairly(config, rules, marked, lane, work, confirmer, who);
    }
    PaidFairly(config, rules, marked, lane, work, confirmer, config.fund);
    MarkingReleases(config, m, lane, begin, work, now, Fee());
    FeeIgnoresTime();
    WorkSumSame(config, m, lane, begin, begin + |work|, work, now, Fee());
    assert EnrolmentMatches(config, n) by { SameBookSameEnrolment(config, m, marked, n); }
  }

  lemma SameBookSameEnrolment(config: Config, m: Market, marked: Market, n: Market)
    requires EnrolmentMatches(config, m) && marked.info == m.info && marked.relayers == m.relayers && SameBook(marked, n)
    requires At(n.locks, config.fund) == At(m.locks, config.fund)
    ensures EnrolmentMatches(config, n)
  {
    forall id | id in n.info ensures n.info[id].id == id {
      assert SameOffer(marked.info[id], n.info[id]);
    }
  }

  /** After the slashes of a confirmed range, the fund can pay all of its rewards. */
  lemma FundCanPay(
    config: Config, rules: Rules, start: Balance, m: Market, lane: LaneId, begin: nat, work: seq<(AccountId, Nonce)>,
    now: BlockNumber, confirmer: AccountId)
    requires MarketInv(config, m) && Solvent(config, start, m) && config.deliverRatio + config.confirmRatio <= MILLION
    requires IsRange(work, begin) && begin + |work| <= U64_MAX + 1
    requires forall k | 0 <= k < |work| :: IsOpen(m.orders, (lane, work[k].1))
    ensures var marked := AllMarked(config, m, lane, begin, begin + |work|, now);
            var payout := Rewards(config, rules, marked, lane, work, confirmer);
            At(payout.market.locks, config.fund) + ItemsTotal(payout.items) <= At(payout.market.balances, config.fund)
  {
    hide AllMarked, OpenSum, WorkSum, SoundOrders, Recomputed, Rewards, Fee, Total, ItemsTotal, SameBook, Covered;
    var marked := AllMarked(config, m, lane, begin, begin + |work|, now);
    MarkingIs(config, m, lane, begin, begin + |work|, now);
    MarkingKeepsSound(config, m, lane, begin, begin + |work|, now);
    MarkingReleases(config, m, lane, begin, work, now, Fee());
    FeeIgnoresTime();
    WorkSumSame(config, m, lane, begin, begin + |work|, work, now, Fee());
    RewardsKeep(config, rules, marked, lane, work, confirmer, config.fund);
    RewardsConserve(config, rules, marked, lane, work, confirmer);
  }

  /** After marking, collateral covers both the orders still open and the ones about to be settled. */
  lemma RangeIsCovered(
    config: Config, m: Market, lane: LaneId, begin: nat, work: seq<(AccountId, Nonce)>, now: BlockNumber, who: AccountId)
    requires MarketInv(config, m) && IsRange(work, begin) && begin + |work| <= U64_MAX + 1
    requires forall k | 0 <= k < |work| :: IsOpen(m.orders, (lane, work[k].1))
    ensures var marked := AllMarked(config, m, lane, begin, begin + |work|, now);
            Locked(marked.orders, who) + WorkSum(marked.orders, lane, work, Hold(who)) <= Collateral(marked, who)
  {
    hide AllMarked, OpenSum, WorkSum, SoundOrders, Recomputed, Hold;
    MarkingIs(config, m, lane, begin, begin + |work|, now);
    MarkingReleases(config, m, lane, begin, work, now, Hold(who));
    HoldIgnoresTime(who);
    WorkSumSame(config, m, lane, begin, begin + |work|, work, now, Hold(who));
    assert Locked(m.orders, who) <= Collateral(m, who);
  }

  lemma ConfirmKeeps(
    s: Setup, start: Balance, w: World, lane: LaneId, laneData: InboundLaneData, declared: UnrewardedRelayersState,
    confirmer: AccountId, rules: Rules)
    requires ValidSetup(s) && Inv(s, start, w) && LaneOf(w.lanes, lane).latestGenerated < U64_MAX
    ensures Inv(s, start, ConfirmedBy(s, w, lane, laneData, declared, confirmer, rules))
  {
    hide MarketInv, Solvent, MarketAfter, AllMarked, SettledIn, Work, SettledInv, LanesInv;
    hide OutboundLane.DeliveryProofResult, OutboundLane.AfterDeliveryProof;
    var d := LaneOf(w.lanes, lane);
    if OutboundLane.Confirmable(d, laneData, declared) {
      var messages := OutboundLane.DeliveryProofIsExact(d, laneData, declared);
      ConfirmedRangeIsWork(d, laneData, declared);
      var work := Work(laneData.relayers, messages.begin, messages.end);
      LaneIn(s, w.lanes, lane);
      forall k | 0 <= k < |work| ensures IsOpen(w.market.orders, (lane, work[k].1)) {
        assert OpenIffPending(w.market.orders, w.lanes, (lane, work[k].1));
      }
      PayingKeepsInv(s.config, rules, start, w.market, lane, messages.begin, work, w.now, confirmer);
      assert Current(s.config, w.market) by { InvIsCurrent(s.config, w.market); }
      MarkingIs(s.config, w.market, lane, messages.begin, messages.begin + |work|, w.now);
      SettledInIs(w.market.orders, lane, messages.begin, work);
      var next := ConfirmedBy(s, w, lane, laneData, declared, confirmer, rules);
      ConfirmKeepsOrders(w.market.orders, next.market.orders, w.lanes, lane, messages.end, w.now);
      ConfirmKeepsSettled(w.settled, next.settled, w.lanes, lane, messages.end);
      OneLaneChanges(s, w.lanes, lane, d.(latestReceived := messages.end));
    }
  }

  lemma InvIsCurrent(config: Config, m: Market)
    requires MarketInv(config, m)
    ensures Current(config, m)
  {}

  lemma ConfirmKeepsOrders(
    orders: map<Key, Order>, marked: map<Key, Order>, lanes: Lanes, lane: LaneId, end: Nonce, now: BlockNumber)
    requires OrdersInv(orders, lanes) && LaneOf(lanes, lane).latestReceived <= end <= LaneOf(lanes, lane).latestGenerated
    requires marked.Keys == orders.Keys
    requires forall k | k in orders ::
               marked[k] == if InRange(k, lane, LaneOf(lanes, lane).latestReceived + 1, end + 1) then MarkedOrder(orders[k], now) else orders[k]
    ensures OrdersInv(marked, lanes[lane := LaneOf(lanes, lane).(latestReceived := end)])
  {
    var lanes' := lanes[lane := LaneOf(lanes, lane).(latestReceived := end)];
    forall k: Key ensures OpenIffPending(marked, lanes', k) {
      assert OpenIffPending(orders, lanes, k);
    }
    forall k: Key | k in marked ensures WasSent(lanes', k) {
      assert k in orders && WasSent(lanes, k);
    }
  }

  lemma ConfirmKeepsSettled(before: multiset<Key>, settled: multiset<Key>, lanes: Lanes, lane: LaneId, end: Nonce)
    requires SettledInv(before, lanes) && LaneOf(lanes, lane).latestReceived <= end
    requires forall k: Key ::
               settled[k] == before[k] + if InRange(k, lane, LaneOf(lanes, lane).latestReceived + 1, end + 1) then 1 else 0
    ensures SettledInv(settled, lanes[lane := LaneOf(lanes, lane).(latestReceived := end)])
  {
    var lanes' := lanes[lane := LaneOf(lanes, lane).(latestReceived := end)];
    forall k: Key ensures SettledOnce(settled, lanes', k) {
      assert SettledOnce(before, lanes, k);
    }
  }

  // ---------------------------------------------------------------- claims about all runs

  /** The fund never falls below its starting balance plus the fees of all unconfirmed orders. */
  lemma RunsKeepFundSolvent(s: Setup, balances: map<AccountId, Balance>, actions: seq<Action>)
    requires ValidSetup(s)
    ensures var m := Run(s, balances, actions).market;
            At(balances, s.config.fund) + OpenSum(m.orders, Fee()) <= At(m.balances, s.config.fund)
  {
    hide Run;
    var w := Run(s, balances, actions);
  }

  /** Every sent message has an order until it is confirmed, and is paid for exactly once, on its confirmation. */
  lemma RunsSettleEachMessageOnce(s: Setup, balances: map<AccountId, Balance>, actions: seq<Action>, lane: LaneId, nonce: Nonce)
    requires ValidSetup(s)
    ensures var w := Run(s, balances, actions);
            var d := LaneOf(w.lanes, lane);
            && w.settled[(lane, nonce)] == (if 1 <= nonce <= d.latestReceived then 1 else 0)
            && (IsOpen(w.market.orders, (lane, nonce)) <==> d.latestReceived < nonce <= d.latestGenerated)
  {
    hide Run;
    var w := Run(s, balances, actions);
    var key: Key := (lane, nonce);
    assert SettledOnce(w.settled, w.lanes, key);
    assert OpenIffPending(w.market.orders, w.lanes, key);
  }

  /** After the end of a block, exactly the sent and unconfirmed messages have an order. */
  lemma RunsForgetConfirmedOrders(s: Setup, balances: map<AccountId, Balance>, actions: seq<Action>, lane: LaneId, nonce: Nonce)
    requires ValidSetup(s)
    ensures var w := Run(s, balances, actions + [NextBlock]);
            (lane, nonce) in w.market.orders <==> LaneOf(w.lanes, lane).latestReceived < nonce <= LaneOf(w.lanes, lane).latestGenerated
  {
    assert (actions + [NextBlock])[..|actions|] == actions;
    var before, w := Run(s, balances, actions), Run(s, balances, actions + [NextBlock]);
    hide Run, MarketInv;
    OnlyOpenOrdersStay(before.market, (lane, nonce));
    assert OpenIffPending(before.market.orders, before.lanes, (lane, nonce));
  }

  /** Every relayer's recorded and locked collateral covers all of its unconfirmed orders. */
  lemma RunsCoverCollateral(s: Setup, balances: map<AccountId, Balance>, actions: seq<Action>, who: AccountId)
    requires ValidSetup(s)
    ensures var m := Run(s, balances, actions).market;
            && Locked(m.orders, who) <= Collateral(m, who)
            && (who in m.relayers ==> At(m.locks, who) == Collateral(m, who))
  {
    hide Run, Locked, Current, SoundOrders;
    var w := Run(s, balances, actions);
    assert MarketInv(s.config, w.market);
    assert Locked(w.market.orders, who) <= Collateral(w.market, who);
  }

  /** The cached assigned relayers are always what recomputing gives: different relayers, cheapest first, each able
      to take one more order; the market fee is the N-th lowest fee on offer. */
  lemma RunsKeepAssignedRelayers(s: Setup, balances: map<AccountId, Balance>, actions: seq<Action>)
    requires ValidSetup(s)
    ensures var m := Run(s, balances, actions).market;
            var offers := Qualified(s.config, m, m.relayers);
            && m.best == Recomputed(s.config, m)
            && (m.best.Some? ==> DistinctRelayers(m.best.value) && Ordered(m.best.value))
            && (MarketFee(m).Some? <==> 1 <= m.assignedNumber <= |offers|)
            && (MarketFee(m).Some? ==>
                 CountBelow(offers, MarketFee(m).value) < m.assignedNumber <= CountBelow(offers, MarketFee(m).value + 1))
  {
    hide Run, Locked, SoundOrders, Recomputed, Qualified, CountBelow;
    var m := Run(s, balances, actions).market;
    assert MarketInv(s.config, m);
    MarketFeeExistsIff(s.config, m);
    if MarketFee(m).Some? { MarketFeeIsNthLowest(s.config, m); }
    if m.best.Some? { BestAre(s.config, m); }
  }

  /** The `j`-th slash for the `i`-th message of `work` finds the order's whole collateral still on record. */
  ghost predicate SlashIsCovered(
    config: Config, rules: Rules, m: Market, lane: LaneId, work: seq<(AccountId, Nonce)>, confirmer: AccountId, i: nat, j: nat)
  {
    i < |work| && (lane, work[i].1) in m.orders ==>
      var before := Rewards(config, rules, m, lane, work[..i], confirmer).market;
      var o := m.orders[(lane, work[i].1)];
      var (ids, amount) := Fined(config, rules, before, o);
      j < |ids| ==> Collateral(SlashEach(config, rules, before, o, ids[..j], amount).market, ids[j]) >= o.collateral
  }

  lemma CoveredSlashes(
    config: Config, rules: Rules, m: Market, lane: LaneId, work: seq<(AccountId, Nonce)>, confirmer: AccountId, i: nat, j: nat)
    requires SoundOrders(config, m.orders) && Covers(m, lane, work)
    ensures SlashIsCovered(config, rules, m, lane, work, confirmer, i, j)
  {
    hide Rewards, SlashEach, Fined, Collateral;
    if i < |work| && (lane, work[i].1) in m.orders {
      SlashNeverSaturates(config, rules, m, lane, work, confirmer, i, j);
    }
  }

  /** Whatever confirmation comes next, no slash of it ever asks a relayer for more collateral than is on record. */
  lemma RunsNeverSaturateSlashes(
    s: Setup, balances: map<AccountId, Balance>, actions: seq<Action>, lane: LaneId, laneData: InboundLaneData,
    declared: UnrewardedRelayersState, confirmer: AccountId, rules: Rules, i: nat, j: nat)
    requires ValidSetup(s)
    ensures (var w := Run(s, balances, actions);
             LaneIn(s, w.lanes, lane);
             SlashesCovered(s, w, lane, laneData, declared, confirmer, rules, i, j))
  {
    hide Run, SlashesCovered, MarketInv, Solvent, OrdersInv, SettledInv;
    var w := Run(s, balances, actions);
    LaneIn(s, w.lanes, lane);
    ConfirmationIsCovered(s, At(balances, s.config.fund), w, lane, laneData, declared, confirmer, rules, i, j);
  }

  ghost predicate SlashesCovered(
    s: Setup, w: World, lane: LaneId, laneData: InboundLaneData, declared: UnrewardedRelayersState, confirmer: AccountId,
    rules: Rules, i: nat, j: nat)
    requires LaneOf(w.lanes, lane).latestGenerated < U64_MAX
  {
    var d := LaneOf(w.lanes, lane);
    OutboundLane.Confirmable(d, laneData, declared) ==>
      var work := Work(laneData.relayers, d.latestReceived + 1, LastDelivered(laneData));
      ConfirmedRangeIsWork(d, laneData, declared);
      var marked := AllMarked(s.config, w.market, lane, d.latestReceived + 1, d.latestReceived + 1 + |work|, w.now);
      SlashIsCovered(s.config, rules, marked, lane, work, confirmer, i, j)
  }

  lemma ConfirmationIsCovered(
    s: Setup, start: Balance, w: World, lane: LaneId, laneData: InboundLaneData, declared: UnrewardedRelayersState,
    confirmer: AccountId, rules: Rules, i: nat, j: nat)
    requires ValidSetup(s) && Inv(s, start, w) && LaneOf(w.lanes, lane).latestGenerated < U64_MAX
    ensures SlashesCovered(s, w, lane, laneData, declared, confirmer, rules, i, j)
  {
    hide MarketInv, Solvent, AllMarked, Work, SlashIsCovered, SettledInv, MarketAfter, SoundOrders, Covers;
    var d := LaneOf(w.lanes, lane);
    if OutboundLane.Confirmable(d, laneData, declared) {
      ConfirmedRangeIsWork(d, laneData, declared);
      var work := Work(laneData.relayers, d.latestReceived + 1, LastDelivered(laneData));
      forall k | 0 <= k < |work| ensures IsOpen(w.market.orders, (lane, work[k].1)) {
        assert OpenIffPending(w.market.orders, w.lanes, (lane, work[k].1));
      }
      PayingKeepsInv(s.config, rules, start, w.market, lane, d.latestReceived + 1, work, w.now, confirmer);
      var marked := AllMarked(s.config, w.market, lane, d.latestReceived + 1, d.latestReceived + 1 + |work|, w.now);
      CoveredSlashes(s.config, rules, marked, lane, work, confirmer, i, j);
    }
  }

  /** In every run, when a confirmation is accepted and the currency accepts its payments, every account but the fund
      ends up with exactly what it had after the slashes and what the rewards of the range owe it. */
  lemma RunsPayEverybody(
    s: Setup, balances: map<AccountId, Balance>, actions: seq<Action>, lane: LaneId, laneData: InboundLaneData,
    declared: UnrewardedRelayersState, confirmer: AccountId, rules: Rules, who: AccountId)
    requires ValidSetup(s) && Accepting(rules) && who != s.config.fund
    requires OutboundLane.Confirmable(LaneOf(Run(s, balances, actions).lanes, lane), laneData, declared)
    ensures (var w := Run(s, balances, actions);
             var d := LaneOf(w.lanes, lane);
             LaneIn(s, w.lanes, lane);
             ConfirmedRangeIsWork(d, laneData, declared);
             var work := Work(laneData.relayers, d.latestReceived + 1, LastDelivered(laneData));
             var marked := AllMarked(s.config, w.market, lane, d.latestReceived + 1, d.latestReceived + 1 + |work|, w.now);
             var slashed := Rewards(s.config, rules, marked, lane, work, confirmer);
             At(ConfirmedBy(s, w, lane, laneData, declared, confirmer, rules).market.balances, who)
             == At(slashed.market.balances, who) + Owed(s.config.treasury, slashed.items, who))
  {
    hide Run, MarketInv, Solvent, AllMarked, Work, SettledInv, Rewards, Owed, Accepting, SoundOrders, ItemsTotal, Paid;
    hide OutboundLane.DeliveryProofResult, OutboundLane.AfterDeliveryProof;
    var w := Run(s, balances, actions);
    var d := LaneOf(w.lanes, lane);
    LaneIn(s, w.lanes, lane);
    ConfirmedRangeIsWork(d, laneData, declared);
    var messages := OutboundLane.DeliveryProofIsExact(d, laneData, declared);
    var work := Work(laneData.relayers, d.latestReceived + 1, LastDelivered(laneData));
    forall k | 0 <= k < |work| ensures IsOpen(w.market.orders, (lane, work[k].1)) {
      assert OpenIffPending(w.market.orders, w.lanes, (lane, work[k].1));
    }
    FundCanPay(s.config, rules, At(balances, s.config.fund), w.market, lane, d.latestReceived + 1, work, w.now, confirmer);
    var marked := AllMarked(s.config, w.market, lane, d.latestReceived + 1, d.latestReceived + 1 + |work|, w.now);
    EverybodyIsPaid(s.config, rules, marked, lane, work, confirmer, who);
  }

  /** At most one message more than the limit is ever in flight. */
  lemma RunsBoundPending(s: Setup, balances: map<AccountId, Balance>, actions: seq<Action>, lane: LaneId)
    requires ValidSetup(s)
    ensures var d := LaneOf(Run(s, balances, actions).lanes, lane);
            d.latestReceived <= d.latestGenerated <= d.latestReceived + s.maxPending + 1
  {
    hide Run;
    assert LaneInv(s, LaneOf(Run(s, balances, actions).lanes, lane));
  }

  /** The verifier accepts exactly messages that pay at least the market fee, on a lane not over its limit. */
  lemma SendAcceptedIff(s: Setup, m: Market, d: OutboundLaneData, fee: Balance)
    requires LaneInv(s, d)
    ensures Objection(s, m, d, fee).None?
            <==> d.latestGenerated <= d.latestReceived + s.maxPending && MarketFee(m).Some? && MarketFee(m).value <= fee
  {}

  /** The limit itself is not kept: the verifier compares the messages in flight before the new one is counted. */
  lemma PendingLimitCanBeExceeded() returns (s: Setup, m: Market, d: OutboundLaneData)
    ensures LaneInv(s, d) && Objection(s, m, d, 5) == None
    ensures d.latestGenerated + 1 - d.latestReceived > s.maxPending
  {
    s := Setup(Config(1, 1, 1, 0, 0, 0, 0, 0, 0), 1);
    m := Genesis(map[]).market.(best := Some([Relayer(1, 10, 5)]));
    d := OutboundLaneData(1, 2, 3);
  }

  /** A message that passes keeps the limit exactly when the lane was still below it. */
  lemma PendingLimitIsKeptIff(s: Setup, w: World, lane: LaneId, submitter: Option<AccountId>, fee: Balance, rules: Rules)
    requires LaneInv(s, LaneOf(w.lanes, lane)) && LaneOf(w.lanes, lane).latestGenerated + 1 < U64_MAX
    requires Objection(s, w.market, LaneOf(w.lanes, lane), fee).None?
    requires FeePaid(rules, w.market, submitter, fee, s.config.fund).Some?
    ensures var d, after := LaneOf(w.lanes, lane), LaneOf(Sent(s, w, lane, submitter, fee, rules).lanes, lane);
            after.latestGenerated - after.latestReceived <= s.maxPending <==> d.latestGenerated - d.latestReceived < s.maxPending
  {
    hide Accepted, FeePaid;
  }

  // ---------------------------------------------------------------- procedures

  /** A message is taken for at least the market fee, which goes to the fund before the order is created. */
  method SendMessage(
    s: Setup, p: Pallet, outbound: OutboundLane.Lane, lane: LaneId, submitter: Option<AccountId>, fee: Balance,
    payload: OutboundLane.Payload, pruneLimit: Nonce, now: BlockNumber, rules: Rules)
    returns (nonce: Option<Nonce>)
    requires s.config == p.config
    requires outbound.data.latestReceived <= outbound.data.latestGenerated < U64_MAX
    modifies p, outbound
    ensures nonce.Some? <==> Objection(s, old(p.View()), old(outbound.data), fee).None?
                             && FeePaid(rules, old(p.View()), submitter, fee, s.config.fund).Some?
    ensures nonce.None? ==> p.View() == old(p.View()) && outbound.data == old(outbound.data)
                            && outbound.messages == old(outbound.messages)
    ensures nonce.Some? ==>
              && nonce.value == old(outbound.data.latestGenerated) + 1
              && p.View() == Accepted(s.config, FeePaid(rules, old(p.View()), submitter, fee, s.config.fund).value, (lane, nonce.value), now)
              && outbound.data == old(outbound.data).(
                   latestGenerated := nonce.value,
                   oldestUnpruned := old(outbound.data.oldestUnpruned) + OutboundLane.PruneCount(old(outbound.data), pruneLimit))
              && var stored := old(outbound.messages)[nonce.value := payload];
                 outbound.messages == map n | n in stored && !(old(outbound.data.oldestUnpruned) <= n < outbound.data.oldestUnpruned)
                                        :: stored[n]
  {
    hide Accepted, Transferred;
    if Objection(s, p.View(), outbound.data, fee).Some? {
      return None;
    }
    var paid := PayDeliveryAndDispatchFee(p, rules, submitter, fee);
    if !paid {
      return None;
    }
    var sent := outbound.SendMessage(payload);
    p.OnMessageAccepted(lane, sent, now);
    var pruned := outbound.PruneMessages(pruneLimit);
    nonce := Some(sent);
  }

  /** A delivery proof that confirms messages marks their orders and then pays for them, each once. */
  method ReceiveDeliveryProof(
    p: Pallet, outbound: OutboundLane.Lane, lane: LaneId, laneData: InboundLaneData, declared: UnrewardedRelayersState,
    confirmer: AccountId, now: BlockNumber, rules: Rules)
    returns (result: Result<Option<DeliveredMessages>, OutboundLane.ProofError>)
    requires outbound.data.latestGenerated < U64_MAX
    modifies p, outbound`data
    ensures result == OutboundLane.DeliveryProofResult(old(outbound.data), laneData, declared)
    ensures outbound.data == OutboundLane.AfterDeliveryProof(old(outbound.data), laneData, declared)
    ensures result.Ok? && result.value.Some? ==>
              var work := Work(laneData.relayers, result.value.value.begin, result.value.value.end);
              && result.value.value.begin + |work| == result.value.value.end + 1
              && p.View() == MarketAfter(p.config, rules, old(p.View()), lane, result.value.value.begin, work, now, confirmer)
    ensures !(result.Ok? && result.value.Some?) ==> p.View() == old(p.View())
  {
    hide OutboundLane.DeliveryProofResult, OutboundLane.AfterDeliveryProof, Work, Paid, AllMarked;
    ghost var d := outbound.data;
    result := outbound.ReceiveDeliveryProof(laneData, declared);
    if result.Ok? && result.value.Some? {
      OutboundLane.DeliveryProofConfirmsIff(d, laneData, declared);
      ghost var exact := OutboundLane.DeliveryProofIsExact(d, laneData, declared);
      ConfirmedRangeIsWork(d, laneData, declared);
      var messages := result.value.value;
      p.OnMessagesDelivered(lane, messages.begin, messages.end, now);
      PayRelayersRewards(p, rules, lane, laneData.relayers, confirmer, messages.begin, messages.end);
    }
  }
}
