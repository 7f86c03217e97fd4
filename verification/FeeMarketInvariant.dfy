/** What every call and callback of the fee market keeps. */
module FeeMarketInvariant {
  import opened Wrappers
  import opened MessagePrimitives
  import opened FeeMarketTypes
  import opened FeeMarket
  import opened FeeMarketPayment
  import opened FeeMarketSolvency
  import opened MapSum
  import opened Permill

  /** The enrolled relayers and their records agree, and the fund is not one of them. */
  ghost predicate EnrolmentMatches(config: Config, m: Market) {
    && Distinct(m.relayers)
    && (forall id :: id in m.relayers <==> id in m.info)
    && (forall id | id in m.info :: m.info[id].id == id && id != config.fund)
    && At(m.locks, config.fund) == 0
  }

  /** Every relayer's collateral covers what its unconfirmed orders hold back. */
  ghost predicate Covered(m: Market) {
    forall who :: Locked(m.orders, who) <= Collateral(m, who)
  }

  ghost predicate MarketInv(config: Config, m: Market) {
    && EnrolmentMatches(config, m)
    && LocksMatch(m)
    && Current(config, m)
    && SoundOrders(config, m.orders)
    && Covered(m)
  }

  // ---------------------------------------------------------------- sums over unconfirmed orders

  predicate IsOpen(orders: map<Key, Order>, k: Key) {
    k in orders && orders[k].confirmTime.None?
  }

  /** A new order adds its share. */
  lemma OpenSumAdds(orders: map<Key, Order>, k: Key, o: Order, g: Order -> nat)
    requires k !in orders && o.confirmTime.None?
    ensures OpenSum(orders[k := o], g) == OpenSum(orders, g) + g(o)
  {
    var more := orders[k := o];
    SumPick(more.Keys, OpenShare(more, g), k);
    assert more.Keys - {k} == orders.Keys;
    SumSame(orders.Keys, OpenShare(more, g), OpenShare(orders, g));
  }

  /** A confirmed order gives its share back. */
  lemma OpenSumReleases(orders: map<Key, Order>, k: Key, now: BlockNumber, g: Order -> nat)
    requires IsOpen(orders, k)
    ensures OpenSum(orders, g) == OpenSum(orders[k := orders[k].(confirmTime := Some(now))], g) + g(orders[k])
  {
    var fewer := orders[k := orders[k].(confirmTime := Some(now))];
    assert fewer.Keys == orders.Keys;
    SumChange(orders.Keys, OpenShare(orders, g), OpenShare(fewer, g), k);
  }

  /** Dropping confirmed orders changes no sum over unconfirmed ones. */
  lemma OpenSumIgnoresConfirmed(m: Market, g: Order -> nat)
    ensures OpenSum(Finalized(m).orders, g) == OpenSum(m.orders, g)
  {
    var left := Finalized(m).orders;
    SumSame(left.Keys, OpenShare(left, g), OpenShare(m.orders, g));
    SumWithout(m.orders.Keys, left.Keys, OpenShare(m.orders, g));
  }

  /** `g` depends on the terms of an order, not on its confirmation. */
  ghost predicate IgnoresTime(g: Order -> nat) {
    forall o: Order, t :: g(o.(confirmTime := t)) == g(o)
  }

  lemma FeeIgnoresTime()
    ensures IgnoresTime(Fee())
  {}

  lemma HoldIgnoresTime(who: AccountId)
    ensures IgnoresTime(Hold(who))
  {
    forall o: Order, t ensures Hold(who)(o.(confirmTime := t)) == Hold(who)(o) {
      var p := o.(confirmTime := t);
      if Assigned(o, who) {
        var i :| 0 <= i < |o.assignedRelayers| && o.assignedRelayers[i].id == who;
        assert p.assignedRelayers[i].id == who;
      }
      if Assigned(p, who) {
        var i :| 0 <= i < |p.assignedRelayers| && p.assignedRelayers[i].id == who;
        assert o.assignedRelayers[i].id == who;
      }
    }
  }

  // ---------------------------------------------------------------- calls

  function Caller(call: Call): Option<AccountId> {
    match call
    case EnrollAndLockCollateral(who, _, _) => Some(who)
    case IncreaseLockedCollateral(who, _) => Some(who)
    case DecreaseLockedCollateral(who, _) => Some(who)
    case UpdateRelayFee(who, _) => Some(who)
    case CancelEnrollment(who) => Some(who)
    case SetSlashProtect(_) => None
    case SetAssignedRelayersNumber(_) => None
  }

  lemma {:induction false} WithoutIs(ids: seq<AccountId>, who: AccountId)
    ensures forall id :: id in Without(ids, who) <==> id in ids && id != who
    ensures Distinct(ids) ==> Distinct(Without(ids, who))
  {
    if ids != [] {
      var rest := ids[1..];
      WithoutIs(rest, who);
      assert ids == [ids[0]] + rest;
      if Distinct(ids) {
        assert Distinct(rest);
        assert ids[0] !in rest;
      }
    }
  }

  lemma UnoccupiedHoldsNothing(orders: map<Key, Order>, who: AccountId)
    requires !Occupied(orders, who)
    ensures Locked(orders, who) == 0
  {
    SumWithout(orders.Keys, {}, OpenShare(orders, Hold(who)));
  }

  lemma RefreshKeepsInv(config: Config, m: Market)
    requires EnrolmentMatches(config, m) && LocksMatch(m) && SoundOrders(config, m.orders) && Covered(m)
    ensures MarketInv(config, Refreshed(config, m))
  {
    hide Recomputed, Locked, SoundOrders;
    RefreshIsCurrent(config, m);
  }

  lemma CollateralKeepsInv(config: Config, m: Market, who: AccountId, collateral: Balance)
    requires MarketInv(config, m) && Locked(m.orders, who) <= collateral && who in m.relayers
    ensures MarketInv(config, Refreshed(config, WithCollateral(m, who, collateral)))
  {
    hide Recomputed, Locked, SoundOrders;
    RefreshKeepsInv(config, WithCollateral(m, who, collateral));
  }

  lemma EnrolKeepsInv(config: Config, m: Market, who: AccountId, collateral: Balance, fee: Balance)
    requires MarketInv(config, m) && who !in m.relayers && who != config.fund
    ensures MarketInv(config, Refreshed(config, m.(locks := m.locks[who := collateral], info := m.info[who := Relayer(who, collateral, fee)],
                                                   relayers := m.relayers + [who])))
  {
    hide Recomputed, Locked, SoundOrders;
    assert Locked(m.orders, who) <= Collateral(m, who);
    RefreshKeepsInv(config, m.(locks := m.locks[who := collateral], info := m.info[who := Relayer(who, collateral, fee)],
                               relayers := m.relayers + [who]));
  }

  lemma CancelKeepsInv(config: Config, m: Market, who: AccountId)
    requires MarketInv(config, m) && !Occupied(m.orders, who)
    ensures MarketInv(config, Refreshed(config, m.(locks := m.locks - {who}, info := m.info - {who}, relayers := Without(m.relayers, who))))
  {
    hide Recomputed, Locked, SoundOrders, Occupied, Without;
    WithoutIs(m.relayers, who);
    UnoccupiedHoldsNothing(m.orders, who);
    RefreshKeepsInv(config, m.(locks := m.locks - {who}, info := m.info - {who}, relayers := Without(m.relayers, who)));
  }

  lemma FeeChangeKeepsInv(config: Config, m: Market, who: AccountId, fee: Balance)
    requires MarketInv(config, m) && who in m.info
    ensures MarketInv(config, Refreshed(config, m.(info := m.info[who := m.info[who].(fee := fee)])))
  {
    hide Recomputed, Locked, SoundOrders;
    RefreshKeepsInv(config, m.(info := m.info[who := m.info[who].(fee := fee)]));
  }

  /** Every call keeps the market sound, and touches neither orders nor balances. */
  lemma CallKeepsInv(config: Config, m: Market, call: Call)
    requires MarketInv(config, m) && Caller(call) != Some(config.fund)
    requires Called(config, m, call).Ok?
    ensures var n := Called(config, m, call).value;
            MarketInv(config, n) && n.orders == m.orders && n.balances == m.balances
  {
    hide Recomputed, Locked, SoundOrders, Occupied, OrderCapacity, Without, Distinct;
    match call {
      case EnrollAndLockCollateral(who, collateral, fee) =>
        EnrolKeepsInv(config, m, who, collateral, if fee.Some? then fee.value else config.minimumFee);
      case IncreaseLockedCollateral(who, collateral) =>
        assert Locked(m.orders, who) <= Collateral(m, who);
        CollateralKeepsInv(config, m, who, collateral);
      case DecreaseLockedCollateral(who, collateral) =>
        CollateralKeepsInv(config, m, who, collateral);
      case UpdateRelayFee(who, fee) =>
        FeeChangeKeepsInv(config, m, who, fee);
      case CancelEnrollment(who) =>
        CancelKeepsInv(config, m, who);
      case SetSlashProtect(value) =>
        RecomputedSame(config, m, m.(slashProtect := Some(value)));
      case SetAssignedRelayersNumber(number) =>
        RefreshKeepsInv(config, m.(assignedNumber := number));
    }
  }

  /** When a call is refused, call by call. */
  ghost predicate Allowed(config: Config, m: Market, call: Call) {
    match call
    case EnrollAndLockCollateral(who, collateral, fee) =>
      && who !in m.relayers && collateral <= At(m.balances, who)
      && 0 < config.collateralPerOrder <= collateral
      && (fee.Some? ==> config.minimumFee <= fee.value)
    case IncreaseLockedCollateral(who, collateral) =>
      who in m.relayers && Collateral(m, who) < collateral <= At(m.balances, who)
    case DecreaseLockedCollateral(who, collateral) =>
      who in m.relayers && Locked(m.orders, who) <= collateral < Collateral(m, who) && collateral <= At(m.balances, who)
    case UpdateRelayFee(who, fee) => who in m.relayers && config.minimumFee <= fee
    case CancelEnrollment(who) => who in m.relayers && forall k | k in m.orders :: !Open(m.orders[k], who)
    case SetSlashProtect(_) => true
    case SetAssignedRelayersNumber(_) => true
  }

  /** Nothing but the assigned relayers and the record, lock and enrolment of `who` differ. */
  ghost predicate OnlyConcerns(m: Market, n: Market, who: AccountId) {
    && n.orders == m.orders && n.balances == m.balances && n.slashProtect == m.slashProtect && n.assignedNumber == m.assignedNumber
    && (forall id | id != who :: (id in n.info <==> id in m.info) && (id in m.info ==> n.info[id] == m.info[id]))
    && (forall id | id != who :: (id in n.locks <==> id in m.locks) && (id in m.locks ==> n.locks[id] == m.locks[id]))
    && (forall id | id != who :: id in n.relayers <==> id in m.relayers)
  }

  /** `who` is enrolled with this record, and the record's collateral is locked. */
  predicate EnrolledAs(m: Market, who: AccountId, collateral: Balance, fee: Balance) {
    && who in m.relayers && who in m.info && m.info[who] == Relayer(who, collateral, fee)
    && who in m.locks && m.locks[who] == collateral
  }

  /** What an allowed call changes. */
  ghost predicate Effect(config: Config, m: Market, n: Market, call: Call) {
    match call
    case EnrollAndLockCollateral(who, collateral, fee) =>
      && OnlyConcerns(m, n, who) && n.relayers == m.relayers + [who]
      && EnrolledAs(n, who, collateral, if fee.Some? then fee.value else config.minimumFee)
    case IncreaseLockedCollateral(who, collateral) =>
      OnlyConcerns(m, n, who) && n.relayers == m.relayers && who in m.info && EnrolledAs(n, who, collateral, m.info[who].fee)
    case DecreaseLockedCollateral(who, collateral) =>
      OnlyConcerns(m, n, who) && n.relayers == m.relayers && who in m.info && EnrolledAs(n, who, collateral, m.info[who].fee)
    case UpdateRelayFee(who, fee) =>
      OnlyConcerns(m, n, who) && n.relayers == m.relayers && who in m.info && EnrolledAs(n, who, m.info[who].collateral, fee)
    case CancelEnrollment(who) =>
      OnlyConcerns(m, n, who) && who !in n.relayers && who !in n.info && who !in n.locks
    case SetSlashProtect(value) => n == m.(slashProtect := Some(value))
    case SetAssignedRelayersNumber(number) => n == m.(assignedNumber := number, best := n.best)
  }

  /** Each call is refused exactly when it is not allowed. */
  lemma CallAllowedIff(config: Config, m: Market, call: Call)
    ensures Called(config, m, call).Ok? <==> Allowed(config, m, call)
  {
    hide Recomputed, Locked, Without, OrderCapacity, WithCollateral, Refreshed;
    if call.EnrollAndLockCollateral? { CapacityIsSome(config, call.collateral); }
  }

  /** A call that is not refused has exactly its effect. */
  lemma CallHasEffect(config: Config, m: Market, call: Call)
    requires EnrolmentMatches(config, m) && LocksMatch(m) && Called(config, m, call).Ok?
    ensures Effect(config, m, Called(config, m, call).value, call)
  {
    hide Recomputed, Locked, Without, Distinct, OrderCapacity, Occupied, OnlyConcerns;
    match call {
      case EnrollAndLockCollateral(who, collateral, fee) =>
        EnrolHasEffect(config, m, who, collateral, if fee.Some? then fee.value else config.minimumFee);
      case IncreaseLockedCollateral(who, collateral) => CollateralHasEffect(config, m, who, collateral);
      case DecreaseLockedCollateral(who, collateral) => CollateralHasEffect(config, m, who, collateral);
      case UpdateRelayFee(who, fee) => FeeHasEffect(config, m, who, fee);
      case CancelEnrollment(who) => CancelHasEffect(config, m, who);
      case SetSlashProtect(_) =>
      case SetAssignedRelayersNumber(_) =>
    }
  }

  lemma EnrolHasEffect(config: Config, m: Market, who: AccountId, collateral: Balance, fee: Balance)
    ensures var n := Refreshed(config, m.(locks := m.locks[who := collateral], info := m.info[who := Relayer(who, collateral, fee)],
                                          relayers := m.relayers + [who]));
            OnlyConcerns(m, n, who) && n.relayers == m.relayers + [who] && EnrolledAs(n, who, collateral, fee)
  {
    hide Recomputed;
  }

  lemma FeeHasEffect(config: Config, m: Market, who: AccountId, fee: Balance)
    requires EnrolmentMatches(config, m) && LocksMatch(m) && who in m.info
    ensures var n := Refreshed(config, m.(info := m.info[who := m.info[who].(fee := fee)]));
            OnlyConcerns(m, n, who) && n.relayers == m.relayers && EnrolledAs(n, who, m.info[who].collateral, fee)
  {
    hide Recomputed, Distinct;
  }

  lemma CancelHasEffect(config: Config, m: Market, who: AccountId)
    ensures var n := Refreshed(config, m.(locks := m.locks - {who}, info := m.info - {who}, relayers := Without(m.relayers, who)));
            OnlyConcerns(m, n, who) && who !in n.relayers && who !in n.info && who !in n.locks
  {
    hide Recomputed, Without;
    WithoutIs(m.relayers, who);
  }

  lemma CollateralHasEffect(config: Config, m: Market, who: AccountId, collateral: Balance)
    requires EnrolmentMatches(config, m) && who in m.relayers
    ensures var n := Refreshed(config, WithCollateral(m, who, collateral));
            && OnlyConcerns(m, n, who) && n.relayers == m.relayers && who in m.info
            && EnrolledAs(n, who, collateral, m.info[who].fee)
  {
    hide Recomputed, Distinct;
  }

  lemma CapacityIsSome(config: Config, collateral: Balance)
    ensures OrderCapacity(config, collateral) == 0 <==> config.collateralPerOrder == 0 || collateral < config.collateralPerOrder
  {
    if config.collateralPerOrder > 0 { CapacityIs(config, collateral, 1); }
  }

  // ---------------------------------------------------------------- the assigned relayers

  /** `r` is enrolled as recorded and can take one more order. */
  ghost predicate CanTakeOrder(config: Config, m: Market, r: Relayer) {
    && r.id in m.info && m.info[r.id] == r
    && config.collateralPerOrder > 0 && Locked(m.orders, r.id) + config.collateralPerOrder <= m.info[r.id].collateral
  }

  predicate DistinctRelayers(rs: seq<Relayer>) {
    forall i, j | 0 <= i < j < |rs| :: rs[i].id != rs[j].id
  }

  lemma {:induction false} QualifiedAre(config: Config, m: Market, ids: seq<AccountId>)
    requires Distinct(ids) && forall id | id in m.info :: m.info[id].id == id
    ensures var rs := Qualified(config, m, ids);
            && DistinctRelayers(rs)
            && forall r :: r in rs <==> r.id in ids && CanTakeOrder(config, m, r)
  {
    hide UsableCapacity;
    if ids != [] {
      var fewer, last := ids[..|ids| - 1], ids[|ids| - 1];
      QualifiedAre(config, m, fewer);
      CapacityMeansFree(config, m, last);
      assert ids == fewer + [last];
      assert last !in fewer;
    }
  }

  lemma {:induction false} SortKeepsDistinct(rs: seq<Relayer>)
    requires DistinctRelayers(rs)
    ensures DistinctRelayers(StableSort(rs))
    ensures forall r :: r in StableSort(rs) <==> r in rs
  {
    if rs != [] {
      SortKeepsDistinct(rs[1..]);
      InsertKeepsDistinct(rs[0], StableSort(rs[1..]));
      assert rs == [rs[0]] + rs[1..];
    }
  }

  lemma {:induction false} InsertKeepsDistinct(r: Relayer, sorted: seq<Relayer>)
    requires DistinctRelayers(sorted) && forall s | s in sorted :: s.id != r.id
    ensures DistinctRelayers(InsertSorted(r, sorted))
    ensures forall s :: s in InsertSorted(r, sorted) <==> s == r || s in sorted
  {
    if sorted != [] && Precedes(sorted[0], r) {
      var rest := sorted[1..];
      assert sorted == [sorted[0]] + rest;
      InsertKeepsDistinct(r, rest);
      var inserted := InsertSorted(r, rest);
      assert sorted[0].id != r.id;
      forall j | 0 <= j < |inserted| ensures inserted[j].id != sorted[0].id {
        assert inserted[j] == r || inserted[j] in rest;
      }
    }
  }

  /** The assigned relayers are different enrolled relayers, cheapest first, each able to take one more order. */
  lemma BestAre(config: Config, m: Market)
    requires EnrolmentMatches(config, m) && Current(config, m) && m.best.Some?
    ensures var best := m.best.value;
            && |best| == m.assignedNumber && DistinctRelayers(best) && Ordered(best)
            && forall r | r in best :: r.id in m.relayers && CanTakeOrder(config, m, r)
  {
    hide CanTakeOrder;
    var offers := Qualified(config, m, m.relayers);
    QualifiedAre(config, m, m.relayers);
    SortKeepsDistinct(offers);
    SortIsOrdered(offers);
  }

  /** Nobody left out would have gone before any of the assigned relayers. */
  lemma BestArePreferred(config: Config, m: Market, r: Relayer, b: Relayer)
    requires EnrolmentMatches(config, m) && Current(config, m) && m.best.Some?
    requires r.id in m.relayers && CanTakeOrder(config, m, r) && r !in m.best.value && b in m.best.value
    ensures NotAfter(b, r)
  {
    hide CanTakeOrder, StableSort;
    var offers := Qualified(config, m, m.relayers);
    QualifiedAre(config, m, m.relayers);
    SortKeepsDistinct(offers);
    SortIsOrdered(offers);
    LeftOutGoLast(StableSort(offers), m.assignedNumber);
  }

  lemma LeftOutGoLast(sorted: seq<Relayer>, n: nat)
    requires Ordered(sorted) && n <= |sorted|
    ensures forall r, b | r in sorted && r !in sorted[..n] && b in sorted[..n] :: NotAfter(b, r)
  {
    forall r, b | r in sorted && r !in sorted[..n] && b in sorted[..n] ensures NotAfter(b, r) {
      var i :| 0 <= i < |sorted| && sorted[i] == r;
      var j :| 0 <= j < n && sorted[..n][j] == b;
    }
  }

  /** The capacity is the number of whole orders that a collateral covers, capped at 32 bits. */
  lemma CapacityIs(config: Config, collateral: Balance, n: nat)
    requires config.collateralPerOrder > 0
    ensures n <= U32_MAX ==> (OrderCapacity(config, collateral) >= n <==> n * config.collateralPerOrder <= collateral)
    ensures OrderCapacity(config, collateral) <= U32_MAX
  {
    var q, r := collateral / config.collateralPerOrder, collateral % config.collateralPerOrder;
    assert collateral == q * config.collateralPerOrder + r;
    if n <= q { MoreTimes(n, q, config.collateralPerOrder); }
    if q + 1 <= n { MoreTimes(q + 1, n, config.collateralPerOrder); }
  }

  /** A relayer can take an order exactly when a whole order's collateral is free. */
  lemma CapacityMeansFree(config: Config, m: Market, who: AccountId)
    ensures UsableCapacity(config, m, who) >= 1
            <==> config.collateralPerOrder > 0 && Locked(m.orders, who) + config.collateralPerOrder <= Collateral(m, who)
  {
    hide Locked;
    if config.collateralPerOrder > 0 {
      CapacityIs(config, Max(0, Collateral(m, who) - Locked(m.orders, who)), 1);
    }
  }

  // ---------------------------------------------------------------- the market fee

  function CountBelow(rs: seq<Relayer>, fee: Balance): nat {
    if rs == [] then 0 else (if rs[0].fee < fee then 1 else 0) + CountBelow(rs[1..], fee)
  }

  lemma {:induction false} SortKeepsCount(rs: seq<Relayer>, fee: Balance)
    ensures CountBelow(StableSort(rs), fee) == CountBelow(rs, fee)
  {
    if rs != [] {
      SortKeepsCount(rs[1..], fee);
      InsertCounts(rs[0], StableSort(rs[1..]), fee);
    }
  }

  lemma {:induction false} InsertCounts(r: Relayer, sorted: seq<Relayer>, fee: Balance)
    ensures CountBelow(InsertSorted(r, sorted), fee) == CountBelow(sorted, fee) + if r.fee < fee then 1 else 0
  {
    if sorted != [] && Precedes(sorted[0], r) {
      InsertCounts(r, sorted[1..], fee);
      assert InsertSorted(r, sorted)[1..] == InsertSorted(r, sorted[1..]);
    } else {
      assert InsertSorted(r, sorted)[1..] == sorted;
    }
  }

  lemma {:induction false} CountIn(sorted: seq<Relayer>, fee: Balance, k: nat)
    requires k <= |sorted|
    ensures (forall i | 0 <= i < k :: sorted[i].fee < fee) ==> CountBelow(sorted, fee) >= k
    ensures (forall i | k <= i < |sorted| :: sorted[i].fee >= fee) ==> CountBelow(sorted, fee) <= k
  {
    if sorted != [] {
      var rest := sorted[1..];
      assert forall i | 0 <= i < |rest| :: rest[i] == sorted[i + 1];
      CountIn(rest, fee, if k == 0 then 0 else k - 1);
    }
  }

  lemma MarketFeeIsLast(config: Config, m: Market)
    requires Current(config, m) && MarketFee(m).Some?
    ensures var sorted := StableSort(Qualified(config, m, m.relayers));
            0 < m.assignedNumber <= |sorted| && MarketFee(m).value == sorted[m.assignedNumber - 1].fee
  {
    hide Qualified, StableSort;
    var offers := Qualified(config, m, m.relayers);
    SortIsOrdered(offers);
    assert |multiset(StableSort(offers))| == |multiset(offers)|;
  }

  /** The market fee is the N-th lowest fee among the relayers that can take an order: fewer than N of them are
      cheaper, and at least N are not dearer. */
  lemma MarketFeeIsNthLowest(config: Config, m: Market)
    requires Current(config, m) && MarketFee(m).Some?
    ensures var offers := Qualified(config, m, m.relayers);
            CountBelow(offers, MarketFee(m).value) < m.assignedNumber <= CountBelow(offers, MarketFee(m).value + 1)
  {
    hide Qualified, CountBelow, StableSort, Recomputed, Current;
    var offers, fee, n := Qualified(config, m, m.relayers), MarketFee(m).value, m.assignedNumber;
    var sorted := StableSort(offers);
    SortIsOrdered(offers);
    MarketFeeIsLast(config, m);
    forall i | 0 <= i < n ensures sorted[i].fee < fee + 1 {
      if i < n - 1 { assert NotAfter(sorted[i], sorted[n - 1]); }
    }
    forall i | n - 1 <= i < |sorted| ensures sorted[i].fee >= fee {
      if n - 1 < i { assert NotAfter(sorted[n - 1], sorted[i]); }
    }
    CountIn(sorted, fee + 1, n);
    CountIn(sorted, fee, n - 1);
    SortKeepsCount(offers, fee);
    SortKeepsCount(offers, fee + 1);
  }

  /** There is a market fee exactly when relayers are asked for and enough of them can take an order. */
  lemma MarketFeeExistsIff(config: Config, m: Market)
    requires Current(config, m)
    ensures MarketFee(m).Some? <==> 1 <= m.assignedNumber <= |Qualified(config, m, m.relayers)|
  {
    hide Qualified;
    var offers := Qualified(config, m, m.relayers);
    SortIsOrdered(offers);
    assert |multiset(StableSort(offers))| == |multiset(offers)|;
  }

  // ---------------------------------------------------------------- accepted messages

  /** The order for a message sent now. */
  function OrderFor(config: Config, m: Market, key: Key, now: BlockNumber): Order
    requires m.best.Some?
  {
    NewOrder(key.0, key.1, now, config.collateralPerOrder, m.best.value, config.slot)
  }

  lemma NewOrderIs(config: Config, m: Market, key: Key, now: BlockNumber)
    requires EnrolmentMatches(config, m) && Current(config, m) && MarketFee(m).Some?
    ensures var o := OrderFor(config, m, key, now);
            && SoundOrder(config, o) && o.confirmTime.None? && OrderFee(o) == MarketFee(m).value
            && forall who | Assigned(o, who) :: Locked(m.orders, who) + o.collateral <= Collateral(m, who)
  {
    hide Locked, Collateral, Recomputed, CanTakeOrder, EnrolmentMatches, Slots;
    var o, best := OrderFor(config, m, key, now), m.best.value;
    BestAre(config, m);
    SlotsTile(best, now, config.slot);
    var slots := o.assignedRelayers;
    forall i, j | 0 <= i < j < |slots| ensures slots[i].id != slots[j].id && slots[i].fee <= slots[j].fee {
      assert best[i].id != best[j].id && NotAfter(best[i], best[j]);
    }
    forall who | Assigned(o, who) ensures Locked(m.orders, who) + o.collateral <= Collateral(m, who) && who != config.fund {
      var i :| 0 <= i < |slots| && slots[i].id == who;
      assert best[i] in best;
      TakersAreEnrolled(config, m, best[i]);
    }
  }

  lemma TakersAreEnrolled(config: Config, m: Market, r: Relayer)
    requires EnrolmentMatches(config, m) && CanTakeOrder(config, m, r)
    ensures r.id != config.fund && Locked(m.orders, r.id) + config.collateralPerOrder <= Collateral(m, r.id)
  {
    hide Locked;
  }

  /** The order of an accepted message: one slot per relayer assigned before, in order, the first one starting now. */
  lemma AcceptedOrderIs(config: Config, m: Market, key: Key, now: BlockNumber, i: nat)
    requires m.best.Some?
    ensures var orders := Accepted(config, m, key, now).orders;
            && orders.Keys == m.orders.Keys + {key} && (forall k | k in m.orders && k != key :: orders[k] == m.orders[k])
            && orders[key].lane == key.0 && orders[key].message == key.1 && orders[key].sentTime == now
            && orders[key].confirmTime == None && orders[key].collateral == config.collateralPerOrder
            && |orders[key].assignedRelayers| == |m.best.value|
            && (i < |m.best.value| ==>
                  orders[key].assignedRelayers[i]
                  == AssignedRelayer(m.best.value[i].id, m.best.value[i].fee, now + i * config.slot, now + (i + 1) * config.slot))
  {
    hide Recomputed;
    SlotsTile(m.best.value, now, config.slot);
  }

  /** A new order keeps the market sound: its relayers had the collateral to spare. It is worth the market fee. */
  lemma AcceptedKeepsInv(config: Config, m: Market, key: Key, now: BlockNumber)
    requires MarketInv(config, m) && MarketFee(m).Some? && key !in m.orders
    ensures var n := Accepted(config, m, key, now);
            && MarketInv(config, n) && n.balances == m.balances
            && n.orders == m.orders[key := OrderFor(config, m, key, now)]
            && OpenSum(n.orders, Fee()) == OpenSum(m.orders, Fee()) + MarketFee(m).value
  {
    hide Recomputed, OpenSum, SoundOrder, OrderFee;
    var n, o := Accepted(config, m, key, now), OrderFor(config, m, key, now);
    NewOrderIs(config, m, key, now);
    OpenSumAdds(m.orders, key, o, Fee());
    forall who ensures Locked(n.orders, who) <= Collateral(n, who) {
      OpenSumAdds(m.orders, key, o, Hold(who));
      assert Locked(m.orders, who) <= Collateral(m, who);
    }
    RecomputedSame(config, n.(best := m.best), n);
  }

  /** At the end of a block exactly the unconfirmed orders stay, unchanged. */
  lemma OnlyOpenOrdersStay(m: Market, k: Key)
    ensures k in Finalized(m).orders <==> IsOpen(m.orders, k)
    ensures k in Finalized(m).orders ==> Finalized(m).orders[k] == m.orders[k]
    ensures Finalized(m) == m.(orders := Finalized(m).orders)
  {}

  /** Dropping confirmed orders keeps the market sound. */
  lemma FinalizedKeepsInv(config: Config, m: Market)
    requires MarketInv(config, m)
    ensures MarketInv(config, Finalized(m))
  {
    hide OpenSum, Recomputed, SoundOrder;
    var n := Finalized(m);
    forall who ensures Locked(n.orders, who) == Locked(m.orders, who) && Locked(n.orders, who) <= Collateral(n, who) {
      OpenSumIgnoresConfirmed(m, Hold(who));
      assert Locked(m.orders, who) <= Collateral(m, who);
    }
    RecomputedSame(config, m, n);
  }

  // ---------------------------------------------------------------- confirmed messages

  predicate InRange(k: Key, lane: LaneId, begin: nat, end: nat) {
    k.0 == lane && begin <= k.1 < end
  }

  function MarkedOrder(o: Order, now: BlockNumber): Order {
    if o.confirmTime.None? then o.(confirmTime := Some(now)) else o
  }

  /** Marking touches only the confirmation times of the range's orders, and keeps the assigned relayers up to date. */
  lemma {:induction false} MarkingIs(config: Config, m: Market, lane: LaneId, begin: nat, end: nat, now: BlockNumber)
    requires begin <= end <= U64_MAX + 1 && Current(config, m)
    ensures var n := AllMarked(config, m, lane, begin, end, now);
            && n == m.(orders := n.orders, best := n.best) && Current(config, n)
            && n.orders.Keys == m.orders.Keys
            && forall k | k in m.orders ::
                 n.orders[k] == if InRange(k, lane, begin, end) then MarkedOrder(m.orders[k], now) else m.orders[k]
    decreases end
  {
    hide Recomputed;
    if begin < end {
      MarkingIs(config, m, lane, begin, end - 1, now);
      var before, n := AllMarked(config, m, lane, begin, end - 1, now), AllMarked(config, m, lane, begin, end, now);
      RecomputedSame(config, n.(best := before.best), n);
    }
  }

  /** `work` lists the nonces from `begin` on, in order. */
  predicate IsRange(work: seq<(AccountId, Nonce)>, begin: nat) {
    forall k | 0 <= k < |work| :: work[k].1 == begin + k
  }

  /** Confirming a range releases exactly the shares of its orders. */
  lemma {:induction false} MarkingReleases(
    config: Config, m: Market, lane: LaneId, begin: nat, work: seq<(AccountId, Nonce)>, now: BlockNumber, g: Order -> nat)
    requires IsRange(work, begin) && begin + |work| <= U64_MAX + 1 && Current(config, m)
    requires forall k | 0 <= k < |work| :: IsOpen(m.orders, (lane, work[k].1))
    ensures OpenSum(m.orders, g)
            == OpenSum(AllMarked(config, m, lane, begin, begin + |work|, now).orders, g) + WorkSum(m.orders, lane, work, g)
    decreases |work|
  {
    hide OpenSum, Recomputed;
    if work != [] {
      var fewer := work[..|work| - 1];
      MarkingReleases(config, m, lane, begin, fewer, now, g);
      MarkingIs(config, m, lane, begin, begin + |fewer|, now);
      var key: Key := (lane, work[|work| - 1].1);
      var before := AllMarked(config, m, lane, begin, begin + |fewer|, now);
      assert IsOpen(m.orders, (lane, work[|work| - 1].1));
      assert before.orders[key] == m.orders[key];
      OpenSumReleases(before.orders, key, now, g);
    }
  }

  lemma {:induction false} WorkSumSame(
    config: Config, m: Market, lane: LaneId, begin: nat, end: nat, work: seq<(AccountId, Nonce)>, now: BlockNumber, g: Order -> nat)
    requires begin <= end <= U64_MAX + 1 && IgnoresTime(g) && Current(config, m)
    ensures WorkSum(AllMarked(config, m, lane, begin, end, now).orders, lane, work, g) == WorkSum(m.orders, lane, work, g)
    decreases |work|
  {
    hide AllMarked, Current;
    if work != [] {
      WorkSumSame(config, m, lane, begin, end, work[..|work| - 1], now, g);
      MarkingIs(config, m, lane, begin, end, now);
      var key: Key := (lane, work[|work| - 1].1);
      if key in m.orders {
        assert g(m.orders[key].(confirmTime := Some(now))) == g(m.orders[key]);
      }
    }
  }

  lemma MarkingKeepsSound(config: Config, m: Market, lane: LaneId, begin: nat, end: nat, now: BlockNumber)
    requires begin <= end <= U64_MAX + 1 && Current(config, m) && SoundOrders(config, m.orders)
    ensures SoundOrders(config, AllMarked(config, m, lane, begin, end, now).orders)
  {
    hide AllMarked, Current;
    MarkingIs(config, m, lane, begin, end, now);
    var n := AllMarked(config, m, lane, begin, end, now);
    forall k | k in n.orders ensures SoundOrder(config, n.orders[k]) {
      assert SoundOrder(config, m.orders[k]);
      HoldIgnoresTime(config.fund);
    }
  }
}
