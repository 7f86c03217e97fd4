/** The market of relayers: enrolment, collateral and the cached assigned relayers (modules/fee-market/src/lib.rs). */
module FeeMarket {
  import opened Wrappers
  import opened MessagePrimitives
  import opened FeeMarketTypes
  import opened MapSum
  import opened Permill

  datatype Config = Config(
    minimumFee: Balance, collateralPerOrder: Balance, slot: BlockNumber,
    dutyRatio: Ratio, deliverRatio: Ratio, confirmRatio: Ratio, slashRatio: Ratio,
    fund: AccountId, treasury: AccountId)

  type Key = (LaneId, Nonce)

  /** The pallet's storage, with the free balances and the one lock per account that it uses. */
  datatype Market = Market(
    relayers: seq<AccountId>, info: map<AccountId, Relayer>, best: Option<seq<Relayer>>, assignedNumber: nat,
    orders: map<Key, Order>, slashProtect: Option<Balance>, balances: map<AccountId, Balance>, locks: map<AccountId, Balance>)

  datatype MarketError =
    | InsufficientBalance
    | AlreadyEnrolled
    | NotEnrolled
    | CollateralTooLow
    | NewCollateralShouldLargerThanBefore
    | NewCollateralShouldLessThanBefore
    | StillHasOrdersNotConfirmed
    | RelayFeeTooLow
    | OccupiedRelayer

  const U32_MAX: int := 0xFFFF_FFFF

  function At(m: map<AccountId, Balance>, who: AccountId): Balance {
    if who in m then m[who] else 0
  }

  function Collateral(m: Market, who: AccountId): Balance {
    if who in m.info then m.info[who].collateral else 0
  }

  // ---------------------------------------------------------------- open orders

  predicate Open(o: Order, who: AccountId) {
    o.confirmTime.None? && Assigned(o, who)
  }

  /** What each unconfirmed order contributes to a sum of `g`. */
  function OpenShare(orders: map<Key, Order>, g: Order -> nat): Key -> nat {
    (k: Key) => if k in orders && orders[k].confirmTime.None? then g(orders[k]) else 0
  }

  ghost function OpenSum(orders: map<Key, Order>, g: Order -> nat): nat {
    Sum(orders.Keys, OpenShare(orders, g))
  }

  /** Collateral that an order holds back from `who`. */
  function Hold(who: AccountId): Order -> nat {
    (o: Order) => if Assigned(o, who) then o.collateral else 0
  }

  /** Collateral held back from `who` by all unconfirmed orders assigned to it. */
  ghost function Locked(orders: map<Key, Order>, who: AccountId): nat {
    OpenSum(orders, Hold(who))
  }

  predicate Occupied(orders: map<Key, Order>, who: AccountId) {
    exists k :: k in orders && Open(orders[k], who)
  }

  function OrderCapacity(config: Config, collateral: Balance): nat {
    if config.collateralPerOrder == 0 then 0 else Min(collateral / config.collateralPerOrder, U32_MAX)
  }

  ghost function UsableCapacity(config: Config, m: Market, who: AccountId): nat {
    OrderCapacity(config, Max(0, Collateral(m, who) - Locked(m.orders, who)))
  }

  // ---------------------------------------------------------------- the assigned relayers

  /** Enrolled relayers that can take one more order, in enrolment order. */
  ghost function Qualified(config: Config, m: Market, ids: seq<AccountId>): seq<Relayer> {
    if ids == [] then []
    else
      var last := ids[|ids| - 1];
      Qualified(config, m, ids[..|ids| - 1])
      + if last in m.info && UsableCapacity(config, m, m.info[last].id) >= 1 then [m.info[last]] else []
  }

  /** The assigned relayers computed from scratch. */
  ghost function Recomputed(config: Config, m: Market): Option<seq<Relayer>> {
    var relayers := Qualified(config, m, m.relayers);
    SortIsOrdered(relayers);
    assert |multiset(StableSort(relayers))| == |multiset(relayers)|;
    if |relayers| >= m.assignedNumber then Some(StableSort(relayers)[..m.assignedNumber]) else None
  }

  ghost function Refreshed(config: Config, m: Market): Market {
    m.(best := Recomputed(config, m))
  }

  function MarketFee(m: Market): Option<Balance> {
    if m.best.Some? && m.best.value != [] then Some(m.best.value[|m.best.value| - 1].fee) else None
  }

  /** What recomputing depends on. */
  lemma {:induction false} QualifiedSame(config: Config, m: Market, n: Market, ids: seq<AccountId>)
    requires m.info == n.info
    requires forall who :: Locked(m.orders, who) == Locked(n.orders, who)
    ensures Qualified(config, m, ids) == Qualified(config, n, ids)
  {
    if ids != [] { QualifiedSame(config, m, n, ids[..|ids| - 1]); }
  }

  lemma RecomputedSame(config: Config, m: Market, n: Market)
    requires m.relayers == n.relayers && m.info == n.info && m.assignedNumber == n.assignedNumber
    requires forall who :: Locked(m.orders, who) == Locked(n.orders, who)
    ensures Recomputed(config, m) == Recomputed(config, n)
  {
    QualifiedSame(config, m, n, m.relayers);
  }

  // ---------------------------------------------------------------- calls

  datatype Call =
    | EnrollAndLockCollateral(who: AccountId, collateral: Balance, relayFee: Option<Balance>)
    | IncreaseLockedCollateral(who: AccountId, collateral: Balance)
    | DecreaseLockedCollateral(who: AccountId, collateral: Balance)
    | UpdateRelayFee(who: AccountId, fee: Balance)
    | CancelEnrollment(who: AccountId)
    | SetSlashProtect(value: Balance)
    | SetAssignedRelayersNumber(number: nat)

  function WithCollateral(m: Market, who: AccountId, collateral: Balance): Market {
    m.(locks := m.locks[who := collateral],
       info := if who in m.info then m.info[who := m.info[who].(collateral := collateral)] else m.info)
  }

  function Without(ids: seq<AccountId>, who: AccountId): seq<AccountId> {
    if ids == [] then []
    else (if ids[0] == who then [] else [ids[0]]) + Without(ids[1..], who)
  }

  function Retained(relayers: seq<Relayer>, who: AccountId): seq<Relayer> {
    if relayers == [] then []
    else (if relayers[0].id == who then [] else [relayers[0]]) + Retained(relayers[1..], who)
  }

  ghost function Called(config: Config, m: Market, call: Call): Result<Market, MarketError> {
    match call
    case EnrollAndLockCollateral(who, collateral, fee) =>
      if who in m.relayers then Err(AlreadyEnrolled)
      else if At(m.balances, who) < collateral then Err(InsufficientBalance)
      else if OrderCapacity(config, collateral) == 0 then Err(CollateralTooLow)
      else if fee.Some? && fee.value < config.minimumFee then Err(RelayFeeTooLow)
      else
        var relayer := Relayer(who, collateral, if fee.Some? then fee.value else config.minimumFee);
        Ok(Refreshed(config, m.(locks := m.locks[who := collateral], info := m.info[who := relayer],
                                relayers := m.relayers + [who])))
    case IncreaseLockedCollateral(who, collateral) =>
      if who !in m.relayers then Err(NotEnrolled)
      else if At(m.balances, who) < collateral then Err(InsufficientBalance)
      else if collateral <= Collateral(m, who) then Err(NewCollateralShouldLargerThanBefore)
      else Ok(Refreshed(config, WithCollateral(m, who, collateral)))
    case DecreaseLockedCollateral(who, collateral) =>
      if who !in m.relayers then Err(NotEnrolled)
      else if At(m.balances, who) < collateral then Err(InsufficientBalance)
      else if collateral >= Collateral(m, who) then Err(NewCollateralShouldLessThanBefore)
      else if collateral < Locked(m.orders, who) then Err(StillHasOrdersNotConfirmed)
      else Ok(Refreshed(config, WithCollateral(m, who, collateral)))
    case UpdateRelayFee(who, fee) =>
      if who !in m.relayers then Err(NotEnrolled)
      else if fee < config.minimumFee then Err(RelayFeeTooLow)
      else Ok(Refreshed(config, if who in m.info then m.(info := m.info[who := m.info[who].(fee := fee)]) else m))
    case CancelEnrollment(who) =>
      if who !in m.relayers then Err(NotEnrolled)
      else if Occupied(m.orders, who) then Err(OccupiedRelayer)
      else Ok(Refreshed(config, m.(locks := m.locks - {who}, info := m.info - {who}, relayers := Without(m.relayers, who))))
    case SetSlashProtect(value) => Ok(m.(slashProtect := Some(value)))
    case SetAssignedRelayersNumber(number) => Ok(Refreshed(config, m.(assignedNumber := number)))
  }

  // ---------------------------------------------------------------- order callbacks

  ghost function Accepted(config: Config, m: Market, key: Key, now: BlockNumber): Market {
    if m.best.None? then m
    else Refreshed(config, m.(orders := m.orders[key :=
           NewOrder(key.0, key.1, now, config.collateralPerOrder, m.best.value, config.slot)]))
  }

  ghost function Marked(config: Config, m: Market, key: Key, now: BlockNumber): Market {
    if key in m.orders && m.orders[key].confirmTime.None?
    then Refreshed(config, m.(orders := m.orders[key := m.orders[key].(confirmTime := Some(now))]))
    else m
  }

  /** Orders of the nonces `begin..end`, the end excluded, marked as confirmed. */
  ghost function AllMarked(config: Config, m: Market, lane: LaneId, begin: nat, end: nat, now: BlockNumber): Market
    requires begin <= end <= U64_MAX + 1
    decreases end
  {
    if begin == end then m
    else Marked(config, AllMarked(config, m, lane, begin, end - 1, now), (lane, end - 1), now)
  }

  function Finalized(m: Market): Market {
    m.(orders := map k | k in m.orders && m.orders[k].confirmTime.None? :: m.orders[k])
  }

  // ---------------------------------------------------------------- the pallet

  class Pallet {
    const config: Config
    var relayers: seq<AccountId>
    var relayersMap: map<AccountId, Relayer>
    var assignedRelayers: Option<seq<Relayer>>
    var assignedRelayersNumber: nat
    var orders: map<Key, Order>
    var collateralSlashProtect: Option<Balance>
    var balances: map<AccountId, Balance>
    var locks: map<AccountId, Balance>

    function View(): Market
      reads this
    {
      Market(relayers, relayersMap, assignedRelayers, assignedRelayersNumber, orders, collateralSlashProtect, balances, locks)
    }

    constructor (config: Config, balances: map<AccountId, Balance>)
      ensures this.config == config
      ensures View() == Market([], map[], None, 3, map[], None, balances, map[])
    {
      this.config, this.balances := config, balances;
      relayers, relayersMap, assignedRelayers, assignedRelayersNumber := [], map[], None, 3;
      orders, collateralSlashProtect, locks := map[], None, map[];
    }

    /** Number of open orders of `who` and the collateral they hold back, in any iteration order of the storage. */
    method OccupiedBy(who: AccountId) returns (result: Option<(nat, Balance)>)
      ensures result.Some? <==> Occupied(orders, who)
      ensures result.Some? ==> result.value.1 == Locked(orders, who)
      ensures result.None? ==> Locked(orders, who) == 0
    {
      var count, locked: Balance := 0, 0;
      var left := orders.Keys;
      while left != {}
        invariant left <= orders.Keys && count >= 0
        invariant locked + Sum(left, OpenShare(orders, Hold(who))) == Locked(orders, who)
        invariant count == 0 ==> locked == 0 && forall k | k in orders.Keys - left :: !Open(orders[k], who)
        invariant count > 0 ==> Occupied(orders, who)
        decreases left
      {
        var k :| k in left;
        SumPick(left, OpenShare(orders, Hold(who)), k);
        if Open(orders[k], who) {
          count := count + 1;
          locked := locked + orders[k].collateral;
        }
        left := left - {k};
      }
      result := if count == 0 then None else Some((count, locked));
    }

    method UsableOrderCapacity(who: AccountId) returns (capacity: nat)
      ensures capacity == UsableCapacity(config, View(), who)
    {
      var collateral := if who in relayersMap then relayersMap[who].collateral else 0;
      var occupied := OccupiedBy(who);
      if occupied.Some? {
        var free: Balance := Max(0, collateral - occupied.value.1);
        return OrderCapacity(config, free);
      }
      capacity := OrderCapacity(config, collateral);
    }

    /** Recompute the assigned relayers from scratch. */
    method UpdateMarket()
      modifies this`assignedRelayers
      ensures View() == Refreshed(config, old(View()))
    {
      var candidates: seq<Relayer> := [];
      for i := 0 to |relayers|
        invariant candidates == Qualified(config, old(View()), relayers[..i])
        invariant View() == old(View())
      {
        assert relayers[..i + 1][..i] == relayers[..i];
        if relayers[i] in relayersMap {
          var capacity := UsableOrderCapacity(relayersMap[relayers[i]].id);
          if capacity >= 1 {
            candidates := candidates + [relayersMap[relayers[i]]];
          }
        }
      }
      assert relayers[..|relayers|] == relayers;
      if |candidates| >= assignedRelayersNumber {
        SortIsOrdered(candidates);
        assert |multiset(StableSort(candidates))| == |multiset(candidates)|;
        assignedRelayers := Some(StableSort(candidates)[..assignedRelayersNumber]);
      } else {
        assignedRelayers := None;
      }
    }

    method SetCollateral(who: AccountId, collateral: Balance)
      modifies this`locks, this`relayersMap
      ensures View() == WithCollateral(old(View()), who, collateral)
    {
      locks := locks[who := collateral];
      if who in relayersMap {
        relayersMap := relayersMap[who := relayersMap[who].(collateral := collateral)];
      }
    }

    method Enroll(who: AccountId, collateral: Balance, relayFee: Option<Balance>) returns (error: Option<MarketError>)
      modifies this
      ensures match Called(config, old(View()), EnrollAndLockCollateral(who, collateral, relayFee))
              case Err(e) => error == Some(e) && View() == old(View())
              case Ok(next) => error == None && View() == next
    {
      if who in relayers {
        return Some(AlreadyEnrolled);
      }
      if At(balances, who) < collateral {
        return Some(InsufficientBalance);
      }
      if OrderCapacity(config, collateral) == 0 {
        return Some(CollateralTooLow);
      }
      if relayFee.Some? && relayFee.value < config.minimumFee {
        return Some(RelayFeeTooLow);
      }
      var fee := if relayFee.Some? then relayFee.value else config.minimumFee;
      locks := locks[who := collateral];
      relayersMap := relayersMap[who := Relayer(who, collateral, fee)];
      relayers := relayers + [who];
      UpdateMarket();
      error := None;
    }

    method Increase(who: AccountId, collateral: Balance) returns (error: Option<MarketError>)
      modifies this
      ensures match Called(config, old(View()), IncreaseLockedCollateral(who, collateral))
              case Err(e) => error == Some(e) && View() == old(View())
              case Ok(next) => error == None && View() == next
    {
      if who !in relayers {
        return Some(NotEnrolled);
      }
      if At(balances, who) < collateral {
        return Some(InsufficientBalance);
      }
      if collateral <= Collateral(View(), who) {
        return Some(NewCollateralShouldLargerThanBefore);
      }
      SetCollateral(who, collateral);
      UpdateMarket();
      error := None;
    }

    method Decrease(who: AccountId, collateral: Balance) returns (error: Option<MarketError>)
      modifies this
      ensures match Called(config, old(View()), DecreaseLockedCollateral(who, collateral))
              case Err(e) => error == Some(e) && View() == old(View())
              case Ok(next) => error == None && View() == next
    {
      if who !in relayers {
        return Some(NotEnrolled);
      }
      if At(balances, who) < collateral {
        return Some(InsufficientBalance);
      }
      if collateral >= Collateral(View(), who) {
        return Some(NewCollateralShouldLessThanBefore);
      }
      var occupied := OccupiedBy(who);
      if occupied.Some? && collateral < occupied.value.1 {
        return Some(StillHasOrdersNotConfirmed);
      }
      locks := locks - {who};
      SetCollateral(who, collateral);
      assert locks == (old(locks) - {who})[who := collateral] == old(locks)[who := collateral];
      UpdateMarket();
      error := None;
    }

    method UpdateFee(who: AccountId, fee: Balance) returns (error: Option<MarketError>)
      modifies this
      ensures match Called(config, old(View()), UpdateRelayFee(who, fee))
              case Err(e) => error == Some(e) && View() == old(View())
              case Ok(next) => error == None && View() == next
    {
      if who !in relayers {
        return Some(NotEnrolled);
      }
      if fee < config.minimumFee {
        return Some(RelayFeeTooLow);
      }
      if who in relayersMap {
        relayersMap := relayersMap[who := relayersMap[who].(fee := fee)];
      }
      UpdateMarket();
      error := None;
    }

    method Cancel(who: AccountId) returns (error: Option<MarketError>)
      modifies this
      ensures match Called(config, old(View()), CancelEnrollment(who))
              case Err(e) => error == Some(e) && View() == old(View())
              case Ok(next) => error == None && View() == next
    {
      if who !in relayers {
        return Some(NotEnrolled);
      }
      var occupied := OccupiedBy(who);
      if occupied.Some? {
        return Some(OccupiedRelayer);
      }
      locks := locks - {who};
      relayersMap := relayersMap - {who};
      relayers := Without(relayers, who);
      if assignedRelayers.Some? {
        assignedRelayers := Some(Retained(assignedRelayers.value, who));
      }
      RecomputedSame(config, View(), View().(best := old(assignedRelayers)));
      UpdateMarket();
      error := None;
    }

    method SetSlashProtection(value: Balance)
      modifies this`collateralSlashProtect
      ensures Called(config, old(View()), SetSlashProtect(value)) == Ok(View())
    {
      collateralSlashProtect := Some(value);
    }

    method SetAssignedNumber(number: nat)
      modifies this
      ensures Called(config, old(View()), SetAssignedRelayersNumber(number)) == Ok(View())
    {
      assignedRelayersNumber := number;
      UpdateMarket();
    }

    /** A message was accepted: its order goes to the assigned relayers, and the market is recomputed. */
    method OnMessageAccepted(lane: LaneId, nonce: Nonce, now: BlockNumber)
      modifies this
      ensures View() == Accepted(config, old(View()), (lane, nonce), now)
    {
      if assignedRelayers.Some? {
        var order := CreateOrder(lane, nonce, now, config.collateralPerOrder, assignedRelayers.value, config.slot);
        orders := orders[(lane, nonce) := order];
        UpdateMarket();
      }
    }

    /** Messages `begin..=end` were delivered: their orders get their confirmation time. */
    method OnMessagesDelivered(lane: LaneId, begin: Nonce, end: Nonce, now: BlockNumber)
      requires begin <= end
      modifies this
      ensures View() == AllMarked(config, old(View()), lane, begin, end + 1, now)
    {
      var next: nat := begin;
      while next <= end
        invariant begin <= next <= end + 1
        invariant View() == AllMarked(config, old(View()), lane, begin, next, now)
        decreases end + 1 - next
      {
        var nonce: Nonce := next;
        if (lane, nonce) in orders && orders[(lane, nonce)].confirmTime.None? {
          orders := orders[(lane, nonce) := orders[(lane, nonce)].(confirmTime := Some(now))];
          UpdateMarket();
        }
        next := next + 1;
      }
    }

    /** Confirmed orders have been paid for; they are dropped. */
    method OnFinalize()
      modifies this`orders
      ensures View() == Finalized(old(View()))
    {
      var left := orders.Keys;
      while left != {}
        invariant left <= old(orders).Keys
        invariant orders == map k | k in old(orders) && (k in left || old(orders)[k].confirmTime.None?) :: old(orders)[k]
        decreases left
      {
        var k :| k in left;
        if orders[k].confirmTime.Some? {
          orders := orders - {k};
        }
        left := left - {k};
      }
    }
  }
}
