/** What slashing and rewarding keep: the fund never pays out more than fees and slashes brought in,
    and nobody is asked for collateral it does not have. */
module FeeMarketSolvency {
  import opened Wrappers
  import opened MessagePrimitives
  import opened FeeMarketTypes
  import opened FeeMarket
  import opened FeeMarketPayment
  import opened MapSum
  import opened Permill
  import OutboundLane

  // ---------------------------------------------------------------- totals of account maps

  function Of(m: map<AccountId, Balance>): AccountId -> nat {
    k => At(m, k)
  }

  ghost function Total(m: map<AccountId, Balance>): nat {
    Sum(m.Keys, Of(m))
  }

  lemma TotalUpdate(m: map<AccountId, Balance>, k: AccountId, v: Balance)
    ensures Total(m[k := v]) + At(m, k) == Total(m) + v
  {
    var n := m[k := v];
    SumPick(n.Keys, Of(n), k);
    assert n.Keys - {k} == m.Keys - {k};
    SumSame(m.Keys - {k}, Of(m), Of(n));
    if k in m {
      SumPick(m.Keys, Of(m), k);
    } else {
      assert m.Keys - {k} == m.Keys;
    }
  }

  lemma PlusOneMore(a: map<AccountId, Balance>, b: map<AccountId, Balance>, k: AccountId)
    requires k in b
    ensures Plus(a, b) == Plus(a, b - {k})[k := At(a, k) + b[k]]
    ensures At(Plus(a, b - {k}), k) == At(a, k)
  {
    var fewer := Plus(a, b - {k});
    assert Plus(a, b).Keys == fewer[k := At(a, k) + b[k]].Keys;
  }

  lemma {:induction false} TotalPlus(a: map<AccountId, Balance>, b: map<AccountId, Balance>)
    ensures Total(Plus(a, b)) == Total(a) + Total(b)
    decreases |b.Keys|
  {
    hide Plus, Total;
    if b.Keys == {} {
      assert b == map[];
      PlusNothing(a);
    } else {
      var k :| k in b;
      var fewer := b - {k};
      assert fewer.Keys == b.Keys - {k};
      TotalPlus(a, fewer);
      PlusOneMore(a, b, k);
      TotalUpdate(Plus(a, fewer), k, At(a, k) + b[k]);
      assert b == fewer[k := b[k]];
      TotalUpdate(fewer, k, b[k]);
    }
  }

  lemma PlusNothing(a: map<AccountId, Balance>)
    ensures Plus(a, map[]) == a && Total(map[]) == 0
  {
    assert Plus(a, map[]).Keys == a.Keys;
  }

  lemma OneMoreGets(ids: seq<AccountId>, last: AccountId, reward: Balance)
    ensures EachGets(ids + [last], reward) == EachGets(ids, reward)[last := reward]
  {}

  lemma OneMoreTimes(n: nat, reward: Balance)
    ensures (n + 1) * reward == n * reward + reward
  {}

  lemma {:induction false} EachGetsTotal(ids: seq<AccountId>, reward: Balance)
    ensures Total(EachGets(ids, reward)) <= |ids| * reward
    ensures Distinct(ids) ==> Total(EachGets(ids, reward)) == |ids| * reward
  {
    if ids != [] {
      var fewer, last := ids[..|ids| - 1], ids[|ids| - 1];
      hide Total, EachGets;
      EachGetsTotal(fewer, reward);
      OneMoreGets(fewer, last, reward);
      assert ids == fewer + [last];
      TotalUpdate(EachGets(fewer, reward), last, reward);
      OneMoreTimes(|fewer|, reward);
    }
  }

  // ---------------------------------------------------------------- what payouts keep

  /** The parts of the record that payouts never touch. */
  predicate SameBook(m: Market, n: Market) {
    && m.relayers == n.relayers && m.assignedNumber == n.assignedNumber && m.orders == n.orders && m.slashProtect == n.slashProtect
    && m.info.Keys == n.info.Keys
    && forall id | id in m.info :: SameOffer(m.info[id], n.info[id])
  }

  predicate SameOffer(a: Relayer, b: Relayer) {
    a.id == b.id && a.fee == b.fee
  }

  ghost predicate Current(config: Config, m: Market) {
    m.best == Recomputed(config, m)
  }

  /** The lock of every relayer is the collateral on record. */
  predicate LocksMatch(m: Market) {
    forall id | id in m.info :: id in m.locks && m.locks[id] == m.info[id].collateral
  }

  /** From `m` to `n`, the fund gained exactly `collected` and no money appeared or vanished. */
  ghost predicate Keeps(config: Config, m: Market, n: Market, collected: Balance) {
    && SameBook(m, n)
    && At(n.balances, config.fund) == At(m.balances, config.fund) + collected
    && Total(n.balances) == Total(m.balances)
    && At(n.locks, config.fund) == At(m.locks, config.fund)
    && (Current(config, m) ==> Current(config, n))
    && (LocksMatch(m) ==> LocksMatch(n))
  }

  lemma KeepsNothing(config: Config, m: Market)
    ensures Keeps(config, m, m, 0)
  {}

  lemma KeepsOn(config: Config, l: Market, m: Market, n: Market, first: Balance, second: Balance)
    requires Keeps(config, l, m, first) && Keeps(config, m, n, second)
    ensures Keeps(config, l, n, first + second)
  {
    forall id | id in l.info ensures SameOffer(l.info[id], n.info[id]) {
      assert SameOffer(l.info[id], m.info[id]) && SameOffer(m.info[id], n.info[id]);
    }
  }

  lemma TransferConserves(rules: Rules, m: Market, source: AccountId, dest: AccountId, amount: Balance, keepAlive: bool)
    requires Transferred(rules, m, source, dest, amount, keepAlive).Some?
    ensures var n := Transferred(rules, m, source, dest, amount, keepAlive).value;
            && n == m.(balances := n.balances)
            && Total(n.balances) == Total(m.balances)
            && (source != dest ==> At(n.balances, dest) == At(m.balances, dest) + amount
                                   && At(n.balances, source) + amount == At(m.balances, source))
            && forall x | x != source && x != dest :: At(n.balances, x) == At(m.balances, x)
  {
    hide Total;
    if amount != 0 && source != dest {
      var less := m.balances[source := At(m.balances, source) - amount];
      TotalUpdate(m.balances, source, At(m.balances, source) - amount);
      TotalUpdate(less, dest, At(m.balances, dest) + amount);
    }
  }

  lemma SlashKeepsBook(config: Config, rules: Rules, m: Market, o: Order, who: AccountId, amount: Balance)
    ensures var n := Slashed(config, rules, m, o, who, amount).market;
            SameBook(m, n) && (LocksMatch(m) ==> LocksMatch(n)) && Current(config, n)
  {
    hide Recomputed, Transferable;
    var n := Slashed(config, rules, m, o, who, amount).market;
    RecomputedSame(config, n.(best := m.best), n);
  }

  lemma SlashMovesMoney(config: Config, rules: Rules, m: Market, o: Order, who: AccountId, amount: Balance)
    requires who != config.fund
    ensures var s := Slashed(config, rules, m, o, who, amount);
            && At(s.market.balances, config.fund) == At(m.balances, config.fund) + s.collected
            && Total(s.market.balances) == Total(m.balances)
            && At(s.market.locks, config.fund) == At(m.locks, config.fund)
            && s.collected <= Min(amount, o.collateral)
  {
    hide Recomputed, Total, Transferable;
    var unlocked := m.(locks := m.locks - {who});
    if Transferred(rules, unlocked, who, config.fund, Min(amount, o.collateral), false).Some? {
      TransferConserves(rules, unlocked, who, config.fund, Min(amount, o.collateral), false);
    }
  }

  /** A slash takes from one relayer exactly what the fund gets. */
  lemma SlashEffect(config: Config, rules: Rules, m: Market, o: Order, who: AccountId, amount: Balance)
    requires who != config.fund
    ensures var s := Slashed(config, rules, m, o, who, amount);
            && Keeps(config, m, s.market, s.collected) && s.collected <= Min(amount, o.collateral)
            && (o.collateral <= Collateral(m, who) ==> Collateral(s.market, who) + s.collected == Collateral(m, who))
            && Collateral(m, who) - o.collateral <= Collateral(s.market, who) <= Collateral(m, who)
            && forall x | x != who :: Collateral(s.market, x) == Collateral(m, x)
  {
    hide Recomputed, Total, Transferable, SameBook, LocksMatch;
    SlashKeepsBook(config, rules, m, o, who, amount);
    SlashMovesMoney(config, rules, m, o, who, amount);
  }

  /** A slash that the currency accepts and the relayer can pay, its lock being lifted first, collects exactly the smaller
      of the amount and the order's collateral; any other collects nothing and takes nothing. */
  lemma SlashCollects(config: Config, rules: Rules, m: Market, o: Order, who: AccountId, amount: Balance)
    requires who != config.fund
    ensures var s := Slashed(config, rules, m, o, who, amount);
            var least := if amount <= o.collateral then amount else o.collateral;
            var accepted := rules.transfer(Attempt(who, config.fund, least, false, m.balances, m.locks - {who}));
            if accepted && least <= At(m.balances, who)
            then s.collected == least && At(s.market.balances, who) + least == At(m.balances, who)
                 && Collateral(s.market, who) == (if least <= Collateral(m, who) then Collateral(m, who) - least else 0)
            else s.collected == 0 && s.market.balances == m.balances && Collateral(s.market, who) == Collateral(m, who)
    ensures forall x | x != who && x != config.fund ::
              At(Slashed(config, rules, m, o, who, amount).market.balances, x) == At(m.balances, x)
  {
    hide Recomputed;
  }

  lemma RefreshIsCurrent(config: Config, m: Market)
    ensures Current(config, Refreshed(config, m))
  {
    RecomputedSame(config, m, Refreshed(config, m));
  }

  lemma {:induction false} SlashEachKeeps(config: Config, rules: Rules, m: Market, o: Order, ids: seq<AccountId>, amount: Balance)
    requires config.fund !in ids
    ensures var s := SlashEach(config, rules, m, o, ids, amount); Keeps(config, m, s.market, s.collected)
    decreases |ids|
  {
    hide Slashed, Keeps;
    if ids == [] {
      KeepsNothing(config, m);
    } else {
      var fewer, last := ids[..|ids| - 1], ids[|ids| - 1];
      SlashEachKeeps(config, rules, m, o, fewer, amount);
      var before := SlashEach(config, rules, m, o, fewer, amount);
      SlashEffect(config, rules, before.market, o, last, amount);
      var s := Slashed(config, rules, before.market, o, last, amount);
      KeepsOn(config, m, before.market, s.market, before.collected, s.collected);
    }
  }

  predicate Distinct(ids: seq<AccountId>) {
    forall i, j | 0 <= i < j < |ids| :: ids[i] != ids[j]
  }

  /** Slashing costs each relayer of the list at most the order's collateral, and nobody else anything. */
  lemma {:induction false} SlashEachBound(
    config: Config, rules: Rules, m: Market, o: Order, ids: seq<AccountId>, amount: Balance, who: AccountId)
    requires config.fund !in ids && Distinct(ids)
    ensures Collateral(SlashEach(config, rules, m, o, ids, amount).market, who) + (if who in ids then o.collateral else 0)
            >= Collateral(m, who)
    ensures who !in ids ==> Collateral(SlashEach(config, rules, m, o, ids, amount).market, who) == Collateral(m, who)
    decreases |ids|
  {
    hide Slashed, Keeps;
    if ids != [] {
      var fewer, last := ids[..|ids| - 1], ids[|ids| - 1];
      SlashEachBound(config, rules, m, o, fewer, amount, who);
      SlashEffect(config, rules, SlashEach(config, rules, m, o, fewer, amount).market, o, last, amount);
      assert ids == fewer + [last];
    }
  }

  lemma IdsOf(o: Order, who: AccountId)
    ensures DistinctAssigned(o.assignedRelayers) ==> Distinct(Ids(o.assignedRelayers))
    ensures who in Ids(o.assignedRelayers) <==> Assigned(o, who)
  {
    var ids := Ids(o.assignedRelayers);
    if DistinctAssigned(o.assignedRelayers) {
      forall i, j | 0 <= i < j < |ids| ensures ids[i] != ids[j] {
        assert o.assignedRelayers[i].id != o.assignedRelayers[j].id;
      }
    }
    if Assigned(o, who) {
      var i :| 0 <= i < |o.assignedRelayers| && o.assignedRelayers[i].id == who;
      assert ids[i] == who;
    }
  }

  // ---------------------------------------------------------------- one order

  predicate SoundOrder(config: Config, o: Order) {
    && o.assignedRelayers != []
    && DistinctAssigned(o.assignedRelayers)
    && SortedFees(o.assignedRelayers)
    && !Assigned(o, config.fund)
    && o.collateral == config.collateralPerOrder
  }

  /** The relayers an order's settlement slashes, and for how much. */
  ghost function Fined(config: Config, rules: Rules, m: Market, o: Order): (seq<AccountId>, Balance) {
    var ids := Ids(o.assignedRelayers);
    match ConfirmedInfo(o)
    case Some((slot, _)) => (ids[..slot], Share(config.slashRatio, o.collateral))
    case None => (ids, LateFine(config, rules, o, m.slashProtect))
  }

  lemma SettledBy(config: Config, rules: Rules, m: Market, o: Order, deliverer: AccountId, confirmer: AccountId)
    ensures var (ids, amount) := Fined(config, rules, m, o);
            var s := SlashEach(config, rules, m, o, ids, amount);
            Settled(config, rules, m, o, deliverer, confirmer).market == s.market
            && Settled(config, rules, m, o, deliverer, confirmer).collected == s.collected
  {}

  lemma SettledKeeps(config: Config, rules: Rules, m: Market, o: Order, deliverer: AccountId, confirmer: AccountId, who: AccountId)
    requires SoundOrder(config, o)
    ensures var s := Settled(config, rules, m, o, deliverer, confirmer);
            && Keeps(config, m, s.market, s.collected)
            && Collateral(s.market, who) + Hold(who)(o) >= Collateral(m, who)
  {
    hide SlashEach, Settled, Keeps, LateFine, Share;
    SettledBy(config, rules, m, o, deliverer, confirmer);
    var (ids, amount) := Fined(config, rules, m, o);
    IdsOf(o, config.fund);
    IdsOf(o, who);
    SlashEachKeeps(config, rules, m, o, ids, amount);
    SlashEachBound(config, rules, m, o, ids, amount, who);
  }

  ghost function ItemTotal(item: RewardItem): nat {
    item.toDeliver.1 + item.toConfirm.1 + Total(item.toAssigned) + if item.toTreasury.Some? then item.toTreasury.value else 0
  }

  /** In every branch, an order's rewards stay within its fee and what its slashes really collected. */
  lemma SettlementConserves(config: Config, rules: Rules, m: Market, o: Order, deliverer: AccountId, confirmer: AccountId)
    requires SortedFees(o.assignedRelayers) && config.deliverRatio + config.confirmRatio <= MILLION
    ensures var s := Settled(config, rules, m, o, deliverer, confirmer);
            ItemTotal(s.item) <= OrderFee(o) + s.collected
  {
    hide SlashEach, Share, LateFine, DutyReward, EachGets, Total, ConfirmedInfo;
    var ids := Ids(o.assignedRelayers);
    var s := Settled(config, rules, m, o, deliverer, confirmer);
    if ConfirmedInfo(o).Some? {
      var (slot, price) := ConfirmedInfo(o).value;
      SlotPriceWithinFee(o);
      var surplus: nat := OrderFee(o) - price;
      DutyFits(config, surplus, |ids[slot..]|);
      EachGetsTotal(ids[slot..], DutyReward(config, surplus, |ids[slot..]|));
      SharesFit(config.deliverRatio, config.confirmRatio, price + s.collected);
    } else {
      EmptyTotal();
      SharesFit(config.deliverRatio, config.confirmRatio, OrderFee(o) + s.collected);
    }
  }

  lemma DutyFits(config: Config, surplus: Balance, duty: nat)
    ensures duty * DutyReward(config, surplus, duty) <= surplus
  {
    hide Share;
    ShareFits(config.dutyRatio, surplus);
    if duty > 0 {
      assert duty * (Share(config.dutyRatio, surplus) / duty) <= Share(config.dutyRatio, surplus);
    }
  }

  /** The price of an order: of the first slot that contains its confirmation, or the whole fee, that is the last
      relayer's, when no slot does. */
  ghost predicate HasPrice(o: Order, price: Balance) {
    || (exists k: nat :: ConfirmedInSlot(o, k) && price == o.assignedRelayers[k].fee)
    || ((forall k: nat :: !ConfirmedInSlot(o, k))
        && price == if o.assignedRelayers == [] then 0 else o.assignedRelayers[|o.assignedRelayers| - 1].fee)
  }

  /** Every order has one price. */
  lemma PriceIs(o: Order, price: Balance)
    ensures HasPrice(o, price) <==> price == if ConfirmedInfo(o).Some? then ConfirmedInfo(o).value.1 else OrderFee(o)
  {
    ConfirmedInfoIs(o);
    if ConfirmedInfo(o).Some? {
      assert ConfirmedInSlot(o, ConfirmedInfo(o).value.0);
    }
  }

  /** Who gets what for one order, in every branch: the deliverer and the confirmer each get their own ratio, rounded to
      the nearest, of the order's price and what its slashes brought into the fund. */
  lemma MessengersGetTheirShares(
    config: Config, rules: Rules, m: Market, o: Order, deliverer: AccountId, confirmer: AccountId, price: Balance)
    requires !Assigned(o, config.fund) && HasPrice(o, price)
    ensures var s := Settled(config, rules, m, o, deliverer, confirmer);
            var gained := At(s.market.balances, config.fund) - At(m.balances, config.fund);
            && s.item.toDeliver.0 == deliverer && s.item.toConfirm.0 == confirmer
            && gained >= 0
            && IsShare(s.item.toDeliver.1, config.deliverRatio, price + gained)
            && IsShare(s.item.toConfirm.1, config.confirmRatio, price + gained)
  {
    hide SlashEach, Share, IsShare, LateFine, ConfirmedInfo, SameBook, LocksMatch, Current, Total;
    PriceIs(o, price);
    SettledBy(config, rules, m, o, deliverer, confirmer);
    IdsOf(o, config.fund);
    var (ids, amount) := Fined(config, rules, m, o);
    assert config.fund !in ids;
    SlashEachKeeps(config, rules, m, o, ids, amount);
    var s := Settled(config, rules, m, o, deliverer, confirmer);
    ShareIsNearest(config.deliverRatio, price + s.collected, s.item.toDeliver.1);
    ShareIsNearest(config.confirmRatio, price + s.collected, s.item.toConfirm.1);
  }

  /** The fine of an order: the slash ratio of its collateral; when it was confirmed after all slots also what the
      slasher asks for the delay, the sum capped by the protection. */
  ghost predicate HasFine(config: Config, rules: Rules, m: Market, o: Order, fine: Balance) {
    exists share: nat :: IsShare(share, config.slashRatio, o.collateral)
      && if exists k: nat :: ConfirmedInSlot(o, k) then fine == share
         else
           var late := share + rules.slasher(o.collateral, Lateness(o));
           fine == if m.slashProtect.Some? && m.slashProtect.value < late then m.slashProtect.value else late
  }

  /** Blocks between the end of the last slot and the confirmation. */
  function Lateness(o: Order): nat {
    var last := |o.assignedRelayers| - 1;
    if o.confirmTime.Some? && last >= 0 && o.assignedRelayers[last].end < o.confirmTime.value
    then o.confirmTime.value - o.assignedRelayers[last].end else 0
  }

  lemma FinedIs(config: Config, rules: Rules, m: Market, o: Order, fine: Balance)
    requires HasFine(config, rules, m, o, fine)
    ensures Fined(config, rules, m, o).1 == fine
  {
    hide Share, IsShare, ConfirmedInfo, ConfirmedInSlot;
    var share: nat :| IsShare(share, config.slashRatio, o.collateral)
      && if exists k: nat :: ConfirmedInSlot(o, k) then fine == share
         else
           var late := share + rules.slasher(o.collateral, Lateness(o));
           fine == if m.slashProtect.Some? && m.slashProtect.value < late then m.slashProtect.value else late;
    ShareIsNearest(config.slashRatio, o.collateral, share);
    ConfirmedInfoIs(o);
  }

  /** The currency accepts every transfer that the sender can pay. */
  ghost predicate Accepting(rules: Rules) {
    forall a :: rules.transfer(a)
  }

  lemma {:induction false} SlashEachTakes(
    config: Config, rules: Rules, m: Market, o: Order, ids: seq<AccountId>, amount: Balance, who: AccountId)
    requires Accepting(rules) && Distinct(ids) && config.fund !in ids && who != config.fund
    requires Min(amount, o.collateral) <= At(m.balances, who) && o.collateral <= Collateral(m, who)
    ensures var n := SlashEach(config, rules, m, o, ids, amount).market;
            var taken := if who in ids then Min(amount, o.collateral) else 0;
            At(n.balances, who) + taken == At(m.balances, who) && Collateral(n, who) + taken == Collateral(m, who)
    decreases |ids|
  {
    hide Slashed, Keeps, Collateral;
    if ids != [] {
      var fewer, last := ids[..|ids| - 1], ids[|ids| - 1];
      SlashEachTakes(config, rules, m, o, fewer, amount, who);
      var before := SlashEach(config, rules, m, o, fewer, amount).market;
      SlashEffect(config, rules, before, o, last, amount);
      SlashCollects(config, rules, before, o, last, amount);
      assert ids == fewer + [last];
      assert last !in fewer;
    }
  }

  /** With a currency that accepts, a relayer with the money and the collateral loses exactly the fine, at most the
      order's collateral, when its slot was missed, and nothing otherwise. */
  lemma MissedSlotsPay(
    config: Config, rules: Rules, m: Market, o: Order, deliverer: AccountId, confirmer: AccountId, i: nat, fine: Balance)
    requires SoundOrder(config, o) && Accepting(rules) && HasFine(config, rules, m, o, fine) && i < |o.assignedRelayers|
    requires var who := o.assignedRelayers[i].id;
             o.collateral <= Collateral(m, who) && o.collateral <= At(m.balances, who)
    ensures var who, n := o.assignedRelayers[i].id, Settled(config, rules, m, o, deliverer, confirmer).market;
            var missed := forall k: nat | ConfirmedInSlot(o, k) :: i < k;
            var lost := if !missed then 0 else if fine <= o.collateral then fine else o.collateral;
            At(n.balances, who) + lost == At(m.balances, who) && Collateral(n, who) + lost == Collateral(m, who)
  {
    hide SlashEach, Settled, LateFine, Share, Collateral, HasFine, ConfirmedInSlot, ConfirmedInfo;
    SettledBy(config, rules, m, o, deliverer, confirmer);
    FinedIs(config, rules, m, o, fine);
    ConfirmedInfoIs(o);
    var (ids, amount) := Fined(config, rules, m, o);
    var who, all := o.assignedRelayers[i].id, Ids(o.assignedRelayers);
    IdsOf(o, config.fund);
    IdsOf(o, who);
    assert all[i] == who;
    assert who in ids <==> i < |ids| by { InPrefixIff(all, |ids|, i); }
    assert config.fund !in ids;
    SlashEachTakes(config, rules, m, o, ids, amount, who);
  }

  lemma InPrefixIff(ids: seq<AccountId>, n: nat, i: nat)
    requires Distinct(ids) && n <= |ids| && i < |ids|
    ensures ids[i] in ids[..n] <==> i < n
  {}

  /** Only relayers whose slot had passed when the order was confirmed lose collateral. */
  lemma OnlyMissedSlotsAreSlashed(
    config: Config, rules: Rules, m: Market, o: Order, deliverer: AccountId, confirmer: AccountId, who: AccountId)
    requires SoundOrder(config, o)
    ensures var n := Settled(config, rules, m, o, deliverer, confirmer).market;
            Collateral(n, who) != Collateral(m, who) ==>
              exists k :: 0 <= k < |o.assignedRelayers| && o.assignedRelayers[k].id == who
                          && (ConfirmedInfo(o).Some? ==> k < ConfirmedInfo(o).value.0)
  {
    hide SlashEach, Settled, LateFine, Share, Collateral;
    SettledBy(config, rules, m, o, deliverer, confirmer);
    var (ids, amount) := Fined(config, rules, m, o);
    IdsOf(o, config.fund);
    IdsOf(o, who);
    assert config.fund !in ids;
    SlashEachBound(config, rules, m, o, ids, amount, who);
    if who in ids {
      var k :| 0 <= k < |ids| && ids[k] == who;
      assert o.assignedRelayers[k].id == who;
    }
  }

  /** Confirmed in a slot, the difference between the order's fee and the slot's price goes to the relayers on duty
      and the treasury to the last unit. */
  lemma SurplusIsShared(config: Config, rules: Rules, m: Market, o: Order, deliverer: AccountId, confirmer: AccountId)
    requires SoundOrder(config, o) && ConfirmedInfo(o).Some?
    ensures var (slot, price) := ConfirmedInfo(o).value;
            var item := Settled(config, rules, m, o, deliverer, confirmer).item;
            && item.toTreasury.Some?
            && Total(item.toAssigned) + item.toTreasury.value + price == OrderFee(o)
            && forall who :: who in item.toAssigned <==> exists k :: slot <= k < |o.assignedRelayers| && o.assignedRelayers[k].id == who
  {
    hide SlashEach, Share, LateFine, Total, EachGets, DutyReward, OrderFee;
    var (slot, price) := ConfirmedInfo(o).value;
    var duty := Ids(o.assignedRelayers)[slot..];
    SlotPriceWithinFee(o);
    IdsOf(o, config.fund);
    var surplus: nat := OrderFee(o) - price;
    var each := DutyReward(config, surplus, |duty|);
    DutyFits(config, surplus, |duty|);
    EachGetsTotal(duty, each);
    OnDutyAre(o, slot, each);
  }

  lemma OnDutyAre(o: Order, slot: nat, each: Balance)
    requires slot <= |o.assignedRelayers|
    ensures forall who :: who in EachGets(Ids(o.assignedRelayers)[slot..], each)
                          <==> exists k :: slot <= k < |o.assignedRelayers| && o.assignedRelayers[k].id == who
  {
    var duty := Ids(o.assignedRelayers)[slot..];
    forall who ensures who in duty <==> exists k :: slot <= k < |o.assignedRelayers| && o.assignedRelayers[k].id == who {
      if k :| slot <= k < |o.assignedRelayers| && o.assignedRelayers[k].id == who {
        assert duty[k - slot] == who;
      }
      if who in duty {
        var k :| 0 <= k < |duty| && duty[k] == who;
        assert o.assignedRelayers[slot + k].id == who;
      }
    }
  }

  /** `each` is one of `n` equal parts of `all`, rounded down. */
  predicate IsEqualPart(each: nat, all: nat, n: nat) {
    n * each <= all < n * (each + 1)
  }

  /** `each` is one of `duty` equal parts of the duty ratio of `surplus`. */
  ghost predicate IsDutyReward(config: Config, surplus: nat, duty: nat, each: Balance) {
    exists all: nat :: IsShare(all, config.dutyRatio, surplus) && IsEqualPart(each, all, duty)
  }

  /** Each relayer on duty when the order is confirmed gets an equal part, rounded down, of the duty ratio of the order's
      fee above the slot's price. */
  lemma DutyIsRewarded(
    config: Config, rules: Rules, m: Market, o: Order, deliverer: AccountId, confirmer: AccountId, slot: nat, i: nat)
    requires SoundOrder(config, o) && ConfirmedInSlot(o, slot) && slot <= i < |o.assignedRelayers|
    ensures var toAssigned := Settled(config, rules, m, o, deliverer, confirmer).item.toAssigned;
            var last := |o.assignedRelayers| - 1;
            && o.assignedRelayers[i].id in toAssigned
            && o.assignedRelayers[slot].fee <= o.assignedRelayers[last].fee
            && IsDutyReward(config, o.assignedRelayers[last].fee - o.assignedRelayers[slot].fee, |o.assignedRelayers| - slot,
                            toAssigned[o.assignedRelayers[i].id])
  {
    hide SlashEach, Share, IsDutyReward, DutyReward, LateFine, ConfirmedInfo, ConfirmedInSlot;
    ConfirmedInfoIs(o);
    var ids := Ids(o.assignedRelayers);
    assert ids[slot..][i - slot] == o.assignedRelayers[i].id;
    SlotPriceWithinFee(o);
    DutyRewardIs(config, OrderFee(o) - o.assignedRelayers[slot].fee, |o.assignedRelayers| - slot);
  }

  lemma DutyRewardIs(config: Config, surplus: nat, duty: nat)
    requires duty > 0
    ensures IsDutyReward(config, surplus, duty, DutyReward(config, surplus, duty))
  {
    hide Share, IsShare, IsEqualPart;
    ShareIsNearest(config.dutyRatio, surplus, Share(config.dutyRatio, surplus));
    EqualPart(Share(config.dutyRatio, surplus), duty);
  }

  lemma EqualPart(all: nat, n: nat)
    requires n > 0
    ensures IsEqualPart(all / n, all, n)
  {}

  // ---------------------------------------------------------------- a confirmed range

  ghost function WorkSum(orders: map<Key, Order>, lane: LaneId, work: seq<(AccountId, Nonce)>, g: Order -> nat): nat {
    if work == [] then 0
    else
      var key: Key := (lane, work[|work| - 1].1);
      WorkSum(orders, lane, work[..|work| - 1], g) + if key in orders then g(orders[key]) else 0
  }

  predicate SoundOrders(config: Config, orders: map<Key, Order>) {
    forall k | k in orders :: SoundOrder(config, orders[k])
  }

  function Fee(): Order -> nat {
    o => OrderFee(o)
  }

  ghost function ItemsTotal(items: seq<RewardItem>): nat {
    if items == [] then 0 else ItemsTotal(items[..|items| - 1]) + ItemTotal(items[|items| - 1])
  }

  /** Settling a range keeps the books, and takes from `who` at most what the range's orders held back. */
  lemma {:induction false} RewardsKeep(
    config: Config, rules: Rules, m: Market, lane: LaneId, work: seq<(AccountId, Nonce)>, confirmer: AccountId, who: AccountId)
    requires SoundOrders(config, m.orders)
    ensures var payout := Rewards(config, rules, m, lane, work, confirmer);
            && Keeps(config, m, payout.market, payout.collected)
            && Collateral(payout.market, who) + WorkSum(m.orders, lane, work, Hold(who)) >= Collateral(m, who)
    decreases |work|
  {
    hide Settled, Total, Recomputed, Hold, SoundOrder, Collateral;
    if work == [] {
      KeepsNothing(config, m);
    } else {
      var fewer, last := work[..|work| - 1], work[|work| - 1];
      RewardsKeep(config, rules, m, lane, fewer, confirmer, who);
      var before := Rewards(config, rules, m, lane, fewer, confirmer);
      var key: Key := (lane, last.1);
      if key in m.orders {
        var s := Settled(config, rules, before.market, m.orders[key], last.0, confirmer);
        SettledKeeps(config, rules, before.market, m.orders[key], last.0, confirmer, who);
        KeepsOn(config, m, before.market, s.market, before.collected, s.collected);
      }
    }
  }

  lemma RewardsKeepOrders(
    config: Config, rules: Rules, m: Market, lane: LaneId, work: seq<(AccountId, Nonce)>, confirmer: AccountId)
    requires SoundOrders(config, m.orders)
    ensures Rewards(config, rules, m, lane, work, confirmer).market.orders == m.orders
  {
    hide Rewards;
    RewardsKeep(config, rules, m, lane, work, confirmer, config.fund);
  }

  predicate AllOrdered(orders: map<Key, Order>, lane: LaneId, work: seq<(AccountId, Nonce)>) {
    forall i | 0 <= i < |work| :: (lane, work[i].1) in orders
  }

  lemma {:induction false} RewardsPrefix(
    config: Config, rules: Rules, m: Market, lane: LaneId, work: seq<(AccountId, Nonce)>, confirmer: AccountId, i: nat)
    requires SoundOrders(config, m.orders) && AllOrdered(m.orders, lane, work) && i < |work|
    ensures var payout := Rewards(config, rules, m, lane, work, confirmer);
            var before := Rewards(config, rules, m, lane, work[..i], confirmer);
            var after := Rewards(config, rules, m, lane, work[..i + 1], confirmer);
            var s := Settled(config, rules, before.market, m.orders[(lane, work[i].1)], work[i].0, confirmer);
            && |payout.items| == |work| && payout.items[i] == s.item && after.market == s.market
    decreases |work|
  {
    hide Settled, SoundOrders;
    var last := |work| - 1;
    RewardsKeepOrders(config, rules, m, lane, work[..last], confirmer);
    if i < last {
      RewardsPrefix(config, rules, m, lane, work[..last], confirmer, i);
      assert work[..last][..i] == work[..i] && work[..last][..i + 1] == work[..i + 1];
    } else {
      if last > 0 { RewardsPrefix(config, rules, m, lane, work[..last], confirmer, 0); }
      assert work[..i + 1] == work;
    }
  }

  /** Every message of a range is rewarded, in order: the `i`-th item names the message's own deliverer and the confirmer,
      each with its share of the price of the message's order and of what the fund gained by that order's slashes. */
  lemma EachMessageIsRewarded(
    config: Config, rules: Rules, m: Market, lane: LaneId, work: seq<(AccountId, Nonce)>, confirmer: AccountId, i: nat, price: Balance)
    requires SoundOrders(config, m.orders) && AllOrdered(m.orders, lane, work) && i < |work|
    requires HasPrice(m.orders[(lane, work[i].1)], price)
    ensures var items := Rewards(config, rules, m, lane, work, confirmer).items;
            var before := Rewards(config, rules, m, lane, work[..i], confirmer).market.balances;
            var after := Rewards(config, rules, m, lane, work[..i + 1], confirmer).market.balances;
            var gained := At(after, config.fund) - At(before, config.fund);
            && |items| == |work| && gained >= 0
            && items[i].toDeliver.0 == work[i].0 && items[i].toConfirm.0 == confirmer
            && IsShare(items[i].toDeliver.1, config.deliverRatio, price + gained)
            && IsShare(items[i].toConfirm.1, config.confirmRatio, price + gained)
  {
    hide Rewards, Settled, IsShare, HasPrice;
    RewardsPrefix(config, rules, m, lane, work, confirmer, i);
    assert SoundOrder(config, m.orders[(lane, work[i].1)]);
    MessengersGetTheirShares(config, rules, Rewards(config, rules, m, lane, work[..i], confirmer).market,
                             m.orders[(lane, work[i].1)], work[i].0, confirmer, price);
  }

  /** All rewards of a range stay within its orders' fees and what was really collected. */
  lemma {:induction false} RewardsConserve(
    config: Config, rules: Rules, m: Market, lane: LaneId, work: seq<(AccountId, Nonce)>, confirmer: AccountId)
    requires SoundOrders(config, m.orders) && config.deliverRatio + config.confirmRatio <= MILLION
    ensures var payout := Rewards(config, rules, m, lane, work, confirmer);
            ItemsTotal(payout.items) <= WorkSum(m.orders, lane, work, Fee()) + payout.collected
    decreases |work|
  {
    hide Settled, ItemTotal, Total, Recomputed;
    if work != [] {
      var fewer, last := work[..|work| - 1], work[|work| - 1];
      RewardsConserve(config, rules, m, lane, fewer, confirmer);
      RewardsKeep(config, rules, m, lane, fewer, confirmer, config.fund);
      var before := Rewards(config, rules, m, lane, fewer, confirmer);
      var key: Key := (lane, last.1);
      if key in m.orders {
        assert SoundOrder(config, m.orders[key]);
        var s := Settled(config, rules, before.market, m.orders[key], last.0, confirmer);
        SettlementConserves(config, rules, before.market, m.orders[key], last.0, confirmer);
        assert (before.items + [s.item])[..|before.items|] == before.items;
      }
    }
  }

  /** Adding up neither loses nor invents rewards. */
  lemma {:induction false} AddingUpConserves(items: seq<RewardItem>)
    ensures var t := TotalsOf(items); t.confirm + t.treasury + Total(t.deliver) + Total(t.toAssigned) == ItemsTotal(items)
  {
    hide Total;
    if items == [] {
      EmptyTotal();
    } else {
      var fewer, last := items[..|items| - 1], items[|items| - 1];
      AddingUpConserves(fewer);
      var t := TotalsOf(fewer);
      TotalPlus(t.toAssigned, last.toAssigned);
      TotalPlus(t.deliver, map[last.toDeliver.0 := last.toDeliver.1]);
      EmptyTotal();
      TotalUpdate(map[], last.toDeliver.0, last.toDeliver.1);
      assert map[][last.toDeliver.0 := last.toDeliver.1] == map[last.toDeliver.0 := last.toDeliver.1];
    }
  }

  lemma EmptyTotal()
    ensures Total(map[]) == 0
  {}

  function PaySum(payments: seq<(AccountId, Balance)>): nat {
    if payments == [] then 0 else payments[0].1 + PaySum(payments[1..])
  }

  /** The part of the payments that goes to `who`. */
  function PaySumTo(payments: seq<(AccountId, Balance)>, who: AccountId): nat {
    if payments == [] then 0 else (if payments[0].0 == who then payments[0].1 else 0) + PaySumTo(payments[1..], who)
  }

  lemma {:induction false} PaySumToParts(first: seq<(AccountId, Balance)>, second: seq<(AccountId, Balance)>, who: AccountId)
    ensures PaySumTo(first + second, who) == PaySumTo(first, who) + PaySumTo(second, who)
  {
    if first == [] {
      assert first + second == second;
    } else {
      PaySumToParts(first[1..], second, who);
      assert (first + second)[1..] == first[1..] + second;
    }
  }

  lemma {:induction false} AscendingSumTo(sums: map<AccountId, Balance>, keys: set<AccountId>, who: AccountId)
    ensures PaySumTo(Ascending(sums, keys), who) == if who in keys then At(sums, who) else 0
  {
    if keys != {} {
      HasLeast(keys);
      var k :| IsLeast(k, keys) && Ascending(sums, keys) == [(k, At(sums, k))] + Ascending(sums, keys - {k});
      AscendingSumTo(sums, keys - {k}, who);
    }
  }

  lemma PaymentsSumTo(t: Totals, confirmer: AccountId, treasury: AccountId, who: AccountId)
    ensures PaySumTo(Payments(t, confirmer, treasury), who)
            == (if who == confirmer then t.confirm else 0) + At(t.deliver, who) + At(t.toAssigned, who)
               + (if who == treasury then t.treasury else 0)
  {
    var first, second, third := [(confirmer, t.confirm)], Ascending(t.deliver, t.deliver.Keys), Ascending(t.toAssigned, t.toAssigned.Keys);
    AscendingSumTo(t.deliver, t.deliver.Keys, who);
    AscendingSumTo(t.toAssigned, t.toAssigned.Keys, who);
    PaySumToParts(first, second, who);
    PaySumToParts(first + second, third, who);
    PaySumToParts(first + second + third, [(treasury, t.treasury)], who);
  }

  lemma {:induction false} PaySumParts(first: seq<(AccountId, Balance)>, second: seq<(AccountId, Balance)>)
    ensures PaySum(first + second) == PaySum(first) + PaySum(second)
  {
    if first == [] {
      assert first + second == second;
    } else {
      PaySumParts(first[1..], second);
      assert (first + second)[1..] == first[1..] + second;
    }
  }

  lemma {:induction false} AscendingSum(sums: map<AccountId, Balance>, keys: set<AccountId>)
    ensures PaySum(Ascending(sums, keys)) == Sum(keys, Of(sums))
  {
    if keys != {} {
      HasLeast(keys);
      var k :| IsLeast(k, keys) && Ascending(sums, keys) == [(k, At(sums, k))] + Ascending(sums, keys - {k});
      AscendingSum(sums, keys - {k});
      SumPick(keys, Of(sums), k);
    }
  }

  lemma PaymentsSum(t: Totals, confirmer: AccountId, treasury: AccountId)
    ensures PaySum(Payments(t, confirmer, treasury)) == t.confirm + t.treasury + Total(t.deliver) + Total(t.toAssigned)
  {
    var first, second, third := [(confirmer, t.confirm)], Ascending(t.deliver, t.deliver.Keys), Ascending(t.toAssigned, t.toAssigned.Keys);
    AscendingSum(t.deliver, t.deliver.Keys);
    AscendingSum(t.toAssigned, t.toAssigned.Keys);
    PaySumParts(first, second);
    PaySumParts(first + second, third);
    PaySumParts(first + second + third, [(treasury, t.treasury)]);
  }

  /** Paying touches balances only, moves money without losing any, and costs the fund at most the payments. */
  lemma {:induction false} PayingKeeps(rules: Rules, m: Market, fund: AccountId, payments: seq<(AccountId, Balance)>)
    ensures var n := PaidOut(rules, m, fund, payments);
            && n == m.(balances := n.balances)
            && Total(n.balances) == Total(m.balances)
            && At(n.balances, fund) + PaySum(payments) >= At(m.balances, fund)
    decreases |payments|
  {
    hide Total;
    if payments != [] {
      var (who, reward) := payments[0];
      if reward != 0 && Transferred(rules, m, fund, who, reward, true).Some? {
        TransferConserves(rules, m, fund, who, reward, true);
      }
      PayingKeeps(rules, Rewarded(rules, m, fund, who, reward), fund, payments[1..]);
    }
  }

  /** Nobody but the fund loses by a payment, and nobody gains more than is paid to it. */
  lemma {:induction false} PayingOnlyGives(rules: Rules, m: Market, fund: AccountId, payments: seq<(AccountId, Balance)>, who: AccountId)
    requires who != fund
    ensures At(m.balances, who) <= At(PaidOut(rules, m, fund, payments).balances, who) <= At(m.balances, who) + PaySumTo(payments, who)
    decreases |payments|
  {
    hide Transferable;
    if payments != [] {
      PayingOnlyGives(rules, Rewarded(rules, m, fund, payments[0].0, payments[0].1), fund, payments[1..], who);
    }
  }

  /** A currency that accepts and a fund that can pay: everybody gets all that is paid to it. */
  lemma {:induction false} PayingIsExact(rules: Rules, m: Market, fund: AccountId, payments: seq<(AccountId, Balance)>, who: AccountId)
    requires Accepting(rules) && At(m.locks, fund) + PaySum(payments) <= At(m.balances, fund) && who != fund
    ensures var n := PaidOut(rules, m, fund, payments);
            At(n.balances, who) == At(m.balances, who) + PaySumTo(payments, who)
    decreases |payments|
  {
    if payments != [] {
      var (to, reward) := payments[0];
      assert rules.transfer(Attempt(fund, to, reward, true, m.balances, m.locks));
      PayingIsExact(rules, Rewarded(rules, m, fund, to, reward), fund, payments[1..], who);
    }
  }

  /** What one item owes an account, over all of its roles: deliverer, confirmer, assigned relayer, treasury. */
  function OwedBy(treasury: AccountId, item: RewardItem, who: AccountId): nat {
    (if item.toDeliver.0 == who then item.toDeliver.1 else 0)
    + (if item.toConfirm.0 == who then item.toConfirm.1 else 0)
    + (if who in item.toAssigned then item.toAssigned[who] else 0)
    + (if treasury == who && item.toTreasury.Some? then item.toTreasury.value else 0)
  }

  function Owed(treasury: AccountId, items: seq<RewardItem>, who: AccountId): nat {
    if items == [] then 0
    else Owed(treasury, items[..|items| - 1], who) + OwedBy(treasury, items[|items| - 1], who)
  }

  predicate AllConfirmedBy(items: seq<RewardItem>, confirmer: AccountId) {
    forall i | 0 <= i < |items| :: items[i].toConfirm.0 == confirmer
  }

  lemma PlusAt(a: map<AccountId, Balance>, b: map<AccountId, Balance>, who: AccountId)
    ensures At(Plus(a, b), who) == At(a, who) + At(b, who)
  {}

  /** Adding up per account keeps what is owed to each of them. */
  lemma {:induction false} AddingUpKeepsOwed(treasury: AccountId, items: seq<RewardItem>, confirmer: AccountId, who: AccountId)
    requires AllConfirmedBy(items, confirmer)
    ensures var t := TotalsOf(items);
            (if who == confirmer then t.confirm else 0) + At(t.deliver, who) + At(t.toAssigned, who)
            + (if who == treasury then t.treasury else 0) == Owed(treasury, items, who)
  {
    hide Plus;
    if items != [] {
      var fewer, last := items[..|items| - 1], items[|items| - 1];
      AddingUpKeepsOwed(treasury, fewer, confirmer, who);
      PlusAt(TotalsOf(fewer).toAssigned, last.toAssigned, who);
      PlusAt(TotalsOf(fewer).deliver, map[last.toDeliver.0 := last.toDeliver.1], who);
    }
  }

  lemma {:induction false} RewardsNameConfirmer(
    config: Config, rules: Rules, m: Market, lane: LaneId, work: seq<(AccountId, Nonce)>, confirmer: AccountId)
    ensures AllConfirmedBy(Rewards(config, rules, m, lane, work, confirmer).items, confirmer)
    decreases |work|
  {
    hide SlashEach, Share, LateFine;
    if work != [] {
      RewardsNameConfirmer(config, rules, m, lane, work[..|work| - 1], confirmer);
    }
  }

  /** When the currency accepts and the fund can pay, everybody's balance grows by exactly what the items of the range
      owe it; in any case nobody but the fund loses, and nobody gets more than it is owed. */
  lemma EverybodyIsPaid(
    config: Config, rules: Rules, m: Market, lane: LaneId, work: seq<(AccountId, Nonce)>, confirmer: AccountId, who: AccountId)
    requires who != config.fund
    ensures var payout := Rewards(config, rules, m, lane, work, confirmer);
            var before, after := payout.market.balances, Paid(config, rules, m, lane, work, confirmer).balances;
            && At(before, who) <= At(after, who) <= At(before, who) + Owed(config.treasury, payout.items, who)
            && (Accepting(rules) && At(payout.market.locks, config.fund) + ItemsTotal(payout.items) <= At(before, config.fund) ==>
                  At(after, who) == At(before, who) + Owed(config.treasury, payout.items, who))
  {
    hide Rewards, Payments, PaySum, PaySumTo, PaidOut, TotalsOf, ItemsTotal, Owed, Accepting, Total;
    var payout := Rewards(config, rules, m, lane, work, confirmer);
    var totals := TotalsOf(payout.items);
    var payments := Payments(totals, confirmer, config.treasury);
    RewardsNameConfirmer(config, rules, m, lane, work, confirmer);
    AddingUpKeepsOwed(config.treasury, payout.items, confirmer, who);
    AddingUpConserves(payout.items);
    PaymentsSum(totals, confirmer, config.treasury);
    PaymentsSumTo(totals, confirmer, config.treasury, who);
    PayingOnlyGives(rules, payout.market, config.fund, payments, who);
    if Accepting(rules) && At(payout.market.locks, config.fund) + ItemsTotal(payout.items) <= At(payout.market.balances, config.fund) {
      PayingIsExact(rules, payout.market, config.fund, payments, who);
    }
  }

  /** Part of the rewards that goes to confirmers, and to deliverers. */
  function ConfirmSum(items: seq<RewardItem>): nat {
    if items == [] then 0 else ConfirmSum(items[..|items| - 1]) + items[|items| - 1].toConfirm.1
  }

  function DeliverSum(items: seq<RewardItem>): nat {
    if items == [] then 0 else DeliverSum(items[..|items| - 1]) + items[|items| - 1].toDeliver.1
  }

  function OwedForDelivery(items: seq<RewardItem>, who: AccountId): nat {
    if items == [] then 0
    else OwedForDelivery(items[..|items| - 1], who) + if items[|items| - 1].toDeliver.0 == who then items[|items| - 1].toDeliver.1 else 0
  }

  lemma {:induction false} MessengerTotals(items: seq<RewardItem>, who: AccountId)
    ensures TotalsOf(items).confirm == ConfirmSum(items)
    ensures At(TotalsOf(items).deliver, who) == OwedForDelivery(items, who) && Total(TotalsOf(items).deliver) == DeliverSum(items)
  {
    hide Total, Plus;
    EmptyTotal();
    if items != [] {
      var fewer, last := items[..|items| - 1], items[|items| - 1];
      MessengerTotals(fewer, who);
      PlusAt(TotalsOf(fewer).deliver, map[last.toDeliver.0 := last.toDeliver.1], who);
      TotalPlus(TotalsOf(fewer).deliver, map[last.toDeliver.0 := last.toDeliver.1]);
      TotalUpdate(map[], last.toDeliver.0, last.toDeliver.1);
      assert map[][last.toDeliver.0 := last.toDeliver.1] == map[last.toDeliver.0 := last.toDeliver.1];
    }
  }

  /** The order of payment: a fund that cannot pay everybody still pays the confirmer if it can pay the confirmer, and
      confirmer and deliverers if it can pay these. */
  lemma MessengersComeFirst(
    config: Config, rules: Rules, m: Market, lane: LaneId, work: seq<(AccountId, Nonce)>, confirmer: AccountId, who: AccountId)
    requires who != config.fund && Accepting(rules)
    ensures var payout := Rewards(config, rules, m, lane, work, confirmer);
            var before, after := payout.market.balances, Paid(config, rules, m, lane, work, confirmer).balances;
            var free := At(before, config.fund) - At(payout.market.locks, config.fund);
            var asConfirmer := if who == confirmer then ConfirmSum(payout.items) else 0;
            && (ConfirmSum(payout.items) <= free ==> At(after, who) >= At(before, who) + asConfirmer)
            && (ConfirmSum(payout.items) + DeliverSum(payout.items) <= free ==>
                  At(after, who) >= At(before, who) + asConfirmer + OwedForDelivery(payout.items, who))
  {
    hide Rewards, Ascending, PaidOut, TotalsOf, Accepting, Total, ConfirmSum, DeliverSum, OwedForDelivery;
    var payout := Rewards(config, rules, m, lane, work, confirmer);
    var t := TotalsOf(payout.items);
    MessengerTotals(payout.items, who);
    var first, second := [(confirmer, t.confirm)], Ascending(t.deliver, t.deliver.Keys);
    var third := Ascending(t.toAssigned, t.toAssigned.Keys) + [(config.treasury, t.treasury)];
    AscendingSum(t.deliver, t.deliver.Keys);
    AscendingSumTo(t.deliver, t.deliver.Keys, who);
    assert Total(t.deliver) == PaySum(second) by { TotalIsSum(t.deliver); }
    PaySumParts(first, second);
    PaySumToParts(first, second, who);
    assert Payments(t, confirmer, config.treasury) == first + (second + third) == (first + second) + third;
    PaidInParts(rules, payout.market, config.fund, first, second + third);
    PaidInParts(rules, payout.market, config.fund, first + second, third);
    PayingOnlyGives(rules, PaidOut(rules, payout.market, config.fund, first), config.fund, second + third, who);
    PayingOnlyGives(rules, PaidOut(rules, payout.market, config.fund, first + second), config.fund, third, who);
    if At(payout.market.locks, config.fund) + t.confirm <= At(payout.market.balances, config.fund) {
      PayingIsExact(rules, payout.market, config.fund, first, who);
    }
    if At(payout.market.locks, config.fund) + t.confirm + PaySum(second) <= At(payout.market.balances, config.fund) {
      PayingIsExact(rules, payout.market, config.fund, first + second, who);
    }
  }

  lemma TotalIsSum(sums: map<AccountId, Balance>)
    ensures Total(sums) == Sum(sums.Keys, Of(sums))
  {}

  /** After a range has been settled and paid: only balances, collateral and the assigned relayers changed, no money
      appeared or vanished, `who` lost at most the collateral the orders held back, the fund at most their fees. */
  ghost predicate FairlyPaid(config: Config, m: Market, n: Market, lane: LaneId, work: seq<(AccountId, Nonce)>) {
    && SameBook(m, n)
    && Total(n.balances) == Total(m.balances)
    && At(n.locks, config.fund) == At(m.locks, config.fund)
    && (Current(config, m) ==> Current(config, n))
    && (LocksMatch(m) ==> LocksMatch(n))
    && At(n.balances, config.fund) + WorkSum(m.orders, lane, work, Fee()) >= At(m.balances, config.fund)
  }

  lemma PaidFairly(config: Config, rules: Rules, m: Market, lane: LaneId, work: seq<(AccountId, Nonce)>, confirmer: AccountId, who: AccountId)
    requires SoundOrders(config, m.orders) && config.deliverRatio + config.confirmRatio <= MILLION
    ensures var n := Paid(config, rules, m, lane, work, confirmer);
            && FairlyPaid(config, m, n, lane, work)
            && Collateral(n, who) + WorkSum(m.orders, lane, work, Hold(who)) >= Collateral(m, who)
  {
    hide Rewards, Total, Recomputed, WorkSum, Payments, PaySum, PaidOut;
    var payout := Rewards(config, rules, m, lane, work, confirmer);
    var totals := TotalsOf(payout.items);
    RewardsKeep(config, rules, m, lane, work, confirmer, who);
    RewardsConserve(config, rules, m, lane, work, confirmer);
    AddingUpConserves(payout.items);
    PaymentsSum(totals, confirmer, config.treasury);
    PayingKeeps(rules, payout.market, config.fund, Payments(totals, confirmer, config.treasury));
    RecomputedSame(config, payout.market, Paid(config, rules, m, lane, work, confirmer));
  }

  // ---------------------------------------------------------------- slashing never saturates

  /** Each relayer's collateral covers what the range's orders hold back from it. */
  ghost predicate Covers(m: Market, lane: LaneId, work: seq<(AccountId, Nonce)>) {
    forall who :: WorkSum(m.orders, lane, work, Hold(who)) <= Collateral(m, who)
  }

  lemma {:induction false} WorkSumSplits(
    orders: map<Key, Order>, lane: LaneId, work: seq<(AccountId, Nonce)>, i: nat, g: Order -> nat)
    requires i < |work| && (lane, work[i].1) in orders
    ensures WorkSum(orders, lane, work[..i], g) + g(orders[(lane, work[i].1)]) <= WorkSum(orders, lane, work, g)
    decreases |work|
  {
    var fewer := work[..|work| - 1];
    if i == |work| - 1 {
    } else {
      WorkSumSplits(orders, lane, fewer, i, g);
      assert fewer[..i] == work[..i];
    }
  }

  /** At every single slash of a range, the relayer still has the order's whole collateral on record: subtracting
      the slash never saturates, even when one relayer is slashed for many orders of the range. */
  lemma SlashNeverSaturates(
    config: Config, rules: Rules, m: Market, lane: LaneId, work: seq<(AccountId, Nonce)>, confirmer: AccountId, i: nat, j: nat)
    requires SoundOrders(config, m.orders) && Covers(m, lane, work)
    requires i < |work| && (lane, work[i].1) in m.orders
    ensures var before := Rewards(config, rules, m, lane, work[..i], confirmer).market;
            var o := m.orders[(lane, work[i].1)];
            var (ids, amount) := Fined(config, rules, before, o);
            j < |ids| ==> Collateral(SlashEach(config, rules, before, o, ids[..j], amount).market, ids[j]) >= o.collateral
  {
    hide SlashEach, Rewards, WorkSum, Keeps, Collateral, LateFine, Share, Total, Recomputed;
    var before := Rewards(config, rules, m, lane, work[..i], confirmer).market;
    var o := m.orders[(lane, work[i].1)];
    assert SoundOrder(config, o);
    var (ids, amount) := Fined(config, rules, before, o);
    if j < |ids| {
      var who := ids[j];
      assert ids == Ids(o.assignedRelayers)[..|ids|];
      assert who in Ids(o.assignedRelayers);
      IdsOf(o, who);
      IdsOf(o, config.fund);
      RewardsKeep(config, rules, m, lane, work[..i], confirmer, who);
      WorkSumSplits(m.orders, lane, work, i, Hold(who));
      SlashEachBound(config, rules, before, o, ids[..j], amount, who);
      assert who !in ids[..j];
    }
  }

  // ---------------------------------------------------------------- the work of a confirmation

  /** `message` names the relayer of the entry that covers its nonce. */
  ghost predicate NamesDeliverer(entries: seq<UnrewardedRelayer>, message: (AccountId, Nonce)) {
    exists i :: 0 <= i < |entries| && EntryCovers(entries[i], message.1) && entries[i].relayer == message.0
  }

  lemma {:induction false} NoncesAre(r: AccountId, first: nat, stop: nat)
    requires stop <= U64_MAX + 1
    ensures |Nonces(r, first, stop)| == Max(0, stop - first)
    ensures forall k | 0 <= k < |Nonces(r, first, stop)| :: Nonces(r, first, stop)[k] == (r, first + k)
    decreases stop
  {
    if first < stop { NoncesAre(r, first, stop - 1); }
  }

  lemma {:induction false} WorkNamesDeliverers(entries: seq<UnrewardedRelayer>, begin: Nonce, end: Nonce, k: nat)
    requires k < |Work(entries, begin, end)|
    ensures NamesDeliverer(entries, Work(entries, begin, end)[k])
  {
    if entries != [] {
      var fewer, last := entries[..|entries| - 1], entries[|entries| - 1];
      var before := Work(fewer, begin, end);
      if k < |before| {
        WorkNamesDeliverers(fewer, begin, end, k);
        var i :| 0 <= i < |fewer| && EntryCovers(fewer[i], before[k].1) && fewer[i].relayer == before[k].0;
        assert entries[i] == fewer[i];
      } else {
        NoncesAre(last.relayer, Max(last.messages.begin, begin), Min(last.messages.end, end) + 1);
        assert EntryCovers(entries[|entries| - 1], Work(entries, begin, end)[k].1);
      }
    }
  }

  /** The work list up to the end of a chain's last entry. */
  lemma {:induction false} WorkOfChain(entries: seq<UnrewardedRelayer>, begin: Nonce, end: Nonce)
    requires ValidChain(entries) && entries != [] && entries[0].messages.begin <= begin
    requires entries[|entries| - 1].messages.end <= end
    ensures var work := Work(entries, begin, end);
            && |work| == Max(0, entries[|entries| - 1].messages.end + 1 - begin)
            && forall k | 0 <= k < |work| :: work[k].1 == begin + k
  {
    var fewer, last := entries[..|entries| - 1], entries[|entries| - 1];
    assert ValidEntry(last);
    NoncesAre(last.relayer, Max(last.messages.begin, begin), Min(last.messages.end, end) + 1);
    if fewer == [] {
      assert Work(fewer, begin, end) == [];
    } else {
      forall i | 0 <= i < |fewer| ensures ValidEntry(fewer[i]) { assert ValidEntry(entries[i]); }
      forall i | 0 < i < |fewer| ensures Linked(fewer, i) { assert Linked(entries, i); }
      assert Linked(entries, |entries| - 1);
      WorkOfChain(fewer, begin, end);
    }
  }

  /** Whatever lane data the proof carried, a confirmed range is rewarded nonce by nonce, each once, in order,
      to the relayer of the only entry that covers it. */
  lemma ConfirmedRangeIsWork(d: OutboundLaneData, laneData: InboundLaneData, declared: UnrewardedRelayersState)
    requires d.latestGenerated < U64_MAX && OutboundLane.Confirmable(d, laneData, declared)
    ensures var work := Work(laneData.relayers, d.latestReceived + 1, LastDelivered(laneData));
            && |work| == LastDelivered(laneData) - d.latestReceived
            && forall k | 0 <= k < |work| :: work[k].1 == d.latestReceived + 1 + k && NamesDeliverer(laneData.relayers, work[k])
  {
    WorkOfChain(laneData.relayers, d.latestReceived + 1, LastDelivered(laneData));
    var work := Work(laneData.relayers, d.latestReceived + 1, LastDelivered(laneData));
    forall k | 0 <= k < |work| ensures NamesDeliverer(laneData.relayers, work[k]) {
      WorkNamesDeliverers(laneData.relayers, d.latestReceived + 1, LastDelivered(laneData), k);
    }
  }
}
