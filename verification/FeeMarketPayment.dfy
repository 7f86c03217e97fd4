/** Collection of fees, slashing and rewards (modules/fee-market/src/s2s/payment.rs). */
module FeeMarketPayment {
  import opened Wrappers
  import opened MessagePrimitives
  import opened FeeMarketTypes
  import opened FeeMarket
  import opened MapSum
  import opened Permill

  // ---------------------------------------------------------------- transfers

  /** A transfer as the balances pallet sees it. */
  datatype Attempt = Attempt(
    from: AccountId, to: AccountId, amount: Balance, keepAlive: bool,
    balances: map<AccountId, Balance>, locks: map<AccountId, Balance>)

  /** What the market does not decide: when the currency refuses a transfer, and how lateness is fined. */
  datatype Rules = Rules(transfer: Attempt -> bool, slasher: (Balance, BlockNumber) -> Balance)

  predicate Transferable(rules: Rules, m: Market, from: AccountId, to: AccountId, amount: Balance, keepAlive: bool) {
    && rules.transfer(Attempt(from, to, amount, keepAlive, m.balances, m.locks))
    && (amount == 0 || from == to || amount + At(m.locks, from) <= At(m.balances, from))
  }

  /** A transfer moves the exact amount or does not happen. */
  function Transferred(rules: Rules, m: Market, from: AccountId, to: AccountId, amount: Balance, keepAlive: bool): Option<Market> {
    if !Transferable(rules, m, from, to, amount, keepAlive) then None
    else if amount == 0 || from == to then Some(m)
    else Some(m.(balances := m.balances[from := At(m.balances, from) - amount][to := At(m.balances, to) + amount]))
  }

  /** The fee of a message goes to the fund; only a zero fee may come from nobody. */
  function FeePaid(rules: Rules, m: Market, submitter: Option<AccountId>, fee: Balance, fund: AccountId): Option<Market> {
    if submitter.Some? then Transferred(rules, m, submitter.value, fund, fee, false)
    else if fee != 0 then None
    else Some(m)
  }

  function Rewarded(rules: Rules, m: Market, fund: AccountId, to: AccountId, reward: Balance): Market {
    if reward == 0 then m
    else
      match Transferred(rules, m, fund, to, reward, true)
      case Some(next) => next
      case None => m
  }

  // ---------------------------------------------------------------- slashing

  datatype Slash = Slash(market: Market, collected: Balance)

  /** At most the order's collateral is taken from `who`; the record shrinks only by what was collected. */
  ghost function Slashed(config: Config, rules: Rules, m: Market, o: Order, who: AccountId, amount: Balance): Slash {
    var slash := Min(amount, o.collateral);
    var unlocked := m.(locks := m.locks - {who});
    match Transferred(rules, unlocked, who, config.fund, slash, false)
    case Some(next) => Slash(Refreshed(config, WithCollateral(next, who, Max(0, Collateral(m, who) - slash))), slash)
    case None => Slash(Refreshed(config, WithCollateral(unlocked, who, Collateral(m, who))), 0)
  }

  ghost function SlashEach(config: Config, rules: Rules, m: Market, o: Order, ids: seq<AccountId>, amount: Balance): Slash
    decreases |ids|
  {
    if ids == [] then Slash(m, 0)
    else
      var before := SlashEach(config, rules, m, o, ids[..|ids| - 1], amount);
      var last := Slashed(config, rules, before.market, o, ids[|ids| - 1], amount);
      Slash(last.market, before.collected + last.collected)
  }

  // ---------------------------------------------------------------- rewards of one order

  datatype RewardItem = RewardItem(
    toAssigned: map<AccountId, Balance>, toTreasury: Option<Balance>,
    toDeliver: (AccountId, Balance), toConfirm: (AccountId, Balance))

  function Ids(assignedRelayers: seq<AssignedRelayer>): (ids: seq<AccountId>)
    ensures |ids| == |assignedRelayers|
  {
    seq(|assignedRelayers|, i requires 0 <= i < |assignedRelayers| => assignedRelayers[i].id)
  }

  /** Fine for every assigned relayer of an order that nobody delivered in time. */
  function LateFine(config: Config, rules: Rules, o: Order, protect: Option<Balance>): Balance {
    var delay := if ConfirmDelay(o).Some? then ConfirmDelay(o).value else 0;
    var fine := Share(config.slashRatio, o.collateral) + rules.slasher(o.collateral, delay);
    if protect.Some? then Min(fine, protect.value) else fine
  }

  /** Equal shares of the duty reward; nothing when nobody is on duty. */
  function DutyReward(config: Config, surplus: Balance, duty: nat): Balance {
    if duty == 0 then 0 else Share(config.dutyRatio, surplus) / duty
  }

  function EachGets(ids: seq<AccountId>, reward: Balance): map<AccountId, Balance> {
    map id | id in ids :: reward
  }

  function Item(
    config: Config, reward: Balance, toAssigned: map<AccountId, Balance>, toTreasury: Option<Balance>,
    deliverer: AccountId, confirmer: AccountId): RewardItem
  {
    RewardItem(toAssigned, toTreasury, (deliverer, Share(config.deliverRatio, reward)), (confirmer, Share(config.confirmRatio, reward)))
  }

  datatype Settlement = Settlement(market: Market, item: RewardItem, collected: Balance)

  /** Relayers before the slot of the confirmation are slashed, those from it on share the duty reward;
      confirmed after all slots, everybody is slashed and the whole fee goes to the messengers. */
  ghost function Settled(config: Config, rules: Rules, m: Market, o: Order, deliverer: AccountId, confirmer: AccountId): Settlement {
    var ids := Ids(o.assignedRelayers);
    match ConfirmedInfo(o)
    case Some((slot, price)) =>
      var slashed := SlashEach(config, rules, m, o, ids[..slot], Share(config.slashRatio, o.collateral));
      var surplus := Max(0, OrderFee(o) - price);
      var each := DutyReward(config, surplus, |ids[slot..]|);
      Settlement(slashed.market,
                 Item(config, price + slashed.collected, EachGets(ids[slot..], each),
                      Some(Max(0, surplus - |ids[slot..]| * each)), deliverer, confirmer),
                 slashed.collected)
    case None =>
      var slashed := SlashEach(config, rules, m, o, ids, LateFine(config, rules, o, m.slashProtect));
      Settlement(slashed.market, Item(config, OrderFee(o) + slashed.collected, map[], None, deliverer, confirmer), slashed.collected)
  }

  // ---------------------------------------------------------------- rewards of a confirmed range

  /** Relayer `r` delivered the nonces `first..stop`, the end excluded. */
  function Nonces(r: AccountId, first: nat, stop: nat): seq<(AccountId, Nonce)>
    requires stop <= U64_MAX + 1
    decreases stop
  {
    if stop <= first then [] else Nonces(r, first, stop - 1) + [(r, stop - 1)]
  }

  function Clipped(e: UnrewardedRelayer, begin: Nonce, end: Nonce): seq<(AccountId, Nonce)> {
    Nonces(e.relayer, Max(e.messages.begin, begin), Min(e.messages.end, end) + 1)
  }

  /** Deliverer and nonce of every message of the range, as the entries list them. */
  function Work(entries: seq<UnrewardedRelayer>, begin: Nonce, end: Nonce): seq<(AccountId, Nonce)> {
    if entries == [] then []
    else Work(entries[..|entries| - 1], begin, end) + Clipped(entries[|entries| - 1], begin, end)
  }

  datatype Payout = Payout(market: Market, items: seq<RewardItem>, collected: Balance)

  ghost function Rewards(
    config: Config, rules: Rules, m: Market, lane: LaneId, work: seq<(AccountId, Nonce)>, confirmer: AccountId): Payout
    decreases |work|
  {
    if work == [] then Payout(m, [], 0)
    else RewardsNext(config, rules, Rewards(config, rules, m, lane, work[..|work| - 1], confirmer), lane, work[|work| - 1], confirmer)
  }

  ghost function RewardsNext(
    config: Config, rules: Rules, before: Payout, lane: LaneId, message: (AccountId, Nonce), confirmer: AccountId): Payout
  {
    var key: Key := (lane, message.1);
    if key !in before.market.orders then before
    else
      var last := Settled(config, rules, before.market, before.market.orders[key], message.0, confirmer);
      Payout(last.market, before.items + [last.item], before.collected + last.collected)
  }

  // ---------------------------------------------------------------- payment

  datatype Totals = Totals(confirm: Balance, deliver: map<AccountId, Balance>, toAssigned: map<AccountId, Balance>, treasury: Balance)

  function Plus(sums: map<AccountId, Balance>, more: map<AccountId, Balance>): map<AccountId, Balance> {
    map k | k in sums.Keys + more.Keys :: At(sums, k) + At(more, k)
  }

  function TotalsNext(t: Totals, item: RewardItem): Totals {
    Totals(t.confirm + item.toConfirm.1,
           Plus(t.deliver, map[item.toDeliver.0 := item.toDeliver.1]),
           Plus(t.toAssigned, item.toAssigned),
           t.treasury + if item.toTreasury.Some? then item.toTreasury.value else 0)
  }

  function TotalsOf(items: seq<RewardItem>): Totals {
    if items == [] then Totals(0, map[], map[], 0)
    else TotalsNext(TotalsOf(items[..|items| - 1]), items[|items| - 1])
  }

  predicate IsLeast(k: AccountId, keys: set<AccountId>) {
    k in keys && forall j | j in keys :: k <= j
  }

  lemma HasLeast(keys: set<AccountId>)
    requires keys != {}
    ensures exists k :: IsLeast(k, keys)
  {
    var k :| k in keys;
    var rest := keys - {k};
    assert keys == rest + {k};
    if rest == {} {
      assert IsLeast(k, keys);
    } else {
      HasLeast(rest);
      var least :| IsLeast(least, rest);
      assert IsLeast(if k <= least then k else least, keys);
    }
  }

  /** Payments in the order of a B-tree map: ascending account. */
  ghost function Ascending(sums: map<AccountId, Balance>, keys: set<AccountId>): seq<(AccountId, Balance)> {
    if keys == {} then []
    else
      HasLeast(keys);
      var k :| IsLeast(k, keys);
      [(k, At(sums, k))] + Ascending(sums, keys - {k})
  }

  ghost function PaidOut(rules: Rules, m: Market, fund: AccountId, payments: seq<(AccountId, Balance)>): Market
    decreases |payments|
  {
    if payments == [] then m
    else PaidOut(rules, Rewarded(rules, m, fund, payments[0].0, payments[0].1), fund, payments[1..])
  }

  /** Confirmer first, then deliverers, then assigned relayers, then the treasury. */
  ghost function Payments(t: Totals, confirmer: AccountId, treasury: AccountId): seq<(AccountId, Balance)> {
    [(confirmer, t.confirm)] + Ascending(t.deliver, t.deliver.Keys) + Ascending(t.toAssigned, t.toAssigned.Keys)
    + [(treasury, t.treasury)]
  }

  ghost function Paid(
    config: Config, rules: Rules, m: Market, lane: LaneId, work: seq<(AccountId, Nonce)>, confirmer: AccountId): Market
  {
    var payout := Rewards(config, rules, m, lane, work, confirmer);
    PaidOut(rules, payout.market, config.fund, Payments(TotalsOf(payout.items), confirmer, config.treasury))
  }

  // ---------------------------------------------------------------- procedures

  method Transfer(p: Pallet, rules: Rules, from: AccountId, to: AccountId, amount: Balance, keepAlive: bool) returns (ok: bool)
    modifies p`balances
    ensures match Transferred(rules, old(p.View()), from, to, amount, keepAlive)
            case Some(next) => ok && p.View() == next
            case None => !ok && p.View() == old(p.View())
  {
    ok := Transferable(rules, p.View(), from, to, amount, keepAlive);
    if ok && amount != 0 && from != to {
      p.balances := p.balances[from := At(p.balances, from) - amount][to := At(p.balances, to) + amount];
    }
  }

  method PayDeliveryAndDispatchFee(p: Pallet, rules: Rules, submitter: Option<AccountId>, fee: Balance) returns (ok: bool)
    modifies p`balances
    ensures match FeePaid(rules, old(p.View()), submitter, fee, p.config.fund)
            case Some(next) => ok && p.View() == next
            case None => !ok && p.View() == old(p.View())
  {
    if submitter.None? {
      return fee == 0;
    }
    ok := Transfer(p, rules, submitter.value, p.config.fund, fee, false);
  }

  method DoReward(p: Pallet, rules: Rules, to: AccountId, reward: Balance)
    modifies p`balances
    ensures p.View() == Rewarded(rules, old(p.View()), p.config.fund, to, reward)
  {
    if reward != 0 {
      var ok := Transfer(p, rules, p.config.fund, to, reward, true);
    }
  }

  method SlashAssignedRelayer(p: Pallet, rules: Rules, o: Order, who: AccountId, amount: Balance) returns (collected: Balance)
    modifies p
    ensures Slashed(p.config, rules, old(p.View()), o, who, amount) == Slash(p.View(), collected)
  {
    var slash: Balance := Min(amount, o.collateral);
    p.locks := p.locks - {who};
    var ok := Transfer(p, rules, who, p.config.fund, slash, false);
    var collateral := Collateral(p.View(), who);
    if ok {
      p.SetCollateral(who, Max(0, collateral - slash));
      p.UpdateMarket();
      return slash;
    }
    p.SetCollateral(who, collateral);
    p.UpdateMarket();
    collected := 0;
  }

  method SlashAll(p: Pallet, rules: Rules, o: Order, ids: seq<AccountId>, amount: Balance) returns (collected: Balance)
    modifies p
    ensures SlashEach(p.config, rules, old(p.View()), o, ids, amount) == Slash(p.View(), collected)
  {
    hide Slashed;
    collected := 0;
    for i := 0 to |ids|
      invariant SlashEach(p.config, rules, old(p.View()), o, ids[..i], amount) == Slash(p.View(), collected)
    {
      assert ids[..i + 1][..i] == ids[..i];
      var more := SlashAssignedRelayer(p, rules, o, ids[i], amount);
      collected := collected + more;
    }
    assert ids[..|ids|] == ids;
  }

  /** Duty reward of each relayer still on duty; what is left of the surplus. */
  method ShareDuty(config: Config, duty: seq<AccountId>, surplus: Balance)
    returns (toAssigned: map<AccountId, Balance>, left: Balance)
    ensures var each := DutyReward(config, surplus, |duty|);
            toAssigned == EachGets(duty, each) && left == Max(0, surplus - |duty| * each)
  {
    var each := DutyReward(config, surplus, |duty|);
    toAssigned, left := map[], surplus;
    for i := 0 to |duty|
      invariant toAssigned == EachGets(duty[..i], each)
      invariant left == Max(0, surplus - i * each)
    {
      assert duty[..i + 1] == duty[..i] + [duty[i]];
      assert (i + 1) * each == i * each + each;
      toAssigned := toAssigned[duty[i] := each];
      left := Max(0, left - each);
    }
    assert duty[..|duty|] == duty;
  }

  method SettleOrder(p: Pallet, rules: Rules, o: Order, deliverer: AccountId, confirmer: AccountId) returns (item: RewardItem)
    modifies p
    ensures var s := Settled(p.config, rules, old(p.View()), o, deliverer, confirmer);
            p.View() == s.market && item == s.item
  {
    hide SlashEach, Share;
    var config, ids := p.config, Ids(o.assignedRelayers);
    var info := FindConfirmedInfo(o);
    if info.Some? && info.value.0 == 0 {
      var surplus: Balance := Max(0, OrderFee(o) - info.value.1);
      var toAssigned, left := ShareDuty(config, ids, surplus);
      NobodyToSlash(config, rules, p.View(), o, Share(config.slashRatio, o.collateral));
      assert ids[..0] == [] && ids[0..] == ids;
      item := Item(config, info.value.1, toAssigned, Some(left), deliverer, confirmer);
    } else if info.Some? {
      var surplus: Balance := Max(0, OrderFee(o) - info.value.1);
      var collected := SlashAll(p, rules, o, ids[..info.value.0], Share(config.slashRatio, o.collateral));
      var toAssigned, left := ShareDuty(config, ids[info.value.0..], surplus);
      item := Item(config, info.value.1 + collected, toAssigned, Some(left), deliverer, confirmer);
    } else {
      var collected := SlashAll(p, rules, o, ids, LateFine(config, rules, o, p.collateralSlashProtect));
      item := Item(config, OrderFee(o) + collected, map[], None, deliverer, confirmer);
    }
  }

  lemma NobodyToSlash(config: Config, rules: Rules, m: Market, o: Order, amount: Balance)
    ensures SlashEach(config, rules, m, o, [], amount) == Slash(m, 0)
  {}

  method CalculateRewards(p: Pallet, rules: Rules, lane: LaneId, entries: seq<UnrewardedRelayer>, confirmer: AccountId, begin: Nonce, end: Nonce)
    returns (items: seq<RewardItem>)
    modifies p
    ensures var payout := Rewards(p.config, rules, old(p.View()), lane, Work(entries, begin, end), confirmer);
            p.View() == payout.market && items == payout.items
  {
    hide Settled, Rewards;
    items := [];
    NothingToReward(p.config, rules, p.View(), lane, confirmer);
    for i := 0 to |entries|
      invariant var payout := Rewards(p.config, rules, old(p.View()), lane, Work(entries[..i], begin, end), confirmer);
                p.View() == payout.market && items == payout.items
    {
      ghost var done := Work(entries[..i], begin, end);
      assert entries[..i + 1][..i] == entries[..i];
      var relayer := entries[i].relayer;
      var first, last := Max(entries[i].messages.begin, begin), Min(entries[i].messages.end, end);
      var next: nat := first;
      assert done + Nonces(relayer, first, first) == done;
      while next < last + 1
        invariant first <= next <= Max(first, last + 1)
        invariant var payout := Rewards(p.config, rules, old(p.View()), lane, done + Nonces(relayer, first, next), confirmer);
                  p.View() == payout.market && items == payout.items
        decreases last + 1 - next
      {
        var nonce: Nonce := next;
        ghost var work := done + Nonces(relayer, first, next);
        assert done + Nonces(relayer, first, next + 1) == work + [(relayer, nonce)];
        RewardsStep(p.config, rules, old(p.View()), lane, work, (relayer, nonce), confirmer);
        if (lane, nonce) in p.orders {
          var item := SettleOrder(p, rules, p.orders[(lane, nonce)], relayer, confirmer);
          items := items + [item];
        }
        next := next + 1;
      }
      assert Nonces(relayer, first, next) == Clipped(entries[i], begin, end);
    }
    assert entries[..|entries|] == entries;
  }

  lemma NothingToReward(config: Config, rules: Rules, m: Market, lane: LaneId, confirmer: AccountId)
    ensures Rewards(config, rules, m, lane, [], confirmer) == Payout(m, [], 0)
  {}

  lemma RewardsStep(
    config: Config, rules: Rules, m: Market, lane: LaneId, work: seq<(AccountId, Nonce)>, message: (AccountId, Nonce), confirmer: AccountId)
    ensures Rewards(config, rules, m, lane, work + [message], confirmer)
            == RewardsNext(config, rules, Rewards(config, rules, m, lane, work, confirmer), lane, message, confirmer)
  {
    assert (work + [message])[..|work|] == work;
  }

  /** Entry of a running sum per account. */
  method AddTo(sums: map<AccountId, Balance>, more: map<AccountId, Balance>) returns (total: map<AccountId, Balance>)
    ensures total == Plus(sums, more)
  {
    total := sums;
    var left := more.Keys;
    while left != {}
      invariant left <= more.Keys && total.Keys == sums.Keys + (more.Keys - left)
      invariant forall k | k in total :: total[k] == At(sums, k) + if k in left then 0 else At(more, k)
      decreases left
    {
      var k :| k in left;
      total := total[k := if k in total then total[k] + more[k] else more[k]];
      left := left - {k};
    }
  }

  method RewardEach(p: Pallet, rules: Rules, sums: map<AccountId, Balance>)
    modifies p`balances
    ensures p.View() == PaidOut(rules, old(p.View()), p.config.fund, Ascending(sums, sums.Keys))
  {
    hide Rewarded;
    var left := sums.Keys;
    assert left == sums.Keys;
    while left != {}
      invariant left <= sums.Keys
      invariant PaidOut(rules, old(p.View()), p.config.fund, Ascending(sums, sums.Keys))
                == PaidOut(rules, p.View(), p.config.fund, Ascending(sums, left))
      decreases left
    {
      HasLeast(left);
      var k :| k in left && IsLeast(k, left);
      assert Ascending(sums, left) == [(k, sums[k])] + Ascending(sums, left - {k});
      DoReward(p, rules, k, sums[k]);
      left := left - {k};
    }
  }

  method AddUp(items: seq<RewardItem>) returns (t: Totals)
    ensures t == TotalsOf(items)
  {
    var deliver, confirm: Balance, toAssigned, treasury: Balance := map[], 0, map[], 0;
    for i := 0 to |items|
      invariant TotalsOf(items[..i]) == Totals(confirm, deliver, toAssigned, treasury)
    {
      assert items[..i + 1][..i] == items[..i];
      toAssigned := AddTo(toAssigned, items[i].toAssigned);
      treasury := treasury + if items[i].toTreasury.Some? then items[i].toTreasury.value else 0;
      deliver := AddTo(deliver, map[items[i].toDeliver.0 := items[i].toDeliver.1]);
      confirm := confirm + items[i].toConfirm.1;
    }
    assert items[..|items|] == items;
    t := Totals(confirm, deliver, toAssigned, treasury);
  }

  method PayTotals(p: Pallet, rules: Rules, t: Totals, confirmer: AccountId)
    modifies p`balances
    ensures p.View() == PaidOut(rules, old(p.View()), p.config.fund, Payments(t, confirmer, p.config.treasury))
  {
    hide Rewarded, Ascending, PaidOut;
    ghost var fund, m0 := p.config.fund, p.View();
    DoReward(p, rules, confirmer, t.confirm);
    ghost var m1 := p.View();
    RewardEach(p, rules, t.deliver);
    ghost var m2 := p.View();
    RewardEach(p, rules, t.toAssigned);
    ghost var m3 := p.View();
    DoReward(p, rules, p.config.treasury, t.treasury);
    ghost var first, second, third := [(confirmer, t.confirm)], Ascending(t.deliver, t.deliver.Keys), Ascending(t.toAssigned, t.toAssigned.Keys);
    PaidOnce(rules, m0, fund, confirmer, t.confirm);
    PaidInParts(rules, m0, fund, first, second);
    PaidInParts(rules, m0, fund, first + second, third);
    PaidInParts(rules, m0, fund, first + second + third, [(p.config.treasury, t.treasury)]);
    PaidOnce(rules, m3, fund, p.config.treasury, t.treasury);
  }

  method PayRelayersRewards(p: Pallet, rules: Rules, lane: LaneId, entries: seq<UnrewardedRelayer>, confirmer: AccountId, begin: Nonce, end: Nonce)
    modifies p
    ensures p.View() == Paid(p.config, rules, old(p.View()), lane, Work(entries, begin, end), confirmer)
  {
    var items := CalculateRewards(p, rules, lane, entries, confirmer, begin, end);
    var totals := AddUp(items);
    PayTotals(p, rules, totals, confirmer);
  }

  lemma PaidOnce(rules: Rules, m: Market, fund: AccountId, who: AccountId, amount: Balance)
    ensures PaidOut(rules, m, fund, [(who, amount)]) == Rewarded(rules, m, fund, who, amount)
  {
    assert [(who, amount)][1..] == [];
  }

  lemma {:induction false} PaidInParts(
    rules: Rules, m: Market, fund: AccountId, first: seq<(AccountId, Balance)>, second: seq<(AccountId, Balance)>)
    ensures PaidOut(rules, m, fund, first + second) == PaidOut(rules, PaidOut(rules, m, fund, first), fund, second)
    decreases |first|
  {
    hide Rewarded;
    if first == [] {
      assert first + second == second;
    } else {
      PaidInParts(rules, Rewarded(rules, m, fund, first[0].0, first[0].1), fund, first[1..], second);
      assert (first + second)[1..] == first[1..] + second;
    }
  }
}
