/** The quote of a reachable market: it reads the per-bond index, yet it is the best price over every
    live, unexpired order of the bond in the whole order table. */
module MarketQuote {
  import opened Host
  import opened Dex
  import opened Market
  import opened Quote

  /** The eligible orders with ids up to `n`, by scanning the whole table. */
  function Scan(orders: map<nat, Order>, n: nat, bond: nat, now: nat): seq<Order> {
    if n == 0 then []
    else if n in orders && Eligible(orders[n], bond, now) then Scan(orders, n - 1, bond, now) + [orders[n]]
    else Scan(orders, n - 1, bond, now)
  }

  lemma {:induction false} IndexIsScan(orders: map<nat, Order>, n: nat, bond: nat, now: nat)
    ensures EligibleIn(orders, IdsFor(orders, n, bond), bond, now) == Scan(orders, n, bond, now)
  {
    if n > 0 {
      IndexIsScan(orders, n - 1, bond, now);
      var ids := IdsFor(orders, n - 1, bond);
      assert (ids + [n])[..|ids|] == ids;
    }
  }

  /** Every scanned order is an eligible entry of the table, and ids are strictly increasing. */
  lemma {:induction false} ScanIsGood(orders: map<nat, Order>, n: nat, bond: nat, now: nat)
    requires forall id :: id in orders ==> orders[id].id == id && orders[id].price > 0
    ensures var list := Scan(orders, n, bond, now);
            && GoodPrices(list) && DistinctIds(list)
            && (forall i :: 0 <= i < |list| ==>
                  1 <= list[i].id <= n && list[i].id in orders && orders[list[i].id] == list[i] && Eligible(list[i], bond, now))
  {
    if n > 0 {
      ScanIsGood(orders, n - 1, bond, now);
    }
  }

  /** Nothing eligible is missed. */
  lemma {:induction false} ScanIsComplete(orders: map<nat, Order>, n: nat, bond: nat, now: nat, id: nat)
    requires 1 <= id <= n && id in orders && Eligible(orders[id], bond, now)
    ensures orders[id] in Scan(orders, n, bond, now)
  {
    if id < n {
      ScanIsComplete(orders, n - 1, bond, now, id);
    }
  }

  /** An order that can be taken now: of this bond, live, not used up, not expired. */
  predicate OnOffer(o: Order, bond: nat, now: nat) {
    o.bondId == bond && (o.status == Open || o.status == PartiallyFilled) && o.amount > 0 && now < o.expiresAt
  }

  /** The scanned list is exactly the orders on offer. */
  lemma {:induction false} ScanMembers(orders: map<nat, Order>, n: nat, bond: nat, now: nat, o: Order)
    ensures o in Scan(orders, n, bond, now) <==> exists id :: 1 <= id <= n && id in orders && orders[id] == o && OnOffer(o, bond, now)
  {
    if n > 0 {
      ScanMembers(orders, n - 1, bond, now, o);
    }
  }

  lemma OrdersAreGood(m: Market)
    requires Inv(m)
    ensures forall id :: id in m.dex.orders ==> m.dex.orders[id].id == id && m.dex.orders[id].price > 0
  {
    hide Issuer.Inv, IndexesOk, AssetOk;
    forall id | id in m.dex.orders
      ensures m.dex.orders[id].id == id && m.dex.orders[id].price > 0
    {
      assert OrderOk(m.dex.orders[id], m.escrow);
    }
  }

  /** The indexed quote equals the full-scan quote. */
  lemma IndexedQuote(m: Market, now: nat, bond: nat, side: Side, amount: int)
    requires Inv(m)
    ensures GetBestPrice(m.dex, now, bond, side, amount)
         == if amount <= 0 then Err(ZeroAmount)
            else PriceOf(side, Rank(side, Scan(m.dex.orders, m.dex.orderCount, bond, now)), amount)
  {
    hide Issuer.Inv, OrdersOk, AssetOk, PriceOf, Rank;
    IndexIsScan(m.dex.orders, m.dex.orderCount, bond, now);
  }

  /** Over every allocation of the wanted units across the live, unexpired orders of the bond, the quoted
      total is the minimum for a buy and the maximum for a sell, and slippage is in range. */
  lemma BestPriceIsOptimal(m: Market, now: nat, bond: nat, side: Side, amount: int, x: Allocation)
    requires Inv(m) && GetBestPrice(m.dex, now, bond, side, amount).Ok?
    ensures var list := Scan(m.dex.orders, m.dex.orderCount, bond, now);
            var (average, total, slippage) := GetBestPrice(m.dex, now, bond, side, amount).value;
            && (Within(list, x) && Units(list, x) == Wanted(list, amount) ==>
                  if side == Buy then total <= Cost(list, x) else total >= Cost(list, x))
            && (exists y :: Within(list, y) && Units(list, y) == Wanted(list, amount) && Cost(list, y) == total)
            && slippage >= 0 && (side == Sell ==> slippage <= 10_000)
            && (if list == [] then average == total == slippage == 0 else exists p :: Figures(side, list, amount, average, total, slippage, p))
            && (forall o :: o in list <==> exists id :: 1 <= id <= m.dex.orderCount && id in m.dex.orders && m.dex.orders[id] == o && OnOffer(o, bond, now))
  {
    hide Issuer.Inv, OrdersOk, AssetOk, IndexesOk, PriceOf, Rank, Scan, Figures;
    IndexedQuote(m, now, bond, side, amount);
    OrdersAreGood(m);
    var list := Scan(m.dex.orders, m.dex.orderCount, bond, now);
    ScanIsGood(m.dex.orders, m.dex.orderCount, bond, now);
    if Within(list, x) && Units(list, x) == Wanted(list, amount) {
      QuoteIsUnbeaten(side, list, amount, x);
    }
    var y := QuoteIsAttained(side, list, amount);
    SlippageBounds(side, list, amount);
    if list != [] {
      QuotedFigures(side, list, amount);
    } else {
      EmptyQuote(side, amount);
    }
    forall o
      ensures o in list <==> exists id :: 1 <= id <= m.dex.orderCount && id in m.dex.orders && m.dex.orders[id] == o && OnOffer(o, bond, now)
    {
      ScanMembers(m.dex.orders, m.dex.orderCount, bond, now, o);
    }
  }

  lemma EmptyQuote(side: Side, amount: int)
    ensures PriceOf(side, Rank(side, []), amount) == Ok((0, 0, 0))
  {
  }

  /** A quote is refused for an amount that is not positive, and otherwise only when its figures could leave
      i128: it is given whenever the wanted units, at the highest price on offer and in basis points, fit. */
  lemma QuoteRule(m: Market, now: nat, bond: nat, side: Side, amount: int, p: int)
    requires Inv(m)
    ensures var r := GetBestPrice(m.dex, now, bond, side, amount);
            var list := Scan(m.dex.orders, m.dex.orderCount, bond, now);
            && (amount <= 0 ==> r == Err(ZeroAmount))
            && (amount > 0 && r.Err? ==> r.error == Overflow)
            && (amount > 0 && PricesBelow(list, p) && 10_000 * (Wanted(list, amount) * p) <= I128_MAX ==> r.Ok?)
  {
    hide Issuer.Inv, OrdersOk, AssetOk, IndexesOk, PriceOf, Rank, Scan, PricesBelow, Wanted;
    IndexedQuote(m, now, bond, side, amount);
    OrdersAreGood(m);
    ScanIsGood(m.dex.orders, m.dex.orderCount, bond, now);
    var list := Scan(m.dex.orders, m.dex.orderCount, bond, now);
    OnlyOverflow(side, Rank(side, list), amount);
    if amount > 0 && PricesBelow(list, p) && 10_000 * (Wanted(list, amount) * p) <= I128_MAX {
      QuoteIsGiven(side, list, amount, p);
    }
  }

  lemma OnlyOverflow(side: Side, ranked: seq<Order>, amount: int)
    ensures PriceOf(side, ranked, amount).Err? ==> PriceOf(side, ranked, amount).error == Overflow
  {
    hide TruncDiv, Saturate;
    FillOverflow(ranked, amount, 0, 0);
  }

  lemma {:induction false} FillOverflow(list: seq<Order>, remaining: int, filled: int, total: int)
    ensures FillLoop(list, remaining, filled, total).Err? ==> FillLoop(list, remaining, filled, total).error == Overflow
    decreases |list|
  {
    if list != [] && remaining != 0 {
      var take := Min(remaining, list[0].amount);
      FillOverflow(list[1..], remaining - take, filled + take, total + take * list[0].price);
    }
  }

  /** In every reachable market a quote that is given is the best price. */
  lemma EveryRunQuotesBest(issuerAdmin: Address, dexAdmin: Address, calls: seq<Call>, now: nat, bond: nat, side: Side, amount: int, x: Allocation)
    requires GetBestPrice(Run(Deployed(issuerAdmin, dexAdmin), calls).dex, now, bond, side, amount).Ok?
    ensures var m := Run(Deployed(issuerAdmin, dexAdmin), calls);
            var list := Scan(m.dex.orders, m.dex.orderCount, bond, now);
            var total := GetBestPrice(m.dex, now, bond, side, amount).value.1;
            && (Within(list, x) && Units(list, x) == Wanted(list, amount) ==>
                  if side == Buy then total <= Cost(list, x) else total >= Cost(list, x))
            && (exists y :: Within(list, y) && Units(list, y) == Wanted(list, amount) && Cost(list, y) == total)
  {
    hide GetBestPrice, Run, Inv, Scan, Within, Units, Wanted, Cost;
    var m := Run(Deployed(issuerAdmin, dexAdmin), calls);
    DeployedInv(issuerAdmin, dexAdmin);
    RunKeepsInv(Deployed(issuerAdmin, dexAdmin), calls);
    BestPriceIsOptimal(m, now, bond, side, amount, x);
  }
}
