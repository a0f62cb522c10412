/** The DEXRouter contract object, wired to the BondIssuer object it settles on: the in-place insertion
    sort and fill loop of the quote, the cleaning loop, and every entry point that moves funds. */
module DexContract {
  import opened Host
  import opened Dex
  import opened Quote
  import Issuer
  import opened IssuerContract

  // ----- the loops of the quote -----

  lemma EligibleStep(orders: map<nat, Order>, ids: seq<nat>, n: nat, bond: nat, now: nat)
    requires n < |ids|
    ensures var front := EligibleIn(orders, ids[..n], bond, now);
            EligibleIn(orders, ids[..n + 1], bond, now)
            == if ids[n] in orders && Eligible(orders[ids[n]], bond, now) then front + [orders[ids[n]]] else front
  {
    assert ids[..n + 1][..n] == ids[..n];
  }

  lemma RankStep(side: Side, list: seq<Order>, o: Order)
    ensures Rank(side, list + [o]) == Insert(side, Rank(side, list), o)
  {
    assert (list + [o])[..|list|] == list;
  }

  /** A scan for the insertion point ends where `Position` says. */
  lemma {:induction false} PositionFrom(side: Side, list: seq<Order>, o: Order, i: nat)
    requires i <= |list| && forall k :: 0 <= k < i ==> !Precedes(side, o, list[k])
    ensures Position(side, list, o, 0) == Position(side, list, o, i)
    decreases i
  {
    if i > 0 {
      PositionFrom(side, list, o, i - 1);
    }
  }

  /** Collect the eligible orders, inserting each into its place by price, then by id. */
  method SortEligible(orders: map<nat, Order>, ids: seq<nat>, bond: nat, now: nat, side: Side) returns (sorted: seq<Order>)
    ensures sorted == Rank(side, EligibleIn(orders, ids, bond, now))
  {
    hide Rank, EligibleIn, Position, Precedes, Eligible;
    sorted := [];
    NothingYet(orders, ids, bond, now, side);
    for n := 0 to |ids|
      invariant sorted == Rank(side, EligibleIn(orders, ids[..n], bond, now))
    {
      EligibleStep(orders, ids, n, bond, now);
      if ids[n] !in orders || !Eligible(orders[ids[n]], bond, now) {
        continue;
      }
      var order := orders[ids[n]];
      var position := 0;
      while position < |sorted| && !Precedes(side, order, sorted[position])
        invariant 0 <= position <= |sorted|
        invariant forall k :: 0 <= k < position ==> !Precedes(side, order, sorted[k])
      {
        position := position + 1;
      }
      PositionFrom(side, sorted, order, position);
      PositionStops(side, sorted, order, position);
      RankStep(side, EligibleIn(orders, ids[..n], bond, now), order);
      sorted := sorted[..position] + [order] + sorted[position..];
    }
    assert ids[..|ids|] == ids;
  }

  lemma PositionStops(side: Side, list: seq<Order>, o: Order, i: nat)
    requires i <= |list| && (i < |list| ==> Precedes(side, o, list[i]))
    ensures Position(side, list, o, i) == i
  {
  }

  lemma NothingYet(orders: map<nat, Order>, ids: seq<nat>, bond: nat, now: nat, side: Side)
    ensures Rank(side, EligibleIn(orders, ids[..0], bond, now)) == []
  {
  }

  /** The greedy fill with its running `remaining`, `filled` and `total`. */
  method Fill(sorted: seq<Order>, amount: int) returns (r: Result<(int, int), DexError>)
    ensures r == FillLoop(sorted, amount, 0, 0)
  {
    var remaining, filled, total := amount, 0, 0;
    assert sorted[0..] == sorted;
    var i := 0;
    while i < |sorted| && remaining != 0
      invariant 0 <= i <= |sorted|
      invariant FillLoop(sorted, amount, 0, 0) == FillLoop(sorted[i..], remaining, filled, total)
    {
      assert sorted[i..][1..] == sorted[i + 1..];
      var take := Min(remaining, sorted[i].amount);
      var cost := take * sorted[i].price;
      if !Fits(cost) { return Err(Overflow); }
      if !Fits(total + cost) { return Err(Overflow); }
      total := total + cost;
      if !Fits(filled + take) { return Err(Overflow); }
      filled := filled + take;
      remaining := remaining - take;
      i := i + 1;
    }
    return Ok((filled, total));
  }

  lemma CleanedStep(orders: map<nat, Order>, now: nat, a: nat, n: nat)
    requires a <= n
    ensures var front := if a < n then Cleaned(orders, now, a, n - 1) else orders;
            Cleaned(orders, now, a, n) == if Stale(orders, now, n) then front[n := orders[n].(status := Expired)] else front
    ensures StaleCount(orders, now, a, n) == StaleCount(orders, now, a, n - 1) + if Stale(orders, now, n) then 1 else 0
  {
    var front := if a < n then Cleaned(orders, now, a, n - 1) else orders;
    var out := if Stale(orders, now, n) then front[n := orders[n].(status := Expired)] else front;
    assert out.Keys == orders.Keys;
    assert Cleaned(orders, now, a, n) == out;
  }

  /** Walk the ids `a`..`b`, marking each stale order expired in the table. */
  method ExpireRange(orders0: map<nat, Order>, now: nat, a: nat, b: nat) returns (orders: map<nat, Order>, cleaned: nat)
    requires a <= b
    ensures orders == Cleaned(orders0, now, a, b)
    ensures cleaned == StaleCount(orders0, now, a, b)
  {
    hide Cleaned, StaleCount;
    orders := orders0;
    cleaned := 0;
    NoneStale(orders0, now, a);
    for id := a to b + 1
      invariant orders == if a < id then Cleaned(orders0, now, a, id - 1) else orders0
      invariant cleaned == StaleCount(orders0, now, a, id - 1)
      invariant forall k :: id <= k && k in orders0 ==> k in orders && orders[k] == orders0[k]
      invariant orders.Keys == orders0.Keys
    {
      CleanedStep(orders0, now, a, id);
      if id in orders && Live(orders[id]) && now >= orders[id].expiresAt {
        orders := orders[id := orders[id].(status := Expired)];
        cleaned := cleaned + 1;
      }
    }
  }

  lemma NoneStale(orders: map<nat, Order>, now: nat, a: nat)
    ensures StaleCount(orders, now, a, a - 1) == 0
  {
  }

  // ----- the contract -----

  /** Debit the buyer, then credit the seller. */
  method MoveQuote(accounts0: map<Address, int>, buyer: Address, seller: Address, proceeds: int) returns (r: Result<map<Address, int>, DexError>)
    requires buyer != seller
    ensures r == if Get(accounts0, buyer) < proceeds then Err(InsufficientFunds)
                 else if !Fits(Get(accounts0, seller) + proceeds) then Err(Overflow)
                 else Ok(Settle(accounts0, buyer, seller, proceeds))
  {
    var accounts := accounts0;
    var buyerBalance := Get(accounts, buyer);
    if buyerBalance < proceeds { return Err(InsufficientFunds); }
    accounts := accounts[buyer := buyerBalance - proceeds];
    var sellerBalance := Get(accounts, seller);
    if !Fits(sellerBalance + proceeds) { return Err(Overflow); }
    accounts := accounts[seller := sellerBalance + proceeds];
    return Ok(accounts);
  }

  method FillOrder(order0: Order, amount: int) returns (order: Order)
    ensures order == AfterFill(order0, amount)
  {
    order := order0;
    if amount == order.amount {
      order := order.(status := Filled);
    } else {
      order := order.(status := PartiallyFilled);
      order := order.(amount := order.amount - amount);
    }
  }

  class DEXRouter {
    var storage: Storage
    const issuer: BondIssuer

    constructor (admin: Address, issuer: BondIssuer)
      ensures storage == Dex.Constructed(admin) && this.issuer == issuer
    {
      storage := Storage(admin, map[], 0, map[], map[], map[], map[]);
      this.issuer := issuer;
    }

    method ListBondTokens(now: nat, seller: Address, bond: nat, amount: int, price: int, asset: Symbol, expiresAfter: nat, nonce: nat)
      returns (r: Result<nat, DexError>)
      modifies this
      ensures Settles(Dex.ListBondTokens(old(storage), issuer.storage, now, seller, bond, amount, price, asset, expiresAfter, nonce),
                      old(storage), storage, r)
    {
      var s := storage;
      if nonce != NonceOf(s.nonces, seller) { return Err(InvalidNonce); }
      if nonce >= U64_MAX { return Err(Trap); }
      s := s.(nonces := s.nonces[seller := nonce + 1]);
      if amount <= 0 || price <= 0 { return Err(ZeroAmount); }
      if expiresAfter == 0 { return Err(OrderExpired); }
      if Issuer.BalanceOf(issuer.storage, bond, seller) < amount { return Err(InsufficientBalance); }
      if s.orderCount >= U64_MAX { return Err(Trap); }
      var id := s.orderCount + 1;
      s := s.(orderCount := id);
      if now + expiresAfter > U64_MAX { return Err(OrderExpired); }
      var order := Order(id, seller, bond, amount, price, asset, Open, now, now + expiresAfter);
      s := s.(orders := s.orders[id := order]);
      s := s.(sellerOrders := s.sellerOrders[seller := ListAt(s.sellerOrders, seller) + [id]]);
      s := s.(bondOrders := s.bondOrders[bond := ListAt(s.bondOrders, bond) + [id]]);
      storage := s;
      return Ok(id);
    }

    method CancelListing(caller: Address, orderId: nat, nonce: nat) returns (r: Result<(), DexError>)
      modifies this
      ensures Settles(Dex.CancelListing(old(storage), caller, orderId, nonce), old(storage), storage, r)
    {
      var s := storage;
      if nonce != NonceOf(s.nonces, caller) { return Err(InvalidNonce); }
      if nonce >= U64_MAX { return Err(Trap); }
      s := s.(nonces := s.nonces[caller := nonce + 1]);
      if orderId !in s.orders { return Err(OrderNotFound); }
      var order := s.orders[orderId];
      if caller != order.seller { return Err(Unauthorized); }
      if order.status != Open && order.status != PartiallyFilled { return Err(OrderAlreadyFilled); }
      s := s.(orders := s.orders[orderId := order.(status := Cancelled)]);
      storage := s;
      return Ok(());
    }

    method ExecutePurchase(now: nat, buyer: Address, orderId: nat, maxPrice: int, amount: int, nonce: nat) returns (r: Result<(), DexError>)
      modifies this, issuer
      ensures Settles(Dex.ExecutePurchase(old(storage), old(issuer.storage), now, buyer, orderId, maxPrice, amount, nonce),
                      (old(storage), old(issuer.storage)), (storage, issuer.storage), r)
    {
      hide Issuer.Transfer, Settle, AfterFill, Issuer.BalanceOf;
      var s := storage;
      if nonce != NonceOf(s.nonces, buyer) { return Err(InvalidNonce); }
      if nonce >= U64_MAX { return Err(Trap); }
      s := s.(nonces := s.nonces[buyer := nonce + 1]);
      if orderId !in s.orders { return Err(OrderNotFound); }
      var order := s.orders[orderId];
      if order.status != Open && order.status != PartiallyFilled { return Err(OrderAlreadyFilled); }
      if buyer == order.seller { return Err(SelfBuyNotAllowed); }
      if now >= order.expiresAt { return Err(OrderExpired); }
      if amount <= 0 { return Err(ZeroAmount); }
      if amount > order.amount { return Err(InsufficientBalance); }
      if maxPrice < order.price { return Err(InsufficientBalance); }
      if Issuer.BalanceOf(issuer.storage, order.bondId, order.seller) < amount { return Err(SellerBalanceDepleted); }
      var proceeds := amount * order.price;
      if !Fits(proceeds) { return Err(Overflow); }
      var paid := MoveQuote(Accounts(s, order.quoteAsset), buyer, order.seller, proceeds);
      if paid.Err? { return Err(paid.error); }
      s := s.(balances := s.balances[order.quoteAsset := paid.value]);
      var sellerNonce := NonceOf(issuer.storage.nonces, order.seller);
      var moved := issuer.Transfer(now, order.seller, buyer, order.bondId, amount, sellerNonce);
      if moved.Err? {
        return Err(if moved.error == Issuer.InvalidNonce then InvalidNonce else InsufficientBalance);
      }
      order := FillOrder(order, amount);
      s := s.(orders := s.orders[orderId := order]);
      storage := s;
      return Ok(());
    }

    method DepositQuote(caller: Address, asset: Symbol, amount: int, nonce: nat) returns (r: Result<(), DexError>)
      modifies this
      ensures Settles(Dex.DepositQuote(old(storage), caller, asset, amount, nonce), old(storage), storage, r)
    {
      var s := storage;
      if nonce != NonceOf(s.nonces, caller) { return Err(InvalidNonce); }
      if nonce >= U64_MAX { return Err(Trap); }
      s := s.(nonces := s.nonces[caller := nonce + 1]);
      if amount <= 0 { return Err(ZeroAmount); }
      var balance := Get(Accounts(s, asset), caller);
      if !Fits(balance + amount) { return Err(Overflow); }
      s := s.(balances := s.balances[asset := Accounts(s, asset)[caller := balance + amount]]);
      storage := s;
      return Ok(());
    }

    method WithdrawQuote(caller: Address, asset: Symbol, amount: int, nonce: nat) returns (r: Result<(), DexError>)
      modifies this
      ensures Settles(Dex.WithdrawQuote(old(storage), caller, asset, amount, nonce), old(storage), storage, r)
    {
      var s := storage;
      if nonce != NonceOf(s.nonces, caller) { return Err(InvalidNonce); }
      if nonce >= U64_MAX { return Err(Trap); }
      s := s.(nonces := s.nonces[caller := nonce + 1]);
      if amount <= 0 { return Err(ZeroAmount); }
      var balance := Get(Accounts(s, asset), caller);
      if balance < amount { return Err(InsufficientFunds); }
      s := s.(balances := s.balances[asset := Accounts(s, asset)[caller := balance - amount]]);
      storage := s;
      return Ok(());
    }

    method GetBestPrice(now: nat, bond: nat, side: Side, amount: int) returns (r: Result<(int, int, int), DexError>)
      ensures r == Quote.GetBestPrice(storage, now, bond, side, amount)
    {
      hide Rank, EligibleIn, FillLoop;
      if amount <= 0 { return Err(ZeroAmount); }
      var sorted := SortEligible(storage.orders, ListAt(storage.bondOrders, bond), bond, now, side);
      if sorted == [] { return Ok((0, 0, 0)); }
      var bestPrice := sorted[0].price;
      var fill := Fill(sorted, amount);
      if fill.Err? { return Err(fill.error); }
      var (filled, total) := fill.value;
      if filled == 0 { return Ok((0, 0, 0)); }
      var average := Quotient(total, filled);
      var ideal := filled * bestPrice;
      if !Fits(ideal) { return Err(Overflow); }
      var adverse := Saturate(if side == Buy then total - ideal else ideal - total);
      var slippage := 0;
      if ideal > 0 {
        if !Fits(adverse * 10_000) { return Err(Overflow); }
        slippage := Quotient(adverse * 10_000, ideal);
      }
      return Ok((average, total, slippage));
    }

    method CleanExpiredOrders(now: nat, caller: Address, nonce: nat) returns (r: Result<nat, DexError>)
      modifies this
      ensures Settles(Dex.CleanExpiredOrders(old(storage), now, caller, nonce), old(storage), storage, r)
    {
      hide Cleaned, StaleCount;
      var s := storage;
      if nonce != NonceOf(s.nonces, caller) { return Err(InvalidNonce); }
      if nonce >= U64_MAX { return Err(Trap); }
      s := s.(nonces := s.nonces[caller := nonce + 1]);
      if caller != s.admin { return Err(Unauthorized); }
      if s.orderCount == 0 {
        NothingToClean(s.orders, now);
        storage := s;
        return Ok(0);
      }
      var orders, cleaned := ExpireRange(s.orders, now, 1, s.orderCount);
      if cleaned > U32_MAX { return Err(Trap); }
      s := s.(orders := orders);
      storage := s;
      return Ok(cleaned);
    }

    method CleanExpiredOrdersRange(now: nat, caller: Address, nonce: nat, first: nat, last: nat) returns (r: Result<nat, DexError>)
      modifies this
      ensures Settles(Dex.CleanExpiredOrdersRange(old(storage), now, caller, nonce, first, last), old(storage), storage, r)
    {
      hide Cleaned, StaleCount;
      var s := storage;
      if nonce != NonceOf(s.nonces, caller) { return Err(InvalidNonce); }
      if nonce >= U64_MAX { return Err(Trap); }
      s := s.(nonces := s.nonces[caller := nonce + 1]);
      if caller != s.admin { return Err(Unauthorized); }
      if first < 1 || last > s.orderCount || first > last { return Err(InvalidRange); }
      var orders, cleaned := ExpireRange(s.orders, now, first, last);
      if cleaned > U32_MAX { return Err(Trap); }
      s := s.(orders := orders);
      storage := s;
      return Ok(cleaned);
    }
  }

  lemma NothingToClean(orders: map<nat, Order>, now: nat)
    ensures Cleaned(orders, now, 1, 0) == orders && StaleCount(orders, now, 1, 0) == 0
  {
  }
}
