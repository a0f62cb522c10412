/** contracts/dex-router: the escrowed order book. One transition per entry point. */
module Dex {
  import opened Host
  import Issuer

  datatype DexError =
    | Unauthorized | InvalidNonce | OrderNotFound | OrderAlreadyFilled | InsufficientBalance | SelfBuyNotAllowed
    | OrderExpired | ZeroAmount | InsufficientFunds | Overflow | SellerBalanceDepleted | InvalidRange | Trap

  datatype OrderStatus = Open | PartiallyFilled | Filled | Cancelled | Expired

  datatype Side = Buy | Sell

  datatype Order = Order(
    id: nat,
    seller: Address,
    bondId: nat,
    amount: int,
    price: int,
    quoteAsset: Symbol,
    status: OrderStatus,
    createdAt: nat,
    expiresAt: nat)

  /** Quote balances are grouped per asset. */
  datatype Storage = Storage(
    admin: Address,
    orders: map<nat, Order>,
    orderCount: nat,
    sellerOrders: map<Address, seq<nat>>,
    bondOrders: map<nat, seq<nat>>,
    balances: map<Symbol, map<Address, int>>,
    nonces: Nonces)

  function Constructed(admin: Address): Storage {
    Storage(admin, map[], 0, map[], map[], map[], map[])
  }

  function Accounts(s: Storage, asset: Symbol): map<Address, int> {
    if asset in s.balances then s.balances[asset] else map[]
  }

  predicate Live(o: Order) {
    o.status == Open || o.status == PartiallyFilled
  }

  function ListBondTokens(s: Storage, issuer: Issuer.Storage, now: nat, seller: Address, bond: nat, amount: int, price: int,
                          asset: Symbol, expiresAfter: nat, nonce: nat)
    : Result<(Storage, nat), DexError>
  {
    var nonces := UseNonce(s.nonces, seller, nonce, InvalidNonce, Trap);
    if nonces.Err? then Err(nonces.error)
    else if amount <= 0 || price <= 0 then Err(ZeroAmount)
    else if expiresAfter == 0 then Err(OrderExpired)
    else if Issuer.BalanceOf(issuer, bond, seller) < amount then Err(InsufficientBalance)
    else if s.orderCount >= U64_MAX then Err(Trap)
    else if now + expiresAfter > U64_MAX then Err(OrderExpired)
    else
      var id := s.orderCount + 1;
      Ok((Storage(s.admin,
                  s.orders[id := Order(id, seller, bond, amount, price, asset, Open, now, now + expiresAfter)],
                  id,
                  s.sellerOrders[seller := ListAt(s.sellerOrders, seller) + [id]],
                  s.bondOrders[bond := ListAt(s.bondOrders, bond) + [id]],
                  s.balances,
                  nonces.value), id))
  }

  function CancelListing(s: Storage, caller: Address, orderId: nat, nonce: nat): Result<(Storage, ()), DexError> {
    var nonces := UseNonce(s.nonces, caller, nonce, InvalidNonce, Trap);
    if nonces.Err? then Err(nonces.error)
    else if orderId !in s.orders then Err(OrderNotFound)
    else if caller != s.orders[orderId].seller then Err(Unauthorized)
    else if !Live(s.orders[orderId]) then Err(OrderAlreadyFilled)
    else
      var o := s.orders[orderId].(status := Cancelled);
      Ok((Storage(s.admin, s.orders[orderId := o], s.orderCount, s.sellerOrders, s.bondOrders, s.balances, nonces.value), ()))
  }

  /** What a fill leaves of an order; a filled order keeps its last remaining amount. */
  function AfterFill(o: Order, amount: int): Order {
    if amount == o.amount then o.(status := Filled)
    else o.(status := PartiallyFilled, amount := o.amount - amount)
  }

  function Settle(m: map<Address, int>, buyer: Address, seller: Address, proceeds: int): map<Address, int> {
    var debited := m[buyer := Get(m, buyer) - proceeds];
    debited[seller := Get(debited, seller) + proceeds]
  }

  /** The guards on the order itself, in the order the contract checks them. */
  function PurchaseGuard(o: Order, now: nat, buyer: Address, maxPrice: int, amount: int): Option<DexError> {
    if !Live(o) then Some(OrderAlreadyFilled)
    else if buyer == o.seller then Some(SelfBuyNotAllowed)
    else if now >= o.expiresAt then Some(OrderExpired)
    else if amount <= 0 then Some(ZeroAmount)
    else if amount > o.amount then Some(InsufficientBalance)
    else if maxPrice < o.price then Some(InsufficientBalance)
    else None
  }

  function ExecutePurchase(s: Storage, issuer: Issuer.Storage, now: nat, buyer: Address, orderId: nat, maxPrice: int, amount: int, nonce: nat)
    : Result<((Storage, Issuer.Storage), ()), DexError>
  {
    var nonces := UseNonce(s.nonces, buyer, nonce, InvalidNonce, Trap);
    if nonces.Err? then Err(nonces.error)
    else if orderId !in s.orders then Err(OrderNotFound)
    else
      var o := s.orders[orderId];
      var guard := PurchaseGuard(o, now, buyer, maxPrice, amount);
      if guard.Some? then Err(guard.value)
      else if Issuer.BalanceOf(issuer, o.bondId, o.seller) < amount then Err(SellerBalanceDepleted)
      else
        var proceeds := amount * o.price;
        var accounts := Accounts(s, o.quoteAsset);
        if !Fits(proceeds) then Err(Overflow)
        else if Get(accounts, buyer) < proceeds then Err(InsufficientFunds)
        else if !Fits(Get(accounts, o.seller) + proceeds) then Err(Overflow)
        else
          var moved := Issuer.Transfer(issuer, now, o.seller, buyer, o.bondId, amount, NonceOf(issuer.nonces, o.seller));
          if moved.Err? then Err(if moved.error == Issuer.InvalidNonce then InvalidNonce else InsufficientBalance)
          else
            Ok(((Storage(s.admin, s.orders[orderId := AfterFill(o, amount)], s.orderCount, s.sellerOrders, s.bondOrders,
                         s.balances[o.quoteAsset := Settle(accounts, buyer, o.seller, proceeds)], nonces.value),
                 moved.value.0), ()))
  }

  function WithAccount(s: Storage, asset: Symbol, a: Address, x: int, nonces: Nonces): Storage {
    Storage(s.admin, s.orders, s.orderCount, s.sellerOrders, s.bondOrders,
            s.balances[asset := Accounts(s, asset)[a := x]], nonces)
  }

  function DepositQuote(s: Storage, caller: Address, asset: Symbol, amount: int, nonce: nat): Result<(Storage, ()), DexError> {
    var nonces := UseNonce(s.nonces, caller, nonce, InvalidNonce, Trap);
    var balance := Get(Accounts(s, asset), caller);
    if nonces.Err? then Err(nonces.error)
    else if amount <= 0 then Err(ZeroAmount)
    else if !Fits(balance + amount) then Err(Overflow)
    else Ok((WithAccount(s, asset, caller, balance + amount, nonces.value), ()))
  }

  function WithdrawQuote(s: Storage, caller: Address, asset: Symbol, amount: int, nonce: nat): Result<(Storage, ()), DexError> {
    var nonces := UseNonce(s.nonces, caller, nonce, InvalidNonce, Trap);
    var balance := Get(Accounts(s, asset), caller);
    if nonces.Err? then Err(nonces.error)
    else if amount <= 0 then Err(ZeroAmount)
    else if balance < amount then Err(InsufficientFunds)
    else Ok((WithAccount(s, asset, caller, balance - amount, nonces.value), ()))
  }

  // ----- cleaning expired orders -----

  predicate Stale(orders: map<nat, Order>, now: nat, id: nat) {
    id in orders && Live(orders[id]) && now >= orders[id].expiresAt
  }

  /** The orders after the stale ones among ids `a`..`b` were marked expired. */
  function Cleaned(orders: map<nat, Order>, now: nat, a: nat, b: nat): map<nat, Order> {
    map id | id in orders :: if a <= id <= b && Stale(orders, now, id) then orders[id].(status := Expired) else orders[id]
  }

  /** How many of ids `a`..`b` are stale. */
  function StaleCount(orders: map<nat, Order>, now: nat, a: nat, b: int): nat
    decreases b + 1 - a
  {
    if b < a then 0 else StaleCount(orders, now, a, b - 1) + (if Stale(orders, now, b) then 1 else 0)
  }

  function CleanRange(s: Storage, now: nat, a: nat, b: nat, nonces: Nonces): Result<(Storage, nat), DexError> {
    var n := StaleCount(s.orders, now, a, b);
    if n > U32_MAX then Err(Trap)
    else Ok((Storage(s.admin, Cleaned(s.orders, now, a, b), s.orderCount, s.sellerOrders, s.bondOrders, s.balances, nonces), n))
  }

  function CleanExpiredOrders(s: Storage, now: nat, caller: Address, nonce: nat): Result<(Storage, nat), DexError> {
    var nonces := UseNonce(s.nonces, caller, nonce, InvalidNonce, Trap);
    if nonces.Err? then Err(nonces.error)
    else if caller != s.admin then Err(Unauthorized)
    else CleanRange(s, now, 1, s.orderCount, nonces.value)
  }

  function CleanExpiredOrdersRange(s: Storage, now: nat, caller: Address, nonce: nat, a: nat, b: nat): Result<(Storage, nat), DexError> {
    var nonces := UseNonce(s.nonces, caller, nonce, InvalidNonce, Trap);
    if nonces.Err? then Err(nonces.error)
    else if caller != s.admin then Err(Unauthorized)
    else if a < 1 || b > s.orderCount || a > b then Err(InvalidRange)
    else CleanRange(s, now, a, b, nonces.value)
  }

  /** Cleaning [a, b] and then [b+1, c] at one time is cleaning [a, c]; the counts add up. */
  lemma {:induction false} CleaningComposes(orders: map<nat, Order>, now: nat, a: nat, b: nat, c: nat)
    requires a <= b <= c
    ensures Cleaned(Cleaned(orders, now, a, b), now, b + 1, c) == Cleaned(orders, now, a, c)
    ensures StaleCount(orders, now, a, b) + StaleCount(Cleaned(orders, now, a, b), now, b + 1, c) == StaleCount(orders, now, a, c)
    decreases c
  {
    if b < c {
      CleaningComposes(orders, now, a, b, c - 1);
      assert Stale(Cleaned(orders, now, a, b), now, c) == Stale(orders, now, c);
    }
  }

  /** A second pass over the same range at the same time cleans nothing. */
  lemma {:induction false} CleaningTwice(orders: map<nat, Order>, now: nat, a: nat, b: nat, k: nat)
    requires k <= b
    ensures Cleaned(Cleaned(orders, now, a, b), now, a, b) == Cleaned(orders, now, a, b)
    ensures StaleCount(Cleaned(orders, now, a, b), now, a, k) == 0
    decreases k
  {
    if a <= k {
      assert !Stale(Cleaned(orders, now, a, b), now, k);
      if k > 0 {
        CleaningTwice(orders, now, a, b, k - 1);
      } else {
        assert StaleCount(Cleaned(orders, now, a, b), now, a, -1) == 0;
      }
    }
  }
}
