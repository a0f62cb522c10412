/** DEXRouter on top of BondIssuer: escrow, settlement and order indexes over every run. */
module Market {
  import opened Host
  import opened Dex
  import Issuer

  /** What the purchases of one order moved, read off the two contracts' balances: tokens the seller lost
      and the buyers gained, quote the buyers lost and the seller gained. */
  datatype Fills = Fills(sold: int, bought: int, paid: int, earned: int)

  /** What went through the escrow since deployment: deposits and withdrawals per asset; the amount
      listed and what was filled per order. */
  datatype Escrow = Escrow(
    deposited: map<Symbol, int>,
    withdrawn: map<Symbol, int>,
    listed: map<nat, int>,
    fills: map<nat, Fills>)

  datatype Market = Market(issuer: Issuer.Storage, dex: Storage, escrow: Escrow)

  datatype Call =
    | OnIssuer(call: Issuer.Call)
    | ListTokens(now: nat, seller: Address, bond: nat, amount: int, price: int, asset: Symbol, expiresAfter: nat, nonce: nat)
    | Cancel(caller: Address, orderId: nat, nonce: nat)
    | Purchase(now: nat, buyer: Address, orderId: nat, maxPrice: int, amount: int, nonce: nat)
    | Deposit(caller: Address, asset: Symbol, amount: int, nonce: nat)
    | Withdraw(caller: Address, asset: Symbol, amount: int, nonce: nat)
    | Clean(now: nat, caller: Address, nonce: nat)
    | CleanSome(now: nat, caller: Address, nonce: nat, first: nat, last: nat)

  function Deployed(issuerAdmin: Address, dexAdmin: Address): Market {
    Market(Issuer.Constructed(issuerAdmin), Dex.Constructed(dexAdmin), Escrow(map[], map[], map[], map[]))
  }

  function Bump<K>(m: map<K, int>, k: K, x: int): map<K, int> {
    m[k := Get(m, k) + x]
  }

  function FillsAt(e: Escrow, id: nat): Fills {
    if id in e.fills then e.fills[id] else Fills(0, 0, 0, 0)
  }

  function Tokens(issuer: Issuer.Storage, o: Order, a: Address): int {
    Issuer.BalanceOf(issuer, o.bondId, a)
  }

  function Quoted(dex: Storage, o: Order, a: Address): int {
    Get(Accounts(dex, o.quoteAsset), a)
  }

  /** The fills of an order after a purchase, by comparing balances before and after it. */
  function Measured(m: Market, dex: Storage, issuer: Issuer.Storage, id: nat, buyer: Address): Fills {
    var f := FillsAt(m.escrow, id);
    if id !in m.dex.orders then f
    else
      var o := m.dex.orders[id];
      Fills(f.sold + Tokens(m.issuer, o, o.seller) - Tokens(issuer, o, o.seller),
            f.bought + Tokens(issuer, o, buyer) - Tokens(m.issuer, o, buyer),
            f.paid + Quoted(m.dex, o, buyer) - Quoted(dex, o, buyer),
            f.earned + Quoted(dex, o, o.seller) - Quoted(m.dex, o, o.seller))
  }

  function Step(m: Market, c: Call): Market {
    match c
    case OnIssuer(call) => m.(issuer := Issuer.Step(m.issuer, call))
    case ListTokens(now, seller, bond, amount, price, asset, expiresAfter, nonce) =>
      var r := ListBondTokens(m.dex, m.issuer, now, seller, bond, amount, price, asset, expiresAfter, nonce);
      if r.Err? then m else Market(m.issuer, r.value.0, m.escrow.(listed := m.escrow.listed[r.value.1 := amount]))
    case Cancel(caller, orderId, nonce) =>
      var r := CancelListing(m.dex, caller, orderId, nonce);
      if r.Err? then m else m.(dex := r.value.0)
    case Purchase(now, buyer, orderId, maxPrice, amount, nonce) =>
      var r := ExecutePurchase(m.dex, m.issuer, now, buyer, orderId, maxPrice, amount, nonce);
      if r.Err? then m
      else
        Market(r.value.0.1, r.value.0.0, m.escrow.(fills := m.escrow.fills[orderId := Measured(m, r.value.0.0, r.value.0.1, orderId, buyer)]))
    case Deposit(caller, asset, amount, nonce) =>
      var r := DepositQuote(m.dex, caller, asset, amount, nonce);
      if r.Err? then m else Market(m.issuer, r.value.0, m.escrow.(deposited := Bump(m.escrow.deposited, asset, amount)))
    case Withdraw(caller, asset, amount, nonce) =>
      var r := WithdrawQuote(m.dex, caller, asset, amount, nonce);
      if r.Err? then m else Market(m.issuer, r.value.0, m.escrow.(withdrawn := Bump(m.escrow.withdrawn, asset, amount)))
    case Clean(now, caller, nonce) =>
      var r := CleanExpiredOrders(m.dex, now, caller, nonce);
      if r.Err? then m else m.(dex := r.value.0)
    case CleanSome(now, caller, nonce, first, last) =>
      var r := CleanExpiredOrdersRange(m.dex, now, caller, nonce, first, last);
      if r.Err? then m else m.(dex := r.value.0)
  }

  function Run(m: Market, calls: seq<Call>): Market
    decreases |calls|
  {
    if calls == [] then m else Run(Step(m, calls[0]), calls[1..])
  }

  // ----- the invariant -----

  /** No quote balance is negative, and they add up to what was deposited and not withdrawn. */
  ghost predicate AssetOk(dex: Storage, e: Escrow, asset: Symbol) {
    && NonNegative(Accounts(dex, asset))
    && Sum(Accounts(dex, asset)) == Get(e.deposited, asset) - Get(e.withdrawn, asset)
  }

  function Remaining(o: Order): int {
    if o.status == Filled then 0 else o.amount
  }

  /** Every token listed was either sold or remains; what was sold was bought; and the buyers paid, and the
      seller earned, the order's price for it. */
  ghost predicate OrderOk(o: Order, e: Escrow) {
    && o.amount > 0 && o.price > 0
    && var f := FillsAt(e, o.id);
    && Get(e.listed, o.id) == f.sold + Remaining(o)
    && f.bought == f.sold >= 0
    && f.earned == f.paid == o.price * f.sold
  }

  ghost predicate OrdersOk(dex: Storage, e: Escrow) {
    && (forall id :: id in dex.orders <==> 1 <= id <= dex.orderCount)
    && (forall id :: id in dex.orders ==> dex.orders[id].id == id && OrderOk(dex.orders[id], e))
    && (forall id :: id in e.fills ==> id <= dex.orderCount)
  }

  /** Ids up to `n` of the orders of one bond, in increasing order. */
  function IdsFor(orders: map<nat, Order>, n: nat, bond: nat): seq<nat> {
    if n == 0 then []
    else if n in orders && orders[n].bondId == bond then IdsFor(orders, n - 1, bond) + [n]
    else IdsFor(orders, n - 1, bond)
  }

  /** Ids up to `n` of the orders of one seller, in increasing order. */
  function IdsBy(orders: map<nat, Order>, n: nat, seller: Address): seq<nat> {
    if n == 0 then []
    else if n in orders && orders[n].seller == seller then IdsBy(orders, n - 1, seller) + [n]
    else IdsBy(orders, n - 1, seller)
  }

  ghost predicate IndexesOk(dex: Storage) {
    && (forall bond: nat :: ListAt(dex.bondOrders, bond) == IdsFor(dex.orders, dex.orderCount, bond))
    && (forall a :: ListAt(dex.sellerOrders, a) == IdsBy(dex.orders, dex.orderCount, a))
  }

  ghost predicate Inv(m: Market) {
    && Issuer.Inv(m.issuer)
    && (forall asset :: AssetOk(m.dex, m.escrow, asset))
    && OrdersOk(m.dex, m.escrow)
    && IndexesOk(m.dex)
  }

  // ----- indexes -----

  /** Tables that agree on ids, bonds and sellers have the same indexes. */
  lemma {:induction false} SameIndexes(a: map<nat, Order>, b: map<nat, Order>, n: nat, bond: nat, seller: Address)
    requires forall id :: 1 <= id <= n ==>
               (id in a <==> id in b) && (id in a ==> a[id].bondId == b[id].bondId && a[id].seller == b[id].seller)
    ensures IdsFor(a, n, bond) == IdsFor(b, n, bond) && IdsBy(a, n, seller) == IdsBy(b, n, seller)
    decreases n
  {
    if n > 0 {
      SameIndexes(a, b, n - 1, bond, seller);
    }
  }

  /** Status and amount changes do not touch the indexes. */
  lemma IndexesKept(dex: Storage, orders: map<nat, Order>, balances: map<Symbol, map<Address, int>>, nonces: Nonces)
    requires IndexesOk(dex) && orders.Keys == dex.orders.Keys
    requires forall id :: id in orders ==> orders[id].bondId == dex.orders[id].bondId && orders[id].seller == dex.orders[id].seller
    ensures IndexesOk(Storage(dex.admin, orders, dex.orderCount, dex.sellerOrders, dex.bondOrders, balances, nonces))
  {
    var t := Storage(dex.admin, orders, dex.orderCount, dex.sellerOrders, dex.bondOrders, balances, nonces);
    forall bond: nat
      ensures ListAt(t.bondOrders, bond) == IdsFor(t.orders, t.orderCount, bond)
    {
      SameIndexes(t.orders, dex.orders, dex.orderCount, bond, dex.admin);
    }
    forall a
      ensures ListAt(t.sellerOrders, a) == IdsBy(t.orders, t.orderCount, a)
    {
      SameIndexes(t.orders, dex.orders, dex.orderCount, 0, a);
    }
  }

  lemma ListingIndexes(dex: Storage, o: Order, nonces: Nonces)
    requires IndexesOk(dex) && o.id == dex.orderCount + 1
    ensures IndexesOk(Storage(dex.admin, dex.orders[o.id := o], o.id,
                              dex.sellerOrders[o.seller := ListAt(dex.sellerOrders, o.seller) + [o.id]],
                              dex.bondOrders[o.bondId := ListAt(dex.bondOrders, o.bondId) + [o.id]],
                              dex.balances, nonces))
  {
    var t := Storage(dex.admin, dex.orders[o.id := o], o.id,
                     dex.sellerOrders[o.seller := ListAt(dex.sellerOrders, o.seller) + [o.id]],
                     dex.bondOrders[o.bondId := ListAt(dex.bondOrders, o.bondId) + [o.id]],
                     dex.balances, nonces);
    forall bond: nat
      ensures ListAt(t.bondOrders, bond) == IdsFor(t.orders, t.orderCount, bond)
    {
      SameIndexes(t.orders, dex.orders, dex.orderCount, bond, dex.admin);
    }
    forall a
      ensures ListAt(t.sellerOrders, a) == IdsBy(t.orders, t.orderCount, a)
    {
      SameIndexes(t.orders, dex.orders, dex.orderCount, 0, a);
    }
  }

  // ----- one call -----

  lemma DeployedInv(issuerAdmin: Address, dexAdmin: Address)
    ensures Inv(Deployed(issuerAdmin, dexAdmin))
  {
    var m := Deployed(issuerAdmin, dexAdmin);
    forall asset
      ensures AssetOk(m.dex, m.escrow, asset)
    {
      assert Accounts(m.dex, asset) == map[];
    }
    assert Issuer.Inv(m.issuer);
  }

  lemma ListStep(m: Market, c: Call)
    requires Inv(m) && c.ListTokens?
    ensures Inv(Step(m, c))
  {
    hide Issuer.Inv, Sum, AssetOk, OrdersOk, IndexesOk;
    var r := ListBondTokens(m.dex, m.issuer, c.now, c.seller, c.bond, c.amount, c.price, c.asset, c.expiresAfter, c.nonce);
    if r.Ok? {
      var id := r.value.1;
      var o := r.value.0.orders[id];
      ListingIndexes(m.dex, o, r.value.0.nonces);
      var t := Step(m, c);
      ListingOrders(m.dex, m.escrow, o, t.dex);
      forall asset
        ensures AssetOk(t.dex, t.escrow, asset)
      {
        assert AssetOk(m.dex, m.escrow, asset);
        SameAsset(m.dex, m.escrow, t.dex, t.escrow, asset);
      }
    }
  }

  lemma ListingOrders(dex: Storage, e: Escrow, o: Order, after: Storage)
    requires OrdersOk(dex, e) && o.id == dex.orderCount + 1 == after.orderCount && after.orders == dex.orders[o.id := o]
    requires o.amount > 0 && o.price > 0 && o.status == Open
    ensures OrdersOk(after, e.(listed := e.listed[o.id := o.amount]))
  {
    var f := e.(listed := e.listed[o.id := o.amount]);
    assert FillsAt(e, o.id) == Fills(0, 0, 0, 0);
    forall id | id in after.orders
      ensures after.orders[id].id == id && OrderOk(after.orders[id], f)
    {
      if id != o.id {
        assert OrderOk(dex.orders[id], e);
      }
    }
  }

  lemma SameAsset(dex: Storage, e: Escrow, dex': Storage, e': Escrow, asset: Symbol)
    requires AssetOk(dex, e, asset) && Accounts(dex', asset) == Accounts(dex, asset)
    requires e'.deposited == e.deposited && e'.withdrawn == e.withdrawn
    ensures AssetOk(dex', e', asset)
  {
  }

  /** Rewriting orders without touching what was listed, filled or remains. */
  lemma StatusStep(m: Market, orders: map<nat, Order>, nonces: Nonces)
    requires Inv(m) && orders.Keys == m.dex.orders.Keys
    requires forall id :: id in orders ==>
               orders[id] == m.dex.orders[id]
               || (Live(m.dex.orders[id]) && (orders[id] == m.dex.orders[id].(status := Cancelled) || orders[id] == m.dex.orders[id].(status := Expired)))
    ensures Inv(m.(dex := Storage(m.dex.admin, orders, m.dex.orderCount, m.dex.sellerOrders, m.dex.bondOrders, m.dex.balances, nonces)))
  {
    hide Issuer.Inv, Sum, AssetOk;
    var t := Storage(m.dex.admin, orders, m.dex.orderCount, m.dex.sellerOrders, m.dex.bondOrders, m.dex.balances, nonces);
    IndexesKept(m.dex, orders, m.dex.balances, nonces);
    StatusOrders(m.dex, m.escrow, t);
    forall asset
      ensures AssetOk(t, m.escrow, asset)
    {
      assert AssetOk(m.dex, m.escrow, asset);
      SameAsset(m.dex, m.escrow, t, m.escrow, asset);
    }
  }

  lemma StatusOrders(dex: Storage, e: Escrow, t: Storage)
    requires OrdersOk(dex, e) && t.orderCount == dex.orderCount && t.orders.Keys == dex.orders.Keys
    requires forall id :: id in t.orders ==>
               t.orders[id] == dex.orders[id]
               || (Live(dex.orders[id]) && (t.orders[id] == dex.orders[id].(status := Cancelled) || t.orders[id] == dex.orders[id].(status := Expired)))
    ensures OrdersOk(t, e)
  {
    forall id | id in t.orders
      ensures t.orders[id].id == id && OrderOk(t.orders[id], e)
    {
      assert OrderOk(dex.orders[id], e);
    }
  }

  lemma SameOrders(dex: Storage, e: Escrow, dex': Storage, e': Escrow)
    requires OrdersOk(dex, e) && dex'.orders == dex.orders && dex'.orderCount == dex.orderCount
    requires e'.listed == e.listed && e'.fills == e.fills
    ensures OrdersOk(dex', e')
  {
    forall id | id in dex.orders
      ensures OrderOk(dex.orders[id], e')
    {
      assert OrderOk(dex.orders[id], e);
    }
  }

  lemma AssetUpdate(dex: Storage, e: Escrow, asset: Symbol, a: Address, x: int, dex': Storage, e': Escrow, other: Symbol)
    requires AssetOk(dex, e, other) && (other == asset ==> x >= 0)
    requires dex'.balances == dex.balances[asset := Accounts(dex, asset)[a := x]]
    requires Get(e'.deposited, other) - Get(e'.withdrawn, other)
          == Get(e.deposited, other) - Get(e.withdrawn, other) + (if other == asset then x - Get(Accounts(dex, asset), a) else 0)
    ensures AssetOk(dex', e', other)
  {
    hide Sum;
    SumUpdate(Accounts(dex, asset), a, x);
  }

  lemma DepositStep(m: Market, c: Call)
    requires Inv(m) && (c.Deposit? || c.Withdraw?)
    ensures Inv(Step(m, c))
  {
    hide Issuer.Inv, Sum, IdsFor, IdsBy, OrdersOk, AssetOk;
    var t := Step(m, c);
    if t != m {
      var acc := Accounts(m.dex, c.asset);
      var x := Get(acc, c.caller) + (if c.Deposit? then c.amount else -c.amount);
      SameOrders(m.dex, m.escrow, t.dex, t.escrow);
      assert x >= 0 by {
        AccountNonNegative(m.dex, m.escrow, c.asset, c.caller);
      }
      forall asset
        ensures AssetOk(t.dex, t.escrow, asset)
      {
        assert AssetOk(m.dex, m.escrow, asset);
        AssetUpdate(m.dex, m.escrow, c.asset, c.caller, x, t.dex, t.escrow, asset);
      }
    }
  }

  lemma AccountNonNegative(dex: Storage, e: Escrow, asset: Symbol, a: Address)
    requires AssetOk(dex, e, asset)
    ensures Get(Accounts(dex, asset), a) >= 0
  {
  }

  lemma SettleOk(m: map<Address, int>, buyer: Address, seller: Address, proceeds: int)
    requires buyer != seller && 0 <= proceeds <= Get(m, buyer) && NonNegative(m)
    ensures NonNegative(Settle(m, buyer, seller, proceeds))
    ensures Sum(Settle(m, buyer, seller, proceeds)) == Sum(m)
    ensures forall a :: Get(Settle(m, buyer, seller, proceeds), a)
                     == Get(m, a) + (if a == buyer then -proceeds else if a == seller then proceeds else 0)
  {
    hide Sum;
    var debited := m[buyer := Get(m, buyer) - proceeds];
    SumUpdate(m, buyer, Get(m, buyer) - proceeds);
    SumUpdate(debited, seller, Get(debited, seller) + proceeds);
  }

  /** One more fill of `amount` tokens at the order's price. */
  function OneMoreFill(f: Fills, amount: int, price: int): Fills {
    Fills(f.sold + amount, f.bought + amount, f.paid + amount * price, f.earned + amount * price)
  }

  lemma FillOk(o: Order, e: Escrow, amount: int)
    requires OrderOk(o, e) && Live(o) && 0 < amount <= o.amount
    ensures OrderOk(AfterFill(o, amount), e.(fills := e.fills[o.id := OneMoreFill(FillsAt(e, o.id), amount, o.price)]))
  {
    var sold := FillsAt(e, o.id).sold;
    assert o.price * (sold + amount) == o.price * sold + amount * o.price;
  }

  lemma FilledOrders(dex: Storage, e: Escrow, id: nat, amount: int, dex': Storage, e': Escrow)
    requires OrdersOk(dex, e) && id in dex.orders && Live(dex.orders[id]) && 0 < amount <= dex.orders[id].amount
    requires dex'.orders == dex.orders[id := AfterFill(dex.orders[id], amount)] && dex'.orderCount == dex.orderCount
    requires e' == e.(fills := e.fills[id := OneMoreFill(FillsAt(e, id), amount, dex.orders[id].price)])
    ensures OrdersOk(dex', e')
  {
    assert OrderOk(dex.orders[id], e);
    FillOk(dex.orders[id], e, amount);
    forall k | k in dex'.orders
      ensures dex'.orders[k].id == k && OrderOk(dex'.orders[k], e')
    {
      if k != id {
        assert OrderOk(dex.orders[k], e);
      }
    }
  }

  /** Settlement: the quote moves from buyer to seller at the order's price, the same quantity of bond
      tokens moves from seller to buyer in the issuer, and nobody else is touched. */
  lemma PurchaseSettles(m: Market, now: nat, buyer: Address, orderId: nat, maxPrice: int, amount: int, nonce: nat)
    requires Inv(m) && ExecutePurchase(m.dex, m.issuer, now, buyer, orderId, maxPrice, amount, nonce).Ok?
    ensures var o := m.dex.orders[orderId];
            var t := ExecutePurchase(m.dex, m.issuer, now, buyer, orderId, maxPrice, amount, nonce).value.0;
            && orderId in m.dex.orders && Live(o) && now < o.expiresAt && buyer != o.seller
            && 0 < amount <= o.amount && o.price <= maxPrice
            && t.0.orders == m.dex.orders[orderId := AfterFill(o, amount)] && t.0.orderCount == m.dex.orderCount
            && t.0.balances == m.dex.balances[o.quoteAsset := Settle(Accounts(m.dex, o.quoteAsset), buyer, o.seller, amount * o.price)]
            && t.0.sellerOrders == m.dex.sellerOrders && t.0.bondOrders == m.dex.bondOrders && t.0.admin == m.dex.admin
            && (forall a :: Get(Accounts(t.0, o.quoteAsset), a)
                            == Get(Accounts(m.dex, o.quoteAsset), a)
                               + (if a == buyer then -(amount * o.price) else if a == o.seller then amount * o.price else 0))
            && Sum(Accounts(t.0, o.quoteAsset)) == Sum(Accounts(m.dex, o.quoteAsset))
            && NonNegative(Accounts(t.0, o.quoteAsset))
            && Issuer.Inv(t.1)
            && (forall b: nat, a :: Issuer.BalanceOf(t.1, b, a) == Issuer.BalanceOf(m.issuer, b, a)
                                      + (if b != o.bondId then 0 else if a == o.seller then -amount else if a == buyer then amount else 0))
            && o.bondId in m.issuer.bonds && o.bondId in t.1.bonds
            && Sum(t.1.bonds[o.bondId].balances) == Sum(m.issuer.bonds[o.bondId].balances)
  {
    hide Sum, Issuer.Inv, Issuer.Transfer, IndexesOk, Settle, AfterFill;
    var o := m.dex.orders[orderId];
    assert AssetOk(m.dex, m.escrow, o.quoteAsset);
    assert o.price > 0 by {
      assert OrderOk(o, m.escrow);
    }
    assert amount * o.price > 0;
    SettleOk(Accounts(m.dex, o.quoteAsset), buyer, o.seller, amount * o.price);
    Issuer.TransferMoves(m.issuer, now, o.seller, buyer, o.bondId, amount, NonceOf(m.issuer.nonces, o.seller));
  }

  lemma PurchaseStep(m: Market, c: Call)
    requires Inv(m) && c.Purchase?
    ensures Inv(Step(m, c))
  {
    hide Issuer.Inv, Sum, IdsFor, IdsBy, OrdersOk, AssetOk, ExecutePurchase, Settle, IndexesOk;
    var r := ExecutePurchase(m.dex, m.issuer, c.now, c.buyer, c.orderId, c.maxPrice, c.amount, c.nonce);
    if r.Ok? {
      PurchaseSettles(m, c.now, c.buyer, c.orderId, c.maxPrice, c.amount, c.nonce);
      var t := Step(m, c);
      var o := m.dex.orders[c.orderId];
      FilledIds(m, c.orderId);
      assert Measured(m, t.dex, t.issuer, c.orderId, c.buyer) == OneMoreFill(FillsAt(m.escrow, c.orderId), c.amount, o.price);
      FilledOrders(m.dex, m.escrow, c.orderId, c.amount, t.dex, t.escrow);
      IndexesKept(m.dex, t.dex.orders, t.dex.balances, t.dex.nonces);
      forall asset
        ensures AssetOk(t.dex, t.escrow, asset)
      {
        assert AssetOk(m.dex, m.escrow, asset);
        if asset == o.quoteAsset {
          SettledAsset(m.dex, m.escrow, t.dex, t.escrow, asset);
        } else {
          SameAsset(m.dex, m.escrow, t.dex, t.escrow, asset);
        }
      }
    }
  }

  lemma FilledIds(m: Market, id: nat)
    requires OrdersOk(m.dex, m.escrow) && id in m.dex.orders
    ensures m.dex.orders[id].id == id
  {
  }

  lemma SettledAsset(dex: Storage, e: Escrow, dex': Storage, e': Escrow, asset: Symbol)
    requires AssetOk(dex, e, asset) && Sum(Accounts(dex', asset)) == Sum(Accounts(dex, asset)) && NonNegative(Accounts(dex', asset))
    requires e'.deposited == e.deposited && e'.withdrawn == e.withdrawn
    ensures AssetOk(dex', e', asset)
  {
  }

  lemma StepKeepsInv(m: Market, c: Call)
    requires Inv(m)
    ensures Inv(Step(m, c))
  {
    hide Issuer.Inv, Sum, IdsFor, IdsBy, OrdersOk, AssetOk, IndexesOk, Cleaned, StaleCount, Issuer.Step;
    match c
    case OnIssuer(call) => Issuer.StepIsSafe(m.issuer, call);
    case ListTokens(_, _, _, _, _, _, _, _) => ListStep(m, c);
    case Cancel(caller, orderId, nonce) =>
      var r := CancelListing(m.dex, caller, orderId, nonce);
      if r.Ok? {
        StatusStep(m, r.value.0.orders, r.value.0.nonces);
      }
    case Purchase(_, _, _, _, _, _) => PurchaseStep(m, c);
    case Deposit(_, _, _, _) => DepositStep(m, c);
    case Withdraw(_, _, _, _) => DepositStep(m, c);
    case Clean(now, caller, nonce) =>
      var r := CleanExpiredOrders(m.dex, now, caller, nonce);
      if r.Ok? {
        CleanedKeeps(m.dex.orders, now, 1, m.dex.orderCount);
        StatusStep(m, r.value.0.orders, r.value.0.nonces);
      }
    case CleanSome(now, caller, nonce, first, last) =>
      var r := CleanExpiredOrdersRange(m.dex, now, caller, nonce, first, last);
      if r.Ok? {
        CleanedKeeps(m.dex.orders, now, first, last);
        StatusStep(m, r.value.0.orders, r.value.0.nonces);
      }
  }

  lemma CleanedKeeps(orders: map<nat, Order>, now: nat, a: nat, b: nat)
    ensures Cleaned(orders, now, a, b).Keys == orders.Keys
    ensures forall id :: id in orders ==>
              var o := Cleaned(orders, now, a, b)[id];
              o == orders[id] || (Live(orders[id]) && o == orders[id].(status := Expired))
  {
  }

  lemma {:induction false} RunKeepsInv(m: Market, calls: seq<Call>)
    requires Inv(m)
    ensures Inv(Run(m, calls))
    decreases |calls|
  {
    hide Inv, Step;
    if calls != [] {
      StepKeepsInv(m, calls[0]);
      RunKeepsInv(Step(m, calls[0]), calls[1..]);
    }
  }

  /** Over every run from deployment, per asset: no balance is negative and they add up to deposits minus
      withdrawals. Per order, as measured on the balances of both contracts: the tokens the seller lost are
      the tokens the buyers gained and, with what remains, the amount listed; the quote the buyers lost is the
      quote the seller gained and the price times the tokens. */
  lemma EveryRunSettles(issuerAdmin: Address, dexAdmin: Address, calls: seq<Call>, asset: Symbol, id: nat)
    ensures var m := Run(Deployed(issuerAdmin, dexAdmin), calls);
            && NonNegative(Accounts(m.dex, asset))
            && Sum(Accounts(m.dex, asset)) == Get(m.escrow.deposited, asset) - Get(m.escrow.withdrawn, asset)
            && (id in m.dex.orders <==> 1 <= id <= m.dex.orderCount)
            && (id in m.dex.orders ==>
                  var f := FillsAt(m.escrow, id);
                  && Get(m.escrow.listed, id) == f.sold + Remaining(m.dex.orders[id])
                  && f.bought == f.sold
                  && f.earned == f.paid == m.dex.orders[id].price * f.sold)
  {
    var m := Run(Deployed(issuerAdmin, dexAdmin), calls);
    assert Inv(m) by {
      DeployedInv(issuerAdmin, dexAdmin);
      RunKeepsInv(Deployed(issuerAdmin, dexAdmin), calls);
    }
    hide Run, Sum, Issuer.Inv, IndexesOk;
    assert AssetOk(m.dex, m.escrow, asset);
    if id in m.dex.orders {
      assert OrderOk(m.dex.orders[id], m.escrow);
    }
  }
}
