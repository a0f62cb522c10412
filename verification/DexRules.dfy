/** DEXRouter, call by call and over runs: exactly when each call is accepted and exactly what it leaves; and
    that every order is, for good, what the seller listed. */
module DexRules {
  import opened Host
  import opened Shared
  import opened Dex
  import opened Market
  import Issuer
  import IR = IssuerRules

  predicate Takeable(o: Order) {
    o.status == Open || o.status == PartiallyFilled
  }

  /** Only order `id`, quote accounts in `asset` and the caller's nonce may differ. */
  ghost predicate RestOfBook(s: Storage, t: Storage, id: nat, asset: Symbol, caller: Address) {
    && t.admin == s.admin && SpendsNonce(s.nonces, t.nonces, caller)
    && (forall k :: k != id ==> (k in t.orders <==> k in s.orders) && (k in s.orders ==> t.orders[k] == s.orders[k]))
    && (forall x :: x != asset ==> Accounts(t, x) == Accounts(s, x))
  }

  ghost predicate SameLists(s: Storage, t: Storage) {
    t.orderCount == s.orderCount && t.sellerOrders == s.sellerOrders && t.bondOrders == s.bondOrders
  }

  // ----- orders -----

  /** An order exactly as its seller asked for it. */
  ghost predicate AsListed(o: Order, id: nat, now: nat, seller: Address, bond: nat, amount: int, price: int, asset: Symbol, expiresAfter: nat) {
    && o.id == id && o.seller == seller && o.bondId == bond && o.amount == amount && o.price == price && o.quoteAsset == asset
    && o.status == Open && o.createdAt == now && o.expiresAt == now + expiresAfter
  }

  /** A seller lists no more than it holds, at a positive price, for a while: the order is what was asked. */
  lemma ListRule(s: Storage, issuer: Issuer.Storage, now: nat, seller: Address, bond: nat, amount: int, price: int,
                 asset: Symbol, expiresAfter: nat, nonce: nat)
    ensures var r := ListBondTokens(s, issuer, now, seller, bond, amount, price, asset, expiresAfter, nonce);
            && (r.Ok? <==> && GoodNonce(s.nonces, seller, nonce) && amount > 0 && price > 0 && expiresAfter > 0
                           && amount <= Issuer.BalanceOf(issuer, bond, seller)
                           && s.orderCount < 0xFFFF_FFFF_FFFF_FFFF && now + expiresAfter <= 0xFFFF_FFFF_FFFF_FFFF)
            && (r.Ok? ==>
                  var (t, id) := r.value;
                  && id == s.orderCount + 1 == t.orderCount && id in t.orders
                  && AsListed(t.orders[id], id, now, seller, bond, amount, price, asset, expiresAfter)
                  && RestOfBook(s, t, id, asset, seller) && t.balances == s.balances
                  && t.sellerOrders == s.sellerOrders[seller := ListAt(s.sellerOrders, seller) + [id]]
                  && t.bondOrders == s.bondOrders[bond := ListAt(s.bondOrders, bond) + [id]])
  {
    NonceRule(s.nonces, seller, nonce, InvalidNonce, Trap);
    hide UseNonce, SpendsNonce, GoodNonce, ListAt, Issuer.BalanceOf;
  }

  /** Its seller, and nobody else, cancels a live order; only its status changes. */
  lemma CancelRule(s: Storage, caller: Address, id: nat, nonce: nat)
    ensures var r := CancelListing(s, caller, id, nonce);
            && (r.Ok? <==> GoodNonce(s.nonces, caller, nonce) && id in s.orders && caller == s.orders[id].seller && Takeable(s.orders[id]))
            && (r.Ok? ==>
                  var t := r.value.0;
                  && RestOfBook(s, t, id, "", caller) && SameLists(s, t) && t.balances == s.balances
                  && id in t.orders && t.orders[id] == s.orders[id].(status := Cancelled))
  {
    NonceRule(s.nonces, caller, nonce, InvalidNonce, Trap);
    hide UseNonce, SpendsNonce, GoodNonce;
  }

  /** What a purchase of `amount` leaves of an order: a filled one keeps its last amount. */
  ghost predicate FilledInto(o: Order, p: Order, amount: int) {
    p == if amount == o.amount then o.(status := Filled) else o.(status := PartiallyFilled, amount := o.amount - amount)
  }

  /** When a buyer can take `amount` of an order. */
  ghost predicate MayBuy(m: Market, now: nat, buyer: Address, id: nat, maxPrice: int, amount: int, nonce: nat) {
    && GoodNonce(m.dex.nonces, buyer, nonce) && id in m.dex.orders
    && var o := m.dex.orders[id];
    && Takeable(o) && buyer != o.seller && now < o.expiresAt && 0 < amount <= o.amount && o.price <= maxPrice
    && amount * o.price <= I128_MAX && amount * o.price <= Get(Accounts(m.dex, o.quoteAsset), buyer)
    && Get(Accounts(m.dex, o.quoteAsset), o.seller) + amount * o.price <= I128_MAX
    && o.bondId in m.issuer.bonds && m.issuer.bonds[o.bondId].status == Active && now < m.issuer.bonds[o.bondId].config.maturityDate
    && amount <= Get(m.issuer.bonds[o.bondId].balances, o.seller) && NonceOf(m.issuer.nonces, o.seller) < 0xFFFF_FFFF_FFFF_FFFF
  }

  lemma ProceedsRule(m: Market, id: nat, buyer: Address, amount: int)
    requires Inv(m) && id in m.dex.orders && amount > 0
    ensures var o := m.dex.orders[id];
            o.price > 0 && amount * o.price > 0 && Get(Accounts(m.dex, o.quoteAsset), o.seller) >= 0
  {
    hide Issuer.Inv, IndexesOk, Sum;
    var o := m.dex.orders[id];
    assert OrderOk(o, m.escrow);
    assert AssetOk(m.dex, m.escrow, o.quoteAsset);
  }

  lemma TransferOnly(m: Market, now: nat, o: Order, buyer: Address, amount: int)
    requires Issuer.Inv(m.issuer) && buyer != o.seller && amount > 0
    ensures Issuer.Transfer(m.issuer, now, o.seller, buyer, o.bondId, amount, NonceOf(m.issuer.nonces, o.seller)).Ok? <==>
              && NonceOf(m.issuer.nonces, o.seller) < 0xFFFF_FFFF_FFFF_FFFF && o.bondId in m.issuer.bonds
              && m.issuer.bonds[o.bondId].status == Active && now < m.issuer.bonds[o.bondId].config.maturityDate
              && amount <= Get(m.issuer.bonds[o.bondId].balances, o.seller)
  {
    hide Issuer.Inv, Issuer.Transfer;
    IR.TransferRule(m.issuer, now, o.seller, buyer, o.bondId, amount, NonceOf(m.issuer.nonces, o.seller));
  }

  /** A purchase is accepted exactly when the buyer may take the order, pay for it, and be given the tokens. */
  lemma PurchaseRule(m: Market, now: nat, buyer: Address, id: nat, maxPrice: int, amount: int, nonce: nat)
    requires Inv(m)
    ensures var r := ExecutePurchase(m.dex, m.issuer, now, buyer, id, maxPrice, amount, nonce);
            && (r.Ok? <==> MayBuy(m, now, buyer, id, maxPrice, amount, nonce))
            && (r.Ok? ==>
                  var t, o := r.value.0.0, m.dex.orders[id];
                  && SameLists(m.dex, t) && RestOfBook(m.dex, t, id, o.quoteAsset, buyer) && id in t.orders && FilledInto(o, t.orders[id], amount))
  {
    NonceRule(m.dex.nonces, buyer, nonce, InvalidNonce, Trap);
    hide Issuer.Transfer, UseNonce, SpendsNonce, GoodNonce, Settle, Inv;
    if id in m.dex.orders && amount > 0 {
      var o := m.dex.orders[id];
      ProceedsRule(m, id, buyer, amount);
      if buyer != o.seller {
        InvIssuer(m);
        TransferOnly(m, now, o, buyer, amount);
      }
    }
  }

  lemma InvIssuer(m: Market)
    requires Inv(m)
    ensures Issuer.Inv(m.issuer)
  {
  }

  // ----- quote accounts -----

  /** One account in one asset moves by `x`. */
  ghost predicate AccountMoves(s: Storage, t: Storage, asset: Symbol, a: Address, x: int) {
    && t.orders == s.orders && SameLists(s, t) && t.admin == s.admin
    && (forall y, b :: Get(Accounts(t, y), b) == Get(Accounts(s, y), b) + if y == asset && b == a then x else 0)
  }

  lemma DepositRule(s: Storage, caller: Address, asset: Symbol, amount: int, nonce: nat)
    requires Get(Accounts(s, asset), caller) >= 0
    ensures var r := DepositQuote(s, caller, asset, amount, nonce);
            && (r.Ok? <==> GoodNonce(s.nonces, caller, nonce) && amount > 0 && Get(Accounts(s, asset), caller) + amount <= I128_MAX)
            && (r.Ok? ==> AccountMoves(s, r.value.0, asset, caller, amount) && SpendsNonce(s.nonces, r.value.0.nonces, caller))
  {
    NonceRule(s.nonces, caller, nonce, InvalidNonce, Trap);
    hide UseNonce, SpendsNonce, GoodNonce;
  }

  lemma WithdrawRule(s: Storage, caller: Address, asset: Symbol, amount: int, nonce: nat)
    ensures var r := WithdrawQuote(s, caller, asset, amount, nonce);
            && (r.Ok? <==> GoodNonce(s.nonces, caller, nonce) && amount > 0 && amount <= Get(Accounts(s, asset), caller))
            && (r.Ok? ==> AccountMoves(s, r.value.0, asset, caller, -amount) && SpendsNonce(s.nonces, r.value.0.nonces, caller))
  {
    NonceRule(s.nonces, caller, nonce, InvalidNonce, Trap);
    hide UseNonce, SpendsNonce, GoodNonce;
  }

  // ----- cleaning -----

  /** Every live order in the range whose expiry has come, and no other, is now Expired. */
  ghost predicate CleanedInto(s: Storage, t: Storage, now: nat, first: nat, last: nat) {
    && t.orders.Keys == s.orders.Keys && SameLists(s, t) && t.balances == s.balances && t.admin == s.admin
    && forall k :: k in s.orders ==>
         t.orders[k] == if first <= k <= last && Takeable(s.orders[k]) && s.orders[k].expiresAt <= now then s.orders[k].(status := Expired)
                        else s.orders[k]
  }

  /** The number of such orders. */
  ghost function ExpiredIn(s: Storage, now: nat, first: nat, last: nat): set<nat> {
    set k | k in s.orders && first <= k <= last && Takeable(s.orders[k]) && s.orders[k].expiresAt <= now
  }

  lemma {:induction false} StaleCountIs(s: Storage, now: nat, first: nat, last: nat)
    ensures StaleCount(s.orders, now, first, last) == |ExpiredIn(s, now, first, last)|
    decreases last
  {
    if last < first {
      assert ExpiredIn(s, now, first, last) == {};
    } else if last == 0 {
      NoneBelow(s, now, first);
      assert ExpiredIn(s, now, first, 0) == if Stale(s.orders, now, 0) then {0} else {};
    } else {
      StaleCountIs(s, now, first, last - 1);
      var before, here := ExpiredIn(s, now, first, last - 1), ExpiredIn(s, now, first, last);
      assert here == if Stale(s.orders, now, last) then before + {last} else before;
    }
  }

  lemma NoneBelow(s: Storage, now: nat, first: nat)
    requires first == 0
    ensures StaleCount(s.orders, now, first, 0) == if Stale(s.orders, now, 0) then 1 else 0
  {
    assert StaleCount(s.orders, now, first, -1) == 0;
  }

  lemma CleanRangeRule(s: Storage, now: nat, first: nat, last: nat, nonces: Nonces)
    ensures var r := CleanRange(s, now, first, last, nonces);
            && (r.Ok? <==> |ExpiredIn(s, now, first, last)| <= 0xFFFF_FFFF)
            && (r.Ok? ==> r.value.1 == |ExpiredIn(s, now, first, last)| && CleanedInto(s, r.value.0, now, first, last) && r.value.0.nonces == nonces)
  {
    StaleCountIs(s, now, first, last);
    hide StaleCount, ExpiredIn;
  }

  /** The admin cleans a range of existing ids, or all of them; the result is how many orders expired. */
  lemma CleanRule(s: Storage, now: nat, caller: Address, nonce: nat, first: nat, last: nat)
    ensures var r := CleanExpiredOrdersRange(s, now, caller, nonce, first, last);
            && (r.Ok? <==> && GoodNonce(s.nonces, caller, nonce) && caller == s.admin && 1 <= first <= last <= s.orderCount
                           && |ExpiredIn(s, now, first, last)| <= 0xFFFF_FFFF)
            && (r.Ok? ==> && r.value.1 == |ExpiredIn(s, now, first, last)| && CleanedInto(s, r.value.0, now, first, last)
                          && SpendsNonce(s.nonces, r.value.0.nonces, caller))
    ensures var r := CleanExpiredOrders(s, now, caller, nonce);
            && (r.Ok? <==> GoodNonce(s.nonces, caller, nonce) && caller == s.admin && |ExpiredIn(s, now, 1, s.orderCount)| <= 0xFFFF_FFFF)
            && (r.Ok? ==> && r.value.1 == |ExpiredIn(s, now, 1, s.orderCount)| && CleanedInto(s, r.value.0, now, 1, s.orderCount)
                          && SpendsNonce(s.nonces, r.value.0.nonces, caller))
  {
    NonceRule(s.nonces, caller, nonce, InvalidNonce, Trap);
    hide UseNonce, SpendsNonce, GoodNonce, CleanRange, CleanedInto, ExpiredIn;
    var nonces := UseNonce(s.nonces, caller, nonce, InvalidNonce, Trap);
    if nonces.Ok? {
      CleanRangeRule(s, now, first, last, nonces.value);
      CleanRangeRule(s, now, 1, s.orderCount, nonces.value);
    }
  }

  // ----- over runs: an order is what was listed -----

  /** What listing fixed and nothing changes. */
  ghost predicate SameTerms(o: Order, p: Order) {
    && p.id == o.id && p.seller == o.seller && p.bondId == o.bondId && p.price == o.price && p.quoteAsset == o.quoteAsset
    && p.createdAt == o.createdAt && p.expiresAt == o.expiresAt
  }

  /** How one call may change an order: its seller cancels it, a buyer takes some of it, or the admin expires it. */
  ghost predicate OrderMoves(m: Market, c: Call, o: Order, p: Order) {
    || p == o
    || (c.Cancel? && c.orderId == o.id && c.caller == o.seller && Takeable(o) && p == o.(status := Cancelled))
    || (c.Purchase? && c.orderId == o.id && c.buyer != o.seller && Takeable(o) && c.now < o.expiresAt && 0 < c.amount <= o.amount
        && o.price <= c.maxPrice && FilledInto(o, p, c.amount))
    || ((c.Clean? || (c.CleanSome? && c.first <= o.id <= c.last)) && c.caller == m.dex.admin && Takeable(o) && o.expiresAt <= c.now
        && p == o.(status := Expired))
  }

  lemma {:induction false} RunSnoc(m: Market, calls: seq<Call>, n: nat)
    requires n < |calls|
    ensures Run(m, calls[..n + 1]) == Step(Run(m, calls[..n]), calls[n])
    decreases n
  {
    hide Step;
    if n > 0 {
      RunSnoc(Step(m, calls[0]), calls[1..], n - 1);
      assert calls[..n + 1][1..] == calls[1..][..n] && calls[..n][1..] == calls[1..][..n - 1];
    } else {
      assert calls[..1] == [calls[0]] && calls[..1][1..] == [];
    }
  }

  /** The listing call that created order `id`, with the order exactly as asked. */
  ghost predicate Lists(m: Market, c: Call, id: nat, o: Order, listed: int) {
    && c.ListTokens? && id == m.dex.orderCount + 1 && listed == c.amount
    && AsListed(o, id, c.now, c.seller, c.bond, c.amount, c.price, c.asset, c.expiresAfter)
    && c.amount <= Issuer.BalanceOf(m.issuer, c.bond, c.seller)
  }

  lemma ListingStep(m: Market, c: Call, id: nat)
    requires c.ListTokens? && id in Step(m, c).dex.orders
    ensures if id in m.dex.orders && id != m.dex.orderCount + 1
            then Step(m, c).dex.orders[id] == m.dex.orders[id] && Get(Step(m, c).escrow.listed, id) == Get(m.escrow.listed, id)
            else Step(m, c) == m || Lists(m, c, id, Step(m, c).dex.orders[id], Get(Step(m, c).escrow.listed, id))
  {
    hide ListBondTokens, Issuer.BalanceOf;
    ListRule(m.dex, m.issuer, c.now, c.seller, c.bond, c.amount, c.price, c.asset, c.expiresAfter, c.nonce);
  }

  lemma CancelMoves(m: Market, c: Call, id: nat)
    requires c.Cancel? && id in Step(m, c).dex.orders && forall k :: k in m.dex.orders ==> m.dex.orders[k].id == k
    ensures id in m.dex.orders && OrderMoves(m, c, m.dex.orders[id], Step(m, c).dex.orders[id])
  {
    hide CancelListing;
    CancelRule(m.dex, c.caller, c.orderId, c.nonce);
  }

  lemma PurchaseMoves(m: Market, c: Call, id: nat)
    requires Inv(m) && c.Purchase? && id in Step(m, c).dex.orders && forall k :: k in m.dex.orders ==> m.dex.orders[k].id == k
    ensures id in m.dex.orders && OrderMoves(m, c, m.dex.orders[id], Step(m, c).dex.orders[id])
  {
    hide ExecutePurchase, Measured, MayBuy, Inv;
    PurchaseRule(m, c.now, c.buyer, c.orderId, c.maxPrice, c.amount, c.nonce);
    BuyNeeds(m, c.now, c.buyer, c.orderId, c.maxPrice, c.amount, c.nonce);
  }

  lemma CleanMoves(m: Market, c: Call, id: nat)
    requires (c.Clean? || c.CleanSome?) && id in Step(m, c).dex.orders && forall k :: k in m.dex.orders ==> m.dex.orders[k].id == k
    ensures id in m.dex.orders && OrderMoves(m, c, m.dex.orders[id], Step(m, c).dex.orders[id])
  {
    hide CleanExpiredOrders, CleanExpiredOrdersRange, ExpiredIn;
    if c.Clean? {
      CleanRule(m.dex, c.now, c.caller, c.nonce, 1, m.dex.orderCount);
    } else {
      CleanRule(m.dex, c.now, c.caller, c.nonce, c.first, c.last);
    }
  }

  lemma OthersKeepOrders(m: Market, c: Call)
    requires c.OnIssuer? || c.Deposit? || c.Withdraw?
    ensures Step(m, c).dex.orders == m.dex.orders
  {
    hide Issuer.Step;
  }

  lemma ListedKept(m: Market, c: Call)
    requires !c.ListTokens?
    ensures Step(m, c).escrow.listed == m.escrow.listed
  {
    hide Issuer.Step, CancelListing, ExecutePurchase, CleanExpiredOrders, CleanExpiredOrdersRange, Measured, DepositQuote, WithdrawQuote;
  }

  lemma MoveStep(m: Market, c: Call, id: nat)
    requires Inv(m) && !c.ListTokens? && id in Step(m, c).dex.orders
    ensures id in m.dex.orders && OrderMoves(m, c, m.dex.orders[id], Step(m, c).dex.orders[id])
    ensures Step(m, c).escrow.listed == m.escrow.listed
  {
    hide Inv, Step, OrderMoves;
    InvIds(m);
    ListedKept(m, c);
    match c
    case Cancel(_, _, _) => CancelMoves(m, c, id);
    case Purchase(_, _, _, _, _, _) => PurchaseMoves(m, c, id);
    case Clean(_, _, _) => CleanMoves(m, c, id);
    case CleanSome(_, _, _, _, _) => CleanMoves(m, c, id);
    case OnIssuer(_) =>
      OthersKeepOrders(m, c);
      Unmoved(m, c, m.dex.orders[id]);
    case Deposit(_, _, _, _) =>
      OthersKeepOrders(m, c);
      Unmoved(m, c, m.dex.orders[id]);
    case Withdraw(_, _, _, _) =>
      OthersKeepOrders(m, c);
      Unmoved(m, c, m.dex.orders[id]);
  }

  lemma Unmoved(m: Market, c: Call, o: Order)
    ensures OrderMoves(m, c, o, o)
  {
  }

  lemma BuyNeeds(m: Market, now: nat, buyer: Address, id: nat, maxPrice: int, amount: int, nonce: nat)
    ensures MayBuy(m, now, buyer, id, maxPrice, amount, nonce) ==>
              && id in m.dex.orders && var o := m.dex.orders[id];
              Takeable(o) && buyer != o.seller && now < o.expiresAt && 0 < amount <= o.amount && o.price <= maxPrice
  {
  }

  lemma InvIds(m: Market)
    requires Inv(m)
    ensures forall id :: id in m.dex.orders ==> m.dex.orders[id].id == id && 1 <= id <= m.dex.orderCount
  {
    hide Issuer.Inv, AssetOk, IndexesOk;
  }

  ghost predicate ListedAt(issuerAdmin: Address, dexAdmin: Address, calls: seq<Call>, k: nat, id: nat, o: Order, listed: int)
    requires k < |calls|
  {
    var m := Run(Deployed(issuerAdmin, dexAdmin), calls[..k]);
    && calls[k].ListTokens? && id == m.dex.orderCount + 1 && listed == calls[k].amount > 0 && calls[k].price > 0
    && o.id == id && o.seller == calls[k].seller && o.bondId == calls[k].bond && o.price == calls[k].price && o.quoteAsset == calls[k].asset
    && o.createdAt == calls[k].now && o.expiresAt == calls[k].now + calls[k].expiresAfter
    && calls[k].amount <= Issuer.BalanceOf(m.issuer, calls[k].bond, calls[k].seller)
  }

  lemma RunInv(issuerAdmin: Address, dexAdmin: Address, calls: seq<Call>)
    ensures Inv(Run(Deployed(issuerAdmin, dexAdmin), calls))
  {
    hide Inv, Run;
    DeployedInv(issuerAdmin, dexAdmin);
    RunKeepsInv(Deployed(issuerAdmin, dexAdmin), calls);
  }

  lemma {:induction false} WasListed(issuerAdmin: Address, dexAdmin: Address, calls: seq<Call>, n: nat, id: nat)
    requires n <= |calls| && id in Run(Deployed(issuerAdmin, dexAdmin), calls[..n]).dex.orders
    ensures var m := Run(Deployed(issuerAdmin, dexAdmin), calls[..n]);
            exists k :: 0 <= k < n && ListedAt(issuerAdmin, dexAdmin, calls, k, id, m.dex.orders[id], Get(m.escrow.listed, id))
    decreases n
  {
    hide Run, Step, Inv, Get, Issuer.BalanceOf;
    var d := Deployed(issuerAdmin, dexAdmin);
    if n == 0 {
      NothingListed(d, calls);
    } else {
      RunSnoc(d, calls, n - 1);
      RunInv(issuerAdmin, dexAdmin, calls[..n - 1]);
      var m, c := Run(d, calls[..n - 1]), calls[n - 1];
      InvIds(m);
      if c.ListTokens? {
        ListingStep(m, c, id);
        PositiveListing(m, c, id);
      } else {
        MoveStep(m, c, id);
      }
      if id in m.dex.orders {
        WasListed(issuerAdmin, dexAdmin, calls, n - 1, id);
        var k :| 0 <= k < n - 1 && ListedAt(issuerAdmin, dexAdmin, calls, k, id, m.dex.orders[id], Get(m.escrow.listed, id));
        var t := Run(d, calls[..n]);
        assert SameTerms(m.dex.orders[id], t.dex.orders[id]) && Get(t.escrow.listed, id) == Get(m.escrow.listed, id);
        assert ListedAt(issuerAdmin, dexAdmin, calls, k, id, t.dex.orders[id], Get(t.escrow.listed, id));
      } else {
        var t := Run(d, calls[..n]);
        assert ListedAt(issuerAdmin, dexAdmin, calls, n - 1, id, t.dex.orders[id], Get(t.escrow.listed, id));
      }
    }
  }

  lemma NothingListed(d: Market, calls: seq<Call>)
    ensures Run(d, calls[..0]) == d
  {
  }

  lemma PositiveListing(m: Market, c: Call, id: nat)
    requires c.ListTokens?
    ensures Step(m, c) == m || (c.amount > 0 && c.price > 0)
  {
    hide Issuer.BalanceOf;
  }

  /** In every reachable market every order is exactly what its seller listed, for the price it asked; and what
      its buyers paid, and its seller earned, is that price times the tokens that changed hands. */
  lemma EveryOrderIsAsListed(issuerAdmin: Address, dexAdmin: Address, calls: seq<Call>, id: nat)
    requires id in Run(Deployed(issuerAdmin, dexAdmin), calls).dex.orders
    ensures var m := Run(Deployed(issuerAdmin, dexAdmin), calls);
            exists k :: 0 <= k < |calls| && ListedAt(issuerAdmin, dexAdmin, calls, k, id, m.dex.orders[id], Get(m.escrow.listed, id))
                     && var f := FillsAt(m.escrow, id);
                     && f.paid == f.earned == calls[k].price * f.sold
                     && f.bought == f.sold && f.sold + Remaining(m.dex.orders[id]) == calls[k].amount
  {
    hide Run, Get, Issuer.BalanceOf, NonNegative, Sum, Accounts;
    assert calls[..|calls|] == calls;
    WasListed(issuerAdmin, dexAdmin, calls, |calls|, id);
    EveryRunSettles(issuerAdmin, dexAdmin, calls, "", id);
  }

  /** Why a purchase is refused, in the order it is checked. */
  lemma PurchaseRefusals(m: Market, now: nat, buyer: Address, id: nat, maxPrice: int, amount: int, nonce: nat)
    ensures var r := ExecutePurchase(m.dex, m.issuer, now, buyer, id, maxPrice, amount, nonce);
            if nonce != NonceOf(m.dex.nonces, buyer) then r == Err(InvalidNonce)
            else if nonce < 0xFFFF_FFFF_FFFF_FFFF then
              if id !in m.dex.orders then r == Err(OrderNotFound)
              else
                var o := m.dex.orders[id];
                if !Takeable(o) then r == Err(OrderAlreadyFilled)
                else if buyer == o.seller then r == Err(SelfBuyNotAllowed)
                else if o.expiresAt <= now then r == Err(OrderExpired)
                else if amount <= 0 then r == Err(ZeroAmount)
                else if o.amount < amount || maxPrice < o.price then r == Err(InsufficientBalance)
                else if Issuer.BalanceOf(m.issuer, o.bondId, o.seller) < amount then r == Err(SellerBalanceDepleted)
                else if !Fits(amount * o.price) then r == Err(Overflow)
                else Get(Accounts(m.dex, o.quoteAsset), buyer) < amount * o.price ==> r == Err(InsufficientFunds)
            else r.Err?
  {
    hide Issuer.Transfer, Settle, AfterFill, Issuer.BalanceOf;
  }
}
