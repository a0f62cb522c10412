/** contracts/dex-router, `get_best_price`: insertion sort plus greedy fill. The quote is proved to be
    the best any allocation over the eligible orders can achieve. */
module Quote {
  import opened Host
  import opened Dex

  // ----- the quote, as the contract computes it -----

  predicate Eligible(o: Order, bond: nat, now: nat) {
    o.bondId == bond && o.amount > 0 && Live(o) && now < o.expiresAt
  }

  /** The eligible orders among the given ids, in that order. */
  function EligibleIn(orders: map<nat, Order>, ids: seq<nat>, bond: nat, now: nat): seq<Order>
    decreases |ids|
  {
    if ids == [] then []
    else
      var front, id := EligibleIn(orders, ids[..|ids| - 1], bond, now), ids[|ids| - 1];
      if id in orders && Eligible(orders[id], bond, now) then front + [orders[id]] else front
  }

  /** Price priority, then time priority. */
  predicate Precedes(side: Side, a: Order, b: Order) {
    match side
    case Buy => a.price < b.price || (a.price == b.price && a.id < b.id)
    case Sell => a.price > b.price || (a.price == b.price && a.id < b.id)
  }

  /** The first position whose order the new one precedes, from `i` on. */
  function Position(side: Side, list: seq<Order>, o: Order, i: nat): (p: nat)
    requires i <= |list|
    ensures i <= p <= |list|
    decreases |list| - i
  {
    if i == |list| || Precedes(side, o, list[i]) then i else Position(side, list, o, i + 1)
  }

  function Insert(side: Side, list: seq<Order>, o: Order): seq<Order> {
    var p := Position(side, list, o, 0);
    list[..p] + [o] + list[p..]
  }

  function Rank(side: Side, list: seq<Order>): seq<Order>
    decreases |list|
  {
    if list == [] then [] else Insert(side, Rank(side, list[..|list| - 1]), list[|list| - 1])
  }

  function Min(a: int, b: int): int {
    if a <= b then a else b
  }

  /** The fill loop: (filled, total). */
  function FillLoop(list: seq<Order>, remaining: int, filled: int, total: int): Result<(int, int), DexError>
    decreases |list|
  {
    if list == [] || remaining == 0 then Ok((filled, total))
    else
      var take := Min(remaining, list[0].amount);
      var cost := take * list[0].price;
      if !Fits(cost) || !Fits(total + cost) || !Fits(filled + take) then Err(Overflow)
      else FillLoop(list[1..], remaining - take, filled + take, total + cost)
  }

  /** (average price, total, slippage in basis points) of a ranked list. */
  function PriceOf(side: Side, ranked: seq<Order>, amount: int): Result<(int, int, int), DexError> {
    if ranked == [] then Ok((0, 0, 0))
    else
      var fill := FillLoop(ranked, amount, 0, 0);
      if fill.Err? then Err(fill.error)
      else
        var (filled, total) := fill.value;
        if filled == 0 then Ok((0, 0, 0))
        else
          var ideal := filled * ranked[0].price;
          if !Fits(ideal) then Err(Overflow)
          else
            var adverse := Saturate(if side == Buy then total - ideal else ideal - total);
            if ideal <= 0 then Ok((Quotient(total, filled), total, 0))
            else if !Fits(adverse * 10_000) then Err(Overflow)
            else Ok((Quotient(total, filled), total, Quotient(adverse * 10_000, ideal)))
  }

  /** Rust's truncating division for a possibly negative divisor. */
  function Quotient(a: int, b: int): int
    requires b != 0
  {
    if b > 0 then TruncDiv(a, b) else TruncDiv(-a, -b)
  }

  function GetBestPrice(s: Storage, now: nat, bond: nat, side: Side, amount: int): Result<(int, int, int), DexError> {
    if amount <= 0 then Err(ZeroAmount)
    else PriceOf(side, Rank(side, EligibleIn(s.orders, ListAt(s.bondOrders, bond), bond, now)), amount)
  }

  // ----- the ranked list -----

  ghost predicate DistinctIds(list: seq<Order>) {
    forall i, j :: 0 <= i < j < |list| ==> list[i].id != list[j].id
  }

  ghost predicate Ranked(side: Side, list: seq<Order>) {
    forall i, j :: 0 <= i < j < |list| ==> Precedes(side, list[i], list[j])
  }

  lemma {:induction false} PositionIsFirst(side: Side, list: seq<Order>, o: Order, i: nat)
    requires i <= |list|
    ensures var p := Position(side, list, o, i);
            && (p < |list| ==> Precedes(side, o, list[p]))
            && (forall k :: i <= k < p ==> !Precedes(side, o, list[k]))
    decreases |list| - i
  {
    if i < |list| && !Precedes(side, o, list[i]) {
      PositionIsFirst(side, list, o, i + 1);
    }
  }

  lemma PrecedesIsAnOrder(side: Side, a: Order, b: Order, c: Order)
    ensures Precedes(side, a, b) && Precedes(side, b, c) ==> Precedes(side, a, c)
    ensures a.id != b.id ==> Precedes(side, a, b) || Precedes(side, b, a)
  {
  }

  lemma InsertAt(side: Side, list: seq<Order>, o: Order, i: nat)
    requires i <= |list|
    ensures var p := Position(side, list, o, 0);
            && |Insert(side, list, o)| == |list| + 1
            && Insert(side, list, o)[i] == if i < p then list[i] else if i == p then o else list[i - 1]
  {
  }

  lemma InsertRanks(side: Side, list: seq<Order>, o: Order)
    requires Ranked(side, list) && DistinctIds(list) && forall i :: 0 <= i < |list| ==> list[i].id != o.id
    ensures Ranked(side, Insert(side, list, o)) && DistinctIds(Insert(side, list, o))
  {
    hide Precedes, Insert, Position;
    var p := Position(side, list, o, 0);
    PositionIsFirst(side, list, o, 0);
    var out := Insert(side, list, o);
    InsertAt(side, list, o, 0);
    forall i, j | 0 <= i < j < |out|
      ensures Precedes(side, out[i], out[j]) && out[i].id != out[j].id
    {
      InsertAt(side, list, o, i);
      InsertAt(side, list, o, j);
      if i == p {
        PrecedesIsAnOrder(side, o, list[p], list[j - 1]);
      } else if j == p {
        PrecedesIsAnOrder(side, o, list[i], o);
      }
    }
  }

  lemma InsertKeeps(side: Side, list: seq<Order>, o: Order)
    ensures multiset(Insert(side, list, o)) == multiset(list) + multiset{o}
  {
    var p := Position(side, list, o, 0);
    assert list == list[..p] + list[p..];
  }

  lemma NewId(r: seq<Order>, init: seq<Order>, o: Order)
    requires multiset(r) == multiset(init) && forall k :: 0 <= k < |init| ==> init[k].id != o.id
    ensures forall i :: 0 <= i < |r| ==> r[i].id != o.id
  {
    forall i | 0 <= i < |r|
      ensures r[i].id != o.id
    {
      assert r[i] in multiset(r);
      assert r[i] in init;
    }
  }

  /** The sorted list is the price-then-time ordered permutation of its input. */
  lemma {:induction false} RankSorts(side: Side, list: seq<Order>)
    requires DistinctIds(list)
    ensures Ranked(side, Rank(side, list)) && DistinctIds(Rank(side, list))
    ensures multiset(Rank(side, list)) == multiset(list)
    decreases |list|
  {
    hide Ranked, Insert;
    if list == [] {
      NothingToRank(side);
    } else {
      var n := |list| - 1;
      var init, o := list[..n], list[n];
      assert DistinctIds(init);
      RankSorts(side, init);
      NewId(Rank(side, init), init, o);
      InsertRanks(side, Rank(side, init), o);
      InsertKeeps(side, Rank(side, init), o);
      assert list == init + [o];
    }
  }

  lemma NothingToRank(side: Side)
    ensures Ranked(side, [])
  {
  }

  // ----- any other way of filling the same quantity -----

  /** Units taken from each order, by order id. */
  type Allocation = map<nat, int>

  ghost predicate Within(list: seq<Order>, x: Allocation) {
    forall i :: 0 <= i < |list| ==> 0 <= Get(x, list[i].id) <= list[i].amount
  }

  function Units(list: seq<Order>, x: Allocation): int {
    if list == [] then 0 else Get(x, list[0].id) + Units(list[1..], x)
  }

  function Cost(list: seq<Order>, x: Allocation): int {
    if list == [] then 0 else Get(x, list[0].id) * list[0].price + Cost(list[1..], x)
  }

  function Capacity(list: seq<Order>): int {
    if list == [] then 0 else list[0].amount + Capacity(list[1..])
  }

  /** What greedy filling in list order costs. */
  function Greedy(list: seq<Order>, n: int): int {
    if list == [] then 0
    else
      var take := Min(n, list[0].amount);
      take * list[0].price + Greedy(list[1..], n - take)
  }

  ghost predicate PositiveAmounts(list: seq<Order>) {
    forall i :: 0 <= i < |list| ==> list[i].amount > 0
  }

  lemma {:induction false} CapacityNonNegative(list: seq<Order>)
    requires PositiveAmounts(list)
    ensures Capacity(list) >= 0
    ensures list != [] ==> Capacity(list) > 0
  {
    if list != [] {
      CapacityNonNegative(list[1..]);
    }
  }

  /** A factor that turns "as cheap as possible" into "as dear as possible". */
  function Sign(side: Side): int {
    if side == Buy then 1 else -1
  }

  /** No order in the list is better than the price `p`. */
  ghost predicate NoBetter(side: Side, list: seq<Order>, p: int) {
    forall i :: 0 <= i < |list| ==> Sign(side) * p <= Sign(side) * list[i].price
  }

  /** Taking `d` more units from a list costs at least `d` times a price no order in it beats. */
  lemma {:induction false} MoreUnits(side: Side, list: seq<Order>, m: int, d: int, p: int)
    requires PositiveAmounts(list) && NoBetter(side, list, p) && 0 <= m && 0 <= d && m + d <= Capacity(list)
    ensures Sign(side) * (Greedy(list, m) + d * p) <= Sign(side) * Greedy(list, m + d)
  {
    if list != [] {
      var o, rest := list[0], list[1..];
      var t, u := Min(m, o.amount), Min(m + d, o.amount);
      assert Greedy(list, m) == t * o.price + Greedy(rest, m - t);
      assert Greedy(list, m + d) == u * o.price + Greedy(rest, m + d - u);
      CapacityNonNegative(rest);
      MoreUnits(side, rest, m - t, d - (u - t), p);
      UnitPrices(side, u - t, d, p, o.price, Greedy(rest, m - t), Greedy(rest, m + d - u), t);
    } else {
      assert d * p == 0;
    }
  }

  lemma UnitPrices(side: Side, extra: int, d: int, p: int, q: int, g: int, h: int, t: int)
    requires 0 <= extra <= d && Sign(side) * p <= Sign(side) * q
    requires Sign(side) * (g + (d - extra) * p) <= Sign(side) * h
    ensures Sign(side) * ((t * q + g) + d * p) <= Sign(side) * ((t + extra) * q + h)
  {
    assert (d - extra) * p == d * p - extra * p;
    assert (t + extra) * q == t * q + extra * q;
    if side == Buy {
      assert extra * p <= extra * q;
    } else {
      assert extra * q <= extra * p;
    }
  }

  /** Exchange argument: no allocation of the same number of units beats greedy on a ranked list. */
  lemma {:induction false} GreedyIsBest(side: Side, list: seq<Order>, x: Allocation)
    requires PositiveAmounts(list) && Within(list, x)
    requires forall i, j :: 0 <= i < j < |list| ==> Sign(side) * list[i].price <= Sign(side) * list[j].price
    ensures Sign(side) * Greedy(list, Units(list, x)) <= Sign(side) * Cost(list, x)
    ensures 0 <= Units(list, x) <= Capacity(list)
  {
    if list != [] {
      var o, rest := list[0], list[1..];
      GreedyIsBest(side, rest, x);
      var n, x0 := Units(list, x), Get(x, o.id);
      var take := Min(n, o.amount);
      CapacityNonNegative(rest);
      Heads(list, x, n);
      assert NoBetter(side, rest, o.price);
      hide Greedy, Cost, Sign, Units, Capacity;
      MoreUnits(side, rest, n - take, take - x0, o.price);
      ExchangeStep(side, take, x0, o.price, Greedy(rest, n - take), Greedy(rest, n - x0), Cost(rest, x));
    }
  }

  lemma Heads(list: seq<Order>, x: Allocation, n: int)
    requires list != []
    ensures Greedy(list, n) == Min(n, list[0].amount) * list[0].price + Greedy(list[1..], n - Min(n, list[0].amount))
    ensures Units(list, x) == Get(x, list[0].id) + Units(list[1..], x)
    ensures Cost(list, x) == Get(x, list[0].id) * list[0].price + Cost(list[1..], x)
    ensures Capacity(list) == list[0].amount + Capacity(list[1..])
  {
  }

  lemma ExchangeStep(side: Side, take: int, x0: int, q: int, g: int, h: int, c: int)
    requires Sign(side) * (g + (take - x0) * q) <= Sign(side) * h && Sign(side) * h <= Sign(side) * c
    ensures Sign(side) * (take * q + g) <= Sign(side) * (x0 * q + c)
  {
    assert (take - x0) * q == take * q - x0 * q;
  }

  // ----- the fill loop is greedy -----

  lemma {:induction false} GreedyOfNothing(list: seq<Order>)
    requires PositiveAmounts(list)
    ensures Greedy(list, 0) == 0
  {
    if list != [] {
      GreedyOfNothing(list[1..]);
    }
  }

  /** Asking for more than the list holds fills the whole list. */
  lemma {:induction false} GreedyIsCapped(list: seq<Order>, n: int)
    requires PositiveAmounts(list) && n >= 0
    ensures Greedy(list, n) == Greedy(list, Min(n, Capacity(list)))
  {
    if list != [] {
      var rest := list[1..];
      CapacityNonNegative(rest);
      var take := Min(n, list[0].amount);
      GreedyIsCapped(rest, n - take);
      assert Min(n - take, Capacity(rest)) == Min(n, Capacity(list)) - take;
    }
  }

  lemma {:induction false} FillLoopIsGreedy(list: seq<Order>, remaining: int, filled: int, total: int)
    requires PositiveAmounts(list) && remaining >= 0
    requires FillLoop(list, remaining, filled, total).Ok?
    ensures FillLoop(list, remaining, filled, total).value
         == (filled + Min(remaining, Capacity(list)), total + Greedy(list, remaining))
    decreases |list|
  {
    if list != [] {
      CapacityNonNegative(list);
      if remaining == 0 {
        GreedyOfNothing(list);
      } else {
        CapacityNonNegative(list[1..]);
        var take := Min(remaining, list[0].amount);
        FillLoopIsGreedy(list[1..], remaining - take, filled + take, total + take * list[0].price);
      }
    }
  }

  /** The greedy fill is itself an allocation. */
  function Taking(list: seq<Order>, n: int): Allocation {
    if list == [] then map[]
    else
      var take := Min(n, list[0].amount);
      Taking(list[1..], n - take)[list[0].id := take]
  }

  lemma {:induction false} SameTail(list: seq<Order>, x: Allocation, id: nat, v: int)
    requires forall i :: 0 <= i < |list| ==> list[i].id != id
    ensures Units(list, x[id := v]) == Units(list, x) && Cost(list, x[id := v]) == Cost(list, x)
  {
    if list != [] {
      SameTail(list[1..], x, id, v);
    }
  }

  lemma {:induction false} TakingIsGreedy(list: seq<Order>, n: int)
    requires PositiveAmounts(list) && DistinctIds(list) && n >= 0
    ensures Within(list, Taking(list, n))
    ensures Units(list, Taking(list, n)) == Min(n, Capacity(list))
    ensures Cost(list, Taking(list, n)) == Greedy(list, n)
  {
    if list != [] {
      var o, rest := list[0], list[1..];
      var take := Min(n, o.amount);
      var y := Taking(rest, n - take);
      assert DistinctIds(rest) && PositiveAmounts(rest);
      TakingIsGreedy(rest, n - take);
      CapacityNonNegative(rest);
      SameTail(rest, y, o.id, take);
      var x := Taking(list, n);
      assert x == y[o.id := take];
      forall i | 0 <= i < |list|
        ensures 0 <= Get(x, list[i].id) <= list[i].amount
      {
        if i > 0 {
          assert list[i] == rest[i - 1];
        }
      }
    }
  }

  // ----- order of the list does not matter to sums -----

  lemma {:induction false} SumsAt(list: seq<Order>, k: nat, x: Allocation)
    requires k < |list|
    ensures var rest := list[..k] + list[k + 1..];
            && Units(list, x) == Get(x, list[k].id) + Units(rest, x)
            && Cost(list, x) == Get(x, list[k].id) * list[k].price + Cost(rest, x)
            && Capacity(list) == list[k].amount + Capacity(rest)
  {
    var rest := list[..k] + list[k + 1..];
    if k == 0 {
      assert rest == list[1..];
    } else {
      SumsAt(list[1..], k - 1, x);
      assert rest[0] == list[0] && rest[1..] == list[1..][..k - 1] + list[1..][k..];
    }
  }

  lemma RemoveBoth(a: seq<Order>, b: seq<Order>, k: nat)
    requires multiset(a) == multiset(b) && a != [] && k < |b| && b[k] == a[0]
    ensures multiset(a[1..]) == multiset(b[..k] + b[k + 1..])
  {
    assert a == [a[0]] + a[1..];
    assert b == b[..k] + [b[k]] + b[k + 1..];
    assert multiset(a) == multiset{a[0]} + multiset(a[1..]);
    assert multiset(b) == multiset(b[..k]) + multiset{b[k]} + multiset(b[k + 1..]);
    assert multiset(b[..k] + b[k + 1..]) == multiset(b) - multiset{b[k]};
  }

  lemma {:induction false} SumsPermute(a: seq<Order>, b: seq<Order>, x: Allocation)
    requires multiset(a) == multiset(b)
    ensures Units(a, x) == Units(b, x) && Cost(a, x) == Cost(b, x) && Capacity(a) == Capacity(b)
    decreases |a|
  {
    if a == [] {
      assert |multiset(b)| == |b|;
      assert b == [];
    } else {
      assert a[0] in multiset(b);
      var k :| 0 <= k < |b| && b[k] == a[0];
      var rest := b[..k] + b[k + 1..];
      SumsAt(b, k, x);
      RemoveBoth(a, b, k);
      SumsPermute(a[1..], rest, x);
    }
  }

  lemma WithinPermutes(a: seq<Order>, b: seq<Order>, x: Allocation)
    requires multiset(a) == multiset(b) && Within(a, x)
    ensures Within(b, x)
  {
    forall i | 0 <= i < |b|
      ensures 0 <= Get(x, b[i].id) <= b[i].amount
    {
      assert b[i] in multiset(b);
      assert b[i] in a;
      var k :| 0 <= k < |a| && a[k] == b[i];
    }
  }

  // ----- the theorem on a list of eligible orders -----

  ghost predicate GoodPrices(list: seq<Order>) {
    forall i :: 0 <= i < |list| ==> list[i].amount > 0 && list[i].price > 0
  }

  lemma RankedPrices(side: Side, list: seq<Order>)
    requires Ranked(side, list)
    ensures forall i, j :: 0 <= i < j < |list| ==> Sign(side) * list[i].price <= Sign(side) * list[j].price
    ensures list != [] ==> NoBetter(side, list, list[0].price)
  {
    forall i, j | 0 <= i < j < |list|
      ensures Sign(side) * list[i].price <= Sign(side) * list[j].price
    {
      assert Precedes(side, list[i], list[j]);
    }
  }

  lemma GoodPermutes(a: seq<Order>, b: seq<Order>)
    requires multiset(a) == multiset(b) && GoodPrices(a)
    ensures GoodPrices(b) && |a| == |b|
  {
    assert |multiset(a)| == |a| && |multiset(b)| == |b|;
    forall i | 0 <= i < |b|
      ensures b[i].amount > 0 && b[i].price > 0
    {
      assert b[i] in multiset(b);
      assert b[i] in a;
      var k :| 0 <= k < |a| && a[k] == b[i];
    }
  }

  /** The quantity a quote is for: what was asked, or all there is. */
  function Wanted(list: seq<Order>, amount: int): int {
    Min(amount, Capacity(list))
  }

  lemma RankFacts(side: Side, list: seq<Order>)
    requires list != [] && GoodPrices(list) && DistinctIds(list)
    ensures var ranked := Rank(side, list);
            && multiset(ranked) == multiset(list) && Ranked(side, ranked) && DistinctIds(ranked) && GoodPrices(ranked) && ranked != []
            && Capacity(ranked) == Capacity(list) > 0
  {
    hide Rank, Ranked;
    var ranked := Rank(side, list);
    RankSorts(side, list);
    GoodPermutes(list, ranked);
    SumsPermute(ranked, list, map[]);
    CapacityNonNegative(ranked);
  }

  function Slippage(side: Side, total: int, ideal: int): int
    requires ideal > 0
  {
    TruncDiv(Saturate(if side == Buy then total - ideal else ideal - total) * 10_000, ideal)
  }

  /** A quoted total on a non-empty list is the greedy total. */
  lemma QuotedTotal(side: Side, ranked: seq<Order>, amount: int)
    requires ranked != [] && GoodPrices(ranked) && amount > 0 && Capacity(ranked) > 0
    requires PriceOf(side, ranked, amount).Ok?
    ensures var (average, total, slippage) := PriceOf(side, ranked, amount).value;
            var n := Wanted(ranked, amount);
            && n > 0 && n * ranked[0].price > 0
            && total == Greedy(ranked, n) && Fits(total) && Fits(n * ranked[0].price)
            && average == TruncDiv(total, n)
            && slippage == Slippage(side, total, n * ranked[0].price)
  {
    hide Greedy, TruncDiv, Saturate;
    FillLoopIsGreedy(ranked, amount, 0, 0);
    GreedyIsCapped(ranked, amount);
    FillFits(ranked, amount, 0, 0);
    assert Wanted(ranked, amount) * ranked[0].price > 0;
  }

  lemma {:induction false} FillFits(list: seq<Order>, remaining: int, filled: int, total: int)
    requires Fits(total) && FillLoop(list, remaining, filled, total).Ok?
    ensures Fits(FillLoop(list, remaining, filled, total).value.1)
    decreases |list|
  {
    if list != [] && remaining != 0 {
      var take := Min(remaining, list[0].amount);
      FillFits(list[1..], remaining - take, filled + take, total + take * list[0].price);
    }
  }

  /** No allocation of the wanted units over the eligible orders beats the quoted total ... */
  lemma QuoteIsUnbeaten(side: Side, list: seq<Order>, amount: int, x: Allocation)
    requires GoodPrices(list) && DistinctIds(list) && amount > 0
    requires PriceOf(side, Rank(side, list), amount).Ok?
    requires Within(list, x) && Units(list, x) == Wanted(list, amount)
    ensures Sign(side) * PriceOf(side, Rank(side, list), amount).value.1 <= Sign(side) * Cost(list, x)
  {
    if list != [] {
      hide PriceOf, Rank, Ranked, Greedy, Precedes;
      RankFacts(side, list);
      var ranked := Rank(side, list);
      QuotedTotal(side, ranked, amount);
      WithinPermutes(list, ranked, x);
      SumsPermute(ranked, list, x);
      RankedPrices(side, ranked);
      GreedyIsBest(side, ranked, x);
    }
  }

  /** ... and one attains it. */
  lemma QuoteIsAttained(side: Side, list: seq<Order>, amount: int) returns (x: Allocation)
    requires GoodPrices(list) && DistinctIds(list) && amount > 0
    requires PriceOf(side, Rank(side, list), amount).Ok?
    ensures Within(list, x) && Units(list, x) == Wanted(list, amount)
    ensures Cost(list, x) == PriceOf(side, Rank(side, list), amount).value.1
  {
    if list == [] {
      x := map[];
    } else {
      hide PriceOf, Rank, Greedy, Ranked;
      RankFacts(side, list);
      var ranked := Rank(side, list);
      QuotedTotal(side, ranked, amount);
      var n := Wanted(list, amount);
      x := Taking(ranked, n);
      TakingIsGreedy(ranked, n);
      WithinPermutes(ranked, list, x);
      SumsPermute(ranked, list, x);
    }
  }

  /** Slippage is never negative, and selling can lose at most everything. */
  lemma SlippageBounds(side: Side, list: seq<Order>, amount: int)
    requires GoodPrices(list) && DistinctIds(list) && amount > 0
    requires PriceOf(side, Rank(side, list), amount).Ok?
    ensures PriceOf(side, Rank(side, list), amount).value.2 >= 0
    ensures side == Sell ==> PriceOf(side, Rank(side, list), amount).value.2 <= 10_000
  {
    if list != [] {
      hide PriceOf, Rank, Ranked, Greedy, Slippage, Capacity;
      RankFacts(side, list);
      var ranked := Rank(side, list);
      QuotedTotal(side, ranked, amount);
      var n, best := Wanted(ranked, amount), ranked[0].price;
      RankedPrices(side, ranked);
      MoreUnits(side, ranked, 0, n, best);
      GreedyOfNothing(ranked);
      GreedyNonNegative(ranked, n);
      BasisPoints(side, Greedy(ranked, n), n * best);
    }
  }

  lemma {:induction false} GreedyNonNegative(list: seq<Order>, n: int)
    requires GoodPrices(list) && n >= 0
    ensures Greedy(list, n) >= 0
  {
    if list != [] {
      var take := Min(n, list[0].amount);
      GreedyNonNegative(list[1..], n - take);
      assert take * list[0].price >= 0;
    }
  }

  lemma BasisPoints(side: Side, total: int, ideal: int)
    requires ideal > 0 && total >= 0 && Sign(side) * ideal <= Sign(side) * total && Fits(total) && Fits(ideal)
    ensures Slippage(side, total, ideal) >= 0 && (side == Sell ==> Slippage(side, total, ideal) <= 10_000)
  {
    var delta := if side == Buy then total - ideal else ideal - total;
    assert 0 <= delta && Saturate(delta) == delta;
    DivAtMost(delta * 10_000, ideal);
  }

  lemma DivAtMost(a: int, b: int)
    requires a >= 0 && b > 0
    ensures a / b >= 0 && (a <= 10_000 * b ==> a / b <= 10_000)
  {
    assert a == b * (a / b) + a % b;
    if a <= 10_000 * b {
      assert b * (a / b - 10_000) <= 0;
    }
  }

  // ----- the other figures, and when a quote is given -----

  /** `p` is the price of an order in the list that no other order beats. */
  ghost predicate BestPrice(side: Side, list: seq<Order>, p: int) {
    && (exists i :: 0 <= i < |list| && list[i].price == p)
    && forall i :: 0 <= i < |list| ==> if side == Buy then p <= list[i].price else list[i].price <= p
  }

  lemma BestOfRanked(side: Side, list: seq<Order>)
    requires list != [] && GoodPrices(list) && DistinctIds(list)
    ensures Rank(side, list) != [] && BestPrice(side, list, Rank(side, list)[0].price)
  {
    hide Rank, Precedes, Capacity;
    RankFacts(side, list);
    var ranked := Rank(side, list);
    RankedPrices(side, ranked);
    hide Ranked;
    assert ranked[0] in multiset(list);
    forall i | 0 <= i < |list|
      ensures if side == Buy then ranked[0].price <= list[i].price else list[i].price <= ranked[0].price
    {
      assert list[i] in multiset(ranked);
      var j :| 0 <= j < |ranked| && ranked[j] == list[i];
      assert Sign(side) * ranked[0].price <= Sign(side) * ranked[j].price;
    }
  }

  /** The average is the total over the units, rounded down; the slippage is how much worse the total is than
      the same units at the best price, in basis points of that. */
  ghost predicate Figures(side: Side, list: seq<Order>, amount: int, average: int, total: int, slippage: int, p: int) {
    var n := Wanted(list, amount);
    && n > 0 && BestPrice(side, list, p) && n * p > 0 && average == total / n
    && slippage == (if side == Buy then total - n * p else n * p - total) * 10_000 / (n * p)
  }

  lemma QuotedFigures(side: Side, list: seq<Order>, amount: int)
    requires list != [] && GoodPrices(list) && DistinctIds(list) && amount > 0
    requires PriceOf(side, Rank(side, list), amount).Ok?
    ensures var (average, total, slippage) := PriceOf(side, Rank(side, list), amount).value;
            exists p :: Figures(side, list, amount, average, total, slippage, p)
  {
    hide PriceOf, Rank, Ranked, Greedy, Capacity, Precedes, BestPrice;
    RankFacts(side, list);
    var ranked := Rank(side, list);
    QuotedTotal(side, ranked, amount);
    BestOfRanked(side, list);
    var n, best := Wanted(ranked, amount), ranked[0].price;
    RankedPrices(side, ranked);
    MoreUnits(side, ranked, 0, n, best);
    GreedyOfNothing(ranked);
    GreedyNonNegative(ranked, n);
    PlainFigures(side, Greedy(ranked, n), n * best, n);
    var (average, total, slippage) := PriceOf(side, ranked, amount).value;
    assert Figures(side, list, amount, average, total, slippage, best);
  }

  lemma PlainFigures(side: Side, total: int, ideal: int, n: int)
    requires ideal > 0 && n > 0 && total >= 0 && Sign(side) * ideal <= Sign(side) * total && Fits(total) && Fits(ideal)
    ensures Slippage(side, total, ideal) == (if side == Buy then total - ideal else ideal - total) * 10_000 / ideal
    ensures TruncDiv(total, n) == total / n
  {
    var delta := if side == Buy then total - ideal else ideal - total;
    assert 0 <= delta && Saturate(delta) == delta;
  }

  ghost predicate PricesBelow(list: seq<Order>, p: int) {
    forall i :: 0 <= i < |list| ==> list[i].price <= p
  }

  lemma Scaled(take: int, price: int, filled: int, total: int, p: int, n: int)
    requires 0 <= take && 0 < price <= p && 0 <= filled && 0 <= total <= filled * p && filled + take <= n && n * p <= I128_MAX
    ensures 0 <= take * price <= I128_MAX && 0 <= total + take * price <= (filled + take) * p <= I128_MAX && filled + take <= I128_MAX
  {
    Grows(take, 0, price);
    Grows(take, price, p);
    Joins(p, filled, take);
    Grows(p, filled + take, n);
    Grows(n, 1, p);
  }

  lemma Grows(a: int, x: int, y: int)
    requires a >= 0 && x <= y
    ensures a * x <= a * y && x * a <= y * a
  {
  }

  lemma Joins(a: int, x: int, y: int)
    ensures (x + y) * a == x * a + y * a
  {
  }

  /** Filling never overflows while the units at the highest price fit. */
  lemma {:induction false} FillSucceeds(list: seq<Order>, remaining: int, filled: int, total: int, p: int, n: int)
    requires GoodPrices(list) && PricesBelow(list, p) && remaining >= 0 && 0 <= filled && 0 <= total <= filled * p
    requires filled + Min(remaining, Capacity(list)) <= n && n * p <= I128_MAX && p > 0
    ensures FillLoop(list, remaining, filled, total).Ok?
    ensures var r := FillLoop(list, remaining, filled, total).value; 0 <= r.1 <= r.0 * p
    decreases |list|
  {
    if list != [] && remaining != 0 {
      CapacityNonNegative(list[1..]);
      var take := Min(remaining, list[0].amount);
      Scaled(take, list[0].price, filled, total, p, n);
      FillSucceeds(list[1..], remaining - take, filled + take, total + take * list[0].price, p, n);
    }
  }

  lemma PriceSucceeds(side: Side, ranked: seq<Order>, amount: int, p: int)
    requires ranked != [] && GoodPrices(ranked) && PricesBelow(ranked, p) && amount > 0
    requires 10_000 * (Wanted(ranked, amount) * p) <= I128_MAX
    ensures PriceOf(side, ranked, amount).Ok?
  {
    var n := Wanted(ranked, amount);
    CapacityPositive(ranked);
    assert 0 * p == 0;
    FillSucceeds(ranked, amount, 0, 0, p, n);
    hide FillLoop, Capacity, Greedy;
    FillLoopIsGreedy(ranked, amount, 0, 0);
    var total, ideal := FillLoop(ranked, amount, 0, 0).value.1, n * ranked[0].price;
    Grows(n, ranked[0].price, p);
    Grows(n, 1, ranked[0].price);
    FiguresFit(side, total, ideal, n * p);
    hide Fits, Saturate, Quotient;
  }

  lemma FiguresFit(side: Side, total: int, ideal: int, bound: int)
    requires 0 <= total <= bound && 0 < ideal <= bound && 10_000 * bound <= I128_MAX
    ensures Fits(ideal) && Fits(Saturate(if side == Buy then total - ideal else ideal - total) * 10_000)
  {
  }

  lemma CapacityPositive(list: seq<Order>)
    requires list != [] && GoodPrices(list)
    ensures Capacity(list) > 0
  {
    CapacityNonNegative(list[1..]);
  }

  /** A quote for a positive amount is given whenever the wanted units, at the highest price on offer and in
      basis points, fit in i128. */
  lemma QuoteIsGiven(side: Side, list: seq<Order>, amount: int, p: int)
    requires GoodPrices(list) && DistinctIds(list) && amount > 0 && PricesBelow(list, p)
    requires 10_000 * (Wanted(list, amount) * p) <= I128_MAX
    ensures PriceOf(side, Rank(side, list), amount).Ok?
  {
    if list != [] {
      hide PriceOf, Rank, Ranked, Precedes;
      RankFacts(side, list);
      var ranked := Rank(side, list);
      forall i | 0 <= i < |ranked|
        ensures ranked[i].price <= p
      {
        assert ranked[i] in multiset(list);
      }
      hide Capacity;
      PriceSucceeds(side, ranked, amount, p);
    }
  }
}
