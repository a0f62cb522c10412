/** Batching refines one-shot distribution. What a period pays depends only on the map from each
    holder to the first positive balance supplied for it, however the holders are cut into batches,
    repeated, padded with zero balances or reordered. */
module CouponBatches {
  import opened Host
  import opened Shared
  import opened Coupon

  // ----- the declarative side -----

  /** The holders a batch newly pays, with the balance they are paid for: the first positive one
      supplied, unless the holder was paid before. */
  function Fresh(holders: Holders, paid: set<Address>): map<Address, int>
    decreases |holders|
  {
    if holders == [] then map[]
    else
      var f := Fresh(holders[..|holders| - 1], paid);
      var (h, b) := holders[|holders| - 1];
      if b > 0 && h !in f && h !in paid then f[h := b] else f
  }

  /** What each of those holders is due. */
  type Dues = map<Address, Due>

  ghost predicate Proper(f: Dues) {
    forall h :: h in f ==> f[h].balance > 0 && f[h].carbon >= 0 && f[h].bio >= 0
  }

  ghost function DuesOf(t: CreditType, st: BatchState, f: map<Address, int>): Dues {
    map h | h in f :: DueFor(t, st, f[h])
  }

  ghost function Balances(f: Dues): map<Address, int> {
    map h | h in f :: f[h].balance
  }

  ghost function CarbonDues(f: Dues): map<Address, int> {
    map h | h in f :: f[h].carbon
  }

  ghost function BioDues(f: Dues): map<Address, int> {
    map h | h in f :: f[h].bio
  }

  /** The holders whose share does not round to zero. */
  ghost function Winners(f: Dues): set<Address> {
    set h | h in f && f[h].carbon + f[h].bio > 0
  }

  function CarbonDue(f: Dues, a: Address): int {
    if a in f then f[a].carbon else 0
  }

  function BioDue(f: Dues, a: Address): int {
    if a in f then f[a].bio else 0
  }

  lemma {:induction false} FreshPositive(holders: Holders, paid: set<Address>)
    ensures NonNegative(Fresh(holders, paid))
    ensures forall h :: h in Fresh(holders, paid) ==> h !in paid && Fresh(holders, paid)[h] > 0
    decreases |holders|
  {
    if holders != [] {
      FreshPositive(holders[..|holders| - 1], paid);
    }
  }

  lemma {:induction false} FreshAppend(a: Holders, b: Holders, paid: set<Address>)
    ensures Fresh(a + b, paid) == Fresh(a, paid) + Fresh(b, paid + Fresh(a, paid).Keys)
    decreases |b|
  {
    if b == [] {
      assert a + b == a;
    } else {
      var b0 := b[..|b| - 1];
      assert (a + b)[..|a + b| - 1] == a + b0;
      FreshAppend(a, b0, paid);
    }
  }

  // ----- the holder loop pays exactly the fresh holders -----

  /** The ledgers differ by exactly what the holders of `f` are due. */
  ghost predicate Credited(l: Ledgers, f: Dues, m: Ledgers) {
    && (forall a :: Get(m.carbon, a) == Get(l.carbon, a) + CarbonDue(f, a))
    && (forall a :: Get(m.bio, a) == Get(l.bio, a) + BioDue(f, a))
    && (forall a :: Get(m.accrued, a) == Get(l.accrued, a) + CarbonDue(f, a) + BioDue(f, a))
  }

  /** What a set of holders adds up to. */
  datatype Totals = Totals(tokens: int, carbon: int, bio: int, winners: nat)

  ghost function TotalsOf(f: Dues): Totals {
    Totals(Sum(Balances(f)), Sum(CarbonDues(f)), Sum(BioDues(f)), |Winners(f)|)
  }

  function Counted(c: Tally, holders: set<Address>, w: Totals): Tally {
    Tally(c.paid + holders, c.processed + w.tokens, c.total + w.carbon + w.bio,
          c.carbonSum + w.carbon, c.bioSum + w.bio, c.count + w.winners)
  }

  /** The flags and accumulators account for exactly the holders of `f`. */
  ghost predicate Tallied(p: Tally, f: Dues, q: Tally) {
    q == Counted(p, f.Keys, TotalsOf(f))
  }

  lemma SumsExtend(f: Dues, h: Address, d: Due)
    requires h !in f
    ensures Sum(Balances(f[h := d])) == Sum(Balances(f)) + d.balance
    ensures Sum(CarbonDues(f[h := d])) == Sum(CarbonDues(f)) + d.carbon
    ensures Sum(BioDues(f[h := d])) == Sum(BioDues(f)) + d.bio
  {
    assert Balances(f[h := d]) == Balances(f)[h := d.balance];
    assert CarbonDues(f[h := d]) == CarbonDues(f)[h := d.carbon];
    assert BioDues(f[h := d]) == BioDues(f)[h := d.bio];
    SumUpdate(Balances(f), h, d.balance);
    SumUpdate(CarbonDues(f), h, d.carbon);
    SumUpdate(BioDues(f), h, d.bio);
  }

  lemma WinnersExtend(f: Dues, h: Address, d: Due)
    requires h !in f
    ensures |Winners(f[h := d])| == |Winners(f)| + (if d.carbon + d.bio > 0 then 1 else 0)
  {
    assert Winners(f[h := d]) == if d.carbon + d.bio > 0 then Winners(f) + {h} else Winners(f);
  }

  /** Readings after a credit. */
  lemma CreditReads(l: Ledgers, h: Address, d: Due, a: Address)
    requires d.carbon >= 0 && d.bio >= 0
    ensures Get(Credit(l, h, d).carbon, a) == Get(l.carbon, a) + (if a == h then d.carbon else 0)
    ensures Get(Credit(l, h, d).bio, a) == Get(l.bio, a) + (if a == h then d.bio else 0)
    ensures Get(Credit(l, h, d).accrued, a) == Get(l.accrued, a) + (if a == h then d.carbon + d.bio else 0)
  {
  }

  lemma CreditExtends(l: Ledgers, f: Dues, m: Ledgers, h: Address, d: Due)
    requires h !in f && d.carbon >= 0 && d.bio >= 0 && Credited(l, f, m)
    ensures Credited(l, f[h := d], Credit(m, h, d))
  {
    var n := Credit(m, h, d);
    var g := f[h := d];
    forall a
      ensures Get(n.carbon, a) == Get(l.carbon, a) + CarbonDue(g, a)
      ensures Get(n.bio, a) == Get(l.bio, a) + BioDue(g, a)
      ensures Get(n.accrued, a) == Get(l.accrued, a) + CarbonDue(g, a) + BioDue(g, a)
    {
      CreditReads(m, h, d, a);
      assert CarbonDue(g, a) == CarbonDue(f, a) + (if a == h then d.carbon else 0);
      assert BioDue(g, a) == BioDue(f, a) + (if a == h then d.bio else 0);
    }
  }

  lemma CountExtends(p: Tally, f: Dues, q: Tally, h: Address, d: Due)
    requires h !in f && d.carbon >= 0 && d.bio >= 0 && Tallied(p, f, q)
    ensures Tallied(p, f[h := d], Count(q, h, d))
  {
    hide Sum;
    SumsExtend(f, h, d);
    WinnersExtend(f, h, d);
    assert p.paid + f.Keys + {h} == p.paid + f[h := d].Keys;
  }

  ghost predicate PaidOff(p: Progress, f: Dues, q: Progress) {
    Credited(p.ledgers, f, q.ledgers) && Tallied(p.tally, f, q.tally)
  }

  predicate NonNegativeRates(t: CreditType, st: BatchState) {
    CarbonRate(t, st) >= 0 && BioRate(t, st) >= 0
  }

  lemma DueIsProper(t: CreditType, st: BatchState, b: int)
    requires NonNegativeRates(t, st) && b >= 0
    ensures DueFor(t, st, b).carbon >= 0 && DueFor(t, st, b).bio >= 0 && DueFor(t, st, b).balance == b
  {
    assert CarbonRate(t, st) * b >= 0 && BioRate(t, st) * b >= 0;
  }

  lemma DuesExtend(t: CreditType, st: BatchState, f: map<Address, int>, h: Address, b: int)
    ensures DuesOf(t, st, f[h := b]) == DuesOf(t, st, f)[h := DueFor(t, st, b)]
    ensures DuesOf(t, st, f).Keys == f.Keys
  {
  }

  lemma NothingPaid(p: Progress)
    ensures PaidOff(p, map[], p)
  {
    var none: Dues := map[];
    assert Balances(none) == map[] && CarbonDues(none) == map[] && BioDues(none) == map[] && Winners(none) == {};
  }

  lemma PayOneExtends(t: CreditType, st: BatchState, subscribed: int, p: Progress, f: map<Address, int>, q: Progress,
                      h: Address, b: int)
    requires NonNegativeRates(t, st) && b > 0 && h !in f && h !in p.tally.paid
    requires PaidOff(p, DuesOf(t, st, f), q)
    requires PayOne(t, st, subscribed, q, h, b).Ok?
    ensures PaidOff(p, DuesOf(t, st, f[h := b]), PayOne(t, st, subscribed, q, h, b).value)
  {
    DuesExtend(t, st, f, h, b);
    DueIsProper(t, st, b);
    var d := DueFor(t, st, b);
    CreditExtends(p.ledgers, DuesOf(t, st, f), q.ledgers, h, d);
    CountExtends(p.tally, DuesOf(t, st, f), q.tally, h, d);
  }

  /** A batch that succeeds pays exactly its fresh holders, each once, for its first positive balance. */
  lemma {:induction false} PayAllEffect(t: CreditType, st: BatchState, subscribed: int, p: Progress, holders: Holders)
    requires NonNegativeRates(t, st)
    requires PayAll(t, st, subscribed, p, holders).Ok?
    ensures PaidOff(p, DuesOf(t, st, Fresh(holders, p.tally.paid)), PayAll(t, st, subscribed, p, holders).value)
    decreases |holders|
  {
    if holders == [] {
      NothingPaid(p);
      assert DuesOf(t, st, map[]) == map[];
    } else {
      var init := holders[..|holders| - 1];
      var (h, b) := holders[|holders| - 1];
      PayAllEffect(t, st, subscribed, p, init);
      var f := Fresh(init, p.tally.paid);
      var q := PayAll(t, st, subscribed, p, init).value;
      assert q.tally.paid == p.tally.paid + f.Keys;
      if b > 0 && h !in f && h !in p.tally.paid {
        PayOneExtends(t, st, subscribed, p, f, q, h, b);
      }
    }
  }

  // ----- rounding -----

  /** `paid` units were paid to `n` holders for `tokens` tokens at a fixed-point rate: never more
      than the rate allows, and less than one unit short for each holder. */
  ghost predicate Within(rate: nat, tokens: int, paid: int, n: nat) {
    FIXED_POINT * paid <= rate * tokens <= FIXED_POINT * paid + n * (FIXED_POINT - 1)
  }

  /** Each share is the floor of rate x balance / FIXED_POINT. */
  ghost predicate Floored(f: Dues, carbonRate: nat, bioRate: nat) {
    forall h :: h in f ==> Within(carbonRate, f[h].balance, f[h].carbon, 1) && Within(bioRate, f[h].balance, f[h].bio, 1)
  }

  lemma FloorBounds(x: nat)
    ensures FIXED_POINT * TruncDiv(x, FIXED_POINT) <= x <= FIXED_POINT * TruncDiv(x, FIXED_POINT) + FIXED_POINT - 1
  {
  }

  lemma DuesAreFloored(t: CreditType, st: BatchState, f: map<Address, int>)
    requires NonNegativeRates(t, st) && forall h :: h in f ==> f[h] > 0
    ensures Proper(DuesOf(t, st, f)) && Floored(DuesOf(t, st, f), CarbonRate(t, st), BioRate(t, st))
    ensures Balances(DuesOf(t, st, f)) == f
  {
    var rc, rb := CarbonRate(t, st), BioRate(t, st);
    forall h | h in f
      ensures DueFor(t, st, f[h]).carbon >= 0 && DueFor(t, st, f[h]).bio >= 0
      ensures Within(rc, f[h], DueFor(t, st, f[h]).carbon, 1) && Within(rb, f[h], DueFor(t, st, f[h]).bio, 1)
    {
      DueIsProper(t, st, f[h]);
      FloorBounds(rc * f[h]);
      FloorBounds(rb * f[h]);
    }
  }

  lemma WithinStep(rate: nat, tokens: int, paid: int, n: nat, b: int, e: int)
    requires Within(rate, tokens, paid, n) && Within(rate, b, e, 1)
    ensures Within(rate, tokens + b, paid + e, n + 1)
  {
    assert rate * (tokens + b) == rate * tokens + rate * b;
  }

  ghost predicate WithinRounding(f: Dues, carbonRate: nat, bioRate: nat) {
    && Within(carbonRate, Sum(Balances(f)), Sum(CarbonDues(f)), |f|)
    && Within(bioRate, Sum(Balances(f)), Sum(BioDues(f)), |f|)
  }

  lemma OneMore(f: Dues, h: Address, d: Due)
    requires h !in f
    ensures |f[h := d]| == |f| + 1
  {
    assert f[h := d].Keys == f.Keys + {h};
  }

  lemma RoundingStep(f: Dues, h: Address, d: Due, carbonRate: nat, bioRate: nat)
    requires h !in f && WithinRounding(f, carbonRate, bioRate)
    requires Within(carbonRate, d.balance, d.carbon, 1) && Within(bioRate, d.balance, d.bio, 1)
    ensures WithinRounding(f[h := d], carbonRate, bioRate)
  {
    hide Sum, Balances, CarbonDues, BioDues, Within;
    OneMore(f, h, d);
    SumsExtend(f, h, d);
    WithinStep(carbonRate, Sum(Balances(f)), Sum(CarbonDues(f)), |f|, d.balance, d.carbon);
    WithinStep(bioRate, Sum(Balances(f)), Sum(BioDues(f)), |f|, d.balance, d.bio);
  }

  /** What a set of holders is paid in all, from both sides: every holder loses less than one unit. */
  lemma {:induction false} TotalsWithinRounding(f: Dues, carbonRate: nat, bioRate: nat)
    requires Floored(f, carbonRate, bioRate)
    ensures WithinRounding(f, carbonRate, bioRate)
    decreases |f|
  {
    if f == map[] {
      assert Balances(f) == map[] && CarbonDues(f) == map[] && BioDues(f) == map[];
    } else {
      var h :| h in f;
      var g := f - {h};
      TotalsWithinRounding(g, carbonRate, bioRate);
      assert g[h := f[h]] == f;
      RoundingStep(g, h, f[h], carbonRate, bioRate);
    }
  }

  /** Two floor divisions: the per-token rate and then every holder's share. For balances that add
      up to the subscribed total, the credits paid never exceed the period's total, and what is left
      over is bounded by the two rounding steps. */
  lemma TwoStageFloor(total: nat, subscribed: int, rate: nat, paid: int, n: nat)
    requires subscribed > 0 && rate == total * FIXED_POINT / subscribed
    requires Within(rate, subscribed, paid, n)
    ensures paid <= total
    ensures FIXED_POINT * (total - paid) <= subscribed - 1 + n * (FIXED_POINT - 1)
  {
    DivBounds(total * FIXED_POINT, subscribed);
  }

  lemma DivBounds(x: nat, d: int)
    requires d > 0
    ensures (x / d) * d <= x <= (x / d) * d + d - 1
  {
    assert x == d * (x / d) + x % d;
  }

  // ----- when a batch succeeds -----

  /** A holder's combined balance is the sum of its parts, non-negative and within i128. */
  ghost predicate SoundAt(l: Ledgers, h: Address) {
    && Get(l.carbon, h) >= 0
    && Get(l.bio, h) >= 0
    && Get(l.accrued, h) == Get(l.carbon, h) + Get(l.bio, h)
    && Fits(Get(l.accrued, h))
  }

  ghost predicate Sound(l: Ledgers) {
    forall a :: SoundAt(l, a)
  }

  /** The rates were computed for `subscribed` tokens without overflow. */
  ghost predicate RatesFit(t: CreditType, st: BatchState, subscribed: int) {
    && NonNegativeRates(t, st)
    && 0 <= subscribed <= I128_MAX
    && CarbonRate(t, st) * subscribed + BioRate(t, st) * subscribed <= I128_MAX
  }

  /** Every holder of `f` can be credited without leaving i128. */
  ghost predicate Room(l: Ledgers, f: Dues) {
    forall h :: h in f ==> Fits(Get(l.accrued, h) + f[h].carbon + f[h].bio)
  }

  predicate Positive(f: map<Address, int>) {
    forall h :: h in f ==> f[h] > 0
  }

  lemma ScaleUp(rate: nat, x: int, y: int)
    requires x <= y
    ensures rate * x <= rate * y
  {
  }

  lemma PaidTotalsFit(t: CreditType, st: BatchState, subscribed: int, f: map<Address, int>)
    requires RatesFit(t, st, subscribed) && Positive(f) && Sum(f) <= subscribed
    ensures var d := DuesOf(t, st, f);
            && 0 <= Sum(CarbonDues(d))
            && 0 <= Sum(BioDues(d))
            && Sum(CarbonDues(d)) + Sum(BioDues(d)) <= I128_MAX
  {
    var d := DuesOf(t, st, f);
    var rc, rb := CarbonRate(t, st), BioRate(t, st);
    DuesAreFloored(t, st, f);
    TotalsWithinRounding(d, rc, rb);
    SumNonNegative(CarbonDues(d));
    SumNonNegative(BioDues(d));
    ScaleUp(rc, Sum(f), subscribed);
    ScaleUp(rb, Sum(f), subscribed);
  }

  lemma SumExtendPositive(f: map<Address, int>, h: Address, b: int)
    requires h !in f && b > 0 && Positive(f)
    ensures Positive(f[h := b]) && Sum(f[h := b]) == Sum(f) + b
    ensures 0 <= Sum(f)
  {
    SumUpdate(f, h, b);
    SumNonNegative(f);
  }

  lemma ProductsFit(t: CreditType, st: BatchState, subscribed: int, b: int)
    requires RatesFit(t, st, subscribed) && 0 <= b <= subscribed
    ensures Fits(CarbonRate(t, st) * b) && Fits(BioRate(t, st) * b)
  {
    ScaleUp(CarbonRate(t, st), b, subscribed);
    ScaleUp(BioRate(t, st), b, subscribed);
    assert 0 <= CarbonRate(t, st) * b && 0 <= BioRate(t, st) * b;
    assert 0 <= CarbonRate(t, st) * subscribed && 0 <= BioRate(t, st) * subscribed;
  }

  /** The guards of one payment, once the arithmetic on rates and accumulators is known to fit. */
  lemma PayOneIff(t: CreditType, st: BatchState, subscribed: int, q: Progress, h: Address, b: int, d: Due)
    requires d == DueFor(t, st, b) && d.carbon >= 0 && d.bio >= 0
    requires b > 0 && h !in q.tally.paid && 0 <= q.tally.processed && subscribed <= I128_MAX
    requires SoundAt(q.ledgers, h)
    requires q.tally.processed + b <= subscribed ==>
               Fits(CarbonRate(t, st) * b) && Fits(BioRate(t, st) * b) && CountFits(q.tally, d)
    ensures var r := PayOne(t, st, subscribed, q, h, b);
            && (r.Ok? <==> q.tally.processed + b <= subscribed && Fits(Get(q.ledgers.accrued, h) + d.carbon + d.bio))
            && (r.Err? && q.tally.processed + b <= subscribed ==> r.error == Overflow)
  {
    CreditFitsIff(q.ledgers, h, d);
  }

  lemma TotalsFitOneMore(t: CreditType, st: BatchState, subscribed: int, f: map<Address, int>, h: Address, b: int)
    requires RatesFit(t, st, subscribed) && Positive(f) && b > 0 && h !in f && Sum(f) + b <= subscribed
    ensures var d := DueFor(t, st, b);
            var carbon, bio := Sum(CarbonDues(DuesOf(t, st, f))), Sum(BioDues(DuesOf(t, st, f)));
            && 0 <= carbon
            && 0 <= bio
            && carbon + d.carbon + bio + d.bio <= I128_MAX
  {
    SumExtendPositive(f, h, b);
    PaidTotalsFit(t, st, subscribed, f);
    PaidTotalsFit(t, st, subscribed, f[h := b]);
    DuesExtend(t, st, f, h, b);
    SumsExtend(DuesOf(t, st, f), h, DueFor(t, st, b));
  }

  lemma CountFitsFrom(p: Tally, f: Dues, q: Tally, d: Due)
    requires p.total == p.carbonSum == p.bioSum == 0 && Tallied(p, f, q)
    requires d.carbon >= 0 && d.bio >= 0 && 0 <= Sum(CarbonDues(f)) && 0 <= Sum(BioDues(f))
    requires Sum(CarbonDues(f)) + d.carbon + Sum(BioDues(f)) + d.bio <= I128_MAX
    ensures CountFits(q, d)
  {
  }

  /** One payment succeeds exactly when the tokens are there and the holder's balance has room. */
  lemma PayOneSucceeds(t: CreditType, st: BatchState, subscribed: int, p: Progress, f: map<Address, int>, q: Progress,
                       h: Address, b: int)
    requires RatesFit(t, st, subscribed) && SoundAt(p.ledgers, h) && Positive(f)
    requires b > 0 && h !in f && h !in p.tally.paid && 0 <= p.tally.processed
    requires p.tally.total == p.tally.carbonSum == p.tally.bioSum == 0
    requires PaidOff(p, DuesOf(t, st, f), q) && p.tally.processed + Sum(f) <= subscribed
    ensures var d := DueFor(t, st, b);
            var r := PayOne(t, st, subscribed, q, h, b);
            && (r.Ok? <==> p.tally.processed + Sum(f) + b <= subscribed && Fits(Get(p.ledgers.accrued, h) + d.carbon + d.bio))
            && (r.Err? && p.tally.processed + Sum(f) + b <= subscribed ==> r.error == Overflow)
  {
    hide Sum;
    var d := DueFor(t, st, b);
    DueIsProper(t, st, b);
    assert 0 <= Sum(f) by {
      SumExtendPositive(f, h, b);
    }
    assert Balances(DuesOf(t, st, f)) == f;
    if p.tally.processed + Sum(f) + b <= subscribed {
      ProductsFit(t, st, subscribed, b);
      TotalsFitOneMore(t, st, subscribed, f, h, b);
      CountFitsFrom(p.tally, DuesOf(t, st, f), q.tally, d);
    }
    CreditedElsewhere(p.ledgers, DuesOf(t, st, f), q.ledgers, h);
    PayOneIff(t, st, subscribed, q, h, b, d);
  }

  lemma CreditedElsewhere(l: Ledgers, f: Dues, m: Ledgers, h: Address)
    requires Credited(l, f, m) && h !in f
    ensures Get(m.accrued, h) == Get(l.accrued, h) && Get(m.carbon, h) == Get(l.carbon, h) && Get(m.bio, h) == Get(l.bio, h)
  {
    assert CarbonDue(f, h) == 0 && BioDue(f, h) == 0;
  }

  lemma CreditFitsIff(l: Ledgers, h: Address, d: Due)
    requires d.carbon >= 0 && d.bio >= 0 && Get(l.carbon, h) >= 0 && Get(l.bio, h) >= 0
    requires Get(l.accrued, h) == Get(l.carbon, h) + Get(l.bio, h) && Fits(Get(l.accrued, h))
    ensures CreditFits(l, h, d) <==> Fits(Get(l.accrued, h) + d.carbon + d.bio)
  {
  }

  lemma RoomExtend(l: Ledgers, t: CreditType, st: BatchState, f: map<Address, int>, h: Address, b: int)
    requires h !in f
    ensures Room(l, DuesOf(t, st, f[h := b])) <==>
              Room(l, DuesOf(t, st, f)) && Fits(Get(l.accrued, h) + DueFor(t, st, b).carbon + DueFor(t, st, b).bio)
  {
    DuesExtend(t, st, f, h, b);
    var d, e := DuesOf(t, st, f), DueFor(t, st, b);
    if Room(l, d[h := e]) {
      assert d[h := e][h] == e;
      forall k | k in d
        ensures Fits(Get(l.accrued, k) + d[k].carbon + d[k].bio)
      {
        assert d[h := e][k] == d[k];
      }
    }
  }

  /** The processed-balance check comes before the products and keeps them within what the rate
      computation already fitted, whatever balance the caller supplies. */
  lemma PayOneNeverTraps(t: CreditType, st: BatchState, subscribed: int, q: Progress, h: Address, b: int)
    requires RatesFit(t, st, subscribed) && 0 <= q.tally.processed <= subscribed
    ensures var r := PayOne(t, st, subscribed, q, h, b);
            && (r.Ok? ==> 0 <= r.value.tally.processed <= subscribed)
            && (r.Err? ==> r.error == Overflow || r.error == AccountingMismatch)
  {
    hide RatesFit, CountFits, CreditFits, Share;
    if 0 < b <= subscribed {
      ProductsFit(t, st, subscribed, b);
    }
  }

  /** No list of holders and balances whatever can make the loop's arithmetic overflow. */
  lemma {:induction false} PayAllNeverTraps(t: CreditType, st: BatchState, subscribed: int, p: Progress, holders: Holders)
    requires RatesFit(t, st, subscribed) && 0 <= p.tally.processed <= subscribed
    ensures var r := PayAll(t, st, subscribed, p, holders);
            && (r.Ok? ==> 0 <= r.value.tally.processed <= subscribed)
            && (r.Err? ==> r.error == Overflow || r.error == AccountingMismatch)
    decreases |holders|
  {
    hide RatesFit, PayOne;
    if holders != [] {
      var init := holders[..|holders| - 1];
      var (h, b) := holders[|holders| - 1];
      PayAllNeverTraps(t, st, subscribed, p, init);
      var before := PayAll(t, st, subscribed, p, init);
      if before.Ok? {
        PayOneNeverTraps(t, st, subscribed, before.value, h, b);
      }
    }
  }

  /** When paying `holders` from `p` succeeds, and how it fails within the tokens left. */
  ghost predicate PaysIff(t: CreditType, st: BatchState, subscribed: int, p: Progress, f: map<Address, int>, r: Result<Progress, Error>) {
    && (r.Ok? <==> p.tally.processed + Sum(f) <= subscribed && Room(p.ledgers, DuesOf(t, st, f)))
    && (r.Err? && p.tally.processed + Sum(f) <= subscribed ==> r.error == Overflow)
  }

  lemma NobodyPaid(t: CreditType, st: BatchState, subscribed: int, p: Progress)
    requires 0 <= p.tally.processed <= subscribed
    ensures PaysIff(t, st, subscribed, p, map[], Ok(p))
  {
    assert DuesOf(t, st, map[]) == map[];
  }

  lemma PayOneMore(t: CreditType, st: BatchState, subscribed: int, p: Progress, f: map<Address, int>, r: Result<Progress, Error>, h: Address, b: int)
    requires RatesFit(t, st, subscribed) && SoundAt(p.ledgers, h) && Positive(f)
    requires p.tally.total == p.tally.carbonSum == p.tally.bioSum == 0 && 0 <= p.tally.processed
    requires b > 0 && h !in f && h !in p.tally.paid
    requires PaysIff(t, st, subscribed, p, f, r) && (r.Ok? ==> PaidOff(p, DuesOf(t, st, f), r.value))
    ensures PaysIff(t, st, subscribed, p, f[h := b], if r.Err? then r else PayOne(t, st, subscribed, r.value, h, b))
  {
    hide Sum, Room, PayOne, RatesFit, DuesOf, PaidOff, DueFor;
    SumExtendPositive(f, h, b);
    RoomExtend(p.ledgers, t, st, f, h, b);
    if r.Ok? {
      PayOneSucceeds(t, st, subscribed, p, f, r.value, h, b);
    }
  }

  lemma {:induction false} PayAllIff(t: CreditType, st: BatchState, subscribed: int, p: Progress, holders: Holders)
    requires RatesFit(t, st, subscribed) && Sound(p.ledgers)
    requires p.tally.total == p.tally.carbonSum == p.tally.bioSum == 0 && 0 <= p.tally.processed <= subscribed
    ensures PaysIff(t, st, subscribed, p, Fresh(holders, p.tally.paid), PayAll(t, st, subscribed, p, holders))
    decreases |holders|
  {
    hide Sum, PaysIff, RatesFit, DuesOf;
    if holders == [] {
      NobodyPaid(t, st, subscribed, p);
    } else {
      var init := holders[..|holders| - 1];
      var (h, b) := holders[|holders| - 1];
      var f := Fresh(init, p.tally.paid);
      PayAllIff(t, st, subscribed, p, init);
      FreshPositive(init, p.tally.paid);
      RatesGive(t, st, subscribed);
      var r := PayAll(t, st, subscribed, p, init);
      if r.Ok? {
        PayAllEffect(t, st, subscribed, p, init);
        PaidKeys(t, st, p, f, r.value);
      }
      if b > 0 && h !in f && h !in p.tally.paid {
        assert SoundAt(p.ledgers, h);
        PayOneMore(t, st, subscribed, p, f, r, h, b);
      }
    }
  }

  lemma RatesGive(t: CreditType, st: BatchState, subscribed: int)
    requires RatesFit(t, st, subscribed)
    ensures NonNegativeRates(t, st)
  {
  }

  lemma PaidKeys(t: CreditType, st: BatchState, p: Progress, f: map<Address, int>, q: Progress)
    requires PaidOff(p, DuesOf(t, st, f), q)
    ensures q.tally.paid == p.tally.paid + f.Keys
  {
  }

  /** A batch succeeds exactly when its fresh holders do not exceed the tokens left and all have room.
      It never traps: it fails with Overflow within the tokens left, and with Overflow or
      AccountingMismatch beyond them. */
  lemma PayAllSucceeds(t: CreditType, st: BatchState, subscribed: int, p: Progress, holders: Holders)
    requires RatesFit(t, st, subscribed) && Sound(p.ledgers)
    requires p.tally.total == p.tally.carbonSum == p.tally.bioSum == 0 && 0 <= p.tally.processed <= subscribed
    ensures var f := Fresh(holders, p.tally.paid);
            var r := PayAll(t, st, subscribed, p, holders);
            && (r.Ok? <==> p.tally.processed + Sum(f) <= subscribed && Room(p.ledgers, DuesOf(t, st, f)))
            && (r.Err? && p.tally.processed + Sum(f) <= subscribed ==> r.error == Overflow)
            && (r.Err? ==> r.error == Overflow || r.error == AccountingMismatch)
  {
    hide Sum, Room, RatesFit, Sound, DuesOf, PayAll, Fresh;
    PayAllIff(t, st, subscribed, p, holders);
    PayAllNeverTraps(t, st, subscribed, p, holders);
  }
}
