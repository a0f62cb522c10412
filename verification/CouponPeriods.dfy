/** A whole coupon period: any cut of the holders into batches settles the period exactly as one
    call would, and succeeds exactly when one call would. */
module CouponPeriods {
  import opened Host
  import opened Shared
  import opened Coupon
  import opened CouponBatches

  // ----- joining what two batches paid -----

  lemma UnionOne(f: map<Address, int>, g: map<Address, int>, k: Address)
    requires k in g
    ensures f + g == (f + (g - {k}))[k := g[k]]
  {
  }

  lemma {:induction false} SumUnion(f: map<Address, int>, g: map<Address, int>)
    requires f.Keys !! g.Keys
    ensures Sum(f + g) == Sum(f) + Sum(g)
    decreases |g|
  {
    if g == map[] {
      assert f + g == f;
    } else {
      var k :| k in g;
      SumUnion(f, g - {k});
      SumRemove(g, k);
      UnionOne(f, g, k);
      SumUpdate(f + (g - {k}), k, g[k]);
    }
  }

  lemma DuesUnion(t: CreditType, st: BatchState, f: map<Address, int>, g: map<Address, int>)
    ensures DuesOf(t, st, f + g) == DuesOf(t, st, f) + DuesOf(t, st, g)
  {
  }

  lemma TokensUnion(d: Dues, e: Dues)
    requires d.Keys !! e.Keys
    ensures Sum(Balances(d + e)) == Sum(Balances(d)) + Sum(Balances(e))
  {
    assert Balances(d + e) == Balances(d) + Balances(e);
    SumUnion(Balances(d), Balances(e));
  }

  lemma CarbonUnion(d: Dues, e: Dues)
    requires d.Keys !! e.Keys
    ensures Sum(CarbonDues(d + e)) == Sum(CarbonDues(d)) + Sum(CarbonDues(e))
  {
    assert CarbonDues(d + e) == CarbonDues(d) + CarbonDues(e);
    SumUnion(CarbonDues(d), CarbonDues(e));
  }

  lemma BioUnion(d: Dues, e: Dues)
    requires d.Keys !! e.Keys
    ensures Sum(BioDues(d + e)) == Sum(BioDues(d)) + Sum(BioDues(e))
  {
    assert BioDues(d + e) == BioDues(d) + BioDues(e);
    SumUnion(BioDues(d), BioDues(e));
  }

  lemma WinnersUnion(d: Dues, e: Dues)
    requires d.Keys !! e.Keys
    ensures |Winners(d + e)| == |Winners(d)| + |Winners(e)|
  {
    assert Winners(d + e) == Winners(d) + Winners(e) && Winners(d) !! Winners(e);
  }

  lemma CreditedUnion(l: Ledgers, d: Dues, m: Ledgers, e: Dues, n: Ledgers)
    requires d.Keys !! e.Keys && Credited(l, d, m) && Credited(m, e, n)
    ensures Credited(l, d + e, n)
  {
    forall a
      ensures Get(n.carbon, a) == Get(l.carbon, a) + CarbonDue(d + e, a)
      ensures Get(n.bio, a) == Get(l.bio, a) + BioDue(d + e, a)
      ensures Get(n.accrued, a) == Get(l.accrued, a) + CarbonDue(d + e, a) + BioDue(d + e, a)
    {
      assert CarbonDue(d + e, a) == CarbonDue(d, a) + CarbonDue(e, a);
      assert BioDue(d + e, a) == BioDue(d, a) + BioDue(e, a);
      assert Get(n.carbon, a) == Get(m.carbon, a) + CarbonDue(e, a);
      assert Get(n.bio, a) == Get(m.bio, a) + BioDue(e, a);
      assert Get(n.accrued, a) == Get(m.accrued, a) + CarbonDue(e, a) + BioDue(e, a);
    }
  }

  lemma RoomUnion(l: Ledgers, d: Dues, m: Ledgers, e: Dues)
    requires d.Keys !! e.Keys && Credited(l, d, m)
    ensures Room(l, d + e) <==> Room(l, d) && Room(m, e)
  {
    forall h | h in e
      ensures Get(m.accrued, h) == Get(l.accrued, h)
    {
      CreditedElsewhere(l, d, m, h);
    }
    if Room(l, d + e) {
      forall h | h in d
        ensures Fits(Get(l.accrued, h) + d[h].carbon + d[h].bio)
      {
        assert (d + e)[h] == d[h];
      }
      forall h | h in e
        ensures Fits(Get(m.accrued, h) + e[h].carbon + e[h].bio)
      {
        assert (d + e)[h] == e[h];
      }
    }
  }

  lemma SoundAfter(l: Ledgers, d: Dues, m: Ledgers)
    requires Sound(l) && (forall h :: h in d ==> d[h].carbon >= 0 && d[h].bio >= 0)
    requires Credited(l, d, m) && Room(l, d)
    ensures Sound(m)
  {
    forall a
      ensures SoundAt(m, a)
    {
      assert SoundAt(l, a);
      assert Get(m.carbon, a) == Get(l.carbon, a) + CarbonDue(d, a);
      assert Get(m.bio, a) == Get(l.bio, a) + BioDue(d, a);
      assert Get(m.accrued, a) == Get(l.accrued, a) + CarbonDue(d, a) + BioDue(d, a);
    }
  }

  // ----- an open period -----

  /** What every opening, fresh or resumed, satisfies: the totals are non-negative and add up, the
      rates never hand out more than the totals, and the credits paid so far are covered by the
      tokens processed so far. */
  ghost predicate OpenOk(o: Opening) {
    var t, st, sn := o.creditType, o.state, o.snapshot;
    && RatesFit(t, st, sn.subscribed)
    && 0 <= sn.processed <= sn.subscribed
    && st.carbonTotal >= 0 && st.biodiversityTotal >= 0
    && st.totalCredits == st.carbonTotal + st.biodiversityTotal <= I128_MAX
    && st.carbonDistributedSoFar >= 0 && st.bioDistributedSoFar >= 0
    && st.distributedSoFar == st.carbonDistributedSoFar + st.bioDistributedSoFar
    && CarbonRate(t, st) * sn.subscribed <= FIXED_POINT * st.carbonTotal
    && BioRate(t, st) * sn.subscribed <= FIXED_POINT * st.biodiversityTotal
    && FIXED_POINT * st.carbonDistributedSoFar <= CarbonRate(t, st) * sn.processed
    && FIXED_POINT * st.bioDistributedSoFar <= BioRate(t, st) * sn.processed
    && (t == Biodiversity ==> st.carbonTotal == 0)
    && (t == Carbon || t == BlueCarbon ==> st.biodiversityTotal == 0)
  }

  /** Credits never run ahead of the totals, so the dust is never negative. */
  lemma DustIsNonNegative(o: Opening)
    requires OpenOk(o)
    ensures var d := Dust(o.state); 0 <= d.carbon && 0 <= d.bio && d.total == d.carbon + d.bio
    ensures o.state.distributedSoFar <= o.state.totalCredits
  {
    ScaleUp(CarbonRate(o.creditType, o.state), o.snapshot.processed, o.snapshot.subscribed);
    ScaleUp(BioRate(o.creditType, o.state), o.snapshot.processed, o.snapshot.subscribed);
  }

  lemma RateBounds(total: int, subscribed: int)
    requires total >= 0 && subscribed >= 0 && RatePerToken(total, subscribed).Ok?
    ensures RatePerToken(total, subscribed).value >= 0
    ensures RatePerToken(total, subscribed).value * subscribed <= FIXED_POINT * total
  {
    if subscribed > 0 && total > 0 {
      DivBounds(total * FIXED_POINT, subscribed);
    }
  }

  lemma OpenWithIsOk(t: CreditType, reportId: nat, carbon: int, bio: int, subscribed: int)
    requires carbon >= 0 && bio >= 0 && 0 <= subscribed <= I128_MAX
    requires t == Biodiversity ==> carbon == 0
    requires t == Carbon || t == BlueCarbon ==> bio == 0
    requires OpenWith(t, reportId, carbon, bio, subscribed).Ok?
    ensures OpenOk(OpenWith(t, reportId, carbon, bio, subscribed).value)
  {
    RateBounds(carbon, subscribed);
    RateBounds(bio, subscribed);
    RateBounds(carbon + bio, subscribed);
    var st := OpenWith(t, reportId, carbon, bio, subscribed).value.state;
    assert CarbonRate(t, st) * 0 == 0 && BioRate(t, st) * 0 == 0;
    if subscribed == 0 {
      assert CarbonRate(t, st) * subscribed == 0 && BioRate(t, st) * subscribed == 0;
    }
  }

  // ----- what a report is worth, in plain arithmetic -----

  predicate PaysCarbon(t: CreditType) {
    t == Carbon || t == BlueCarbon || t == Basket
  }

  predicate PaysBiodiversity(t: CreditType) {
    t == Biodiversity || t == Basket
  }

  /** One carbon credit per thousand units sequestered. */
  function CarbonWorth(r: Report, t: CreditType): int {
    if PaysCarbon(t) then r.carbonSequestered / 1_000 else 0
  }

  /** One credit per habitat unit, a tenth per species, one per biodiversity unit, rounded down once and capped
      where the weighted sum leaves i128. */
  function BiodiversityWorth(r: Report, t: CreditType): int {
    if !PaysBiodiversity(t) || r.biodiversity.Absent? then 0
    else
      var sum := 1_000_000 * r.biodiversity.habitat + 100_000 * r.biodiversity.species + 1_000_000 * r.biodiversity.units;
      (if sum <= 0x7FFF_FFFF_FFFF_FFFF_FFFF_FFFF_FFFF_FFFF then sum else 0x7FFF_FFFF_FFFF_FFFF_FFFF_FFFF_FFFF_FFFF) / 1_000_000
  }

  lemma SaturatedSum(x: nat, y: nat, z: nat)
    ensures Saturate(Saturate(Saturate(x) + Saturate(y)) + Saturate(z)) == if x + y + z <= I128_MAX then x + y + z else I128_MAX
  {
  }

  /** The totals of a period are what its report is worth; a report without biodiversity metrics is refused
      exactly on the two types that pay for them. */
  lemma TotalsAreWorth(r: Report, t: CreditType)
    requires NonNegativeReport(r)
    ensures PeriodTotals(r, t) == if PaysBiodiversity(t) && r.biodiversity.Absent? then Err(InvalidReport)
                                  else Ok((CarbonWorth(r, t), BiodiversityWorth(r, t)))
    ensures CarbonWorth(r, t) >= 0 && BiodiversityWorth(r, t) >= 0
  {
    if r.biodiversity.Present? {
      SaturatedSum(1_000_000 * r.biodiversity.habitat, 100_000 * r.biodiversity.species, 1_000_000 * r.biodiversity.units);
    }
    hide Saturate;
  }

  /** Exactly when a period can be opened, and the totals and snapshot it opens with. */
  lemma OpeningRule(oracle: Oracle, project: Hash, t: CreditType, reportId: nat, subscribed: Option<int>)
    requires Honest(oracle) && (subscribed.Some? ==> 0 <= subscribed.value <= I128_MAX)
    ensures var r := OpenBatch(oracle, project, t, reportId, subscribed);
            && (r.Ok? <==> && reportId in oracle && oracle[reportId].status == Verified && oracle[reportId].projectHash == project
                           && subscribed.Some? && !(PaysBiodiversity(t) && oracle[reportId].biodiversity.Absent?)
                           && var total := CarbonWorth(oracle[reportId], t) + BiodiversityWorth(oracle[reportId], t);
                           total <= I128_MAX && (subscribed.value > 0 ==> total * 10_000_000 <= I128_MAX))
            && (r.Ok? ==>
                  && r.value.state.reportId == reportId && r.value.creditType == t && r.value.snapshot == Snapshot(subscribed.value, 0)
                  && r.value.state.carbonTotal == CarbonWorth(oracle[reportId], t)
                  && r.value.state.biodiversityTotal == BiodiversityWorth(oracle[reportId], t)
                  && r.value.state.totalCredits == r.value.state.carbonTotal + r.value.state.biodiversityTotal)
  {
    hide PeriodTotals, CarbonWorth, BiodiversityWorth;
    if reportId in oracle {
      assert NonNegativeReport(oracle[reportId]);
      TotalsAreWorth(oracle[reportId], t);
    }
  }

  /** A report with non-negative figures opens a period in good order. */
  lemma OpenBatchIsOk(oracle: Oracle, project: Hash, t: CreditType, reportId: nat, subscribed: Option<int>)
    requires Honest(oracle) && (subscribed.Some? ==> 0 <= subscribed.value <= I128_MAX)
    requires OpenBatch(oracle, project, t, reportId, subscribed).Ok?
    ensures var o := OpenBatch(oracle, project, t, reportId, subscribed).value;
            && OpenOk(o)
            && o.creditType == t
            && o.state.reportId == reportId && reportId in oracle
            && o.state.holderCountSoFar == 0
            && o.state.distributedSoFar == o.state.carbonDistributedSoFar == o.state.bioDistributedSoFar == 0
            && o.snapshot.processed == 0
            && subscribed == Some(o.snapshot.subscribed)
            && o.state.carbonTotal == CarbonWorth(oracle[reportId], t)
            && o.state.biodiversityTotal == BiodiversityWorth(oracle[reportId], t)
  {
    hide OpenOk, CarbonWorth, BiodiversityWorth;
    var report := oracle[reportId];
    assert NonNegativeReport(report);
    TotalsAreWorth(report, t);
    var (carbon, bio) := PeriodTotals(report, t).value;
    OpenWithIsOk(t, reportId, carbon, bio, subscribed.value);
  }

  /** The opening after holders adding up to `w` have been paid. */
  function After(o: Opening, w: Totals): Opening {
    var st := o.state;
    Opening(o.creditType,
            BatchState(st.reportId,
                       st.distributedSoFar + w.carbon + w.bio,
                       st.carbonDistributedSoFar + w.carbon,
                       st.bioDistributedSoFar + w.bio,
                       st.holderCountSoFar + w.winners,
                       st.totalCredits, st.carbonTotal, st.biodiversityTotal,
                       st.creditsPerToken, st.carbonPerToken, st.biodiversityPerToken),
            Snapshot(o.snapshot.subscribed, o.snapshot.processed + w.tokens))
  }

  ghost function DuesIn(o: Opening, f: map<Address, int>): Dues {
    DuesOf(o.creditType, o.state, f)
  }

  /** The rates do not move while a period is open. */
  lemma SameDues(o: Opening, w: Totals, f: map<Address, int>)
    ensures DuesIn(After(o, w), f) == DuesIn(o, f)
  {
  }

  function Plus(v: Totals, w: Totals): Totals {
    Totals(v.tokens + w.tokens, v.carbon + w.carbon, v.bio + w.bio, v.winners + w.winners)
  }

  lemma AfterJoin(o: Opening, v: Totals, w: Totals)
    ensures After(After(o, v), w) == After(o, Plus(v, w))
  {
  }

  lemma TotalsUnion(d: Dues, e: Dues)
    requires d.Keys !! e.Keys
    ensures TotalsOf(d + e) == Plus(TotalsOf(d), TotalsOf(e))
  {
    hide Sum, Balances, CarbonDues, BioDues, Winners;
    TokensUnion(d, e);
    CarbonUnion(d, e);
    BioUnion(d, e);
    WinnersUnion(d, e);
  }

  lemma ProductSum(rate: nat, x: int, y: int)
    ensures rate * (x + y) == rate * x + rate * y
  {
  }

  /** Paying more holders, within the tokens left, keeps an opening in good order. */
  lemma AfterIsOk(o: Opening, w: Totals)
    requires OpenOk(o) && 0 <= w.tokens <= o.snapshot.subscribed - o.snapshot.processed && 0 <= w.carbon && 0 <= w.bio
    requires FIXED_POINT * w.carbon <= CarbonRate(o.creditType, o.state) * w.tokens
    requires FIXED_POINT * w.bio <= BioRate(o.creditType, o.state) * w.tokens
    ensures OpenOk(After(o, w))
  {
    ProductSum(CarbonRate(o.creditType, o.state), o.snapshot.processed, w.tokens);
    ProductSum(BioRate(o.creditType, o.state), o.snapshot.processed, w.tokens);
  }

  lemma TotalsAreCovered(o: Opening, f: map<Address, int>)
    requires NonNegativeRates(o.creditType, o.state) && Positive(f)
    ensures var w := TotalsOf(DuesIn(o, f));
            && w.tokens == Sum(f) >= 0
            && 0 <= w.carbon
            && 0 <= w.bio
            && FIXED_POINT * w.carbon <= CarbonRate(o.creditType, o.state) * w.tokens
            && FIXED_POINT * w.bio <= BioRate(o.creditType, o.state) * w.tokens
  {
    var d := DuesIn(o, f);
    DuesAreFloored(o.creditType, o.state, f);
    TotalsWithinRounding(d, CarbonRate(o.creditType, o.state), BioRate(o.creditType, o.state));
    SumNonNegative(f);
    SumNonNegative(CarbonDues(d));
    SumNonNegative(BioDues(d));
  }

  // ----- one batch -----

  /** The book while the period is open. */
  function OpenBook(book: Book, period: nat, o: Opening, l: Ledgers, paid: set<Address>): Book {
    Book(book.project, book.creditType, book.periods, book.periodCount, l, book.pools,
         book.batches[period := o.state], book.snapshots[period := o.snapshot], book.paid[period := paid])
  }

  /** The book once the period is settled. */
  function ClosedBook(book: Book, report: Report, period: nat, o: Opening, l: Ledgers, paid: set<Address>): Book {
    var st := o.state;
    var info := PeriodInfo(period, report.periodStart, report.periodEnd, st.distributedSoFar, true, st.reportId, Dust(st).total);
    Book(book.project, book.creditType, book.periods[period := info], book.periodCount + 1,
         l, AddDust(book.pools, Dust(st)), book.batches - {period}, book.snapshots - {period}, book.paid[period := paid])
  }

  function ResultOf(bond: nat, period: nat, o: Opening): CouponResult {
    CouponResult(bond, period, o.state.distributedSoFar, o.state.holderCountSoFar, o.state.creditsPerToken)
  }

  /** The settlement guards of a final batch. */
  predicate Closes(book: Book, oracle: Oracle, o: Opening) {
    && o.snapshot.processed == o.snapshot.subscribed
    && o.state.reportId in oracle
    && PoolsFit(AddDust(book.pools, Dust(o.state)))
    && book.periodCount < U32_MAX
  }

  lemma CloseBatchEffect(book: Book, oracle: Oracle, o: Opening, w: Totals, bond: nat, period: nat, pr: Progress, final: bool)
    requires OpenOk(After(o, w))
    requires pr.tally.processed == o.snapshot.processed + w.tokens && pr.tally.total == w.carbon + w.bio
    requires pr.tally.carbonSum == w.carbon && pr.tally.bioSum == w.bio && pr.tally.count == w.winners
    ensures var r := CloseBatch(book, oracle, o, bond, period, pr, final);
            var o' := After(o, w);
            && (r.Ok? <==> o'.state.holderCountSoFar <= U32_MAX && (final ==> Closes(book, oracle, o')))
            && (r.Ok? ==> r.value.1 == ResultOf(bond, period, o'))
            && (r.Ok? && !final ==> r.value.0 == OpenBook(book, period, o', pr.ledgers, pr.tally.paid))
            && (r.Ok? && final ==> o'.state.reportId in oracle
                                   && r.value.0 == ClosedBook(book, oracle[o'.state.reportId], period, o', pr.ledgers, pr.tally.paid))
            && (r.Ok? ==> r.value.0.ledgers == pr.ledgers)
            && (r.Err? && (final ==> o'.snapshot.processed == o'.snapshot.subscribed) ==> r.error != AccountingMismatch)
  {
    var o' := After(o, w);
    DustIsNonNegative(o');
    assert Accumulated(o.state, pr.tally) == o'.state;
    assert SumsFit(o.state, pr.tally);
    var open := WithProgress(book, period, o'.state, o.snapshot.subscribed, pr);
    assert open == OpenBook(book, period, o', pr.ledgers, pr.tally.paid);
    FinaliseEffect(book, oracle, period, o', pr.ledgers, pr.tally.paid);
  }

  lemma FinaliseEffect(book: Book, oracle: Oracle, period: nat, o: Opening, l: Ledgers, paid: set<Address>)
    requires OpenOk(o)
    ensures var r := Finalise(OpenBook(book, period, o, l, paid), oracle, period, o.state, o.snapshot);
            && (r.Ok? <==> Closes(book, oracle, o))
            && (r.Ok? ==> r.value == ClosedBook(book, oracle[o.state.reportId], period, o, l, paid))
            && (r.Err? && o.snapshot.processed == o.snapshot.subscribed ==> r.error != AccountingMismatch)
  {
    DustIsNonNegative(o);
    var open := OpenBook(book, period, o, l, paid);
    assert open.batches - {period} == book.batches - {period};
    assert open.snapshots - {period} == book.snapshots - {period};
  }

  lemma DuesKeys(o: Opening, f: map<Address, int>)
    ensures DuesIn(o, f).Keys == f.Keys && Balances(DuesIn(o, f)) == f
  {
  }

  lemma OpenOkGives(o: Opening)
    requires OpenOk(o)
    ensures RatesFit(o.creditType, o.state, o.snapshot.subscribed) && NonNegativeRates(o.creditType, o.state)
    ensures 0 <= o.snapshot.processed <= o.snapshot.subscribed
  {
  }

  /** When a batch that newly pays the holders of `f` succeeds. */
  ghost predicate Affords(book: Book, oracle: Oracle, o: Opening, f: map<Address, int>, final: bool) {
    var o' := After(o, TotalsOf(DuesIn(o, f)));
    && o.snapshot.processed + Sum(f) <= o.snapshot.subscribed
    && Room(book.ledgers, DuesIn(o, f))
    && o'.state.holderCountSoFar <= U32_MAX
    && (final ==> Closes(book, oracle, o'))
  }

  /** What it then leaves behind. */
  ghost predicate Leaves(book: Book, oracle: Oracle, o: Opening, bond: nat, period: nat, f: map<Address, int>, final: bool,
                         after: (Book, CouponResult))
  {
    var o' := After(o, TotalsOf(DuesIn(o, f)));
    var paid := PaidIn(book, period) + f.Keys;
    && Credited(book.ledgers, DuesIn(o, f), after.0.ledgers)
    && after.1 == ResultOf(bond, period, o')
    && (final ==> o'.state.reportId in oracle
                  && after.0 == ClosedBook(book, oracle[o'.state.reportId], period, o', after.0.ledgers, paid))
    && (!final ==> after.0 == OpenBook(book, period, o', after.0.ledgers, paid))
  }

  /** One batch, fresh or resumed: exactly when it succeeds and exactly what it leaves behind. */
  lemma RunBatchEffect(book: Book, oracle: Oracle, o: Opening, bond: nat, period: nat, holders: Holders, final: bool)
    requires OpenOk(o) && Sound(book.ledgers)
    ensures var f := Fresh(holders, PaidIn(book, period));
            var r := RunBatch(book, oracle, o, bond, period, holders, final);
            && (r.Ok? <==> Affords(book, oracle, o, f, final))
            && (r.Ok? ==> Leaves(book, oracle, o, bond, period, f, final, r.value)
                          && OpenOk(After(o, TotalsOf(DuesIn(o, f)))))
  {
    hide Sum, OpenOk, RatesFit, NonNegativeRates, DuesOf, Balances, CarbonDues, BioDues, Winners, Room, Credited, Sound, PayAll, CloseBatch,
      TotalsOf, Closes, ClosedBook, OpenBook, ResultOf, After;
    var paid := PaidIn(book, period);
    var f := Fresh(holders, paid);
    var w := TotalsOf(DuesIn(o, f));
    var start := StartOf(book, period, o.snapshot);
    OpenOkGives(o);
    DuesKeys(o, f);
    FreshPositive(holders, paid);
    TotalsAreCovered(o, f);
    PayAllSucceeds(o.creditType, o.state, o.snapshot.subscribed, start, holders);
    var r := PayAll(o.creditType, o.state, o.snapshot.subscribed, start, holders);
    if r.Ok? {
      PayAllEffect(o.creditType, o.state, o.snapshot.subscribed, start, holders);
      AfterIsOk(o, w);
      CloseBatchEffect(book, oracle, o, w, bond, period, r.value, final);
    }
  }

  /** Supplying no more tokens than were subscribed, and all of them in the final batch, never ends
      in an accounting mismatch. */
  lemma RunBatchNoMismatch(book: Book, oracle: Oracle, o: Opening, bond: nat, period: nat, holders: Holders, final: bool)
    requires OpenOk(o) && Sound(book.ledgers)
    requires var f := Fresh(holders, PaidIn(book, period));
             && o.snapshot.processed + Sum(f) <= o.snapshot.subscribed
             && (final ==> o.snapshot.processed + Sum(f) == o.snapshot.subscribed)
    ensures RunBatch(book, oracle, o, bond, period, holders, final).Err?
        ==> RunBatch(book, oracle, o, bond, period, holders, final).error != AccountingMismatch
  {
    hide Sum, OpenOk, RatesFit, NonNegativeRates, DuesOf, Balances, CarbonDues, BioDues, Winners, Room, Credited, Sound, PayAll, CloseBatch,
      TotalsOf, Closes, ClosedBook, OpenBook, ResultOf;
    var paid := PaidIn(book, period);
    var f := Fresh(holders, paid);
    var w := TotalsOf(DuesIn(o, f));
    var start := StartOf(book, period, o.snapshot);
    OpenOkGives(o);
    FreshPositive(holders, paid);
    TotalsAreCovered(o, f);
    PayAllSucceeds(o.creditType, o.state, o.snapshot.subscribed, start, holders);
    var r := PayAll(o.creditType, o.state, o.snapshot.subscribed, start, holders);
    if r.Ok? {
      PayAllEffect(o.creditType, o.state, o.snapshot.subscribed, start, holders);
      AfterIsOk(o, w);
      CloseBatchEffect(book, oracle, o, w, bond, period, r.value, final);
    }
  }

  // ----- a whole period, cut into batches -----

  /** The admin drives a period: one call per batch, the last one final, nothing in between. */
  function Drive(book: Book, oracle: Oracle, subscribed: Option<int>, bond: nat, period: nat, batches: seq<Holders>, reportId: nat)
    : Result<(Book, CouponResult), Error>
    requires |batches| > 0
    decreases |batches|
  {
    if |batches| == 1 then DistributeBatch(book, oracle, subscribed, bond, period, batches[0], reportId, true)
    else
      var r := DistributeBatch(book, oracle, subscribed, bond, period, batches[0], reportId, false);
      if r.Err? then Err(r.error) else Drive(r.value.0, oracle, subscribed, bond, period, batches[1..], reportId)
  }

  function Flatten(batches: seq<Holders>): Holders
    decreases |batches|
  {
    if batches == [] then [] else batches[0] + Flatten(batches[1..])
  }

  predicate Unstarted(book: Book, period: nat) {
    period !in book.periods && period !in book.batches && period !in book.snapshots && PaidIn(book, period) == {}
  }

  /** `book` is `book0` after the holders of `f` were paid in an open period. */
  ghost predicate Midway(book0: Book, oracle: Oracle, period: nat, o: Opening, f: map<Address, int>, book: Book) {
    && Affords(book0, oracle, o, f, false)
    && Credited(book0.ledgers, DuesIn(o, f), book.ledgers)
    && book == OpenBook(book0, period, After(o, TotalsOf(DuesIn(o, f))), book.ledgers, f.Keys)
  }

  lemma BooksJoin(book0: Book, period: nat, o: Opening, l: Ledgers, paid: set<Address>, report: Report, o': Opening, l': Ledgers, paid': set<Address>)
    ensures var book := OpenBook(book0, period, o, l, paid);
            && OpenBook(book, period, o', l', paid') == OpenBook(book0, period, o', l', paid')
            && ClosedBook(book, report, period, o', l', paid') == ClosedBook(book0, report, period, o', l', paid')
  {
    var book := OpenBook(book0, period, o, l, paid);
    assert book.batches - {period} == book0.batches - {period} && book.snapshots - {period} == book0.snapshots - {period};
    assert book.batches[period := o'.state] == book0.batches[period := o'.state];
    assert book.snapshots[period := o'.snapshot] == book0.snapshots[period := o'.snapshot];
    assert book.paid[period := paid'] == book0.paid[period := paid'];
  }

  lemma JoinedDues(o: Opening, f: map<Address, int>, g: map<Address, int>)
    requires f.Keys !! g.Keys
    ensures DuesIn(o, f + g) == DuesIn(o, f) + DuesIn(o, g)
    ensures DuesIn(o, f).Keys !! DuesIn(o, g).Keys
  {
    hide DuesOf, Balances;
    DuesUnion(o.creditType, o.state, f, g);
    DuesKeys(o, f);
    DuesKeys(o, g);
  }

  lemma JoinedSums(f: map<Address, int>, g: map<Address, int>)
    requires f.Keys !! g.Keys && Positive(f) && Positive(g)
    ensures Positive(f + g) && Sum(f + g) == Sum(f) + Sum(g) && Sum(f) >= 0 && Sum(g) >= 0
  {
    hide Sum;
    SumUnion(f, g);
    SumNonNegative(f);
    SumNonNegative(g);
  }

  lemma JoinedOpenings(o: Opening, d: Dues, e: Dues)
    requires d.Keys !! e.Keys
    ensures After(After(o, TotalsOf(d)), TotalsOf(e)) == After(o, TotalsOf(d + e))
  {
    hide TotalsOf, After;
    TotalsUnion(d, e);
    AfterJoin(o, TotalsOf(d), TotalsOf(e));
  }

  lemma ProcessedTokens(o: Opening, f: map<Address, int>)
    ensures After(o, TotalsOf(DuesIn(o, f))).snapshot == Snapshot(o.snapshot.subscribed, o.snapshot.processed + Sum(f))
  {
    hide Sum, DuesIn, CarbonDues, BioDues, Winners, Balances;
    DuesKeys(o, f);
  }

  /** The totals and dues of two batches of one period join. */
  lemma PaymentsJoin(o: Opening, f: map<Address, int>, g: map<Address, int>)
    requires f.Keys !! g.Keys && Positive(f) && Positive(g)
    ensures Positive(f + g) && Sum(f + g) == Sum(f) + Sum(g) && Sum(g) >= 0
    ensures DuesIn(o, f + g) == DuesIn(o, f) + DuesIn(o, g)
    ensures DuesIn(o, f).Keys !! DuesIn(o, g).Keys
    ensures var o1 := After(o, TotalsOf(DuesIn(o, f)));
            && DuesIn(o1, g) == DuesIn(o, g)
            && After(o1, TotalsOf(DuesIn(o, g))) == After(o, TotalsOf(DuesIn(o, f + g)))
            && o1.snapshot == Snapshot(o.snapshot.subscribed, o.snapshot.processed + Sum(f))
  {
    hide Sum, DuesIn, After, TotalsOf, Positive;
    JoinedSums(f, g);
    JoinedDues(o, f, g);
    SameDues(o, TotalsOf(DuesIn(o, f)), g);
    JoinedOpenings(o, DuesIn(o, f), DuesIn(o, g));
    ProcessedTokens(o, f);
  }

  lemma AffordsJoin(book0: Book, oracle: Oracle, period: nat, o: Opening, f: map<Address, int>, book: Book, g: map<Address, int>, final: bool)
    requires Midway(book0, oracle, period, o, f, book)
    requires f.Keys !! g.Keys && Positive(f) && Positive(g)
    ensures Affords(book, oracle, After(o, TotalsOf(DuesIn(o, f))), g, final) <==> Affords(book0, oracle, o, f + g, final)
  {
    hide Sum, DuesOf, Balances, CarbonDues, BioDues, Winners, Room, Credited, TotalsOf;
    PaymentsJoin(o, f, g);
    RoomUnion(book0.ledgers, DuesIn(o, f), book.ledgers, DuesIn(o, g));
  }

  lemma RoomPrefix(l: Ledgers, d: Dues, e: Dues)
    requires d.Keys !! e.Keys && Room(l, d + e)
    ensures Room(l, d)
  {
    forall h | h in d
      ensures Fits(Get(l.accrued, h) + d[h].carbon + d[h].bio)
    {
      assert (d + e)[h] == d[h];
    }
  }

  /** A failed batch condition cannot be repaired by paying more holders. */
  lemma AffordsPrefix(book0: Book, oracle: Oracle, o: Opening, f: map<Address, int>, g: map<Address, int>, final: bool)
    requires f.Keys !! g.Keys && Positive(f) && Positive(g) && Affords(book0, oracle, o, f + g, final)
    ensures Affords(book0, oracle, o, f, false)
  {
    hide Sum, DuesOf, Balances, CarbonDues, BioDues, Winners, Room;
    PaymentsJoin(o, f, g);
    RoomPrefix(book0.ledgers, DuesIn(o, f), DuesIn(o, g));
    TotalsUnion(DuesIn(o, f), DuesIn(o, g));
  }

  lemma LeavesJoin(book0: Book, oracle: Oracle, bond: nat, period: nat, o: Opening, f: map<Address, int>, book: Book,
                   g: map<Address, int>, final: bool, after: (Book, CouponResult))
    requires Midway(book0, oracle, period, o, f, book) && Unstarted(book0, period)
    requires f.Keys !! g.Keys && Positive(f) && Positive(g)
    requires Leaves(book, oracle, After(o, TotalsOf(DuesIn(o, f))), bond, period, g, final, after)
    ensures Leaves(book0, oracle, o, bond, period, f + g, final, after)
  {
    hide Sum, DuesOf, Balances, CarbonDues, BioDues, Winners, Room, Credited, TotalsOf;
    PaymentsJoin(o, f, g);
    CreditedUnion(book0.ledgers, DuesIn(o, f), book.ledgers, DuesIn(o, g), after.0.ledgers);
    var o1 := After(o, TotalsOf(DuesIn(o, f)));
    var o2 := After(o, TotalsOf(DuesIn(o, f + g)));
    assert PaidIn(book, period) + g.Keys == PaidIn(book0, period) + (f + g).Keys;
    BooksJoin(book0, period, o1, book.ledgers, f.Keys,
              if o2.state.reportId in oracle then oracle[o2.state.reportId] else Report([], 0, 0, 0, Absent, Verified),
              o2, after.0.ledgers, PaidIn(book, period) + g.Keys);
  }

  lemma MidwayResumes(book0: Book, oracle: Oracle, period: nat, o: Opening, f: map<Address, int>, book: Book,
                      reportId: nat, subscribed: Option<int>)
    requires Midway(book0, oracle, period, o, f, book) && period !in book0.periods
    requires book0.project.Some? && book0.creditType == Some(o.creditType) && o.state.reportId == reportId
    ensures Resume(book, oracle, period, reportId, subscribed) == Ok(After(o, TotalsOf(DuesIn(o, f))))
    ensures PaidIn(book, period) == f.Keys
  {
    hide Sum, TotalsOf, DuesOf, Credited, Affords;
  }

  lemma MidwaySound(book0: Book, oracle: Oracle, period: nat, o: Opening, f: map<Address, int>, book: Book)
    requires Midway(book0, oracle, period, o, f, book) && OpenOk(o) && Sound(book0.ledgers) && Positive(f)
    ensures Sound(book.ledgers) && OpenOk(After(o, TotalsOf(DuesIn(o, f))))
  {
    hide Sum, Sound, Room, Credited, DuesOf, TotalsOf, RatesFit;
    OpenOkGives(o);
    DuesAreFloored(o.creditType, o.state, f);
    SoundAfter(book0.ledgers, DuesIn(o, f), book.ledgers);
    TotalsAreCovered(o, f);
    AfterIsOk(o, TotalsOf(DuesIn(o, f)));
  }

  /** Driving on from a midway state. */
  lemma {:induction false} DriveFrom(book0: Book, oracle: Oracle, subscribed: Option<int>, bond: nat, period: nat, o: Opening,
                                     f: map<Address, int>, book: Book, batches: seq<Holders>, reportId: nat)
    requires |batches| > 0 && Unstarted(book0, period) && Sound(book0.ledgers) && OpenOk(o) && Positive(f)
    requires book0.project.Some? && book0.creditType == Some(o.creditType) && o.state.reportId == reportId
    requires Midway(book0, oracle, period, o, f, book)
    ensures var g := Fresh(Flatten(batches), f.Keys);
            var r := Drive(book, oracle, subscribed, bond, period, batches, reportId);
            && (r.Ok? <==> Affords(book0, oracle, o, f + g, true))
            && (r.Ok? ==> Leaves(book0, oracle, o, bond, period, f + g, true, r.value))
    decreases |batches|
  {
    hide Sum, Sound, Room, Credited, DuesOf, TotalsOf, RatesFit, OpenOk, Affords, Leaves, RunBatch, After;
    var o1 := After(o, TotalsOf(DuesIn(o, f)));
    var b := batches[0];
    var final := |batches| == 1;
    MidwayResumes(book0, oracle, period, o, f, book, reportId, subscribed);
    MidwaySound(book0, oracle, period, o, f, book);
    RunBatchEffect(book, oracle, o1, bond, period, b, final);
    FreshPositive(b, f.Keys);
    var g := Fresh(b, f.Keys);
    AffordsJoin(book0, oracle, period, o, f, book, g, final);
    var rest := Flatten(batches[1..]);
    FreshAppend(b, rest, f.Keys);
    assert Flatten(batches) == b + rest;
    var r := DistributeBatch(book, oracle, subscribed, bond, period, b, reportId, final);
    if r.Ok? {
      LeavesJoin(book0, oracle, bond, period, o, f, book, g, final, r.value);
    }
    if final {
      assert rest == [] && Fresh(rest, f.Keys + g.Keys) == map[];
      assert g + map[] == g;
    } else {
      var k := Fresh(rest, f.Keys + g.Keys);
      FreshPositive(rest, f.Keys + g.Keys);
      assert f + g + k == f + (g + k) && (f + g).Keys == f.Keys + g.Keys;
      if r.Ok? {
        MidwayFromLeaves(book0, oracle, bond, period, o, f + g, r.value);
        DriveFrom(book0, oracle, subscribed, bond, period, o, f + g, r.value.0, batches[1..], reportId);
      } else if Affords(book0, oracle, o, f + g + k, true) {
        AffordsPrefix(book0, oracle, o, f + g, k, true);
      }
    }
  }

  lemma MidwayFromLeaves(book0: Book, oracle: Oracle, bond: nat, period: nat, o: Opening, f: map<Address, int>, after: (Book, CouponResult))
    requires Unstarted(book0, period) && Affords(book0, oracle, o, f, false)
    requires Leaves(book0, oracle, o, bond, period, f, false, after)
    ensures Midway(book0, oracle, period, o, f, after.0)
  {
    assert PaidIn(book0, period) + f.Keys == f.Keys;
  }

  /** Any cut of the holders into batches settles a fresh period exactly when one call with all of
      them would, and leaves exactly what the map from each holder to its first positive balance
      determines. */
  lemma AnyBatching(book: Book, oracle: Oracle, subscribed: Option<int>, bond: nat, period: nat, batches: seq<Holders>, reportId: nat)
    requires |batches| > 0 && Unstarted(book, period) && Sound(book.ledgers) && Honest(oracle)
    requires subscribed.Some? ==> 0 <= subscribed.value <= I128_MAX
    ensures var f := Fresh(Flatten(batches), {});
            var r := Drive(book, oracle, subscribed, bond, period, batches, reportId);
            var o := Resume(book, oracle, period, reportId, subscribed);
            && (o.Err? ==> r == Err(o.error))
            && (o.Ok? ==> && OpenOk(o.value)
                          && (r.Ok? <==> Affords(book, oracle, o.value, f, true))
                          && (r.Ok? ==> Leaves(book, oracle, o.value, bond, period, f, true, r.value)))
  {
    hide Sum, Sound, Room, Credited, DuesOf, TotalsOf, RatesFit, OpenOk, Affords, Leaves, RunBatch, After, OpenBatch;
    var resumed := Resume(book, oracle, period, reportId, subscribed);
    if resumed.Ok? {
      var o := resumed.value;
      OpenBatchIsOk(oracle, book.project.value, book.creditType.value, reportId, subscribed);
      var b := batches[0];
      var final := |batches| == 1;
      RunBatchEffect(book, oracle, o, bond, period, b, final);
      FreshPositive(b, {});
      var g := Fresh(b, {});
      var rest := Flatten(batches[1..]);
      FreshAppend(b, rest, {});
      assert Flatten(batches) == b + rest && {} + g.Keys == g.Keys;
      var k := Fresh(rest, g.Keys);
      if final {
        assert rest == [] && k == map[] && g + k == g;
      } else {
        FreshPositive(rest, g.Keys);
        var r := DistributeBatch(book, oracle, subscribed, bond, period, b, reportId, final);
        if r.Ok? {
          MidwayFromLeaves(book, oracle, bond, period, o, g, r.value);
          DriveFrom(book, oracle, subscribed, bond, period, o, g, r.value.0, batches[1..], reportId);
        } else if Affords(book, oracle, o, g + k, true) {
          AffordsPrefix(book, oracle, o, g, k, true);
        }
      }
    }
  }

  /** Two books no reader of the contract can tell apart. */
  ghost predicate SameReadings(a: Book, b: Book) {
    && a == b.(ledgers := a.ledgers)
    && (forall h :: Get(a.ledgers.accrued, h) == Get(b.ledgers.accrued, h))
    && (forall h :: Get(a.ledgers.carbon, h) == Get(b.ledgers.carbon, h))
    && (forall h :: Get(a.ledgers.bio, h) == Get(b.ledgers.bio, h))
  }

  /** Splitting, repeating, padding and reordering change nothing: two ways of feeding a period that
      agree on every holder's first positive balance succeed together and end alike. */
  lemma BatchingIsIrrelevant(book: Book, oracle: Oracle, subscribed: Option<int>, bond: nat, period: nat,
                             batches: seq<Holders>, batches': seq<Holders>, reportId: nat)
    requires |batches| > 0 && |batches'| > 0 && Unstarted(book, period) && Sound(book.ledgers) && Honest(oracle)
    requires subscribed.Some? ==> 0 <= subscribed.value <= I128_MAX
    requires Fresh(Flatten(batches), {}) == Fresh(Flatten(batches'), {})
    ensures var r := Drive(book, oracle, subscribed, bond, period, batches, reportId);
            var r' := Drive(book, oracle, subscribed, bond, period, batches', reportId);
            && (r.Ok? <==> r'.Ok?)
            && (r.Ok? ==> r.value.1 == r'.value.1 && SameReadings(r.value.0, r'.value.0))
  {
    hide Sum, Sound, Room, DuesOf, TotalsOf, RatesFit, OpenOk, Affords, RunBatch, After, OpenBatch, Drive;
    AnyBatching(book, oracle, subscribed, bond, period, batches, reportId);
    AnyBatching(book, oracle, subscribed, bond, period, batches', reportId);
  }

  /** No holder is given two different positive balances. */
  ghost predicate OneBalanceEach(holders: Holders) {
    forall p, q :: p in holders && q in holders && p.0 == q.0 && p.1 > 0 && q.1 > 0 ==> p.1 == q.1
  }

  /** Then what counts is only the set of positive pairs: order and repetition of the list do not matter. */
  lemma {:induction false} FreshIsTheSetOfPairs(holders: Holders, h: Address, b: int)
    requires OneBalanceEach(holders)
    ensures (h in Fresh(holders, {}) && Fresh(holders, {})[h] == b) <==> (b > 0 && (h, b) in holders)
    decreases |holders|
  {
    if holders != [] {
      var n := |holders| - 1;
      var init, last := holders[..n], holders[n];
      assert holders == init + [last] && last in holders;
      assert forall p :: p in init ==> p in holders;
      FreshIsTheSetOfPairs(init, h, b);
      var f := Fresh(init, {});
      if last.1 > 0 && last.0 in f {
        FreshIsTheSetOfPairs(init, last.0, f[last.0]);
        assert f[last.0] == last.1;
      }
    }
  }
}
