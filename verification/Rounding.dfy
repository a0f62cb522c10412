/** How much two floor divisions can leave undistributed in a settled period, per credit type. */
module Rounding {
  import opened Host
  import opened Shared
  import opened Coupon
  import opened CouponBatches
  import opened CouponPeriods
  import opened Protocol
  import opened Interleaving
  import Issuer
  import Retirement
  import CL = CouponLedger

  /** `paid` out of `total` reached `n` holders of `subscribed` tokens: never more than the total, and
      short by less than one fixed-point unit per token plus one credit per holder. */
  ghost predicate Bounded(total: int, paid: int, subscribed: int, n: nat) {
    && 0 <= paid <= total
    && 10_000_000 * (total - paid) <= subscribed - 1 + n * 9_999_999
  }

  /** The per-token rate of a total; a total that is not positive is paid at rate zero. */
  function FlooredRate(total: int, subscribed: int): nat
    requires subscribed > 0
  {
    if total > 0 then total * FIXED_POINT / subscribed else 0
  }

  lemma OpenedRates(t: CreditType, reportId: nat, carbon: int, bio: int, subscribed: int)
    requires subscribed > 0
    requires t == Biodiversity ==> carbon == 0
    requires t == Carbon || t == BlueCarbon ==> bio == 0
    requires OpenWith(t, reportId, carbon, bio, subscribed).Ok?
    ensures var st := OpenWith(t, reportId, carbon, bio, subscribed).value.state;
            && st.carbonTotal == carbon && st.biodiversityTotal == bio
            && CarbonRate(t, st) == FlooredRate(carbon, subscribed)
            && BioRate(t, st) == FlooredRate(bio, subscribed)
  {
  }

  /** A freshly opened period pays each side at the floor of its own total per token. */
  lemma FreshRates(book: Book, oracle: Oracle, period: nat, reportId: nat, subscribed: int)
    requires Unstarted(book, period) && Honest(oracle) && 0 < subscribed <= I128_MAX
    requires Resume(book, oracle, period, reportId, Some(subscribed)).Ok?
    ensures var o := Resume(book, oracle, period, reportId, Some(subscribed)).value;
            && OpenOk(o) && o.snapshot == Snapshot(subscribed, 0)
            && o.state.carbonDistributedSoFar == 0 && o.state.bioDistributedSoFar == 0 && o.state.distributedSoFar == 0
            && CarbonRate(o.creditType, o.state) == FlooredRate(o.state.carbonTotal, subscribed)
            && BioRate(o.creditType, o.state) == FlooredRate(o.state.biodiversityTotal, subscribed)
  {
    hide OpenOk, OpenWith, CarbonRate, BioRate;
    var t, project := book.creditType.value, book.project.value;
    OpenBatchIsOk(oracle, project, t, reportId, Some(subscribed));
    var report := oracle[reportId];
    assert NonNegativeReport(report);
    TotalsAreWorth(report, t);
    var (carbon, bio) := PeriodTotals(report, t).value;
    OpenedRates(t, reportId, carbon, bio, subscribed);
  }

  lemma SideBounded(total: nat, subscribed: int, paid: int, n: nat)
    requires subscribed > 0 && paid >= 0 && Within(FlooredRate(total, subscribed), subscribed, paid, n)
    ensures Bounded(total, paid, subscribed, n)
  {
    if total > 0 {
      TwoStageFloor(total, subscribed, FlooredRate(total, subscribed), paid, n);
    }
  }

  /** What holders of all subscribed tokens are due, side by side. */
  lemma DuesBounded(o: Opening, f: map<Address, int>)
    requires OpenOk(o) && Positive(f) && Sum(f) == o.snapshot.subscribed > 0
    requires CarbonRate(o.creditType, o.state) == FlooredRate(o.state.carbonTotal, o.snapshot.subscribed)
    requires BioRate(o.creditType, o.state) == FlooredRate(o.state.biodiversityTotal, o.snapshot.subscribed)
    ensures var w := TotalsOf(DuesIn(o, f));
            && Bounded(o.state.carbonTotal, w.carbon, o.snapshot.subscribed, |f|)
            && Bounded(o.state.biodiversityTotal, w.bio, o.snapshot.subscribed, |f|)
  {
    hide Sum, Bounded, Within, CarbonRate, BioRate, FlooredRate;
    var d := DuesIn(o, f);
    var rc, rb := CarbonRate(o.creditType, o.state), BioRate(o.creditType, o.state);
    DuesAreFloored(o.creditType, o.state, f);
    TotalsWithinRounding(d, rc, rb);
    TotalsAreCovered(o, f);
    assert d.Keys == f.Keys && |d| == |d.Keys| && |f| == |f.Keys|;
    SideBounded(o.state.carbonTotal, o.snapshot.subscribed, Sum(CarbonDues(d)), |f|);
    SideBounded(o.state.biodiversityTotal, o.snapshot.subscribed, Sum(BioDues(d)), |f|);
  }

  /** A fresh period's first batch opens it at the floor rates. */
  lemma OpenedFresh(s: System, c: Call)
    requires Inv(s) && c.Distribute? && Honest(c.oracle) && FreshPeriod(s, c.bond, c.period) && OpenedBy(s, c).Ok?
    ensures var o := OpenedBy(s, c).value;
            && OpenOk(o) && o.snapshot.processed == 0
            && o.state.carbonDistributedSoFar == 0 && o.state.bioDistributedSoFar == 0 && o.state.distributedSoFar == 0
            && (o.snapshot.subscribed > 0 ==>
                  && CarbonRate(o.creditType, o.state) == FlooredRate(o.state.carbonTotal, o.snapshot.subscribed)
                  && BioRate(o.creditType, o.state) == FlooredRate(o.state.biodiversityTotal, o.snapshot.subscribed))
  {
    hide Inv, Honest, OpenOk, CarbonRate, BioRate, FlooredRate, OpenBatch;
    InvOpens(s, c);
    InvFresh(s, c.bond, c.period);
    SupplyOf(s, c.bond);
    var book, supply := BookIn(s, c.bond), Subscribed(s.issuer, c.bond);
    OpenBatchIsOk(c.oracle, book.project.value, book.creditType.value, c.reportId, supply);
    if supply.value > 0 {
      FreshRates(book, c.oracle, c.period, c.reportId, supply.value);
    }
  }

  lemma InvFresh(s: System, bond: nat, period: nat)
    requires Inv(s) && FreshPeriod(s, bond, period)
    ensures Unstarted(BookIn(s, bond), period)
  {
    hide Issuer.Inv, Retirement.Inv, OpenOk, CL.OnType, CL.Conserved, CL.Tracked, CL.PoolsAddUp, Sound;
    assert BondOk(s, bond);
    InvUnstarted(s, bond, period);
  }

  lemma SupplyOf(s: System, bond: nat)
    requires Inv(s)
    ensures var supply := Subscribed(s.issuer, bond); supply.Some? ==> 0 <= supply.value <= I128_MAX
  {
    hide Retirement.Inv, BondOk, Issuer.Inv;
    SupplyFits(s, bond);
  }

  /** What a settled period has paid, per credit type, and what it recorded. */
  ghost predicate BoundedPeriod(o: Opening, f: map<Address, int>, info: PeriodInfo) {
    var w, supply := TotalsOf(DuesIn(o, f)), o.snapshot.subscribed;
    && Sum(f) == supply
    && info.totalCreditsEarned == w.carbon + w.bio
    && info.undistributed == (o.state.carbonTotal - w.carbon) + (o.state.biodiversityTotal - w.bio)
    && info.reportId == o.state.reportId
    && (supply > 0 ==>
          && Bounded(o.state.carbonTotal, w.carbon, supply, |f|)
          && Bounded(o.state.biodiversityTotal, w.bio, supply, |f|))
  }

  lemma SettledIsBounded(book: Book, period: nat, o: Opening, f: map<Address, int>)
    requires OpenOk(o) && o.snapshot.processed == 0 && o.state.distributedSoFar == 0
    requires o.snapshot.subscribed > 0 ==>
               && CarbonRate(o.creditType, o.state) == FlooredRate(o.state.carbonTotal, o.snapshot.subscribed)
               && BioRate(o.creditType, o.state) == FlooredRate(o.state.biodiversityTotal, o.snapshot.subscribed)
    requires Underway(book, period, o, f) && period in book.periods
    ensures BoundedPeriod(o, f, book.periods[period])
  {
    hide Sum, DuesIn, TotalsOf, Bounded, CarbonRate, BioRate, FlooredRate;
    ProcessedTokens(o, f);
    if o.snapshot.subscribed > 0 {
      DuesBounded(o, f);
    }
  }

  /** From its first accepted batch, whatever calls come between the others: a settled period has paid, per
      credit type, never more than the type's total and short of it by a bounded amount, and it records
      exactly the shortfall. */
  lemma SettledPeriodRounding(self: Address, s: System, calls: seq<Call>, bond: nat, period: nat)
    requires Inv(s) && FreshPeriod(s, bond, period) && forall i :: 0 <= i < |calls| ==> HonestCall(calls[i])
    requires |calls| > 0 && Mine(calls[0], bond, period) && Accepted(s, calls[0])
    requires period in BookIn(Run(self, s, calls), bond).periods
    ensures OpenedBy(s, calls[0]).Ok?
    ensures BoundedPeriod(OpenedBy(s, calls[0]).value, Fresh(Supplied(self, s, calls, bond, period), {}),
                          BookIn(Run(self, s, calls), bond).periods[period])
  {
    hide Inv, Run, Accepted, OpenedBy, Supplied, Fresh, Gained, DueAt, BoundedPeriod, OpenOk, CarbonRate, BioRate, FlooredRate, Honest, Underway;
    PeriodUnderway(self, s, calls, bond, period);
    OpenedFresh(s, calls[0]);
    SettledIsBounded(BookIn(Run(self, s, calls), bond), period, OpenedBy(s, calls[0]).value, Fresh(Supplied(self, s, calls, bond, period), {}));
  }

  /** In every reachable state, for every settled period; and its earned and undistributed credits are together
      what its own report, as the opening batch found it, is worth to a bond of its type. */
  lemma EverySettledPeriodIsBounded(self: Address, issuerAdmin: Address, engineAdmin: Address, calls: seq<Call>, bond: nat, period: nat)
    requires forall i :: 0 <= i < |calls| ==> HonestCall(calls[i])
    requires period in BookIn(Run(self, Deployed(issuerAdmin, engineAdmin), calls), bond).periods
    ensures var d := Deployed(issuerAdmin, engineAdmin);
            exists k :: 0 <= k < |calls| && FirstAt(self, d, calls, k, bond, period)
                     && var s := Run(self, d, calls[..k]);
                     && OpenedBy(s, calls[k]).Ok? && OpenedFor(s, calls[k], OpenedBy(s, calls[k]).value)
                     && SettledWorth(s, calls[k], BookIn(Run(self, d, calls), bond).periods[period])
                     && BoundedPeriod(OpenedBy(s, calls[k]).value, Fresh(Supplied(self, s, calls[k..], bond, period), {}),
                                      BookIn(Run(self, d, calls), bond).periods[period])
  {
    hide Inv, Run, Step, Accepted, OpenedBy, Supplied, Fresh, BoundedPeriod, Underway, DueAt, Gained, OpenedFor, SettledWorth;
    var d := Deployed(issuerAdmin, engineAdmin);
    EveryPeriodIsAccountedFor(self, issuerAdmin, engineAdmin, calls, bond, period);
    var k :| 0 <= k < |calls| && FirstAt(self, d, calls, k, bond, period)
             && var s := Run(self, d, calls[..k]);
             && Inv(s) && OpenedBy(s, calls[k]).Ok? && OpenedFor(s, calls[k], OpenedBy(s, calls[k]).value)
             && Run(self, d, calls) == Run(self, s, calls[k..])
             && Accounted(self, s, calls[k..], bond, period, OpenedBy(s, calls[k]).value);
    assert calls[k..][0] == calls[k];
    SettledPeriodRounding(self, Run(self, d, calls[..k]), calls[k..], bond, period);
    WorthRecorded(Run(self, d, calls[..k]), calls[k], Fresh(Supplied(self, Run(self, d, calls[..k]), calls[k..], bond, period), {}),
                  BookIn(Run(self, d, calls), bond).periods[period]);
  }

  /** What a settled period recorded is what the report it was opened with is worth. */
  ghost predicate SettledWorth(s: System, c: Call, info: PeriodInfo)
    requires c.Distribute?
  {
    && info.reportId == c.reportId && c.reportId in c.oracle && c.bond in s.issuer.bonds
    && info.totalCreditsEarned + info.undistributed
       == CarbonWorth(c.oracle[c.reportId], s.issuer.bonds[c.bond].config.creditType)
          + BiodiversityWorth(c.oracle[c.reportId], s.issuer.bonds[c.bond].config.creditType)
  }

  lemma WorthRecorded(s: System, c: Call, f: map<Address, int>, info: PeriodInfo)
    requires c.Distribute? && OpenedBy(s, c).Ok? && OpenedFor(s, c, OpenedBy(s, c).value)
    requires BoundedPeriod(OpenedBy(s, c).value, f, info)
    ensures SettledWorth(s, c, info)
  {
    hide Sum, TotalsOf, DuesIn, OpenedBy, Bounded, CarbonWorth, BiodiversityWorth;
  }

  /** The final batch records the period, with its report's window, and adds exactly the shortfall of each type
      to its pool. */
  lemma SettlementFillsPools(self: Address, s: System, c: Call)
    requires Inv(s) && Accepted(s, c) && Honest(c.oracle) && c.final
    ensures OpenedBy(s, c).Ok?
    ensures var st := PaidTo(OpenedBy(s, c).value, Fresh(c.holders, PaidIn(BookIn(s, c.bond), c.period))).state;
            var before, after := BookIn(s, c.bond).pools, BookIn(Step(self, s, c), c.bond).pools;
            && after.carbon - before.carbon == st.carbonTotal - st.carbonDistributedSoFar >= 0
            && after.bio - before.bio == st.biodiversityTotal - st.bioDistributedSoFar >= 0
            && after.total - before.total == st.totalCredits - st.distributedSoFar
            && c.reportId in c.oracle && c.period in BookIn(Step(self, s, c), c.bond).periods
            && BookIn(Step(self, s, c), c.bond).periodCount == BookIn(s, c.bond).periodCount + 1
            && BookIn(Step(self, s, c), c.bond).periods[c.period]
               == PeriodInfo(c.period, c.oracle[c.reportId].periodStart, c.oracle[c.reportId].periodEnd, st.distributedSoFar, true, c.reportId,
                             st.totalCredits - st.distributedSoFar)
  {
    hide Inv, OpenOk, Sound, RunBatch, Step, OpenedBy, Affords, Outcome, Honest, Fresh, TotalsOf, DuesIn, After, Credited;
    AcceptedRuns(self, s, c);
    InvOpens(s, c);
    var book, o := BookIn(s, c.bond), OpenedBy(s, c).value;
    var g := Fresh(c.holders, PaidIn(book, c.period));
    RunBatchEffect(book, c.oracle, o, c.bond, c.period, c.holders, c.final);
    DustIsNonNegative(PaidTo(o, g));
    OpenedReport(s, c);
    PaidToReport(o, g);
  }

  lemma OpenedReport(s: System, c: Call)
    requires c.Distribute? && OpenedBy(s, c).Ok?
    ensures OpenedBy(s, c).value.state.reportId == c.reportId
  {
    hide PeriodTotals, RatePerToken;
  }

  lemma PaidToReport(o: Opening, f: map<Address, int>)
    ensures PaidTo(o, f).state.reportId == o.state.reportId
  {
    hide TotalsOf, DuesIn;
  }

  // ----- why reports must not be negative -----

  /** What holders of `f` are paid in all out of one positive total. */
  ghost function Shares(total: int, subscribed: int, f: map<Address, int>): int
    requires subscribed > 0
  {
    Sum(map h | h in f :: Share(FlooredRate(total, subscribed), f[h]))
  }

  lemma SidesAreShares(o: Opening, f: map<Address, int>, supply: int)
    requires supply > 0
    requires CarbonRate(o.creditType, o.state) == FlooredRate(o.state.carbonTotal, supply)
    requires BioRate(o.creditType, o.state) == FlooredRate(o.state.biodiversityTotal, supply)
    ensures var w := TotalsOf(DuesIn(o, f));
            w.carbon == Shares(o.state.carbonTotal, supply, f) && w.bio == Shares(o.state.biodiversityTotal, supply, f)
  {
    hide Sum, Share, CarbonRate, BioRate, FlooredRate;
    var d := DuesIn(o, f);
    assert CarbonDues(d) == map h | h in f :: Share(FlooredRate(o.state.carbonTotal, supply), f[h]);
    assert BioDues(d) == map h | h in f :: Share(FlooredRate(o.state.biodiversityTotal, supply), f[h]);
  }

  /** A total is never overpaid, and one that is not positive is not paid at all. */
  lemma SharesBounded(o: Opening, f: map<Address, int>, supply: int)
    requires supply > 0 && Positive(f) && Sum(f) == supply && NonNegativeRates(o.creditType, o.state)
    requires CarbonRate(o.creditType, o.state) == FlooredRate(o.state.carbonTotal, supply)
    requires BioRate(o.creditType, o.state) == FlooredRate(o.state.biodiversityTotal, supply)
    ensures var w := TotalsOf(DuesIn(o, f));
            && 0 <= w.carbon <= (if o.state.carbonTotal > 0 then o.state.carbonTotal else 0)
            && 0 <= w.bio <= (if o.state.biodiversityTotal > 0 then o.state.biodiversityTotal else 0)
  {
    hide Sum, CarbonRate, BioRate, TotalsOf, DuesIn;
    TotalsAreCovered(o, f);
    var w := TotalsOf(DuesIn(o, f));
    NotOverpaid(o.state.carbonTotal, supply, w.carbon);
    NotOverpaid(o.state.biodiversityTotal, supply, w.bio);
  }

  lemma NotOverpaid(total: int, supply: int, paid: int)
    requires supply > 0 && paid >= 0 && FIXED_POINT * paid <= FlooredRate(total, supply) * supply
    ensures paid <= if total > 0 then total else 0
  {
    if total > 0 {
      DivBounds(total * FIXED_POINT, supply);
    }
  }

  /** For any totals, negative ones included: settling a period keeps the dust pools in step exactly when no
      negative total meets a positive one that rounding leaves partly unpaid. */
  lemma DustAddsUpIff(t: CreditType, reportId: nat, carbon: int, bio: int, supply: int, f: map<Address, int>, pools: Pools)
    requires supply > 0 && Positive(f) && Sum(f) == supply && pools.total == pools.carbon + pools.bio
    requires t == Biodiversity ==> carbon == 0
    requires t == Carbon || t == BlueCarbon ==> bio == 0
    requires OpenWith(t, reportId, carbon, bio, supply).Ok?
    ensures var o := OpenWith(t, reportId, carbon, bio, supply).value;
            var p := AddDust(pools, Dust(PaidTo(o, f).state));
            p.total == p.carbon + p.bio <==>
              !(carbon < 0 && Shares(bio, supply, f) < bio) && !(bio < 0 && Shares(carbon, supply, f) < carbon)
  {
    hide Sum, Shares, TotalsOf, DuesIn, CarbonRate, BioRate, FlooredRate;
    var o := OpenWith(t, reportId, carbon, bio, supply).value;
    OpenedRates(t, reportId, carbon, bio, supply);
    SidesAreShares(o, f, supply);
    RatesNonNegative(o, supply);
    SharesBounded(o, f, supply);
  }

  lemma RatesNonNegative(o: Opening, supply: int)
    requires supply > 0
    requires CarbonRate(o.creditType, o.state) == FlooredRate(o.state.carbonTotal, supply)
    requires BioRate(o.creditType, o.state) == FlooredRate(o.state.biodiversityTotal, supply)
    ensures NonNegativeRates(o.creditType, o.state)
  {
  }

  const NEGATIVE: Report := Report([1], 0, 1, -1_000, Present(0, 0, 1), Verified)
  const BASKET: Book := Book(Some([1]), Some(Basket), map[], 0, Ledgers(map[], map[], map[]), Pools(0, 0, 0), map[], map[], map[])
  const OPENED: Opening := Opening(Basket, BatchState(1, 0, 0, 0, 0, 0, -1, 1, 0, 0, 5_000_000), Snapshot(2, 0))

  lemma NegativeOpening(oracle: Oracle)
    requires oracle == map[1 := NEGATIVE]
    ensures Resume(BASKET, oracle, 0, 1, Some(2)) == Ok(OPENED)
  {
    assert BiodiversityCredits(NEGATIVE.biodiversity) == 1;
    assert PeriodTotals(NEGATIVE, Basket) == Ok((-1, 1));
  }

  /** A holder of one token is due half a credit, rounded down to nothing. */
  lemma NothingDue(paid: set<Address>, processed: int, h: Address)
    requires h !in paid && processed <= 1
    requires Fits(processed + 1)
    ensures PayOne(Basket, OPENED.state, 2, Progress(BASKET.ledgers, Tally(paid, processed, 0, 0, 0, 0)), h, 1)
            == Ok(Progress(BASKET.ledgers, Tally(paid + {h}, processed + 1, 0, 0, 0, 0)))
  {
    assert DueFor(Basket, OPENED.state, 1) == Due(1, 0, 0);
  }

  lemma NegativePayments(a: Address, b: Address)
    requires a != b
    ensures PayAll(Basket, OPENED.state, 2, StartOf(BASKET, 0, OPENED.snapshot), [(a, 1), (b, 1)])
            == Ok(Progress(BASKET.ledgers, Tally({} + {a} + {b}, 2, 0, 0, 0, 0)))
  {
    hide PayOne;
    var h: Holders := [(a, 1), (b, 1)];
    var start := StartOf(BASKET, 0, OPENED.snapshot);
    var half: Progress := Progress(BASKET.ledgers, Tally({} + {a}, 1, 0, 0, 0, 0));
    assert start == Progress(BASKET.ledgers, Tally({}, 0, 0, 0, 0, 0));
    assert h[..1] == [(a, 1)] && h[..1][..0] == [];
    NothingDue({}, 0, a);
    NothingDue({} + {a}, 1, b);
    assert PayAll(Basket, OPENED.state, 2, start, h[..1][..0]) == Ok(start);
    assert PayAll(Basket, OPENED.state, 2, start, h[..1]) == Ok(half);
  }

  lemma OppositeDust(pools: Pools, dust: Pools)
    requires pools.total == pools.carbon == pools.bio == 0 && dust.total == 0 && dust.carbon == -1 && dust.bio == 1
    ensures PoolsFit(dust) && PoolsFit(AddDust(pools, dust))
    ensures AddDust(pools, dust) == Pools(0, 0, 1)
  {
  }

  lemma NegativeFinal(book: Book, oracle: Oracle, st: BatchState, sn: Snapshot)
    requires oracle == map[1 := NEGATIVE] && book.pools == Pools(0, 0, 0) && book.periodCount == 0
    requires st.reportId == 1 && st.totalCredits == st.distributedSoFar
    requires st.carbonTotal - st.carbonDistributedSoFar == -1 && st.biodiversityTotal - st.bioDistributedSoFar == 1
    requires sn.processed == sn.subscribed
    ensures var r := Finalise(book, oracle, 0, st, sn); r.Ok? && r.value.pools == Pools(0, 0, 1)
  {
    hide AddDust, PoolsFit, NEGATIVE;
    assert 1 in oracle;
    OppositeDust(book.pools, Dust(st));
  }

  lemma NegativeClosing(oracle: Oracle, bond: nat, pr: Progress)
    requires oracle == map[1 := NEGATIVE]
    requires pr.ledgers == BASKET.ledgers && pr.tally == Tally(pr.tally.paid, 2, 0, 0, 0, 0)
    ensures var r := CloseBatch(BASKET, oracle, OPENED, bond, 0, pr, true); r.Ok? && r.value.0.pools == Pools(0, 0, 1)
  {
    hide Finalise;
    assert Accumulated(OPENED.state, pr.tally) == OPENED.state;
    NegativeFinal(WithProgress(BASKET, 0, OPENED.state, 2, pr), oracle, OPENED.state, Snapshot(2, 2));
  }

  /** One report with a negative carbon figure on a basket bond, paid to two holders of one token each,
      leaves the pools out of step, and every later sweep is refused. */
  lemma NegativeReportBlocksSweeps(a: Address, b: Address, bond: nat, destination: Address, oracle: Oracle)
    requires a != b && oracle == map[1 := NEGATIVE]
    ensures !Honest(oracle)
    ensures var r := DistributeBatch(BASKET, oracle, Some(2), bond, 0, [(a, 1), (b, 1)], 1, true);
            && r.Ok? && r.value.0.pools == Pools(0, 0, 1)
            && SweepBook(r.value.0, bond, destination) == Err(AccountingMismatch)
  {
    hide PayAll, Resume, CloseBatch;
    assert 1 in oracle && !NonNegativeReport(oracle[1]);
    NegativeOpening(oracle);
    NegativePayments(a, b);
    NegativeClosing(oracle, bond, Progress(BASKET.ledgers, Tally({} + {a} + {b}, 2, 0, 0, 0, 0)));
  }
}
