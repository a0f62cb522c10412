/** What every CouponEngine operation keeps on a bond's book: combined balances equal their per-type
    parts, dust pools add up, open periods are covered, and credits are conserved. */
module CouponLedger {
  import opened Host
  import opened Shared
  import opened Coupon
  import opened CouponBatches
  import opened CouponPeriods

  // ----- the invariant -----

  /** The ledger side a bond's type does not use stays empty. */
  ghost predicate OnType(book: Book) {
    match book.creditType
    case None => (forall a :: Get(book.ledgers.accrued, a) == 0) && book.pools == Pools(0, 0, 0) && book.batches == map[]
    case Some(Carbon) => (forall a :: Get(book.ledgers.bio, a) == 0) && book.pools.bio == 0
    case Some(BlueCarbon) => (forall a :: Get(book.ledgers.bio, a) == 0) && book.pools.bio == 0
    case Some(Biodiversity) => (forall a :: Get(book.ledgers.carbon, a) == 0) && book.pools.carbon == 0
    case Some(Basket) => true
  }

  predicate PoolsAddUp(p: Pools) {
    p.carbon >= 0 && p.bio >= 0 && p.total == p.carbon + p.bio <= I128_MAX
  }

  /** Every open period is in good order and has no settled record; flags exist only for periods
      that are open or settled. */
  ghost predicate PeriodsOk(book: Book) {
    && book.batches.Keys == book.snapshots.Keys
    && book.batches.Keys !! book.periods.Keys
    && (forall p :: p in book.batches ==>
          book.creditType.Some? && OpenOk(Opening(book.creditType.value, book.batches[p], book.snapshots[p])))
    && (forall p :: p in book.periods ==>
          book.periods[p].distributed && book.periods[p].totalCreditsEarned >= 0 && book.periods[p].undistributed >= 0)
    && (forall p :: p in book.paid ==> p in book.batches || p in book.periods)
  }

  ghost predicate BookOk(book: Book) {
    Sound(book.ledgers) && OnType(book) && PoolsAddUp(book.pools) && PeriodsOk(book)
  }

  // ----- conservation -----

  ghost function Settled(periods: map<nat, PeriodInfo>): map<nat, int> {
    map p | p in periods :: periods[p].totalCreditsEarned + periods[p].undistributed
  }

  ghost function InFlight(batches: map<nat, BatchState>): map<nat, int> {
    map p | p in batches :: batches[p].distributedSoFar
  }

  /** All credits the bond's periods ever put into circulation. */
  ghost function Generated(book: Book): int {
    Sum(Settled(book.periods)) + Sum(InFlight(book.batches))
  }

  /** What holders were credited, claimed and had deducted, per holder, since deployment. */
  datatype History = History(received: map<Address, int>, claimed: map<Address, int>, deducted: map<Address, int>)

  const NO_HISTORY: History := History(map[], map[], map[])

  /** Accrued balances, dust, claims and deductions account for every credit generated. */
  ghost predicate Conserved(book: Book, h: History) {
    Sum(book.ledgers.accrued) + book.pools.total + Sum(h.claimed) + Sum(h.deducted) == Generated(book)
  }

  /** The same, holder by holder. */
  ghost predicate Tracked(book: Book, h: History) {
    forall a :: Get(h.received, a) == Get(book.ledgers.accrued, a) + Get(h.claimed, a) + Get(h.deducted, a)
  }

  ghost predicate Good(book: Book, h: History) {
    BookOk(book) && Conserved(book, h) && Tracked(book, h)
  }

  lemma EmptySums()
    ensures Sum<Address>(map[]) == 0 && Sum(Settled(map[])) == 0 && Sum(InFlight(map[])) == 0
  {
    assert Settled(map[]) == map[];
    assert InFlight(map[]) == map[];
  }

  lemma EmptySound()
    ensures Sound(Ledgers(map[], map[], map[]))
  {
  }

  lemma EmptyBookOk()
    ensures BookOk(EMPTY_BOOK)
  {
    hide OpenOk, Sound, Sum;
    EmptySound();
    var e := EMPTY_BOOK;
    assert e.batches == map[] && e.snapshots == map[] && e.periods == map[] && e.paid == map[];
    assert PeriodsOk(e);
    assert OnType(e);
  }

  lemma EmptyIsGood()
    ensures Good(EMPTY_BOOK, NO_HISTORY)
  {
    hide Sum, Settled, InFlight, BookOk;
    EmptyBookOk();
    EmptySums();
  }

  // ----- sums -----

  lemma SettledExtend(periods: map<nat, PeriodInfo>, p: nat, info: PeriodInfo)
    requires p !in periods
    ensures Sum(Settled(periods[p := info])) == Sum(Settled(periods)) + info.totalCreditsEarned + info.undistributed
  {
    assert Settled(periods[p := info]) == Settled(periods)[p := info.totalCreditsEarned + info.undistributed];
    SumUpdate(Settled(periods), p, info.totalCreditsEarned + info.undistributed);
  }

  function InFlightAt(batches: map<nat, BatchState>, p: nat): int {
    if p in batches then batches[p].distributedSoFar else 0
  }

  lemma InFlightUpdate(batches: map<nat, BatchState>, p: nat, st: BatchState)
    ensures Sum(InFlight(batches[p := st])) == Sum(InFlight(batches)) - InFlightAt(batches, p) + st.distributedSoFar
  {
    assert InFlight(batches[p := st]) == InFlight(batches)[p := st.distributedSoFar];
    assert Get(InFlight(batches), p) == InFlightAt(batches, p);
    SumUpdate(InFlight(batches), p, st.distributedSoFar);
  }

  lemma InFlightRemove(batches: map<nat, BatchState>, p: nat)
    ensures Sum(InFlight(batches - {p})) == Sum(InFlight(batches)) - InFlightAt(batches, p)
  {
    assert InFlight(batches - {p}) == InFlight(batches) - {p};
    if p in batches {
      SumRemove(InFlight(batches), p);
    } else {
      assert batches - {p} == batches;
    }
  }

  lemma AddReads(m: map<Address, int>, d: map<Address, int>, a: Address)
    ensures Get(Add(m, d), a) == Get(m, a) + Get(d, a)
  {
  }

  lemma DuesRead(d: Dues, a: Address)
    ensures Get(CarbonDues(d), a) == CarbonDue(d, a) && Get(BioDues(d), a) == BioDue(d, a)
  {
  }

  /** A credited ledger grows by exactly what was due. */
  lemma CreditedSum(l: Ledgers, d: Dues, m: Ledgers)
    requires Credited(l, d, m)
    ensures Sum(m.accrued) == Sum(l.accrued) + Sum(CarbonDues(d)) + Sum(BioDues(d))
  {
    hide Sum;
    var n := Add(Add(l.accrued, CarbonDues(d)), BioDues(d));
    SumAdd(l.accrued, CarbonDues(d));
    SumAdd(Add(l.accrued, CarbonDues(d)), BioDues(d));
    forall a
      ensures Get(m.accrued, a) == Get(n, a)
    {
      hide Add, CarbonDues, BioDues;
      AddReads(l.accrued, CarbonDues(d), a);
      AddReads(Add(l.accrued, CarbonDues(d)), BioDues(d), a);
      DuesRead(d, a);
    }
    SumByReadings(m.accrued, n);
  }

  // ----- distribution -----

  /** The side a bond's type does not use never has anything due. */
  lemma DuesOnType(o: Opening, f: map<Address, int>, a: Address)
    ensures o.creditType == Carbon || o.creditType == BlueCarbon ==> BioDue(DuesIn(o, f), a) == 0
    ensures o.creditType == Biodiversity ==> CarbonDue(DuesIn(o, f), a) == 0
  {
    if a in f {
      assert 0 * f[a] == 0;
    }
  }

  lemma DustOnType(o: Opening)
    requires OpenOk(o)
    ensures o.creditType == Carbon || o.creditType == BlueCarbon ==> Dust(o.state).bio == 0
    ensures o.creditType == Biodiversity ==> Dust(o.state).carbon == 0
  {
    DustIsNonNegative(o);
  }

  lemma ResumeIsOk(book: Book, oracle: Oracle, period: nat, reportId: nat, subscribed: Option<int>)
    requires PeriodsOk(book) && Honest(oracle) && (subscribed.Some? ==> 0 <= subscribed.value <= I128_MAX)
    requires Resume(book, oracle, period, reportId, subscribed).Ok?
    ensures var o := Resume(book, oracle, period, reportId, subscribed).value;
            && OpenOk(o)
            && book.creditType == Some(o.creditType)
            && InFlightAt(book.batches, period) == o.state.distributedSoFar
            && period !in book.periods
  {
    hide OpenOk, OpenBatch;
    if period !in book.batches {
      OpenBatchIsOk(oracle, book.project.value, book.creditType.value, reportId, subscribed);
    }
  }

  /** A batch resumed on a sound book never lacks its balance snapshot. */
  lemma ResumeNoMismatch(book: Book, oracle: Oracle, period: nat, reportId: nat, subscribed: Option<int>)
    requires PeriodsOk(book)
    ensures Resume(book, oracle, period, reportId, subscribed).Err? ==>
              Resume(book, oracle, period, reportId, subscribed).error != AccountingMismatch
  {
    hide OpenOk;
  }

  /** On a sound book no list of holders can trap the holder loop: a trap comes from opening the period
      (an unknown report or bond, or totals too large for the rates), from a full counter, or from a
      report that is gone by the final batch. */
  lemma LoopNeverTraps(book: Book, oracle: Oracle, subscribed: Option<int>, bond: nat, period: nat,
                       holders: Holders, reportId: nat, final: bool)
    requires PeriodsOk(book) && Honest(oracle) && (subscribed.Some? ==> 0 <= subscribed.value <= I128_MAX)
    requires Resume(book, oracle, period, reportId, subscribed).Ok?
    ensures var o := Resume(book, oracle, period, reportId, subscribed).value;
            var paid := PayAll(o.creditType, o.state, o.snapshot.subscribed, StartOf(book, period, o.snapshot), holders);
            && paid != Err(Trap)
            && (DistributeBatch(book, oracle, subscribed, bond, period, holders, reportId, final) == Err(Trap) ==>
                  && paid.Ok?
                  && (|| o.state.holderCountSoFar + paid.value.tally.count > U32_MAX
                      || (final && (o.state.reportId !in oracle || book.periodCount >= U32_MAX))))
  {
    hide PeriodsOk, OpenOk, Resume, PayAll, RatesFit, SumsFit, PoolsFit;
    ResumeIsOk(book, oracle, period, reportId, subscribed);
    var o := Resume(book, oracle, period, reportId, subscribed).value;
    OpenOkGives(o);
    PayAllNeverTraps(o.creditType, o.state, o.snapshot.subscribed, StartOf(book, period, o.snapshot), holders);
  }

  lemma LedgersOnType(book: Book, o: Opening, f: map<Address, int>, m: Ledgers, pools: Pools, after: Book)
    requires book.creditType == Some(o.creditType) == after.creditType && OnType(book)
    requires Credited(book.ledgers, DuesIn(o, f), m) && after.ledgers == m && after.pools == pools
    requires o.creditType == Carbon || o.creditType == BlueCarbon ==> pools.bio == 0
    requires o.creditType == Biodiversity ==> pools.carbon == 0
    ensures OnType(after)
  {
    var d := DuesIn(o, f);
    forall a
      ensures o.creditType == Carbon || o.creditType == BlueCarbon ==> Get(m.bio, a) == 0
      ensures o.creditType == Biodiversity ==> Get(m.carbon, a) == 0
    {
      DuesOnType(o, f, a);
      assert Get(m.bio, a) == Get(book.ledgers.bio, a) + BioDue(d, a);
      assert Get(m.carbon, a) == Get(book.ledgers.carbon, a) + CarbonDue(d, a);
    }
  }

  lemma OpenBookOk(book: Book, period: nat, o: Opening, l: Ledgers, paid: set<Address>)
    requires PeriodsOk(book) && OpenOk(o) && book.creditType == Some(o.creditType) && period !in book.periods
    ensures PeriodsOk(OpenBook(book, period, o, l, paid))
  {
    hide OpenOk;
    var b := OpenBook(book, period, o, l, paid);
    assert Opening(o.creditType, o.state, o.snapshot) == o;
    forall p | p in b.batches
      ensures OpenOk(Opening(o.creditType, b.batches[p], b.snapshots[p]))
    {
      if p != period {
        assert p in book.batches;
      }
    }
  }

  lemma ClosedBookOk(book: Book, report: Report, period: nat, o: Opening, l: Ledgers, paid: set<Address>)
    requires PeriodsOk(book) && OpenOk(o) && period !in book.periods && PoolsAddUp(book.pools)
    requires PoolsFit(AddDust(book.pools, Dust(o.state)))
    ensures PeriodsOk(ClosedBook(book, report, period, o, l, paid))
    ensures PoolsAddUp(AddDust(book.pools, Dust(o.state)))
    ensures AddDust(book.pools, Dust(o.state)).total == book.pools.total + Dust(o.state).total
  {
    DustIsNonNegative(o);
    assert o.state.distributedSoFar >= 0;
    ClosedPeriodsOk(book, report, period, o, l, paid);
  }

  lemma ClosedPeriodsOk(book: Book, report: Report, period: nat, o: Opening, l: Ledgers, paid: set<Address>)
    requires PeriodsOk(book) && o.state.distributedSoFar >= 0 && Dust(o.state).total >= 0
    ensures PeriodsOk(ClosedBook(book, report, period, o, l, paid))
  {
    hide OpenOk;
    var b := ClosedBook(book, report, period, o, l, paid);
    forall p | p in b.batches
      ensures b.creditType.Some? && OpenOk(Opening(b.creditType.value, b.batches[p], b.snapshots[p]))
    {
      assert p in book.batches;
    }
  }

  /** The credits one batch hands to its fresh holders enter the history. */
  ghost function Receiving(h: History, d: Dues): History {
    History(Add(Add(h.received, CarbonDues(d)), BioDues(d)), h.claimed, h.deducted)
  }

  lemma ReceivingTracked(book: Book, h: History, d: Dues, after: Book)
    requires Tracked(book, h) && Credited(book.ledgers, d, after.ledgers)
    ensures Tracked(after, Receiving(h, d))
  {
    var k := Receiving(h, d);
    forall a
      ensures Get(k.received, a) == Get(after.ledgers.accrued, a) + Get(k.claimed, a) + Get(k.deducted, a)
    {
      hide Add, CarbonDues, BioDues;
      AddReads(h.received, CarbonDues(d), a);
      AddReads(Add(h.received, CarbonDues(d)), BioDues(d), a);
      DuesRead(d, a);
      assert Get(after.ledgers.accrued, a) == Get(book.ledgers.accrued, a) + CarbonDue(d, a) + BioDue(d, a);
    }
  }

  lemma OpenConserves(book: Book, h: History, period: nat, o: Opening, d: Dues, l: Ledgers, paid: set<Address>)
    requires Conserved(book, h) && Credited(book.ledgers, d, l) && InFlightAt(book.batches, period) == o.state.distributedSoFar
    ensures Conserved(OpenBook(book, period, After(o, TotalsOf(d)), l, paid), Receiving(h, d))
  {
    hide Sum, Credited, Settled, InFlight, CarbonDues, BioDues, Balances, Winners;
    CreditedSum(book.ledgers, d, l);
    InFlightUpdate(book.batches, period, After(o, TotalsOf(d)).state);
  }

  lemma CloseConserves(book: Book, h: History, report: Report, period: nat, o: Opening, d: Dues, l: Ledgers, paid: set<Address>)
    requires Conserved(book, h) && Credited(book.ledgers, d, l) && InFlightAt(book.batches, period) == o.state.distributedSoFar
    requires period !in book.periods
    requires var o' := After(o, TotalsOf(d)); AddDust(book.pools, Dust(o'.state)).total == book.pools.total + Dust(o'.state).total
    ensures Conserved(ClosedBook(book, report, period, After(o, TotalsOf(d)), l, paid), Receiving(h, d))
  {
    hide Sum, Credited, Settled, InFlight, CarbonDues, BioDues, Balances, Winners, AddDust;
    var o' := After(o, TotalsOf(d));
    CreditedSum(book.ledgers, d, l);
    InFlightRemove(book.batches, period);
    var b := ClosedBook(book, report, period, o', l, paid);
    SettledExtend(book.periods, period, b.periods[period]);
  }

  /** One `distribute_coupon` call on a bond keeps its book in good order and conserves credits. */
  lemma DistributeKeepsGood(book: Book, h: History, oracle: Oracle, subscribed: Option<int>, bond: nat, period: nat,
                            holders: Holders, reportId: nat, final: bool)
    requires Good(book, h) && Honest(oracle) && (subscribed.Some? ==> 0 <= subscribed.value <= I128_MAX)
    requires DistributeBatch(book, oracle, subscribed, bond, period, holders, reportId, final).Ok?
    ensures Resume(book, oracle, period, reportId, subscribed).Ok?
    ensures var o := Resume(book, oracle, period, reportId, subscribed).value;
            var d := DuesIn(o, Fresh(holders, PaidIn(book, period)));
            var after := DistributeBatch(book, oracle, subscribed, bond, period, holders, reportId, final).value.0;
            && Good(after, Receiving(h, d))
            && after.creditType == book.creditType && after.project == book.project
  {
    hide Sum, Resume, RunBatch, OpenOk, Sound, OnType, PeriodsOk, Credited, Room, DuesOf, TotalsOf, After, Conserved, Tracked, Receiving, AddDust;
    var o := Resume(book, oracle, period, reportId, subscribed).value;
    var f := Fresh(holders, PaidIn(book, period));
    var d := DuesIn(o, f);
    var r := DistributeBatch(book, oracle, subscribed, bond, period, holders, reportId, final).value;
    var after := r.0;
    ResumeIsOk(book, oracle, period, reportId, subscribed);
    RunBatchEffect(book, oracle, o, bond, period, holders, final);
    var o' := After(o, TotalsOf(d));
    FreshPositive(holders, PaidIn(book, period));
    OpenOkGives(o);
    DuesAreFloored(o.creditType, o.state, f);
    SoundAfter(book.ledgers, d, after.ledgers);
    ReceivingTracked(book, h, d, after);
    AfterType(o, TotalsOf(d));
    var paid := PaidIn(book, period) + f.Keys;
    if final {
      var report := oracle[o'.state.reportId];
      ClosedBookOk(book, report, period, o', after.ledgers, paid);
      CloseConserves(book, h, report, period, o, d, after.ledgers, paid);
      DustOnType(o');
      PoolsOnType(book, o');
      LedgersOnType(book, o, f, after.ledgers, after.pools, after);
    } else {
      OpenBookOk(book, period, o', after.ledgers, paid);
      OpenConserves(book, h, period, o, d, after.ledgers, paid);
      PoolsKeepType(book);
      LedgersOnType(book, o, f, after.ledgers, after.pools, after);
    }
  }

  lemma AfterType(o: Opening, w: Totals)
    ensures After(o, w).creditType == o.creditType
  {
  }

  lemma PoolsKeepType(book: Book)
    requires OnType(book) && book.creditType.Some?
    ensures book.creditType == Some(Carbon) || book.creditType == Some(BlueCarbon) ==> book.pools.bio == 0
    ensures book.creditType == Some(Biodiversity) ==> book.pools.carbon == 0
  {
  }

  lemma PoolsOnType(book: Book, o: Opening)
    requires OnType(book) && book.creditType == Some(o.creditType)
    requires o.creditType == Carbon || o.creditType == BlueCarbon ==> Dust(o.state).bio == 0
    requires o.creditType == Biodiversity ==> Dust(o.state).carbon == 0
    ensures o.creditType == Carbon || o.creditType == BlueCarbon ==> AddDust(book.pools, Dust(o.state)).bio == 0
    ensures o.creditType == Biodiversity ==> AddDust(book.pools, Dust(o.state)).carbon == 0
  {
  }

  // ----- claims, sweeps, deductions, registration -----

  /** The period side of a book does not depend on its ledgers and pools. */
  lemma PeriodsKept(book: Book, l: Ledgers, pools: Pools)
    requires PeriodsOk(book)
    ensures var after := book.(ledgers := l, pools := pools);
            PeriodsOk(after) && Generated(after) == Generated(book)
  {
    hide OpenOk;
  }

  function Claiming(h: History, a: Address, x: int): History {
    History(h.received, h.claimed[a := Get(h.claimed, a) + x], h.deducted)
  }

  function Deducting(h: History, a: Address, x: int): History {
    History(h.received, h.claimed, h.deducted[a := Get(h.deducted, a) + x])
  }

  /** Taking `x` from one holder's accrued balance, into either outflow, conserves credits. */
  lemma WithdrawConserves(book: Book, h: History, m: Ledgers, a: Address, x: int)
    requires PeriodsOk(book) && Conserved(book, h) && Tracked(book, h)
    requires forall b :: Get(m.accrued, b) == Get(book.ledgers.accrued, b) - (if b == a then x else 0)
    ensures var after := book.(ledgers := m);
            && PeriodsOk(after)
            && Conserved(after, Claiming(h, a, x)) && Tracked(after, Claiming(h, a, x))
            && Conserved(after, Deducting(h, a, x)) && Tracked(after, Deducting(h, a, x))
  {
    hide Sum, PeriodsOk, Generated, Tracked;
    var after := book.(ledgers := m);
    PeriodsKept(book, m, book.pools);
    assert after == book.(ledgers := m, pools := book.pools);
    WithdrawnSum(book.ledgers.accrued, m.accrued, a, x);
    SumUpdate(h.claimed, a, Get(h.claimed, a) + x);
    SumUpdate(h.deducted, a, Get(h.deducted, a) + x);
    WithdrawTracked(book, h, m, a, x);
  }

  lemma WithdrawnSum(m: map<Address, int>, n: map<Address, int>, a: Address, x: int)
    requires forall b :: Get(n, b) == Get(m, b) - (if b == a then x else 0)
    ensures Sum(n) == Sum(m) - x
  {
    hide Sum;
    SumUpdate(m, a, Get(m, a) - x);
    SumByReadings(n, m[a := Get(m, a) - x]);
  }

  lemma WithdrawTracked(book: Book, h: History, m: Ledgers, a: Address, x: int)
    requires Tracked(book, h)
    requires forall b :: Get(m.accrued, b) == Get(book.ledgers.accrued, b) - (if b == a then x else 0)
    ensures Tracked(book.(ledgers := m), Claiming(h, a, x)) && Tracked(book.(ledgers := m), Deducting(h, a, x))
  {
    var c, d := Claiming(h, a, x), Deducting(h, a, x);
    forall b
      ensures Get(c.received, b) == Get(m.accrued, b) + Get(c.claimed, b) + Get(c.deducted, b)
      ensures Get(d.received, b) == Get(m.accrued, b) + Get(d.claimed, b) + Get(d.deducted, b)
    {
      assert Get(h.received, b) == Get(book.ledgers.accrued, b) + Get(h.claimed, b) + Get(h.deducted, b);
    }
  }

  /** A claim takes the whole accrued balance and nothing else, and never finds the books out of step. */
  lemma ClaimKeepsGood(book: Book, h: History, caller: Address)
    requires Good(book, h)
    ensures ClaimBook(book, caller).Ok?
    ensures var (after, amount) := ClaimBook(book, caller).value;
            && amount == Get(book.ledgers.accrued, caller) >= 0
            && Good(after, Claiming(h, caller, amount))
            && after.creditType == book.creditType && after.project == book.project
  {
    hide Sum, PeriodsOk, Generated, Conserved, Tracked, OnType, Sound, PoolsAddUp, ClaimBook, Claiming, Deducting;
    var amount := Get(book.ledgers.accrued, caller);
    SoundHere(book.ledgers, caller);
    ClearedReads(book, caller, amount);
    var after := ClaimBook(book, caller).value.0;
    WithdrawConserves(book, h, after.ledgers, caller, amount);
  }

  lemma SoundHere(l: Ledgers, a: Address)
    requires Sound(l)
    ensures SoundAt(l, a)
  {
  }

  /** On a sound book the per-type entries always back the combined balance. */
  lemma BreakdownHolds(book: Book, caller: Address)
    requires Sound(book.ledgers) && OnType(book)
    ensures Get(book.ledgers.accrued, caller) > 0 ==> Breakdown(book, caller).Ok? && book.creditType.Some?
  {
    assert SoundAt(book.ledgers, caller);
  }

  lemma ClearedReads(book: Book, caller: Address, amount: int)
    requires Sound(book.ledgers) && OnType(book) && amount == Get(book.ledgers.accrued, caller)
    ensures ClaimBook(book, caller).Ok?
    ensures var after := ClaimBook(book, caller).value.0;
            && (forall a :: Get(after.ledgers.accrued, a) == if a == caller then 0 else Get(book.ledgers.accrued, a))
            && (forall a :: Get(after.ledgers.carbon, a) == if a == caller then 0 else Get(book.ledgers.carbon, a))
            && (forall a :: Get(after.ledgers.bio, a) == if a == caller then 0 else Get(book.ledgers.bio, a))
            && after == book.(ledgers := after.ledgers) && ClaimBook(book, caller).value.1 == amount
            && Sound(after.ledgers)
            && OnType(after)
  {
    SoundHere(book.ledgers, caller);
    BreakdownHolds(book, caller);
    hide Breakdown, Sound;
    var after := ClaimBook(book, caller).value.0;
    ZeroedSound(book.ledgers, after.ledgers, caller);
  }

  /** Zeroing one holder's three entries keeps the ledgers sound. */
  lemma ZeroedSound(l: Ledgers, m: Ledgers, caller: Address)
    requires Sound(l)
    requires forall a :: Get(m.accrued, a) == if a == caller then 0 else Get(l.accrued, a)
    requires forall a :: Get(m.carbon, a) == if a == caller then 0 else Get(l.carbon, a)
    requires forall a :: Get(m.bio, a) == if a == caller then 0 else Get(l.bio, a)
    ensures Sound(m)
  {
    forall a
      ensures SoundAt(m, a)
    {
      SoundHere(l, a);
    }
  }

  /** A deduction takes exactly `amount` from the holder's combined and per-type balance. */
  lemma DeductKeepsGood(book: Book, h: History, holder: Address, amount: int, t: CreditType)
    requires Good(book, h) && DeductBook(book, holder, amount, t).Ok?
    ensures var (after, left) := DeductBook(book, holder, amount, t).value;
            && amount > 0
            && left == Get(book.ledgers.accrued, holder) - amount == Get(after.ledgers.accrued, holder) >= 0
            && Good(after, Deducting(h, holder, amount))
            && after.creditType == book.creditType && after.project == book.project
  {
    hide Sum, PeriodsOk, Generated, Conserved, Tracked, OnType, Sound, PoolsAddUp, DeductBook, Claiming, Deducting;
    DeductedReads(book, holder, amount, t);
    var after := DeductBook(book, holder, amount, t).value.0;
    WithdrawConserves(book, h, after.ledgers, holder, amount);
  }

  lemma DeductedReads(book: Book, holder: Address, amount: int, t: CreditType)
    requires Sound(book.ledgers) && OnType(book) && DeductBook(book, holder, amount, t).Ok?
    ensures var after := DeductBook(book, holder, amount, t).value.0;
            && (forall a :: Get(after.ledgers.accrued, a) == Get(book.ledgers.accrued, a) - if a == holder then amount else 0)
            && after == book.(ledgers := after.ledgers)
            && DeductBook(book, holder, amount, t).value.1 == Get(book.ledgers.accrued, holder) - amount >= 0
            && amount > 0
            && Sound(after.ledgers)
            && OnType(after)
  {
    var after := DeductBook(book, holder, amount, t).value.0;
    SoundHere(book.ledgers, holder);
    forall a
      ensures SoundAt(after.ledgers, a)
    {
      SoundHere(book.ledgers, a);
    }
  }

  /** A sweep credits the whole pools to one address; it never finds the pools out of step. */
  lemma SweepKeepsGood(book: Book, h: History, bond: nat, destination: Address)
    requires Good(book, h)
    ensures SweepBook(book, bond, destination).Err? ==> SweepBook(book, bond, destination).error == Overflow
    ensures SweepBook(book, bond, destination).Ok? ==>
              var (after, receipt) := SweepBook(book, bond, destination).value;
              && receipt == SweepReceipt(bond, destination, book.pools.total, book.pools.carbon, book.pools.bio)
              && after.pools == Pools(0, 0, 0)
              && Good(after, Receiving(h, map[destination := Due(0, book.pools.carbon, book.pools.bio)]))
              && after.creditType == book.creditType && after.project == book.project
  {
    hide Sum, PeriodsOk, Generated, Conserved, Tracked, OnType, Sound, Credited, PoolsAddUp, SweepBook, Receiving;
    SweepSplits(book, bond, destination);
    if SweepBook(book, bond, destination).Ok? {
      var due := Due(0, book.pools.carbon, book.pools.bio);
      var d: Dues := map[destination := due];
      var after := SweepBook(book, bond, destination).value.0;
      SweptLedgers(book, destination, due);
      SweptOnType(book, d, after.ledgers);
      PeriodsKept(book, after.ledgers, Pools(0, 0, 0));
      ReceivingTracked(book, h, d, after);
      SweepConserves(book, h, destination, due, after);
      NoPools();
    }
  }

  lemma NoPools()
    ensures PoolsAddUp(Pools(0, 0, 0))
  {
  }

  lemma PositiveCredit(l: Ledgers, h: Address, due: Due)
    requires due.carbon + due.bio > 0
    ensures Credit(l, h, due) == CreditSides(l, h, due) && CreditFits(l, h, due) == SidesFit(l, h, due)
  {
  }

  lemma SweepSplits(book: Book, bond: nat, destination: Address)
    requires PoolsAddUp(book.pools)
    ensures var r := SweepBook(book, bond, destination);
            var due := Due(0, book.pools.carbon, book.pools.bio);
            && due.carbon >= 0 && due.bio >= 0
            && (r.Err? ==> r.error == Overflow)
            && (r.Ok? ==>
                  && (due.carbon + due.bio == 0 || CreditFits(book.ledgers, destination, due))
                  && r.value.0 == book.(ledgers := Credit(book.ledgers, destination, due), pools := Pools(0, 0, 0))
                  && r.value.1 == SweepReceipt(bond, destination, book.pools.total, due.carbon, due.bio))
  {
    hide Credit, CreditFits, SidesFit, CreditSides;
    var due := Due(0, book.pools.carbon, book.pools.bio);
    if due.carbon + due.bio == 0 {
      NoCredit(book.ledgers, destination, due);
      assert book.(ledgers := book.ledgers, pools := Pools(0, 0, 0)) == book;
    } else {
      PositiveCredit(book.ledgers, destination, due);
    }
  }

  lemma NoCredit(l: Ledgers, h: Address, due: Due)
    requires due.carbon + due.bio == 0
    ensures Credit(l, h, due) == l
  {
  }

  lemma SweptLedgers(book: Book, destination: Address, due: Due)
    requires Sound(book.ledgers) && due.carbon >= 0 && due.bio >= 0
    requires due.carbon + due.bio == 0 || CreditFits(book.ledgers, destination, due)
    ensures Credited(book.ledgers, map[destination := due], Credit(book.ledgers, destination, due))
    ensures Sound(Credit(book.ledgers, destination, due))
  {
    hide Credit, CreditFits, Credited, Sound;
    var l := book.ledgers;
    var none: Dues := map[];
    NothingCredited(l);
    CreditExtends(l, none, l, destination, due);
    assert none[destination := due] == map[destination := due];
    SoundHere(l, destination);
    CreditFitsIff(l, destination, due);
    SoundAfter(l, map[destination := due], Credit(l, destination, due));
  }

  lemma NothingCredited(l: Ledgers)
    ensures Credited(l, map[], l)
  {
  }

  lemma SweptOnType(book: Book, d: Dues, l: Ledgers)
    requires OnType(book) && Credited(book.ledgers, d, l)
    requires forall a :: a in d ==> d[a].carbon == book.pools.carbon && d[a].bio == book.pools.bio
    ensures OnType(book.(ledgers := l, pools := Pools(0, 0, 0)))
  {
    forall a
      ensures book.pools.carbon == 0 ==> Get(l.carbon, a) == Get(book.ledgers.carbon, a)
      ensures book.pools.bio == 0 ==> Get(l.bio, a) == Get(book.ledgers.bio, a)
      ensures book.pools.carbon == 0 && book.pools.bio == 0 ==> Get(l.accrued, a) == Get(book.ledgers.accrued, a)
    {
      assert Get(l.carbon, a) == Get(book.ledgers.carbon, a) + CarbonDue(d, a);
      assert Get(l.bio, a) == Get(book.ledgers.bio, a) + BioDue(d, a);
      assert Get(l.accrued, a) == Get(book.ledgers.accrued, a) + CarbonDue(d, a) + BioDue(d, a);
    }
  }

  lemma SweepConserves(book: Book, h: History, destination: Address, due: Due, after: Book)
    requires Conserved(book, h) && PoolsAddUp(book.pools) && due == Due(0, book.pools.carbon, book.pools.bio)
    requires Credited(book.ledgers, map[destination := due], after.ledgers)
    requires after.pools == Pools(0, 0, 0) && Generated(after) == Generated(book)
    ensures Conserved(after, Receiving(h, map[destination := due]))
  {
    hide Sum, Generated, Credited;
    var d: Dues := map[destination := due];
    CreditedSum(book.ledgers, d, after.ledgers);
    SingletonSums(destination, due);
  }

  lemma SingletonSums(a: Address, due: Due)
    ensures Sum(CarbonDues(map[a := due])) == due.carbon && Sum(BioDues(map[a := due])) == due.bio
  {
    var none: Dues := map[];
    assert CarbonDues(none) == map[] && BioDues(none) == map[];
    assert none[a := due] == map[a := due];
    SumsExtend(none, a, due);
  }

  lemma RegisterOnType(book: Book, project: Hash, t: CreditType)
    requires Sound(book.ledgers) && OnType(book) && (book.creditType.Some? ==> book.creditType.value == t)
    ensures OnType(book.(project := Some(project), creditType := Some(t)))
  {
    forall a
      ensures book.creditType.None? ==> Get(book.ledgers.carbon, a) == 0 && Get(book.ledgers.bio, a) == 0
    {
      SoundHere(book.ledgers, a);
    }
  }

  lemma RegisterPeriods(book: Book, project: Hash, t: CreditType)
    requires PeriodsOk(book) && (book.creditType.Some? ==> book.creditType.value == t)
    ensures PeriodsOk(book.(project := Some(project), creditType := Some(t)))
  {
    hide OpenOk;
  }

  /** Registering a bond, or registering it again with the same type, disturbs nothing. */
  lemma RegisterKeepsGood(book: Book, h: History, project: Hash, t: CreditType)
    requires Good(book, h) && (book.creditType.Some? ==> book.creditType.value == t)
    ensures Good(book.(project := Some(project), creditType := Some(t)), h)
  {
    hide Sum, PeriodsOk, OnType, PoolsAddUp, Sound;
    RegisterOnType(book, project, t);
    RegisterPeriods(book, project, t);
  }
}
