/** A coupon period while everything else goes on: batches of one period interleaved with any other
    calls of the three contracts. What the period owes depends only on the batches accepted for it. */
module Interleaving {
  import opened Host
  import opened Shared
  import opened Coupon
  import opened CouponBatches
  import opened CouponPeriods
  import opened Protocol
  import Issuer
  import Retirement
  import CL = CouponLedger

  // ----- the calls of one period -----

  predicate Mine(c: Call, bond: nat, period: nat) {
    c.Distribute? && c.bond == bond && c.period == period
  }

  function Outcome(s: System, c: Call): Result<(Coupon.Storage, CouponResult), Error>
    requires c.Distribute?
  {
    DistributeCoupon(s.engine, s.issuer, c.oracle, c.caller, c.bond, c.period, c.holders, c.reportId, c.nonce, c.final)
  }

  predicate Accepted(s: System, c: Call) {
    c.Distribute? && Outcome(s, c).Ok?
  }

  function BookIn(s: System, bond: nat): Book {
    BookOf(s.engine, bond)
  }

  function AccruedIn(s: System, bond: nat, a: Address): int {
    Get(BookIn(s, bond).ledgers.accrued, a)
  }

  predicate FreshPeriod(s: System, bond: nat, period: nat) {
    period !in BookIn(s, bond).batches && period !in BookIn(s, bond).periods
  }

  /** The holders of the accepted batches of a period, in order. */
  ghost function Supplied(self: Address, s: System, calls: seq<Call>, bond: nat, period: nat): Holders {
    if calls == [] then []
    else
      var n := |calls| - 1;
      var before := Supplied(self, s, calls[..n], bond, period);
      if Mine(calls[n], bond, period) && Accepted(Run(self, s, calls[..n]), calls[n]) then before + calls[n].holders else before
  }

  /** By how much the calls of a period raised an address's accrued balance. */
  ghost function Gained(self: Address, s: System, calls: seq<Call>, bond: nat, period: nat, a: Address): int {
    if calls == [] then 0
    else
      var n := |calls| - 1;
      var t := Run(self, s, calls[..n]);
      Gained(self, s, calls[..n], bond, period, a)
      + if Mine(calls[n], bond, period) then AccruedIn(Step(self, t, calls[n]), bond, a) - AccruedIn(t, bond, a) else 0
  }

  lemma {:induction false} RunSnoc(self: Address, s: System, calls: seq<Call>, n: nat)
    requires n < |calls|
    ensures Run(self, s, calls[..n + 1]) == Step(self, Run(self, s, calls[..n]), calls[n])
    decreases n
  {
    hide Step;
    if n > 0 {
      RunSnoc(self, Step(self, s, calls[0]), calls[1..], n - 1);
      assert calls[..n + 1][1..] == calls[1..][..n] && calls[..n][1..] == calls[1..][..n - 1];
    } else {
      assert calls[..1] == [calls[0]] && calls[..1][1..] == [];
    }
  }

  lemma {:induction false} RunSplit(self: Address, s: System, calls: seq<Call>, k: nat)
    requires k <= |calls|
    ensures Run(self, s, calls) == Run(self, Run(self, s, calls[..k]), calls[k..])
    decreases k
  {
    hide Step;
    if k > 0 {
      RunSplit(self, Step(self, s, calls[0]), calls[1..], k - 1);
      assert calls[..k][1..] == calls[1..][..k - 1] && calls[1..][k - 1..] == calls[k..];
    } else {
      assert calls[k..] == calls;
    }
  }

  // ----- other calls leave the period alone -----

  ghost predicate SamePeriod(a: Book, b: Book, period: nat) {
    && (period in a.batches <==> period in b.batches) && (period in a.batches ==> a.batches[period] == b.batches[period])
    && (period in a.snapshots <==> period in b.snapshots) && (period in a.snapshots ==> a.snapshots[period] == b.snapshots[period])
    && (period in a.periods <==> period in b.periods) && (period in a.periods ==> a.periods[period] == b.periods[period])
    && PaidIn(a, period) == PaidIn(b, period)
    && (a.creditType.Some? ==> b.creditType == a.creditType) && (a.project.Some? ==> b.project.Some?)
  }

  lemma OtherPeriod(book: Book, oracle: Oracle, o: Opening, bond: nat, other: nat, pr: Progress, final: bool, period: nat)
    requires other != period && CloseBatch(book, oracle, o, bond, other, pr, final).Ok?
    ensures SamePeriod(book, CloseBatch(book, oracle, o, bond, other, pr, final).value.0, period)
  {
    hide SumsFit, PoolsFit, Dust, AddDust;
  }

  lemma OtherDistribution(s: System, c: Call, bond: nat, period: nat)
    requires c.Distribute? && !Mine(c, bond, period) && Accepted(s, c)
    ensures SamePeriod(BookIn(s, bond), BookOf(Outcome(s, c).value.0, bond), period)
  {
    hide CloseBatch, PayAll, Resume;
    if c.bond == bond {
      var book := BookIn(s, bond);
      var o := Resume(book, c.oracle, c.period, c.reportId, Subscribed(s.issuer, bond)).value;
      var pr := PayAll(o.creditType, o.state, o.snapshot.subscribed, StartOf(book, c.period, o.snapshot), c.holders).value;
      OtherPeriod(book, c.oracle, o, bond, c.period, pr, c.final, period);
    }
  }

  /** `b` is `a` with other ledgers and pools. */
  ghost predicate LedgersOnly(a: Book, b: Book) {
    b == a.(ledgers := b.ledgers, pools := b.pools)
  }

  lemma LedgersOnlyKeep(a: Book, b: Book, period: nat)
    requires LedgersOnly(a, b)
    ensures SamePeriod(a, b, period)
  {
  }

  lemma MoneyMoves(book: Book, bond: nat, a: Address, amount: int, t: CreditType)
    ensures ClaimBook(book, a).Ok? ==> LedgersOnly(book, ClaimBook(book, a).value.0)
    ensures SweepBook(book, bond, a).Ok? ==> LedgersOnly(book, SweepBook(book, bond, a).value.0)
    ensures DeductBook(book, a, amount, t).Ok? ==> LedgersOnly(book, DeductBook(book, a, amount, t).value.0)
  {
    hide Breakdown, Cleared, CreditSides, SidesFit;
  }

  lemma OtherClaim(self: Address, s: System, c: Call, bond: nat)
    requires c.Claim?
    ensures LedgersOnly(BookIn(s, bond), BookIn(Step(self, s, c), bond))
  {
    hide ClaimBook, CL.Claiming, HistoryOf;
    MoneyMoves(BookIn(s, bond), bond, c.caller, 0, Carbon);
  }

  lemma OtherSweep(self: Address, s: System, c: Call, bond: nat)
    requires c.Sweep?
    ensures LedgersOnly(BookIn(s, bond), BookIn(Step(self, s, c), bond))
  {
    hide SweepBook, CL.Receiving, HistoryOf;
    MoneyMoves(BookIn(s, bond), bond, c.destination, 0, Carbon);
  }

  lemma Deduction(engine: Coupon.Storage, signer: Address, at: nat, holder: Address, amount: int, t: CreditType, bond: nat)
    requires DeductCredits(engine, signer, at, holder, amount, t).Ok?
    ensures LedgersOnly(BookOf(engine, bond), BookOf(DeductCredits(engine, signer, at, holder, amount, t).value.0, bond))
  {
    hide DeductBook;
    MoneyMoves(BookOf(engine, bond), bond, holder, amount, t);
  }

  lemma OtherDeduct(self: Address, s: System, c: Call, bond: nat)
    requires c.Deduct? || c.SetDeductCaller?
    ensures LedgersOnly(BookIn(s, bond), BookIn(Step(self, s, c), bond))
  {
    hide DeductCredits, CL.Deducting, HistoryOf;
    if c.Deduct? && DeductCredits(s.engine, c.signer, c.bond, c.holder, c.amount, c.creditType).Ok? {
      Deduction(s.engine, c.signer, c.bond, c.holder, c.amount, c.creditType, bond);
    }
  }

  lemma OtherRetirement(self: Address, s: System, c: Call, bond: nat)
    requires c.Retire?
    ensures LedgersOnly(BookIn(s, bond), BookIn(Step(self, s, c), bond))
  {
    hide Retirement.Validate, Retirement.Append, Retirement.RecordFor, CL.Deducting, HistoryOf, DeductCredits;
    var q := c.request;
    if DeductCredits(s.engine, self, q.bond, q.holder, q.amount, q.creditType).Ok? {
      Deduction(s.engine, self, q.bond, q.holder, q.amount, q.creditType, bond);
    }
  }

  lemma OtherRegistration(self: Address, s: System, c: Call, bond: nat, period: nat)
    requires c.Register? && BondOk(s, bond)
    ensures SamePeriod(BookIn(s, bond), BookIn(Step(self, s, c), bond), period)
  {
    hide CL.Good, HistoryOf;
    var r := RegisterBond(s.engine, s.issuer, c.status, c.caller, c.bond, c.project, c.nonce);
    assert r.Ok? && c.bond == bond ==>
        BookOf(r.value.0, bond) == BookIn(s, bond).(project := Some(c.project), creditType := Some(s.issuer.bonds[bond].config.creditType));
  }

  /** Every call other than a batch of this period leaves its entries alone. */
  lemma OtherCalls(self: Address, s: System, c: Call, bond: nat, period: nat)
    requires BondOk(s, bond) && !Mine(c, bond, period)
    ensures SamePeriod(BookIn(s, bond), BookIn(Step(self, s, c), bond), period)
  {
    hide SamePeriod, LedgersOnly, BondOk, DistributeCoupon, NewDues, Step;
    match c {
      case Register(_, _, _, _, _) =>
        OtherRegistration(self, s, c, bond, period);
        return;
      case Distribute(_, _, _, _, _, _, _, _) =>
        OtherBatch(self, s, c, bond, period);
        return;
      case OnIssuer(_) => IssuerCall(self, s, c, bond);
      case Retire(_, _) => OtherRetirement(self, s, c, bond);
      case Claim(_, _, _) => OtherClaim(self, s, c, bond);
      case Sweep(_, _, _, _) => OtherSweep(self, s, c, bond);
      case Deduct(_, _, _, _, _) => OtherDeduct(self, s, c, bond);
      case SetDeductCaller(_, _, _) => OtherDeduct(self, s, c, bond);
    }
    LedgersOnlyKeep(BookIn(s, bond), BookIn(Step(self, s, c), bond), period);
  }

  lemma IssuerCall(self: Address, s: System, c: Call, bond: nat)
    requires c.OnIssuer?
    ensures LedgersOnly(BookIn(s, bond), BookIn(Step(self, s, c), bond))
  {
  }

  lemma OtherBatch(self: Address, s: System, c: Call, bond: nat, period: nat)
    requires c.Distribute? && !Mine(c, bond, period)
    ensures SamePeriod(BookIn(s, bond), BookIn(Step(self, s, c), bond), period)
  {
    hide DistributeCoupon, NewDues, CL.Receiving, HistoryOf;
    if Accepted(s, c) {
      OtherDistribution(s, c, bond, period);
    }
  }

  // ----- a period under way -----

  function OpenedBy(s: System, c: Call): Result<Opening, Error>
    requires c.Distribute?
  {
    Resume(BookIn(s, c.bond), c.oracle, c.period, c.reportId, Subscribed(s.issuer, c.bond))
  }

  ghost predicate IsOpen(book: Book, period: nat, now: Opening) {
    && period in book.batches && period in book.snapshots && period !in book.periods
    && book.batches[period] == now.state && book.snapshots[period] == now.snapshot
  }

  ghost predicate IsSettled(book: Book, period: nat, now: Opening) {
    && period !in book.batches && period in book.periods && now.snapshot.processed == now.snapshot.subscribed
    && var info := book.periods[period];
    && info.distributed && info.reportId == now.state.reportId
    && info.totalCreditsEarned == now.state.distributedSoFar
    && info.undistributed == now.state.totalCredits - now.state.distributedSoFar
  }

  /** The opening `o` after the holders of `f` have been paid. */
  ghost function PaidTo(o: Opening, f: map<Address, int>): Opening {
    After(o, TotalsOf(DuesIn(o, f)))
  }

  /** The period was opened as `o` and has paid exactly the holders of `f`, each for its balance there. */
  ghost predicate Underway(book: Book, period: nat, o: Opening, f: map<Address, int>) {
    && Positive(f) && book.creditType == Some(o.creditType) && book.project.Some? && PaidIn(book, period) == f.Keys
    && (IsOpen(book, period, PaidTo(o, f)) || IsSettled(book, period, PaidTo(o, f)))
  }

  /** What paying the holders of `f` is worth to one address. */
  ghost function DueAt(o: Opening, f: map<Address, int>, a: Address): int {
    CarbonDue(DuesIn(o, f), a) + BioDue(DuesIn(o, f), a)
  }

  lemma DueJoins(o: Opening, f: map<Address, int>, g: map<Address, int>, a: Address)
    requires f.Keys !! g.Keys
    ensures DueAt(o, f + g, a) == DueAt(o, f, a) + DueAt(o, g, a)
  {
    DuesUnion(o.creditType, o.state, f, g);
    DuesKeys(o, f);
    DuesKeys(o, g);
  }

  lemma LeavesUnderway(book: Book, oracle: Oracle, o1: Opening, bond: nat, period: nat, g: map<Address, int>, final: bool,
                       after: (Book, CouponResult), o: Opening, f: map<Address, int>)
    requires Affords(book, oracle, o1, g, final) && Leaves(book, oracle, o1, bond, period, g, final, after)
    requires PaidTo(o1, g) == PaidTo(o, f) && PaidIn(book, period) + g.Keys == f.Keys && Positive(f)
    requires period !in book.periods && book.creditType == Some(o.creditType) && book.project.Some?
    ensures Underway(after.0, period, o, f)
    ensures forall a :: Get(after.0.ledgers.accrued, a) == Get(book.ledgers.accrued, a) + DueAt(o1, g, a)
  {
    hide Sum, TotalsOf, DuesIn, Room, AddDust, PoolsFit;
  }

  /** An accepted batch runs on the bond's book from the opening it found. */
  lemma AcceptedRuns(self: Address, s: System, c: Call)
    requires Accepted(s, c)
    ensures OpenedBy(s, c).Ok?
    ensures var r := RunBatch(BookIn(s, c.bond), c.oracle, OpenedBy(s, c).value, c.bond, c.period, c.holders, c.final);
            r.Ok? && BookIn(Step(self, s, c), c.bond) == r.value.0
    ensures BookIn(s, c.bond).project.Some?
  {
    hide RunBatch, NewDues, CL.Receiving, HistoryOf, OpenBatch;
  }

  lemma InvOpens(s: System, c: Call)
    requires Inv(s) && c.Distribute? && Honest(c.oracle) && OpenedBy(s, c).Ok?
    ensures var o := OpenedBy(s, c).value;
            && OpenOk(o) && BookIn(s, c.bond).creditType == Some(o.creditType) && c.period !in BookIn(s, c.bond).periods
            && Sound(BookIn(s, c.bond).ledgers)
  {
    hide Issuer.Inv, Retirement.Inv, OpenOk, Resume, CL.PeriodsOk, CL.OnType, CL.Conserved, CL.Tracked, CL.PoolsAddUp, Sound, Honest;
    assert BondOk(s, c.bond);
    SupplyFits(s, c.bond);
    CL.ResumeIsOk(BookIn(s, c.bond), c.oracle, c.period, c.reportId, Subscribed(s.issuer, c.bond));
  }

  lemma InvUnstarted(s: System, bond: nat, period: nat)
    requires Inv(s) && FreshPeriod(s, bond, period)
    ensures PaidIn(BookIn(s, bond), period) == {}
  {
    hide Issuer.Inv, Retirement.Inv, OpenOk, CL.OnType, CL.Conserved, CL.Tracked, CL.PoolsAddUp, Sound;
    assert BondOk(s, bond);
  }

  lemma FirstBatch(self: Address, s: System, c: Call)
    requires Inv(s) && Accepted(s, c) && Honest(c.oracle) && FreshPeriod(s, c.bond, c.period)
    ensures OpenedBy(s, c).Ok?
    ensures var o, f := OpenedBy(s, c).value, Fresh(c.holders, {});
            && Underway(BookIn(Step(self, s, c), c.bond), c.period, o, f)
            && forall a :: AccruedIn(Step(self, s, c), c.bond, a) == AccruedIn(s, c.bond, a) + DueAt(o, f, a)
  {
    hide Inv, OpenOk, Sound, RunBatch, Underway, DueAt, Step, OpenedBy, PaidTo, Affords, Leaves, Outcome, Honest, Fresh;
    AcceptedRuns(self, s, c);
    InvOpens(s, c);
    InvUnstarted(s, c.bond, c.period);
    var book, o, f := BookIn(s, c.bond), OpenedBy(s, c).value, Fresh(c.holders, {});
    RunBatchEffect(book, c.oracle, o, c.bond, c.period, c.holders, c.final);
    FreshPositive(c.holders, {});
    assert {} + f.Keys == f.Keys;
    var r := RunBatch(book, c.oracle, o, c.bond, c.period, c.holders, c.final);
    LeavesUnderway(book, c.oracle, o, c.bond, c.period, f, c.final, r.value, o, f);
  }

  /** A batch of a period under way finds it where the earlier batches left it. */
  lemma UnderwayOpens(s: System, c: Call, o: Opening, f: map<Address, int>)
    requires c.Distribute? && Underway(BookIn(s, c.bond), c.period, o, f)
    ensures OpenedBy(s, c) == if IsSettled(BookIn(s, c.bond), c.period, PaidTo(o, f)) then Err(PeriodAlreadyDistributed)
                              else if c.reportId != o.state.reportId then Err(InvalidReport)
                              else Ok(PaidTo(o, f))
  {
    hide TotalsOf, DuesIn, OpenBatch;
  }

  lemma NextBatch(self: Address, s: System, c: Call, o: Opening, f: map<Address, int>)
    requires Inv(s) && Accepted(s, c) && Honest(c.oracle) && Underway(BookIn(s, c.bond), c.period, o, f)
    ensures var g := Fresh(c.holders, f.Keys);
            && f.Keys !! g.Keys
            && Underway(BookIn(Step(self, s, c), c.bond), c.period, o, f + g)
            && forall a :: AccruedIn(Step(self, s, c), c.bond, a) == AccruedIn(s, c.bond, a) + DueAt(o, g, a)
  {
    hide Inv, OpenOk, Sound, RunBatch, DueAt, Step, OpenedBy, Affords, Leaves, Outcome, Honest, Fresh, IsOpen, IsSettled, PaidTo;
    AcceptedRuns(self, s, c);
    InvOpens(s, c);
    UnderwayOpens(s, c, o, f);
    var book, o1, g := BookIn(s, c.bond), PaidTo(o, f), Fresh(c.holders, f.Keys);
    RunBatchEffect(book, c.oracle, o1, c.bond, c.period, c.holders, c.final);
    FreshPositive(c.holders, f.Keys);
    JoinedBatches(o, f, g);
    var r := RunBatch(book, c.oracle, o1, c.bond, c.period, c.holders, c.final);
    LeavesUnderway(book, c.oracle, o1, c.bond, c.period, g, c.final, r.value, o, f + g);
    hide Underway;
    forall a
      ensures DueAt(o1, g, a) == DueAt(o, g, a)
    {
      SameDueAt(o, f, g, a);
    }
  }

  lemma JoinedBatches(o: Opening, f: map<Address, int>, g: map<Address, int>)
    requires f.Keys !! g.Keys && Positive(f) && Positive(g)
    ensures PaidTo(PaidTo(o, f), g) == PaidTo(o, f + g) && Positive(f + g) && f.Keys + g.Keys == (f + g).Keys
  {
    hide Sum, TotalsOf, DuesIn, After;
    PaymentsJoin(o, f, g);
  }

  lemma SameDueAt(o: Opening, f: map<Address, int>, g: map<Address, int>, a: Address)
    ensures DueAt(PaidTo(o, f), g, a) == DueAt(o, g, a)
  {
    hide TotalsOf, DuesIn;
    SameDues(o, TotalsOf(DuesIn(o, f)), g);
  }

  lemma SamePeriodUnderway(a: Book, b: Book, period: nat, o: Opening, f: map<Address, int>)
    requires Underway(a, period, o, f) && SamePeriod(a, b, period)
    ensures Underway(b, period, o, f)
  {
    hide PaidTo, Positive;
  }

  // ----- the whole run -----

  lemma NotAccepted(self: Address, s: System, c: Call)
    requires c.Distribute? && !Accepted(s, c)
    ensures Step(self, s, c) == s
  {
    hide DistributeCoupon, NewDues;
  }

  lemma FirstOf(self: Address, s: System, calls: seq<Call>, bond: nat, period: nat, a: Address)
    requires |calls| == 1 && Mine(calls[0], bond, period) && Accepted(s, calls[0])
    ensures Run(self, s, calls) == Step(self, s, calls[0])
    ensures Supplied(self, s, calls, bond, period) == calls[0].holders
    ensures Gained(self, s, calls, bond, period, a) == AccruedIn(Step(self, s, calls[0]), bond, a) - AccruedIn(s, bond, a)
  {
    hide Step, DistributeCoupon;
    assert calls[..0] == [] && calls[1..] == [];
    assert [] + calls[0].holders == calls[0].holders;
  }

  lemma PrefixHonest(self: Address, s: System, calls: seq<Call>, n: nat)
    requires Inv(s) && n <= |calls| && forall i :: 0 <= i < |calls| ==> HonestCall(calls[i])
    ensures Inv(Run(self, s, calls[..n]))
  {
    hide Inv, Run;
    assert forall i :: 0 <= i < n ==> calls[..n][i] == calls[i];
    RunKeepsInv(self, s, calls[..n]);
  }

  /** A period opened as `o` has paid the holders supplied to it along the run, and nobody else. */
  ghost predicate Accounted(self: Address, s: System, calls: seq<Call>, bond: nat, period: nat, o: Opening) {
    var f := Fresh(Supplied(self, s, calls, bond, period), {});
    && Underway(BookIn(Run(self, s, calls), bond), period, o, f)
    && forall a :: Gained(self, s, calls, bond, period, a) == DueAt(o, f, a)
  }

  lemma AcceptedLast(self: Address, s: System, calls: seq<Call>, bond: nat, period: nat, o: Opening)
    requires |calls| > 0 && Mine(calls[|calls| - 1], bond, period)
    requires var t := Run(self, s, calls[..|calls| - 1]); Inv(t) && Accepted(t, calls[|calls| - 1]) && HonestCall(calls[|calls| - 1])
    requires Accounted(self, s, calls[..|calls| - 1], bond, period, o)
    ensures Accounted(self, s, calls, bond, period, o)
  {
    hide Inv, Step, Run, Underway, DueAt, Fresh, Accepted, Honest, AccruedIn;
    var n := |calls| - 1;
    var t, c := Run(self, s, calls[..n]), calls[n];
    var before := Supplied(self, s, calls[..n], bond, period);
    var f := Fresh(before, {});
    RunSnoc(self, s, calls, n);
    assert calls[..n + 1] == calls;
    NextBatch(self, t, c, o, f);
    FreshAppend(before, c.holders, {});
    assert {} + f.Keys == f.Keys;
    forall a
      ensures DueAt(o, f + Fresh(c.holders, f.Keys), a) == DueAt(o, f, a) + DueAt(o, Fresh(c.holders, f.Keys), a)
    {
      DueJoins(o, f, Fresh(c.holders, f.Keys), a);
    }
  }

  lemma QuietLast(self: Address, s: System, calls: seq<Call>, bond: nat, period: nat, o: Opening)
    requires |calls| > 0
    requires var t := Run(self, s, calls[..|calls| - 1]); Inv(t) && !(Mine(calls[|calls| - 1], bond, period) && Accepted(t, calls[|calls| - 1]))
    requires Accounted(self, s, calls[..|calls| - 1], bond, period, o)
    ensures Accounted(self, s, calls, bond, period, o)
  {
    hide Step, Run, Underway, DueAt, Fresh, Accepted, AccruedIn, Issuer.Inv, Retirement.Inv, BondOk, SamePeriod;
    var n := |calls| - 1;
    var t, c := Run(self, s, calls[..n]), calls[n];
    RunSnoc(self, s, calls, n);
    assert calls[..n + 1] == calls;
    if Mine(c, bond, period) {
      NotAccepted(self, t, c);
    } else {
      OtherCalls(self, t, c, bond, period);
      SamePeriodUnderway(BookIn(t, bond), BookIn(Run(self, s, calls), bond), period, o, Fresh(Supplied(self, s, calls[..n], bond, period), {}));
    }
  }

  /** From its first accepted batch on, whatever calls come between, a period has paid exactly the holders
      of its accepted batches, each once, for its first positive balance; its batch state, snapshot,
      flags and record are what those holders determine; and its calls raised each address's accrued
      balance by exactly what is due for that balance. */
  lemma {:induction false} PeriodUnderway(self: Address, s: System, calls: seq<Call>, bond: nat, period: nat)
    requires Inv(s) && FreshPeriod(s, bond, period) && forall i :: 0 <= i < |calls| ==> HonestCall(calls[i])
    requires |calls| > 0 && Mine(calls[0], bond, period) && Accepted(s, calls[0])
    ensures OpenedBy(s, calls[0]).Ok?
    ensures Accounted(self, s, calls, bond, period, OpenedBy(s, calls[0]).value)
    decreases |calls|
  {
    hide Inv, Run, Step, Accounted, OpenedBy, Accepted, Supplied, Gained;
    var n := |calls| - 1;
    FirstBatch(self, s, calls[0]);
    if n == 0 {
      FirstStep(self, s, calls, bond, period);
    } else {
      var init := calls[..n];
      assert init[0] == calls[0] && forall i :: 0 <= i < n ==> init[i] == calls[i];
      PeriodUnderway(self, s, init, bond, period);
      PrefixHonest(self, s, calls, n);
      if Mine(calls[n], bond, period) && Accepted(Run(self, s, init), calls[n]) {
        AcceptedLast(self, s, calls, bond, period, OpenedBy(s, calls[0]).value);
      } else {
        QuietLast(self, s, calls, bond, period, OpenedBy(s, calls[0]).value);
      }
    }
  }

  lemma FirstStep(self: Address, s: System, calls: seq<Call>, bond: nat, period: nat)
    requires |calls| == 1 && Mine(calls[0], bond, period) && Accepted(s, calls[0]) && OpenedBy(s, calls[0]).Ok?
    requires var o, f := OpenedBy(s, calls[0]).value, Fresh(calls[0].holders, {});
             && Underway(BookIn(Step(self, s, calls[0]), bond), period, o, f)
             && forall a :: AccruedIn(Step(self, s, calls[0]), bond, a) == AccruedIn(s, bond, a) + DueAt(o, f, a)
    ensures Accounted(self, s, calls, bond, period, OpenedBy(s, calls[0]).value)
  {
    hide Run, Step, OpenedBy, Accepted, Supplied, Gained, Underway, DueAt, Fresh, AccruedIn;
    forall a
      ensures Run(self, s, calls) == Step(self, s, calls[0])
      ensures Supplied(self, s, calls, bond, period) == calls[0].holders
      ensures Gained(self, s, calls, bond, period, a) == AccruedIn(Step(self, s, calls[0]), bond, a) - AccruedIn(s, bond, a)
    {
      FirstOf(self, s, calls, bond, period, a);
    }
    FirstOf(self, s, calls, bond, period, calls[0].caller);
  }

  /** The batch that opens a period brings a verified report on the bond's own project, and opens it with what
      that report is worth to a bond of its type, against the issuer's subscribed total. */
  ghost predicate OpenedFor(s: System, c: Call, o: Opening)
    requires c.Distribute?
  {
    && c.bond in s.issuer.bonds && c.reportId in c.oracle
    && var bond, report := s.issuer.bonds[c.bond], c.oracle[c.reportId];
    && report.status == Verified && report.projectHash == bond.config.projectId
    && o.creditType == bond.config.creditType && o.snapshot == Snapshot(bond.totalSubscribed, 0)
    && o.state.reportId == c.reportId
    && o.state.carbonTotal == CarbonWorth(report, bond.config.creditType)
    && o.state.biodiversityTotal == BiodiversityWorth(report, bond.config.creditType)
    && o.state.totalCredits == o.state.carbonTotal + o.state.biodiversityTotal
  }

  lemma OpenedWorth(s: System, c: Call)
    requires Inv(s) && c.Distribute? && Honest(c.oracle) && FreshPeriod(s, c.bond, c.period) && OpenedBy(s, c).Ok?
    ensures OpenedFor(s, c, OpenedBy(s, c).value)
  {
    hide Issuer.Inv, Retirement.Inv, CL.Good, OpenBatch, CarbonWorth, BiodiversityWorth, Honest;
    assert BondOk(s, c.bond);
    SupplyFits(s, c.bond);
    var book := BookIn(s, c.bond);
    OpeningRule(c.oracle, book.project.value, book.creditType.value, c.reportId, Subscribed(s.issuer, c.bond));
  }

  /** A period that is no longer fresh had a first accepted batch. */
  lemma {:induction false} OpenedEarlier(self: Address, s: System, calls: seq<Call>, bond: nat, period: nat)
    requires Inv(s) && FreshPeriod(s, bond, period) && forall i :: 0 <= i < |calls| ==> HonestCall(calls[i])
    requires !FreshPeriod(Run(self, s, calls), bond, period)
    ensures exists k :: 0 <= k < |calls| && FirstAt(self, s, calls, k, bond, period)
    decreases |calls|
  {
    hide Inv, Run, Step, Accepted, BondOk, SamePeriod, FirstAt;
    if calls == [] {
      NothingRun(self, s, calls);
    } else {
      var n := |calls| - 1;
      var init, t, c := calls[..n], Run(self, s, calls[..n]), calls[n];
      RunSnoc(self, s, calls, n);
      assert calls[..n + 1] == calls;
      if !FreshPeriod(t, bond, period) {
        assert forall i :: 0 <= i < n ==> init[i] == calls[i];
        OpenedEarlier(self, s, init, bond, period);
        var k :| 0 <= k < n && FirstAt(self, s, init, k, bond, period);
        FirstInPrefix(self, s, calls, n, k, bond, period);
      } else {
        PrefixHonest(self, s, calls, n);
        FreshEnds(self, t, c, bond, period);
        FirstHere(self, s, calls, n, bond, period);
      }
    }
  }

  /** Call `k` is the accepted batch that opened the period. */
  ghost predicate FirstAt(self: Address, s: System, calls: seq<Call>, k: nat, bond: nat, period: nat)
    requires k < |calls|
  {
    var t := Run(self, s, calls[..k]);
    Mine(calls[k], bond, period) && FreshPeriod(t, bond, period) && Accepted(t, calls[k])
  }

  lemma NothingRun(self: Address, s: System, calls: seq<Call>)
    requires calls == []
    ensures Run(self, s, calls) == s
  {
  }

  lemma FirstInPrefix(self: Address, s: System, calls: seq<Call>, n: nat, k: nat, bond: nat, period: nat)
    requires k < n <= |calls| && FirstAt(self, s, calls[..n], k, bond, period)
    ensures FirstAt(self, s, calls, k, bond, period)
  {
    hide Run, Accepted;
    assert calls[..n][..k] == calls[..k];
  }

  lemma FirstHere(self: Address, s: System, calls: seq<Call>, k: nat, bond: nat, period: nat)
    requires k < |calls| && Mine(calls[k], bond, period)
    requires var t := Run(self, s, calls[..k]); FreshPeriod(t, bond, period) && Accepted(t, calls[k])
    ensures FirstAt(self, s, calls, k, bond, period)
  {
  }

  lemma FreshEnds(self: Address, s: System, c: Call, bond: nat, period: nat)
    requires Inv(s) && FreshPeriod(s, bond, period) && !FreshPeriod(Step(self, s, c), bond, period)
    ensures Mine(c, bond, period) && Accepted(s, c)
  {
    hide Issuer.Inv, Retirement.Inv, BondOk, Step, Accepted;
    if !Mine(c, bond, period) {
      OtherCalls(self, s, c, bond, period);
    } else if !Accepted(s, c) {
      NotAccepted(self, s, c);
    }
  }

  /** In every reachable state, every period that is open or settled is accounted for by the batches
      accepted since the one that opened it, whatever came between. */
  lemma EveryPeriodIsAccountedFor(self: Address, issuerAdmin: Address, engineAdmin: Address, calls: seq<Call>, bond: nat, period: nat)
    requires forall i :: 0 <= i < |calls| ==> HonestCall(calls[i])
    requires !FreshPeriod(Run(self, Deployed(issuerAdmin, engineAdmin), calls), bond, period)
    ensures var d := Deployed(issuerAdmin, engineAdmin);
            exists k :: 0 <= k < |calls| && FirstAt(self, d, calls, k, bond, period)
                     && var s := Run(self, d, calls[..k]);
                     && Inv(s) && OpenedBy(s, calls[k]).Ok? && OpenedFor(s, calls[k], OpenedBy(s, calls[k]).value)
                     && Run(self, d, calls) == Run(self, s, calls[k..])
                     && Accounted(self, s, calls[k..], bond, period, OpenedBy(s, calls[k]).value)
  {
    hide Inv, Run, Step, Accepted, OpenedBy, Accounted, OpenedFor, Honest;
    var d := Deployed(issuerAdmin, engineAdmin);
    DeployedInv(issuerAdmin, engineAdmin);
    assert FreshPeriod(d, bond, period);
    OpenedEarlier(self, d, calls, bond, period);
    var k :| 0 <= k < |calls| && FirstAt(self, d, calls, k, bond, period);
    PrefixHonest(self, d, calls, k);
    RunSplit(self, d, calls, k);
    assert calls[k..][0] == calls[k];
    PeriodUnderway(self, Run(self, d, calls[..k]), calls[k..], bond, period);
    OpenedWorth(Run(self, d, calls[..k]), calls[k]);
  }
}
