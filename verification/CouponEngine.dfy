/** contracts/coupon-engine: pro-rata coupon distribution in resumable batches, claims, sweeps of
    rounding dust and deductions. One transition per entry point. */
module Coupon {
  import opened Host
  import opened Shared
  import Issuer

  const FIXED_POINT: int := 10_000_000
  const CREDIT_DIVISOR: int := 1_000
  const HABITAT_CREDIT_RATE: int := 1_000_000
  const SPECIES_CREDIT_RATE: int := 100_000
  const UNIT_CREDIT_RATE: int := 1_000_000

  datatype Error =
    | Unauthorized | InvalidNonce | BondNotFound | PeriodNotFound | PeriodAlreadyDistributed
    | InvalidReport | ReportNotVerified | Overflow | ZeroAmount | ProjectNotApproved
    | AccountingMismatch | Trap

  datatype PeriodInfo = PeriodInfo(
    periodIndex: nat,
    startTime: nat,
    endTime: nat,
    totalCreditsEarned: int,
    distributed: bool,
    reportId: nat,
    undistributed: int)

  datatype BatchState = BatchState(
    reportId: nat,
    distributedSoFar: int,
    carbonDistributedSoFar: int,
    bioDistributedSoFar: int,
    holderCountSoFar: nat,
    totalCredits: int,
    carbonTotal: int,
    biodiversityTotal: int,
    creditsPerToken: int,
    carbonPerToken: int,
    biodiversityPerToken: int)

  datatype CouponResult = CouponResult(
    bondId: nat,
    periodIndex: nat,
    totalCredits: int,
    holderCount: nat,
    creditsPerToken: int)

  datatype SweepReceipt = SweepReceipt(
    bondId: nat,
    destination: Address,
    amount: int,
    carbonAmount: int,
    biodiversityAmount: int)

  /** The DistributionBalance entry of an open period. */
  datatype Snapshot = Snapshot(subscribed: int, processed: int)

  /** AccruedCredits and the two AccruedCreditsByType entries that are ever written. */
  datatype Ledgers = Ledgers(accrued: map<Address, int>, carbon: map<Address, int>, bio: map<Address, int>)

  /** UndistributedTotal and the two UndistributedByType entries. */
  datatype Pools = Pools(total: int, carbon: int, bio: int)

  /** All storage entries keyed by one bond id; `paid` holds the HolderDistributed flags. */
  datatype Book = Book(
    project: Option<Hash>,
    creditType: Option<CreditType>,
    periods: map<nat, PeriodInfo>,
    periodCount: nat,
    ledgers: Ledgers,
    pools: Pools,
    batches: map<nat, BatchState>,
    snapshots: map<nat, Snapshot>,
    paid: map<nat, set<Address>>)

  datatype Storage = Storage(
    admin: Address,
    books: map<nat, Book>,
    deductCaller: Option<Address>,
    nonces: Nonces)

  const EMPTY_BOOK: Book := Book(None, None, map[], 0, Ledgers(map[], map[], map[]), Pools(0, 0, 0), map[], map[], map[])

  function Constructed(admin: Address): Storage {
    Storage(admin, map[], None, map[])
  }

  function BookOf(s: Storage, bond: nat): Book {
    if bond in s.books then s.books[bond] else EMPTY_BOOK
  }

  function PaidIn(book: Book, period: nat): set<Address> {
    if period in book.paid then book.paid[period] else {}
  }

  /** BlueCarbon shares Carbon storage; Basket never has an entry of its own. */
  function AccruedByType(book: Book, holder: Address, t: CreditType): int {
    match t
    case Carbon => Get(book.ledgers.carbon, holder)
    case BlueCarbon => Get(book.ledgers.carbon, holder)
    case Biodiversity => Get(book.ledgers.bio, holder)
    case Basket => 0
  }

  // ----- opening a period -----

  function BiodiversityCredits(m: BiodiversityMetrics): int {
    match m
    case Absent => 0
    case Present(habitat, species, units) =>
      var scaled := Saturate(Saturate(Saturate(habitat * HABITAT_CREDIT_RATE) + Saturate(species * SPECIES_CREDIT_RATE))
                             + Saturate(units * UNIT_CREDIT_RATE));
      TruncDiv(scaled, HABITAT_CREDIT_RATE)
  }

  function RatePerToken(total: int, subscribed: int): Result<int, Error> {
    if subscribed > 0 && total > 0
    then if Fits(total * FIXED_POINT) then Ok(total * FIXED_POINT / subscribed) else Err(Trap)
    else Ok(0)
  }

  /** The credits a report is worth to a bond of the given type: (carbon, biodiversity). */
  function PeriodTotals(report: Report, t: CreditType): Result<(int, int), Error> {
    var carbon := TruncDiv(report.carbonSequestered, CREDIT_DIVISOR);
    match t
    case Carbon => Ok((carbon, 0))
    case BlueCarbon => Ok((carbon, 0))
    case Biodiversity =>
      if report.biodiversity.Absent? then Err(InvalidReport) else Ok((0, BiodiversityCredits(report.biodiversity)))
    case Basket =>
      if report.biodiversity.Absent? then Err(InvalidReport) else Ok((carbon, BiodiversityCredits(report.biodiversity)))
  }

  /** The first batch of a period fixes the report, the totals and the per-token rates. */
  function OpenBatch(oracle: Oracle, project: Hash, t: CreditType, reportId: nat, subscribed: Option<int>): Result<Opening, Error> {
    if reportId !in oracle then Err(Trap)
    else if oracle[reportId].status != Verified then Err(ReportNotVerified)
    else if oracle[reportId].projectHash != project then Err(BondNotFound)
    else if subscribed.None? then Err(Trap)
    else
      var totals := PeriodTotals(oracle[reportId], t);
      if totals.Err? then Err(totals.error)
      else OpenWith(t, reportId, totals.value.0, totals.value.1, subscribed.value)
  }

  function OpenWith(t: CreditType, reportId: nat, carbon: int, bio: int, subscribed: int): Result<Opening, Error> {
    var rate, carbonRate, bioRate :=
      RatePerToken(carbon + bio, subscribed), RatePerToken(carbon, subscribed), RatePerToken(bio, subscribed);
    if !Fits(carbon + bio) then Err(Overflow)
    else if rate.Err? || carbonRate.Err? || bioRate.Err? then Err(Trap)
    else
      Ok(Opening(t,
                 BatchState(reportId, 0, 0, 0, 0, carbon + bio, carbon, bio, rate.value, carbonRate.value, bioRate.value),
                 Snapshot(subscribed, 0)))
  }

  // ----- paying holders -----

  /** The accumulators of the holder loop, with the paid flags of the period. */
  datatype Tally = Tally(
    paid: set<Address>,
    processed: int,
    total: int,
    carbonSum: int,
    bioSum: int,
    count: nat)

  datatype Progress = Progress(ledgers: Ledgers, tally: Tally)

  /** The rate the carbon side of a holder's share is computed from. */
  function CarbonRate(t: CreditType, st: BatchState): int {
    match t
    case Carbon => st.creditsPerToken
    case BlueCarbon => st.creditsPerToken
    case Biodiversity => 0
    case Basket => st.carbonPerToken
  }

  function BioRate(t: CreditType, st: BatchState): int {
    match t
    case Carbon => 0
    case BlueCarbon => 0
    case Biodiversity => st.creditsPerToken
    case Basket => st.biodiversityPerToken
  }

  function Share(rate: int, balance: int): int {
    TruncDiv(rate * balance, FIXED_POINT)
  }

  /** What one holder is due for a balance. */
  datatype Due = Due(balance: int, carbon: int, bio: int)

  function DueFor(t: CreditType, st: BatchState, balance: int): Due {
    Due(balance, Share(CarbonRate(t, st), balance), Share(BioRate(t, st), balance))
  }

  function Pos(x: int): int {
    if x > 0 then x else 0
  }

  /** `accrue_credits` on one ledger entry; it is only called for a positive amount. */
  function Bump(m: map<Address, int>, a: Address, x: int): map<Address, int> {
    if x > 0 then m[a := Get(m, a) + x] else m
  }

  /** `accrue_credits` for each positive side of a payment. */
  function CreditSides(l: Ledgers, h: Address, due: Due): Ledgers {
    Ledgers(Bump(Bump(l.accrued, h, due.carbon), h, due.bio), Bump(l.carbon, h, due.carbon), Bump(l.bio, h, due.bio))
  }

  /** The checked additions on the ledgers stay within i128. */
  predicate SidesFit(l: Ledgers, h: Address, due: Due) {
    && (due.carbon > 0 ==> Fits(Get(l.carbon, h) + due.carbon) && Fits(Get(l.accrued, h) + due.carbon))
    && (due.bio > 0 ==> Fits(Get(l.bio, h) + due.bio) && Fits(Get(l.accrued, h) + Pos(due.carbon) + due.bio))
  }

  /** A holder is credited when the two sides together are worth something. */
  function Credit(l: Ledgers, h: Address, due: Due): Ledgers {
    if due.carbon + due.bio <= 0 then l else CreditSides(l, h, due)
  }

  predicate CreditFits(l: Ledgers, h: Address, due: Due) {
    due.carbon + due.bio > 0 ==> SidesFit(l, h, due)
  }

  function Count(c: Tally, h: Address, due: Due): Tally {
    if due.carbon + due.bio <= 0
    then Tally(c.paid + {h}, c.processed + due.balance, c.total, c.carbonSum, c.bioSum, c.count)
    else Tally(c.paid + {h}, c.processed + due.balance, c.total + due.carbon + due.bio,
               c.carbonSum + Pos(due.carbon), c.bioSum + Pos(due.bio), c.count + 1)
  }

  predicate CountFits(c: Tally, due: Due) {
    && Fits(due.carbon + due.bio)
    && (due.carbon + due.bio > 0 ==>
          && Fits(c.total + due.carbon + due.bio)
          && (due.carbon > 0 ==> Fits(c.carbonSum + due.carbon))
          && (due.bio > 0 ==> Fits(c.bioSum + due.bio)))
  }

  /** One iteration of the holder loop. */
  function PayOne(t: CreditType, st: BatchState, subscribed: int, pr: Progress, holder: Address, balance: int)
    : Result<Progress, Error>
  {
    if holder in pr.tally.paid || balance <= 0 then Ok(pr)
    else if !Fits(pr.tally.processed + balance) then Err(Overflow)
    else if pr.tally.processed + balance > subscribed then Err(AccountingMismatch)
    else if !Fits(CarbonRate(t, st) * balance) || !Fits(BioRate(t, st) * balance) then Err(Trap)
    else
      var due := DueFor(t, st, balance);
      if !CountFits(pr.tally, due) || !CreditFits(pr.ledgers, holder, due) then Err(Overflow)
      else Ok(Progress(Credit(pr.ledgers, holder, due), Count(pr.tally, holder, due)))
  }

  type Holders = seq<(Address, int)>

  function PayAll(t: CreditType, st: BatchState, subscribed: int, pr: Progress, holders: Holders): Result<Progress, Error>
    decreases |holders|
  {
    if holders == [] then Ok(pr)
    else
      var before := PayAll(t, st, subscribed, pr, holders[..|holders| - 1]);
      var (holder, balance) := holders[|holders| - 1];
      if before.Err? then before else PayOne(t, st, subscribed, before.value, holder, balance)
  }

  // ----- closing a batch -----

  function StartOf(book: Book, period: nat, sn: Snapshot): Progress {
    Progress(book.ledgers, Tally(PaidIn(book, period), sn.processed, 0, 0, 0, 0))
  }

  predicate SumsFit(st: BatchState, c: Tally) {
    && Fits(st.distributedSoFar + c.total)
    && Fits(st.carbonDistributedSoFar + c.carbonSum)
    && Fits(st.bioDistributedSoFar + c.bioSum)
  }

  function Accumulated(st: BatchState, c: Tally): BatchState {
    BatchState(st.reportId,
               st.distributedSoFar + c.total,
               st.carbonDistributedSoFar + c.carbonSum,
               st.bioDistributedSoFar + c.bioSum,
               st.holderCountSoFar + c.count,
               st.totalCredits, st.carbonTotal, st.biodiversityTotal,
               st.creditsPerToken, st.carbonPerToken, st.biodiversityPerToken)
  }

  function WithProgress(book: Book, period: nat, st: BatchState, subscribed: int, pr: Progress): Book {
    Book(book.project, book.creditType, book.periods, book.periodCount, pr.ledgers, book.pools,
         book.batches[period := st],
         book.snapshots[period := Snapshot(subscribed, pr.tally.processed)],
         book.paid[period := pr.tally.paid])
  }

  function Dust(st: BatchState): Pools {
    Pools(st.totalCredits - st.distributedSoFar,
          st.carbonTotal - st.carbonDistributedSoFar,
          st.biodiversityTotal - st.bioDistributedSoFar)
  }

  /** Only a positive remainder is added to its pool. */
  function AddDust(pools: Pools, dust: Pools): Pools {
    Pools(pools.total + Pos(dust.total), pools.carbon + Pos(dust.carbon), pools.bio + Pos(dust.bio))
  }

  predicate PoolsFit(p: Pools) {
    Fits(p.total) && Fits(p.carbon) && Fits(p.bio)
  }

  /** The final batch settles the period: everything subscribed must have been processed, the
      rounding dust goes to the pools and the transient entries are removed. */
  function Finalise(book: Book, oracle: Oracle, period: nat, st: BatchState, sn: Snapshot): Result<Book, Error> {
    if sn.processed != sn.subscribed then Err(AccountingMismatch)
    else if st.reportId !in oracle then Err(Trap)
    else if !PoolsFit(Dust(st)) then Err(AccountingMismatch)
    else if !PoolsFit(AddDust(book.pools, Dust(st))) then Err(Overflow)
    else if book.periodCount >= U32_MAX then Err(Trap)
    else
      var report := oracle[st.reportId];
      var info := PeriodInfo(period, report.periodStart, report.periodEnd, st.distributedSoFar, true, st.reportId, Dust(st).total);
      Ok(Book(book.project, book.creditType, book.periods[period := info], book.periodCount + 1,
              book.ledgers, AddDust(book.pools, Dust(st)),
              book.batches - {period}, book.snapshots - {period}, book.paid))
  }

  /** What a batch works from: the bond's type, the batch state and the supply snapshot. */
  datatype Opening = Opening(creditType: CreditType, state: BatchState, snapshot: Snapshot)

  /** Open or resume the period's batch state. */
  function Resume(book: Book, oracle: Oracle, period: nat, reportId: nat, subscribed: Option<int>): Result<Opening, Error> {
    if period in book.periods && book.periods[period].distributed then Err(PeriodAlreadyDistributed)
    else if book.project.None? || book.creditType.None? then Err(BondNotFound)
    else if period in book.batches then
      if book.batches[period].reportId != reportId then Err(InvalidReport)
      else if period !in book.snapshots then Err(AccountingMismatch)
      else Ok(Opening(book.creditType.value, book.batches[period], book.snapshots[period]))
    else
      OpenBatch(oracle, book.project.value, book.creditType.value, reportId, subscribed)
  }

  /** One `distribute_coupon` call, seen from the bond's book. */
  function DistributeBatch(book: Book, oracle: Oracle, subscribed: Option<int>, bond: nat, period: nat,
                           holders: Holders, reportId: nat, final: bool)
    : Result<(Book, CouponResult), Error>
  {
    var o := Resume(book, oracle, period, reportId, subscribed);
    if o.Err? then Err(o.error)
    else RunBatch(book, oracle, o.value, bond, period, holders, final)
  }

  function RunBatch(book: Book, oracle: Oracle, o: Opening, bond: nat, period: nat, holders: Holders, final: bool)
    : Result<(Book, CouponResult), Error>
  {
    var r := PayAll(o.creditType, o.state, o.snapshot.subscribed, StartOf(book, period, o.snapshot), holders);
    if r.Err? then Err(r.error) else CloseBatch(book, oracle, o, bond, period, r.value, final)
  }

  function CloseBatch(book: Book, oracle: Oracle, o: Opening, bond: nat, period: nat, pr: Progress, final: bool)
    : Result<(Book, CouponResult), Error>
  {
    if !SumsFit(o.state, pr.tally) then Err(Overflow)
    else if o.state.holderCountSoFar + pr.tally.count > U32_MAX then Err(Trap)
    else
      var st := Accumulated(o.state, pr.tally);
      var open := WithProgress(book, period, st, o.snapshot.subscribed, pr);
      var result := CouponResult(bond, period, st.distributedSoFar, st.holderCountSoFar, st.creditsPerToken);
      if !final then Ok((open, result))
      else
        var closed := Finalise(open, oracle, period, st, Snapshot(o.snapshot.subscribed, pr.tally.processed));
        if closed.Err? then Err(closed.error) else Ok((closed.value, result))
  }

  function Subscribed(issuer: Issuer.Storage, bond: nat): Option<int> {
    if bond in issuer.bonds then Some(issuer.bonds[bond].totalSubscribed) else None
  }

  // ----- entry points -----

  function WithBook(s: Storage, bond: nat, book: Book, nonces: Nonces): Storage {
    Storage(s.admin, s.books[bond := book], s.deductCaller, nonces)
  }

  /** `status` is what the project registry answers for the project, if it knows it. */
  function RegisterBond(s: Storage, issuer: Issuer.Storage, status: Option<ProjectStatus>,
                        caller: Address, bond: nat, project: Hash, nonce: nat)
    : Result<(Storage, ()), Error>
  {
    var nonces := UseNonce(s.nonces, caller, nonce, InvalidNonce, Trap);
    if nonces.Err? then Err(nonces.error)
    else if caller != s.admin then Err(Unauthorized)
    else if bond !in issuer.bonds then Err(Trap)
    else
      var config := issuer.bonds[bond].config;
      if config.projectId != project then Err(BondNotFound)
      else if status.None? then Err(Trap)
      else if status.value != Approved then Err(ProjectNotApproved)
      else
        var book := BookOf(s, bond).(project := Some(project), creditType := Some(config.creditType));
        Ok((WithBook(s, bond, book, nonces.value), ()))
  }

  function DistributeCoupon(s: Storage, issuer: Issuer.Storage, oracle: Oracle, caller: Address, bond: nat,
                            period: nat, holders: Holders, reportId: nat, nonce: nat, final: bool)
    : Result<(Storage, CouponResult), Error>
  {
    var nonces := UseNonce(s.nonces, caller, nonce, InvalidNonce, Trap);
    if nonces.Err? then Err(nonces.error)
    else if caller != s.admin then Err(Unauthorized)
    else
      var r := DistributeBatch(BookOf(s, bond), oracle, Subscribed(issuer, bond), bond, period, holders, reportId, final);
      if r.Err? then Err(r.error) else Ok((WithBook(s, bond, r.value.0, nonces.value), r.value.1))
  }

  /** Per-type amounts backing a combined balance, when they agree with it. */
  function Breakdown(book: Book, caller: Address): Result<(int, int), Error> {
    var accrued, carbon, bio := Get(book.ledgers.accrued, caller), Get(book.ledgers.carbon, caller), Get(book.ledgers.bio, caller);
    match book.creditType
    case None => Err(AccountingMismatch)
    case Some(Carbon) => if carbon == accrued then Ok((carbon, 0)) else Err(AccountingMismatch)
    case Some(BlueCarbon) => if carbon == accrued then Ok((carbon, 0)) else Err(AccountingMismatch)
    case Some(Biodiversity) => if bio == accrued then Ok((0, bio)) else Err(AccountingMismatch)
    case Some(Basket) =>
      if !Fits(carbon + bio) then Err(Overflow)
      else if carbon + bio == accrued then Ok((carbon, bio)) else Err(AccountingMismatch)
  }

  /** The ledgers with the caller's balances zeroed; only the entries of the bond's type are touched. */
  function Cleared(book: Book, caller: Address): Ledgers {
    var l := book.ledgers;
    var accrued := l.accrued[caller := 0];
    match book.creditType
    case None => l
    case Some(Carbon) => Ledgers(accrued, l.carbon[caller := 0], l.bio)
    case Some(BlueCarbon) => Ledgers(accrued, l.carbon[caller := 0], l.bio)
    case Some(Biodiversity) => Ledgers(accrued, l.carbon, l.bio[caller := 0])
    case Some(Basket) => Ledgers(accrued, l.carbon[caller := 0], l.bio[caller := 0])
  }

  function ClaimBook(book: Book, caller: Address): Result<(Book, int), Error> {
    var accrued := Get(book.ledgers.accrued, caller);
    if accrued <= 0 then Ok((book, accrued))
    else if Breakdown(book, caller).Err? then Err(Breakdown(book, caller).error)
    else Ok((book.(ledgers := Cleared(book, caller)), accrued))
  }

  function ClaimCredits(s: Storage, caller: Address, bond: nat, nonce: nat): Result<(Storage, int), Error> {
    var nonces := UseNonce(s.nonces, caller, nonce, InvalidNonce, Trap);
    if nonces.Err? then Err(nonces.error)
    else
      var r := ClaimBook(BookOf(s, bond), caller);
      if r.Err? then Err(r.error) else Ok((WithBook(s, bond, r.value.0, nonces.value), r.value.1))
  }

  function SweepBook(book: Book, bond: nat, destination: Address): Result<(Book, SweepReceipt), Error> {
    var due := Due(0, book.pools.carbon, book.pools.bio);
    if !Fits(due.carbon + due.bio) then Err(Overflow)
    else if due.carbon + due.bio != book.pools.total then Err(AccountingMismatch)
    else if book.pools.total == 0 then Ok((book, SweepReceipt(bond, destination, 0, 0, 0)))
    else if !SidesFit(book.ledgers, destination, due) then Err(Overflow)
    else Ok((book.(ledgers := CreditSides(book.ledgers, destination, due), pools := Pools(0, 0, 0)),
             SweepReceipt(bond, destination, book.pools.total, due.carbon, due.bio)))
  }

  function SweepUndistributed(s: Storage, caller: Address, bond: nat, destination: Address, nonce: nat)
    : Result<(Storage, SweepReceipt), Error>
  {
    var nonces := UseNonce(s.nonces, caller, nonce, InvalidNonce, Trap);
    if nonces.Err? then Err(nonces.error)
    else if caller != s.admin then Err(Unauthorized)
    else
      var r := SweepBook(BookOf(s, bond), bond, destination);
      if r.Err? then Err(r.error) else Ok((WithBook(s, bond, r.value.0, nonces.value), r.value.1))
  }

  function RegisterDeductCaller(s: Storage, caller: Address, deductCaller: Address, nonce: nat): Result<(Storage, ()), Error> {
    var nonces := UseNonce(s.nonces, caller, nonce, InvalidNonce, Trap);
    if nonces.Err? then Err(nonces.error)
    else if caller != s.admin then Err(Unauthorized)
    else Ok((Storage(s.admin, s.books, Some(deductCaller), nonces.value), ()))
  }

  function DeductBook(book: Book, holder: Address, amount: int, t: CreditType): Result<(Book, int), Error> {
    var l := book.ledgers;
    var left := Get(l.accrued, holder) - amount;
    if amount <= 0 then Err(ZeroAmount)
    else if left < 0 then Err(Overflow)
    else if amount > AccruedByType(book, holder, t) then Err(Overflow)
    else
      var accrued := l.accrued[holder := left];
      var l' := if t == Biodiversity then Ledgers(accrued, l.carbon, l.bio[holder := Get(l.bio, holder) - amount])
                else Ledgers(accrued, l.carbon[holder := Get(l.carbon, holder) - amount], l.bio);
      Ok((book.(ledgers := l'), left))
  }

  /** `signer` is the address whose authorization the call carries. */
  function DeductCredits(s: Storage, signer: Address, bond: nat, holder: Address, amount: int, t: CreditType)
    : Result<(Storage, int), Error>
  {
    if s.deductCaller != Some(signer) then Err(Unauthorized)
    else
      var r := DeductBook(BookOf(s, bond), holder, amount, t);
      if r.Err? then Err(r.error) else Ok((WithBook(s, bond, r.value.0, s.nonces), r.value.1))
  }
}
