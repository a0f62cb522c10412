/** The CouponEngine contract object: the holder loop with its running accumulators, and the other
    entry points, each proved against its transition. */
module CouponContract {
  import opened Host
  import opened Shared
  import opened Coupon
  import Issuer

  datatype Side = CarbonSide | BioSide

  /** `accrue_credits`: the per-type entry first, then the combined one. */
  method AccrueCredits(ledgers: Ledgers, holder: Address, side: Side, amount: int) returns (r: Result<Ledgers, Error>)
    requires amount > 0
    ensures var due := if side == CarbonSide then Due(0, amount, 0) else Due(0, 0, amount);
            r == if SidesFit(ledgers, holder, due) then Ok(CreditSides(ledgers, holder, due)) else Err(Overflow)
  {
    var l := ledgers;
    var byType := if side == CarbonSide then Get(l.carbon, holder) else Get(l.bio, holder);
    if !Fits(byType + amount) { return Err(Overflow); }
    if side == CarbonSide {
      l := l.(carbon := l.carbon[holder := byType + amount]);
    } else {
      l := l.(bio := l.bio[holder := byType + amount]);
    }
    var combined := Get(l.accrued, holder);
    if !Fits(combined + amount) { return Err(Overflow); }
    l := l.(accrued := l.accrued[holder := combined + amount]);
    return Ok(l);
  }

  /** Each positive side of a payment accrued in turn. */
  method AccrueSides(ledgers: Ledgers, holder: Address, due: Due) returns (r: Result<Ledgers, Error>)
    ensures r == if SidesFit(ledgers, holder, due) then Ok(CreditSides(ledgers, holder, due)) else Err(Overflow)
  {
    r := Ok(ledgers);
    if due.carbon > 0 {
      r := AccrueCredits(ledgers, holder, CarbonSide, due.carbon);
      if r.Err? { return; }
    }
    if due.bio > 0 {
      r := AccrueCredits(r.value, holder, BioSide, due.bio);
    }
  }

  /** Paying one holder who has not been paid in this period and has a positive balance. */
  method PayHolder(t: CreditType, state: BatchState, subscribed: int, pr: Progress, holder: Address, balance: int)
    returns (r: Result<Progress, Error>)
    requires holder !in pr.tally.paid && balance > 0
    ensures r == PayOne(t, state, subscribed, pr, holder, balance)
  {
    hide CreditSides, SidesFit;
    var tally := pr.tally;
    var processed := tally.processed + balance;
    if !Fits(processed) { return Err(Overflow); }
    if processed > subscribed { return Err(AccountingMismatch); }
    var carbonProduct, bioProduct := 0, 0;
    match t {
      case Carbon => carbonProduct := state.creditsPerToken * balance;
      case BlueCarbon => carbonProduct := state.creditsPerToken * balance;
      case Biodiversity => bioProduct := state.creditsPerToken * balance;
      case Basket =>
        carbonProduct := state.carbonPerToken * balance;
        bioProduct := state.biodiversityPerToken * balance;
    }
    if !Fits(carbonProduct) || !Fits(bioProduct) { return Err(Trap); }
    var carbon := TruncDiv(carbonProduct, FIXED_POINT);
    var bio := TruncDiv(bioProduct, FIXED_POINT);
    assert DueFor(t, state, balance) == Due(balance, carbon, bio);
    if !Fits(carbon + bio) { return Err(Overflow); }
    var ledgers := pr.ledgers;
    if carbon + bio > 0 {
      if !Fits(tally.total + carbon + bio) { return Err(Overflow); }
      tally := tally.(total := tally.total + carbon + bio);
      if carbon > 0 {
        if !Fits(tally.carbonSum + carbon) { return Err(Overflow); }
        tally := tally.(carbonSum := tally.carbonSum + carbon);
      }
      if bio > 0 {
        if !Fits(tally.bioSum + bio) { return Err(Overflow); }
        tally := tally.(bioSum := tally.bioSum + bio);
      }
      var accrued := AccrueSides(ledgers, holder, Due(balance, carbon, bio));
      if accrued.Err? { return Err(Overflow); }
      ledgers := accrued.value;
      tally := tally.(count := tally.count + 1);
    }
    tally := tally.(processed := processed, paid := tally.paid + {holder});
    return Ok(Progress(ledgers, tally));
  }

  /** An error in a prefix of the holders is the error of the whole batch. */
  lemma {:induction false} PrefixErrs(t: CreditType, st: BatchState, subscribed: int, pr: Progress, holders: Holders, n: nat)
    requires n <= |holders| && PayAll(t, st, subscribed, pr, holders[..n]).Err?
    ensures PayAll(t, st, subscribed, pr, holders) == PayAll(t, st, subscribed, pr, holders[..n])
    decreases |holders|
  {
    hide PayOne;
    if n < |holders| {
      var init := holders[..|holders| - 1];
      assert init[..n] == holders[..n];
      PrefixErrs(t, st, subscribed, pr, init, n);
    } else {
      assert holders[..n] == holders;
    }
  }

  lemma PrefixStep(t: CreditType, st: BatchState, subscribed: int, pr: Progress, holders: Holders, n: nat)
    requires n < |holders| && PayAll(t, st, subscribed, pr, holders[..n]).Ok?
    ensures PayAll(t, st, subscribed, pr, holders[..n + 1])
            == PayOne(t, st, subscribed, PayAll(t, st, subscribed, pr, holders[..n]).value, holders[n].0, holders[n].1)
  {
    hide PayOne;
    assert holders[..n + 1][..n] == holders[..n];
  }

  /** The holder loop: skip who was paid already or holds nothing, pay everyone else. */
  method PayHolders(t: CreditType, state: BatchState, subscribed: int, start: Progress, holders: Holders)
    returns (r: Result<Progress, Error>)
    ensures r == PayAll(t, state, subscribed, start, holders)
  {
    hide PayAll;
    var pr := start;
    NobodyPaid(t, state, subscribed, start, holders);
    for i := 0 to |holders|
      invariant PayAll(t, state, subscribed, start, holders[..i]) == Ok(pr)
    {
      var (holder, balance) := holders[i];
      PrefixStep(t, state, subscribed, start, holders, i);
      if holder in pr.tally.paid {
        continue;
      }
      if balance > 0 {
        var paid := PayHolder(t, state, subscribed, pr, holder, balance);
        if paid.Err? {
          PrefixErrs(t, state, subscribed, start, holders, i + 1);
          return Err(paid.error);
        }
        pr := paid.value;
      }
    }
    assert holders[..|holders|] == holders;
    return Ok(pr);
  }

  lemma NobodyPaid(t: CreditType, st: BatchState, subscribed: int, pr: Progress, holders: Holders)
    ensures PayAll(t, st, subscribed, pr, holders[..0]) == Ok(pr)
  {
  }

  /** Closing a period: what was processed is checked, the dust goes to its pools, the entry is written. */
  method FinalisePeriod(book0: Book, oracle: Oracle, period: nat, state: BatchState, sn: Snapshot) returns (r: Result<Book, Error>)
    ensures r == Finalise(book0, oracle, period, state, sn)
  {
    var book := book0;
    if sn.processed != sn.subscribed { return Err(AccountingMismatch); }
    if state.reportId !in oracle { return Err(Trap); }
    var report := oracle[state.reportId];
    var undistributed := state.totalCredits - state.distributedSoFar;
    if !Fits(undistributed) { return Err(AccountingMismatch); }
    var carbonLeft := state.carbonTotal - state.carbonDistributedSoFar;
    if !Fits(carbonLeft) { return Err(AccountingMismatch); }
    var bioLeft := state.biodiversityTotal - state.bioDistributedSoFar;
    if !Fits(bioLeft) { return Err(AccountingMismatch); }
    var info := PeriodInfo(period, report.periodStart, report.periodEnd, state.distributedSoFar, true, state.reportId, undistributed);
    var pools := book.pools;
    if undistributed > 0 { pools := pools.(total := pools.total + undistributed); }
    if carbonLeft > 0 { pools := pools.(carbon := pools.carbon + carbonLeft); }
    if bioLeft > 0 { pools := pools.(bio := pools.bio + bioLeft); }
    if !PoolsFit(pools) { return Err(Overflow); }
    if book.periodCount >= U32_MAX { return Err(Trap); }
    book := book.(periods := book.periods[period := info], pools := pools, periodCount := book.periodCount + 1);
    book := book.(batches := book.batches - {period}, snapshots := book.snapshots - {period});
    return Ok(book);
  }

  /** One batch of a period, opened or resumed: pay the holders, add up, and close if it is the last. */
  method DistributeHolders(book0: Book, oracle: Oracle, subscribed: Option<int>, bond: nat, period: nat,
                           holders: Holders, reportId: nat, final: bool)
    returns (r: Result<(Book, CouponResult), Error>)
    ensures r == DistributeBatch(book0, oracle, subscribed, bond, period, holders, reportId, final)
  {
    hide PayAll, Resume, Finalise, SumsFit;
    var book := book0;
    var batch := Resume(book, oracle, period, reportId, subscribed);
    if batch.Err? { return Err(batch.error); }
    var state, snapshot := batch.value.state, batch.value.snapshot;
    var paid := PayHolders(batch.value.creditType, state, snapshot.subscribed, StartOf(book, period, snapshot), holders);
    if paid.Err? { return Err(paid.error); }
    var tally := paid.value.tally;
    if !SumsFit(state, tally) { return Err(Overflow); }
    if state.holderCountSoFar + tally.count > U32_MAX { return Err(Trap); }
    state := state.(distributedSoFar := state.distributedSoFar + tally.total,
                    carbonDistributedSoFar := state.carbonDistributedSoFar + tally.carbonSum,
                    bioDistributedSoFar := state.bioDistributedSoFar + tally.bioSum,
                    holderCountSoFar := state.holderCountSoFar + tally.count);
    snapshot := Snapshot(snapshot.subscribed, tally.processed);
    book := book.(ledgers := paid.value.ledgers, paid := book.paid[period := tally.paid],
                  batches := book.batches[period := state], snapshots := book.snapshots[period := snapshot]);
    if final {
      var closed := FinalisePeriod(book, oracle, period, state, snapshot);
      if closed.Err? { return Err(closed.error); }
      book := closed.value;
    }
    return Ok((book, CouponResult(bond, period, state.distributedSoFar, state.holderCountSoFar, state.creditsPerToken)));
  }

  class CouponEngine {
    var storage: Storage

    constructor (admin: Address)
      ensures storage == Constructed(admin)
    {
      storage := Storage(admin, map[], None, map[]);
    }

    method DistributeCoupon(issuer: Issuer.Storage, oracle: Oracle, caller: Address, bond: nat, period: nat,
                            holders: Holders, reportId: nat, nonce: nat, final: bool)
      returns (r: Result<CouponResult, Error>)
      modifies this
      ensures Settles(Coupon.DistributeCoupon(old(storage), issuer, oracle, caller, bond, period, holders, reportId, nonce, final),
                      old(storage), storage, r)
    {
      hide DistributeBatch;
      var s := storage;
      if nonce != NonceOf(s.nonces, caller) { return Err(InvalidNonce); }
      if nonce >= U64_MAX { return Err(Trap); }
      s := s.(nonces := s.nonces[caller := nonce + 1]);
      if caller != s.admin { return Err(Unauthorized); }
      var batch := DistributeHolders(BookOf(s, bond), oracle, Subscribed(issuer, bond), bond, period, holders, reportId, final);
      if batch.Err? { return Err(batch.error); }
      s := s.(books := s.books[bond := batch.value.0]);
      storage := s;
      return Ok(batch.value.1);
    }

    method RegisterBond(issuer: Issuer.Storage, status: Option<ProjectStatus>, caller: Address, bond: nat, project: Hash, nonce: nat)
      returns (r: Result<(), Error>)
      modifies this
      ensures Settles(Coupon.RegisterBond(old(storage), issuer, status, caller, bond, project, nonce), old(storage), storage, r)
    {
      var s := storage;
      if nonce != NonceOf(s.nonces, caller) { return Err(InvalidNonce); }
      if nonce >= U64_MAX { return Err(Trap); }
      s := s.(nonces := s.nonces[caller := nonce + 1]);
      if caller != s.admin { return Err(Unauthorized); }
      if bond !in issuer.bonds { return Err(Trap); }
      var config := issuer.bonds[bond].config;
      if config.projectId != project { return Err(BondNotFound); }
      if status.None? { return Err(Trap); }
      if status.value != Approved { return Err(ProjectNotApproved); }
      var book := BookOf(s, bond);
      book := book.(project := Some(project));
      book := book.(creditType := Some(config.creditType));
      s := s.(books := s.books[bond := book]);
      storage := s;
      return Ok(());
    }

    method RegisterDeductCaller(caller: Address, deductCaller: Address, nonce: nat) returns (r: Result<(), Error>)
      modifies this
      ensures Settles(Coupon.RegisterDeductCaller(old(storage), caller, deductCaller, nonce), old(storage), storage, r)
    {
      var s := storage;
      if nonce != NonceOf(s.nonces, caller) { return Err(InvalidNonce); }
      if nonce >= U64_MAX { return Err(Trap); }
      s := s.(nonces := s.nonces[caller := nonce + 1]);
      if caller != s.admin { return Err(Unauthorized); }
      s := s.(deductCaller := Some(deductCaller));
      storage := s;
      return Ok(());
    }

    method ClaimCredits(caller: Address, bond: nat, nonce: nat) returns (r: Result<int, Error>)
      modifies this
      ensures Settles(Coupon.ClaimCredits(old(storage), caller, bond, nonce), old(storage), storage, r)
    {
      var s := storage;
      if nonce != NonceOf(s.nonces, caller) { return Err(InvalidNonce); }
      if nonce >= U64_MAX { return Err(Trap); }
      s := s.(nonces := s.nonces[caller := nonce + 1]);
      var book := BookOf(s, bond);
      var accrued := Get(book.ledgers.accrued, caller);
      if accrued > 0 {
        var checked := Breakdown(book, caller);
        if checked.Err? { return Err(checked.error); }
        var l := book.ledgers;
        l := l.(accrued := l.accrued[caller := 0]);
        if book.creditType.value != Biodiversity { l := l.(carbon := l.carbon[caller := 0]); }
        if book.creditType.value == Biodiversity || book.creditType.value == Basket { l := l.(bio := l.bio[caller := 0]); }
        book := book.(ledgers := l);
      }
      s := s.(books := s.books[bond := book]);
      storage := s;
      return Ok(accrued);
    }

    method SweepUndistributed(caller: Address, bond: nat, destination: Address, nonce: nat) returns (r: Result<SweepReceipt, Error>)
      modifies this
      ensures Settles(Coupon.SweepUndistributed(old(storage), caller, bond, destination, nonce), old(storage), storage, r)
    {
      hide CreditSides, SidesFit;
      var s := storage;
      if nonce != NonceOf(s.nonces, caller) { return Err(InvalidNonce); }
      if nonce >= U64_MAX { return Err(Trap); }
      s := s.(nonces := s.nonces[caller := nonce + 1]);
      if caller != s.admin { return Err(Unauthorized); }
      var book := BookOf(s, bond);
      var combined, carbon, biodiversity := book.pools.total, book.pools.carbon, book.pools.bio;
      if !Fits(carbon + biodiversity) { return Err(Overflow); }
      if carbon + biodiversity != combined { return Err(AccountingMismatch); }
      if combined != 0 {
        book := book.(pools := Pools(0, 0, 0));
        var accrued := AccrueSides(book.ledgers, destination, Due(0, carbon, biodiversity));
        if accrued.Err? { return Err(Overflow); }
        book := book.(ledgers := accrued.value);
      } else {
        carbon, biodiversity := 0, 0;
      }
      s := s.(books := s.books[bond := book]);
      storage := s;
      return Ok(SweepReceipt(bond, destination, combined, carbon, biodiversity));
    }

    method DeductCredits(signer: Address, bond: nat, holder: Address, amount: int, t: CreditType) returns (r: Result<int, Error>)
      modifies this
      ensures Settles(Coupon.DeductCredits(old(storage), signer, bond, holder, amount, t), old(storage), storage, r)
    {
      var s := storage;
      if s.deductCaller != Some(signer) { return Err(Unauthorized); }
      if amount <= 0 { return Err(ZeroAmount); }
      var book := BookOf(s, bond);
      var l := book.ledgers;
      var combined := Get(l.accrued, holder);
      if amount > combined { return Err(Overflow); }
      var byType := AccruedByType(book, holder, t);
      if amount > byType { return Err(Overflow); }
      l := l.(accrued := l.accrued[holder := combined - amount]);
      if t == Biodiversity {
        l := l.(bio := l.bio[holder := byType - amount]);
      } else {
        l := l.(carbon := l.carbon[holder := byType - amount]);
      }
      book := book.(ledgers := l);
      s := s.(books := s.books[bond := book]);
      storage := s;
      return Ok(combined - amount);
    }
  }
}
