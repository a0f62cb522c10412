/** Retirement certificates across the three contracts: exactly when a retirement is accepted, and that every
    certificate ever issued says what was asked for and agrees, for good, with the engine's settled period and
    the issuer's bond. */
module Certificates {
  import opened Host
  import opened Shared
  import opened Protocol
  import opened Interleaving
  import opened Retirement
  import Coupon
  import Issuer
  import CB = CouponBatches
  import CR = CouponRules
  import CL = CouponLedger

  // ----- when a retirement is accepted -----

  /** Carbon and BlueCarbon are one kind of credit; a Basket pays out both kinds and is neither. */
  predicate RetiresOn(bondType: CreditType, t: CreditType) {
    match t
    case Carbon => bondType != Biodiversity
    case BlueCarbon => bondType != Biodiversity
    case Biodiversity => bondType == Biodiversity || bondType == Basket
    case Basket => false
  }

  /** The side of the accrued balance a credit type is kept on. */
  function SideBalance(book: Coupon.Book, t: CreditType, a: Address): int {
    if t == Biodiversity then Get(book.ledgers.bio, a) else Get(book.ledgers.carbon, a)
  }

  /** What a retirement needs: a holder of the bond, the bond's own project, a type the bond pays, a settled
      period, enough credits of that type, and the right to deduct them. */
  ghost predicate MayRetire(s: System, self: Address, q: Request) {
    && GoodNonce(s.retirement.nonces, q.holder, q.nonce) && q.amount > 0 && (exists i :: 0 <= i < |q.certificateHash| && q.certificateHash[i] != 0)
    && q.bond in s.issuer.bonds && Get(s.issuer.bonds[q.bond].balances, q.holder) > 0
    && s.issuer.bonds[q.bond].config.projectId == q.project && RetiresOn(s.issuer.bonds[q.bond].config.creditType, q.creditType)
    && q.period in BookIn(s, q.bond).periods && s.engine.deductCaller == Some(self)
    && q.amount <= SideBalance(BookIn(s, q.bond), q.creditType, q.holder)
  }

  /** The contract's own totals and counter have room. */
  ghost predicate RetireFits(s: System, q: Request) {
    && Get(s.retirement.retiredPerBond, (q.bond, q.holder)) + q.amount <= I128_MAX
    && Get(s.retirement.retiredCredits, q.holder) + q.amount <= I128_MAX
    && s.retirement.count < 0xFFFF_FFFF_FFFF_FFFF
  }

  lemma ValidateRule(s: System, self: Address, q: Request)
    requires CB.Sound(BookIn(s, q.bond).ledgers) && CL.PeriodsOk(BookIn(s, q.bond))
    ensures MayRetire(s, self, q) <==>
              && GoodNonce(s.retirement.nonces, q.holder, q.nonce) && Validate(s.issuer, s.engine, q).Ok?
              && Coupon.DeductCredits(s.engine, self, q.bond, q.holder, q.amount, q.creditType).Ok?
  {
    CR.DeductRule(s.engine, self, q.bond, q.holder, q.amount, q.creditType);
    assert CB.SoundAt(BookIn(s, q.bond).ledgers, q.holder);
    CompatibleIs(q);
    hide Coupon.DeductCredits, CB.Sound, GoodNonce, Compatible;
    NonZeroHash(q.certificateHash);
    SettledMeansDistributed(BookIn(s, q.bond), q.period);
    hide CL.PeriodsOk;
  }

  lemma CompatibleIs(q: Request)
    ensures forall b :: Compatible(b, q.creditType) <==> RetiresOn(b, q.creditType)
  {
  }

  lemma NonZeroHash(h: Hash)
    ensures AllZero(h) <==> !exists i :: 0 <= i < |h| && h[i] != 0
  {
  }

  lemma SettledMeansDistributed(book: Coupon.Book, period: nat)
    requires CL.PeriodsOk(book)
    ensures period in book.periods ==> book.periods[period].distributed
  {
  }

  /** Retired totals are never negative. */
  lemma {:induction false} AmountsNonNegative(records: map<nat, Record>, n: nat, b: nat, h: Address)
    requires forall id :: id in records ==> records[id].amount > 0
    ensures AmountOf(records, n, h) >= 0 && AmountOn(records, n, b, h) >= 0
  {
    if n > 0 {
      AmountsNonNegative(records, n - 1, b, h);
    }
  }

  lemma TotalsNonNegative(s: Retirement.Storage, b: nat, h: Address)
    requires Retirement.Inv(s)
    ensures Get(s.retiredCredits, h) >= 0 && Get(s.retiredPerBond, (b, h)) >= 0
  {
    hide AmountOf, AmountOn;
    AmountsNonNegative(s.records, s.count, b, h);
  }

  /** In every state meeting the invariant a retirement is accepted exactly when the holder may retire and the
      totals have room. */
  lemma RetireRule(s: System, self: Address, now: nat, q: Request)
    requires Protocol.Inv(s)
    ensures RetireCredits(s.retirement, self, s.issuer, s.engine, now, q).Ok? <==> MayRetire(s, self, q) && RetireFits(s, q)
  {
    hide Issuer.Inv, Retirement.Inv, CL.Conserved, CL.Tracked, CL.OnType, CL.PoolsAddUp, CL.PeriodsOk, CB.Sound;
    assert BondOk(s, q.bond);
    ValidateRule(s, self, q);
    NonceRule(s.retirement.nonces, q.holder, q.nonce, InvalidNonce, Trap);
    TotalsNonNegative(s.retirement, q.bond, q.holder);
    hide MayRetire, Validate, Coupon.DeductCredits, UseNonce, GoodNonce, Append, RecordFor, CL.Good, BondOk;
  }

  // ----- certificates agree with the other contracts for good -----

  lemma SettledStays(self: Address, s: System, c: Call, bond: nat, period: nat)
    requires Protocol.Inv(s) && period in BookIn(s, bond).periods
    ensures period in BookIn(Step(self, s, c), bond).periods
    ensures BookIn(Step(self, s, c), bond).periods[period] == BookIn(s, bond).periods[period]
  {
    hide Issuer.Inv, Retirement.Inv, Step, CL.Conserved, CL.Tracked, CL.OnType, CL.PoolsAddUp, CB.Sound;
    assert BondOk(s, bond);
    SettledMeansDistributed(BookIn(s, bond), period);
    hide CL.PeriodsOk;
    if Mine(c, bond, period) {
      SettledRefuses(s, c);
      NotAccepted(self, s, c);
    } else {
      OtherCalls(self, s, c, bond, period);
    }
  }

  lemma SettledRefuses(s: System, c: Call)
    requires c.Distribute? && c.period in BookIn(s, c.bond).periods && BookIn(s, c.bond).periods[c.period].distributed
    ensures !Accepted(s, c)
  {
    hide Coupon.RunBatch, Coupon.OpenBatch;
  }

  /** A record agrees with the issuer's bond and with the engine's settled period it names. */
  ghost predicate TrueTo(s: System, r: Record) {
    && r.bondId in s.issuer.bonds && r.projectId == s.issuer.bonds[r.bondId].config.projectId
    && RetiresOn(s.issuer.bonds[r.bondId].config.creditType, r.creditType)
    && r.periodIndex in BookIn(s, r.bondId).periods
    && var info := BookIn(s, r.bondId).periods[r.periodIndex];
    && r.reportId == info.reportId && r.vintagePeriodStart == info.startTime && r.vintagePeriodEnd == info.endTime
    && Vintage(r.vintageYear, info.endTime)
  }

  lemma ConfigStays(self: Address, s: System, c: Call, bond: nat)
    requires Protocol.Inv(s) && bond in s.issuer.bonds
    ensures bond in Step(self, s, c).issuer.bonds && Step(self, s, c).issuer.bonds[bond].config == s.issuer.bonds[bond].config
  {
    hide Issuer.Inv, Retirement.Inv, BondOk, Coupon.DistributeCoupon, Coupon.RegisterBond, Coupon.ClaimCredits, Coupon.SweepUndistributed,
      Coupon.DeductCredits, Coupon.RegisterDeductCaller, RetireCredits, NewDues, Issuer.Step;
    if c.OnIssuer? {
      Issuer.StepIsSafe(s.issuer, c.call);
    }
  }

  lemma AgreementStays(self: Address, s: System, c: Call, r: Record)
    requires Protocol.Inv(s) && TrueTo(s, r)
    ensures TrueTo(Step(self, s, c), r)
  {
    hide Protocol.Inv, Step, Vintage;
    ConfigStays(self, s, c, r.bondId);
    SettledStays(self, s, c, r.bondId, r.periodIndex);
  }

  /** Call `k` is the accepted retirement that issued certificate `id`. */
  ghost predicate IssuedBy(self: Address, s: System, calls: seq<Call>, k: nat, id: nat, r: Record)
    requires k < |calls|
  {
    var t := Run(self, s, calls[..k]);
    && calls[k].Retire? && var q := calls[k].request;
    && MayRetire(t, self, q) && RetireFits(t, q) && id == t.retirement.count + 1
    && q.period in BookIn(t, q.bond).periods
    && Certifies(r, id, q, calls[k].now, BookIn(t, q.bond).periods[q.period])
  }

  lemma OtherRecords(self: Address, s: System, c: Call)
    requires !c.Retire?
    ensures Step(self, s, c).retirement == s.retirement
  {
    hide Coupon.DistributeCoupon, Coupon.RegisterBond, Coupon.ClaimCredits, Coupon.SweepUndistributed, Coupon.DeductCredits,
      Coupon.RegisterDeductCaller, NewDues, Issuer.Step, HistoryOf;
  }

  /** One call issues at most one certificate, the next one, and changes none. */
  lemma RecordStep(self: Address, s: System, c: Call, id: nat)
    requires Protocol.Inv(s) && id in Step(self, s, c).retirement.records
    ensures if id in s.retirement.records then Step(self, s, c).retirement.records[id] == s.retirement.records[id]
            else
              && c.Retire? && MayRetire(s, self, c.request) && RetireFits(s, c.request) && id == s.retirement.count + 1
              && c.request.period in BookIn(s, c.request.bond).periods
              && Certifies(Step(self, s, c).retirement.records[id], id, c.request, c.now, BookIn(s, c.request.bond).periods[c.request.period])
  {
    hide Protocol.Inv, RetireCredits, Retirement.Inv, Certifies, MayRetire, RetireFits, Coupon.DeductCredits;
    if !c.Retire? {
      OtherRecords(self, s, c);
    } else {
      RetireRule(s, self, c.now, c.request);
      InvGivesRetirement(s);
      if RetireCredits(s.retirement, self, s.issuer, s.engine, c.now, c.request).Ok? {
        RetireEffect(s.retirement, self, s.issuer, s.engine, c.now, c.request);
      }
    }
  }

  lemma NewRecordAgrees(self: Address, s: System, c: Call, id: nat, r: Record)
    requires Protocol.Inv(s) && c.Retire? && MayRetire(s, self, c.request) && c.request.period in BookIn(s, c.request.bond).periods
    requires Certifies(r, id, c.request, c.now, BookIn(s, c.request.bond).periods[c.request.period])
    ensures TrueTo(Step(self, s, c), r)
  {
    assert TrueTo(s, r);
    hide TrueTo;
    AgreementStays(self, s, c, r);
  }

  /** Along every run from deployment, every certificate was issued by an accepted retirement call, says what the
      call asked for and when, and agrees with the issuer's bond and the engine's settled period as they now
      stand: same project, a type the bond pays, the period's own report and window, and the Gregorian year of
      the day that window ends. */
  lemma {:induction false} EveryCertificateIsTrue(self: Address, issuerAdmin: Address, engineAdmin: Address, calls: seq<Call>, n: nat, id: nat)
    requires n <= |calls| && forall i :: 0 <= i < |calls| ==> HonestCall(calls[i])
    requires id in Run(self, Deployed(issuerAdmin, engineAdmin), calls[..n]).retirement.records
    ensures var d := Deployed(issuerAdmin, engineAdmin);
            var s := Run(self, d, calls[..n]);
            && TrueTo(s, s.retirement.records[id])
            && exists k :: 0 <= k < n && IssuedBy(self, d, calls, k, id, s.retirement.records[id])
    decreases n
  {
    hide Protocol.Inv, Run, Step, TrueTo, MayRetire, RetireFits, Certifies;
    var d := Deployed(issuerAdmin, engineAdmin);
    DeployedInv(issuerAdmin, engineAdmin);
    if n == 0 {
      NothingRun(self, d, calls[..0]);
    } else {
      PrefixHonest(self, d, calls, n - 1);
      RunSnoc(self, d, calls, n - 1);
      var t, c := Run(self, d, calls[..n - 1]), calls[n - 1];
      RecordStep(self, t, c, id);
      if id in t.retirement.records {
        EveryCertificateIsTrue(self, issuerAdmin, engineAdmin, calls, n - 1, id);
        AgreementStays(self, t, c, t.retirement.records[id]);
      } else {
        NewRecordAgrees(self, t, c, id, Run(self, d, calls[..n]).retirement.records[id]);
        assert IssuedBy(self, d, calls, n - 1, id, Run(self, d, calls[..n]).retirement.records[id]);
      }
    }
  }

  /** Why a retirement is refused, in the order it is checked. */
  lemma RetireRefusals(s: System, self: Address, now: nat, q: Request)
    requires GoodNonce(s.retirement.nonces, q.holder, q.nonce)
    ensures var r := RetireCredits(s.retirement, self, s.issuer, s.engine, now, q);
            if q.amount <= 0 then r == Err(InsufficientCredits)
            else if AllZero(q.certificateHash) then r == Err(InvalidCertificate)
            else if q.bond !in s.issuer.bonds || Get(s.issuer.bonds[q.bond].balances, q.holder) <= 0 then r == Err(NotAHolder)
            else if s.issuer.bonds[q.bond].config.projectId != q.project then r == Err(ProjectMismatch)
            else if !RetiresOn(s.issuer.bonds[q.bond].config.creditType, q.creditType) then r == Err(InvalidCreditType)
            else if q.period !in BookIn(s, q.bond).periods then r == Err(PeriodNotFound)
            else if !BookIn(s, q.bond).periods[q.period].distributed then r == Err(PeriodNotDistributed)
            else if Get(BookIn(s, q.bond).ledgers.accrued, q.holder) < q.amount then r == Err(InsufficientCredits)
            else Coupon.DeductCredits(s.engine, self, q.bond, q.holder, q.amount, q.creditType).Err? ==> r == Err(InsufficientCredits)
  {
    hide Append, RecordFor, Coupon.DeductCredits, AllZero;
    CompatibleIs(q);
    hide Compatible, RetiresOn;
  }
}
