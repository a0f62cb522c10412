/** BondIssuer, CouponEngine and CreditRetirement together: one atomic call at a time, in any order.
    Supply, conservation of credits and the retirement ledger over every run. */
module Protocol {
  import opened Host
  import opened Shared
  import Issuer
  import Coupon
  import Retirement
  import CB = CouponBatches
  import CP = CouponPeriods
  import CL = CouponLedger

  /** The three storages, with the credit history of every bond since deployment. */
  datatype System = System(
    issuer: Issuer.Storage,
    engine: Coupon.Storage,
    retirement: Retirement.Storage,
    histories: map<nat, CL.History>)

  datatype Call =
    | OnIssuer(call: Issuer.Call)
    | Register(status: Option<ProjectStatus>, caller: Address, bond: nat, project: Hash, nonce: nat)
    | Distribute(oracle: Oracle, caller: Address, bond: nat, period: nat, holders: Coupon.Holders, reportId: nat, nonce: nat, final: bool)
    | Claim(caller: Address, bond: nat, nonce: nat)
    | Sweep(caller: Address, bond: nat, destination: Address, nonce: nat)
    | SetDeductCaller(caller: Address, deductCaller: Address, nonce: nat)
    | Deduct(signer: Address, bond: nat, holder: Address, amount: int, creditType: CreditType)
    | Retire(now: nat, request: Retirement.Request)

  function Deployed(issuerAdmin: Address, engineAdmin: Address): System {
    System(Issuer.Constructed(issuerAdmin), Coupon.Constructed(engineAdmin), Retirement.EMPTY, map[])
  }

  function HistoryOf(s: System, bond: nat): CL.History {
    if bond in s.histories then s.histories[bond] else CL.NO_HISTORY
  }

  function WithEngine(s: System, engine: Coupon.Storage, bond: nat, h: CL.History): System {
    System(s.issuer, engine, s.retirement, s.histories[bond := h])
  }

  /** What a distribution call newly owes its holders. */
  ghost function NewDues(s: System, c: Call): CB.Dues
    requires c.Distribute?
  {
    var book := Coupon.BookOf(s.engine, c.bond);
    var o := Coupon.Resume(book, c.oracle, c.period, c.reportId, Coupon.Subscribed(s.issuer, c.bond));
    if o.Ok? then CP.DuesIn(o.value, CB.Fresh(c.holders, Coupon.PaidIn(book, c.period))) else map[]
  }

  /** One call; a call that errs leaves everything as it was. `self` is the retirement contract. */
  ghost function Step(self: Address, s: System, c: Call): System {
    match c
    case OnIssuer(call) => s.(issuer := Issuer.Step(s.issuer, call))
    case Register(status, caller, bond, project, nonce) =>
      var r := Coupon.RegisterBond(s.engine, s.issuer, status, caller, bond, project, nonce);
      if r.Err? then s else WithEngine(s, r.value.0, bond, HistoryOf(s, bond))
    case Distribute(oracle, caller, bond, period, holders, reportId, nonce, final) =>
      var r := Coupon.DistributeCoupon(s.engine, s.issuer, oracle, caller, bond, period, holders, reportId, nonce, final);
      if r.Err? then s else WithEngine(s, r.value.0, bond, CL.Receiving(HistoryOf(s, bond), NewDues(s, c)))
    case Claim(caller, bond, nonce) =>
      var r := Coupon.ClaimCredits(s.engine, caller, bond, nonce);
      if r.Err? then s else WithEngine(s, r.value.0, bond, CL.Claiming(HistoryOf(s, bond), caller, r.value.1))
    case Sweep(caller, bond, destination, nonce) =>
      var r := Coupon.SweepUndistributed(s.engine, caller, bond, destination, nonce);
      if r.Err? then s
      else WithEngine(s, r.value.0, bond,
                      CL.Receiving(HistoryOf(s, bond),
                                   map[destination := Coupon.Due(0, r.value.1.carbonAmount, r.value.1.biodiversityAmount)]))
    case SetDeductCaller(caller, deductCaller, nonce) =>
      var r := Coupon.RegisterDeductCaller(s.engine, caller, deductCaller, nonce);
      if r.Err? then s else s.(engine := r.value.0)
    case Deduct(signer, bond, holder, amount, t) =>
      var r := Coupon.DeductCredits(s.engine, signer, bond, holder, amount, t);
      if r.Err? then s else WithEngine(s, r.value.0, bond, CL.Deducting(HistoryOf(s, bond), holder, amount))
    case Retire(now, q) =>
      var r := Retirement.RetireCredits(s.retirement, self, s.issuer, s.engine, now, q);
      if r.Err? then s
      else System(s.issuer, r.value.0.1, r.value.0.0,
                  s.histories[q.bond := CL.Deducting(HistoryOf(s, q.bond), q.holder, q.amount)])
  }

  ghost function Run(self: Address, s: System, calls: seq<Call>): System
    decreases |calls|
  {
    if calls == [] then s else Run(self, Step(self, s, calls[0]), calls[1..])
  }

  predicate HonestCall(c: Call) {
    c.Distribute? ==> Honest(c.oracle)
  }

  // ----- the invariant -----

  /** A registered bond has the issuer's own project and credit type. */
  ghost predicate Registered(s: System, bond: nat) {
    var book := Coupon.BookOf(s.engine, bond);
    book.creditType.Some? ==>
      && bond in s.issuer.bonds
      && book.creditType.value == s.issuer.bonds[bond].config.creditType
      && book.project == Some(s.issuer.bonds[bond].config.projectId)
  }

  ghost predicate BondOk(s: System, bond: nat) {
    Registered(s, bond) && CL.Good(Coupon.BookOf(s.engine, bond), HistoryOf(s, bond))
  }

  ghost predicate Inv(s: System) {
    && Issuer.Inv(s.issuer)
    && Retirement.Inv(s.retirement)
    && forall bond: nat :: BondOk(s, bond)
  }

  lemma DeployedInv(issuerAdmin: Address, engineAdmin: Address)
    ensures Inv(Deployed(issuerAdmin, engineAdmin))
  {
    hide CL.Good, Issuer.Inv, Retirement.Inv;
    CL.EmptyIsGood();
    RetirementEmpty();
    IssuerEmpty(issuerAdmin);
    var s := Deployed(issuerAdmin, engineAdmin);
    forall bond: nat
      ensures BondOk(s, bond)
    {
      assert Coupon.BookOf(s.engine, bond) == Coupon.EMPTY_BOOK && HistoryOf(s, bond) == CL.NO_HISTORY;
    }
  }

  lemma RetirementEmpty()
    ensures Retirement.Inv(Retirement.EMPTY)
  {
  }

  lemma IssuerEmpty(admin: Address)
    ensures Issuer.Inv(Issuer.Constructed(admin))
  {
  }

  /** Rewriting the book of one bond. */
  lemma EngineStep(s: System, engine: Coupon.Storage, bond: nat, h: CL.History)
    requires Inv(s)
    requires forall b: nat :: b != bond ==> Coupon.BookOf(engine, b) == Coupon.BookOf(s.engine, b)
    requires BondOk(WithEngine(s, engine, bond, h), bond)
    ensures Inv(WithEngine(s, engine, bond, h))
  {
    hide CL.Good, Issuer.Inv, Retirement.Inv;
    var t := WithEngine(s, engine, bond, h);
    forall b: nat
      ensures BondOk(t, b)
    {
      assert BondOk(s, b);
    }
  }

  lemma SupplyFits(s: System, bond: nat)
    requires Issuer.Inv(s.issuer)
    ensures var sub := Coupon.Subscribed(s.issuer, bond); sub.Some? ==> 0 <= sub.value <= I128_MAX
  {
    if bond in s.issuer.bonds {
      assert Issuer.Backed(s.issuer.bonds[bond]);
      SumNonNegative(s.issuer.bonds[bond].balances);
    }
  }

  lemma IssuerStepOk(s: System, call: Issuer.Call)
    requires Inv(s)
    ensures Inv(s.(issuer := Issuer.Step(s.issuer, call)))
  {
    hide CL.Good, Issuer.Inv, Retirement.Inv, Issuer.Step;
    Issuer.StepIsSafe(s.issuer, call);
    var t := s.(issuer := Issuer.Step(s.issuer, call));
    forall b: nat
      ensures BondOk(t, b)
    {
      assert BondOk(s, b);
      if b in s.issuer.bonds {
        assert Issuer.BondEvolves(s.issuer.bonds[b], t.issuer.bonds[b], call.now);
      }
    }
  }

  lemma RegisterStepOk(s: System, status: Option<ProjectStatus>, caller: Address, bond: nat, project: Hash, nonce: nat)
    requires Inv(s) && Coupon.RegisterBond(s.engine, s.issuer, status, caller, bond, project, nonce).Ok?
    ensures Inv(WithEngine(s, Coupon.RegisterBond(s.engine, s.issuer, status, caller, bond, project, nonce).value.0, bond, HistoryOf(s, bond)))
  {
    hide CL.Good, Issuer.Inv, Retirement.Inv;
    assert BondOk(s, bond);
    CL.RegisterKeepsGood(Coupon.BookOf(s.engine, bond), HistoryOf(s, bond), project, s.issuer.bonds[bond].config.creditType);
    EngineStep(s, Coupon.RegisterBond(s.engine, s.issuer, status, caller, bond, project, nonce).value.0, bond, HistoryOf(s, bond));
  }

  lemma DistributeStepOk(self: Address, s: System, c: Call)
    requires Inv(s) && c.Distribute? && Honest(c.oracle)
    ensures Inv(Step(self, s, c))
  {
    hide CL.Good, Issuer.Inv, Retirement.Inv, Coupon.DistributeBatch, Coupon.Resume, CL.Receiving, CP.DuesIn, CB.Fresh;
    var r := Coupon.DistributeCoupon(s.engine, s.issuer, c.oracle, c.caller, c.bond, c.period, c.holders, c.reportId, c.nonce, c.final);
    if r.Ok? {
      assert BondOk(s, c.bond);
      SupplyFits(s, c.bond);
      var book := Coupon.BookOf(s.engine, c.bond);
      CL.DistributeKeepsGood(book, HistoryOf(s, c.bond), c.oracle, Coupon.Subscribed(s.issuer, c.bond), c.bond, c.period, c.holders, c.reportId, c.final);
      EngineStep(s, r.value.0, c.bond, CL.Receiving(HistoryOf(s, c.bond), NewDues(s, c)));
    }
  }

  lemma ClaimStepOk(s: System, caller: Address, bond: nat, nonce: nat)
    requires Inv(s) && Coupon.ClaimCredits(s.engine, caller, bond, nonce).Ok?
    ensures var r := Coupon.ClaimCredits(s.engine, caller, bond, nonce).value;
            Inv(WithEngine(s, r.0, bond, CL.Claiming(HistoryOf(s, bond), caller, r.1)))
  {
    hide CL.Good, Issuer.Inv, Retirement.Inv, Coupon.ClaimBook, CL.Claiming;
    assert BondOk(s, bond);
    CL.ClaimKeepsGood(Coupon.BookOf(s.engine, bond), HistoryOf(s, bond), caller);
    var r := Coupon.ClaimCredits(s.engine, caller, bond, nonce).value;
    EngineStep(s, r.0, bond, CL.Claiming(HistoryOf(s, bond), caller, r.1));
  }

  lemma SweepStepOk(s: System, caller: Address, bond: nat, destination: Address, nonce: nat)
    requires Inv(s) && Coupon.SweepUndistributed(s.engine, caller, bond, destination, nonce).Ok?
    ensures var r := Coupon.SweepUndistributed(s.engine, caller, bond, destination, nonce).value;
            Inv(WithEngine(s, r.0, bond, CL.Receiving(HistoryOf(s, bond),
                                                      map[destination := Coupon.Due(0, r.1.carbonAmount, r.1.biodiversityAmount)])))
  {
    hide CL.Good, Issuer.Inv, Retirement.Inv, Coupon.SweepBook, CL.Receiving;
    assert BondOk(s, bond);
    CL.SweepKeepsGood(Coupon.BookOf(s.engine, bond), HistoryOf(s, bond), bond, destination);
    var r := Coupon.SweepUndistributed(s.engine, caller, bond, destination, nonce).value;
    EngineStep(s, r.0, bond, CL.Receiving(HistoryOf(s, bond), map[destination := Coupon.Due(0, r.1.carbonAmount, r.1.biodiversityAmount)]));
  }

  lemma DeductStepOk(s: System, signer: Address, bond: nat, holder: Address, amount: int, t: CreditType)
    requires Inv(s) && Coupon.DeductCredits(s.engine, signer, bond, holder, amount, t).Ok?
    ensures Inv(WithEngine(s, Coupon.DeductCredits(s.engine, signer, bond, holder, amount, t).value.0, bond,
                           CL.Deducting(HistoryOf(s, bond), holder, amount)))
  {
    hide CL.Good, Issuer.Inv, Retirement.Inv, Coupon.DeductBook, CL.Deducting;
    assert BondOk(s, bond);
    CL.DeductKeepsGood(Coupon.BookOf(s.engine, bond), HistoryOf(s, bond), holder, amount, t);
    EngineStep(s, Coupon.DeductCredits(s.engine, signer, bond, holder, amount, t).value.0, bond,
               CL.Deducting(HistoryOf(s, bond), holder, amount));
  }

  lemma OtherStorages(s: System, retirement: Retirement.Storage, deductCaller: Option<Address>, nonces: Nonces)
    requires Inv(s) && Retirement.Inv(retirement)
    ensures Inv(System(s.issuer, Coupon.Storage(s.engine.admin, s.engine.books, deductCaller, nonces), retirement, s.histories))
  {
    hide CL.Good, Issuer.Inv, Retirement.Inv;
    var t := System(s.issuer, Coupon.Storage(s.engine.admin, s.engine.books, deductCaller, nonces), retirement, s.histories);
    forall b: nat
      ensures BondOk(t, b)
    {
      assert BondOk(s, b);
    }
  }

  lemma RetireStepOk(self: Address, s: System, now: nat, q: Retirement.Request)
    requires Inv(s)
    ensures Inv(Step(self, s, Retire(now, q)))
  {
    hide CL.Good, Issuer.Inv, Retirement.Inv, Coupon.DeductCredits, CL.Deducting, Retirement.RetireCredits;
    var r := Retirement.RetireCredits(s.retirement, self, s.issuer, s.engine, now, q);
    if r.Ok? {
      Retirement.RetireEffect(s.retirement, self, s.issuer, s.engine, now, q);
      DeductStepOk(s, self, q.bond, q.holder, q.amount, q.creditType);
      var e := r.value.0.1;
      var mid := WithEngine(s, e, q.bond, CL.Deducting(HistoryOf(s, q.bond), q.holder, q.amount));
      OtherStorages(mid, r.value.0.0, e.deductCaller, e.nonces);
      assert Coupon.Storage(e.admin, e.books, e.deductCaller, e.nonces) == e;
    }
  }

  lemma StepKeepsInv(self: Address, s: System, c: Call)
    requires Inv(s) && HonestCall(c)
    ensures Inv(Step(self, s, c))
  {
    hide Inv, Coupon.RegisterBond, Coupon.ClaimCredits, Coupon.SweepUndistributed, Coupon.DeductCredits, Coupon.DistributeCoupon, NewDues;
    match c
    case OnIssuer(call) => IssuerStepOk(s, call);
    case Register(status, caller, bond, project, nonce) =>
      if Coupon.RegisterBond(s.engine, s.issuer, status, caller, bond, project, nonce).Ok? {
        RegisterStepOk(s, status, caller, bond, project, nonce);
      }
    case Distribute(_, _, _, _, _, _, _, _) => DistributeStepOk(self, s, c);
    case Claim(caller, bond, nonce) =>
      if Coupon.ClaimCredits(s.engine, caller, bond, nonce).Ok? {
        ClaimStepOk(s, caller, bond, nonce);
      }
    case Sweep(caller, bond, destination, nonce) =>
      if Coupon.SweepUndistributed(s.engine, caller, bond, destination, nonce).Ok? {
        SweepStepOk(s, caller, bond, destination, nonce);
      }
    case SetDeductCaller(caller, deductCaller, nonce) =>
      var r := Coupon.RegisterDeductCaller(s.engine, caller, deductCaller, nonce);
      if r.Ok? {
        InvGivesRetirement(s);
        OtherStorages(s, s.retirement, r.value.0.deductCaller, r.value.0.nonces);
      }
    case Deduct(signer, bond, holder, amount, t) =>
      if Coupon.DeductCredits(s.engine, signer, bond, holder, amount, t).Ok? {
        DeductStepOk(s, signer, bond, holder, amount, t);
      }
    case Retire(now, q) => RetireStepOk(self, s, now, q);
  }

  lemma InvGivesRetirement(s: System)
    requires Inv(s)
    ensures Retirement.Inv(s.retirement)
  {
  }

  lemma {:induction false} RunKeepsInv(self: Address, s: System, calls: seq<Call>)
    requires Inv(s) && forall i :: 0 <= i < |calls| ==> HonestCall(calls[i])
    ensures Inv(Run(self, s, calls))
    decreases |calls|
  {
    hide Inv, Step;
    if calls != [] {
      StepKeepsInv(self, s, calls[0]);
      RunKeepsInv(self, Step(self, s, calls[0]), calls[1..]);
    }
  }

  // ----- the theorems -----

  /** Conservation in every reachable state, bond by bond: accrued balances, dust, claims and deductions
      add up to the credits of the settled periods plus those already handed out in open ones, and
      every combined figure equals its per-type parts. */
  lemma EveryRunConserves(self: Address, issuerAdmin: Address, engineAdmin: Address, calls: seq<Call>, bond: nat)
    requires forall i :: 0 <= i < |calls| ==> HonestCall(calls[i])
    ensures var s := Run(self, Deployed(issuerAdmin, engineAdmin), calls);
            var book, h := Coupon.BookOf(s.engine, bond), HistoryOf(s, bond);
            && Sum(book.ledgers.accrued) + book.pools.total + Sum(h.claimed) + Sum(h.deducted)
               == Sum(CL.Settled(book.periods)) + Sum(CL.InFlight(book.batches))
            && book.pools.total == book.pools.carbon + book.pools.bio
            && (forall a :: CB.SoundAt(book.ledgers, a))
            && CL.OnType(book)
            && (forall a :: Get(h.received, a) == Get(book.ledgers.accrued, a) + Get(h.claimed, a) + Get(h.deducted, a))
  {
    var s := Run(self, Deployed(issuerAdmin, engineAdmin), calls);
    assert BondOk(s, bond) by {
      DeployedInv(issuerAdmin, engineAdmin);
      RunKeepsInv(self, Deployed(issuerAdmin, engineAdmin), calls);
    }
    GoodMeans(Coupon.BookOf(s.engine, bond), HistoryOf(s, bond));
  }

  lemma GoodMeans(book: Coupon.Book, h: CL.History)
    requires CL.Good(book, h)
    ensures Sum(book.ledgers.accrued) + book.pools.total + Sum(h.claimed) + Sum(h.deducted)
         == Sum(CL.Settled(book.periods)) + Sum(CL.InFlight(book.batches))
    ensures book.pools.total == book.pools.carbon + book.pools.bio
    ensures forall a :: CB.SoundAt(book.ledgers, a)
    ensures forall a :: Get(h.received, a) == Get(book.ledgers.accrued, a) + Get(h.claimed, a) + Get(h.deducted, a)
  {
    hide Sum, CL.PeriodsOk, CL.OnType;
    forall a
      ensures CB.SoundAt(book.ledgers, a)
    {
      CL.SoundHere(book.ledgers, a);
    }
  }

  /** In no reachable state can a claim or a sweep find the books out of step; a claim with the right
      nonce always succeeds. */
  lemma NeverOutOfStep(self: Address, issuerAdmin: Address, engineAdmin: Address, calls: seq<Call>,
                       caller: Address, bond: nat, destination: Address, nonce: nat)
    requires forall i :: 0 <= i < |calls| ==> HonestCall(calls[i])
    ensures var s := Run(self, Deployed(issuerAdmin, engineAdmin), calls);
            var claim := Coupon.ClaimCredits(s.engine, caller, bond, nonce);
            var sweep := Coupon.SweepUndistributed(s.engine, caller, bond, destination, nonce);
            && (claim.Ok? <==> nonce == NonceOf(s.engine.nonces, caller) && nonce < U64_MAX)
            && sweep != Err(Coupon.AccountingMismatch)
  {
    var s := Run(self, Deployed(issuerAdmin, engineAdmin), calls);
    hide Run, CL.Good, Coupon.ClaimBook, Coupon.SweepBook;
    assert BondOk(s, bond) by {
      DeployedInv(issuerAdmin, engineAdmin);
      RunKeepsInv(self, Deployed(issuerAdmin, engineAdmin), calls);
    }
    CL.ClaimKeepsGood(Coupon.BookOf(s.engine, bond), HistoryOf(s, bond), caller);
    CL.SweepKeepsGood(Coupon.BookOf(s.engine, bond), HistoryOf(s, bond), bond, destination);
  }

  // ----- retirement as the sole deduct caller -----

  /** Only the retirement contract is ever registered, and nobody else signs for it. */
  predicate SoleCaller(self: Address, c: Call) {
    && (c.SetDeductCaller? ==> c.deductCaller == self)
    && (c.Deduct? ==> c.signer != self)
  }

  ghost predicate RetiredAt(s: System, bond: nat, a: Address) {
    Get(HistoryOf(s, bond).deducted, a) == Get(s.retirement.retiredPerBond, (bond, a))
  }

  ghost predicate RetiredAgrees(self: Address, s: System) {
    && (s.engine.deductCaller == None || s.engine.deductCaller == Some(self))
    && forall bond: nat, a :: RetiredAt(s, bond, a)
  }

  lemma SameDeductions(self: Address, s: System, t: System)
    requires RetiredAgrees(self, s) && t.engine.deductCaller == s.engine.deductCaller && t.retirement == s.retirement
    requires forall bond: nat :: HistoryOf(t, bond).deducted == HistoryOf(s, bond).deducted
    ensures RetiredAgrees(self, t)
  {
    forall bond: nat, a
      ensures RetiredAt(t, bond, a)
    {
      assert RetiredAt(s, bond, a);
    }
  }

  lemma RetireAgrees(self: Address, s: System, now: nat, q: Retirement.Request)
    requires RetiredAgrees(self, s) && Retirement.Inv(s.retirement)
    ensures RetiredAgrees(self, Step(self, s, Retire(now, q)))
  {
    hide Retirement.Inv, Retirement.RetireCredits, RetiredAt, CL.Deducting, Coupon.DeductBook;
    var t := Step(self, s, Retire(now, q));
    if Retirement.RetireCredits(s.retirement, self, s.issuer, s.engine, now, q).Ok? {
      Retirement.RetireEffect(s.retirement, self, s.issuer, s.engine, now, q);
      forall bond: nat, a
        ensures RetiredAt(t, bond, a)
      {
        RetiredMore(s, t, q, bond, a);
      }
    }
  }

  lemma RetiredMore(s: System, t: System, q: Retirement.Request, bond: nat, a: Address)
    requires RetiredAt(s, bond, a) && RetiredAt(s, q.bond, q.holder)
    requires t.histories == s.histories[q.bond := CL.Deducting(HistoryOf(s, q.bond), q.holder, q.amount)]
    requires t.retirement.retiredPerBond
             == s.retirement.retiredPerBond[(q.bond, q.holder) := Get(s.retirement.retiredPerBond, (q.bond, q.holder)) + q.amount]
    ensures RetiredAt(t, bond, a)
  {
  }

  lemma StepRetires(self: Address, s: System, c: Call)
    requires RetiredAgrees(self, s) && Retirement.Inv(s.retirement) && SoleCaller(self, c)
    ensures RetiredAgrees(self, Step(self, s, c))
  {
    hide RetiredAgrees, Retirement.Inv, Coupon.DeductBook, Retirement.RetireCredits;
    var t := Step(self, s, c);
    match c
    case Retire(now, q) => RetireAgrees(self, s, now, q);
    case SetDeductCaller(_, _, _) => NewCallerAgrees(self, s, t);
    case Deduct(_, _, _, _, _) => OnlySelf(self, s);
    case _ => QuietAgrees(self, s, c);
  }

  /** The calls that neither deduct nor name a deduct caller. */
  lemma QuietAgrees(self: Address, s: System, c: Call)
    requires RetiredAgrees(self, s) && !c.Retire? && !c.SetDeductCaller? && !c.Deduct?
    ensures RetiredAgrees(self, Step(self, s, c))
  {
    hide RetiredAgrees;
    QuietDeductions(self, s, c);
    QuietCaller(self, s, c);
    hide Step;
    SameDeductions(self, s, Step(self, s, c));
  }

  lemma QuietDeductions(self: Address, s: System, c: Call)
    requires !c.Retire? && !c.SetDeductCaller? && !c.Deduct?
    ensures forall bond: nat :: HistoryOf(Step(self, s, c), bond).deducted == HistoryOf(s, bond).deducted
  {
    hide Coupon.DistributeCoupon, Coupon.SweepUndistributed, Coupon.ClaimCredits, Coupon.RegisterBond, NewDues, Issuer.Step;
  }

  lemma QuietCaller(self: Address, s: System, c: Call)
    requires !c.Retire? && !c.SetDeductCaller? && !c.Deduct?
    ensures Step(self, s, c).engine.deductCaller == s.engine.deductCaller && Step(self, s, c).retirement == s.retirement
  {
    hide Coupon.DistributeBatch, Coupon.SweepBook, Coupon.ClaimBook, NewDues, Issuer.Step, HistoryOf, CL.Receiving, CL.Claiming;
  }

  lemma OnlySelf(self: Address, s: System)
    requires RetiredAgrees(self, s)
    ensures s.engine.deductCaller == None || s.engine.deductCaller == Some(self)
  {
  }

  lemma NewCallerAgrees(self: Address, s: System, t: System)
    requires RetiredAgrees(self, s) && t.retirement == s.retirement && t.histories == s.histories
    requires t.engine.deductCaller == s.engine.deductCaller || t.engine.deductCaller == Some(self)
    ensures RetiredAgrees(self, t)
  {
    forall bond: nat, a
      ensures RetiredAt(t, bond, a)
    {
      assert RetiredAt(s, bond, a);
    }
  }

  lemma {:induction false} RunRetires(self: Address, s: System, calls: seq<Call>)
    requires Inv(s) && RetiredAgrees(self, s)
    requires forall i :: 0 <= i < |calls| ==> HonestCall(calls[i]) && SoleCaller(self, calls[i])
    ensures RetiredAgrees(self, Run(self, s, calls))
    decreases |calls|
  {
    hide Inv, Step, RetiredAgrees;
    if calls != [] {
      StepKeepsInv(self, s, calls[0]);
      InvGivesRetirement(s);
      StepRetires(self, s, calls[0]);
      RunRetires(self, Step(self, s, calls[0]), calls[1..]);
    }
  }

  /** With the retirement contract as the only deduct caller, what a holder ever received on a bond is
      what is still accrued, plus what was claimed, plus the amounts on the holder's own retirement records. */
  lemma RetirementsAccountForDeductions(self: Address, issuerAdmin: Address, engineAdmin: Address, calls: seq<Call>,
                                        bond: nat, holder: Address)
    requires forall i :: 0 <= i < |calls| ==> HonestCall(calls[i]) && SoleCaller(self, calls[i])
    ensures var s := Run(self, Deployed(issuerAdmin, engineAdmin), calls);
            var h, r := HistoryOf(s, bond), s.retirement;
            && Get(h.received, holder)
               == Get(Coupon.BookOf(s.engine, bond).ledgers.accrued, holder) + Get(h.claimed, holder) + Get(r.retiredPerBond, (bond, holder))
            && Get(r.retiredPerBond, (bond, holder)) == Retirement.AmountOn(r.records, r.count, bond, holder)
            && ListAt(r.bondHolderRetirements, (bond, holder)) == Retirement.IdsOn(r.records, r.count, bond, holder)
  {
    hide Run, Inv, HistoryOf, RetiredAgrees, Retirement.AmountOn, Retirement.IdsOn;
    var d := Deployed(issuerAdmin, engineAdmin);
    var s := Run(self, d, calls);
    DeployedInv(issuerAdmin, engineAdmin);
    RunKeepsInv(self, d, calls);
    NothingRetired(self, issuerAdmin, engineAdmin);
    RunRetires(self, d, calls);
    RetiredHere(self, s, bond, holder);
    TrackedHere(s, bond, holder);
    InvGivesRetirement(s);
    RecordedHere(s.retirement, bond, holder);
  }

  lemma NothingRetired(self: Address, issuerAdmin: Address, engineAdmin: Address)
    ensures RetiredAgrees(self, Deployed(issuerAdmin, engineAdmin))
  {
  }

  lemma RetiredHere(self: Address, s: System, bond: nat, holder: Address)
    requires RetiredAgrees(self, s)
    ensures Get(HistoryOf(s, bond).deducted, holder) == Get(s.retirement.retiredPerBond, (bond, holder))
  {
    hide HistoryOf;
    assert RetiredAt(s, bond, holder);
  }

  lemma TrackedHere(s: System, bond: nat, a: Address)
    requires Inv(s)
    ensures var h := HistoryOf(s, bond);
            Get(h.received, a) == Get(Coupon.BookOf(s.engine, bond).ledgers.accrued, a) + Get(h.claimed, a) + Get(h.deducted, a)
  {
    hide Issuer.Inv, Retirement.Inv, HistoryOf, CL.BookOk, CL.Conserved;
    assert BondOk(s, bond);
  }

  lemma RecordedHere(r: Retirement.Storage, bond: nat, holder: Address)
    requires Retirement.Inv(r)
    ensures Get(r.retiredPerBond, (bond, holder)) == Retirement.AmountOn(r.records, r.count, bond, holder)
    ensures ListAt(r.bondHolderRetirements, (bond, holder)) == Retirement.IdsOn(r.records, r.count, bond, holder)
  {
    hide Retirement.AmountOn, Retirement.IdsOn;
  }
}
