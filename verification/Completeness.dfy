/** Across BondIssuer and CouponEngine: feeding a period the issuer's own holder list, each address with
    its on-chain balance, duplicates included, cut into any batches and interleaved with any other calls,
    never ends in an accounting mismatch and pays every holder for exactly its on-chain balance. */
module Completeness {
  import opened Host
  import opened Shared
  import opened Coupon
  import opened CouponBatches
  import opened CouponPeriods
  import opened Protocol
  import opened Interleaving
  import opened Rounding
  import Issuer
  import Retirement
  import CL = CouponLedger
  import CR = CouponRules

  /** The pairs the API assembles from `get_holder_list` and `get_holder_balance`. */
  function Pairs(b: Issuer.Bond): Holders {
    seq(|b.holders|, i requires 0 <= i < |b.holders| => (b.holders[i], Get(b.balances, b.holders[i])))
  }

  lemma PairsMembers(b: Issuer.Bond, h: Address, x: int)
    ensures (h, x) in Pairs(b) <==> h in b.holders && x == Get(b.balances, h)
  {
    if h in b.holders {
      var i :| 0 <= i < |b.holders| && b.holders[i] == h;
      assert Pairs(b)[i] == (h, Get(b.balances, h));
    }
  }

  /** The list covers every positive balance, so what it pays is exactly the positive balances. */
  lemma PairsCoverBalances(b: Issuer.Bond)
    requires Issuer.Backed(b)
    ensures Fresh(Pairs(b), {}) == NonZero(b.balances)
    ensures Sum(Fresh(Pairs(b), {})) == b.totalSubscribed
  {
    hide Sum;
    var f := Fresh(Pairs(b), {});
    assert OneBalanceEach(Pairs(b));
    forall h
      ensures h in f <==> h in NonZero(b.balances)
      ensures h in f ==> f[h] == NonZero(b.balances)[h]
    {
      var x := Get(b.balances, h);
      FreshIsTheSetOfPairs(Pairs(b), h, x);
      PairsMembers(b, h, x);
      if h in f {
        FreshIsTheSetOfPairs(Pairs(b), h, f[h]);
        PairsMembers(b, h, f[h]);
      }
    }
    SumNonZero(b.balances);
  }

  // ----- true pairs -----

  /** Every pair gives an address its balance in the issuer. */
  predicate TruePairs(b: Issuer.Bond, holders: Holders) {
    forall p :: p in holders ==> p.1 == Get(b.balances, p.0)
  }

  /** No holder is missing. */
  ghost predicate Covers(b: Issuer.Bond, holders: Holders) {
    forall a :: Get(b.balances, a) > 0 ==> (a, Get(b.balances, a)) in holders
  }

  /** The holder list, and any cut of it, qualifies. */
  lemma PairsQualify(b: Issuer.Bond, batches: seq<Holders>)
    requires Issuer.Backed(b) && Flatten(batches) == Pairs(b)
    ensures Covers(b, Flatten(batches)) && TruePairs(b, Flatten(batches))
    ensures forall i :: 0 <= i < |batches| ==> TruePairs(b, batches[i])
  {
    hide Sum;
    forall a | Get(b.balances, a) > 0
      ensures (a, Get(b.balances, a)) in Pairs(b)
    {
      PairsMembers(b, a, Get(b.balances, a));
    }
    assert TruePairs(b, Pairs(b));
    CutMembers(b, batches);
  }

  lemma {:induction false} CutMembers(b: Issuer.Bond, batches: seq<Holders>)
    requires TruePairs(b, Flatten(batches))
    ensures forall i :: 0 <= i < |batches| ==> TruePairs(b, batches[i])
    decreases |batches|
  {
    if batches != [] {
      var rest := Flatten(batches[1..]);
      assert forall p :: p in batches[0] || p in rest ==> p in Flatten(batches);
      CutMembers(b, batches[1..]);
      forall i | 0 <= i < |batches|
        ensures TruePairs(b, batches[i])
      {
        assert i > 0 ==> batches[i] == batches[1..][i - 1];
      }
    }
  }

  lemma SubmapSum(f: map<Address, int>, m: map<Address, int>)
    requires Positive(m) && forall a :: a in f ==> a in m && f[a] == m[a]
    ensures Sum(f) <= Sum(m)
    ensures Sum(f) == Sum(m) <==> f == m
  {
    hide Sum;
    var rest := m - f.Keys;
    assert m == f + rest;
    SumUnion(f, rest);
    SumNonNegative(rest);
    if a :| a in rest {
      assert 0 < rest[a] <= Sum(rest);
    } else {
      assert rest == map[] && f == m;
    }
  }

  /** True pairs pay part of the positive balances, and all of them exactly when nobody is missing. */
  lemma TruePairsPay(b: Issuer.Bond, holders: Holders)
    requires Issuer.Backed(b) && TruePairs(b, holders)
    ensures var f := Fresh(holders, {});
            && Sum(f) <= b.totalSubscribed
            && (Sum(f) == b.totalSubscribed <==> Covers(b, holders))
            && (Covers(b, holders) ==> f == NonZero(b.balances))
  {
    hide Sum, Fresh;
    var f, m := Fresh(holders, {}), NonZero(b.balances);
    assert OneBalanceEach(holders);
    forall a
      ensures a in f ==> a in m && f[a] == m[a]
      ensures a in f <==> Get(b.balances, a) > 0 && (a, Get(b.balances, a)) in holders
      ensures a in m <==> Get(b.balances, a) > 0
    {
      FreshIsTheSetOfPairs(holders, a, Get(b.balances, a));
      if a in f {
        FreshIsTheSetOfPairs(holders, a, f[a]);
      }
    }
    SumNonZero(b.balances);
    SubmapSum(f, m);
    if Covers(b, holders) {
      assert f == m;
    } else {
      var a :| Get(b.balances, a) > 0 && (a, Get(b.balances, a)) !in holders;
      assert a in m && a !in f;
    }
  }

  // ----- when a batch is accepted -----

  /** The right nonce, from the admin. */
  predicate Authorised(s: System, c: Call)
    requires c.Distribute?
  {
    c.nonce == NonceOf(s.engine.nonces, c.caller) && c.nonce < U64_MAX && c.caller == s.engine.admin
  }

  /** Machine limits a batch must stay within: balances, counters and, to settle, the dust pools; and the
      report must still be there for a final batch. */
  ghost predicate WithinLimits(book: Book, oracle: Oracle, o: Opening, g: map<Address, int>, final: bool) {
    var after := PaidTo(o, g).state;
    && Room(book.ledgers, DuesIn(o, g))
    && after.holderCountSoFar <= U32_MAX
    && (final ==> after.reportId in oracle && PoolsFit(AddDust(book.pools, Dust(after))) && book.periodCount < U32_MAX)
  }

  lemma AffordsSplits(book: Book, oracle: Oracle, o: Opening, g: map<Address, int>, final: bool)
    ensures Affords(book, oracle, o, g, final) <==>
              && o.snapshot.processed + Sum(g) <= o.snapshot.subscribed
              && WithinLimits(book, oracle, o, g, final)
              && (final ==> o.snapshot.processed + Sum(g) == o.snapshot.subscribed)
  {
    hide Sum, TotalsOf, DuesIn, Room, PoolsFit, AddDust, Dust;
    ProcessedTokens(o, g);
  }

  lemma OutcomeRuns(s: System, c: Call)
    requires c.Distribute?
    ensures !Authorised(s, c) ==> Outcome(s, c).Err? && Outcome(s, c).error != AccountingMismatch
    ensures Authorised(s, c) && OpenedBy(s, c).Err? ==> Outcome(s, c) == Err(OpenedBy(s, c).error)
    ensures Authorised(s, c) && OpenedBy(s, c).Ok? ==>
              var r := RunBatch(BookIn(s, c.bond), c.oracle, OpenedBy(s, c).value, c.bond, c.period, c.holders, c.final);
              (Outcome(s, c).Ok? <==> r.Ok?) && (r.Err? ==> Outcome(s, c) == Err(r.error))
  {
    hide RunBatch, Resume;
  }

  lemma OpensWithoutMismatch(s: System, c: Call)
    requires Inv(s) && c.Distribute?
    ensures OpenedBy(s, c) != Err(AccountingMismatch)
  {
    hide Issuer.Inv, Retirement.Inv, CL.PeriodsOk, CL.OnType, CL.Conserved, CL.Tracked, CL.PoolsAddUp, Sound, Resume;
    assert BondOk(s, c.bond);
    CL.ResumeNoMismatch(BookIn(s, c.bond), c.oracle, c.period, c.reportId, Subscribed(s.issuer, c.bond));
  }

  /** In any state meeting the invariant a batch is accepted exactly when it is authorised, its period can be
      opened or resumed, its fresh holders hold no more than the tokens left, or all of them if it is final,
      and the machine limits hold; a batch that brings no more tokens than are left, or all of them if it
      is final, never ends in a mismatch. */
  lemma BatchIff(s: System, c: Call)
    requires Inv(s) && c.Distribute? && Honest(c.oracle)
    ensures OpenedBy(s, c).Err? ==> Outcome(s, c).Err? && Outcome(s, c) != Err(AccountingMismatch)
    ensures OpenedBy(s, c).Ok? ==>
              var o := OpenedBy(s, c).value;
              var g := Fresh(c.holders, PaidIn(BookIn(s, c.bond), c.period));
              var enough := o.snapshot.processed + Sum(g) <= o.snapshot.subscribed && (c.final ==> o.snapshot.processed + Sum(g) == o.snapshot.subscribed);
              && (Outcome(s, c).Ok? <==> Authorised(s, c) && enough && WithinLimits(BookIn(s, c.bond), c.oracle, o, g, c.final))
              && (enough ==> Outcome(s, c) != Err(AccountingMismatch))
  {
    hide Inv, Sum, Honest, OpenOk, Sound, OpenedBy, Outcome, RunBatch, Affords, WithinLimits, Leaves, Fresh, Authorised;
    OutcomeRuns(s, c);
    OpensWithoutMismatch(s, c);
    if OpenedBy(s, c).Ok? {
      InvOpens(s, c);
      var book, o := BookIn(s, c.bond), OpenedBy(s, c).value;
      var g := Fresh(c.holders, PaidIn(book, c.period));
      RunBatchEffect(book, c.oracle, o, c.bond, c.period, c.holders, c.final);
      AffordsSplits(book, c.oracle, o, g, c.final);
      if o.snapshot.processed + Sum(g) <= o.snapshot.subscribed && (c.final ==> o.snapshot.processed + Sum(g) == o.snapshot.subscribed) {
        RunBatchNoMismatch(book, c.oracle, o, c.bond, c.period, c.holders, c.final);
      }
    }
  }

  /** An accepted batch reports where the period now stands, uses the admin's nonce, and touches no other bond. */
  lemma BatchLeaves(s: System, c: Call)
    requires Inv(s) && Accepted(s, c) && Honest(c.oracle)
    ensures OpenedBy(s, c).Ok?
    ensures var o := OpenedBy(s, c).value;
            var st := PaidTo(o, Fresh(c.holders, PaidIn(BookIn(s, c.bond), c.period))).state;
            var (t, r) := Outcome(s, c).value;
            && CR.OtherBooks(s.engine, t, c.bond) && SpendsNonce(s.engine.nonces, t.nonces, c.caller)
            && r == CouponResult(c.bond, c.period, st.distributedSoFar, st.holderCountSoFar, st.creditsPerToken)
  {
    hide Inv, OpenOk, Sound, RunBatch, OpenedBy, Affords, Honest, Fresh, TotalsOf, DuesIn, After, Credited, ClosedBook, OpenBook;
    AcceptedRuns(s.engine.admin, s, c);
    InvOpens(s, c);
    var book, o := BookIn(s, c.bond), OpenedBy(s, c).value;
    RunBatchEffect(book, c.oracle, o, c.bond, c.period, c.holders, c.final);
    AcceptedStorage(s, c);
  }

  lemma AcceptedStorage(s: System, c: Call)
    requires Accepted(s, c) && OpenedBy(s, c).Ok?
    requires RunBatch(BookIn(s, c.bond), c.oracle, OpenedBy(s, c).value, c.bond, c.period, c.holders, c.final).Ok?
    ensures CR.OtherBooks(s.engine, Outcome(s, c).value.0, c.bond) && SpendsNonce(s.engine.nonces, Outcome(s, c).value.0.nonces, c.caller)
    ensures Outcome(s, c).value.1
            == RunBatch(BookIn(s, c.bond), c.oracle, OpenedBy(s, c).value, c.bond, c.period, c.holders, c.final).value.1
  {
    NonceRule(s.engine.nonces, c.caller, c.nonce, InvalidNonce, Trap);
    hide RunBatch, Resume, UseNonce, SpendsNonce, GoodNonce;
  }

  // ----- the theorems -----

  lemma IssuerBacked(s: System, bond: nat)
    requires Inv(s) && bond in s.issuer.bonds
    ensures Issuer.Backed(s.issuer.bonds[bond])
  {
    hide Retirement.Inv, BondOk;
  }

  lemma OpeningSupply(s: System, c: Call)
    requires c.Distribute? && OpenedBy(s, c).Ok? && FreshPeriod(s, c.bond, c.period)
    ensures c.bond in s.issuer.bonds
    ensures OpenedBy(s, c).value.snapshot == Snapshot(s.issuer.bonds[c.bond].totalSubscribed, 0)
    ensures OpenedBy(s, c).value.state.reportId == c.reportId
  {
    hide PeriodTotals, RatePerToken;
  }

  /** The first batch of a period, with true pairs: no mismatch unless it is final and leaves a holder out,
      and the exact condition on which it is accepted. */
  lemma FirstBatchOfTruePairs(s: System, c: Call)
    requires Inv(s) && c.Distribute? && Honest(c.oracle) && FreshPeriod(s, c.bond, c.period)
    requires c.bond in s.issuer.bonds && TruePairs(s.issuer.bonds[c.bond], c.holders)
    ensures var complete := c.final ==> Covers(s.issuer.bonds[c.bond], c.holders);
            && (complete ==> Outcome(s, c) != Err(AccountingMismatch))
            && (Outcome(s, c).Ok? <==> && Authorised(s, c) && OpenedBy(s, c).Ok? && complete
                                       && WithinLimits(BookIn(s, c.bond), c.oracle, OpenedBy(s, c).value, Fresh(c.holders, {}), c.final))
  {
    hide Inv, Sum, Honest, OpenedBy, Outcome, WithinLimits, Fresh, Authorised, TruePairs, Covers, Issuer.Backed, FreshPeriod;
    BatchIff(s, c);
    InvUnstarted(s, c.bond, c.period);
    IssuerBacked(s, c.bond);
    TruePairsPay(s.issuer.bonds[c.bond], c.holders);
    if OpenedBy(s, c).Ok? {
      OpeningSupply(s, c);
    }
  }

  /** All calls for this period carry true pairs of one bond record. */
  ghost predicate AllTrue(b: Issuer.Bond, calls: seq<Call>, bond: nat, period: nat) {
    forall i :: 0 <= i < |calls| && Mine(calls[i], bond, period) ==> TruePairs(b, calls[i].holders)
  }

  lemma {:induction false} SuppliedTrue(self: Address, s: System, calls: seq<Call>, bond: nat, period: nat, b: Issuer.Bond)
    requires AllTrue(b, calls, bond, period)
    ensures TruePairs(b, Supplied(self, s, calls, bond, period))
    decreases |calls|
  {
    hide Run, Accepted;
    if calls != [] {
      var n := |calls| - 1;
      assert forall i :: 0 <= i < n ==> calls[..n][i] == calls[i];
      SuppliedTrue(self, s, calls[..n], bond, period, b);
    }
  }

  /** A batch after any calls, the first of which opened the period: whatever came between, and even if
      the issuer's balances have moved since, pairs true to the balances at the opening never end in a
      mismatch unless the batch is final and some holder is still missing; and the batch is accepted
      exactly when it is authorised, names the same report, leaves nobody out if it is final, and stays
      within the machine limits. */
  lemma HolderListCompletesAPeriod(self: Address, s: System, calls: seq<Call>, bond: nat, period: nat, c: Call)
    requires Inv(s) && FreshPeriod(s, bond, period) && bond in s.issuer.bonds
    requires |calls| > 0 && Mine(calls[0], bond, period) && Accepted(s, calls[0])
    requires forall i :: 0 <= i < |calls| ==> HonestCall(calls[i])
    requires Mine(c, bond, period) && HonestCall(c)
    requires AllTrue(s.issuer.bonds[bond], calls, bond, period) && TruePairs(s.issuer.bonds[bond], c.holders)
    ensures OpenedBy(s, calls[0]).Ok?
    ensures var t, o := Run(self, s, calls), OpenedBy(s, calls[0]).value;
            var before := Supplied(self, s, calls, bond, period);
            var complete := c.final ==> Covers(s.issuer.bonds[bond], before + c.holders);
            var paid := Fresh(before, {});
            && (complete ==> Outcome(t, c) != Err(AccountingMismatch))
            && (period in BookIn(t, bond).batches ==>
                  (Outcome(t, c).Ok? <==> && Authorised(t, c) && c.reportId == calls[0].reportId && complete
                                          && WithinLimits(BookIn(t, bond), c.oracle, PaidTo(o, paid), Fresh(c.holders, paid.Keys), c.final)))
  {
    hide Inv, Run, Accepted, OpenedBy, Supplied, AllTrue, TruePairs, Covers, Outcome, WithinLimits, Authorised, Fresh, PaidTo, Honest, Sum, Underway, Issuer.Backed;
    PeriodUnderway(self, s, calls, bond, period);
    var t, o, b := Run(self, s, calls), OpenedBy(s, calls[0]).value, s.issuer.bonds[bond];
    var before := Supplied(self, s, calls, bond, period);
    var f := Fresh(before, {});
    RunKeepsInv(self, s, calls);
    SuppliedTrue(self, s, calls, bond, period, b);
    OpeningSupply(s, calls[0]);
    IssuerBacked(s, bond);
    AfterTruePairs(t, c, b, o, before);
  }

  lemma AfterTruePairs(t: System, c: Call, b: Issuer.Bond, o: Opening, before: Holders)
    requires Inv(t) && c.Distribute? && Honest(c.oracle) && Issuer.Backed(b)
    requires TruePairs(b, before) && TruePairs(b, c.holders)
    requires o.snapshot == Snapshot(b.totalSubscribed, 0) && Underway(BookIn(t, c.bond), c.period, o, Fresh(before, {}))
    ensures var complete := c.final ==> Covers(b, before + c.holders);
            var paid := Fresh(before, {});
            && (complete ==> Outcome(t, c) != Err(AccountingMismatch))
            && (c.period in BookIn(t, c.bond).batches ==>
                  (Outcome(t, c).Ok? <==> && Authorised(t, c) && c.reportId == o.state.reportId && complete
                                          && WithinLimits(BookIn(t, c.bond), c.oracle, PaidTo(o, paid), Fresh(c.holders, paid.Keys), c.final)))
  {
    hide Inv, OpenedBy, Outcome, WithinLimits, Authorised, Fresh, PaidTo, Honest, Sum, Issuer.Backed, Covers;
    var f := Fresh(before, {});
    var g := Fresh(c.holders, f.Keys);
    var all := before + c.holders;
    assert TruePairs(b, all);
    hide TruePairs;
    TruePairsPay(b, all);
    FreshAppend(before, c.holders, {});
    assert {} + f.Keys == f.Keys;
    FreshPositive(c.holders, f.Keys);
    JoinedSums(f, g);
    PaidToTokens(o, f);
    UnderwayOpens(t, c, o, f);
    BatchIff(t, c);
  }

  lemma PaidToTokens(o: Opening, f: map<Address, int>)
    ensures PaidTo(o, f).snapshot == Snapshot(o.snapshot.subscribed, o.snapshot.processed + Sum(f))
  {
    hide Sum, DuesIn, TotalsOf, After;
    ProcessedTokens(o, f);
  }

  /** What an address is entitled to for a balance. */
  function Entitled(o: Opening, balance: int): int {
    if balance > 0 then DueFor(o.creditType, o.state, balance).carbon + DueFor(o.creditType, o.state, balance).bio else 0
  }

  lemma DueReads(o: Opening, f: map<Address, int>, a: Address)
    requires Positive(f)
    ensures DueAt(o, f, a) == Entitled(o, Get(f, a))
  {
    hide DueFor;
  }

  lemma BackedReads(b: Issuer.Bond, a: Address)
    requires Issuer.Backed(b)
    ensures Get(NonZero(b.balances), a) == Get(b.balances, a) && Positive(NonZero(b.balances))
  {
    hide Sum;
  }

  /** A total split pro rata in fixed point with two floor divisions: the rate per token, then the share. */
  function FloorShare(total: int, supply: int, balance: int): int {
    if total > 0 && supply > 0 && balance > 0 then (total * 10_000_000 / supply) * balance / 10_000_000 else 0
  }

  lemma EntitledIsFloor(o: Opening, balance: int)
    requires balance <= o.snapshot.subscribed
    requires o.snapshot.subscribed > 0 ==>
               && CarbonRate(o.creditType, o.state) == FlooredRate(o.state.carbonTotal, o.snapshot.subscribed)
               && BioRate(o.creditType, o.state) == FlooredRate(o.state.biodiversityTotal, o.snapshot.subscribed)
    ensures Entitled(o, balance) == FloorShare(o.state.carbonTotal, o.snapshot.subscribed, balance)
                                    + FloorShare(o.state.biodiversityTotal, o.snapshot.subscribed, balance)
  {
    hide CarbonRate, BioRate;
    if balance > 0 {
      ShareIsFloor(o.state.carbonTotal, o.snapshot.subscribed, balance);
      ShareIsFloor(o.state.biodiversityTotal, o.snapshot.subscribed, balance);
      hide FlooredRate, FloorShare, Share;
    }
  }

  lemma ShareIsFloor(total: int, supply: int, balance: int)
    requires supply > 0 && balance > 0
    ensures Share(FlooredRate(total, supply), balance) == FloorShare(total, supply, balance)
  {
    assert FlooredRate(total, supply) * balance >= 0;
  }

  /** What an address is entitled to from the report a period was opened with, in plain arithmetic: its pro-rata
      share of the carbon credits and of the biodiversity credits the report is worth. */
  function ReportShare(report: Report, b: Issuer.Bond, a: Address): int {
    FloorShare(CarbonWorth(report, b.config.creditType), b.totalSubscribed, Get(b.balances, a))
    + FloorShare(BiodiversityWorth(report, b.config.creditType), b.totalSubscribed, Get(b.balances, a))
  }

  lemma EntitledFromReport(s: System, c: Call, a: Address)
    requires Inv(s) && c.Distribute? && Honest(c.oracle) && FreshPeriod(s, c.bond, c.period) && OpenedBy(s, c).Ok?
    ensures c.bond in s.issuer.bonds && c.reportId in c.oracle
    ensures Entitled(OpenedBy(s, c).value, Get(s.issuer.bonds[c.bond].balances, a))
            == ReportShare(c.oracle[c.reportId], s.issuer.bonds[c.bond], a)
  {
    hide Inv, Honest, OpenedBy, Entitled, CarbonRate, BioRate, FlooredRate, CarbonWorth, BiodiversityWorth, FloorShare, OpenOk, Issuer.Backed;
    OpenedWorth(s, c);
    OpenedFresh(s, c);
    IssuerBacked(s, c.bond);
    BalanceBelowTotal(s.issuer.bonds[c.bond], a);
    EntitledIsFloor(OpenedBy(s, c).value, Get(s.issuer.bonds[c.bond].balances, a));
  }

  lemma BalanceBelowTotal(b: Issuer.Bond, a: Address)
    requires Issuer.Backed(b)
    ensures Get(b.balances, a) <= b.totalSubscribed
  {
    SumNonNegative(b.balances);
  }

  /** Once such a period is settled, whatever came between its batches: the tokens processed are all that
      were subscribed when it was opened, every address gained from the period's calls exactly its share of the
      opening report for its balance at the opening, once, and earned plus undistributed is the whole total. */
  lemma SettledInFull(self: Address, s: System, calls: seq<Call>, bond: nat, period: nat)
    requires Inv(s) && FreshPeriod(s, bond, period) && bond in s.issuer.bonds
    requires |calls| > 0 && Mine(calls[0], bond, period) && Accepted(s, calls[0])
    requires forall i :: 0 <= i < |calls| ==> HonestCall(calls[i])
    requires AllTrue(s.issuer.bonds[bond], calls, bond, period)
    requires period in BookIn(Run(self, s, calls), bond).periods
    ensures OpenedBy(s, calls[0]).Ok?
    ensures var o, b := OpenedBy(s, calls[0]).value, s.issuer.bonds[bond];
            var f := Fresh(Supplied(self, s, calls, bond, period), {});
            var info := BookIn(Run(self, s, calls), bond).periods[period];
            && f == NonZero(b.balances) && Sum(f) == b.totalSubscribed == o.snapshot.subscribed
            && info.totalCreditsEarned + info.undistributed == o.state.totalCredits
            && calls[0].reportId in calls[0].oracle
            && forall a :: Gained(self, s, calls, bond, period, a) == ReportShare(calls[0].oracle[calls[0].reportId], b, a)
  {
    hide Inv, Run, Accepted, OpenedBy, Supplied, AllTrue, TruePairs, Covers, Fresh, PaidTo, Sum, Issuer.Backed, Gained, DueAt, Entitled, Positive, ReportShare, Honest;
    PeriodUnderway(self, s, calls, bond, period);
    var o, b := OpenedBy(s, calls[0]).value, s.issuer.bonds[bond];
    var all := Supplied(self, s, calls, bond, period);
    var f := Fresh(all, {});
    SuppliedTrue(self, s, calls, bond, period, b);
    OpeningSupply(s, calls[0]);
    IssuerBacked(s, bond);
    TruePairsPay(b, all);
    PaidToTokens(o, f);
    SettledTotal(o, f);
    EntitledFromReport(s, calls[0], self);
    forall a
      ensures Gained(self, s, calls, bond, period, a) == ReportShare(calls[0].oracle[calls[0].reportId], b, a)
    {
      DueReads(o, f, a);
      BackedReads(b, a);
      EntitledFromReport(s, calls[0], a);
    }
  }

  lemma SettledTotal(o: Opening, f: map<Address, int>)
    ensures PaidTo(o, f).state.totalCredits == o.state.totalCredits
  {
    hide TotalsOf, DuesIn;
  }

  // ----- the holder list itself, cut into batches -----

  /** The holders of all calls for a period, in order. */
  function Offered(calls: seq<Call>, bond: nat, period: nat): Holders {
    if calls == [] then []
    else
      var n := |calls| - 1;
      Offered(calls[..n], bond, period) + if Mine(calls[n], bond, period) then calls[n].holders else []
  }

  ghost predicate AllAccepted(self: Address, s: System, calls: seq<Call>, bond: nat, period: nat) {
    forall k :: 0 <= k < |calls| && Mine(calls[k], bond, period) ==> Accepted(Run(self, s, calls[..k]), calls[k])
  }

  lemma {:induction false} OfferedIsSupplied(self: Address, s: System, calls: seq<Call>, bond: nat, period: nat)
    requires AllAccepted(self, s, calls, bond, period)
    ensures Supplied(self, s, calls, bond, period) == Offered(calls, bond, period)
    decreases |calls|
  {
    hide Run, Accepted;
    if calls != [] {
      var n := |calls| - 1;
      forall k | 0 <= k < n && Mine(calls[..n][k], bond, period)
        ensures Accepted(Run(self, s, calls[..n][..k]), calls[..n][k])
      {
        assert calls[..n][k] == calls[k] && calls[..n][..k] == calls[..k];
      }
      OfferedIsSupplied(self, s, calls[..n], bond, period);
    }
  }

  lemma {:induction false} OfferedTrue(b: Issuer.Bond, calls: seq<Call>, bond: nat, period: nat)
    requires TruePairs(b, Offered(calls, bond, period))
    ensures AllTrue(b, calls, bond, period)
    decreases |calls|
  {
    if calls != [] {
      var n := |calls| - 1;
      assert forall p :: p in Offered(calls[..n], bond, period) ==> p in Offered(calls, bond, period);
      OfferedTrue(b, calls[..n], bond, period);
      forall i | 0 <= i < |calls| && Mine(calls[i], bond, period)
        ensures TruePairs(b, calls[i].holders)
      {
        if i < n {
          assert calls[..n][i] == calls[i];
        } else {
          assert forall p :: p in calls[n].holders ==> p in Offered(calls, bond, period);
        }
      }
    }
  }

  lemma OfferedLast(calls: seq<Call>, c: Call, bond: nat, period: nat)
    requires Mine(c, bond, period)
    ensures Offered(calls + [c], bond, period) == Offered(calls, bond, period) + c.holders
  {
    assert (calls + [c])[..|calls|] == calls;
  }

  /** The calls for a period carry, in order, a cut of the holder list at its opening, duplicates included,
      with any other calls between them: if all were accepted so far, the last and final one never ends in a
      mismatch, and it settles the period exactly when it is authorised, names the same report, and stays
      within the machine limits. */
  lemma HolderListCutSettles(self: Address, s: System, calls: seq<Call>, bond: nat, period: nat, c: Call)
    requires Inv(s) && FreshPeriod(s, bond, period) && bond in s.issuer.bonds
    requires |calls| > 0 && Mine(calls[0], bond, period) && AllAccepted(self, s, calls, bond, period)
    requires forall i :: 0 <= i < |calls| ==> HonestCall(calls[i])
    requires Mine(c, bond, period) && HonestCall(c) && c.final
    requires Offered(calls + [c], bond, period) == Pairs(s.issuer.bonds[bond])
    ensures Accepted(s, calls[0]) && OpenedBy(s, calls[0]).Ok?
    ensures var t, o := Run(self, s, calls), OpenedBy(s, calls[0]).value;
            var paid := Fresh(Offered(calls, bond, period), {});
            && Outcome(t, c) != Err(AccountingMismatch)
            && (period in BookIn(t, bond).batches ==>
                  (Outcome(t, c).Ok? <==> && Authorised(t, c) && c.reportId == calls[0].reportId
                                          && WithinLimits(BookIn(t, bond), c.oracle, PaidTo(o, paid), Fresh(c.holders, paid.Keys), true)))
  {
    hide Inv, Run, Accepted, OpenedBy, Supplied, TruePairs, Covers, Outcome, WithinLimits, Authorised, Fresh, PaidTo, Honest, Issuer.Backed, Offered, Pairs, FreshPeriod, AllTrue;
    var b := s.issuer.bonds[bond];
    FirstAccepted(self, s, calls, bond, period);
    IssuerBacked(s, bond);
    OneBatch(b);
    PairsQualify(b, [Pairs(b)]);
    OfferedTrue(b, calls + [c], bond, period);
    PrefixTrue(b, calls + [c], |calls|, bond, period);
    assert (calls + [c])[..|calls|] == calls && (calls + [c])[|calls|] == c;
    OfferedIsSupplied(self, s, calls, bond, period);
    OfferedLast(calls, c, bond, period);
    HolderListCompletesAPeriod(self, s, calls, bond, period, c);
  }

  lemma OneBatch(b: Issuer.Bond)
    ensures Flatten([Pairs(b)]) == Pairs(b)
  {
    hide Pairs;
    assert [Pairs(b)][1..] == [];
    assert Pairs(b) + [] == Pairs(b);
  }

  lemma FirstAccepted(self: Address, s: System, calls: seq<Call>, bond: nat, period: nat)
    requires |calls| > 0 && Mine(calls[0], bond, period) && AllAccepted(self, s, calls, bond, period)
    ensures Accepted(s, calls[0])
  {
    hide Accepted, Step;
    assert calls[..0] == [];
  }

  /** From deployment: after any calls, a period is opened and its batches are interleaved with any others.
      No batch that brings true pairs, and completes them if it is final, ends in a mismatch; and when the
      period is settled every address has gained exactly its share, once. */
  lemma EveryRunCompletesPeriods(self: Address, issuerAdmin: Address, engineAdmin: Address, earlier: seq<Call>, calls: seq<Call>,
                                 bond: nat, period: nat)
    requires forall i :: 0 <= i < |earlier| ==> HonestCall(earlier[i])
    requires forall i :: 0 <= i < |calls| ==> HonestCall(calls[i])
    requires var s := Run(self, Deployed(issuerAdmin, engineAdmin), earlier);
             && FreshPeriod(s, bond, period) && bond in s.issuer.bonds && AllTrue(s.issuer.bonds[bond], calls, bond, period)
             && |calls| > 0 && Mine(calls[0], bond, period) && Accepted(s, calls[0])
    ensures var s := Run(self, Deployed(issuerAdmin, engineAdmin), earlier);
            var b := s.issuer.bonds[bond];
            && OpenedBy(s, calls[0]).Ok?
            && (forall k :: 1 <= k < |calls| && Mine(calls[k], bond, period) ==>
                  (calls[k].final ==> Covers(b, Supplied(self, s, calls[..k], bond, period) + calls[k].holders)) ==>
                    Outcome(Run(self, s, calls[..k]), calls[k]) != Err(AccountingMismatch))
            && (period in BookIn(Run(self, s, calls), bond).periods ==>
                  && calls[0].reportId in calls[0].oracle
                  && forall a :: Gained(self, s, calls, bond, period, a) == ReportShare(calls[0].oracle[calls[0].reportId], b, a))
  {
    hide Inv, Run, Accepted, OpenedBy, Supplied, AllTrue, Covers, Gained, ReportShare, Outcome, Honest, BookIn, FreshPeriod;
    var d := Deployed(issuerAdmin, engineAdmin);
    DeployedInv(issuerAdmin, engineAdmin);
    RunKeepsInv(self, d, earlier);
    var s := Run(self, d, earlier);
    forall k | 1 <= k < |calls| && Mine(calls[k], bond, period)
      ensures (calls[k].final ==> Covers(s.issuer.bonds[bond], Supplied(self, s, calls[..k], bond, period) + calls[k].holders)) ==>
                Outcome(Run(self, s, calls[..k]), calls[k]) != Err(AccountingMismatch)
    {
      PrefixTrue(s.issuer.bonds[bond], calls, k, bond, period);
      assert calls[..k][0] == calls[0] && forall i :: 0 <= i < k ==> calls[..k][i] == calls[i];
      HolderListCompletesAPeriod(self, s, calls[..k], bond, period, calls[k]);
    }
    PeriodUnderway(self, s, calls, bond, period);
    if period in BookIn(Run(self, s, calls), bond).periods {
      SettledInFull(self, s, calls, bond, period);
    }
  }

  lemma PrefixTrue(b: Issuer.Bond, calls: seq<Call>, k: nat, bond: nat, period: nat)
    requires k < |calls| && AllTrue(b, calls, bond, period)
    ensures AllTrue(b, calls[..k], bond, period)
    ensures Mine(calls[k], bond, period) ==> TruePairs(b, calls[k].holders)
  {
    assert forall i :: 0 <= i < k ==> calls[..k][i] == calls[i];
  }
}
