/** CouponEngine's calls other than distribution: exactly when each is accepted and exactly what it leaves. */
module CouponRules {
  import opened Host
  import opened Shared
  import opened Coupon
  import opened CouponBatches
  import opened CouponPeriods
  import opened CouponLedger
  import Issuer

  /** Every other bond's book, the admin and the deduct caller are as before. */
  ghost predicate OtherBooks(s: Storage, t: Storage, bond: nat) {
    && t.admin == s.admin && t.deductCaller == s.deductCaller
    && forall b: nat :: b != bond ==> BookOf(t, b) == BookOf(s, b)
  }

  /** Nothing of a book but its balances and pools is touched. */
  ghost predicate SameHistory(b: Book, c: Book) {
    && c.project == b.project && c.creditType == b.creditType && c.periods == b.periods && c.periodCount == b.periodCount
    && c.batches == b.batches && c.snapshots == b.snapshots && c.paid == b.paid
  }

  /** One address's three balances move by the given amounts and nobody else's move. */
  ghost predicate BalancesMove(b: Book, c: Book, a: Address, carbon: int, bio: int) {
    forall x ::
      && Get(c.ledgers.carbon, x) == Get(b.ledgers.carbon, x) + (if x == a then carbon else 0)
      && Get(c.ledgers.bio, x) == Get(b.ledgers.bio, x) + (if x == a then bio else 0)
      && Get(c.ledgers.accrued, x) == Get(b.ledgers.accrued, x) + (if x == a then carbon + bio else 0)
  }

  /** The admin registers a bond the issuer knows, for its own project, once the project is approved. */
  lemma RegisterRule(s: Storage, issuer: Issuer.Storage, status: Option<ProjectStatus>, caller: Address, bond: nat, project: Hash, nonce: nat)
    ensures var r := RegisterBond(s, issuer, status, caller, bond, project, nonce);
            && (r.Ok? <==> && GoodNonce(s.nonces, caller, nonce) && caller == s.admin && bond in issuer.bonds
                           && issuer.bonds[bond].config.projectId == project && status == Some(Approved))
            && (r.Ok? ==>
                  var t := r.value.0;
                  && OtherBooks(s, t, bond) && SpendsNonce(s.nonces, t.nonces, caller)
                  && BookOf(t, bond) == BookOf(s, bond).(project := Some(project), creditType := Some(issuer.bonds[bond].config.creditType)))
  {
    NonceRule(s.nonces, caller, nonce, InvalidNonce, Trap);
    hide UseNonce, SpendsNonce, GoodNonce;
  }

  lemma DeductCallerRule(s: Storage, caller: Address, deductCaller: Address, nonce: nat)
    ensures var r := RegisterDeductCaller(s, caller, deductCaller, nonce);
            && (r.Ok? <==> GoodNonce(s.nonces, caller, nonce) && caller == s.admin)
            && (r.Ok? ==>
                  var t := r.value.0;
                  t.admin == s.admin && t.books == s.books && t.deductCaller == Some(deductCaller) && SpendsNonce(s.nonces, t.nonces, caller))
  {
    NonceRule(s.nonces, caller, nonce, InvalidNonce, Trap);
    hide UseNonce, SpendsNonce, GoodNonce;
  }

  lemma ClaimedBook(book: Book, caller: Address)
    requires BookOk(book)
    ensures ClaimBook(book, caller).Ok?
    ensures var (after, amount) := ClaimBook(book, caller).value;
            && amount == Get(book.ledgers.accrued, caller)
            && SameHistory(book, after) && after.pools == book.pools
            && BalancesMove(book, after, caller, -Get(book.ledgers.carbon, caller), -Get(book.ledgers.bio, caller))
  {
    hide PeriodsOk, PoolsAddUp, Breakdown, Cleared, OnType;
    ClearedReads(book, caller, Get(book.ledgers.accrued, caller));
    assert SoundAt(book.ledgers, caller);
    hide ClaimBook, Sound;
  }

  /** Anyone with the right nonce claims, and receives, the whole of its accrued balance on the bond; its
      three balances go to zero and nothing else moves. */
  lemma ClaimRule(s: Storage, caller: Address, bond: nat, nonce: nat)
    requires BookOk(BookOf(s, bond))
    ensures var r, book := ClaimCredits(s, caller, bond, nonce), BookOf(s, bond);
            && (r.Ok? <==> GoodNonce(s.nonces, caller, nonce))
            && (r.Ok? ==>
                  var (t, amount) := r.value;
                  && amount == Get(book.ledgers.accrued, caller) && OtherBooks(s, t, bond) && SpendsNonce(s.nonces, t.nonces, caller)
                  && SameHistory(book, BookOf(t, bond)) && BookOf(t, bond).pools == book.pools
                  && BalancesMove(book, BookOf(t, bond), caller, -Get(book.ledgers.carbon, caller), -Get(book.ledgers.bio, caller)))
  {
    NonceRule(s.nonces, caller, nonce, InvalidNonce, Trap);
    hide UseNonce, SpendsNonce, GoodNonce, ClaimBook, BookOk, BalancesMove;
    ClaimedBook(BookOf(s, bond), caller);
  }

  /** Both pools went to the destination in full, and the receipt says so. */
  ghost predicate Swept(book: Book, after: Book, bond: nat, destination: Address, receipt: SweepReceipt) {
    && receipt == SweepReceipt(bond, destination, book.pools.total, book.pools.carbon, book.pools.bio)
    && SameHistory(book, after) && after.pools == Pools(0, 0, 0)
    && BalancesMove(book, after, destination, book.pools.carbon, book.pools.bio)
  }

  lemma SweptBook(book: Book, bond: nat, destination: Address)
    requires BookOk(book)
    ensures SweepBook(book, bond, destination).Ok? <==> Get(book.ledgers.accrued, destination) + book.pools.total <= I128_MAX
    ensures SweepBook(book, bond, destination).Ok? ==>
              Swept(book, SweepBook(book, bond, destination).value.0, bond, destination, SweepBook(book, bond, destination).value.1)
  {
    hide PeriodsOk, OnType;
    assert SoundAt(book.ledgers, destination);
    hide Sound;
    SweepSplits(book, bond, destination);
    var due := Due(0, book.pools.carbon, book.pools.bio);
    SweptFits(book, bond, destination);
    forall a
      ensures Get(Credit(book.ledgers, destination, due).carbon, a) == Get(book.ledgers.carbon, a) + (if a == destination then due.carbon else 0)
      ensures Get(Credit(book.ledgers, destination, due).bio, a) == Get(book.ledgers.bio, a) + (if a == destination then due.bio else 0)
      ensures Get(Credit(book.ledgers, destination, due).accrued, a)
              == Get(book.ledgers.accrued, a) + (if a == destination then due.carbon + due.bio else 0)
    {
      CreditReads(book.ledgers, destination, due, a);
    }
    hide SweepBook, Credit, CreditFits;
  }

  lemma SweptFits(book: Book, bond: nat, destination: Address)
    requires PoolsAddUp(book.pools) && SoundAt(book.ledgers, destination)
    ensures SweepBook(book, bond, destination).Ok? <==> Get(book.ledgers.accrued, destination) + book.pools.total <= I128_MAX
  {
    hide CreditSides;
    CreditFitsIff(book.ledgers, destination, Due(0, book.pools.carbon, book.pools.bio));
  }

  /** A sweep of this book is possible: the destination's balance has room for both pools. */
  ghost predicate SweepFits(s: Storage, bond: nat, destination: Address) {
    Get(BookOf(s, bond).ledgers.accrued, destination) + BookOf(s, bond).pools.total <= I128_MAX
  }

  /** A sweep's outcome, read off the two storages. */
  ghost predicate SweepLeaves(s: Storage, t: Storage, caller: Address, bond: nat, destination: Address, receipt: SweepReceipt) {
    && OtherBooks(s, t, bond) && SpendsNonce(s.nonces, t.nonces, caller)
    && Swept(BookOf(s, bond), BookOf(t, bond), bond, destination, receipt)
  }

  /** The admin sweeps both dust pools, in full, to one address, exactly when its balance has room. */
  lemma SweepRule(s: Storage, caller: Address, bond: nat, destination: Address, nonce: nat, r: Result<(Storage, SweepReceipt), Error>)
    requires BookOk(BookOf(s, bond)) && r == SweepUndistributed(s, caller, bond, destination, nonce)
    ensures r.Ok? <==> GoodNonce(s.nonces, caller, nonce) && caller == s.admin && SweepFits(s, bond, destination)
    ensures r.Ok? ==> SweepLeaves(s, r.value.0, caller, bond, destination, r.value.1)
  {
    NonceRule(s.nonces, caller, nonce, InvalidNonce, Trap);
    hide UseNonce, SpendsNonce, GoodNonce, SweepBook, BookOk, Swept;
    SweptBook(BookOf(s, bond), bond, destination);
  }

  /** The registered caller deducts from the side the credit type is kept on: carbon for Carbon and BlueCarbon,
      biodiversity for Biodiversity, and never a Basket. */
  lemma DeductRule(s: Storage, signer: Address, bond: nat, holder: Address, amount: int, t: CreditType)
    requires Sound(BookOf(s, bond).ledgers)
    ensures var r, book := DeductCredits(s, signer, bond, holder, amount, t), BookOf(s, bond);
            && (r.Ok? <==> && s.deductCaller == Some(signer) && amount > 0 && t != Basket
                           && amount <= (if t == Biodiversity then Get(book.ledgers.bio, holder) else Get(book.ledgers.carbon, holder)))
            && (r.Ok? ==>
                  var (u, left) := r.value;
                  && left == Get(book.ledgers.accrued, holder) - amount && OtherBooks(s, u, bond) && u.nonces == s.nonces
                  && SameHistory(book, BookOf(u, bond)) && BookOf(u, bond).pools == book.pools
                  && BalancesMove(book, BookOf(u, bond), holder,
                                  if t == Biodiversity then 0 else -amount, if t == Biodiversity then -amount else 0))
  {
    assert SoundAt(BookOf(s, bond).ledgers, holder);
    hide Sound;
  }

  /** Why a batch is refused before anybody is paid, in the order it is checked. */
  lemma BatchRefusals(s: Storage, issuer: Issuer.Storage, oracle: Oracle, caller: Address, bond: nat, period: nat, holders: Holders,
                      reportId: nat, nonce: nat, final: bool)
    ensures var r, book := DistributeCoupon(s, issuer, oracle, caller, bond, period, holders, reportId, nonce, final), BookOf(s, bond);
            if nonce != NonceOf(s.nonces, caller) then r == Err(InvalidNonce)
            else if nonce < 0xFFFF_FFFF_FFFF_FFFF then
              if caller != s.admin then r == Err(Unauthorized)
              else if period in book.periods && book.periods[period].distributed then r == Err(PeriodAlreadyDistributed)
              else if book.project.None? || book.creditType.None? then r == Err(BondNotFound)
              else if period in book.batches then book.batches[period].reportId != reportId ==> r == Err(InvalidReport)
              else reportId in oracle ==>
                if oracle[reportId].status != Verified then r == Err(ReportNotVerified)
                else if oracle[reportId].projectHash != book.project.value then r == Err(BondNotFound)
                else bond in issuer.bonds && PaysBiodiversity(book.creditType.value) && oracle[reportId].biodiversity.Absent? ==> r == Err(InvalidReport)
            else r.Err?
  {
    hide RunBatch, OpenWith, BiodiversityCredits;
  }
}
