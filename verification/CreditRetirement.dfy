/** contracts/credit-retirement: retiring accrued credits against a certificate. The record table is
    the truth; the two index lists and the retired totals are proved to agree with it. */
module Retirement {
  import opened Host
  import opened Shared
  import Issuer
  import Coupon
  import Calendar

  datatype CreditError =
    | InsufficientCredits | InvalidNonce | NotAHolder | InvalidCertificate | InvalidCreditType
    | ProjectMismatch | PeriodNotFound | PeriodNotDistributed | Overflow | Trap

  datatype Record = Record(
    id: nat,
    holder: Address,
    bondId: nat,
    projectId: Hash,
    periodIndex: nat,
    reportId: nat,
    vintageYear: nat,
    vintagePeriodStart: nat,
    vintagePeriodEnd: nat,
    amount: int,
    creditType: CreditType,
    retiredAt: nat,
    certificateHash: Hash)

  datatype Storage = Storage(
    records: map<nat, Record>,
    count: nat,
    holderRetirements: map<Address, seq<nat>>,
    bondHolderRetirements: map<(nat, Address), seq<nat>>,
    retiredCredits: map<Address, int>,
    retiredPerBond: map<(nat, Address), int>,
    nonces: Nonces)

  const EMPTY: Storage := Storage(map[], 0, map[], map[], map[], map[], map[])

  predicate Compatible(bondType: CreditType, supplied: CreditType) {
    match bondType
    case Carbon => supplied == Carbon || supplied == BlueCarbon
    case BlueCarbon => supplied == Carbon || supplied == BlueCarbon
    case Biodiversity => supplied == Biodiversity
    case Basket => supplied == Carbon || supplied == BlueCarbon || supplied == Biodiversity
  }

  /** What a retirement asks for. */
  datatype Request = Request(
    holder: Address,
    bond: nat,
    project: Hash,
    period: nat,
    amount: int,
    creditType: CreditType,
    certificateHash: Hash,
    nonce: nat)

  /** Everything the call checks on the other two contracts before it deducts. */
  function Validate(issuer: Issuer.Storage, engine: Coupon.Storage, q: Request): Result<Coupon.PeriodInfo, CreditError> {
    var book := Coupon.BookOf(engine, q.bond);
    if q.amount <= 0 then Err(InsufficientCredits)
    else if AllZero(q.certificateHash) then Err(InvalidCertificate)
    else if Issuer.BalanceOf(issuer, q.bond, q.holder) <= 0 then Err(NotAHolder)
    else if q.bond !in issuer.bonds then Err(Trap)
    else if issuer.bonds[q.bond].config.projectId != q.project then Err(ProjectMismatch)
    else if !Compatible(issuer.bonds[q.bond].config.creditType, q.creditType) then Err(InvalidCreditType)
    else if q.period !in book.periods then Err(PeriodNotFound)
    else if !book.periods[q.period].distributed then Err(PeriodNotDistributed)
    else if q.amount > Get(book.ledgers.accrued, q.holder) then Err(InsufficientCredits)
    else Ok(book.periods[q.period])
  }

  function RecordFor(id: nat, now: nat, q: Request, info: Coupon.PeriodInfo): Record {
    Record(id, q.holder, q.bond, q.project, q.period, info.reportId,
           Calendar.YearFromTimestamp(info.endTime), info.startTime, info.endTime,
           q.amount, q.creditType, now, q.certificateHash)
  }

  /** Append a record and keep the totals and index lists in step. */
  function Append(s: Storage, r: Record, nonces: Nonces): Storage {
    Storage(s.records[r.id := r],
            r.id,
            s.holderRetirements[r.holder := ListAt(s.holderRetirements, r.holder) + [r.id]],
            s.bondHolderRetirements[(r.bondId, r.holder) := ListAt(s.bondHolderRetirements, (r.bondId, r.holder)) + [r.id]],
            s.retiredCredits[r.holder := Get(s.retiredCredits, r.holder) + r.amount],
            s.retiredPerBond[(r.bondId, r.holder) := Get(s.retiredPerBond, (r.bondId, r.holder)) + r.amount],
            nonces)
  }

  /** `retire_credits`: `self` is this contract's address, the signer of the nested deduct call. */
  function RetireCredits(s: Storage, self: Address, issuer: Issuer.Storage, engine: Coupon.Storage, now: nat, q: Request)
    : Result<((Storage, Coupon.Storage), nat), CreditError>
  {
    var nonces := UseNonce(s.nonces, q.holder, q.nonce, InvalidNonce, Trap);
    if nonces.Err? then Err(nonces.error)
    else
      var period := Validate(issuer, engine, q);
      if period.Err? then Err(period.error)
      else
        var deducted := Coupon.DeductCredits(engine, self, q.bond, q.holder, q.amount, q.creditType);
        if deducted.Err? then Err(InsufficientCredits)
        else if !Fits(Get(s.retiredPerBond, (q.bond, q.holder)) + q.amount) then Err(Trap)
        else if s.count >= U64_MAX then Err(Trap)
        else if !Fits(Get(s.retiredCredits, q.holder) + q.amount) then Err(Overflow)
        else
          var r := RecordFor(s.count + 1, now, q, period.value);
          Ok(((Append(s, r, nonces.value), deducted.value.0), r.id))
  }

  // ----- the record table as the reference -----

  /** Ids up to `n` of one holder's records, in order. */
  function IdsOf(records: map<nat, Record>, n: nat, h: Address): seq<nat> {
    if n == 0 then []
    else if n in records && records[n].holder == h then IdsOf(records, n - 1, h) + [n]
    else IdsOf(records, n - 1, h)
  }

  /** Ids up to `n` of one holder's records on one bond, in order. */
  function IdsOn(records: map<nat, Record>, n: nat, b: nat, h: Address): seq<nat> {
    if n == 0 then []
    else if n in records && records[n].bondId == b && records[n].holder == h then IdsOn(records, n - 1, b, h) + [n]
    else IdsOn(records, n - 1, b, h)
  }

  function AmountOf(records: map<nat, Record>, n: nat, h: Address): int {
    if n == 0 then 0
    else AmountOf(records, n - 1, h) + (if n in records && records[n].holder == h then records[n].amount else 0)
  }

  function AmountOn(records: map<nat, Record>, n: nat, b: nat, h: Address): int {
    if n == 0 then 0
    else AmountOn(records, n - 1, b, h) + (if n in records && records[n].bondId == b && records[n].holder == h then records[n].amount else 0)
  }

  /** Ids are exactly 1..count, indexes are the ordered filters of the table, totals its sums. */
  ghost predicate Inv(s: Storage) {
    && (forall id :: id in s.records <==> 1 <= id <= s.count)
    && (forall id :: id in s.records ==> s.records[id].id == id && s.records[id].amount > 0)
    && (forall h :: ListAt(s.holderRetirements, h) == IdsOf(s.records, s.count, h))
    && (forall b: nat, h :: ListAt(s.bondHolderRetirements, (b, h)) == IdsOn(s.records, s.count, b, h))
    && (forall h :: Get(s.retiredCredits, h) == AmountOf(s.records, s.count, h))
    && (forall b: nat, h :: Get(s.retiredPerBond, (b, h)) == AmountOn(s.records, s.count, b, h))
  }

  /** A new record with a higher id does not disturb the filters and sums below it. */
  lemma {:induction false} FiltersBelow(records: map<nat, Record>, n: nat, r: Record, b: nat, h: Address)
    requires r.id > n
    ensures IdsOf(records[r.id := r], n, h) == IdsOf(records, n, h)
    ensures IdsOn(records[r.id := r], n, b, h) == IdsOn(records, n, b, h)
    ensures AmountOf(records[r.id := r], n, h) == AmountOf(records, n, h)
    ensures AmountOn(records[r.id := r], n, b, h) == AmountOn(records, n, b, h)
    decreases n
  {
    if n > 0 {
      FiltersBelow(records, n - 1, r, b, h);
    }
  }

  /** The index entries and totals of one holder on one bond agree with the table. */
  ghost predicate Agrees(s: Storage, b: nat, h: Address) {
    && ListAt(s.holderRetirements, h) == IdsOf(s.records, s.count, h)
    && ListAt(s.bondHolderRetirements, (b, h)) == IdsOn(s.records, s.count, b, h)
    && Get(s.retiredCredits, h) == AmountOf(s.records, s.count, h)
    && Get(s.retiredPerBond, (b, h)) == AmountOn(s.records, s.count, b, h)
  }

  lemma AppendAgrees(s: Storage, r: Record, nonces: Nonces, b: nat, h: Address)
    requires Agrees(s, b, h) && r.id == s.count + 1
    ensures Agrees(Append(s, r, nonces), b, h)
  {
    FiltersBelow(s.records, s.count, r, b, h);
  }

  lemma AppendKeepsInv(s: Storage, r: Record, nonces: Nonces)
    requires Inv(s) && r.id == s.count + 1 && r.amount > 0
    ensures Inv(Append(s, r, nonces))
    ensures r.id !in s.records && (forall k :: k in s.records ==> k in Append(s, r, nonces).records && Append(s, r, nonces).records[k] == s.records[k])
  {
    var t := Append(s, r, nonces);
    forall b: nat, h
      ensures Agrees(t, b, h)
    {
      assert Agrees(s, b, h);
      AppendAgrees(s, r, nonces, b, h);
    }
    assert (forall h :: ListAt(t.holderRetirements, h) == IdsOf(t.records, t.count, h)
                        && Get(t.retiredCredits, h) == AmountOf(t.records, t.count, h)) by {
      forall h
        ensures ListAt(t.holderRetirements, h) == IdsOf(t.records, t.count, h)
        ensures Get(t.retiredCredits, h) == AmountOf(t.records, t.count, h)
      {
        assert Agrees(t, 0, h);
      }
    }
    assert (forall b: nat, h :: ListAt(t.bondHolderRetirements, (b, h)) == IdsOn(t.records, t.count, b, h)
                                && Get(t.retiredPerBond, (b, h)) == AmountOn(t.records, t.count, b, h)) by {
      forall b: nat, h
        ensures ListAt(t.bondHolderRetirements, (b, h)) == IdsOn(t.records, t.count, b, h)
        ensures Get(t.retiredPerBond, (b, h)) == AmountOn(t.records, t.count, b, h)
      {
        assert Agrees(t, b, h);
      }
    }
  }

  /** The certificate of a retirement: what the holder asked for, when the call was made, and the report and
      window of the engine's settled period; its vintage is the Gregorian year of the day the window ends. */
  ghost predicate Certifies(r: Record, id: nat, q: Request, now: nat, info: Coupon.PeriodInfo) {
    && r.id == id && r.holder == q.holder && r.bondId == q.bond && r.projectId == q.project && r.periodIndex == q.period
    && r.amount == q.amount && r.creditType == q.creditType && r.certificateHash == q.certificateHash && r.retiredAt == now
    && r.reportId == info.reportId && r.vintagePeriodStart == info.startTime && r.vintagePeriodEnd == info.endTime
    && Vintage(r.vintageYear, info.endTime)
  }

  /** The year whose January 1 is at or before the day of a timestamp and whose next January 1 is after it. */
  ghost predicate Vintage(year: nat, timestamp: nat) {
    forall y :: 1970 <= y < 0x1_0000_0000 && Calendar.NewYear(y) <= timestamp / 86_400 < Calendar.NewYear(y + 1) ==> year == y
  }

  lemma VintageYear(timestamp: nat)
    ensures Vintage(Calendar.YearFromTimestamp(timestamp), timestamp)
  {
    hide Calendar.YearFromTimestamp, Calendar.NewYear;
    forall y | 1970 <= y < 0x1_0000_0000 && Calendar.NewYear(y) <= timestamp / 86_400 < Calendar.NewYear(y + 1)
      ensures Calendar.YearFromTimestamp(timestamp) == y
    {
      Calendar.YearIsUnique(timestamp, y);
    }
  }

  lemma RecordCertifies(id: nat, now: nat, q: Request, info: Coupon.PeriodInfo)
    ensures Certifies(RecordFor(id, now, q, info), id, q, now, info)
  {
    hide Calendar.YearFromTimestamp, Vintage;
    VintageYear(info.endTime);
  }

  /** A retirement appends exactly one record, overwrites none, and deducts the same amount from the
      holder's accrued credits in the engine. The record certifies the request and the settled period. */
  lemma RetireEffect(s: Storage, self: Address, issuer: Issuer.Storage, engine: Coupon.Storage, now: nat, q: Request)
    requires Inv(s) && RetireCredits(s, self, issuer, engine, now, q).Ok?
    ensures var ((t, e), id) := RetireCredits(s, self, issuer, engine, now, q).value;
            var d := Coupon.DeductCredits(engine, self, q.bond, q.holder, q.amount, q.creditType);
            && Inv(t)
            && id == s.count + 1 && id !in s.records && id in t.records
            && (forall k :: k in s.records ==> k in t.records && t.records[k] == s.records[k])
            && t.records == s.records[id := t.records[id]] && q.amount > 0
            && q.period in Coupon.BookOf(engine, q.bond).periods && Coupon.BookOf(engine, q.bond).periods[q.period].distributed
            && Certifies(t.records[id], id, q, now, Coupon.BookOf(engine, q.bond).periods[q.period])
            && d.Ok? && e == d.value.0
            && t.retiredPerBond == s.retiredPerBond[(q.bond, q.holder) := Get(s.retiredPerBond, (q.bond, q.holder)) + q.amount]
  {
    hide Inv, Coupon.DeductCredits, Calendar.YearFromTimestamp, Certifies;
    RecordCertifies(s.count + 1, now, q, Validate(issuer, engine, q).value);
    var r := RecordFor(s.count + 1, now, q, Validate(issuer, engine, q).value);
    AppendKeepsInv(s, r, UseNonce(s.nonces, q.holder, q.nonce, InvalidNonce, Trap).value);
  }
}
