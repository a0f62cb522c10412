/** The CreditRetirement contract object, wired to the BondIssuer and CouponEngine objects it calls. */
module RetirementContract {
  import opened Host
  import opened Retirement
  import Calendar
  import Coupon
  import opened IssuerContract
  import opened CouponContract

  /** One holder's records on one bond with ids up to `n`, by scanning the whole table. A certificate
      carries exactly the fields of its record. */
  function RecordsOn(records: map<nat, Record>, n: nat, b: nat, h: Address): seq<Record> {
    if n == 0 then []
    else if n in records && records[n].bondId == b && records[n].holder == h then RecordsOn(records, n - 1, b, h) + [records[n]]
    else RecordsOn(records, n - 1, b, h)
  }

  /** The records behind a list of ids; ids without a record are skipped. */
  function Lookup(records: map<nat, Record>, ids: seq<nat>): seq<Record> {
    if ids == [] then []
    else
      var n := |ids| - 1;
      Lookup(records, ids[..n]) + if ids[n] in records then [records[ids[n]]] else []
  }

  lemma {:induction false} IndexIsScan(records: map<nat, Record>, n: nat, b: nat, h: Address)
    ensures Lookup(records, IdsOn(records, n, b, h)) == RecordsOn(records, n, b, h)
  {
    if n > 0 {
      IndexIsScan(records, n - 1, b, h);
      var ids := IdsOn(records, n - 1, b, h);
      assert (ids + [n])[..|ids|] == ids;
    }
  }

  lemma LookupStep(records: map<nat, Record>, ids: seq<nat>, n: nat)
    requires n < |ids|
    ensures Lookup(records, ids[..n + 1]) == Lookup(records, ids[..n]) + if ids[n] in records then [records[ids[n]]] else []
  {
    assert ids[..n + 1][..n] == ids[..n];
  }

  /** Write a record, then its totals and index entries. */
  method WriteRecord(s0: Storage, r: Record) returns (written: Result<Storage, CreditError>)
    ensures written == if Fits(Get(s0.retiredCredits, r.holder) + r.amount) then Ok(Append(s0, r, s0.nonces)) else Err(Overflow)
  {
    var s := s0;
    var key := (r.bondId, r.holder);
    s := s.(retiredPerBond := s.retiredPerBond[key := Get(s.retiredPerBond, key) + r.amount]);
    s := s.(count := r.id);
    s := s.(records := s.records[r.id := r]);
    var retired := Get(s.retiredCredits, r.holder);
    if !Fits(retired + r.amount) { return Err(Overflow); }
    s := s.(retiredCredits := s.retiredCredits[r.holder := retired + r.amount]);
    s := s.(holderRetirements := s.holderRetirements[r.holder := ListAt(s.holderRetirements, r.holder) + [r.id]]);
    s := s.(bondHolderRetirements := s.bondHolderRetirements[key := ListAt(s.bondHolderRetirements, key) + [r.id]]);
    return Ok(s);
  }

  lemma NoncesAside(s: Storage, r: Record, nonces: Nonces)
    ensures Append(s.(nonces := nonces), r, nonces) == Append(s, r, nonces)
  {
  }

  class CreditRetirement {
    var storage: Storage
    const self: Address
    const issuer: BondIssuer
    const engine: CouponEngine

    constructor (self: Address, issuer: BondIssuer, engine: CouponEngine)
      ensures storage == EMPTY && this.self == self && this.issuer == issuer && this.engine == engine
    {
      storage := EMPTY;
      this.self := self;
      this.issuer := issuer;
      this.engine := engine;
    }

    /** The nested deduction is undone with everything else when a later step fails. */
    method RetireCredits(now: nat, q: Request) returns (r: Result<nat, CreditError>)
      modifies this, engine
      ensures Settles(Retirement.RetireCredits(old(storage), self, issuer.storage, old(engine.storage), now, q),
                      (old(storage), old(engine.storage)), (storage, engine.storage), r)
    {
      hide Calendar.YearFromTimestamp, Coupon.DeductCredits, AllZero, Compatible, Validate, Append;
      var s := storage;
      var before := engine.storage;
      if q.nonce != NonceOf(s.nonces, q.holder) { return Err(InvalidNonce); }
      if q.nonce >= U64_MAX { return Err(Trap); }
      s := s.(nonces := s.nonces[q.holder := q.nonce + 1]);
      var period := Validate(issuer.storage, before, q);
      if period.Err? { return Err(period.error); }
      var deducted := engine.DeductCredits(self, q.bond, q.holder, q.amount, q.creditType);
      if deducted.Err? { return Err(InsufficientCredits); }
      var key := (q.bond, q.holder);
      var already := Get(s.retiredPerBond, key);
      if !Fits(already + q.amount) || s.count >= U64_MAX {
        engine.storage := before;
        return Err(Trap);
      }
      var id := s.count + 1;
      NoncesAside(storage, RecordFor(id, now, q, period.value), s.nonces);
      var written := WriteRecord(s, RecordFor(id, now, q, period.value));
      if written.Err? {
        engine.storage := before;
        return Err(written.error);
      }
      storage := written.value;
      return Ok(id);
    }

    /** Reading through the index finds exactly what a scan of the record table finds. */
    method GetBondCertificates(bond: nat, holder: Address) returns (certificates: seq<Record>)
      requires Inv(storage)
      ensures certificates == RecordsOn(storage.records, storage.count, bond, holder)
    {
      hide Lookup, RecordsOn;
      var ids := ListAt(storage.bondHolderRetirements, (bond, holder));
      IndexIsScan(storage.records, storage.count, bond, holder);
      certificates := [];
      NoIds(storage.records, ids);
      for n := 0 to |ids|
        invariant certificates == Lookup(storage.records, ids[..n])
      {
        LookupStep(storage.records, ids, n);
        if ids[n] in storage.records {
          certificates := certificates + [storage.records[ids[n]]];
        }
      }
      assert ids[..|ids|] == ids;
    }
  }

  lemma NoIds(records: map<nat, Record>, ids: seq<nat>)
    ensures Lookup(records, ids[..0]) == []
  {
  }
}
