/** BondIssuer, call by call: exactly when each call is accepted and exactly what it leaves, read off the
    ledger; and over runs, why a bond's total can fall. */
module IssuerRules {
  import opened Host
  import opened Shared
  import opened Issuer

  /** Everything but bond `bond` and the caller's nonce is as before. */
  ghost predicate Elsewhere(s: Storage, t: Storage, bond: nat, caller: Address) {
    && t.admin == s.admin && SpendsNonce(s.nonces, t.nonces, caller)
    && (forall b :: b != bond ==> (b in t.bonds <==> b in s.bonds) && (b in s.bonds ==> t.bonds[b] == s.bonds[b]))
  }

  /** An admin issues a bond with positive figures and a non-empty schedule that ends before a future
      maturity; it gets the next id, the given configuration, and nothing subscribed. */
  lemma IssueRule(s: Storage, now: nat, caller: Address, config: BondConfig, nonce: nat)
    ensures var r := IssueBond(s, now, caller, config, nonce);
            && (r.Ok? <==> && GoodNonce(s.nonces, caller, nonce) && caller == s.admin
                           && config.faceValue > 0 && config.totalSupply > 0 && now < config.maturityDate
                           && |config.couponSchedule| > 0 && (forall d :: d in config.couponSchedule ==> d < config.maturityDate)
                           && s.bondCount < 0xFFFF_FFFF_FFFF_FFFF)
            && (r.Ok? ==>
                  var (t, id) := r.value;
                  && id == s.bondCount + 1 == t.bondCount && t.bondList == s.bondList + [id] && id in t.bonds
                  && t.bonds[id].config == config && t.bonds[id].status == Active && t.bonds[id].createdAt == now
                  && t.bonds[id].totalSubscribed == 0 && t.bonds[id].balances == map[] && t.bonds[id].holders == [] && t.bonds[id].holderCount == 0
                  && Elsewhere(s, t, id, caller))
  {
    NonceRule(s.nonces, caller, nonce, InvalidNonce, Trap);
    hide UseNonce, SpendsNonce, GoodNonce;
    ScheduleMembers(config.couponSchedule, config.maturityDate);
  }

  lemma ScheduleMembers(dates: seq<nat>, maturity: nat)
    ensures (exists i :: 0 <= i < |dates| && dates[i] >= maturity) <==> exists d :: d in dates && d >= maturity
  {
    assert forall i :: 0 <= i < |dates| ==> dates[i] in dates;
  }

  /** What one call did to one bond: each balance, the total and the list, with everything else frozen. */
  ghost predicate Changed(b: Bond, c: Bond, total: int, debited: Address, debit: int, credited: Address, credit: int) {
    && c.config == b.config && c.status == b.status && c.createdAt == b.createdAt && c.totalSubscribed == total
    && (forall a :: Get(c.balances, a) == Get(b.balances, a) - (if a == debited then debit else 0) + (if a == credited then credit else 0))
  }

  /** A credited address joins the list when its balance was zero. */
  ghost predicate Listed(b: Bond, c: Bond, credited: Address) {
    c.holders == (if Get(b.balances, credited) == 0 then b.holders + [credited] else b.holders) && c.holderCount == |c.holders|
  }

  lemma BalanceWithin(s: Storage, bond: nat, a: Address)
    requires Inv(s) && bond in s.bonds
    ensures 0 <= Get(s.bonds[bond].balances, a) <= s.bonds[bond].totalSubscribed <= I128_MAX
    ensures s.bonds[bond].holderCount == |s.bonds[bond].holders|
  {
    assert Backed(s.bonds[bond]);
    SumNonNegative(s.bonds[bond].balances);
  }

  /** Anyone subscribes to an Active bond before its maturity, up to its supply. */
  lemma SubscribeRule(s: Storage, now: nat, investor: Address, bond: nat, amount: int, nonce: nat)
    requires Inv(s)
    ensures var r := Subscribe(s, now, investor, bond, amount, nonce);
            && (r.Ok? <==> && GoodNonce(s.nonces, investor, nonce) && amount > 0 && bond in s.bonds
                           && s.bonds[bond].status == Active && now < s.bonds[bond].config.maturityDate
                           && s.bonds[bond].totalSubscribed + amount <= s.bonds[bond].config.totalSupply
                           && s.bonds[bond].totalSubscribed + amount <= I128_MAX)
            && (r.Ok? ==>
                  var t := r.value.0;
                  && bond in t.bonds && t.bondCount == s.bondCount && t.bondList == s.bondList && Elsewhere(s, t, bond, investor)
                  && Changed(s.bonds[bond], t.bonds[bond], s.bonds[bond].totalSubscribed + amount, investor, 0, investor, amount)
                  && Listed(s.bonds[bond], t.bonds[bond], investor))
  {
    NonceRule(s.nonces, investor, nonce, InvalidNonce, Trap);
    hide UseNonce, SpendsNonce, GoodNonce, Inv;
    if bond in s.bonds {
      BalanceWithin(s, bond, investor);
    }
  }

  /** A holder moves tokens of an Active bond before its maturity, to somebody else. */
  lemma TransferRule(s: Storage, now: nat, from: Address, to: Address, bond: nat, amount: int, nonce: nat)
    requires Inv(s)
    ensures var r := Transfer(s, now, from, to, bond, amount, nonce);
            && (r.Ok? <==> && GoodNonce(s.nonces, from, nonce) && from != to && amount > 0 && bond in s.bonds
                           && s.bonds[bond].status == Active && now < s.bonds[bond].config.maturityDate
                           && amount <= Get(s.bonds[bond].balances, from))
            && (r.Ok? ==>
                  var t := r.value.0;
                  && bond in t.bonds && t.bondCount == s.bondCount && t.bondList == s.bondList && Elsewhere(s, t, bond, from)
                  && Changed(s.bonds[bond], t.bonds[bond], s.bonds[bond].totalSubscribed, from, amount, to, amount)
                  && Listed(s.bonds[bond], t.bonds[bond], to))
  {
    NonceRule(s.nonces, from, nonce, InvalidNonce, Trap);
    hide UseNonce, SpendsNonce, GoodNonce, Inv;
    if bond in s.bonds && from != to {
      BalanceWithin(s, bond, from);
      BalanceWithin(s, bond, to);
      TwoWithin(s, bond, from, to);
    }
  }

  lemma TwoWithin(s: Storage, bond: nat, a: Address, b: Address)
    requires Inv(s) && bond in s.bonds && a != b
    ensures Get(s.bonds[bond].balances, a) + Get(s.bonds[bond].balances, b) <= s.bonds[bond].totalSubscribed
  {
    var m := s.bonds[bond].balances;
    assert Backed(s.bonds[bond]);
    if a in m {
      SumRemove(m, a);
      SumNonNegative(m - {a});
      assert b in m ==> (m - {a})[b] == m[b];
    } else {
      SumNonNegative(m);
    }
  }

  /** A holder redeems tokens of a Matured bond: its balance and the total fall by the amount, nothing else. */
  lemma RedeemRule(s: Storage, holder: Address, bond: nat, amount: int, nonce: nat)
    requires Inv(s)
    ensures var r := Redeem(s, holder, bond, amount, nonce);
            && (r.Ok? <==> && GoodNonce(s.nonces, holder, nonce) && amount > 0 && bond in s.bonds
                           && s.bonds[bond].status == Matured && amount <= Get(s.bonds[bond].balances, holder))
            && (r.Ok? ==>
                  var t := r.value.0;
                  && bond in t.bonds && t.bondCount == s.bondCount && t.bondList == s.bondList && Elsewhere(s, t, bond, holder)
                  && Changed(s.bonds[bond], t.bonds[bond], s.bonds[bond].totalSubscribed - amount, holder, amount, holder, 0)
                  && t.bonds[bond].holders == s.bonds[bond].holders && t.bonds[bond].holderCount == s.bonds[bond].holderCount)
  {
    NonceRule(s.nonces, holder, nonce, InvalidNonce, Trap);
    hide UseNonce, SpendsNonce, GoodNonce, Inv;
    if bond in s.bonds {
      BalanceWithin(s, bond, holder);
    }
  }

  /** The admin matures an Active bond, not before its maturity date; only its status changes. */
  lemma MatureRule(s: Storage, now: nat, caller: Address, bond: nat, nonce: nat)
    ensures var r := MatureBond(s, now, caller, bond, nonce);
            && (r.Ok? <==> && GoodNonce(s.nonces, caller, nonce) && caller == s.admin && bond in s.bonds
                           && s.bonds[bond].status == Active && s.bonds[bond].config.maturityDate <= now)
            && (r.Ok? ==>
                  var t := r.value.0;
                  && bond in t.bonds && t.bondCount == s.bondCount && t.bondList == s.bondList && Elsewhere(s, t, bond, caller)
                  && t.bonds[bond] == s.bonds[bond].(status := Matured))
  {
    NonceRule(s.nonces, caller, nonce, InvalidNonce, Trap);
    hide UseNonce, SpendsNonce, GoodNonce;
  }

  // ----- over runs: totals fall only after maturity -----

  lemma {:induction false} RunSnoc(s: Storage, calls: seq<Call>, n: nat)
    requires n < |calls|
    ensures Run(s, calls[..n + 1]) == Step(Run(s, calls[..n]), calls[n])
    decreases n
  {
    hide Step;
    if n > 0 {
      RunSnoc(Step(s, calls[0]), calls[1..], n - 1);
      assert calls[..n + 1][1..] == calls[1..][..n] && calls[..n][1..] == calls[1..][..n - 1];
    } else {
      assert calls[..1] == [calls[0]] && calls[..1][1..] == [];
    }
  }

  lemma RunInv(admin: Address, calls: seq<Call>)
    ensures Inv(Run(Constructed(admin), calls)) && Run(Constructed(admin), calls).admin == admin
  {
    hide Inv, Run, BondEvolves;
    EveryRunIsBacked(admin, calls);
    ConstructedInv(admin);
    RunEvolves(Constructed(admin), calls, 0);
  }

  lemma ConstructedInv(admin: Address)
    ensures Inv(Constructed(admin))
  {
  }

  /** Call `j` is the admin's accepted maturing of the bond, not before its maturity date. */
  ghost predicate MaturedAt(admin: Address, calls: seq<Call>, j: nat, bond: nat)
    requires j < |calls|
  {
    var s := Run(Constructed(admin), calls[..j]);
    && calls[j].MatureCall? && calls[j].bond == bond && calls[j].caller == admin
    && MatureBond(s, calls[j].now, admin, bond, calls[j].nonce).Ok?
    && bond in s.bonds && s.bonds[bond].status == Active && s.bonds[bond].config.maturityDate <= calls[j].now
  }

  lemma NoneDropped(s: Storage, c: Call, bond: nat)
    requires Inv(s) && bond in s.bonds
    ensures bond in Step(s, c).bonds
  {
    hide Inv, Step, BondEvolves;
    StepIsSafe(s, c);
  }

  /** A bond is Matured only by such a call. */
  lemma StatusStep(s: Storage, c: Call, bond: nat)
    requires Inv(s) && bond in Step(s, c).bonds && Step(s, c).bonds[bond].status == Matured
    ensures || (bond in s.bonds && s.bonds[bond].status == Matured)
            || (c.MatureCall? && c.bond == bond && MatureBond(s, c.now, c.caller, bond, c.nonce).Ok?)
  {
    hide Inv, Redeem, Subscribe, Transfer, IssueBond, MatureBond, Get;
    match c
    case IssueCall(now, caller, config, nonce) => IssueRule(s, now, caller, config, nonce);
    case SubscribeCall(now, caller, b, amount, nonce) => SubscribeRule(s, now, caller, b, amount, nonce);
    case TransferCall(now, caller, to, b, amount, nonce) => TransferRule(s, now, caller, to, b, amount, nonce);
    case RedeemCall(now, caller, b, amount, nonce) => RedeemRule(s, caller, b, amount, nonce);
    case MatureCall(now, caller, b, nonce) => MatureRule(s, now, caller, b, nonce);
  }

  lemma {:induction false} MaturedByAdmin(admin: Address, calls: seq<Call>, n: nat, bond: nat)
    requires n <= |calls| && bond in Run(Constructed(admin), calls[..n]).bonds && Run(Constructed(admin), calls[..n]).bonds[bond].status == Matured
    ensures exists j :: 0 <= j < n && MaturedAt(admin, calls, j, bond)
    decreases n
  {
    hide Inv, Run, Step, MaturedAt, MatureBond;
    if n == 0 {
      NothingIssued(admin, calls);
    } else {
      RunSnoc(Constructed(admin), calls, n - 1);
      RunInv(admin, calls[..n - 1]);
      var s, c := Run(Constructed(admin), calls[..n - 1]), calls[n - 1];
      StatusStep(s, c, bond);
      if bond in s.bonds && s.bonds[bond].status == Matured {
        MaturedByAdmin(admin, calls, n - 1, bond);
      } else {
        MaturedHere(admin, calls, n - 1, bond);
      }
    }
  }

  lemma NothingIssued(admin: Address, calls: seq<Call>)
    ensures Run(Constructed(admin), calls[..0]).bonds == map[]
  {
  }

  lemma MaturedHere(admin: Address, calls: seq<Call>, j: nat, bond: nat)
    requires j < |calls| && calls[j].MatureCall? && calls[j].bond == bond
    requires MatureBond(Run(Constructed(admin), calls[..j]), calls[j].now, calls[j].caller, bond, calls[j].nonce).Ok?
    requires Run(Constructed(admin), calls[..j]).admin == admin
    ensures MaturedAt(admin, calls, j, bond)
  {
    hide Run, MatureBond;
    MatureRule(Run(Constructed(admin), calls[..j]), calls[j].now, calls[j].caller, bond, calls[j].nonce);
  }

  /** A total can only fall by a redemption of a Matured bond. */
  lemma FallStep(s: Storage, c: Call, bond: nat)
    requires Inv(s) && bond in s.bonds && bond in Step(s, c).bonds
    requires Step(s, c).bonds[bond].totalSubscribed < s.bonds[bond].totalSubscribed
    ensures c.RedeemCall? && c.bond == bond && s.bonds[bond].status == Matured
    ensures Step(s, c).bonds[bond].totalSubscribed == s.bonds[bond].totalSubscribed - c.amount
    ensures 0 < c.amount <= Get(s.bonds[bond].balances, c.caller)
  {
    hide Inv, Redeem, Subscribe, Transfer, IssueBond, MatureBond, Get;
    match c
    case IssueCall(now, caller, config, nonce) => IssueRule(s, now, caller, config, nonce); FreshId(s);
    case SubscribeCall(now, caller, b, amount, nonce) => SubscribeRule(s, now, caller, b, amount, nonce);
    case TransferCall(now, caller, to, b, amount, nonce) => TransferRule(s, now, caller, to, b, amount, nonce);
    case RedeemCall(now, caller, b, amount, nonce) => RedeemRule(s, caller, b, amount, nonce);
    case MatureCall(now, caller, b, nonce) => MatureRule(s, now, caller, b, nonce);
  }

  lemma FreshId(s: Storage)
    requires Inv(s)
    ensures s.bondCount + 1 !in s.bonds
  {
  }

  /** Whenever a bond's total falls, a holder is redeeming, and earlier in the run the admin matured the bond
      at a time not before its maturity date. */
  lemma TotalsFallOnlyAfterMaturity(admin: Address, calls: seq<Call>, k: nat, bond: nat)
    requires k < |calls| && bond in Run(Constructed(admin), calls[..k]).bonds
    ensures bond in Run(Constructed(admin), calls[..k + 1]).bonds
    ensures var s, t := Run(Constructed(admin), calls[..k]), Run(Constructed(admin), calls[..k + 1]);
            t.bonds[bond].totalSubscribed < s.bonds[bond].totalSubscribed ==>
              && calls[k].RedeemCall? && calls[k].bond == bond
              && t.bonds[bond].totalSubscribed == s.bonds[bond].totalSubscribed - calls[k].amount
              && exists j :: 0 <= j < k && MaturedAt(admin, calls, j, bond)
  {
    hide Inv, Run, Step, MaturedAt;
    RunSnoc(Constructed(admin), calls, k);
    RunInv(admin, calls[..k]);
    var s := Run(Constructed(admin), calls[..k]);
    NoneDropped(s, calls[k], bond);
    if Step(s, calls[k]).bonds[bond].totalSubscribed < s.bonds[bond].totalSubscribed {
      FallStep(s, calls[k], bond);
      MaturedByAdmin(admin, calls, k, bond);
    }
  }

  /** Why a subscription, a transfer or a redemption is refused, in the order it is checked. */
  lemma Refusals(s: Storage, now: nat, caller: Address, to: Address, bond: nat, amount: int, nonce: nat)
    requires GoodNonce(s.nonces, caller, nonce)
    ensures var r := Subscribe(s, now, caller, bond, amount, nonce);
            if amount <= 0 then r == Err(ZeroAmount)
            else if bond !in s.bonds then r == Err(BondNotFound)
            else if s.bonds[bond].status != Active || s.bonds[bond].config.maturityDate <= now then r == Err(BondAlreadyMatured)
            else Fits(s.bonds[bond].totalSubscribed + amount) && s.bonds[bond].config.totalSupply < s.bonds[bond].totalSubscribed + amount ==>
              r == Err(InsufficientSupply)
    ensures var r := Transfer(s, now, caller, to, bond, amount, nonce);
            if to == caller then r == Err(Unauthorized)
            else if amount <= 0 then r == Err(ZeroAmount)
            else if bond !in s.bonds then r == Err(BondNotFound)
            else if s.bonds[bond].status != Active || s.bonds[bond].config.maturityDate <= now then r == Err(BondAlreadyMatured)
            else Get(s.bonds[bond].balances, caller) < amount ==> r == Err(InsufficientBalance)
    ensures var r := Redeem(s, caller, bond, amount, nonce);
            if amount <= 0 then r == Err(ZeroAmount)
            else if bond !in s.bonds then r == Err(BondNotFound)
            else if s.bonds[bond].status != Matured then r == Err(BondAlreadyMatured)
            else Get(s.bonds[bond].balances, caller) < amount ==> r == Err(InsufficientBalance)
  {
    hide Credit, Moved, Replace;
  }
}
