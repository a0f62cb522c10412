/** contracts/bond-issuer: the supply ledger. `Issuer` holds the storage and one transition per
    entry point, with the supply invariants over every run; `IssuerContract` holds the contract
    object, whose methods are proved against the transitions. */
module Issuer {
  import opened Host
  import opened Shared

  datatype BondError =
    | Unauthorized | InvalidNonce | BondNotFound | BondAlreadyMatured | InsufficientSupply
    | ZeroAmount | Overflow | NotYetMature | MaturityDateInPast | InsufficientBalance | Trap

  /** All storage entries keyed by one bond id. */
  datatype Bond = Bond(
    config: BondConfig,
    totalSubscribed: int,
    status: BondStatus,
    createdAt: nat,
    balances: map<Address, int>,
    holders: seq<Address>,
    holderCount: nat)

  datatype Storage = Storage(
    admin: Address,
    bonds: map<nat, Bond>,
    bondCount: nat,
    bondList: seq<nat>,
    nonces: Nonces)

  function Constructed(admin: Address): Storage {
    Storage(admin, map[], 0, [], map[])
  }

  function BalanceOf(s: Storage, bond: nat, a: Address): int {
    if bond in s.bonds then Get(s.bonds[bond].balances, a) else 0
  }

  // ----- transitions -----

  function IssueBond(s: Storage, now: nat, caller: Address, config: BondConfig, nonce: nat)
    : Result<(Storage, nat), BondError>
  {
    var nonces := UseNonce(s.nonces, caller, nonce, InvalidNonce, Trap);
    if nonces.Err? then Err(nonces.error)
    else if caller != s.admin then Err(Unauthorized)
    else if config.faceValue <= 0 || config.totalSupply <= 0 then Err(ZeroAmount)
    else if config.maturityDate <= now then Err(MaturityDateInPast)
    else if |config.couponSchedule| == 0 then Err(ZeroAmount)
    else if exists i :: 0 <= i < |config.couponSchedule| && config.couponSchedule[i] >= config.maturityDate then Err(ZeroAmount)
    else if s.bondCount >= U64_MAX then Err(Trap)
    else
      var id := s.bondCount + 1;
      Ok((Storage(s.admin, s.bonds[id := Bond(config, 0, Active, now, map[], [], 0)], id, s.bondList + [id], nonces.value), id))
  }

  /** `append_holder`, reached when the credited balance was zero. */
  function WithHolder(b: Bond, holder: Address): Bond {
    b.(holders := b.holders + [holder], holderCount := |b.holders| + 1)
  }

  function Credit(b: Bond, a: Address, amount: int): Bond {
    var before := Get(b.balances, a);
    var credited := b.(balances := b.balances[a := before + amount]);
    if before == 0 then WithHolder(credited, a) else credited
  }

  function Replace(s: Storage, bond: nat, b: Bond, nonces: Nonces): Storage {
    Storage(s.admin, s.bonds[bond := b], s.bondCount, s.bondList, nonces)
  }

  function Subscribe(s: Storage, now: nat, investor: Address, bond: nat, amount: int, nonce: nat)
    : Result<(Storage, ()), BondError>
  {
    var nonces := UseNonce(s.nonces, investor, nonce, InvalidNonce, Trap);
    if nonces.Err? then Err(nonces.error)
    else if amount <= 0 then Err(ZeroAmount)
    else if bond !in s.bonds then Err(BondNotFound)
    else
      var b := s.bonds[bond];
      var total := b.totalSubscribed + amount;
      if b.status != Active || now >= b.config.maturityDate then Err(BondAlreadyMatured)
      else if !Fits(total) then Err(Overflow)
      else if total > b.config.totalSupply then Err(InsufficientSupply)
      else if !Fits(Get(b.balances, investor) + amount) then Err(Overflow)
      else Ok((Replace(s, bond, Credit(b, investor, amount).(totalSubscribed := total), nonces.value), ()))
  }

  function Moved(b: Bond, from: Address, to: Address, amount: int): Bond {
    Credit(b.(balances := b.balances[from := Get(b.balances, from) - amount]), to, amount)
  }

  function Transfer(s: Storage, now: nat, from: Address, to: Address, bond: nat, amount: int, nonce: nat)
    : Result<(Storage, ()), BondError>
  {
    var nonces := UseNonce(s.nonces, from, nonce, InvalidNonce, Trap);
    if nonces.Err? then Err(nonces.error)
    else if to == from then Err(Unauthorized)
    else if amount <= 0 then Err(ZeroAmount)
    else if bond !in s.bonds then Err(BondNotFound)
    else
      var b := s.bonds[bond];
      if b.status != Active || now >= b.config.maturityDate then Err(BondAlreadyMatured)
      else if Get(b.balances, from) < amount then Err(InsufficientBalance)
      else if !Fits(Get(b.balances, to) + amount) then Err(Overflow)
      else Ok((Replace(s, bond, Moved(b, from, to, amount), nonces.value), ()))
  }

  function Redeem(s: Storage, holder: Address, bond: nat, amount: int, nonce: nat): Result<(Storage, ()), BondError> {
    var nonces := UseNonce(s.nonces, holder, nonce, InvalidNonce, Trap);
    if nonces.Err? then Err(nonces.error)
    else if amount <= 0 then Err(ZeroAmount)
    else if bond !in s.bonds then Err(BondNotFound)
    else
      var b := s.bonds[bond];
      if b.status != Matured then Err(BondAlreadyMatured)
      else if Get(b.balances, holder) < amount then Err(InsufficientBalance)
      else if !Fits(b.totalSubscribed - amount) then Err(Overflow)
      else
        var b' := b.(balances := b.balances[holder := Get(b.balances, holder) - amount],
                     totalSubscribed := b.totalSubscribed - amount);
        Ok((Replace(s, bond, b', nonces.value), ()))
  }

  function MatureBond(s: Storage, now: nat, caller: Address, bond: nat, nonce: nat): Result<(Storage, ()), BondError> {
    var nonces := UseNonce(s.nonces, caller, nonce, InvalidNonce, Trap);
    if nonces.Err? then Err(nonces.error)
    else if caller != s.admin then Err(Unauthorized)
    else if bond !in s.bonds then Err(BondNotFound)
    else
      var b := s.bonds[bond];
      if b.status != Active then Err(BondAlreadyMatured)
      else if now < b.config.maturityDate then Err(NotYetMature)
      else Ok((Replace(s, bond, b.(status := Matured), nonces.value), ()))
  }

  // ----- runs -----

  datatype Call =
    | IssueCall(now: nat, caller: Address, config: BondConfig, nonce: nat)
    | SubscribeCall(now: nat, caller: Address, bond: nat, amount: int, nonce: nat)
    | TransferCall(now: nat, caller: Address, to: Address, bond: nat, amount: int, nonce: nat)
    | RedeemCall(now: nat, caller: Address, bond: nat, amount: int, nonce: nat)
    | MatureCall(now: nat, caller: Address, bond: nat, nonce: nat)

  function Step(s: Storage, c: Call): Storage {
    match c
    case IssueCall(now, caller, config, nonce) => Committed(s, IssueBond(s, now, caller, config, nonce))
    case SubscribeCall(now, caller, bond, amount, nonce) => Committed(s, Subscribe(s, now, caller, bond, amount, nonce))
    case TransferCall(now, caller, to, bond, amount, nonce) => Committed(s, Transfer(s, now, caller, to, bond, amount, nonce))
    case RedeemCall(now, caller, bond, amount, nonce) => Committed(s, Redeem(s, caller, bond, amount, nonce))
    case MatureCall(now, caller, bond, nonce) => Committed(s, MatureBond(s, now, caller, bond, nonce))
  }

  function Run(s: Storage, calls: seq<Call>): Storage
    decreases |calls|
  {
    if calls == [] then s else Run(Step(s, calls[0]), calls[1..])
  }

  /** The supply invariant of one bond. The holder list covers every positive balance; it may name
      an address twice, because a drained holder who is refilled is appended again. */
  ghost predicate Backed(b: Bond) {
    && NonNegative(b.balances)
    && Sum(b.balances) == b.totalSubscribed <= b.config.totalSupply
    && b.totalSubscribed <= I128_MAX
    && (forall a :: a in b.balances && b.balances[a] > 0 ==> a in b.holders)
    && b.holderCount == |b.holders|
  }

  ghost predicate Inv(s: Storage) {
    && (forall id :: id in s.bonds <==> 1 <= id <= s.bondCount)
    && s.bondList == seq(s.bondCount, i => i + 1)
    && (forall id :: id in s.bonds ==> Backed(s.bonds[id]))
  }

  /** How the ledger may move at times from `since` on: bonds are never dropped or reconfigured,
      a matured bond stays matured, holder lists only grow, nonces only rise, and a bond whose
      maturity date is not after `since` sees no balance rise. */
  ghost predicate Evolves(s: Storage, t: Storage, since: nat) {
    && s.admin == t.admin
    && (forall id :: id in s.bonds ==> id in t.bonds && BondEvolves(s.bonds[id], t.bonds[id], since))
    && (forall a :: NonceOf(s.nonces, a) <= NonceOf(t.nonces, a))
  }

  ghost predicate BondEvolves(b: Bond, c: Bond, since: nat) {
    && b.config == c.config
    && b.createdAt == c.createdAt
    && (b.status == Matured ==> c.status == Matured)
    && b.holders <= c.holders
    && (b.config.maturityDate <= since ==> forall a :: Get(c.balances, a) <= Get(b.balances, a))
  }

  lemma CreditBacked(b: Bond, a: Address, amount: int)
    requires amount > 0
    requires NonNegative(b.balances)
    requires forall x :: x in b.balances && b.balances[x] > 0 ==> x in b.holders
    requires b.holderCount == |b.holders|
    ensures var c := Credit(b, a, amount);
            && NonNegative(c.balances)
            && Sum(c.balances) == Sum(b.balances) + amount
            && (forall x :: x in c.balances && c.balances[x] > 0 ==> x in c.holders)
            && c.holderCount == |c.holders|
            && b.holders <= c.holders
  {
    SumUpdate(b.balances, a, Get(b.balances, a) + amount);
  }

  lemma TransferBacked(b: Bond, from: Address, to: Address, amount: int)
    requires Backed(b) && from != to && 0 < amount <= Get(b.balances, from)
    ensures Backed(Moved(b, from, to, amount))
  {
    hide Sum;
    SumUpdate(b.balances, from, Get(b.balances, from) - amount);
    CreditBacked(b.(balances := b.balances[from := Get(b.balances, from) - amount]), to, amount);
  }

  /** Rewriting the entries of one bond. */
  lemma ReplaceBond(s: Storage, bond: nat, b: Bond, nonces: Nonces, since: nat)
    requires Inv(s) && bond in s.bonds && Backed(b) && BondEvolves(s.bonds[bond], b, since)
    requires forall a :: NonceOf(s.nonces, a) <= NonceOf(nonces, a)
    ensures var t := Replace(s, bond, b, nonces);
            Inv(t) && Evolves(s, t, since)
  {
    hide Sum, Backed, BondEvolves;
    assert BondEvolves(s.bonds[bond], b, since);
    forall id | id in s.bonds
      ensures BondEvolves(s.bonds[id], if id == bond then b else s.bonds[id], since)
    {
      BondEvolvesSelf(s.bonds[id], since);
    }
  }

  lemma BondEvolvesSelf(b: Bond, since: nat)
    ensures BondEvolves(b, b, since)
  {
  }

  lemma IssueStep(s: Storage, now: nat, caller: Address, config: BondConfig, nonce: nat)
    requires Inv(s) && IssueBond(s, now, caller, config, nonce).Ok?
    ensures var t := IssueBond(s, now, caller, config, nonce).value.0;
            Inv(t) && Evolves(s, t, now)
  {
    assert Sum<Address>(map[]) == 0;
  }

  lemma SubscribeStep(s: Storage, now: nat, investor: Address, bond: nat, amount: int, nonce: nat)
    requires Inv(s) && Subscribe(s, now, investor, bond, amount, nonce).Ok?
    ensures var t := Subscribe(s, now, investor, bond, amount, nonce).value.0;
            Inv(t) && Evolves(s, t, now)
  {
    hide Sum;
    var t := Subscribe(s, now, investor, bond, amount, nonce).value.0;
    CreditBacked(s.bonds[bond], investor, amount);
    ReplaceBond(s, bond, t.bonds[bond], t.nonces, now);
  }

  lemma TransferStep(s: Storage, now: nat, from: Address, to: Address, bond: nat, amount: int, nonce: nat)
    requires Inv(s) && Transfer(s, now, from, to, bond, amount, nonce).Ok?
    ensures var t := Transfer(s, now, from, to, bond, amount, nonce).value.0;
            Inv(t) && Evolves(s, t, now)
  {
    hide Sum;
    var t := Transfer(s, now, from, to, bond, amount, nonce).value.0;
    TransferBacked(s.bonds[bond], from, to, amount);
    ReplaceBond(s, bond, t.bonds[bond], t.nonces, now);
  }

  lemma RedeemStep(s: Storage, now: nat, holder: Address, bond: nat, amount: int, nonce: nat)
    requires Inv(s) && Redeem(s, holder, bond, amount, nonce).Ok?
    ensures var t := Redeem(s, holder, bond, amount, nonce).value.0;
            Inv(t) && Evolves(s, t, now)
  {
    hide Sum;
    var t := Redeem(s, holder, bond, amount, nonce).value.0;
    var b := s.bonds[bond];
    SumUpdate(b.balances, holder, Get(b.balances, holder) - amount);
    ReplaceBond(s, bond, t.bonds[bond], t.nonces, now);
  }

  lemma MatureStep(s: Storage, now: nat, caller: Address, bond: nat, nonce: nat)
    requires Inv(s) && MatureBond(s, now, caller, bond, nonce).Ok?
    ensures var t := MatureBond(s, now, caller, bond, nonce).value.0;
            Inv(t) && Evolves(s, t, now)
  {
    hide Sum;
    var t := MatureBond(s, now, caller, bond, nonce).value.0;
    ReplaceBond(s, bond, t.bonds[bond], t.nonces, now);
  }

  lemma StepIsSafe(s: Storage, c: Call)
    requires Inv(s)
    ensures Inv(Step(s, c)) && Evolves(s, Step(s, c), c.now)
  {
    match c
    case IssueCall(now, caller, config, nonce) =>
      if IssueBond(s, now, caller, config, nonce).Ok? {
        IssueStep(s, now, caller, config, nonce);
      }
    case SubscribeCall(now, caller, bond, amount, nonce) =>
      if Subscribe(s, now, caller, bond, amount, nonce).Ok? {
        SubscribeStep(s, now, caller, bond, amount, nonce);
      }
    case TransferCall(now, caller, to, bond, amount, nonce) =>
      if Transfer(s, now, caller, to, bond, amount, nonce).Ok? {
        TransferStep(s, now, caller, to, bond, amount, nonce);
      }
    case RedeemCall(now, caller, bond, amount, nonce) =>
      if Redeem(s, caller, bond, amount, nonce).Ok? {
        RedeemStep(s, now, caller, bond, amount, nonce);
      }
    case MatureCall(now, caller, bond, nonce) =>
      if MatureBond(s, now, caller, bond, nonce).Ok? {
        MatureStep(s, now, caller, bond, nonce);
      }
  }

  lemma EvolvesWeaken(s: Storage, t: Storage, since: nat, later: nat)
    requires Evolves(s, t, later) && since <= later
    ensures Evolves(s, t, since)
  {
  }

  /** Over every run from deployment: balances are non-negative and add up to the subscribed total,
      which never exceeds the supply; the holder list covers every positive balance; ids are dense. */
  lemma {:induction false} EveryRunIsBacked(admin: Address, calls: seq<Call>)
    ensures Inv(Run(Constructed(admin), calls))
  {
    RunKeepsInv(Constructed(admin), calls);
  }

  lemma {:induction false} RunKeepsInv(s: Storage, calls: seq<Call>)
    requires Inv(s)
    ensures Inv(Run(s, calls))
    decreases |calls|
  {
    if calls != [] {
      StepIsSafe(s, calls[0]);
      RunKeepsInv(Step(s, calls[0]), calls[1..]);
    }
  }

  /** Along every run whose calls happen no earlier than `since`: configurations are frozen,
      maturity is final, no nonce is reused and, once `since` is past a bond's maturity date,
      none of its balances ever rises again. */
  lemma {:induction false} RunEvolves(s: Storage, calls: seq<Call>, since: nat)
    requires Inv(s)
    requires forall i :: 0 <= i < |calls| ==> since <= calls[i].now
    ensures Evolves(s, Run(s, calls), since)
    decreases |calls|
  {
    if calls != [] {
      var m := Step(s, calls[0]);
      StepIsSafe(s, calls[0]);
      EvolvesWeaken(s, m, since, calls[0].now);
      RunEvolves(m, calls[1..], since);
      EvolvesTransitive(s, m, Run(m, calls[1..]), since);
    }
  }

  lemma EvolvesTransitive(s: Storage, m: Storage, t: Storage, since: nat)
    requires Evolves(s, m, since) && Evolves(m, t, since)
    ensures Evolves(s, t, since)
  {
    forall id | id in s.bonds
      ensures id in t.bonds && BondEvolves(s.bonds[id], t.bonds[id], since)
    {
      var b, c, d := s.bonds[id], m.bonds[id], t.bonds[id];
      assert BondEvolves(b, c, since) && BondEvolves(c, d, since);
    }
    forall a
      ensures NonceOf(s.nonces, a) <= NonceOf(t.nonces, a)
    {
      assert NonceOf(s.nonces, a) <= NonceOf(m.nonces, a) <= NonceOf(t.nonces, a);
    }
  }

  lemma MovedReads(b: Bond, from: Address, to: Address, amount: int, a: Address)
    requires from != to
    ensures Get(Moved(b, from, to, amount).balances, a)
         == Get(b.balances, a) + (if a == from then -amount else if a == to then amount else 0)
  {
  }

  /** A transfer moves tokens: it debits the sender, credits the receiver, touches nobody else,
      and leaves the total untouched. */
  lemma TransferMoves(s: Storage, now: nat, from: Address, to: Address, bond: nat, amount: int, nonce: nat)
    requires Inv(s)
    requires Transfer(s, now, from, to, bond, amount, nonce).Ok?
    ensures var t := Transfer(s, now, from, to, bond, amount, nonce).value.0;
            && Inv(t)
            && bond in s.bonds && bond in t.bonds && from != to && amount > 0
            && 0 <= BalanceOf(s, bond, from) - amount
            && (forall b: nat, a :: BalanceOf(t, b, a) == BalanceOf(s, b, a)
                                                     + (if b != bond then 0 else if a == from then -amount else if a == to then amount else 0))
            && Sum(t.bonds[bond].balances) == Sum(s.bonds[bond].balances)
            && t.bonds[bond].totalSubscribed == s.bonds[bond].totalSubscribed
  {
    hide Sum, Moved;
    TransferStep(s, now, from, to, bond, amount, nonce);
    var b := s.bonds[bond];
    var t := Transfer(s, now, from, to, bond, amount, nonce).value.0;
    assert t.bonds[bond] == Moved(b, from, to, amount);
    assert Backed(b) && Backed(t.bonds[bond]);
    assert t.bonds[bond].totalSubscribed == b.totalSubscribed by {
      MovedTotal(b, from, to, amount);
    }
    forall c: nat, a
      ensures BalanceOf(t, c, a) == BalanceOf(s, c, a) + (if c != bond then 0 else if a == from then -amount else if a == to then amount else 0)
    {
      MovedReads(b, from, to, amount, a);
    }
  }

  lemma MovedTotal(b: Bond, from: Address, to: Address, amount: int)
    ensures Moved(b, from, to, amount).totalSubscribed == b.totalSubscribed
  {
  }
}
