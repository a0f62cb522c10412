/** The BondIssuer contract object: entry points that update storage step by step, each proved against
    its transition. Storage is committed only when a call succeeds. */
module IssuerContract {
  import opened Host
  import opened Shared
  import Issuer

  /** What every call keeps: the supply invariant and everything that must not change; and what a transfer moves. */
  lemma SafeCall(s: Issuer.Storage, c: Issuer.Call)
    ensures Issuer.Inv(s) ==> Issuer.Inv(Issuer.Step(s, c)) && Issuer.Evolves(s, Issuer.Step(s, c), c.now)
    ensures c.TransferCall? && Issuer.Inv(s) && Issuer.Transfer(s, c.now, c.caller, c.to, c.bond, c.amount, c.nonce).Ok? ==>
              forall b: nat, a :: Issuer.BalanceOf(Issuer.Step(s, c), b, a) == Issuer.BalanceOf(s, b, a)
                                    + (if b != c.bond then 0 else if a == c.caller then -c.amount else if a == c.to then c.amount else 0)
  {
    hide Issuer.Inv, Issuer.Evolves, Issuer.BalanceOf;
    if Issuer.Inv(s) {
      Issuer.StepIsSafe(s, c);
      if c.TransferCall? && Issuer.Transfer(s, c.now, c.caller, c.to, c.bond, c.amount, c.nonce).Ok? {
        Issuer.TransferMoves(s, c.now, c.caller, c.to, c.bond, c.amount, c.nonce);
      }
    }
  }

  class BondIssuer {
    var storage: Issuer.Storage

    constructor (admin: Address)
      ensures storage == Issuer.Constructed(admin)
    {
      storage := Issuer.Storage(admin, map[], 0, [], map[]);
    }

    method IssueBond(now: nat, caller: Address, config: BondConfig, nonce: nat) returns (r: Result<nat, Issuer.BondError>)
      modifies this
      ensures Settles(Issuer.IssueBond(old(storage), now, caller, config, nonce), old(storage), storage, r)
      ensures Issuer.Inv(old(storage)) ==> Issuer.Inv(storage) && Issuer.Evolves(old(storage), storage, now)
    {
      SafeCall(storage, Issuer.IssueCall(now, caller, config, nonce));
      hide Issuer.Inv, Issuer.Evolves;
      var s := storage;
      if nonce != NonceOf(s.nonces, caller) { return Err(Issuer.InvalidNonce); }
      if nonce >= U64_MAX { return Err(Issuer.Trap); }
      s := s.(nonces := s.nonces[caller := nonce + 1]);
      if caller != s.admin { return Err(Issuer.Unauthorized); }
      if config.faceValue <= 0 { return Err(Issuer.ZeroAmount); }
      if config.totalSupply <= 0 { return Err(Issuer.ZeroAmount); }
      if config.maturityDate <= now { return Err(Issuer.MaturityDateInPast); }
      var length := |config.couponSchedule|;
      if length == 0 { return Err(Issuer.ZeroAmount); }
      for i := 0 to length
        invariant forall j :: 0 <= j < i ==> config.couponSchedule[j] < config.maturityDate
      {
        if config.couponSchedule[i] >= config.maturityDate { return Err(Issuer.ZeroAmount); }
      }
      if s.bondCount >= U64_MAX { return Err(Issuer.Trap); }
      var id := s.bondCount + 1;
      s := s.(bondCount := id);
      s := s.(bonds := s.bonds[id := Issuer.Bond(config, 0, Active, now, map[], [], 0)]);
      s := s.(bondList := s.bondList + [id]);
      storage := s;
      return Ok(id);
    }

    method Subscribe(now: nat, investor: Address, bond: nat, amount: int, nonce: nat) returns (r: Result<(), Issuer.BondError>)
      modifies this
      ensures Settles(Issuer.Subscribe(old(storage), now, investor, bond, amount, nonce), old(storage), storage, r)
      ensures Issuer.Inv(old(storage)) ==> Issuer.Inv(storage) && Issuer.Evolves(old(storage), storage, now)
    {
      SafeCall(storage, Issuer.SubscribeCall(now, investor, bond, amount, nonce));
      hide Issuer.Inv, Issuer.Evolves;
      var s := storage;
      if nonce != NonceOf(s.nonces, investor) { return Err(Issuer.InvalidNonce); }
      if nonce >= U64_MAX { return Err(Issuer.Trap); }
      s := s.(nonces := s.nonces[investor := nonce + 1]);
      if amount <= 0 { return Err(Issuer.ZeroAmount); }
      if bond !in s.bonds { return Err(Issuer.BondNotFound); }
      var state := s.bonds[bond];
      if state.status != Active { return Err(Issuer.BondAlreadyMatured); }
      if now >= state.config.maturityDate { return Err(Issuer.BondAlreadyMatured); }
      var newTotal := state.totalSubscribed + amount;
      if !Fits(newTotal) { return Err(Issuer.Overflow); }
      if newTotal > state.config.totalSupply { return Err(Issuer.InsufficientSupply); }
      var current := Get(state.balances, investor);
      if !Fits(current + amount) { return Err(Issuer.Overflow); }
      state := state.(balances := state.balances[investor := current + amount]);
      if current == 0 {
        state := AppendHolder(state, investor);
      }
      state := state.(totalSubscribed := newTotal);
      s := s.(bonds := s.bonds[bond := state]);
      storage := s;
      return Ok(());
    }

    /** `append_holder`: the list grows by one and the stored count is its length. */
    static method AppendHolder(state: Issuer.Bond, holder: Address) returns (r: Issuer.Bond)
      ensures r == Issuer.WithHolder(state, holder)
    {
      var holders := state.holders + [holder];
      r := state.(holders := holders, holderCount := |holders|);
    }

    method Transfer(now: nat, from: Address, to: Address, bond: nat, amount: int, nonce: nat) returns (r: Result<(), Issuer.BondError>)
      modifies this
      ensures Settles(Issuer.Transfer(old(storage), now, from, to, bond, amount, nonce), old(storage), storage, r)
      ensures Issuer.Inv(old(storage)) ==> Issuer.Inv(storage) && Issuer.Evolves(old(storage), storage, now)
      ensures r.Ok? && Issuer.Inv(old(storage)) ==>
                forall b: nat, a :: Issuer.BalanceOf(storage, b, a) == Issuer.BalanceOf(old(storage), b, a)
                                      + (if b != bond then 0 else if a == from then -amount else if a == to then amount else 0)
    {
      SafeCall(storage, Issuer.TransferCall(now, from, to, bond, amount, nonce));
      hide Issuer.Inv, Issuer.Evolves, Issuer.BalanceOf;
      var s := storage;
      if nonce != NonceOf(s.nonces, from) { return Err(Issuer.InvalidNonce); }
      if nonce >= U64_MAX { return Err(Issuer.Trap); }
      s := s.(nonces := s.nonces[from := nonce + 1]);
      if to == from { return Err(Issuer.Unauthorized); }
      if amount <= 0 { return Err(Issuer.ZeroAmount); }
      if bond !in s.bonds { return Err(Issuer.BondNotFound); }
      var state := s.bonds[bond];
      if state.status != Active { return Err(Issuer.BondAlreadyMatured); }
      if now >= state.config.maturityDate { return Err(Issuer.BondAlreadyMatured); }
      var fromBalance := Get(state.balances, from);
      if fromBalance < amount { return Err(Issuer.InsufficientBalance); }
      state := state.(balances := state.balances[from := fromBalance - amount]);
      var toBalance := Get(state.balances, to);
      if !Fits(toBalance + amount) { return Err(Issuer.Overflow); }
      state := state.(balances := state.balances[to := toBalance + amount]);
      if toBalance == 0 {
        state := AppendHolder(state, to);
      }
      s := s.(bonds := s.bonds[bond := state]);
      storage := s;
      return Ok(());
    }

    method Redeem(holder: Address, bond: nat, amount: int, nonce: nat) returns (r: Result<(), Issuer.BondError>)
      modifies this
      ensures Settles(Issuer.Redeem(old(storage), holder, bond, amount, nonce), old(storage), storage, r)
      ensures Issuer.Inv(old(storage)) ==> Issuer.Inv(storage) && Issuer.Evolves(old(storage), storage, 0)
    {
      SafeCall(storage, Issuer.RedeemCall(0, holder, bond, amount, nonce));
      hide Issuer.Inv, Issuer.Evolves;
      var s := storage;
      if nonce != NonceOf(s.nonces, holder) { return Err(Issuer.InvalidNonce); }
      if nonce >= U64_MAX { return Err(Issuer.Trap); }
      s := s.(nonces := s.nonces[holder := nonce + 1]);
      if amount <= 0 { return Err(Issuer.ZeroAmount); }
      if bond !in s.bonds { return Err(Issuer.BondNotFound); }
      var state := s.bonds[bond];
      if state.status != Matured { return Err(Issuer.BondAlreadyMatured); }
      var current := Get(state.balances, holder);
      if current < amount { return Err(Issuer.InsufficientBalance); }
      state := state.(balances := state.balances[holder := current - amount]);
      if !Fits(state.totalSubscribed - amount) { return Err(Issuer.Overflow); }
      state := state.(totalSubscribed := state.totalSubscribed - amount);
      s := s.(bonds := s.bonds[bond := state]);
      storage := s;
      return Ok(());
    }

    method MatureBond(now: nat, caller: Address, bond: nat, nonce: nat) returns (r: Result<(), Issuer.BondError>)
      modifies this
      ensures Settles(Issuer.MatureBond(old(storage), now, caller, bond, nonce), old(storage), storage, r)
      ensures Issuer.Inv(old(storage)) ==> Issuer.Inv(storage) && Issuer.Evolves(old(storage), storage, now)
    {
      SafeCall(storage, Issuer.MatureCall(now, caller, bond, nonce));
      hide Issuer.Inv, Issuer.Evolves;
      var s := storage;
      if nonce != NonceOf(s.nonces, caller) { return Err(Issuer.InvalidNonce); }
      if nonce >= U64_MAX { return Err(Issuer.Trap); }
      s := s.(nonces := s.nonces[caller := nonce + 1]);
      if caller != s.admin { return Err(Issuer.Unauthorized); }
      if bond !in s.bonds { return Err(Issuer.BondNotFound); }
      var state := s.bonds[bond];
      if state.status != Active { return Err(Issuer.BondAlreadyMatured); }
      if now < state.config.maturityDate { return Err(Issuer.NotYetMature); }
      s := s.(bonds := s.bonds[bond := state.(status := Matured)]);
      storage := s;
      return Ok(());
    }

    method GetHolderListRange(bond: nat, start: nat, count: nat) returns (result: seq<Address>)
      ensures result == HolderPage(Holders(storage, bond), start, count)
    {
      var holders := Holders(storage, bond);
      result := [];
      if count == 0 || start >= |holders| { return; }
      var end := if start + count < |holders| then start + count else |holders|;
      for i := start to end
        invariant result == holders[start..i]
      {
        result := result + [holders[i]];
      }
    }
  }

  function Holders(s: Issuer.Storage, bond: nat): seq<Address> {
    if bond in s.bonds then s.bonds[bond].holders else []
  }

  /** At most `count` holders from position `start`. */
  function HolderPage(holders: seq<Address>, start: nat, count: nat): seq<Address> {
    if start >= |holders| then []
    else if start + count >= |holders| then holders[start..]
    else holders[start..start + count]
  }

  /** The first `pages` pages of a list, one after the other. */
  function PagesOf(holders: seq<Address>, size: nat, pages: nat): seq<Address> {
    if pages == 0 then [] else PagesOf(holders, size, pages - 1) + HolderPage(holders, (pages - 1) * size, size)
  }

  lemma {:induction false} PagesArePrefix(holders: seq<Address>, size: nat, pages: nat)
    ensures PagesOf(holders, size, pages) == if pages * size <= |holders| then holders[..pages * size] else holders
  {
    if pages > 0 {
      PagesArePrefix(holders, size, pages - 1);
      assert pages * size == (pages - 1) * size + size;
    }
  }

  /** Reading page after page until the list is covered yields every holder once per entry, in order. */
  lemma PagesCover(holders: seq<Address>, size: nat, pages: nat)
    requires pages * size >= |holders|
    ensures PagesOf(holders, size, pages) == holders
  {
    PagesArePrefix(holders, size, pages);
  }
}
