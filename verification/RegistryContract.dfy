/** The ProjectRegistry contract object. */
module RegistryContract {
  import opened Host
  import opened Shared
  import opened Registry

  /** What a caller can rely on after any call: the table and its indexes stay in step, at most one project
      is registered or moves one allowed status, and the admin role moves only as its calls allow. */
  ghost predicate SafeStep(s: Storage, t: Storage, e: Event) {
    && Moves(s, t) && RoleMoves(s, t, e)
    && (Inv(s) ==> Inv(t) && Evolves(s, t))
  }

  lemma SafeCall(s: Storage, e: Event)
    ensures SafeStep(s, Step(s, e), e)
  {
    hide Step, Moves, RoleMoves, HashIndexOk, OwnersOk, TableOk, Evolves;
    StepMoves(s, e);
    if Inv(s) {
      MoveKeepsInv(s, Step(s, e));
      MoveEvolves(s, Step(s, e));
    }
  }

  class ProjectRegistry {
    var storage: Storage

    constructor (admin: Address)
      ensures storage == Constructed(admin)
    {
      storage := Storage(Some(admin), None, None, map[], 0, map[], map[], map[]);
    }

    method RegisterProject(caller: Address, hash: Hash, name: Symbol, methodology: Symbol, country: Symbol, nonce: nat)
      returns (r: Result<nat, Err>)
      modifies this
      ensures Settles(Registry.RegisterProject(old(storage), caller, hash, name, methodology, country, nonce), old(storage), storage, r)
      ensures SafeStep(old(storage), storage, Event(DoRegister(caller, hash, name, methodology, country, nonce), 0))
    {
      SafeCall(storage, Event(DoRegister(caller, hash, name, methodology, country, nonce), 0));
      assert Step(storage, Event(DoRegister(caller, hash, name, methodology, country, nonce), 0)) == Committed(storage, Registry.RegisterProject(storage, caller, hash, name, methodology, country, nonce));
      hide SafeStep, Step;
      var s := storage;
      if nonce != NonceOf(s.nonces, caller) { return Err(InvalidNonce); }
      var zero := true;
      for i := 0 to |hash|
        invariant zero == AllZero(hash[..i])
      {
        assert hash[..i + 1] == hash[..i] + [hash[i]];
        zero := zero && hash[i] == 0;
      }
      assert hash[..|hash|] == hash;
      if zero { return Err(ProjectNotFound); }
      if hash in s.byHash && s.byHash[hash] in s.projects {
        var holder := s.projects[s.byHash[hash]];
        if holder.status == Pending || holder.status == Approved { return Err(ProjectAlreadyExists); }
      }
      if nonce >= U64_MAX { return Err(Trap); }
      s := s.(nonces := s.nonces[caller := nonce + 1]);
      if s.count >= U64_MAX { return Err(Trap); }
      var id := s.count + 1;
      s := s.(count := id);
      s := s.(projects := s.projects[id := Project(id, caller, hash, name, Pending, methodology, country)]);
      s := s.(byHash := s.byHash[hash := id]);
      s := s.(ownerProjects := s.ownerProjects[caller := OwnedBy(s, caller) + [id]]);
      storage := s;
      return Ok(id);
    }

    /** The body approve, reject and suspend share. */
    method ChangeStatus(caller: Address, id: nat, nonce: nat, from: ProjectStatus, to: ProjectStatus) returns (r: Result<(), Err>)
      modifies this
      ensures Settles(AdminTransition(old(storage), caller, id, nonce, from, to), old(storage), storage, r)
    {
      var s := storage;
      if nonce != NonceOf(s.nonces, caller) { return Err(InvalidNonce); }
      if nonce >= U64_MAX { return Err(Trap); }
      s := s.(nonces := s.nonces[caller := nonce + 1]);
      if s.admin.None? { return Err(NotInitialized); }
      if caller != s.admin.value { return Err(Unauthorized); }
      if id !in s.projects { return Err(ProjectNotFound); }
      var project := s.projects[id];
      if project.status != from { return Err(InvalidStatusTransition); }
      s := s.(projects := s.projects[id := project.(status := to)]);
      storage := s;
      return Ok(());
    }

    method ApproveProject(caller: Address, id: nat, nonce: nat) returns (r: Result<(), Err>)
      modifies this
      ensures Settles(Registry.ApproveProject(old(storage), caller, id, nonce), old(storage), storage, r)
      ensures SafeStep(old(storage), storage, Event(DoApprove(caller, id, nonce), 0))
    {
      SafeCall(storage, Event(DoApprove(caller, id, nonce), 0));
      assert Step(storage, Event(DoApprove(caller, id, nonce), 0)) == Committed(storage, Registry.ApproveProject(storage, caller, id, nonce));
      hide SafeStep, Step;
      r := ChangeStatus(caller, id, nonce, Pending, Approved);
    }

    method RejectProject(caller: Address, id: nat, nonce: nat) returns (r: Result<(), Err>)
      modifies this
      ensures Settles(Registry.RejectProject(old(storage), caller, id, nonce), old(storage), storage, r)
      ensures SafeStep(old(storage), storage, Event(DoReject(caller, id, nonce), 0))
    {
      SafeCall(storage, Event(DoReject(caller, id, nonce), 0));
      assert Step(storage, Event(DoReject(caller, id, nonce), 0)) == Committed(storage, Registry.RejectProject(storage, caller, id, nonce));
      hide SafeStep, Step;
      r := ChangeStatus(caller, id, nonce, Pending, Rejected);
    }

    method SuspendProject(caller: Address, id: nat, nonce: nat) returns (r: Result<(), Err>)
      modifies this
      ensures Settles(Registry.SuspendProject(old(storage), caller, id, nonce), old(storage), storage, r)
      ensures SafeStep(old(storage), storage, Event(DoSuspend(caller, id, nonce), 0))
    {
      SafeCall(storage, Event(DoSuspend(caller, id, nonce), 0));
      assert Step(storage, Event(DoSuspend(caller, id, nonce), 0)) == Committed(storage, Registry.SuspendProject(storage, caller, id, nonce));
      hide SafeStep, Step;
      r := ChangeStatus(caller, id, nonce, Approved, Inactive);
    }

    method RevokeProject(caller: Address, id: nat, nonce: nat) returns (r: Result<(), Err>)
      modifies this
      ensures Settles(Registry.RevokeProject(old(storage), caller, id, nonce), old(storage), storage, r)
      ensures SafeStep(old(storage), storage, Event(DoRevoke(caller, id, nonce), 0))
    {
      SafeCall(storage, Event(DoRevoke(caller, id, nonce), 0));
      assert Step(storage, Event(DoRevoke(caller, id, nonce), 0)) == Committed(storage, Registry.RevokeProject(storage, caller, id, nonce));
      hide SafeStep, Step;
      var s := storage;
      if nonce != NonceOf(s.nonces, caller) { return Err(InvalidNonce); }
      if nonce >= U64_MAX { return Err(Trap); }
      s := s.(nonces := s.nonces[caller := nonce + 1]);
      if s.admin != Some(caller) {
        if s.oracle.None? { return Err(OracleConsumerNotSet); }
        if caller != s.oracle.value { return Err(Unauthorized); }
      }
      if id !in s.projects { return Err(ProjectNotFound); }
      var project := s.projects[id];
      if project.status != Approved { return Err(InvalidStatusTransition); }
      s := s.(projects := s.projects[id := project.(status := Rejected)]);
      storage := s;
      return Ok(());
    }

    method SetOracleConsumer(caller: Address, oracle: Address, nonce: nat) returns (r: Result<(), Err>)
      modifies this
      ensures Settles(Registry.SetOracleConsumer(old(storage), caller, oracle, nonce), old(storage), storage, r)
      ensures SafeStep(old(storage), storage, Event(DoSetOracle(caller, oracle, nonce), 0))
    {
      SafeCall(storage, Event(DoSetOracle(caller, oracle, nonce), 0));
      assert Step(storage, Event(DoSetOracle(caller, oracle, nonce), 0)) == Committed(storage, Registry.SetOracleConsumer(storage, caller, oracle, nonce));
      hide SafeStep, Step;
      var s := storage;
      if nonce != NonceOf(s.nonces, caller) { return Err(InvalidNonce); }
      if nonce >= U64_MAX { return Err(Trap); }
      s := s.(nonces := s.nonces[caller := nonce + 1]);
      if s.admin.None? { return Err(NotInitialized); }
      if caller != s.admin.value { return Err(Unauthorized); }
      s := s.(oracle := Some(oracle));
      storage := s;
      return Ok(());
    }

    method ProposeAdminTransfer(caller: Address, candidate: Address, nonce: nat, now: nat) returns (r: Result<(), Err>)
      modifies this
      ensures Settles(Registry.ProposeAdminTransfer(old(storage), caller, candidate, nonce, now), old(storage), storage, r)
      ensures SafeStep(old(storage), storage, Event(DoPropose(caller, candidate, nonce), now))
    {
      SafeCall(storage, Event(DoPropose(caller, candidate, nonce), now));
      assert Step(storage, Event(DoPropose(caller, candidate, nonce), now)) == Committed(storage, Registry.ProposeAdminTransfer(storage, caller, candidate, nonce, now));
      hide SafeStep, Step;
      var s := storage;
      if nonce != NonceOf(s.nonces, caller) { return Err(InvalidNonce); }
      if nonce >= U64_MAX { return Err(Trap); }
      s := s.(nonces := s.nonces[caller := nonce + 1]);
      if s.admin.None? { return Err(NotInitialized); }
      if caller != s.admin.value { return Err(Unauthorized); }
      var executableAt := now + ADMIN_TIMELOCK;
      if executableAt > U64_MAX { return Err(Trap); }
      s := s.(pending := Some(PendingAdminChange(candidate, executableAt)));
      storage := s;
      return Ok(());
    }

    method CancelAdminTransfer(caller: Address, nonce: nat) returns (r: Result<(), Err>)
      modifies this
      ensures Settles(Registry.CancelAdminTransfer(old(storage), caller, nonce), old(storage), storage, r)
      ensures SafeStep(old(storage), storage, Event(DoCancel(caller, nonce), 0))
    {
      SafeCall(storage, Event(DoCancel(caller, nonce), 0));
      assert Step(storage, Event(DoCancel(caller, nonce), 0)) == Committed(storage, Registry.CancelAdminTransfer(storage, caller, nonce));
      hide SafeStep, Step;
      var s := storage;
      if nonce != NonceOf(s.nonces, caller) { return Err(InvalidNonce); }
      if nonce >= U64_MAX { return Err(Trap); }
      s := s.(nonces := s.nonces[caller := nonce + 1]);
      if s.admin.None? { return Err(NotInitialized); }
      if caller != s.admin.value { return Err(Unauthorized); }
      if s.pending.None? { return Err(NoPendingAdminChange); }
      s := s.(pending := None);
      storage := s;
      return Ok(());
    }

    method AcceptAdminTransfer(caller: Address, nonce: nat, now: nat) returns (r: Result<(), Err>)
      modifies this
      ensures Settles(Registry.AcceptAdminTransfer(old(storage), caller, nonce, now), old(storage), storage, r)
      ensures SafeStep(old(storage), storage, Event(DoAccept(caller, nonce), now))
    {
      SafeCall(storage, Event(DoAccept(caller, nonce), now));
      assert Step(storage, Event(DoAccept(caller, nonce), now)) == Committed(storage, Registry.AcceptAdminTransfer(storage, caller, nonce, now));
      hide SafeStep, Step;
      var s := storage;
      if nonce != NonceOf(s.nonces, caller) { return Err(InvalidNonce); }
      if nonce >= U64_MAX { return Err(Trap); }
      s := s.(nonces := s.nonces[caller := nonce + 1]);
      if s.pending.None? { return Err(NoPendingAdminChange); }
      if caller != s.pending.value.candidate { return Err(Unauthorized); }
      if now < s.pending.value.executableAt { return Err(TimelockNotElapsed); }
      if s.admin.None? { return Err(NotInitialized); }
      s := s.(admin := Some(caller));
      s := s.(pending := None);
      storage := s;
      return Ok(());
    }
  }
}
