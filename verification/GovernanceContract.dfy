/** The Governance contract object: the duplicate check at deployment, the allowlist's dedupe loop, the
    migration loop over ids, and the entry points, each proved against its transition. */
module GovernanceContract {
  import opened Host
  import opened Governance
  import Runs = GovernanceRuns

  /** The nested loops over signer pairs. */
  method HasDuplicate(signers: seq<Address>) returns (found: bool)
    ensures found == !Distinct(signers)
  {
    for i := 0 to |signers|
      invariant forall k, l :: 0 <= k < i && k < l < |signers| ==> signers[k] != signers[l]
    {
      for j := i + 1 to |signers|
        invariant forall l :: i < l < j ==> signers[i] != signers[l]
      {
        if signers[i] == signers[j] { return true; }
      }
    }
    return false;
  }

  lemma DedupStep(calls: seq<AllowedCall>, n: nat)
    requires n < |calls|
    ensures var d := Dedup(calls[..n]);
            Dedup(calls[..n + 1]) == if calls[n] in d then d else d + [calls[n]]
  {
    assert calls[..n + 1][..n] == calls[..n];
  }

  /** `contains_call`: a linear scan for the pair. */
  method ContainsCall(calls: seq<AllowedCall>, contract: Address, fn: Symbol) returns (found: bool)
    ensures found == (AllowedCall(contract, fn) in calls)
  {
    for i := 0 to |calls|
      invariant AllowedCall(contract, fn) !in calls[..i]
    {
      assert calls[..i + 1] == calls[..i] + [calls[i]];
      if calls[i].contract == contract && calls[i].fn == fn { return true; }
    }
    assert calls[..|calls|] == calls;
    return false;
  }

  lemma CallsPrefix(items: seq<Val>, calls: seq<AllowedCall>, n: nat)
    requires n < |items| && AllCalls(items[..n]) && calls == CallsOf(items[..n]) && items[n].CallVal?
    ensures AllCalls(items[..n + 1]) && CallsOf(items[..n + 1]) == calls + [items[n].call]
  {
  }

  /** `write_allowed_calls`: decode each element, keep first occurrences; None if the list is malformed. */
  method DedupeCalls(items: seq<Val>) returns (r: Option<seq<AllowedCall>>)
    ensures r == if |items| <= MAX_ALLOWED_CALLS && AllCalls(items) then Some(Dedup(CallsOf(items))) else None
  {
    hide Dedup;
    if |items| > MAX_ALLOWED_CALLS { return None; }
    var deduped: seq<AllowedCall> := [];
    ghost var decoded: seq<AllowedCall> := [];
    EmptyDedup();
    for i := 0 to |items|
      invariant AllCalls(items[..i]) && decoded == CallsOf(items[..i])
      invariant deduped == Dedup(decoded)
    {
      if !items[i].CallVal? { return None; }
      var call := items[i].call;
      CallsPrefix(items, decoded, i);
      ghost var longer := decoded + [call];
      DedupStep(longer, i);
      assert longer[..i] == decoded && longer[..i + 1] == longer;
      var known := ContainsCall(deduped, call.contract, call.fn);
      if !known {
        deduped := deduped + [call];
      }
      decoded := longer;
    }
    assert items[..|items|] == items;
    return Some(deduped);
  }

  lemma EmptyDedup()
    ensures Dedup([]) == []
  {
  }

  lemma UnmigratedStep(s: Storage, id: nat)
    requires id >= 1
    ensures var front := Unmigrated(s, id - 1);
            && id !in front
            && Unmigrated(s, id) == if id in s.legacyProposals && id !in s.proposals then front[id := s.legacyProposals[id]] else front
  {
  }

  lemma NothingUnmigrated(s: Storage)
    ensures Unmigrated(s, 0) == map[]
  {
  }

  lemma AddOne(m: map<nat, Proposal>, d: map<nat, Proposal>, k: nat, p: Proposal)
    requires k !in d
    ensures (m + d)[k := p] == m + d[k := p] && |d[k := p]| == |d| + 1
  {
    assert d[k := p].Keys == d.Keys + {k};
  }

  /** The copying loop over ids 1..count. */
  method CopyProposals(s: Storage, count: nat) returns (proposals: map<nat, Proposal>, migrated: nat)
    ensures proposals == s.proposals + Unmigrated(s, count)
    ensures migrated == |Unmigrated(s, count)|
  {
    hide Unmigrated;
    proposals := s.proposals;
    migrated := 0;
    NothingUnmigrated(s);
    for id := 1 to count + 1
      invariant proposals == s.proposals + Unmigrated(s, id - 1)
      invariant migrated == |Unmigrated(s, id - 1)|
    {
      UnmigratedStep(s, id);
      if id in proposals {
        continue;
      }
      if id in s.legacyProposals {
        AddOne(s.proposals, Unmigrated(s, id - 1), id, s.legacyProposals[id]);
        proposals := proposals[id := s.legacyProposals[id]];
        migrated := migrated + 1;
      }
    }
  }

  /** Deployment: every failed assertion of the constructor aborts it. */
  method Deploy(self: Address, signers: seq<Address>, threshold: nat, timelock: nat, items: seq<Val>) returns (r: Result<Storage, Err>)
    ensures r == Construct(self, signers, threshold, timelock, items)
  {
    hide Dedup, Distinct;
    if signers == [] { return Err(Trap); }
    if threshold == 0 || threshold > |signers| { return Err(Trap); }
    var duplicate := HasDuplicate(signers);
    if duplicate { return Err(Trap); }
    var allowed := DedupeCalls(items);
    if allowed.None? { return Err(Trap); }
    return Ok(Storage(self, Some(signers), Some(threshold), Some(timelock), 0,
                      map[], None, map[], map[], map[], None, map[], map[], {}, allowed.value));
  }

  /** What a call by anyone but the contract itself keeps: the vote, timelock, expiry and allowlist invariant,
      and everything about proposals and votes that must not change. */
  ghost predicate SafeStep(s: Storage, t: Storage) {
    Runs.Inv(Runs.ViewOf(s)) ==> Runs.Inv(Runs.ViewOf(t)) && Runs.Evolves(Runs.ViewOf(s), Runs.ViewOf(t))
  }

  lemma SafeCall(s: Storage, call: Runs.Call, now: nat)
    ensures SafeStep(s, Runs.Step(s, call, now))
  {
    hide Runs.Inv, Runs.Evolves, Runs.ViewOf, Runs.Step, Runs.Logged, Runs.Moves;
    Runs.StepMoves(s, call, now);
    var v, w := Runs.ViewOf(s), Runs.ViewOf(Runs.Step(s, call, now));
    if Runs.Inv(v) {
      Runs.MoveKeepsInv(v, w, Runs.Logged(s, call, now));
      Runs.MoveEvolves(v, w, Runs.Logged(s, call, now));
    }
  }

  lemma SafePropose(s: Storage, caller: Address, target: Address, fn: Symbol, args: seq<Val>, description: Symbol, nonce: nat, now: nat)
    ensures caller != s.self ==> SafeStep(s, Committed(s, Governance.Propose(s, caller, target, fn, args, description, nonce, now)))
  {
    hide SafeStep, Governance.Propose;
    SafeCall(s, Runs.DoPropose(caller, target, fn, args, description, nonce), now);
  }

  lemma SafeVoteApprove(s: Storage, caller: Address, id: nat, nonce: nat, now: nat)
    ensures caller != s.self ==> SafeStep(s, Committed(s, Governance.VoteApprove(s, caller, id, nonce, now)))
  {
    hide SafeStep, Governance.VoteApprove;
    SafeCall(s, Runs.DoApprove(caller, id, nonce), now);
  }

  lemma SafeVoteVeto(s: Storage, caller: Address, id: nat, nonce: nat, now: nat)
    ensures caller != s.self ==> SafeStep(s, Committed(s, Governance.VoteVeto(s, caller, id, nonce, now)))
  {
    hide SafeStep, Governance.VoteVeto;
    SafeCall(s, Runs.DoVeto(caller, id, nonce), now);
  }

  class GovernanceInstance {
    var storage: Storage

    constructor (deployed: Storage)
      ensures storage == deployed
    {
      storage := deployed;
    }

    method Propose(caller: Address, target: Address, fn: Symbol, args: seq<Val>, description: Symbol, nonce: nat, now: nat)
      returns (r: Result<nat, Err>)
      modifies this
      ensures Settles(Governance.Propose(old(storage), caller, target, fn, args, description, nonce, now), old(storage), storage, r)
      ensures caller != old(storage).self ==> SafeStep(old(storage), storage)
    {
      SafePropose(storage, caller, target, fn, args, description, nonce, now);
      hide SafeStep;
      hide SaturatingAddU64, Admit;
      var admitted := Admit(storage, caller, nonce);
      if admitted.Err? { return Err(admitted.error); }
      var s := admitted.value;
      if target == s.self {
        if fn != SET_ALLOWED_CALLS { return Err(UnauthorizedCall); }
      } else {
        var listed := ContainsCall(s.allowed, target, fn);
        if !listed { return Err(UnauthorizedCall); }
      }
      var count := Count(s);
      if count >= U64_MAX { return Err(Trap); }
      var id := count + 1;
      var proposal := Proposal(id, caller, target, fn, args, description, Pending, 0, 0,
                               now, SaturatingAddU64(now, TTL_SECONDS), 0, 0, Timelock(s));
      s := s.(count := Some(id));
      s := s.(proposals := s.proposals[id := proposal]);
      storage := s;
      return Ok(id);
    }

    method VoteApprove(caller: Address, id: nat, nonce: nat, now: nat) returns (r: Result<(), Err>)
      modifies this
      ensures Settles(Governance.VoteApprove(old(storage), caller, id, nonce, now), old(storage), storage, r)
      ensures caller != old(storage).self ==> SafeStep(old(storage), storage)
    {
      SafeVoteApprove(storage, caller, id, nonce, now);
      hide SafeStep;
      hide Admit;
      var admitted := Admit(storage, caller, nonce);
      if admitted.Err? { return Err(admitted.error); }
      var s := admitted.value;
      if id !in Proposals(s) { return Err(ProposalNotFound); }
      var proposal := Proposals(s)[id];
      if proposal.status != Pending { return Err(NotPending); }
      if now >= proposal.expiresAt { return Err(ProposalExpired); }
      if (id, caller) in Votes(s) { return Err(AlreadyVoted); }
      s := s.(votes := s.votes[(id, caller) := Approve]);
      if proposal.approvals >= U32_MAX { return Err(Trap); }
      proposal := proposal.(approvals := proposal.approvals + 1);
      if proposal.approvals >= Threshold(s) {
        proposal := proposal.(status := Queued, queuedAt := now);
      }
      s := s.(proposals := s.proposals[id := proposal]);
      storage := s;
      return Ok(());
    }

    method VoteVeto(caller: Address, id: nat, nonce: nat, now: nat) returns (r: Result<(), Err>)
      modifies this
      ensures Settles(Governance.VoteVeto(old(storage), caller, id, nonce, now), old(storage), storage, r)
      ensures caller != old(storage).self ==> SafeStep(old(storage), storage)
    {
      SafeVoteVeto(storage, caller, id, nonce, now);
      hide SafeStep;
      hide Admit;
      var admitted := Admit(storage, caller, nonce);
      if admitted.Err? { return Err(admitted.error); }
      var s := admitted.value;
      if id !in Proposals(s) { return Err(ProposalNotFound); }
      var proposal := Proposals(s)[id];
      if proposal.status != Pending { return Err(NotPending); }
      if now >= proposal.expiresAt { return Err(ProposalExpired); }
      if (id, caller) in Votes(s) { return Err(AlreadyVoted); }
      s := s.(votes := s.votes[(id, caller) := Veto]);
      if proposal.vetoes >= U32_MAX { return Err(Trap); }
      proposal := proposal.(vetoes := proposal.vetoes + 1);
      if proposal.vetoes >= Threshold(s) {
        proposal := proposal.(status := Rejected);
      }
      s := s.(proposals := s.proposals[id := proposal]);
      storage := s;
      return Ok(());
    }

    method Cancel(caller: Address, id: nat, nonce: nat) returns (r: Result<(), Err>)
      modifies this
      ensures Settles(Governance.Cancel(old(storage), caller, id, nonce), old(storage), storage, r)
      ensures caller != old(storage).self ==> SafeStep(old(storage), storage)
    {
      SafeCall(storage, Runs.DoCancel(caller, id, nonce), 0);
      assert caller != storage.self ==> Runs.Step(storage, Runs.DoCancel(caller, id, nonce), 0) == Committed(storage, Governance.Cancel(storage, caller, id, nonce));
      hide SafeStep, Runs.Step;
      hide Admit;
      var admitted := Admit(storage, caller, nonce);
      if admitted.Err? { return Err(admitted.error); }
      var s := admitted.value;
      if id !in Proposals(s) { return Err(ProposalNotFound); }
      var proposal := Proposals(s)[id];
      if proposal.status != Pending { return Err(NotPending); }
      s := s.(proposals := s.proposals[id := proposal.(status := Cancelled)]);
      storage := s;
      return Ok(());
    }

    /** `dispatch_self_call` and `apply_set_allowed_calls`. */
    static method DispatchSelf(s: Storage, fn: Symbol, args: seq<Val>) returns (r: Result<Storage, Err>)
      ensures r == DispatchSelfCall(s, fn, args)
    {
      hide CheckNonce, Dedup;
      if fn != SET_ALLOWED_CALLS { return Err(UnauthorizedCall); }
      if |args| != 3 || !args[0].AddressVal? || !args[1].VecVal? || !args[2].U64Val? { return Err(InvalidCallArgs); }
      r := ReplaceList(s, args[0].address, args[1].items, args[2].n);
    }

    static method ReplaceList(s: Storage, caller: Address, items: seq<Val>, nonce: nat) returns (r: Result<Storage, Err>)
      ensures r == ApplySetAllowedCalls(s, caller, items, nonce)
    {
      hide CheckNonce, Dedup;
      if caller != s.self { return Err(Unauthorized); }
      var used := CheckNonce(s, caller, nonce);
      if used.Err? { return Err(used.error); }
      var deduped := DedupeCalls(items);
      if deduped.None? { return Err(InvalidCallArgs); }
      return Ok(used.value.(allowed := deduped.value));
    }

    method Execute(caller: Address, id: nat, nonce: nat, callOk: bool, now: nat) returns (r: Result<(), Err>)
      modifies this
      ensures Settles(Governance.Execute(old(storage), caller, id, nonce, callOk, now), old(storage), storage, r)
      ensures caller != old(storage).self ==> SafeStep(old(storage), storage)
    {
      SafeCall(storage, Runs.DoExecute(caller, id, nonce, callOk), now);
      assert caller != storage.self ==> Runs.Step(storage, Runs.DoExecute(caller, id, nonce, callOk), now) == Committed(storage, Governance.Execute(storage, caller, id, nonce, callOk, now));
      hide SafeStep, Runs.Step;
      hide CheckNonce, DispatchSelfCall, SaturatingAddU64;
      var used := CheckNonce(storage, caller, nonce);
      if used.Err? { return Err(used.error); }
      var s := used.value;
      if id !in Proposals(s) { return Err(ProposalNotFound); }
      var proposal := Proposals(s)[id];
      if proposal.status != Queued { return Err(NotQueued); }
      if now >= proposal.expiresAt { return Err(ProposalExpired); }
      if now < SaturatingAddU64(proposal.queuedAt, proposal.timelock) { return Err(TimelockNotElapsed); }
      if proposal.target == s.self {
        var dispatched := DispatchSelf(s, proposal.fn, proposal.args);
        if dispatched.Err? { return Err(dispatched.error); }
        s := dispatched.value;
      } else {
        var listed := ContainsCall(s.allowed, proposal.target, proposal.fn);
        if !listed { return Err(UnauthorizedCall); }
        if !callOk { return Err(Trap); }
      }
      proposal := proposal.(status := Executed, executedAt := now);
      s := s.(proposals := s.proposals[id := proposal]);
      storage := s;
      return Ok(());
    }

    method SetAllowedCalls(caller: Address, items: seq<Val>, nonce: nat) returns (r: Result<(), Err>)
      modifies this
      ensures Settles(Governance.SetAllowedCalls(old(storage), caller, items, nonce), old(storage), storage, r)
      ensures caller != old(storage).self ==> SafeStep(old(storage), storage)
    {
      SafeCall(storage, Runs.DoSetAllowedCalls(caller, items, nonce), 0);
      assert caller != storage.self ==> Runs.Step(storage, Runs.DoSetAllowedCalls(caller, items, nonce), 0) == Committed(storage, Governance.SetAllowedCalls(storage, caller, items, nonce));
      hide SafeStep, Runs.Step;
      hide ApplySetAllowedCalls;
      var replaced := ReplaceList(storage, caller, items, nonce);
      if replaced.Err? { return Err(replaced.error); }
      storage := replaced.value;
      return Ok(());
    }

    method MigrateStorage(caller: Address) returns (r: Result<nat, Err>)
      modifies this
      ensures Settles(Governance.MigrateStorage(old(storage), caller), old(storage), storage, r)
      ensures caller != old(storage).self ==> SafeStep(old(storage), storage)
    {
      SafeCall(storage, Runs.DoMigrate(caller), 0);
      assert caller != storage.self ==> Runs.Step(storage, Runs.DoMigrate(caller), 0) == Committed(storage, Governance.MigrateStorage(storage, caller));
      hide SafeStep, Runs.Step;
      hide Unmigrated, RequireSigner;
      var s := storage;
      var refused := RequireSigner(s, caller);
      if refused.Some? { return Err(refused.value); }
      if s.version >= PERSISTENT_VERSION { return Ok(0); }
      var migrated := 0;
      if s.legacyCount.Some? {
        var proposals, copied := CopyProposals(s, s.legacyCount.value);
        if s.count.None? {
          s := s.(count := s.legacyCount);
        }
        s := s.(proposals := proposals);
        migrated := copied;
      }
      s := s.(version := PERSISTENT_VERSION);
      storage := s;
      return Ok(migrated);
    }
  }
}
