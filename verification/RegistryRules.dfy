/** ProjectRegistry, call by call and over runs: who can do what, exactly when, and that every project is what
    its owner registered and has the status the admin's calls gave it. */
module RegistryRules {
  import opened Host
  import opened Shared
  import opened Registry

  /** The admin role and the oracle are as before; the caller's nonce is used. */
  ghost predicate SameRoles(s: Storage, t: Storage, caller: Address) {
    t.admin == s.admin && t.oracle == s.oracle && t.pending == s.pending && SpendsNonce(s.nonces, t.nonces, caller)
  }

  ghost predicate SameProjects(s: Storage, t: Storage) {
    t.projects == s.projects && t.count == s.count && t.byHash == s.byHash && t.ownerProjects == s.ownerProjects
  }

  /** Anyone registers a project under a hash that is not all zeros and has no Pending or Approved project. The
      project is what the caller said, Pending, under the next id; the hash now points to it. */
  lemma RegisterRule(s: Storage, caller: Address, hash: Hash, name: Symbol, methodology: Symbol, country: Symbol, nonce: nat)
    requires Inv(s)
    ensures var r := RegisterProject(s, caller, hash, name, methodology, country, nonce);
            && (r.Ok? <==> && GoodNonce(s.nonces, caller, nonce) && (exists i :: 0 <= i < |hash| && hash[i] != 0)
                           && !(exists id :: id in s.projects && s.projects[id].hash == hash && (s.projects[id].status == Pending || s.projects[id].status == Approved))
                           && s.count < 0xFFFF_FFFF_FFFF_FFFF)
            && (r.Ok? ==>
                  var (t, id) := r.value;
                  && id == s.count + 1 == t.count && SameRoles(s, t, caller)
                  && t.projects == s.projects[id := Project(id, caller, hash, name, Pending, methodology, country)]
                  && t.byHash == s.byHash[hash := id]
                  && t.ownerProjects == s.ownerProjects[caller := OwnedBy(s, caller) + [id]])
  {
    NotAllZero(hash);
    TakenMeans(s, hash);
    hide Inv, HashTaken, AllZero, OwnedBy;
  }

  lemma NotAllZero(h: Hash)
    ensures AllZero(h) <==> !exists i :: 0 <= i < |h| && h[i] != 0
  {
  }

  lemma TakenMeans(s: Storage, hash: Hash)
    requires Inv(s)
    ensures HashTaken(s, hash) <==> exists id :: id in s.projects && s.projects[id].hash == hash && (s.projects[id].status == Pending || s.projects[id].status == Approved)
  {
    hide OwnersOk;
    UniqueHashes(s);
    hide TableOk, HashIndexOk, HashTaken, OneActive, GetProjectByHash;
  }

  predicate IsAdmin(s: Storage, a: Address) {
    s.admin == Some(a)
  }

  /** Project `id` moved from one status to another; nothing else did. */
  ghost predicate Restated(s: Storage, t: Storage, id: nat, to: ProjectStatus) {
    && id in s.projects && t.projects == s.projects[id := s.projects[id].(status := to)]
    && t.count == s.count && t.byHash == s.byHash && t.ownerProjects == s.ownerProjects
  }

  lemma NonceStep(s: Storage, caller: Address, nonce: nat)
    ensures CheckNonce(s, caller, nonce).Ok? <==> GoodNonce(s.nonces, caller, nonce)
    ensures CheckNonce(s, caller, nonce).Ok? ==>
              SameProjects(s, CheckNonce(s, caller, nonce).value) && SameRoles(s, CheckNonce(s, caller, nonce).value, caller)
  {
    NonceRule(s.nonces, caller, nonce, InvalidNonce, Trap);
    hide UseNonce, SpendsNonce, GoodNonce;
  }

  lemma AdminStep(s: Storage, caller: Address, nonce: nat)
    ensures AdminCall(s, caller, nonce).Ok? <==> GoodNonce(s.nonces, caller, nonce) && IsAdmin(s, caller)
    ensures AdminCall(s, caller, nonce).Ok? ==>
              SameProjects(s, AdminCall(s, caller, nonce).value) && SameRoles(s, AdminCall(s, caller, nonce).value, caller)
  {
    hide SpendsNonce, GoodNonce;
    NonceStep(s, caller, nonce);
    hide CheckNonce;
  }

  lemma AdminMove(s: Storage, caller: Address, id: nat, nonce: nat, from: ProjectStatus, to: ProjectStatus)
    ensures var r := AdminTransition(s, caller, id, nonce, from, to);
            && (r.Ok? <==> GoodNonce(s.nonces, caller, nonce) && IsAdmin(s, caller) && id in s.projects && s.projects[id].status == from)
            && (r.Ok? ==> Restated(s, r.value.0, id, to) && SameRoles(s, r.value.0, caller))
  {
    hide SpendsNonce, GoodNonce;
    AdminStep(s, caller, nonce);
    hide AdminCall;
  }

  /** The admin approves or rejects a Pending project and suspends an Approved one; the admin or the oracle
      consumer revokes an Approved one. Nobody else changes a status, and no other status changes. */
  lemma StatusRules(s: Storage, caller: Address, id: nat, nonce: nat)
    ensures var r := ApproveProject(s, caller, id, nonce);
            && (r.Ok? <==> GoodNonce(s.nonces, caller, nonce) && IsAdmin(s, caller) && id in s.projects && s.projects[id].status == Pending)
            && (r.Ok? ==> Restated(s, r.value.0, id, Approved) && SameRoles(s, r.value.0, caller))
    ensures var r := RejectProject(s, caller, id, nonce);
            && (r.Ok? <==> GoodNonce(s.nonces, caller, nonce) && IsAdmin(s, caller) && id in s.projects && s.projects[id].status == Pending)
            && (r.Ok? ==> Restated(s, r.value.0, id, Rejected) && SameRoles(s, r.value.0, caller))
    ensures var r := SuspendProject(s, caller, id, nonce);
            && (r.Ok? <==> GoodNonce(s.nonces, caller, nonce) && IsAdmin(s, caller) && id in s.projects && s.projects[id].status == Approved)
            && (r.Ok? ==> Restated(s, r.value.0, id, Inactive) && SameRoles(s, r.value.0, caller))
    ensures var r := RevokeProject(s, caller, id, nonce);
            && (r.Ok? <==> && GoodNonce(s.nonces, caller, nonce) && (IsAdmin(s, caller) || s.oracle == Some(caller))
                           && id in s.projects && s.projects[id].status == Approved)
            && (r.Ok? ==> Restated(s, r.value.0, id, Rejected) && SameRoles(s, r.value.0, caller))
  {
    hide SpendsNonce, GoodNonce, AdminTransition;
    AdminMove(s, caller, id, nonce, Pending, Approved);
    AdminMove(s, caller, id, nonce, Pending, Rejected);
    AdminMove(s, caller, id, nonce, Approved, Inactive);
    NonceStep(s, caller, nonce);
    hide CheckNonce;
  }

  /** The admin names the oracle consumer, proposes a successor who must wait 172800 seconds, or withdraws the
      proposal; the successor itself accepts once the wait is over. */
  lemma RoleRules(s: Storage, caller: Address, other: Address, nonce: nat, now: nat)
    ensures var r := SetOracleConsumer(s, caller, other, nonce);
            && (r.Ok? <==> GoodNonce(s.nonces, caller, nonce) && IsAdmin(s, caller))
            && (r.Ok? ==> SameProjects(s, r.value.0) && SameRoles(s.(oracle := Some(other)), r.value.0, caller))
    ensures var r := ProposeAdminTransfer(s, caller, other, nonce, now);
            && (r.Ok? <==> GoodNonce(s.nonces, caller, nonce) && IsAdmin(s, caller) && now + 172_800 <= 0xFFFF_FFFF_FFFF_FFFF)
            && (r.Ok? ==> SameProjects(s, r.value.0) && SameRoles(s.(pending := Some(PendingAdminChange(other, now + 172_800))), r.value.0, caller))
    ensures var r := CancelAdminTransfer(s, caller, nonce);
            && (r.Ok? <==> GoodNonce(s.nonces, caller, nonce) && IsAdmin(s, caller) && s.pending.Some?)
            && (r.Ok? ==> SameProjects(s, r.value.0) && SameRoles(s.(pending := None), r.value.0, caller))
    ensures var r := AcceptAdminTransfer(s, caller, nonce, now);
            && (r.Ok? <==> && GoodNonce(s.nonces, caller, nonce) && s.admin.Some? && s.pending.Some?
                           && s.pending.value.candidate == caller && s.pending.value.executableAt <= now)
            && (r.Ok? ==> SameProjects(s, r.value.0) && SameRoles(s.(admin := Some(caller), pending := None), r.value.0, caller))
  {
    hide SpendsNonce, GoodNonce;
    NonceStep(s, caller, nonce);
    AdminStep(s, caller, nonce);
    hide CheckNonce, AdminCall;
  }

  // ----- over runs -----

  /** How one call may change a project: only its status, and only by who may. */
  ghost predicate ProjectMoves(s: Storage, e: Event, p: Project, q: Project) {
    || q == p
    || (e.call.DoApprove? && e.call.id == p.id && IsAdmin(s, e.call.caller) && p.status == Pending && q == p.(status := Approved))
    || (e.call.DoReject? && e.call.id == p.id && IsAdmin(s, e.call.caller) && p.status == Pending && q == p.(status := Rejected))
    || (e.call.DoSuspend? && e.call.id == p.id && IsAdmin(s, e.call.caller) && p.status == Approved && q == p.(status := Inactive))
    || (e.call.DoRevoke? && e.call.id == p.id && (IsAdmin(s, e.call.caller) || s.oracle == Some(e.call.caller)) && p.status == Approved
        && q == p.(status := Rejected))
  }

  /** The registration that created a project, with the project exactly as asked. */
  ghost predicate Registers(s: Storage, e: Event, id: nat, p: Project) {
    && e.call.DoRegister? && id == s.count + 1
    && p == Project(id, e.call.caller, e.call.hash, e.call.name, Pending, e.call.methodology, e.call.country)
  }

  lemma ProjectStep(s: Storage, e: Event, id: nat)
    requires Inv(s) && id in Step(s, e).projects
    ensures if id in s.projects then ProjectMoves(s, e, s.projects[id], Step(s, e).projects[id]) else Registers(s, e, id, Step(s, e).projects[id])
  {
    hide Inv, Step, ProjectMoves, Registers;
    DenseIds(s);
    match e.call
    case DoRegister(_, _, _, _, _, _) => RegisterStep(s, e, id);
    case DoApprove(_, _, _) => StatusStep(s, e, id);
    case DoReject(_, _, _) => StatusStep(s, e, id);
    case DoSuspend(_, _, _) => StatusStep(s, e, id);
    case DoRevoke(_, _, _) => StatusStep(s, e, id);
    case _ => RoleStep(s, e, id);
  }

  lemma RegisterStep(s: Storage, e: Event, id: nat)
    requires Inv(s) && e.call.DoRegister? && id in Step(s, e).projects && s.count + 1 !in s.projects
    ensures if id in s.projects then ProjectMoves(s, e, s.projects[id], Step(s, e).projects[id]) else Registers(s, e, id, Step(s, e).projects[id])
  {
    hide Inv, RegisterProject, GoodNonce, SpendsNonce;
    var c := e.call;
    RegisterRule(s, c.caller, c.hash, c.name, c.methodology, c.country, c.nonce);
  }

  lemma StatusStep(s: Storage, e: Event, id: nat)
    requires e.call.DoApprove? || e.call.DoReject? || e.call.DoSuspend? || e.call.DoRevoke?
    requires id in Step(s, e).projects && forall k :: k in s.projects ==> s.projects[k].id == k
    ensures id in s.projects && ProjectMoves(s, e, s.projects[id], Step(s, e).projects[id])
  {
    hide ApproveProject, RejectProject, SuspendProject, RevokeProject, GoodNonce, SpendsNonce;
    StatusRules(s, e.call.caller, e.call.id, e.call.nonce);
  }

  lemma RoleStep(s: Storage, e: Event, id: nat)
    requires e.call.DoSetOracle? || e.call.DoPropose? || e.call.DoCancel? || e.call.DoAccept?
    requires id in Step(s, e).projects
    ensures id in s.projects && ProjectMoves(s, e, s.projects[id], Step(s, e).projects[id])
  {
    hide SetOracleConsumer, ProposeAdminTransfer, CancelAdminTransfer, AcceptAdminTransfer, GoodNonce, SpendsNonce;
    var c := e.call;
    RoleRules(s, c.caller, if c.DoSetOracle? then c.oracle else if c.DoPropose? then c.candidate else c.caller, c.nonce, e.now);
  }

  lemma DenseIds(s: Storage)
    requires Inv(s)
    ensures s.count + 1 !in s.projects && forall id :: id in s.projects ==> s.projects[id].id == id
  {
  }

  /** Event `k` registered project `id`, whose identity is now that of `p`. */
  ghost predicate RegisteredAt(admin: Address, events: seq<Event>, k: nat, id: nat, p: Project)
    requires k < |events|
  {
    var s := Run(Constructed(admin), events[..k]);
    && events[k].call.DoRegister? && id == s.count + 1 && p.id == id
    && p.owner == events[k].call.caller && p.hash == events[k].call.hash && p.name == events[k].call.name
    && p.methodology == events[k].call.methodology && p.country == events[k].call.country
  }

  /** Event `k` gave project `id` the status `to`, by the admin then in office or, for a revocation, the oracle. */
  ghost predicate DecidedAt(admin: Address, events: seq<Event>, k: nat, id: nat, to: ProjectStatus)
    requires k < |events|
  {
    var s := Run(Constructed(admin), events[..k]);
    && id in s.projects && s.projects[id].status != to
    && (|| (to == Approved && events[k].call.DoApprove?) || (to == Inactive && events[k].call.DoSuspend?)
        || (to == Rejected && (events[k].call.DoReject? || events[k].call.DoRevoke?)))
    && (IsAdmin(s, events[k].call.caller) || (events[k].call.DoRevoke? && s.oracle == Some(events[k].call.caller)))
  }

  lemma RunInv(admin: Address, events: seq<Event>)
    ensures Inv(Run(Constructed(admin), events))
  {
    hide Inv, Run;
    ConstructedInv(admin);
    RunKeepsInv(Constructed(admin), events);
  }

  /** In every reachable state every project is what its owner registered, and a status other than Pending was
      given by a decision of the admin in office, or of the oracle consumer for a revocation. */
  lemma {:induction false} EveryProjectHasItsHistory(admin: Address, events: seq<Event>, n: nat, id: nat)
    requires n <= |events| && id in Run(Constructed(admin), events[..n]).projects
    ensures var p := Run(Constructed(admin), events[..n]).projects[id];
            && (exists k :: 0 <= k < n && RegisteredAt(admin, events, k, id, p))
            && (p.status != Pending ==> exists k :: 0 <= k < n && DecidedAt(admin, events, k, id, p.status))
    decreases n
  {
    hide Inv, Run, Step;
    var d := Constructed(admin);
    RunStart(d, events);
    if n > 0 {
      RunStep(d, events, n - 1);
      RunInv(admin, events[..n - 1]);
      var s, t, e := Run(d, events[..n - 1]), Run(d, events[..n]), events[n - 1];
      DenseIds(s);
      ProjectStep(s, e, id);
      if id in s.projects {
        EveryProjectHasItsHistory(admin, events, n - 1, id);
        var k :| 0 <= k < n - 1 && RegisteredAt(admin, events, k, id, s.projects[id]);
        assert RegisteredAt(admin, events, k, id, t.projects[id]);
        if t.projects[id].status != s.projects[id].status {
          assert DecidedAt(admin, events, n - 1, id, t.projects[id].status);
        } else if t.projects[id].status != Pending {
          var j :| 0 <= j < n - 1 && DecidedAt(admin, events, j, id, s.projects[id].status);
          assert DecidedAt(admin, events, j, id, t.projects[id].status);
        }
      } else {
        assert RegisteredAt(admin, events, n - 1, id, t.projects[id]);
      }
    }
  }
}
