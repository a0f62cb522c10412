/** contracts/project-registry/src/lib.rs: projects with one active holder per metadata hash, and an
    admin role that changes hands only through a timelocked, two-step transfer. */
module Registry {
  import opened Host
  import opened Shared

  const ADMIN_TIMELOCK: nat := 172_800

  datatype Project = Project(
    id: nat, owner: Address, hash: Hash, name: Symbol, status: ProjectStatus, methodology: Symbol, country: Symbol)

  datatype PendingAdminChange = PendingAdminChange(candidate: Address, executableAt: nat)

  datatype Err =
    | NotInitialized | Unauthorized | ProjectNotFound | ProjectAlreadyExists | InvalidStatusTransition | InvalidNonce
    | OracleConsumerNotSet | NoPendingAdminChange | TimelockNotElapsed | Trap

  datatype Storage = Storage(
    admin: Option<Address>, oracle: Option<Address>, pending: Option<PendingAdminChange>,
    projects: map<nat, Project>, count: nat, byHash: map<Hash, nat>, ownerProjects: map<Address, seq<nat>>, nonces: Nonces)

  function Constructed(admin: Address): Storage {
    Storage(Some(admin), None, None, map[], 0, map[], map[], map[])
  }

  predicate Active(p: Project) {
    p.status == Pending || p.status == Approved
  }

  function OwnedBy(s: Storage, a: Address): seq<nat> {
    if a in s.ownerProjects then s.ownerProjects[a] else []
  }

  // ----- checks -----

  function RequireAdmin(s: Storage, caller: Address): Option<Err> {
    if s.admin.None? then Some(NotInitialized)
    else if caller != s.admin.value then Some(Unauthorized)
    else None
  }

  function RequireAdminOrOracle(s: Storage, caller: Address): Option<Err> {
    if RequireAdmin(s, caller) == None then None
    else if s.oracle.None? then Some(OracleConsumerNotSet)
    else if caller != s.oracle.value then Some(Unauthorized)
    else None
  }

  /** A hash is taken while the project it points to is Pending or Approved. */
  predicate HashTaken(s: Storage, hash: Hash) {
    hash in s.byHash && s.byHash[hash] in s.projects && Active(s.projects[s.byHash[hash]])
  }

  function CheckNonce(s: Storage, caller: Address, nonce: nat): Result<Storage, Err> {
    match UseNonce(s.nonces, caller, nonce, InvalidNonce, Trap)
    case Err(e) => Err(e)
    case Ok(n) => Ok(s.(nonces := n))
  }

  /** Nonce first, then the admin check: the opening of every admin call. */
  function AdminCall(s: Storage, caller: Address, nonce: nat): Result<Storage, Err> {
    match CheckNonce(s, caller, nonce)
    case Err(e) => Err(e)
    case Ok(s1) =>
      match RequireAdmin(s1, caller)
      case Some(e) => Err(e)
      case None => Ok(s1)
  }

  // ----- entry points -----

  function RegisterProject(s: Storage, caller: Address, hash: Hash, name: Symbol, methodology: Symbol, country: Symbol, nonce: nat): Result<(Storage, nat), Err> {
    if nonce != NonceOf(s.nonces, caller) then Err(InvalidNonce)
    else if AllZero(hash) then Err(ProjectNotFound)
    else if HashTaken(s, hash) then Err(ProjectAlreadyExists)
    else if nonce >= U64_MAX || s.count >= U64_MAX then Err(Trap)
    else
      var id := s.count + 1;
      Ok((s.(nonces := s.nonces[caller := nonce + 1],
             count := id,
             projects := s.projects[id := Project(id, caller, hash, name, Pending, methodology, country)],
             byHash := s.byHash[hash := id],
             ownerProjects := s.ownerProjects[caller := OwnedBy(s, caller) + [id]]), id))
  }

  /** Move project `id` from one status to another, once the caller has been let in. */
  function Transition(s: Storage, id: nat, from: ProjectStatus, to: ProjectStatus): Result<(Storage, ()), Err> {
    if id !in s.projects then Err(ProjectNotFound)
    else if s.projects[id].status != from then Err(InvalidStatusTransition)
    else Ok((s.(projects := s.projects[id := s.projects[id].(status := to)]), ()))
  }

  function AdminTransition(s: Storage, caller: Address, id: nat, nonce: nat, from: ProjectStatus, to: ProjectStatus): Result<(Storage, ()), Err> {
    match AdminCall(s, caller, nonce)
    case Err(e) => Err(e)
    case Ok(s1) => Transition(s1, id, from, to)
  }

  function ApproveProject(s: Storage, caller: Address, id: nat, nonce: nat): Result<(Storage, ()), Err> {
    AdminTransition(s, caller, id, nonce, Pending, Approved)
  }

  function RejectProject(s: Storage, caller: Address, id: nat, nonce: nat): Result<(Storage, ()), Err> {
    AdminTransition(s, caller, id, nonce, Pending, Rejected)
  }

  function SuspendProject(s: Storage, caller: Address, id: nat, nonce: nat): Result<(Storage, ()), Err> {
    AdminTransition(s, caller, id, nonce, Approved, Inactive)
  }

  function RevokeProject(s: Storage, caller: Address, id: nat, nonce: nat): Result<(Storage, ()), Err> {
    match CheckNonce(s, caller, nonce)
    case Err(e) => Err(e)
    case Ok(s1) =>
      match RequireAdminOrOracle(s1, caller)
      case Some(e) => Err(e)
      case None => Transition(s1, id, Approved, Rejected)
  }

  function SetOracleConsumer(s: Storage, caller: Address, oracle: Address, nonce: nat): Result<(Storage, ()), Err> {
    match AdminCall(s, caller, nonce)
    case Err(e) => Err(e)
    case Ok(s1) => Ok((s1.(oracle := Some(oracle)), ()))
  }

  function ProposeAdminTransfer(s: Storage, caller: Address, candidate: Address, nonce: nat, now: nat): Result<(Storage, ()), Err> {
    match AdminCall(s, caller, nonce)
    case Err(e) => Err(e)
    case Ok(s1) =>
      if now + ADMIN_TIMELOCK > U64_MAX then Err(Trap)
      else Ok((s1.(pending := Some(PendingAdminChange(candidate, now + ADMIN_TIMELOCK))), ()))
  }

  function CancelAdminTransfer(s: Storage, caller: Address, nonce: nat): Result<(Storage, ()), Err> {
    match AdminCall(s, caller, nonce)
    case Err(e) => Err(e)
    case Ok(s1) =>
      if s1.pending.None? then Err(NoPendingAdminChange)
      else Ok((s1.(pending := None), ()))
  }

  function AcceptAdminTransfer(s: Storage, caller: Address, nonce: nat, now: nat): Result<(Storage, ()), Err> {
    match CheckNonce(s, caller, nonce)
    case Err(e) => Err(e)
    case Ok(s1) =>
      if s1.pending.None? then Err(NoPendingAdminChange)
      else if caller != s1.pending.value.candidate then Err(Unauthorized)
      else if now < s1.pending.value.executableAt then Err(TimelockNotElapsed)
      else if s1.admin.None? then Err(NotInitialized)
      else Ok((s1.(admin := Some(caller), pending := None), ()))
  }

  function GetProjectByHash(s: Storage, hash: Hash): Result<Project, Err> {
    if hash !in s.byHash || s.byHash[hash] !in s.projects then Err(ProjectNotFound)
    else Ok(s.projects[s.byHash[hash]])
  }

  // ----- runs -----

  datatype Call =
    | DoRegister(caller: Address, hash: Hash, name: Symbol, methodology: Symbol, country: Symbol, nonce: nat)
    | DoApprove(caller: Address, id: nat, nonce: nat)
    | DoReject(caller: Address, id: nat, nonce: nat)
    | DoSuspend(caller: Address, id: nat, nonce: nat)
    | DoRevoke(caller: Address, id: nat, nonce: nat)
    | DoSetOracle(caller: Address, oracle: Address, nonce: nat)
    | DoPropose(caller: Address, candidate: Address, nonce: nat)
    | DoCancel(caller: Address, nonce: nat)
    | DoAccept(caller: Address, nonce: nat)

  datatype Event = Event(call: Call, now: nat)

  function Step(s: Storage, e: Event): Storage {
    match e.call
    case DoRegister(caller, hash, name, methodology, country, nonce) => Committed(s, RegisterProject(s, caller, hash, name, methodology, country, nonce))
    case DoApprove(caller, id, nonce) => Committed(s, ApproveProject(s, caller, id, nonce))
    case DoReject(caller, id, nonce) => Committed(s, RejectProject(s, caller, id, nonce))
    case DoSuspend(caller, id, nonce) => Committed(s, SuspendProject(s, caller, id, nonce))
    case DoRevoke(caller, id, nonce) => Committed(s, RevokeProject(s, caller, id, nonce))
    case DoSetOracle(caller, oracle, nonce) => Committed(s, SetOracleConsumer(s, caller, oracle, nonce))
    case DoPropose(caller, candidate, nonce) => Committed(s, ProposeAdminTransfer(s, caller, candidate, nonce, e.now))
    case DoCancel(caller, nonce) => Committed(s, CancelAdminTransfer(s, caller, nonce))
    case DoAccept(caller, nonce) => Committed(s, AcceptAdminTransfer(s, caller, nonce, e.now))
  }

  function Run(s: Storage, events: seq<Event>): Storage {
    if events == [] then s
    else Step(Run(s, events[..|events| - 1]), events[|events| - 1])
  }

  // ----- the project table and its indexes -----

  /** The ids 1..n owned by `a`, in increasing order. */
  function IdsOf(projects: map<nat, Project>, n: nat, a: Address): seq<nat> {
    if n == 0 then []
    else if n in projects && projects[n].owner == a then IdsOf(projects, n - 1, a) + [n]
    else IdsOf(projects, n - 1, a)
  }

  ghost predicate TableOk(s: Storage) {
    && (forall id :: id in s.projects <==> 1 <= id <= s.count)
    && (forall id :: id in s.projects ==> s.projects[id].id == id && !AllZero(s.projects[id].hash))
  }

  /** The hash index points to the newest project of each hash, and to the active one if there is any. */
  ghost predicate HashIndexOk(s: Storage) {
    && (forall h :: h in s.byHash ==> s.byHash[h] in s.projects && s.projects[s.byHash[h]].hash == h)
    && (forall id :: id in s.projects ==> s.projects[id].hash in s.byHash && id <= s.byHash[s.projects[id].hash])
    && (forall id :: id in s.projects && Active(s.projects[id]) ==> s.byHash[s.projects[id].hash] == id)
  }

  ghost predicate OwnersOk(s: Storage) {
    forall a :: OwnedBy(s, a) == IdsOf(s.projects, s.count, a)
  }

  ghost predicate Inv(s: Storage) {
    TableOk(s) && HashIndexOk(s) && OwnersOk(s)
  }

  lemma {:induction false} IdsAgree(p: map<nat, Project>, q: map<nat, Project>, n: nat, a: Address)
    requires forall id :: 1 <= id <= n ==> (id in p <==> id in q) && (id in p ==> p[id].owner == q[id].owner)
    ensures IdsOf(p, n, a) == IdsOf(q, n, a)
  {
    if n > 0 {
      IdsAgree(p, q, n - 1, a);
    }
  }

  /** `t` has the tables of `s`, with one project's status rewritten. */
  ghost predicate Restatused(s: Storage, t: Storage, id: nat, to: ProjectStatus) {
    && id in s.projects && t.projects == s.projects[id := s.projects[id].(status := to)]
    && t.count == s.count && t.byHash == s.byHash && t.ownerProjects == s.ownerProjects
  }

  lemma RestatusKeepsIndex(s: Storage, t: Storage, id: nat, to: ProjectStatus)
    requires TableOk(s) && HashIndexOk(s) && Restatused(s, t, id, to)
    requires to == Pending || to == Approved ==> Active(s.projects[id])
    ensures HashIndexOk(t)
  {
    hide AllZero;
    forall jd | jd in t.projects
      ensures jd in s.projects && t.projects[jd].hash == s.projects[jd].hash
      ensures Active(t.projects[jd]) ==> Active(s.projects[jd])
    {
    }
    hide Active;
  }

  lemma RestatusKeepsTable(s: Storage, t: Storage, id: nat, to: ProjectStatus)
    requires TableOk(s) && Restatused(s, t, id, to)
    ensures TableOk(t)
  {
    hide AllZero;
  }

  lemma RestatusKeepsOwners(s: Storage, t: Storage, id: nat, to: ProjectStatus)
    requires OwnersOk(s) && Restatused(s, t, id, to)
    ensures OwnersOk(t)
  {
    forall a
      ensures OwnedBy(t, a) == IdsOf(t.projects, t.count, a)
    {
      IdsAgree(s.projects, t.projects, s.count, a);
      assert OwnedBy(s, a) == IdsOf(s.projects, s.count, a);
    }
  }

  ghost predicate SameTables(s: Storage, t: Storage) {
    t.projects == s.projects && t.count == s.count && t.byHash == s.byHash && t.ownerProjects == s.ownerProjects
  }

  lemma SameTablesKeepInv(s: Storage, t: Storage)
    requires Inv(s) && SameTables(s, t)
    ensures Inv(t)
  {
    forall a
      ensures OwnedBy(t, a) == IdsOf(t.projects, t.count, a)
    {
      assert OwnedBy(s, a) == IdsOf(s.projects, s.count, a);
    }
  }

  /** `t` has one more project, under the next id, than `s`. */
  ghost predicate Registered(s: Storage, t: Storage, p: Project) {
    && p.id == s.count + 1 && p.status == Pending && !AllZero(p.hash) && !HashTaken(s, p.hash)
    && t.count == p.id && t.projects == s.projects[p.id := p] && t.byHash == s.byHash[p.hash := p.id]
    && t.ownerProjects == s.ownerProjects[p.owner := OwnedBy(s, p.owner) + [p.id]]
  }

  lemma RegisterKeepsTable(s: Storage, t: Storage, p: Project)
    requires TableOk(s) && Registered(s, t, p)
    ensures TableOk(t)
  {
    hide AllZero, HashTaken;
  }

  lemma RegisterKeepsIndex(s: Storage, t: Storage, p: Project)
    requires TableOk(s) && HashIndexOk(s) && Registered(s, t, p)
    ensures HashIndexOk(t)
  {
    hide AllZero;
    assert p.id !in s.projects;
    forall id | id in t.projects && Active(t.projects[id])
      ensures t.byHash[t.projects[id].hash] == id
    {
      if id != p.id {
        assert s.byHash[s.projects[id].hash] == id;
      }
    }
    forall id | id in t.projects
      ensures t.projects[id].hash in t.byHash && id <= t.byHash[t.projects[id].hash]
    {
    }
    hide HashTaken;
  }

  lemma RegisterKeepsOwners(s: Storage, t: Storage, p: Project)
    requires TableOk(s) && OwnersOk(s) && Registered(s, t, p)
    ensures OwnersOk(t)
  {
    hide AllZero, HashTaken;
    forall a
      ensures OwnedBy(t, a) == IdsOf(t.projects, t.count, a)
    {
      IdsAgree(s.projects, t.projects, s.count, a);
      assert OwnedBy(s, a) == IdsOf(s.projects, s.count, a);
    }
  }

  // ----- what one call can do -----

  ghost predicate Moves(s: Storage, t: Storage) {
    || SameTables(s, t)
    || (exists p :: Registered(s, t, p))
    || (exists id, to :: StatusMoves(s, t, id, to))
  }

  /** Pending to Approved or Rejected, Approved to Inactive or Rejected, and nothing else. */
  ghost predicate StatusMoves(s: Storage, t: Storage, id: nat, to: ProjectStatus) {
    && Restatused(s, t, id, to)
    && (|| (s.projects[id].status == Pending && (to == Approved || to == Rejected))
        || (s.projects[id].status == Approved && (to == Inactive || to == Rejected)))
  }

  lemma AdminCallTables(s: Storage, caller: Address, nonce: nat)
    requires AdminCall(s, caller, nonce).Ok?
    ensures var t := AdminCall(s, caller, nonce).value;
            SameTables(s, t) && t.admin == s.admin && t.pending == s.pending && s.admin == Some(caller)
  {
  }

  lemma TransitionMoves(s: Storage, t: Storage, id: nat, from: ProjectStatus, to: ProjectStatus)
    requires SameTables(s, t) && t.admin == s.admin && t.pending == s.pending && Transition(t, id, from, to).Ok?
    requires (from == Pending && (to == Approved || to == Rejected)) || (from == Approved && (to == Inactive || to == Rejected))
    ensures StatusMoves(s, Transition(t, id, from, to).value.0, id, to)
    ensures var u := Transition(t, id, from, to).value.0; u.admin == s.admin && u.pending == s.pending
  {
  }

  lemma AdminTransitionMoves(s: Storage, caller: Address, id: nat, nonce: nat, from: ProjectStatus, to: ProjectStatus)
    requires AdminTransition(s, caller, id, nonce, from, to).Ok?
    requires (from == Pending && (to == Approved || to == Rejected)) || (from == Approved && (to == Inactive || to == Rejected))
    ensures StatusMoves(s, AdminTransition(s, caller, id, nonce, from, to).value.0, id, to)
    ensures var u := AdminTransition(s, caller, id, nonce, from, to).value.0; u.admin == s.admin && u.pending == s.pending
  {
    hide AdminCall, StatusMoves, Transition;
    AdminCallTables(s, caller, nonce);
    TransitionMoves(s, AdminCall(s, caller, nonce).value, id, from, to);
  }

  lemma RevokeMoves(s: Storage, caller: Address, id: nat, nonce: nat)
    requires RevokeProject(s, caller, id, nonce).Ok?
    ensures StatusMoves(s, RevokeProject(s, caller, id, nonce).value.0, id, Rejected)
    ensures var u := RevokeProject(s, caller, id, nonce).value.0; u.admin == s.admin && u.pending == s.pending
  {
    hide StatusMoves, Transition;
    TransitionMoves(s, CheckNonce(s, caller, nonce).value, id, Approved, Rejected);
  }

  lemma RegisterMoves(s: Storage, caller: Address, hash: Hash, name: Symbol, methodology: Symbol, country: Symbol, nonce: nat)
    requires RegisterProject(s, caller, hash, name, methodology, country, nonce).Ok?
    ensures var u := RegisterProject(s, caller, hash, name, methodology, country, nonce).value.0;
            && Registered(s, u, Project(s.count + 1, caller, hash, name, Pending, methodology, country))
            && u.admin == s.admin && u.pending == s.pending
  {
    hide AllZero;
  }

  /** The two entries of the admin role, and the calls that may change them. */
  ghost predicate RoleMoves(s: Storage, t: Storage, e: Event) {
    || (t.admin == s.admin && t.pending == s.pending)
    || (e.call.DoPropose? && s.admin == Some(e.call.caller) && t.admin == s.admin
        && t.pending == Some(PendingAdminChange(e.call.candidate, e.now + ADMIN_TIMELOCK)))
    || (e.call.DoCancel? && s.admin == Some(e.call.caller) && t.admin == s.admin && t.pending == None)
    || (e.call.DoAccept? && s.admin.Some? && s.pending.Some? && s.pending.value.candidate == e.call.caller
        && s.pending.value.executableAt <= e.now && t.admin == Some(e.call.caller) && t.pending == None)
  }

  lemma StepMoves(s: Storage, e: Event)
    ensures Moves(s, Step(s, e)) && RoleMoves(s, Step(s, e), e)
  {
    hide StatusMoves, Registered, RegisterProject, AdminTransition, RevokeProject, AdminCall;
    var t := Step(s, e);
    if t != s {
      match e.call
      case DoRegister(caller, hash, name, methodology, country, nonce) => RegisterMoves(s, caller, hash, name, methodology, country, nonce);
      case DoApprove(caller, id, nonce) => AdminTransitionMoves(s, caller, id, nonce, Pending, Approved);
      case DoReject(caller, id, nonce) => AdminTransitionMoves(s, caller, id, nonce, Pending, Rejected);
      case DoSuspend(caller, id, nonce) => AdminTransitionMoves(s, caller, id, nonce, Approved, Inactive);
      case DoRevoke(caller, id, nonce) => RevokeMoves(s, caller, id, nonce);
      case DoSetOracle(caller, oracle, nonce) => AdminCallTables(s, caller, nonce);
      case DoPropose(caller, candidate, nonce) => AdminCallTables(s, caller, nonce);
      case DoCancel(caller, nonce) => AdminCallTables(s, caller, nonce);
      case DoAccept(caller, nonce) =>
    }
  }

  lemma MoveKeepsInv(s: Storage, t: Storage)
    requires Inv(s) && Moves(s, t)
    ensures Inv(t)
  {
    hide Registered, Restatused, OwnersOk, HashIndexOk, TableOk;
    if SameTables(s, t) {
      SameTablesKeepInv(s, t);
    } else if p :| Registered(s, t, p) {
      RegisterKeepsTable(s, t, p);
      RegisterKeepsIndex(s, t, p);
      RegisterKeepsOwners(s, t, p);
    } else {
      var id, to :| StatusMoves(s, t, id, to);
      InTable(s, t, id, to);
      RestatusKeepsTable(s, t, id, to);
      RestatusKeepsIndex(s, t, id, to);
      RestatusKeepsOwners(s, t, id, to);
    }
  }

  lemma InTable(s: Storage, t: Storage, id: nat, to: ProjectStatus)
    requires Restatused(s, t, id, to)
    ensures id in s.projects
  {
  }

  // ----- whole runs -----

  lemma ConstructedInv(admin: Address)
    ensures Inv(Constructed(admin))
  {
  }

  lemma {:induction false} RunKeepsInv(s: Storage, events: seq<Event>)
    requires Inv(s)
    ensures Inv(Run(s, events))
    decreases |events|
  {
    hide Inv, Step;
    if events != [] {
      var n := |events| - 1;
      RunKeepsInv(s, events[..n]);
      StepMoves(Run(s, events[..n]), events[n]);
      MoveKeepsInv(Run(s, events[..n]), Run(s, events));
    }
  }

  /** Two active projects with the same hash are the same project. */
  ghost predicate OneActive(s: Storage) {
    forall i, j :: i in s.projects && j in s.projects && Active(s.projects[i]) && Active(s.projects[j]) ==>
      s.projects[i].hash == s.projects[j].hash ==> i == j
  }

  /** In every reachable state a metadata hash has at most one Pending or Approved project, and looking
      the hash up finds it; a hash is refused exactly while it has one. */
  lemma EveryRunHasUniqueHashes(admin: Address, events: seq<Event>)
    ensures var s := Run(Constructed(admin), events);
            && Inv(s)
            && OneActive(s)
            && (forall i :: i in s.projects && Active(s.projects[i]) ==> GetProjectByHash(s, s.projects[i].hash) == Ok(s.projects[i]))
            && (forall h :: HashTaken(s, h) <==> exists i :: i in s.projects && s.projects[i].hash == h && Active(s.projects[i]))
  {
    ConstructedInv(admin);
    RunKeepsInv(Constructed(admin), events);
    UniqueHashes(Run(Constructed(admin), events));
    hide Inv, Run;
  }

  lemma UniqueHashes(s: Storage)
    requires TableOk(s) && HashIndexOk(s)
    ensures OneActive(s)
    ensures forall i :: i in s.projects && Active(s.projects[i]) ==> GetProjectByHash(s, s.projects[i].hash) == Ok(s.projects[i])
    ensures forall h :: HashTaken(s, h) <==> exists i :: i in s.projects && s.projects[i].hash == h && Active(s.projects[i])
  {
    forall h
      ensures HashTaken(s, h) <==> exists i :: i in s.projects && s.projects[i].hash == h && Active(s.projects[i])
    {
      if HashTaken(s, h) {
        var i := s.byHash[h];
        assert i in s.projects && s.projects[i].hash == h;
      }
    }
  }

  // ----- projects never come back -----

  /** Identity is frozen; a project that is no longer active is frozen altogether. */
  ghost predicate Follows(p: Project, q: Project) {
    && q == p.(status := q.status)
    && (!Active(p) ==> q == p)
    && (p.status == Approved ==> q.status != Pending)
  }

  ghost predicate Evolves(s: Storage, t: Storage) {
    s.count <= t.count && forall id :: id in s.projects ==> id in t.projects && Follows(s.projects[id], t.projects[id])
  }

  lemma MoveEvolves(s: Storage, t: Storage)
    requires TableOk(s) && Moves(s, t)
    ensures Evolves(s, t)
  {
  }

  /** Between any two points of a run: a project that has left Pending and Approved never changes again. */
  lemma {:induction false} RunEvolves(s: Storage, events: seq<Event>)
    requires Inv(s)
    ensures Evolves(s, Run(s, events))
    decreases |events|
  {
    hide Step, Moves, HashIndexOk, OwnersOk, TableOk;
    if events != [] {
      var n := |events| - 1;
      RunEvolves(s, events[..n]);
      RunKeepsInv(s, events[..n]);
      StepMoves(Run(s, events[..n]), events[n]);
      MoveEvolves(Run(s, events[..n]), Run(s, events));
    }
  }

  // ----- admin handovers -----

  function AdminAt(s: Storage, events: seq<Event>, k: nat): Option<Address>
    requires k <= |events|
  {
    Run(s, events[..k]).admin
  }

  /** Event `i` is a proposal of `candidate` by the admin of that moment, who stays admin up to state `k`. */
  ghost predicate ProposedAt(s: Storage, events: seq<Event>, i: nat, k: nat, candidate: Address)
    requires k <= |events|
  {
    && i < k
    && events[i].call.DoPropose? && events[i].call.candidate == candidate
    && (forall m :: i <= m <= k ==> AdminAt(s, events, m) == Some(events[i].call.caller))
  }

  lemma RunStep(s: Storage, events: seq<Event>, k: nat)
    requires k < |events|
    ensures Run(s, events[..k + 1]) == Step(Run(s, events[..k]), events[k])
  {
    assert events[..k + 1][..k] == events[..k];
  }

  /** A transfer waiting in state `k` was proposed by the admin still in office. */
  lemma {:induction false} PendingWasProposed(s: Storage, events: seq<Event>, k: nat)
    requires s.pending.None? && k <= |events| && Run(s, events[..k]).pending.Some?
    ensures exists i: nat :: ProposedAt(s, events, i, k, Run(s, events[..k]).pending.value.candidate)
                && events[i].now + ADMIN_TIMELOCK == Run(s, events[..k]).pending.value.executableAt
    decreases k
  {
    hide Step, Moves, Run;
    RunStart(s, events);
    if k > 0 {
      RunStep(s, events, k - 1);
      var t, u, e := Run(s, events[..k - 1]), Run(s, events[..k]), events[k - 1];
      StepMoves(t, e);
      if u.pending == t.pending && u.admin == t.admin {
        PendingWasProposed(s, events, k - 1);
        var i: nat :| ProposedAt(s, events, i, k - 1, t.pending.value.candidate) && events[i].now + ADMIN_TIMELOCK == t.pending.value.executableAt;
        assert AdminAt(s, events, k - 1) == t.admin && AdminAt(s, events, k) == u.admin;
        assert ProposedAt(s, events, i, k, t.pending.value.candidate);
      } else {
        assert ProposedAt(s, events, k - 1, k, u.pending.value.candidate);
      }
    }
  }

  lemma RunStart(s: Storage, events: seq<Event>)
    ensures Run(s, events[..0]) == s
  {
  }

  /** The admin only ever becomes an address that accepts for itself and that the admin then in office,
      who stayed in office meanwhile, proposed at least 172800 seconds earlier. */
  lemma AdminHandover(admin: Address, events: seq<Event>, k: nat)
    requires k < |events|
    requires AdminAt(Constructed(admin), events, k + 1) != AdminAt(Constructed(admin), events, k)
    ensures var s := Constructed(admin);
            && events[k].call.DoAccept?
            && AdminAt(s, events, k + 1) == Some(events[k].call.caller)
            && exists i: nat :: ProposedAt(s, events, i, k, events[k].call.caller) && events[i].now + 172_800 <= events[k].now
  {
    hide Step, Moves, Run;
    var s := Constructed(admin);
    RunStep(s, events, k);
    StepMoves(Run(s, events[..k]), events[k]);
    PendingWasProposed(s, events, k);
  }
}
