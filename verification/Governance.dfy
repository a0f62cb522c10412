/** contracts/governance/src/lib.rs: M-of-N proposals with a timelock and an expiry, an execution
    allowlist that only a passed proposal can replace, and entries in two storage tiers. */
module Governance {
  import opened Host

  const TTL_SECONDS: nat := 2_592_000
  const DEFAULT_TIMELOCK: nat := 172_800
  const MAX_ALLOWED_CALLS: nat := 64
  const PERSISTENT_VERSION: nat := 1
  const SET_ALLOWED_CALLS: Symbol := "set_allowed_calls"

  datatype AllowedCall = AllowedCall(contract: Address, fn: Symbol)

  /** A host value, as far as argument decoding looks into it. */
  datatype Val = AddressVal(address: Address) | U64Val(n: nat) | CallVal(call: AllowedCall) | VecVal(items: seq<Val>) | OtherVal(tag: nat)

  datatype VoteChoice = Approve | Veto

  datatype ProposalStatus = Pending | Queued | Executed | Rejected | Cancelled | Expired

  datatype Proposal = Proposal(
    id: nat, proposer: Address, target: Address, fn: Symbol, args: seq<Val>, description: Symbol,
    status: ProposalStatus, approvals: nat, vetoes: nat,
    createdAt: nat, expiresAt: nat, queuedAt: nat, executedAt: nat, timelock: nat)

  datatype Err =
    | NotInitialized | NotSigner | InvalidNonce | NonceArchived | ProposalNotFound | NotPending | ProposalExpired
    | AlreadyVoted | NotQueued | TimelockNotElapsed | UnauthorizedCall | Unauthorized | InvalidCallArgs | Trap

  /** Entries of the legacy instance tier and of the persistent tier. */
  datatype Storage = Storage(
    self: Address, signers: Option<seq<Address>>, threshold: Option<nat>, timelock: Option<nat>, version: nat,
    legacyProposals: map<nat, Proposal>, legacyCount: Option<nat>,
    legacyVotes: map<(nat, Address), VoteChoice>, legacyNonces: Nonces,
    proposals: map<nat, Proposal>, count: Option<nat>,
    votes: map<(nat, Address), VoteChoice>, nonces: Nonces, nonceMarkers: set<Address>,
    allowed: seq<AllowedCall>)

  // ----- reads: the persistent tier first, then the legacy tier -----

  function Proposals(s: Storage): map<nat, Proposal> {
    s.legacyProposals + s.proposals
  }

  function Votes(s: Storage): map<(nat, Address), VoteChoice> {
    s.legacyVotes + s.votes
  }

  function Count(s: Storage): nat {
    if s.count.Some? then s.count.value else if s.legacyCount.Some? then s.legacyCount.value else 0
  }

  function Threshold(s: Storage): nat {
    if s.threshold.Some? then s.threshold.value else 1
  }

  function Timelock(s: Storage): nat {
    if s.timelock.Some? then s.timelock.value else DEFAULT_TIMELOCK
  }

  /** A marker without its nonce means the nonce was archived: no silent restart at zero. */
  function ReadNonce(s: Storage, a: Address): Result<nat, Err> {
    if a in s.nonces then Ok(s.nonces[a])
    else if a in s.legacyNonces then Ok(s.legacyNonces[a])
    else if a in s.nonceMarkers then Err(NonceArchived)
    else Ok(0)
  }

  // ----- checks -----

  function CheckNonce(s: Storage, a: Address, nonce: nat): Result<Storage, Err> {
    match ReadNonce(s, a)
    case Err(e) => Err(e)
    case Ok(current) =>
      if nonce != current then Err(InvalidNonce)
      else if nonce >= U64_MAX then Err(Trap)
      else Ok(s.(nonces := s.nonces[a := nonce + 1], nonceMarkers := s.nonceMarkers + {a}))
  }

  function RequireSigner(s: Storage, a: Address): Option<Err> {
    if s.signers.None? then Some(NotInitialized)
    else if a !in s.signers.value then Some(NotSigner)
    else None
  }

  /** Nonce first, then membership: the opening of every signer call. */
  function Admit(s: Storage, caller: Address, nonce: nat): Result<Storage, Err> {
    match CheckNonce(s, caller, nonce)
    case Err(e) => Err(e)
    case Ok(s1) =>
      match RequireSigner(s1, caller)
      case Some(e) => Err(e)
      case None => Ok(s1)
  }

  // ----- the allowlist -----

  predicate Distinct<T(==)>(s: seq<T>) {
    forall i, j :: 0 <= i < j < |s| ==> s[i] != s[j]
  }

  /** First occurrences, in order. */
  function Dedup(calls: seq<AllowedCall>): (d: seq<AllowedCall>)
    ensures Distinct(d) && |d| <= |calls|
    ensures forall c :: c in d <==> c in calls
  {
    if calls == [] then []
    else
      var last := calls[|calls| - 1];
      var d := Dedup(calls[..|calls| - 1]);
      assert calls == calls[..|calls| - 1] + [last];
      if last in d then d else d + [last]
  }

  predicate AllCalls(items: seq<Val>) {
    forall i :: 0 <= i < |items| ==> items[i].CallVal?
  }

  function CallsOf(items: seq<Val>): (calls: seq<AllowedCall>)
    requires AllCalls(items)
    ensures |calls| == |items| && forall i :: 0 <= i < |items| ==> calls[i] == items[i].call
  {
    seq(|items|, i requires 0 <= i < |items| => items[i].call)
  }

  function WriteAllowedCalls(s: Storage, items: seq<Val>): Result<Storage, Err> {
    if |items| > MAX_ALLOWED_CALLS || !AllCalls(items) then Err(InvalidCallArgs)
    else Ok(s.(allowed := Dedup(CallsOf(items))))
  }

  function ApplySetAllowedCalls(s: Storage, caller: Address, items: seq<Val>, nonce: nat): Result<Storage, Err> {
    if caller != s.self then Err(Unauthorized)
    else
      match CheckNonce(s, caller, nonce)
      case Err(e) => Err(e)
      case Ok(s1) => WriteAllowedCalls(s1, items)
  }

  function IsExecutable(s: Storage, target: Address, fn: Symbol): bool {
    if target == s.self then fn == SET_ALLOWED_CALLS else AllowedCall(target, fn) in s.allowed
  }

  function DispatchSelfCall(s: Storage, fn: Symbol, args: seq<Val>): Result<Storage, Err> {
    if fn != SET_ALLOWED_CALLS then Err(UnauthorizedCall)
    else if |args| != 3 || !args[0].AddressVal? || !args[1].VecVal? || !args[2].U64Val? then Err(InvalidCallArgs)
    else ApplySetAllowedCalls(s, args[0].address, args[1].items, args[2].n)
  }

  // ----- entry points -----

  function Construct(self: Address, signers: seq<Address>, threshold: nat, timelock: nat, items: seq<Val>): Result<Storage, Err> {
    if signers == [] || threshold == 0 || threshold > |signers| || !Distinct(signers) then Err(Trap)
    else if |items| > MAX_ALLOWED_CALLS || !AllCalls(items) then Err(Trap)
    else
      Ok(Storage(self, Some(signers), Some(threshold), Some(timelock), 0,
                 map[], None, map[], map[], map[], None, map[], map[], {}, Dedup(CallsOf(items))))
  }

  function NewProposal(s: Storage, id: nat, caller: Address, target: Address, fn: Symbol, args: seq<Val>, description: Symbol, now: nat): Proposal {
    Proposal(id, caller, target, fn, args, description, Pending, 0, 0,
             now, SaturatingAddU64(now, TTL_SECONDS), 0, 0, Timelock(s))
  }

  function Propose(s: Storage, caller: Address, target: Address, fn: Symbol, args: seq<Val>, description: Symbol, nonce: nat, now: nat): Result<(Storage, nat), Err> {
    match Admit(s, caller, nonce)
    case Err(e) => Err(e)
    case Ok(s1) =>
      if !IsExecutable(s1, target, fn) then Err(UnauthorizedCall)
      else if Count(s1) >= U64_MAX then Err(Trap)
      else
        var id := Count(s1) + 1;
        Ok((s1.(count := Some(id), proposals := s1.proposals[id := NewProposal(s1, id, caller, target, fn, args, description, now)]), id))
  }

  /** The guards the two votes share: what is voted on, with the nonce already used. */
  function Ballot(s: Storage, caller: Address, id: nat, nonce: nat, now: nat): Result<(Storage, Proposal), Err> {
    match Admit(s, caller, nonce)
    case Err(e) => Err(e)
    case Ok(s1) =>
      if id !in Proposals(s1) then Err(ProposalNotFound)
      else
        var p := Proposals(s1)[id];
        if p.status != Pending then Err(NotPending)
        else if now >= p.expiresAt then Err(ProposalExpired)
        else if (id, caller) in Votes(s1) then Err(AlreadyVoted)
        else Ok((s1, p))
  }

  function Approved(p: Proposal, threshold: nat, now: nat): Proposal {
    if p.approvals + 1 >= threshold then p.(approvals := p.approvals + 1, status := Queued, queuedAt := now)
    else p.(approvals := p.approvals + 1)
  }

  function Vetoed(p: Proposal, threshold: nat): Proposal {
    if p.vetoes + 1 >= threshold then p.(vetoes := p.vetoes + 1, status := Rejected)
    else p.(vetoes := p.vetoes + 1)
  }

  function VoteApprove(s: Storage, caller: Address, id: nat, nonce: nat, now: nat): Result<(Storage, ()), Err> {
    match Ballot(s, caller, id, nonce, now)
    case Err(e) => Err(e)
    case Ok((s1, p)) =>
      if p.approvals >= U32_MAX then Err(Trap)
      else
        Ok((s1.(votes := s1.votes[(id, caller) := Approve],
                proposals := s1.proposals[id := Approved(p, Threshold(s1), now)]), ()))
  }

  function VoteVeto(s: Storage, caller: Address, id: nat, nonce: nat, now: nat): Result<(Storage, ()), Err> {
    match Ballot(s, caller, id, nonce, now)
    case Err(e) => Err(e)
    case Ok((s1, p)) =>
      if p.vetoes >= U32_MAX then Err(Trap)
      else
        Ok((s1.(votes := s1.votes[(id, caller) := Veto],
                proposals := s1.proposals[id := Vetoed(p, Threshold(s1))]), ()))
  }

  function Cancel(s: Storage, caller: Address, id: nat, nonce: nat): Result<(Storage, ()), Err> {
    match Admit(s, caller, nonce)
    case Err(e) => Err(e)
    case Ok(s1) =>
      if id !in Proposals(s1) then Err(ProposalNotFound)
      else if Proposals(s1)[id].status != Pending then Err(NotPending)
      else Ok((s1.(proposals := s1.proposals[id := Proposals(s1)[id].(status := Cancelled)]), ()))
  }

  /** `callOk` says whether the invoked contract returned; when it fails the whole call is undone. */
  function Dispatch(s: Storage, p: Proposal, callOk: bool): Result<Storage, Err> {
    if p.target == s.self then DispatchSelfCall(s, p.fn, p.args)
    else if AllowedCall(p.target, p.fn) !in s.allowed then Err(UnauthorizedCall)
    else if !callOk then Err(Trap)
    else Ok(s)
  }

  function Execute(s: Storage, caller: Address, id: nat, nonce: nat, callOk: bool, now: nat): Result<(Storage, ()), Err> {
    match CheckNonce(s, caller, nonce)
    case Err(e) => Err(e)
    case Ok(s1) =>
      if id !in Proposals(s1) then Err(ProposalNotFound)
      else
        var p := Proposals(s1)[id];
        if p.status != Queued then Err(NotQueued)
        else if now >= p.expiresAt then Err(ProposalExpired)
        else if now < SaturatingAddU64(p.queuedAt, p.timelock) then Err(TimelockNotElapsed)
        else
          match Dispatch(s1, p, callOk)
          case Err(e) => Err(e)
          case Ok(s2) => Ok((s2.(proposals := s2.proposals[id := p.(status := Executed, executedAt := now)]), ()))
  }

  function SetAllowedCalls(s: Storage, caller: Address, items: seq<Val>, nonce: nat): Result<(Storage, ()), Err> {
    match ApplySetAllowedCalls(s, caller, items, nonce)
    case Err(e) => Err(e)
    case Ok(s1) => Ok((s1, ()))
  }

  // ----- migration -----

  /** Legacy proposals numbered 1..count that have no persistent entry. */
  function Unmigrated(s: Storage, count: nat): map<nat, Proposal> {
    map id | id in s.legacyProposals && 1 <= id <= count && id !in s.proposals :: s.legacyProposals[id]
  }

  /** Storage once the copying loop is done. */
  function Migrated(s: Storage): Storage {
    if s.legacyCount.None? then s.(version := PERSISTENT_VERSION)
    else
      s.(version := PERSISTENT_VERSION,
         count := if s.count.Some? then s.count else s.legacyCount,
         proposals := s.proposals + Unmigrated(s, s.legacyCount.value))
  }

  function MigrateStorage(s: Storage, caller: Address): Result<(Storage, nat), Err> {
    match RequireSigner(s, caller)
    case Some(e) => Err(e)
    case None =>
      if s.version >= PERSISTENT_VERSION then Ok((s, 0))
      else Ok((Migrated(s), if s.legacyCount.Some? then |Unmigrated(s, s.legacyCount.value)| else 0))
  }

  lemma MovedReads(s: Storage, count: nat)
    ensures s.legacyProposals + (s.proposals + Unmigrated(s, count)) == Proposals(s)
    ensures (s.proposals + Unmigrated(s, count)).Keys - s.proposals.Keys == Unmigrated(s, count).Keys
    ensures forall id :: 1 <= id <= count && id in Proposals(s) ==> id in s.proposals + Unmigrated(s, count)
  {
  }

  /** Nothing a caller can read differs. */
  ghost predicate SameReads(s: Storage, t: Storage) {
    && Proposals(s) == Proposals(t) && Count(s) == Count(t) && Votes(s) == Votes(t)
    && (forall a :: ReadNonce(s, a) == ReadNonce(t, a))
    && s.allowed == t.allowed && s.signers == t.signers && s.self == t.self
    && Threshold(s) == Threshold(t) && Timelock(s) == Timelock(t)
  }

  lemma MigratedReads(s: Storage)
    ensures SameReads(s, Migrated(s))
  {
    hide Unmigrated;
    if s.legacyCount.Some? {
      MovedReads(s, s.legacyCount.value);
    }
  }

  lemma MigratedKeys(s: Storage)
    requires s.legacyCount.Some?
    ensures |Unmigrated(s, s.legacyCount.value)| == |Migrated(s).proposals.Keys - s.proposals.Keys|
    ensures forall id :: 1 <= id <= s.legacyCount.value && id in Proposals(s) ==> id in Migrated(s).proposals
  {
    hide Unmigrated;
    MovedReads(s, s.legacyCount.value);
    var moved := Unmigrated(s, s.legacyCount.value);
    assert |moved| == |moved.Keys|;
  }

  lemma NoneCopied(s: Storage)
    ensures |s.proposals.Keys - s.proposals.Keys| == 0
  {
  }

  /** Migrating changes where entries live and nothing anyone can read. The result counts exactly the
      ids copied; every readable id up to the legacy count is then persistent; a second call copies
      nothing. */
  lemma MigrationPreservesMeaning(s: Storage, caller: Address)
    requires MigrateStorage(s, caller).Ok?
    ensures var (s1, n) := MigrateStorage(s, caller).value;
            && SameReads(s, s1)
            && n == |s1.proposals.Keys - s.proposals.Keys|
            && (s.version < PERSISTENT_VERSION && s.legacyCount.Some? ==>
                  forall id :: 1 <= id <= s.legacyCount.value && id in Proposals(s) ==> id in s1.proposals)
            && MigrateStorage(s1, caller) == Ok((s1, 0))
  {
    MigratedReads(s);
    NoneCopied(s);
    if s.version < PERSISTENT_VERSION && s.legacyCount.Some? {
      MigratedKeys(s);
    }
    MigratedVersion(s);
    SignersDecide(Migrated(s), s, caller);
    hide Unmigrated, Proposals, Migrated, Votes, ReadNonce, Count, RequireSigner;
  }

  lemma MigratedVersion(s: Storage)
    ensures Migrated(s).version == PERSISTENT_VERSION && Migrated(s).signers == s.signers
    ensures s.legacyCount.None? ==> Migrated(s).proposals == s.proposals
  {
    hide Unmigrated;
  }

  lemma SignersDecide(s: Storage, t: Storage, caller: Address)
    requires s.signers == t.signers
    ensures RequireSigner(s, caller) == RequireSigner(t, caller)
  {
  }
}
