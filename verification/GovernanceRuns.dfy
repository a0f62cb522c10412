/** Governance safety over whole runs: what votes, timelock, expiry and allowlist guarantee, whatever
    mix of storage tiers the entries live in. */
module GovernanceRuns {
  import opened Host
  import opened Governance

  // ----- what callers can read -----

  /** The contract's state with the two storage tiers folded into one. */
  datatype View = View(
    self: Address, signers: Option<seq<Address>>, threshold: nat, timelock: nat, count: nat,
    proposals: map<nat, Proposal>, votes: map<(nat, Address), VoteChoice>, allowed: seq<AllowedCall>)

  function ViewOf(s: Storage): View {
    View(s.self, s.signers, Threshold(s), Timelock(s), Count(s), Proposals(s), Votes(s), s.allowed)
  }

  lemma WriteThrough<K, V>(legacy: map<K, V>, persistent: map<K, V>, k: K, v: V)
    ensures legacy + persistent[k := v] == (legacy + persistent)[k := v]
  {
  }

  lemma NonceIsInvisible(s: Storage, a: Address, nonce: nat)
    ensures CheckNonce(s, a, nonce).Ok? ==> ViewOf(CheckNonce(s, a, nonce).value) == ViewOf(s)
  {
  }

  lemma AdmitView(s: Storage, caller: Address, nonce: nat)
    requires Admit(s, caller, nonce).Ok?
    ensures ViewOf(Admit(s, caller, nonce).value) == ViewOf(s)
    ensures s.signers.Some? && caller in s.signers.value
  {
    hide ViewOf;
    NonceIsInvisible(s, caller, nonce);
    NonceKeepsSigners(s, caller, nonce);
    hide CheckNonce;
  }

  lemma NonceKeepsSigners(s: Storage, a: Address, nonce: nat)
    ensures CheckNonce(s, a, nonce).Ok? ==> CheckNonce(s, a, nonce).value.signers == s.signers
  {
  }

  lemma PutProposal(s: Storage, id: nat, p: Proposal)
    ensures ViewOf(s.(proposals := s.proposals[id := p])) == ViewOf(s).(proposals := Proposals(s)[id := p])
  {
    WriteThrough(s.legacyProposals, s.proposals, id, p);
  }

  lemma PutCount(s: Storage, n: nat)
    ensures ViewOf(s.(count := Some(n))) == ViewOf(s).(count := n)
  {
  }

  // ----- each call as one step of the view -----

  lemma ProposeView(s: Storage, caller: Address, target: Address, fn: Symbol, args: seq<Val>, description: Symbol, nonce: nat, now: nat)
    requires Propose(s, caller, target, fn, args, description, nonce, now).Ok?
    ensures var v := ViewOf(s);
            var id := v.count + 1;
            var p := NewProposal(s, id, caller, target, fn, args, description, now);
            ViewOf(Propose(s, caller, target, fn, args, description, nonce, now).value.0) == v.(count := id, proposals := v.proposals[id := p])
  {
    var s1 := Admit(s, caller, nonce).value;
    AdmitView(s, caller, nonce);
    var id := Count(s1) + 1;
    var p := NewProposal(s1, id, caller, target, fn, args, description, now);
    var s2 := s1.(count := Some(id));
    PutCount(s1, id);
    PutProposal(s2, id, p);
    assert s2.(proposals := s2.proposals[id := p]) == s1.(count := Some(id), proposals := s1.proposals[id := p]);
    hide Admit, IsExecutable, SaturatingAddU64;
  }

  lemma BallotView(s: Storage, caller: Address, id: nat, nonce: nat, now: nat)
    requires Ballot(s, caller, id, nonce, now).Ok?
    ensures var (s1, p) := Ballot(s, caller, id, nonce, now).value;
            var v := ViewOf(s);
            && ViewOf(s1) == v && s.signers.Some? && caller in s.signers.value
            && id in v.proposals && p == v.proposals[id] && p.status == Pending && now < p.expiresAt && (id, caller) !in v.votes
  {
    AdmitView(s, caller, nonce);
    hide Admit;
  }

  lemma VoteApproveView(s: Storage, caller: Address, id: nat, nonce: nat, now: nat)
    requires VoteApprove(s, caller, id, nonce, now).Ok?
    ensures var v := ViewOf(s);
            && id in v.proposals && v.proposals[id].status == Pending && now < v.proposals[id].expiresAt
            && v.signers.Some? && caller in v.signers.value && (id, caller) !in v.votes
            && ViewOf(VoteApprove(s, caller, id, nonce, now).value.0)
               == v.(votes := v.votes[(id, caller) := Approve], proposals := v.proposals[id := Approved(v.proposals[id], v.threshold, now)])
  {
    hide Ballot, Approved;
    BallotView(s, caller, id, nonce, now);
    var (s1, p) := Ballot(s, caller, id, nonce, now).value;
    CastView(s1, id, caller, Approve, Approved(p, Threshold(s1), now));
  }

  lemma CastView(s: Storage, id: nat, a: Address, c: VoteChoice, p: Proposal)
    ensures ViewOf(s.(votes := s.votes[(id, a) := c], proposals := s.proposals[id := p]))
            == ViewOf(s).(votes := Votes(s)[(id, a) := c], proposals := Proposals(s)[id := p])
  {
    WriteThrough(s.legacyVotes, s.votes, (id, a), c);
    WriteThrough(s.legacyProposals, s.proposals, id, p);
  }

  lemma VoteVetoView(s: Storage, caller: Address, id: nat, nonce: nat, now: nat)
    requires VoteVeto(s, caller, id, nonce, now).Ok?
    ensures var v := ViewOf(s);
            && id in v.proposals && v.proposals[id].status == Pending && now < v.proposals[id].expiresAt
            && v.signers.Some? && caller in v.signers.value && (id, caller) !in v.votes
            && ViewOf(VoteVeto(s, caller, id, nonce, now).value.0)
               == v.(votes := v.votes[(id, caller) := Veto], proposals := v.proposals[id := Vetoed(v.proposals[id], v.threshold)])
  {
    hide Ballot, Vetoed;
    BallotView(s, caller, id, nonce, now);
    var (s1, p) := Ballot(s, caller, id, nonce, now).value;
    CastView(s1, id, caller, Veto, Vetoed(p, Threshold(s1)));
  }

  lemma CancelView(s: Storage, caller: Address, id: nat, nonce: nat)
    requires Cancel(s, caller, id, nonce).Ok?
    ensures var v := ViewOf(s);
            && id in v.proposals && v.proposals[id].status == Pending && v.signers.Some? && caller in v.signers.value
            && ViewOf(Cancel(s, caller, id, nonce).value.0) == v.(proposals := v.proposals[id := v.proposals[id].(status := Cancelled)])
  {
    hide Admit;
    var s1 := Admit(s, caller, nonce).value;
    AdmitView(s, caller, nonce);
    PutProposal(s1, id, Proposals(s1)[id].(status := Cancelled));
  }

  /** The arguments a self-administration proposal must carry, and the list they ask for. */
  predicate SelfArgs(self: Address, fn: Symbol, args: seq<Val>) {
    && fn == "set_allowed_calls" && |args| == 3
    && args[0] == AddressVal(self) && args[1].VecVal? && args[2].U64Val?
    && |args[1].items| <= 64 && AllCalls(args[1].items)
  }

  function Submitted(args: seq<Val>): seq<AllowedCall>
    requires |args| == 3 && args[1].VecVal? && AllCalls(args[1].items)
  {
    CallsOf(args[1].items)
  }

  lemma DispatchView(s: Storage, p: Proposal, callOk: bool)
    requires Dispatch(s, p, callOk).Ok?
    ensures p.target == s.self ==> SelfArgs(s.self, p.fn, p.args)
    ensures p.target != s.self ==> AllowedCall(p.target, p.fn) in s.allowed
    ensures ViewOf(Dispatch(s, p, callOk).value)
            == if p.target == s.self then ViewOf(s).(allowed := Dedup(Submitted(p.args))) else ViewOf(s)
  {
    hide Dedup, CheckNonce, ViewOf;
    if p.target == s.self {
      NonceIsInvisible(s, s.self, p.args[2].n);
      var s1 := CheckNonce(s, s.self, p.args[2].n).value;
      ListView(s1, Dedup(CallsOf(p.args[1].items)));
    }
  }

  lemma ListView(s: Storage, list: seq<AllowedCall>)
    ensures ViewOf(s.(allowed := list)) == ViewOf(s).(allowed := list)
  {
  }

  /** What a successful execution found and what it left. */
  ghost predicate Executes(v: View, w: View, id: nat, now: nat) {
    && id in v.proposals
    && var p := v.proposals[id];
    && p.status == Queued && now < p.expiresAt && now >= SaturatingAddU64(p.queuedAt, p.timelock)
    && (p.target == v.self ==> SelfArgs(v.self, p.fn, p.args))
    && (p.target != v.self ==> AllowedCall(p.target, p.fn) in v.allowed)
    && w == v.(proposals := v.proposals[id := p.(status := Executed, executedAt := now)],
               allowed := if p.target == v.self then Dedup(Submitted(p.args)) else v.allowed)
  }

  lemma ExecuteView(s: Storage, caller: Address, id: nat, nonce: nat, callOk: bool, now: nat)
    requires Execute(s, caller, id, nonce, callOk, now).Ok?
    ensures Executes(ViewOf(s), ViewOf(Execute(s, caller, id, nonce, callOk, now).value.0), id, now)
  {
    hide Dedup, CheckNonce, Dispatch, SelfArgs, SaturatingAddU64, Submitted;
    NonceIsInvisible(s, caller, nonce);
    var s1 := CheckNonce(s, caller, nonce).value;
    var p := Proposals(s1)[id];
    DispatchView(s1, p, callOk);
    var s2 := Dispatch(s1, p, callOk).value;
    PutProposal(s2, id, p.(status := Executed, executedAt := now));
  }

  // ----- the invariant -----

  /** The signers recorded with a choice on a proposal. */
  ghost function Voters(votes: map<(nat, Address), VoteChoice>, id: nat, c: VoteChoice): set<Address> {
    set k | k in votes && k.0 == id && votes[k] == c :: k.1
  }

  ghost predicate StatusOk(p: Proposal, threshold: nat) {
    match p.status
    case Pending => p.approvals < threshold && p.vetoes < threshold
    case Cancelled => p.approvals < threshold && p.vetoes < threshold
    case Queued => p.approvals == threshold && p.vetoes < threshold && p.queuedAt < p.expiresAt
    case Executed =>
      && p.approvals == threshold && p.vetoes < threshold
      && SaturatingAddU64(p.queuedAt, p.timelock) <= p.executedAt < p.expiresAt
    case Rejected => p.vetoes == threshold && p.approvals < threshold
    case Expired => false
  }

  ghost predicate ProposalOk(v: View, id: nat)
    requires id in v.proposals
  {
    var p := v.proposals[id];
    && p.id == id && 1 <= id <= v.count
    && p.approvals == |Voters(v.votes, id, Approve)|
    && p.vetoes == |Voters(v.votes, id, Veto)|
    && StatusOk(p, v.threshold)
  }

  ghost predicate VotesOk(v: View) {
    forall k :: k in v.votes ==> k.0 in v.proposals && v.signers.Some? && k.1 in v.signers.value
  }

  ghost predicate ListOk(list: seq<AllowedCall>) {
    Distinct(list) && |list| <= 64
  }

  ghost predicate Inv(v: View) {
    && v.threshold >= 1
    && (forall id :: id in v.proposals ==> ProposalOk(v, id))
    && VotesOk(v)
    && ListOk(v.allowed)
  }

  lemma OtherVoters(votes: map<(nat, Address), VoteChoice>, id: nat, a: Address, c: VoteChoice, jd: nat, d: VoteChoice)
    requires (id, a) !in votes
    requires jd != id || d != c
    ensures Voters(votes[(id, a) := c], jd, d) == Voters(votes, jd, d)
  {
    var before, after := Voters(votes, jd, d), Voters(votes[(id, a) := c], jd, d);
    forall x
      ensures x in before <==> x in after
    {
      if x in before {
        assert (jd, x) in votes[(id, a) := c];
      }
      if x in after {
        assert (jd, x) in votes;
      }
    }
  }

  lemma NewVoter(votes: map<(nat, Address), VoteChoice>, id: nat, a: Address, c: VoteChoice)
    requires (id, a) !in votes
    ensures Voters(votes[(id, a) := c], id, c) == Voters(votes, id, c) + {a}
    ensures a !in Voters(votes, id, c)
    ensures |Voters(votes[(id, a) := c], id, c)| == |Voters(votes, id, c)| + 1
  {
    var before, after := Voters(votes, id, c), Voters(votes[(id, a) := c], id, c);
    forall x
      ensures x in before + {a} <==> x in after
    {
      if x in before {
        assert (id, x) in votes[(id, a) := c];
      }
      assert (id, a) in votes[(id, a) := c];
      if x in after && x != a {
        assert (id, x) in votes;
      }
    }
    assert after == before + {a};
  }

  lemma NoVoters(v: View, id: nat, c: VoteChoice)
    requires VotesOk(v) && id !in v.proposals
    ensures Voters(v.votes, id, c) == {}
  {
  }

  /** Rewriting one proposal without touching votes keeps the invariant if the new record is right. */
  lemma RewriteKeepsInv(v: View, id: nat, p: Proposal, list: seq<AllowedCall>)
    requires Inv(v) && id in v.proposals && ListOk(list)
    requires p.id == id && p.approvals == v.proposals[id].approvals && p.vetoes == v.proposals[id].vetoes
    requires StatusOk(p, v.threshold)
    ensures Inv(v.(proposals := v.proposals[id := p], allowed := list))
  {
    hide StatusOk, ListOk;
    var w := v.(proposals := v.proposals[id := p], allowed := list);
    assert ProposalOk(v, id);
    forall jd | jd in w.proposals
      ensures ProposalOk(w, jd)
    {
      assert ProposalOk(v, jd);
    }
  }

  /** A new vote counted on its proposal keeps the invariant if the new status is right. */
  lemma CastKeepsInv(v: View, id: nat, a: Address, c: VoteChoice, p: Proposal)
    requires Inv(v) && id in v.proposals && (id, a) !in v.votes && v.signers.Some? && a in v.signers.value
    requires p.id == id && StatusOk(p, v.threshold)
    requires p.approvals == v.proposals[id].approvals + if c == Approve then 1 else 0
    requires p.vetoes == v.proposals[id].vetoes + if c == Veto then 1 else 0
    ensures Inv(v.(votes := v.votes[(id, a) := c], proposals := v.proposals[id := p]))
  {
    hide StatusOk, ListOk, Voters;
    var w := v.(votes := v.votes[(id, a) := c], proposals := v.proposals[id := p]);
    NewVoter(v.votes, id, a, c);
    forall jd | jd in w.proposals
      ensures ProposalOk(w, jd)
    {
      assert ProposalOk(v, jd);
      if jd != id || c == Veto {
        OtherVoters(v.votes, id, a, c, jd, Approve);
      }
      if jd != id || c == Approve {
        OtherVoters(v.votes, id, a, c, jd, Veto);
      }
    }
  }

  /** A new proposal under the next id starts with no votes. */
  lemma NewProposalKeepsInv(v: View, p: Proposal)
    requires Inv(v) && p.id == v.count + 1 && p.status == Pending && p.approvals == 0 && p.vetoes == 0
    ensures v.count + 1 !in v.proposals
    ensures Inv(v.(count := v.count + 1, proposals := v.proposals[v.count + 1 := p]))
  {
    hide ListOk, Voters;
    var id := v.count + 1;
    assert id in v.proposals ==> ProposalOk(v, id);
    var w := v.(count := id, proposals := v.proposals[id := p]);
    NoVoters(v, id, Approve);
    NoVoters(v, id, Veto);
    forall jd | jd in w.proposals
      ensures ProposalOk(w, jd)
    {
      if jd != id {
        assert ProposalOk(v, jd);
      }
    }
  }

  // ----- runs -----

  datatype Call =
    | DoPropose(caller: Address, target: Address, fn: Symbol, args: seq<Val>, description: Symbol, nonce: nat)
    | DoApprove(caller: Address, id: nat, nonce: nat)
    | DoVeto(caller: Address, id: nat, nonce: nat)
    | DoCancel(caller: Address, id: nat, nonce: nat)
    | DoExecute(caller: Address, id: nat, nonce: nat, callOk: bool)
    | DoSetAllowedCalls(caller: Address, items: seq<Val>, nonce: nat)
    | DoMigrate(caller: Address)

  /** One call at one ledger time. Nobody can sign for the contract itself, so a call that claims its
      address as caller does not pass authorisation. */
  function Step(s: Storage, call: Call, now: nat): Storage {
    if call.caller == s.self then s
    else
      match call
      case DoPropose(caller, target, fn, args, description, nonce) => Committed(s, Propose(s, caller, target, fn, args, description, nonce, now))
      case DoApprove(caller, id, nonce) => Committed(s, VoteApprove(s, caller, id, nonce, now))
      case DoVeto(caller, id, nonce) => Committed(s, VoteVeto(s, caller, id, nonce, now))
      case DoCancel(caller, id, nonce) => Committed(s, Cancel(s, caller, id, nonce))
      case DoExecute(caller, id, nonce, callOk) => Committed(s, Execute(s, caller, id, nonce, callOk, now))
      case DoSetAllowedCalls(caller, items, nonce) => Committed(s, SetAllowedCalls(s, caller, items, nonce))
      case DoMigrate(caller) => Committed(s, MigrateStorage(s, caller))
  }

  /** The executions of a run: which proposal, when, and the allowlist in force at that moment. */
  datatype Execution = Execution(id: nat, now: nat, proposal: Proposal, allowed: seq<AllowedCall>)

  function Logged(s: Storage, call: Call, now: nat): seq<Execution> {
    if call.caller != s.self && call.DoExecute? && Execute(s, call.caller, call.id, call.nonce, call.callOk, now).Ok? && call.id in Proposals(s)
    then [Execution(call.id, now, Proposals(s)[call.id], s.allowed)]
    else []
  }

  /** How one call may change what can be read. */
  ghost predicate Moves(v: View, w: View, log: seq<Execution>) {
    if log == [] then w == v || Proposes(v, w) || Casts(v, w) || Cancels(v, w)
    else |log| == 1 && Executes(v, w, log[0].id, log[0].now) && log[0].id in v.proposals && log[0].proposal == v.proposals[log[0].id] && log[0].allowed == v.allowed
  }

  ghost predicate Proposes(v: View, w: View) {
    exists p: Proposal ::
      && p.id == v.count + 1 && p.status == Pending && p.approvals == 0 && p.vetoes == 0
      && w == v.(count := v.count + 1, proposals := v.proposals[v.count + 1 := p])
  }

  ghost predicate VotesFor(v: View, w: View, id: nat, a: Address, now: nat) {
    && id in v.proposals && v.proposals[id].status == Pending && now < v.proposals[id].expiresAt
    && v.signers.Some? && a in v.signers.value && (id, a) !in v.votes
    && (|| w == v.(votes := v.votes[(id, a) := Approve], proposals := v.proposals[id := Approved(v.proposals[id], v.threshold, now)])
        || w == v.(votes := v.votes[(id, a) := Veto], proposals := v.proposals[id := Vetoed(v.proposals[id], v.threshold)]))
  }

  ghost predicate Casts(v: View, w: View) {
    exists id, a, now :: VotesFor(v, w, id, a, now)
  }

  ghost predicate CancelsOne(v: View, w: View, id: nat) {
    id in v.proposals && v.proposals[id].status == Pending && w == v.(proposals := v.proposals[id := v.proposals[id].(status := Cancelled)])
  }

  ghost predicate Cancels(v: View, w: View) {
    exists id :: CancelsOne(v, w, id)
  }

  lemma MigrateView(s: Storage, caller: Address)
    requires MigrateStorage(s, caller).Ok?
    ensures ViewOf(MigrateStorage(s, caller).value.0) == ViewOf(s)
  {
    hide MigrateStorage;
    MigrationPreservesMeaning(s, caller);
  }

  lemma StepMoves(s: Storage, call: Call, now: nat)
    ensures Moves(ViewOf(s), ViewOf(Step(s, call, now)), Logged(s, call, now))
  {
    hide ViewOf, Propose, VoteApprove, VoteVeto, Cancel, Execute, MigrateStorage, Proposals, NewProposal, Executes;
    var v, w := ViewOf(s), ViewOf(Step(s, call, now));
    if w == v && Logged(s, call, now) == [] {
      return;
    }
    match call
    case DoPropose(caller, target, fn, args, description, nonce) =>
      ProposeView(s, caller, target, fn, args, description, nonce, now);
      FreshProposal(s, v.count + 1, caller, target, fn, args, description, now);
    case DoApprove(caller, id, nonce) =>
      VoteApproveView(s, caller, id, nonce, now);
      assert VotesFor(v, w, id, caller, now);
    case DoVeto(caller, id, nonce) =>
      VoteVetoView(s, caller, id, nonce, now);
      assert VotesFor(v, w, id, caller, now);
    case DoCancel(caller, id, nonce) =>
      CancelView(s, caller, id, nonce);
      assert CancelsOne(v, w, id);
    case DoExecute(caller, id, nonce, callOk) =>
      ExecuteView(s, caller, id, nonce, callOk, now);
      ExecutedReads(s, v, w, id, now);
    case DoSetAllowedCalls(caller, items, nonce) =>
    case DoMigrate(caller) =>
      MigrateView(s, caller);
  }

  lemma FreshProposal(s: Storage, id: nat, caller: Address, target: Address, fn: Symbol, args: seq<Val>, description: Symbol, now: nat)
    ensures var p := NewProposal(s, id, caller, target, fn, args, description, now);
            p.id == id && p.status == Pending && p.approvals == 0 && p.vetoes == 0
  {
  }

  lemma ExecutedReads(s: Storage, v: View, w: View, id: nat, now: nat)
    requires v == ViewOf(s) && Executes(v, w, id, now)
    ensures v.allowed == s.allowed && v.proposals == Proposals(s) && id in v.proposals
  {
  }

  lemma VoteKeepsStatus(p: Proposal, threshold: nat, now: nat)
    requires p.status == Pending && StatusOk(p, threshold) && now < p.expiresAt
    ensures StatusOk(Approved(p, threshold, now), threshold) && StatusOk(Vetoed(p, threshold), threshold)
  {
  }

  lemma ExecutionKeepsStatus(p: Proposal, threshold: nat, now: nat)
    requires p.status == Queued && StatusOk(p, threshold) && SaturatingAddU64(p.queuedAt, p.timelock) <= now < p.expiresAt
    ensures StatusOk(p.(status := Executed, executedAt := now), threshold)
  {
  }

  lemma CastMoveKeepsInv(v: View, w: View, id: nat, a: Address, now: nat)
    requires Inv(v) && VotesFor(v, w, id, a, now)
    ensures Inv(w)
  {
    hide StatusOk, ListOk, VotesOk;
    var p := v.proposals[id];
    assert ProposalOk(v, id);
    VoteKeepsStatus(p, v.threshold, now);
    if w == v.(votes := v.votes[(id, a) := Approve], proposals := v.proposals[id := Approved(p, v.threshold, now)]) {
      CastKeepsInv(v, id, a, Approve, Approved(p, v.threshold, now));
    } else {
      CastKeepsInv(v, id, a, Veto, Vetoed(p, v.threshold));
    }
  }

  lemma SubmittedListOk(self: Address, fn: Symbol, args: seq<Val>)
    requires SelfArgs(self, fn, args)
    ensures ListOk(Dedup(Submitted(args)))
  {
  }

  lemma ExecutionKeepsInv(v: View, w: View, id: nat, now: nat)
    requires Inv(v) && Executes(v, w, id, now)
    ensures Inv(w)
  {
    hide StatusOk, ListOk, VotesOk, Submitted, SaturatingAddU64, Dedup;
    var p := v.proposals[id];
    assert ProposalOk(v, id);
    ExecutionKeepsStatus(p, v.threshold, now);
    if p.target == v.self {
      SubmittedListOk(v.self, p.fn, p.args);
    }
    var list := if p.target == v.self then Dedup(Submitted(p.args)) else v.allowed;
    RewriteKeepsInv(v, id, p.(status := Executed, executedAt := now), list);
  }

  lemma CancelKeepsInv(v: View, w: View, id: nat)
    requires Inv(v) && CancelsOne(v, w, id)
    ensures Inv(w)
  {
    var p := v.proposals[id];
    assert ProposalOk(v, id);
    RewriteKeepsInv(v, id, p.(status := Cancelled), v.allowed);
    assert w == v.(proposals := v.proposals[id := p.(status := Cancelled)], allowed := v.allowed);
    hide Inv, ProposalOk;
  }

  lemma MoveKeepsInv(v: View, w: View, log: seq<Execution>)
    requires Inv(v) && Moves(v, w, log)
    ensures Inv(w)
  {
    hide Inv, VotesFor, CancelsOne, Executes;
    if log != [] {
      ExecutionKeepsInv(v, w, log[0].id, log[0].now);
    } else if w != v {
      if Proposes(v, w) {
        var p: Proposal :|
          && p.id == v.count + 1 && p.status == Pending && p.approvals == 0 && p.vetoes == 0
          && w == v.(count := v.count + 1, proposals := v.proposals[v.count + 1 := p]);
        NewProposalKeepsInv(v, p);
      } else if Casts(v, w) {
        var id, a, now :| VotesFor(v, w, id, a, now);
        CastMoveKeepsInv(v, w, id, a, now);
      } else {
        var id :| CancelsOne(v, w, id);
        CancelKeepsInv(v, w, id);
      }
    }
  }

  // ----- what no call can change -----

  /** A proposal's content is fixed at creation and its status only moves forward: Pending to Queued,
      Rejected or Cancelled, and Queued to Executed. */
  ghost predicate Follows(p: Proposal, q: Proposal) {
    && q.id == p.id && q.proposer == p.proposer && q.target == p.target && q.fn == p.fn && q.args == p.args
    && q.description == p.description && q.createdAt == p.createdAt && q.expiresAt == p.expiresAt && q.timelock == p.timelock
    && p.approvals <= q.approvals && p.vetoes <= q.vetoes
    && (p.status == Queued ==> q == p || q == p.(status := Executed, executedAt := q.executedAt))
    && (p.status != Pending && p.status != Queued ==> q == p)
  }

  ghost predicate Evolves(v: View, w: View) {
    && w.self == v.self && w.signers == v.signers && w.threshold == v.threshold && w.timelock == v.timelock && v.count <= w.count
    && (forall id :: id in v.proposals ==> id in w.proposals && Follows(v.proposals[id], w.proposals[id]))
    && (forall k :: k in v.votes ==> k in w.votes && w.votes[k] == v.votes[k])
  }

  lemma FollowsTransitive(p: Proposal, q: Proposal, r: Proposal)
    requires Follows(p, q) && Follows(q, r)
    ensures Follows(p, r)
  {
  }

  lemma EvolvesTransitive(u: View, v: View, w: View)
    requires Evolves(u, v) && Evolves(v, w)
    ensures Evolves(u, w)
  {
    hide Follows;
    forall id | id in u.proposals
      ensures id in w.proposals && Follows(u.proposals[id], w.proposals[id])
    {
      FollowsTransitive(u.proposals[id], v.proposals[id], w.proposals[id]);
    }
  }

  lemma FollowsSelf(p: Proposal)
    ensures Follows(p, p)
  {
  }

  lemma RewriteEvolves(v: View, w: View, id: nat, p: Proposal)
    requires id in v.proposals ==> Follows(v.proposals[id], p)
    requires w.proposals == v.proposals[id := p]
    requires w.self == v.self && w.signers == v.signers && w.threshold == v.threshold && w.timelock == v.timelock && v.count <= w.count
    requires forall k :: k in v.votes ==> k in w.votes && w.votes[k] == v.votes[k]
    ensures Evolves(v, w)
  {
    hide Follows;
    forall jd | jd in v.proposals
      ensures Follows(v.proposals[jd], w.proposals[jd])
    {
      FollowsSelf(v.proposals[jd]);
    }
  }

  lemma SameEvolves(v: View)
    ensures Evolves(v, v)
  {
    hide Follows;
    forall jd | jd in v.proposals
      ensures Follows(v.proposals[jd], v.proposals[jd])
    {
      FollowsSelf(v.proposals[jd]);
    }
  }

  lemma MoveEvolves(v: View, w: View, log: seq<Execution>)
    requires Inv(v) && Moves(v, w, log)
    ensures Evolves(v, w)
  {
    hide Inv, Evolves, SelfArgs, Dedup, Submitted, ProposalOk, SaturatingAddU64;
    if log != [] {
      var p := v.proposals[log[0].id];
      RewriteEvolves(v, w, log[0].id, p.(status := Executed, executedAt := log[0].now));
    } else if w == v {
      SameEvolves(v);
    } else if Proposes(v, w) {
      var p: Proposal :|
        && p.id == v.count + 1 && p.status == Pending && p.approvals == 0 && p.vetoes == 0
        && w == v.(count := v.count + 1, proposals := v.proposals[v.count + 1 := p]);
      NewProposalKeepsInv(v, p);
      RewriteEvolves(v, w, v.count + 1, p);
    } else if Casts(v, w) {
      var id, a, now :| VotesFor(v, w, id, a, now);
      CastEvolves(v, w, id, a, now);
    } else {
      var id :| CancelsOne(v, w, id);
      RewriteEvolves(v, w, id, v.proposals[id].(status := Cancelled));
    }
  }

  lemma CastEvolves(v: View, w: View, id: nat, a: Address, now: nat)
    requires VotesFor(v, w, id, a, now)
    ensures Evolves(v, w)
  {
    hide Evolves;
    var p := v.proposals[id];
    if w == v.(votes := v.votes[(id, a) := Approve], proposals := v.proposals[id := Approved(p, v.threshold, now)]) {
      RewriteEvolves(v, w, id, Approved(p, v.threshold, now));
    } else {
      RewriteEvolves(v, w, id, Vetoed(p, v.threshold));
    }
  }

  // ----- whole runs -----

  datatype Event = Event(call: Call, now: nat)

  function Run(s: Storage, events: seq<Event>): Storage {
    if events == [] then s
    else
      var n := |events| - 1;
      Step(Run(s, events[..n]), events[n].call, events[n].now)
  }

  /** The executions of a run, in order. */
  function Log(s: Storage, events: seq<Event>): seq<Execution> {
    if events == [] then []
    else
      var n := |events| - 1;
      Log(s, events[..n]) + Logged(Run(s, events[..n]), events[n].call, events[n].now)
  }

  lemma {:induction false} RunKeepsInv(s: Storage, events: seq<Event>)
    requires Inv(ViewOf(s))
    ensures Inv(ViewOf(Run(s, events)))
    ensures Evolves(ViewOf(s), ViewOf(Run(s, events)))
    decreases |events|
  {
    hide Inv, Evolves, ViewOf, Step, Logged, Moves;
    if events == [] {
      SameEvolves(ViewOf(s));
    } else {
      var n := |events| - 1;
      var t := Run(s, events[..n]);
      var e := events[n];
      RunKeepsInv(s, events[..n]);
      StepMoves(t, e.call, e.now);
      MoveKeepsInv(ViewOf(t), ViewOf(Step(t, e.call, e.now)), Logged(t, e.call, e.now));
      MoveEvolves(ViewOf(t), ViewOf(Step(t, e.call, e.now)), Logged(t, e.call, e.now));
      EvolvesTransitive(ViewOf(s), ViewOf(t), ViewOf(Step(t, e.call, e.now)));
    }
  }

  // ----- the log of executions -----

  predicate IsSelf(self: Address, p: Proposal) {
    p.target == self && SelfArgs(self, p.fn, p.args)
  }

  /** The allowlist a log leaves: the latest executed self-proposal's, or the first one. */
  function ListAfter(self: Address, first: seq<AllowedCall>, log: seq<Execution>): seq<AllowedCall> {
    if log == [] then first
    else
      var e := log[|log| - 1];
      if IsSelf(self, e.proposal) then Dedup(Submitted(e.proposal.args))
      else ListAfter(self, first, log[..|log| - 1])
  }

  ghost predicate EntryOk(first: seq<AllowedCall>, v: View, log: seq<Execution>, i: nat)
    requires i < |log|
  {
    var e := log[i];
    && e.id in v.proposals && e.proposal.status == Queued
    && v.proposals[e.id] == e.proposal.(status := Executed, executedAt := e.now)
    && e.allowed == ListAfter(v.self, first, log[..i])
    && (e.proposal.target == v.self ==> IsSelf(v.self, e.proposal))
    && (e.proposal.target != v.self ==> AllowedCall(e.proposal.target, e.proposal.fn) in e.allowed)
  }

  ghost predicate LogOk(v0: View, v: View, log: seq<Execution>) {
    && v.allowed == ListAfter(v.self, v0.allowed, log)
    && (forall i :: 0 <= i < |log| ==> EntryOk(v0.allowed, v, log, i))
    && (forall i, j :: 0 <= i < j < |log| ==> log[i].id != log[j].id)
    && (forall id :: id in v.proposals && v.proposals[id].status == Executed ==>
          (id in v0.proposals && v0.proposals[id].status == Executed) || exists i :: 0 <= i < |log| && log[i].id == id)
  }

  lemma QuietEntry(first: seq<AllowedCall>, v: View, w: View, log: seq<Execution>, more: seq<Execution>, i: nat)
    requires i < |log| && EntryOk(first, v, log, i)
    requires Evolves(v, w)
    ensures EntryOk(first, w, log + more, i)
  {
    hide ListAfter, IsSelf;
    assert (log + more)[..i] == log[..i];
    var e := log[i];
    assert Follows(v.proposals[e.id], w.proposals[e.id]);
  }

  /** Only an execution makes a proposal Executed. */
  lemma QuietStatuses(v: View, w: View, id: nat)
    requires Moves(v, w, []) && id in w.proposals && w.proposals[id].status == Executed
    ensures id in v.proposals && v.proposals[id].status == Executed
  {
    if Proposes(v, w) {
    } else if Casts(v, w) {
      var jd, a, now :| VotesFor(v, w, jd, a, now);
    }
  }

  lemma QuietList(v: View, w: View)
    requires Moves(v, w, [])
    ensures w.allowed == v.allowed && w.self == v.self
  {
    if Casts(v, w) {
      var jd, a, now :| VotesFor(v, w, jd, a, now);
    }
  }

  lemma QuietKeepsLog(v0: View, v: View, w: View, log: seq<Execution>)
    requires LogOk(v0, v, log) && Moves(v, w, []) && Evolves(v, w)
    ensures LogOk(v0, w, log)
  {
    hide Moves, Evolves, EntryOk, ListAfter;
    QuietList(v, w);
    assert log + [] == log;
    forall i | 0 <= i < |log|
      ensures EntryOk(v0.allowed, w, log, i)
    {
      QuietEntry(v0.allowed, v, w, log, [], i);
    }
    forall id | id in w.proposals && w.proposals[id].status == Executed
      ensures id in v.proposals && v.proposals[id].status == Executed
    {
      QuietStatuses(v, w, id);
    }
  }

  lemma NewEntry(first: seq<AllowedCall>, v: View, w: View, log: seq<Execution>, e: Execution)
    requires Executes(v, w, e.id, e.now) && e.proposal == v.proposals[e.id] && e.allowed == v.allowed
    requires v.allowed == ListAfter(v.self, first, log)
    ensures EntryOk(first, w, log + [e], |log|)
    ensures w.allowed == ListAfter(w.self, first, log + [e])
    ensures w.self == v.self
  {
    hide SelfArgs, SaturatingAddU64, Dedup;
    assert (log + [e])[..|log|] == log;
  }

  lemma ExecutionKeepsLog(v0: View, v: View, w: View, log: seq<Execution>, e: Execution)
    requires LogOk(v0, v, log) && Moves(v, w, [e]) && Evolves(v, w)
    ensures LogOk(v0, w, log + [e])
  {
    hide Evolves, ListAfter, IsSelf, SelfArgs, SaturatingAddU64, Dedup, Submitted;
    NewEntry(v0.allowed, v, w, log, e);
    var all := log + [e];
    forall i | 0 <= i < |all|
      ensures EntryOk(v0.allowed, w, all, i)
    {
      if i < |log| {
        QuietEntry(v0.allowed, v, w, log, [e], i);
      }
    }
    forall i | 0 <= i < |log|
      ensures log[i].id != e.id
    {
      assert EntryOk(v0.allowed, v, log, i);
    }
    hide EntryOk;
    forall id | id in w.proposals && w.proposals[id].status == Executed
      ensures (id in v0.proposals && v0.proposals[id].status == Executed) || exists i :: 0 <= i < |all| && all[i].id == id
    {
      if id == e.id {
        assert all[|log|].id == id;
      } else if i :| 0 <= i < |log| && log[i].id == id {
        assert all[i].id == id;
      }
    }
  }

  lemma StartsWithEmptyLog(v: View)
    ensures LogOk(v, v, [])
  {
  }

  /** Along every run: a proposal is executed at most once and only from Queued; the allowlist is at
      every execution, and at the end, what the latest executed self-proposal asked for; and every
      call to another contract had its pair on the list at that moment. */
  lemma {:induction false} EveryRunIsLogged(s: Storage, events: seq<Event>)
    requires Inv(ViewOf(s))
    ensures LogOk(ViewOf(s), ViewOf(Run(s, events)), Log(s, events))
    decreases |events|
  {
    hide Inv, Evolves, ViewOf, Step, Logged, LogOk;
    if events == [] {
      StartsWithEmptyLog(ViewOf(s));
    } else {
      var n := |events| - 1;
      var t := Run(s, events[..n]);
      var e := events[n];
      var more := Logged(t, e.call, e.now);
      var v, w := ViewOf(t), ViewOf(Step(t, e.call, e.now));
      EveryRunIsLogged(s, events[..n]);
      RunKeepsInv(s, events[..n]);
      StepMoves(t, e.call, e.now);
      MoveEvolves(v, w, more);
      if more == [] {
        QuietKeepsLog(ViewOf(s), v, w, Log(s, events[..n]));
        assert Log(s, events[..n]) + [] == Log(s, events[..n]);
      } else {
        assert more == [more[0]];
        ExecutionKeepsLog(ViewOf(s), v, w, Log(s, events[..n]), more[0]);
      }
    }
  }

  // ----- from deployment -----

  lemma ConstructedInv(self: Address, signers: seq<Address>, threshold: nat, timelock: nat, items: seq<Val>)
    requires Construct(self, signers, threshold, timelock, items).Ok?
    ensures var s := Construct(self, signers, threshold, timelock, items).value;
            && Inv(ViewOf(s)) && ViewOf(s).proposals == map[] && AllCalls(items) && s.allowed == Dedup(CallsOf(items))
  {
    hide Dedup;
    SubmittedDedup(items);
  }

  lemma SubmittedDedup(items: seq<Val>)
    requires AllCalls(items) && |items| <= MAX_ALLOWED_CALLS
    ensures ListOk(Dedup(CallsOf(items)))
  {
  }

  /** Governance safety in every state a deployed contract can reach. */
  lemma EveryRunIsSafe(self: Address, signers: seq<Address>, threshold: nat, timelock: nat, items: seq<Val>, events: seq<Event>)
    requires Construct(self, signers, threshold, timelock, items).Ok?
    ensures var s := Construct(self, signers, threshold, timelock, items).value;
            var v := ViewOf(Run(s, events));
            var log := Log(s, events);
            && Inv(v) && LogOk(ViewOf(s), v, log)
            && v.signers == Some(signers) && v.threshold == threshold && v.timelock == timelock
            && (forall id :: id in v.proposals ==> (v.proposals[id].status == Executed <==> exists i :: 0 <= i < |log| && log[i].id == id))
            && AllCalls(items) && v.allowed == ListAfter(self, Dedup(CallsOf(items)), log)
  {
    var s := Construct(self, signers, threshold, timelock, items).value;
    ConstructedInv(self, signers, threshold, timelock, items);
    RunKeepsInv(s, events);
    EveryRunIsLogged(s, events);
    var v := ViewOf(Run(s, events));
    var log := Log(s, events);
    hide Inv, Run, Log, ListAfter, Dedup;
    forall id | id in v.proposals
      ensures v.proposals[id].status == Executed <==> exists i :: 0 <= i < |log| && log[i].id == id
    {
      if i :| 0 <= i < |log| && log[i].id == id {
        assert EntryOk(s.allowed, v, log, i);
      }
    }
  }

  /** Distinct signers: the counts are numbers of members of the signer set, and nobody is in both. */
  lemma CountsAreSigners(v: View, id: nat)
    requires Inv(v) && id in v.proposals
    ensures Voters(v.votes, id, Approve) !! Voters(v.votes, id, Veto)
    ensures forall a :: a in Voters(v.votes, id, Approve) + Voters(v.votes, id, Veto) ==> v.signers.Some? && a in v.signers.value
    ensures v.proposals[id].approvals + v.proposals[id].vetoes == |Voters(v.votes, id, Approve) + Voters(v.votes, id, Veto)|
  {
    assert ProposalOk(v, id);
    var yes, no := Voters(v.votes, id, Approve), Voters(v.votes, id, Veto);
    forall a | a in yes
      ensures a !in no && v.signers.Some? && a in v.signers.value
    {
      assert (id, a) in v.votes && v.votes[(id, a)] == Approve;
    }
    forall a | a in no
      ensures v.signers.Some? && a in v.signers.value
    {
      assert (id, a) in v.votes;
    }
  }

  lemma NonceReady(s: Storage, caller: Address, nonce: nat)
    requires ReadNonce(s, caller) == Ok(nonce) && nonce < U64_MAX
    ensures CheckNonce(s, caller, nonce).Ok?
    ensures var t := CheckNonce(s, caller, nonce).value;
            && t.self == s.self && t.allowed == s.allowed && Proposals(t) == Proposals(s)
            && (caller != s.self ==> ReadNonce(t, s.self) == ReadNonce(s, s.self))
  {
  }

  /** What a proposal needs besides time: a listed pair, or for the contract itself decodable arguments with
      the contract's own current nonce. */
  ghost predicate Dispatchable(s: Storage, p: Proposal) {
    if p.target == s.self then SelfArgs(s.self, p.fn, p.args) && p.args[2].n < U64_MAX && ReadNonce(s, s.self) == Ok(p.args[2].n)
    else AllowedCall(p.target, p.fn) in s.allowed
  }

  lemma DispatchIff(s: Storage, t: Storage, p: Proposal)
    requires t.self == s.self && t.allowed == s.allowed && ReadNonce(t, s.self) == ReadNonce(s, s.self)
    ensures Dispatch(t, p, true).Ok? <==> Dispatchable(s, p)
  {
    hide Dedup, ReadNonce;
  }

  /** A queued proposal, whatever its target, can be executed at some time exactly when its timelock ends
      before it expires and what it asks for can be dispatched. */
  lemma ExecutionWindow(s: Storage, caller: Address, id: nat, nonce: nat)
    requires id in Proposals(s) && Proposals(s)[id].status == Queued
    requires caller != s.self && ReadNonce(s, caller) == Ok(nonce) && nonce < U64_MAX
    ensures (exists now: nat :: Execute(s, caller, id, nonce, true, now).Ok?)
            <==> SaturatingAddU64(Proposals(s)[id].queuedAt, Proposals(s)[id].timelock) < Proposals(s)[id].expiresAt && Dispatchable(s, Proposals(s)[id])
  {
    hide SaturatingAddU64, CheckNonce, ReadNonce, Proposals, Dispatch, Dispatchable;
    NonceReady(s, caller, nonce);
    var p := Proposals(s)[id];
    DispatchIff(s, CheckNonce(s, caller, nonce).value, p);
    if SaturatingAddU64(p.queuedAt, p.timelock) < p.expiresAt && Dispatchable(s, p) {
      assert Execute(s, caller, id, nonce, true, SaturatingAddU64(p.queuedAt, p.timelock)).Ok?;
    }
  }

  /** A queued proposal whose timelock does not end before its expiry stays queued for good: no run of any
      calls executes, cancels or otherwise changes it. */
  lemma StuckForGood(s: Storage, id: nat, events: seq<Event>)
    requires Inv(ViewOf(s)) && id in ViewOf(s).proposals
    requires var p := ViewOf(s).proposals[id]; p.status == Queued && SaturatingAddU64(p.queuedAt, p.timelock) >= p.expiresAt
    ensures id in ViewOf(Run(s, events)).proposals && ViewOf(Run(s, events)).proposals[id] == ViewOf(s).proposals[id]
  {
    hide ViewOf, Run, SaturatingAddU64, Voters;
    RunKeepsInv(s, events);
    var v, w := ViewOf(s), ViewOf(Run(s, events));
    assert Follows(v.proposals[id], w.proposals[id]) && ProposalOk(w, id);
  }

  // ----- deployments whose timelock is as long as the proposals' life -----

  /** What creation and queueing recorded, at ledger time `now`. */
  ghost predicate Timed(p: Proposal, timelock: nat, now: nat) {
    && p.createdAt <= now && p.expiresAt == SaturatingAddU64(p.createdAt, TTL_SECONDS) && p.timelock == timelock
    && (p.status == Queued || p.status == Executed ==> p.createdAt <= p.queuedAt)
  }

  ghost predicate AllTimed(v: View, now: nat) {
    forall id :: id in v.proposals ==> Timed(v.proposals[id], v.timelock, now)
  }

  lemma TimedLater(v: View, now: nat, later: nat)
    requires AllTimed(v, now) && now <= later
    ensures AllTimed(v, later)
  {
  }

  lemma TimedRewrite(v: View, w: View, id: nat, p: Proposal, now: nat)
    requires AllTimed(v, now) && w.timelock == v.timelock && w.proposals == v.proposals[id := p] && Timed(p, v.timelock, now)
    ensures AllTimed(w, now)
  {
    hide Timed;
  }

  lemma StepTimed(s: Storage, call: Call, now: nat)
    requires AllTimed(ViewOf(s), now)
    ensures AllTimed(ViewOf(Step(s, call, now)), now)
    ensures ViewOf(Step(s, call, now)).timelock == ViewOf(s).timelock
  {
    hide ViewOf, AllTimed, Propose, VoteApprove, VoteVeto, Cancel, Execute, MigrateStorage, SelfArgs, Dedup, Submitted, SaturatingAddU64;
    var v, w := ViewOf(s), ViewOf(Step(s, call, now));
    if w != v {
      match call
      case DoPropose(caller, target, fn, args, description, nonce) =>
        ProposeView(s, caller, target, fn, args, description, nonce, now);
        ViewTimelock(s);
        TimedRewrite(v, w, v.count + 1, NewProposal(s, v.count + 1, caller, target, fn, args, description, now), now);
      case DoApprove(caller, id, nonce) =>
        VoteApproveView(s, caller, id, nonce, now);
        TimedAt(v, id, now);
        TimedRewrite(v, w, id, Approved(v.proposals[id], v.threshold, now), now);
      case DoVeto(caller, id, nonce) =>
        VoteVetoView(s, caller, id, nonce, now);
        TimedAt(v, id, now);
        TimedRewrite(v, w, id, Vetoed(v.proposals[id], v.threshold), now);
      case DoCancel(caller, id, nonce) =>
        CancelView(s, caller, id, nonce);
        TimedAt(v, id, now);
        TimedRewrite(v, w, id, v.proposals[id].(status := Cancelled), now);
      case DoExecute(caller, id, nonce, callOk) =>
        ExecuteView(s, caller, id, nonce, callOk, now);
        TimedAt(v, id, now);
        TimedRewrite(v, w, id, v.proposals[id].(status := Executed, executedAt := now), now);
      case DoSetAllowedCalls(caller, items, nonce) =>
      case DoMigrate(caller) =>
        MigrateView(s, caller);
    }
  }

  lemma TimedAt(v: View, id: nat, now: nat)
    requires AllTimed(v, now) && id in v.proposals
    ensures Timed(v.proposals[id], v.timelock, now)
  {
  }

  lemma ViewTimelock(s: Storage)
    ensures ViewOf(s).timelock == Timelock(s)
  {
  }

  /** Ledger time does not run backwards. */
  ghost predicate InTime(events: seq<Event>) {
    forall i, j :: 0 <= i < j < |events| ==> events[i].now <= events[j].now
  }

  lemma {:induction false} RunTimed(s: Storage, events: seq<Event>)
    requires InTime(events) && ViewOf(s).proposals == map[]
    ensures AllTimed(ViewOf(Run(s, events)), if events == [] then 0 else events[|events| - 1].now)
    ensures ViewOf(Run(s, events)).timelock == ViewOf(s).timelock
    decreases |events|
  {
    hide ViewOf, Step, Timed;
    if events != [] {
      var n := |events| - 1;
      RunTimed(s, events[..n]);
      TimedLater(ViewOf(Run(s, events[..n])), if n == 0 then 0 else events[n - 1].now, events[n].now);
      StepTimed(Run(s, events[..n]), events[n].call, events[n].now);
    }
  }

  lemma TooLate(p: Proposal, threshold: nat, timelock: nat, now: nat)
    requires Timed(p, timelock, now) && StatusOk(p, threshold) && timelock >= TTL_SECONDS
    ensures p.status != Executed
  {
  }

  /** A contract deployed with a timelock of at least 2592000 seconds never executes anything, not even the
      self-proposal that would replace its allowlist. */
  lemma LongTimelocksNeverExecute(self: Address, signers: seq<Address>, threshold: nat, timelock: nat, items: seq<Val>, events: seq<Event>, id: nat)
    requires Construct(self, signers, threshold, timelock, items).Ok? && timelock >= 2_592_000 && InTime(events)
    ensures var s := Construct(self, signers, threshold, timelock, items).value;
            var v := ViewOf(Run(s, events));
            && (id in v.proposals ==> v.proposals[id].status != Executed)
            && v.allowed == ViewOf(s).allowed && Log(s, events) == []
  {
    var s := Construct(self, signers, threshold, timelock, items).value;
    ConstructedInv(self, signers, threshold, timelock, items);
    hide ViewOf, Run, Voters, StatusOk, Timed, Log, ListAfter, IsSelf;
    ConstructedTimelock(self, signers, threshold, timelock, items);
    RunKeepsInv(s, events);
    RunTimed(s, events);
    EveryRunIsLogged(s, events);
    var v := ViewOf(Run(s, events));
    var now := if events == [] then 0 else events[|events| - 1].now;
    forall k | k in v.proposals
      ensures v.proposals[k].status != Executed
    {
      assert ProposalOk(v, k);
      TooLate(v.proposals[k], v.threshold, timelock, now);
    }
    assert |Log(s, events)| > 0 ==> EntryOk(ViewOf(s).allowed, v, Log(s, events), 0);
    NothingLogged(v.self, ViewOf(s).allowed);
  }

  lemma ConstructedTimelock(self: Address, signers: seq<Address>, threshold: nat, timelock: nat, items: seq<Val>)
    requires Construct(self, signers, threshold, timelock, items).Ok?
    ensures ViewOf(Construct(self, signers, threshold, timelock, items).value).timelock == timelock
  {
  }

  lemma NothingLogged(self: Address, first: seq<AllowedCall>)
    ensures ListAfter(self, first, []) == first
  {
  }
}
