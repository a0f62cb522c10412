/** Governance, call by call and over whole runs: who can do what to a proposal and when, and how every
    proposal came to be created, queued and executed, in terms of the calls made and their times. */
module GovernanceRules {
  import opened Host
  import opened Governance
  import opened GovernanceRuns

  // ----- what one call can do to one proposal -----

  predicate IsSigner(v: View, a: Address) {
    v.signers.Some? && a in v.signers.value
  }

  /** 64-bit addition that stops at the largest value. */
  function Capped(x: nat): nat {
    if x <= 0xFFFF_FFFF_FFFF_FFFF then x else 0xFFFF_FFFF_FFFF_FFFF
  }

  /** A signer proposes a listed call, or a new allowlist, under the next id: the proposal is what the caller
      said, starts with no votes, and expires 2592000 seconds later. */
  ghost predicate CreatedBy(v: View, w: View, call: Call, now: nat, id: nat) {
    && call.DoPropose? && IsSigner(v, call.caller) && id == v.count + 1 == w.count && id in w.proposals
    && (if call.target == v.self then call.fn == "set_allowed_calls" else AllowedCall(call.target, call.fn) in v.allowed)
    && var p := w.proposals[id];
    && p.id == id && p.proposer == call.caller && p.target == call.target && p.fn == call.fn && p.args == call.args
    && p.description == call.description && p.status == Pending && p.approvals == p.vetoes == 0
    && p.createdAt == now && p.timelock == v.timelock && p.queuedAt == p.executedAt == 0
    && (now <= 0xFFFF_FFFF_FFFF_FFFF ==> p.expiresAt == Capped(now + 2_592_000))
  }

  /** A signer's first vote on a live proposal. */
  ghost predicate VotedBy(v: View, w: View, caller: Address, now: nat, id: nat, choice: VoteChoice) {
    && IsSigner(v, caller) && id in v.proposals && v.proposals[id].status == Pending && now < v.proposals[id].expiresAt
    && (id, caller) !in v.votes && w.votes == v.votes[(id, caller) := choice]
  }

  /** An approval; the one that reaches the threshold queues the proposal at the time of that vote. */
  ghost predicate ApprovedBy(v: View, w: View, call: Call, now: nat, id: nat) {
    && call.DoApprove? && call.id == id && VotedBy(v, w, call.caller, now, id, Approve) && id in w.proposals
    && var p := v.proposals[id];
    && w.proposals[id] == (if p.approvals + 1 >= v.threshold then p.(approvals := p.approvals + 1, status := Queued, queuedAt := now)
                           else p.(approvals := p.approvals + 1))
  }

  /** A veto; the one that reaches the threshold rejects the proposal. */
  ghost predicate VetoedBy(v: View, w: View, call: Call, now: nat, id: nat) {
    && call.DoVeto? && call.id == id && VotedBy(v, w, call.caller, now, id, Veto) && id in w.proposals
    && var p := v.proposals[id];
    && w.proposals[id] == (if p.vetoes + 1 >= v.threshold then p.(vetoes := p.vetoes + 1, status := Rejected)
                           else p.(vetoes := p.vetoes + 1))
  }

  ghost predicate CancelledBy(v: View, w: View, call: Call, id: nat) {
    && call.DoCancel? && call.id == id && IsSigner(v, call.caller) && id in v.proposals && id in w.proposals
    && v.proposals[id].status == Pending && w.proposals[id] == v.proposals[id].(status := Cancelled)
  }

  /** An execution: only from Queued, not before the timelock has run from the queueing, and before expiry. */
  ghost predicate ExecutedBy(v: View, w: View, call: Call, now: nat, id: nat) {
    && call.DoExecute? && call.id == id && id in v.proposals && id in w.proposals
    && var p := v.proposals[id];
    && p.status == Queued && now < p.expiresAt
    && (p.queuedAt <= 0xFFFF_FFFF_FFFF_FFFF ==> Capped(p.queuedAt + p.timelock) <= now)
    && w.proposals[id] == p.(status := Executed, executedAt := now)
  }

  /** A proposal comes into being, stays as it is, or is voted on, cancelled or executed. */
  ghost predicate StepOn(v: View, w: View, call: Call, now: nat, id: nat) {
    if id !in v.proposals then id in w.proposals ==> CreatedBy(v, w, call, now, id)
    else
      && id in w.proposals
      && (|| w.proposals[id] == v.proposals[id] || ApprovedBy(v, w, call, now, id) || VetoedBy(v, w, call, now, id)
          || CancelledBy(v, w, call, id) || ExecutedBy(v, w, call, now, id))
  }

  lemma SaturatingIsCapped(a: nat, b: nat)
    requires a <= 0xFFFF_FFFF_FFFF_FFFF
    ensures SaturatingAddU64(a, b) == Capped(a + b)
  {
  }

  lemma CreationStep(s: Storage, caller: Address, target: Address, fn: Symbol, args: seq<Val>, description: Symbol, nonce: nat, now: nat)
    requires Propose(s, caller, target, fn, args, description, nonce, now).Ok?
    ensures var v := ViewOf(s);
            CreatedBy(v, ViewOf(Propose(s, caller, target, fn, args, description, nonce, now).value.0),
                      DoPropose(caller, target, fn, args, description, nonce), now, v.count + 1)
  {
    hide ViewOf, Propose, SaturatingAddU64;
    ProposeView(s, caller, target, fn, args, description, nonce, now);
    ProposeGuard(s, caller, target, fn, args, description, nonce, now);
    ViewTimelock(s);
    if now <= 0xFFFF_FFFF_FFFF_FFFF {
      SaturatingIsCapped(now, 2_592_000);
    }
  }

  lemma ProposeGuard(s: Storage, caller: Address, target: Address, fn: Symbol, args: seq<Val>, description: Symbol, nonce: nat, now: nat)
    requires Propose(s, caller, target, fn, args, description, nonce, now).Ok?
    ensures IsSigner(ViewOf(s), caller)
    ensures if target == s.self then fn == "set_allowed_calls" else AllowedCall(target, fn) in s.allowed
    ensures ViewOf(s).self == s.self && ViewOf(s).allowed == s.allowed
  {
    AdmitView(s, caller, nonce);
    hide Admit;
  }

  lemma ApprovalStep(s: Storage, caller: Address, jd: nat, nonce: nat, now: nat, id: nat)
    requires VoteApprove(s, caller, jd, nonce, now).Ok?
    ensures StepOn(ViewOf(s), ViewOf(VoteApprove(s, caller, jd, nonce, now).value.0), DoApprove(caller, jd, nonce), now, id)
  {
    hide ViewOf, VoteApprove, CreatedBy;
    VoteApproveView(s, caller, jd, nonce, now);
  }

  lemma VetoStep(s: Storage, caller: Address, jd: nat, nonce: nat, now: nat, id: nat)
    requires VoteVeto(s, caller, jd, nonce, now).Ok?
    ensures StepOn(ViewOf(s), ViewOf(VoteVeto(s, caller, jd, nonce, now).value.0), DoVeto(caller, jd, nonce), now, id)
  {
    hide ViewOf, VoteVeto, CreatedBy;
    VoteVetoView(s, caller, jd, nonce, now);
  }

  lemma CancelStep(s: Storage, caller: Address, jd: nat, nonce: nat, now: nat, id: nat)
    requires Cancel(s, caller, jd, nonce).Ok?
    ensures StepOn(ViewOf(s), ViewOf(Cancel(s, caller, jd, nonce).value.0), DoCancel(caller, jd, nonce), now, id)
  {
    hide ViewOf, Cancel, CreatedBy;
    CancelView(s, caller, jd, nonce);
  }

  lemma ExecutionStep(s: Storage, caller: Address, jd: nat, nonce: nat, callOk: bool, now: nat, id: nat)
    requires Execute(s, caller, jd, nonce, callOk, now).Ok?
    ensures StepOn(ViewOf(s), ViewOf(Execute(s, caller, jd, nonce, callOk, now).value.0), DoExecute(caller, jd, nonce, callOk), now, id)
  {
    hide ViewOf, Execute, CreatedBy, SelfArgs, Dedup, Submitted, SaturatingAddU64;
    ExecuteView(s, caller, jd, nonce, callOk, now);
    var p := ViewOf(s).proposals[jd];
    if p.queuedAt <= 0xFFFF_FFFF_FFFF_FFFF {
      SaturatingIsCapped(p.queuedAt, p.timelock);
    }
  }

  lemma ProposalStep(s: Storage, caller: Address, target: Address, fn: Symbol, args: seq<Val>, description: Symbol, nonce: nat, now: nat, id: nat)
    requires Inv(ViewOf(s)) && Propose(s, caller, target, fn, args, description, nonce, now).Ok?
    ensures StepOn(ViewOf(s), ViewOf(Propose(s, caller, target, fn, args, description, nonce, now).value.0),
                   DoPropose(caller, target, fn, args, description, nonce), now, id)
  {
    hide ViewOf, Propose, CreatedBy, Inv;
    NextIdIsFree(ViewOf(s));
    ProposeView(s, caller, target, fn, args, description, nonce, now);
    CreationStep(s, caller, target, fn, args, description, nonce, now);
  }

  lemma NothingHappens(v: View, call: Call, now: nat, id: nat)
    ensures StepOn(v, v, call, now, id)
  {
  }

  lemma CallOn(s: Storage, call: Call, now: nat, id: nat)
    requires Inv(ViewOf(s))
    ensures StepOn(ViewOf(s), ViewOf(Step(s, call, now)), call, now, id)
  {
    hide ViewOf, Propose, VoteApprove, VoteVeto, Cancel, Execute, MigrateStorage, StepOn, Inv;
    NothingHappens(ViewOf(s), call, now, id);
    if Step(s, call, now) != s {
      match call
      case DoPropose(caller, target, fn, args, description, nonce) => ProposalStep(s, caller, target, fn, args, description, nonce, now, id);
      case DoApprove(caller, jd, nonce) => ApprovalStep(s, caller, jd, nonce, now, id);
      case DoVeto(caller, jd, nonce) => VetoStep(s, caller, jd, nonce, now, id);
      case DoCancel(caller, jd, nonce) => CancelStep(s, caller, jd, nonce, now, id);
      case DoExecute(caller, jd, nonce, callOk) => ExecutionStep(s, caller, jd, nonce, callOk, now, id);
      case DoSetAllowedCalls(caller, items, nonce) =>
      case DoMigrate(caller) => MigrateView(s, caller);
    }
  }

  lemma NextIdIsFree(v: View)
    requires Inv(v)
    ensures v.count + 1 !in v.proposals
  {
    hide VotesOk, ListOk, StatusOk, Voters;
    assert v.count + 1 in v.proposals ==> ProposalOk(v, v.count + 1);
  }

  // ----- how every proposal got where it is -----

  ghost function ViewAt(s: Storage, events: seq<Event>, k: nat): View
    requires k <= |events|
  {
    ViewOf(Run(s, events[..k]))
  }

  lemma StepAt(s: Storage, events: seq<Event>, k: nat, id: nat)
    requires k < |events| && Inv(ViewOf(s))
    ensures StepOn(ViewAt(s, events, k), ViewAt(s, events, k + 1), events[k].call, events[k].now, id)
  {
    hide ViewOf, Step, StepOn, Inv;
    assert events[..k + 1][..k] == events[..k];
    RunKeepsInv(s, events[..k]);
    CallOn(Run(s, events[..k]), events[k].call, events[k].now, id);
  }

  /** Event `c` created proposal `id`. */
  ghost predicate CreatedAt(s: Storage, events: seq<Event>, c: nat, id: nat)
    requires c < |events|
  {
    id !in ViewAt(s, events, c).proposals && CreatedBy(ViewAt(s, events, c), ViewAt(s, events, c + 1), events[c].call, events[c].now, id)
  }

  /** Event `i` is the approval of a Pending proposal that reached the threshold and queued it. */
  ghost predicate QueuedAt(s: Storage, events: seq<Event>, i: nat, id: nat)
    requires i < |events|
  {
    var v, w := ViewAt(s, events, i), ViewAt(s, events, i + 1);
    && events[i].call.DoApprove? && events[i].call.id == id && IsSigner(v, events[i].call.caller)
    && id in v.proposals && id in w.proposals
    && v.proposals[id].status == Pending && w.proposals[id].status == Queued
    && v.proposals[id].approvals + 1 == w.proposals[id].approvals >= v.threshold
  }

  /** Event `k` executed proposal `id`. */
  ghost predicate ExecutedAt(s: Storage, events: seq<Event>, k: nat, id: nat)
    requires k < |events|
  {
    ExecutedBy(ViewAt(s, events, k), ViewAt(s, events, k + 1), events[k].call, events[k].now, id)
  }

  /** What a proposal asks for, and what its creation fixed. */
  ghost predicate SameContent(p: Proposal, q: Proposal) {
    && q.id == p.id && q.proposer == p.proposer && q.target == p.target && q.fn == p.fn && q.args == p.args
    && q.description == p.description && q.createdAt == p.createdAt && q.expiresAt == p.expiresAt && q.timelock == p.timelock
  }

  lemma NoneAtFirst(s: Storage, events: seq<Event>, id: nat)
    requires ViewOf(s).proposals == map[]
    ensures id !in ViewAt(s, events, 0).proposals
  {
    assert events[..0] == [];
  }

  lemma {:induction false} WasCreated(s: Storage, events: seq<Event>, n: nat, id: nat)
    requires n <= |events| && Inv(ViewOf(s)) && ViewOf(s).proposals == map[] && id in ViewAt(s, events, n).proposals
    ensures exists c :: 0 <= c < n && CreatedAt(s, events, c, id)
                && SameContent(ViewAt(s, events, c + 1).proposals[id], ViewAt(s, events, n).proposals[id])
    decreases n
  {
    hide ViewAt, ViewOf, Inv;
    NoneAtFirst(s, events, id);
    if n > 0 {
      StepAt(s, events, n - 1, id);
      if id in ViewAt(s, events, n - 1).proposals {
        WasCreated(s, events, n - 1, id);
        var c :| 0 <= c < n - 1 && CreatedAt(s, events, c, id)
                 && SameContent(ViewAt(s, events, c + 1).proposals[id], ViewAt(s, events, n - 1).proposals[id]);
        assert SameContent(ViewAt(s, events, c + 1).proposals[id], ViewAt(s, events, n).proposals[id]);
      } else {
        assert CreatedAt(s, events, n - 1, id);
      }
    }
  }

  lemma {:induction false} WasQueued(s: Storage, events: seq<Event>, n: nat, id: nat)
    requires n <= |events| && Inv(ViewOf(s)) && ViewOf(s).proposals == map[] && id in ViewAt(s, events, n).proposals
    requires ViewAt(s, events, n).proposals[id].status == Queued || ViewAt(s, events, n).proposals[id].status == Executed
    ensures exists i :: 0 <= i < n && QueuedAt(s, events, i, id) && ViewAt(s, events, n).proposals[id].queuedAt == events[i].now
    decreases n
  {
    hide ViewAt, ViewOf, Inv;
    NoneAtFirst(s, events, id);
    if n > 0 {
      StepAt(s, events, n - 1, id);
      var v := ViewAt(s, events, n - 1);
      if id in v.proposals && (v.proposals[id].status == Queued || v.proposals[id].status == Executed) {
        WasQueued(s, events, n - 1, id);
        var i :| 0 <= i < n - 1 && QueuedAt(s, events, i, id) && v.proposals[id].queuedAt == events[i].now;
        assert ViewAt(s, events, n).proposals[id].queuedAt == events[i].now;
      } else {
        assert QueuedAt(s, events, n - 1, id);
      }
    }
  }

  lemma {:induction false} WasExecuted(s: Storage, events: seq<Event>, n: nat, id: nat)
    requires n <= |events| && Inv(ViewOf(s)) && ViewOf(s).proposals == map[] && id in ViewAt(s, events, n).proposals
    requires ViewAt(s, events, n).proposals[id].status == Executed
    ensures exists k :: 0 <= k < n && ExecutedAt(s, events, k, id) && ViewAt(s, events, n).proposals[id].executedAt == events[k].now
    decreases n
  {
    hide ViewAt, ViewOf, Inv;
    NoneAtFirst(s, events, id);
    if n > 0 {
      StepAt(s, events, n - 1, id);
      var v := ViewAt(s, events, n - 1);
      if id in v.proposals && v.proposals[id].status == Executed {
        WasExecuted(s, events, n - 1, id);
        var k :| 0 <= k < n - 1 && ExecutedAt(s, events, k, id) && v.proposals[id].executedAt == events[k].now;
        assert ViewAt(s, events, n).proposals[id].executedAt == events[k].now;
      } else {
        assert ExecutedAt(s, events, n - 1, id);
      }
    }
  }

  /** Events `c`, `i` and `k` created, queued and executed proposal `id`, in that order; the execution came at
      least the deployment's timelock after the vote that queued it, and before the expiry set at creation. */
  ghost predicate Lifecycle(s: Storage, events: seq<Event>, c: nat, i: nat, k: nat, id: nat, timelock: nat)
    requires c < |events| && i < |events| && k < |events|
  {
    && c < i < k && CreatedAt(s, events, c, id) && QueuedAt(s, events, i, id) && ExecutedAt(s, events, k, id)
    && (events[i].now <= 0xFFFF_FFFF_FFFF_FFFF ==> Capped(events[i].now + timelock) <= events[k].now)
    && (events[c].now <= 0xFFFF_FFFF_FFFF_FFFF ==> events[k].now < Capped(events[c].now + 2_592_000))
    && SameContent(ViewAt(s, events, c + 1).proposals[id], ViewAt(s, events, k).proposals[id])
  }

  lemma TimelockFixed(s: Storage, events: seq<Event>, k: nat)
    requires Inv(ViewOf(s)) && k <= |events|
    ensures ViewAt(s, events, k).timelock == ViewOf(s).timelock
  {
    hide ViewOf, Run, Inv;
    RunKeepsInv(s, events[..k]);
  }

  lemma Waited(s: Storage, events: seq<Event>, c: nat, i: nat, k: nat, id: nat)
    requires c < i < k < |events| && CreatedAt(s, events, c, id) && QueuedAt(s, events, i, id) && ExecutedAt(s, events, k, id)
    requires ViewAt(s, events, k).proposals[id].queuedAt == events[i].now && ViewAt(s, events, c).timelock == ViewOf(s).timelock
    requires SameContent(ViewAt(s, events, c + 1).proposals[id], ViewAt(s, events, k).proposals[id])
    ensures Lifecycle(s, events, c, i, k, id, ViewOf(s).timelock)
  {
    hide ViewOf, ViewAt, CreatedAt, QueuedAt;
    Created(s, events, c, id);
  }

  lemma ExecutionWaits(s: Storage, events: seq<Event>, k: nat, id: nat)
    requires Inv(ViewOf(s)) && ViewOf(s).proposals == map[] && k < |events| && ExecutedAt(s, events, k, id)
    ensures exists c: nat, i: nat :: c < |events| && i < |events| && Lifecycle(s, events, c, i, k, id, ViewOf(s).timelock)
  {
    hide ViewOf, ViewAt, Inv, QueuedAt, SameContent, Lifecycle;
    WasQueued(s, events, k, id);
    var i :| 0 <= i < k && QueuedAt(s, events, i, id) && ViewAt(s, events, k).proposals[id].queuedAt == events[i].now;
    WasCreated(s, events, k, id);
    var c :| 0 <= c < k && CreatedAt(s, events, c, id)
             && SameContent(ViewAt(s, events, c + 1).proposals[id], ViewAt(s, events, k).proposals[id]);
    Ordered(s, events, c, i, id);
    TimelockFixed(s, events, c);
    Waited(s, events, c, i, k, id);
  }

  /** Every execution, in every run of a deployed contract, was preceded by the vote that reached the threshold,
      and by the proposal it carries out, with the timelock counted from that vote. */
  lemma ExecutionsWait(self: Address, signers: seq<Address>, threshold: nat, timelock: nat, items: seq<Val>, events: seq<Event>, k: nat, id: nat)
    requires Construct(self, signers, threshold, timelock, items).Ok? && k < |events|
    requires ExecutedAt(Construct(self, signers, threshold, timelock, items).value, events, k, id)
    ensures exists c: nat, i: nat :: c < |events| && i < |events|
                && Lifecycle(Construct(self, signers, threshold, timelock, items).value, events, c, i, k, id, timelock)
  {
    ConstructedInv(self, signers, threshold, timelock, items);
    ConstructedTimelock(self, signers, threshold, timelock, items);
    hide Construct, ViewOf, Inv, Lifecycle, ExecutedAt;
    ExecutionWaits(Construct(self, signers, threshold, timelock, items).value, events, k, id);
  }

  /** A proposal is not voted on before it exists. */
  lemma Ordered(s: Storage, events: seq<Event>, c: nat, i: nat, id: nat)
    requires c < |events| && i < |events| && Inv(ViewOf(s)) && CreatedAt(s, events, c, id) && QueuedAt(s, events, i, id)
    ensures c < i
  {
    hide ViewOf, CreatedBy, ViewAt, Inv;
    if i < c {
      StillThere(s, events, i, c, id);
    }
  }

  lemma {:induction false} StillThere(s: Storage, events: seq<Event>, i: nat, n: nat, id: nat)
    requires i <= n <= |events| && Inv(ViewOf(s)) && id in ViewAt(s, events, i).proposals
    ensures id in ViewAt(s, events, n).proposals
    decreases n
  {
    hide ViewAt, CreatedBy, Inv, ViewOf;
    if i < n {
      StillThere(s, events, i, n - 1, id);
      StepAt(s, events, n - 1, id);
    }
  }

  lemma Created(s: Storage, events: seq<Event>, c: nat, id: nat)
    requires c < |events| && CreatedAt(s, events, c, id)
    ensures id in ViewAt(s, events, c + 1).proposals
    ensures var p := ViewAt(s, events, c + 1).proposals[id];
            && p.timelock == ViewAt(s, events, c).timelock
            && (events[c].now <= 0xFFFF_FFFF_FFFF_FFFF ==> p.expiresAt == Capped(events[c].now + 2_592_000))
  {
    hide ViewAt;
  }

  /** In every state a deployed contract reaches, every Queued or Executed proposal was queued by the vote that
      reached the threshold, at the time of that vote, and every Executed one has its execution. */
  lemma EveryProposalHasItsHistory(self: Address, signers: seq<Address>, threshold: nat, timelock: nat, items: seq<Val>, events: seq<Event>, id: nat)
    requires Construct(self, signers, threshold, timelock, items).Ok?
    requires id in ViewAt(Construct(self, signers, threshold, timelock, items).value, events, |events|).proposals
    ensures var s := Construct(self, signers, threshold, timelock, items).value;
            var p := ViewAt(s, events, |events|).proposals[id];
            && (exists c :: 0 <= c < |events| && CreatedAt(s, events, c, id) && SameContent(ViewAt(s, events, c + 1).proposals[id], p))
            && (p.status == Queued || p.status == Executed ==>
                  exists i :: 0 <= i < |events| && QueuedAt(s, events, i, id) && p.queuedAt == events[i].now)
            && (p.status == Executed ==> exists k :: 0 <= k < |events| && ExecutedAt(s, events, k, id) && p.executedAt == events[k].now)
  {
    var s := Construct(self, signers, threshold, timelock, items).value;
    ConstructedInv(self, signers, threshold, timelock, items);
    hide Construct, ViewOf, ViewAt, Inv, CreatedBy;
    var n := |events|;
    WasCreated(s, events, n, id);
    var p := ViewAt(s, events, n).proposals[id];
    if p.status == Queued || p.status == Executed {
      WasQueued(s, events, n, id);
    }
    if p.status == Executed {
      WasExecuted(s, events, n, id);
    }
  }

  // ----- exactly when a call is accepted -----

  /** The nonce a caller must present: the persistent one, else the legacy one, else zero for an address that
      has never transacted. A lost nonce has no acceptable value. */
  predicate Expects(s: Storage, a: Address, nonce: nat) {
    && nonce < 0xFFFF_FFFF_FFFF_FFFF
    && if a in s.nonces then nonce == s.nonces[a]
       else if a in s.legacyNonces then nonce == s.legacyNonces[a]
       else a !in s.nonceMarkers && nonce == 0
  }

  /** The nonce is used up: the caller's next one is its successor, and nobody else's has changed. */
  ghost predicate Spends(s: Storage, t: Storage, a: Address, nonce: nat) {
    (nonce + 1 < 0xFFFF_FFFF_FFFF_FFFF ==> Expects(t, a, nonce + 1))
    && forall x, n: nat :: (x != a ==> (Expects(t, x, n) <==> Expects(s, x, n))) && (x == a && Expects(t, x, n) ==> n == nonce + 1)
  }

  lemma NonceCheck(s: Storage, a: Address, nonce: nat)
    ensures CheckNonce(s, a, nonce).Ok? <==> Expects(s, a, nonce)
    ensures CheckNonce(s, a, nonce).Ok? ==>
              var t := CheckNonce(s, a, nonce).value;
              && Spends(s, t, a, nonce) && ViewOf(t) == ViewOf(s) && t.self == s.self && t.allowed == s.allowed && t.signers == s.signers
              && t.proposals == s.proposals && t.legacyProposals == s.legacyProposals
  {
  }

  lemma AdmitCheck(s: Storage, caller: Address, nonce: nat)
    ensures Admit(s, caller, nonce).Ok? <==> Expects(s, caller, nonce) && IsSigner(ViewOf(s), caller)
    ensures Admit(s, caller, nonce).Ok? ==>
              var t := Admit(s, caller, nonce).value;
              Spends(s, t, caller, nonce) && ViewOf(t) == ViewOf(s) && t.self == s.self && t.allowed == s.allowed
  {
    hide Expects, Spends;
    NonceCheck(s, caller, nonce);
    hide CheckNonce;
  }

  /** Writing proposals, votes, the counter or the list touches no nonce. */
  lemma SameNonces(s: Storage, t: Storage, u: Storage, a: Address, nonce: nat)
    requires Spends(s, t, a, nonce) && u.nonces == t.nonces && u.legacyNonces == t.legacyNonces && u.nonceMarkers == t.nonceMarkers
    ensures Spends(s, u, a, nonce)
  {
    assert forall x, n: nat :: Expects(u, x, n) <==> Expects(t, x, n);
    hide Expects;
  }

  lemma ProposeRule(s: Storage, caller: Address, target: Address, fn: Symbol, args: seq<Val>, description: Symbol, nonce: nat, now: nat)
    ensures var r, v := Propose(s, caller, target, fn, args, description, nonce, now), ViewOf(s);
            && (r.Ok? <==> && Expects(s, caller, nonce) && IsSigner(v, caller) && v.count < 0xFFFF_FFFF_FFFF_FFFF
                           && (if target == v.self then fn == "set_allowed_calls" else AllowedCall(target, fn) in v.allowed))
            && (r.Ok? ==> r.value.1 == v.count + 1 && Spends(s, r.value.0, caller, nonce))
  {
    hide Expects, Spends, SaturatingAddU64;
    AdmitCheck(s, caller, nonce);
    hide Admit;
    if Propose(s, caller, target, fn, args, description, nonce, now).Ok? {
      SameNonces(s, Admit(s, caller, nonce).value, Propose(s, caller, target, fn, args, description, nonce, now).value.0, caller, nonce);
    }
  }

  /** When a vote on proposal `id` can be cast. */
  ghost predicate CanVote(s: Storage, caller: Address, id: nat, nonce: nat, now: nat) {
    var v := ViewOf(s);
    && Expects(s, caller, nonce) && IsSigner(v, caller) && id in v.proposals
    && v.proposals[id].status == Pending && now < v.proposals[id].expiresAt && (id, caller) !in v.votes
  }

  lemma BallotCheck(s: Storage, caller: Address, id: nat, nonce: nat, now: nat)
    ensures Ballot(s, caller, id, nonce, now).Ok? <==> CanVote(s, caller, id, nonce, now)
    ensures Ballot(s, caller, id, nonce, now).Ok? ==>
              var (t, p) := Ballot(s, caller, id, nonce, now).value;
              Spends(s, t, caller, nonce) && id in ViewOf(s).proposals && p == ViewOf(s).proposals[id]
  {
    hide Expects, Spends;
    AdmitCheck(s, caller, nonce);
    hide Admit;
  }

  /** A vote is accepted exactly from a signer who has not voted on a Pending proposal that has not expired. */
  lemma VoteRule(s: Storage, caller: Address, id: nat, nonce: nat, now: nat)
    ensures VoteApprove(s, caller, id, nonce, now).Ok? <==>
              CanVote(s, caller, id, nonce, now) && ViewOf(s).proposals[id].approvals < 0xFFFF_FFFF
    ensures VoteVeto(s, caller, id, nonce, now).Ok? <==>
              CanVote(s, caller, id, nonce, now) && ViewOf(s).proposals[id].vetoes < 0xFFFF_FFFF
    ensures VoteApprove(s, caller, id, nonce, now).Ok? ==> Spends(s, VoteApprove(s, caller, id, nonce, now).value.0, caller, nonce)
    ensures VoteVeto(s, caller, id, nonce, now).Ok? ==> Spends(s, VoteVeto(s, caller, id, nonce, now).value.0, caller, nonce)
  {
    hide Expects, Spends, ViewOf;
    BallotCheck(s, caller, id, nonce, now);
    hide Ballot;
    if Ballot(s, caller, id, nonce, now).Ok? {
      var t := Ballot(s, caller, id, nonce, now).value.0;
      if VoteApprove(s, caller, id, nonce, now).Ok? {
        SameNonces(s, t, VoteApprove(s, caller, id, nonce, now).value.0, caller, nonce);
      }
      if VoteVeto(s, caller, id, nonce, now).Ok? {
        SameNonces(s, t, VoteVeto(s, caller, id, nonce, now).value.0, caller, nonce);
      }
    }
  }

  /** A cancellation is accepted exactly from a signer, of a Pending proposal. */
  lemma CancelRule(s: Storage, caller: Address, id: nat, nonce: nat)
    ensures var r, v := Cancel(s, caller, id, nonce), ViewOf(s);
            && (r.Ok? <==> Expects(s, caller, nonce) && IsSigner(v, caller) && id in v.proposals && v.proposals[id].status == Pending)
            && (r.Ok? ==> Spends(s, r.value.0, caller, nonce))
  {
    hide Expects, Spends;
    AdmitCheck(s, caller, nonce);
    hide Admit;
    if Cancel(s, caller, id, nonce).Ok? {
      SameNonces(s, Admit(s, caller, nonce).value, Cancel(s, caller, id, nonce).value.0, caller, nonce);
    }
  }

  lemma ExpectsIsRead(s: Storage, a: Address, nonce: nat)
    ensures Expects(s, a, nonce) <==> ReadNonce(s, a) == Ok(nonce) && nonce < 0xFFFF_FFFF_FFFF_FFFF
  {
  }

  /** An execution is accepted exactly when the proposal is Queued, its timelock has run, it has not expired, and
      it can be dispatched: a listed pair whose call returns, or decodable arguments with the contract's nonce. */
  lemma ExecuteRule(s: Storage, caller: Address, id: nat, nonce: nat, callOk: bool, now: nat)
    requires caller != s.self
    ensures Execute(s, caller, id, nonce, callOk, now).Ok? <==>
              && Expects(s, caller, nonce) && id in ViewOf(s).proposals
              && var p := ViewOf(s).proposals[id];
              && p.status == Queued && now < p.expiresAt && SaturatingAddU64(p.queuedAt, p.timelock) <= now
              && Dispatchable(s, p) && (p.target != s.self ==> callOk)
  {
    hide SaturatingAddU64, Dispatch, Dispatchable, Expects, Spends;
    NonceCheck(s, caller, nonce);
    ExpectsIsRead(s, caller, nonce);
    if Expects(s, caller, nonce) {
      NonceReady(s, caller, nonce);
      if id in Proposals(s) {
        var t, p := CheckNonce(s, caller, nonce).value, Proposals(s)[id];
        DispatchIff(s, t, p);
        DispatchCall(t, p, callOk);
      }
    }
    hide CheckNonce, ReadNonce;
  }

  lemma DispatchCall(s: Storage, p: Proposal, callOk: bool)
    ensures Dispatch(s, p, callOk).Ok? <==> Dispatch(s, p, true).Ok? && (p.target != s.self ==> callOk)
  {
    hide DispatchSelfCall;
  }

  /** Only a signer migrates; only the contract itself, through an execution, replaces the list. */
  lemma AdministrationRule(s: Storage, caller: Address, items: seq<Val>, nonce: nat)
    ensures MigrateStorage(s, caller).Ok? <==> IsSigner(ViewOf(s), caller)
    ensures caller != s.self ==> SetAllowedCalls(s, caller, items, nonce) == Err(Unauthorized)
  {
    hide Migrated, Unmigrated, Dedup;
  }

  /** A contract is deployed exactly with distinct signers, a threshold they can reach, and at most 64 decodable
      pairs; it starts with nothing proposed and nothing voted. */
  lemma DeploymentRule(self: Address, signers: seq<Address>, threshold: nat, timelock: nat, items: seq<Val>)
    ensures Construct(self, signers, threshold, timelock, items).Ok? <==>
              && 1 <= threshold <= |signers| && (forall i, j :: 0 <= i < j < |signers| ==> signers[i] != signers[j])
              && |items| <= 64 && forall i :: 0 <= i < |items| ==> items[i].CallVal?
    ensures Construct(self, signers, threshold, timelock, items).Ok? ==>
              var v := ViewOf(Construct(self, signers, threshold, timelock, items).value);
              && v.self == self && v.signers == Some(signers) && v.threshold == threshold && v.timelock == timelock
              && v.count == 0 && v.proposals == map[] && v.votes == map[] && v.allowed == Dedup(CallsOf(items))
  {
    hide Dedup;
  }

  /** Why an execution is refused, in the order it is checked. */
  lemma ExecuteRefusals(s: Storage, caller: Address, id: nat, nonce: nat, callOk: bool, now: nat)
    requires Expects(s, caller, nonce)
    ensures var r, v := Execute(s, caller, id, nonce, callOk, now), ViewOf(s);
            if id !in v.proposals then r == Err(ProposalNotFound)
            else
              var p := v.proposals[id];
              if p.status != Queued then r == Err(NotQueued)
              else if p.expiresAt <= now then r == Err(ProposalExpired)
              else if now < SaturatingAddU64(p.queuedAt, p.timelock) then r == Err(TimelockNotElapsed)
              else p.target != v.self && AllowedCall(p.target, p.fn) !in v.allowed ==> r == Err(UnauthorizedCall)
  {
    hide SaturatingAddU64, Expects, Spends;
    NonceCheck(s, caller, nonce);
    hide CheckNonce, DispatchSelfCall;
  }
}
