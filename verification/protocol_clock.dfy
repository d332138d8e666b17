/** How late an Approval can be accepted. The expiry is compared when the claims are checked, before the critical
    section; the clock may go on until the nonce is committed. */
module ProtocolClock {
  import opened Text
  import opened Protocol
  import opened ProtocolInvariant
  import opened ProtocolSteps
  import opened ProtocolEffects
  import opened ProtocolSafety
  import opened ProtocolRuns
  import opened ProtocolTheorems
  import Policy
  import Audit
  import Expiry = ApprovalToken
  import Authority = ApprovalAuthority
  import Store = MeetingStore
  import Calendar = CalendarServer
  import CalendarGateway
  import Lock = SmartLockServer

  // ----- Where a check and an acceptance come from -----

  /** The call of handler h has passed its check at this instant. */
  predicate CheckedAt(s: System, h: HandlerId, at: int) {
    h in s.consumes && s.consumes[h].phase == Checked(at)
  }

  predicate Acceptable(s: System, h: HandlerId) {
    h in s.consumes && s.consumes[h].phase.Checked? && s.consumes[h].token.Opens?
  }

  /** A check is old, or it has just been made with the clock of the moment. */
  ghost predicate CheckExplained(s: System, a: Action, t: System, h: HandlerId) {
    forall at :: CheckedAt(t, h, at) ==> CheckedAt(s, h, at) || (a == ConsumeChecked(h) && at == s.clock)
  }

  /** An acceptance is old, or it has just been made, of the checked claims, with the clock of the moment. */
  predicate AcceptanceExplained(s: System, a: Action, t: System, h: HandlerId) {
    h in t.history.accepted ==>
      (h in s.history.accepted && s.history.accepted[h] == t.history.accepted[h])
      || (a.ConsumeCommits? && a.h == h && Acceptable(s, h) && s.consumes[h].phase.at == t.history.accepted[h].checkedAt
          && t.history.accepted[h].acceptedAt == s.clock)
  }

  lemma AuthorizeExplained(s: System, h: HandlerId, answer: Option<Answer>, k: HandlerId)
    requires h in s.handlers
    ensures CheckExplained(s, Authorize(h, answer), AfterAuthorize(s, h, answer), k)
    ensures AfterAuthorize(s, h, answer).history == s.history
  {
    hide PolicyGrant, Decided, UnlockBinding;
  }

  lemma ReviewExplained(s: System, h: HandlerId, k: HandlerId)
    requires h in s.handlers && !s.handlers[h].request.Unlock?
    ensures CheckExplained(s, Review(h), AfterReview(s, h), k) && AfterReview(s, h).history == s.history
  {
    hide Store.Reviewing, ExactBinding;
  }

  lemma RestartExplained(s: System, readable: bool, k: HandlerId)
    ensures CheckExplained(s, RestartAuthority(readable), AfterRestart(s, readable), k)
    ensures AfterRestart(s, readable).history == s.history
  {
    hide Authority.Restart;
  }

  lemma CheckStepExplained(s: System, h: HandlerId, k: HandlerId)
    requires h in s.consumes
    ensures CheckExplained(s, ConsumeChecked(h), AfterCheck(s, h), k) && AfterCheck(s, h).history == s.history
  {
    hide Genuine, Authority.Matches;
  }

  lemma CommitExplained(s: System, h: HandlerId, append: Authority.Append, k: HandlerId)
    requires Acceptable(s, h)
    ensures CheckExplained(s, ConsumeCommits(h, append), AfterCommit(s, h, append), k)
    ensures AcceptanceExplained(s, ConsumeCommits(h, append), AfterCommit(s, h, append), k)
  {
    hide Authority.Commit;
  }

  predicate Consuming(a: Action) {
    a.Authorize? || a.Review? || a.RestartAuthority? || a.ConsumeArrives? || a.ConsumeChecked? || a.ConsumeCommits?
  }

  lemma ConsumingExplained(s: System, a: Action, h: HandlerId)
    requires Enabled(s, a) && Consuming(a)
    ensures CheckExplained(s, a, Outcome(s, a), h) && AcceptanceExplained(s, a, Outcome(s, a), h)
  {
    hide AfterAuthorize, AfterReview, AfterRestart, AfterCheck, AfterCommit, CheckExplained, GoodAnswer;
    match a
    case Authorize(k, answer) => AuthorizeExplained(s, k, answer, h);
    case Review(k) => ReviewExplained(s, k, h);
    case RestartAuthority(readable) => RestartExplained(s, readable, h);
    case ConsumeArrives(k) => ArriveExplained(s, k, h);
    case ConsumeChecked(k) => CheckStepExplained(s, k, h);
    case ConsumeCommits(k, append) => CommitExplained(s, k, append, h);
  }

  lemma ArriveExplained(s: System, h: HandlerId, k: HandlerId)
    requires h in s.consumes
    ensures CheckExplained(s, ConsumeArrives(h), AfterArrive(s, h), k) && AfterArrive(s, h).history == s.history
  {
  }

  /** The other actions touch neither calls to the Authority nor acceptances. */
  predicate SameCalls(s: System, t: System) {
    t.consumes == s.consumes && t.history.accepted == s.history.accepted
  }

  lemma BeginSame(s: System, h: HandlerId)
    requires h in s.handlers && s.handlers[h].request.Approve?
    ensures SameCalls(s, AfterBegin(s, h))
  {
    hide Store.OperationFor;
  }

  lemma CancelSame(s: System, h: HandlerId)
    requires h in s.handlers && s.handlers[h].request.Approve? && h in s.creates
    ensures SameCalls(s, AfterCancel(s, h))
  {
    hide Store.Leaving;
  }

  lemma AuditSame(s: System, h: HandlerId, delivered: bool, replied: bool)
    requires h in s.handlers && h in s.history.accepted
    ensures SameCalls(s, AfterAudit(s, h, delivered, replied))
  {
    hide UnlockRecord, Audit.Valid;
  }

  lemma SubmitSame(s: System, context: Policy.SecurityContext, input: Store.ProposalInput)
    ensures SameCalls(s, AfterSubmit(s, context, input))
  {
    hide Store.Submitted, CalendarGateway.Trimmed;
  }

  lemma DenySame(s: System, h: HandlerId)
    requires h in s.handlers && s.handlers[h].request.Deny?
    ensures SameCalls(s, AfterDeny(s, h))
  {
    hide Store.Denying;
  }

  lemma CompleteSame(s: System, h: HandlerId)
    requires h in s.handlers && s.handlers[h].request.Approve? && h in s.creates && HasEvent(s.creates[h].reply)
    ensures SameCalls(s, AfterComplete(s, h))
  {
    hide Store.Leaving, HasEvent;
  }

  lemma ServersSame(s: System, h: HandlerId)
    ensures h in s.creates ==> SameCalls(s, AfterEvent(s, h))
    ensures h in s.unlocks ==> SameCalls(s, AfterUnlock(s, h))
  {
    hide Calendar.Creating, Lock.Unlocking;
  }

  lemma OthersSame(s: System, a: Action)
    requires Enabled(s, a) && !Consuming(a)
    ensures SameCalls(s, Outcome(s, a))
  {
    hide AfterBegin, AfterCancel, AfterAudit, AfterDeny, AfterComplete, AfterEvent, AfterUnlock, AfterSubmit, HasEvent,
      Authority.ValidBinding, Authority.ClaimsFor, Audit.Valid, Policy.Authorization, CalendarGateway.AcceptsProposal;
    match a
    case Submit(context, input) => SubmitSame(s, context, input);
    case Begin(h) => BeginSame(s, h);
    case DenyProposal(h) => DenySame(s, h);
    case Complete(h) => CompleteSame(s, h);
    case Cancel(h) => CancelSame(s, h);
    case EventArrives(h) => ServersSame(s, h);
    case UnlockArrives(h) => ServersSame(s, h);
    case RecordAudit(h, delivered, replied) => AuditSame(s, h, delivered, replied);
    case _ =>
  }

  lemma StepExplained(s: System, a: Action, h: HandlerId)
    requires Enabled(s, a)
    ensures CheckExplained(s, a, Next(s, a), h) && AcceptanceExplained(s, a, Next(s, a), h)
  {
    hide Enabled, Outcome, Consuming;
    if Consuming(a) {
      ConsumingExplained(s, a, h);
    } else {
      OthersSame(s, a);
    }
  }

  // ----- Runs on which commits follow their checks promptly -----

  /** Whenever a call commits, the clock is at most d past the latest check of that call; `checks` has the clock of the
      latest check of each call. */
  predicate Prompt(s: System, actions: seq<Action>, checks: map<HandlerId, int>, d: int)
    decreases |actions|
  {
    actions == []
    || (Enabled(s, actions[0])
        && (actions[0].ConsumeCommits? && actions[0].h in checks ==> s.clock <= checks[actions[0].h] + d)
        && Prompt(Next(s, actions[0]), actions[1..],
                  if actions[0].ConsumeChecked? then checks[actions[0].h := s.clock] else checks, d))
  }

  ghost predicate ChecksKnown(s: System, checks: map<HandlerId, int>) {
    forall h, at :: CheckedAt(s, h, at) ==> h in checks && checks[h] == at
  }

  predicate AcceptedPromptly(s: System, d: int) {
    forall h :: h in s.history.accepted ==> s.history.accepted[h].acceptedAt <= s.history.accepted[h].checkedAt + d
  }

  lemma PromptStep(s: System, a: Action, checks: map<HandlerId, int>, d: int)
    requires Enabled(s, a) && ChecksKnown(s, checks) && AcceptedPromptly(s, d)
    requires a.ConsumeCommits? && a.h in checks ==> s.clock <= checks[a.h] + d
    ensures ChecksKnown(Next(s, a), if a.ConsumeChecked? then checks[a.h := s.clock] else checks)
    ensures AcceptedPromptly(Next(s, a), d)
  {
    hide Enabled, Next;
    var t := Next(s, a);
    forall h, at | CheckedAt(t, h, at)
      ensures h in (if a.ConsumeChecked? then checks[a.h := s.clock] else checks)
      ensures (if a.ConsumeChecked? then checks[a.h := s.clock] else checks)[h] == at
    {
      StepExplained(s, a, h);
      if CheckedAt(s, h, at) { CheckedOnce(s, a, h, at); }
    }
    forall h | h in t.history.accepted ensures t.history.accepted[h].acceptedAt <= t.history.accepted[h].checkedAt + d {
      StepExplained(s, a, h);
      if !(h in s.history.accepted && s.history.accepted[h] == t.history.accepted[h]) {
        assert CheckedAt(s, h, s.consumes[h].phase.at);
      }
    }
  }

  /** A call that is checked was waiting for its check. */
  lemma CheckedOnce(s: System, a: Action, h: HandlerId, at: int)
    requires Enabled(s, a) && CheckedAt(s, h, at)
    ensures a != ConsumeChecked(h)
  {
  }

  lemma {:induction false} PromptRun(s: System, actions: seq<Action>, t: System, checks: map<HandlerId, int>, d: int)
    requires Run(s, actions, t) && Prompt(s, actions, checks, d) && ChecksKnown(s, checks) && AcceptedPromptly(s, d)
    ensures AcceptedPromptly(t, d)
    decreases |actions|
  {
    hide Enabled, Next, ChecksKnown, AcceptedPromptly;
    if actions != [] {
      PromptStep(s, actions[0], checks, d);
      PromptRun(Next(s, actions[0]), actions[1..], t,
                if actions[0].ConsumeChecked? then checks[actions[0].h := s.clock] else checks, d);
    }
  }

  /** On runs whose clock goes forward by at most d between a check and its commit, every acceptance comes before d has
      passed since the expiry. */
  lemma AcceptedBeforeExpiryAnd(s: System, actions: seq<Action>, t: System, d: int, h: HandlerId)
    requires Initial(s) && Run(s, actions, t) && Prompt(s, actions, map[], d) && h in t.history.accepted
    ensures t.history.accepted[h].acceptedAt <= t.history.accepted[h].checkedAt + d
    ensures Expiry.Unexpired(t.history.accepted[h].acceptedAt - d, t.history.accepted[h].claims.expiresAt)
  {
    hide Run, Prompt, Inv;
    PromptRun(s, actions, t, map[], d);
    InitialHolds(s);
    RunKeeps(s, actions, t);
    AcceptedIsIssued(t, h);
  }

  // ----- Exactly when a checked call can still be accepted too late -----

  /** Along these actions handler h's call commits, if it does, no later than the deadline. */
  predicate CommitsBy(s: System, actions: seq<Action>, h: HandlerId, deadline: int)
    decreases |actions|
  {
    actions == []
    || (Enabled(s, actions[0])
        && (actions[0].ConsumeCommits? && actions[0].h == h ==> s.clock <= deadline)
        && CommitsBy(Next(s, actions[0]), actions[1..], h, deadline))
  }

  /** The call can be accepted, no later than the deadline, although its Approval has expired. */
  ghost predicate MayBeLate(s: System, h: HandlerId, deadline: int) {
    exists actions, t :: Run(s, actions, t) && CommitsBy(s, actions, h, deadline) && AcceptedLate(t, h)
  }

  predicate AcceptedLate(t: System, h: HandlerId) {
    h in t.history.accepted && !Expiry.Unexpired(t.history.accepted[h].acceptedAt,
                                                 t.history.accepted[h].claims.expiresAt)
  }

  lemma {:induction false} AcceptedByDeadline(s: System, actions: seq<Action>, t: System, h: HandlerId, deadline: int)
    requires Run(s, actions, t) && CommitsBy(s, actions, h, deadline) && h in t.history.accepted
    requires h in s.history.accepted ==> s.history.accepted[h].acceptedAt <= deadline
    ensures t.history.accepted[h].acceptedAt <= deadline
    decreases |actions|
  {
    hide Enabled, Next;
    if actions != [] {
      StepExplained(s, actions[0], h);
      AcceptedByDeadline(Next(s, actions[0]), actions[1..], t, h, deadline);
    }
  }

  /** A call's Approval is that of its handler's request, in every later state. */
  lemma SameClaims(s: System, t: System, h: HandlerId)
    requires Inv(s) && Inv(t) && Onward(s, t) && Acceptable(s, h) && h in t.history.accepted
    ensures t.history.accepted[h].claims == s.consumes[h].token.claims
    ensures h !in s.history.accepted
  {
    hide Inv, Onward, Granted, Fits, Authority.SameBinding, Expiry.Unexpired, IsIssued;
    CallKnown(s, h);
    CallOfAccepted(t, h);
    OnwardRequests(s, t);
  }

  lemma OnwardRequests(s: System, t: System)
    requires Onward(s, t)
    ensures SameRequests(s.handlers, t.handlers)
  {
  }

  lemma WaitAndCommit(s: System, h: HandlerId, late: int)
    requires Acceptable(s, h) && !s.nonces.failed && s.consumes[h].token.claims.nonce !in s.nonces.used
    ensures var wait, commit := SetClock(late), ConsumeCommits(h, Authority.Written);
      Enabled(s, wait) && Enabled(Next(s, wait), commit)
      && var t := Next(Next(s, wait), commit);
      h in t.history.accepted && t.history.accepted[h].acceptedAt == late
      && t.history.accepted[h].claims == s.consumes[h].token.claims && Next(s, wait).clock == late
  {
  }

  lemma LateRun(s: System, h: HandlerId, late: int) returns (actions: seq<Action>, t: System)
    requires Acceptable(s, h) && !s.nonces.failed && s.consumes[h].token.claims.nonce !in s.nonces.used
    ensures Run(s, actions, t) && CommitsBy(s, actions, h, late) && h in t.history.accepted
    ensures t.history.accepted[h].acceptedAt == late && t.history.accepted[h].claims == s.consumes[h].token.claims
  {
    hide Enabled, Next;
    WaitAndCommit(s, h, late);
    var wait, commit := SetClock(late), ConsumeCommits(h, Authority.Written);
    var middle := Next(s, wait);
    t := Next(middle, commit);
    actions := [wait, commit];
    assert Run(t, [], t) && CommitsBy(t, [], h, late);
    assert [commit][0] == commit && [commit][1..] == [];
    assert Run(middle, [commit], t);
    assert CommitsBy(middle, [commit], h, late);
    assert actions[0] == wait && actions[1..] == [commit];
  }

  /** A checked call whose nonce is unused can be accepted too late within a delay exactly when the Approval does not
      outlive the check by more than that delay. */
  lemma MayBeLateExactly(s: System, h: HandlerId, d: int)
    requires Reachable(s) && Acceptable(s, h) && !s.nonces.failed && s.consumes[h].token.claims.nonce !in s.nonces.used
    ensures MayBeLate(s, h, s.consumes[h].phase.at + d) <==>
      !Expiry.Unexpired(s.consumes[h].phase.at + d, s.consumes[h].token.claims.expiresAt)
  {
    hide Reachable, Inv, Run, CommitsBy;
    var deadline := s.consumes[h].phase.at + d;
    ReachableInv(s);
    if MayBeLate(s, h, deadline) {
      var actions, t :| Run(s, actions, t) && CommitsBy(s, actions, h, deadline) && AcceptedLate(t, h);
      RunKeeps(s, actions, t);
      OnwardRun(s, actions, t);
      SameClaims(s, t, h);
      AcceptedByDeadline(s, actions, t, h, deadline);
    }
    if !Expiry.Unexpired(deadline, s.consumes[h].token.claims.expiresAt) {
      var actions, t := LateRun(s, h, deadline);
    }
  }
}
