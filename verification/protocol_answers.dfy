/** What callers are told: no run answers one caller that a proposal was denied and another that its event exists. */
module ProtocolAnswers {
  import opened Text
  import opened Protocol
  import opened ProtocolInvariant
  import opened ProtocolCalendar
  import opened ProtocolSafety
  import opened ProtocolRuns
  import Policy
  import Audit
  import Authority = ApprovalAuthority
  import Store = MeetingStore
  import Calendar = CalendarServer
  import CalendarGateway
  import Lock = SmartLockServer

  predicate Resolved(states: States, id: string, status: Store.Status) {
    id in states && states[id] == status
  }

  /** A final answer agrees with the status of the proposal. */
  predicate AnswerOk(handler: Handler, states: States) {
    match handler.stage
    case Finished(ProposalDenied) =>
      handler.request.Deny? && Resolved(states, handler.request.proposalId, Store.Denied)
    case Finished(EventReturned(_)) =>
      handler.request.Approve? && Resolved(states, handler.request.proposalId, Store.Approved)
    case _ => true
  }

  predicate AnswersOk(handlers: Handlers, states: States) {
    forall h :: h in handlers ==> AnswerOk(handlers[h], states)
  }

  ghost predicate StatusesKept(states: States, states': States) {
    forall id :: (Resolved(states, id, Store.Approved) ==> Resolved(states', id, Store.Approved))
      && (Resolved(states, id, Store.Denied) ==> Resolved(states', id, Store.Denied))
  }

  lemma AnswersKept(handlers: Handlers, states: States, states': States)
    requires AnswersOk(handlers, states) && StatusesKept(states, states')
    ensures AnswersOk(handlers, states')
  {
    hide Resolved;
  }

  /** One handler has moved, to a stage that agrees with the statuses. */
  ghost predicate OneMoved(s: System, t: System, h: HandlerId) {
    h in t.handlers && t.handlers == s.handlers[h := t.handlers[h]] && AnswerOk(t.handlers[h], t.store.states)
  }

  lemma AnswersPut(s: System, t: System, h: HandlerId)
    requires AnswersOk(s.handlers, s.store.states) && StatusesKept(s.store.states, t.store.states) && OneMoved(s, t, h)
    ensures AnswersOk(t.handlers, t.store.states)
  {
    hide AnswerOk, StatusesKept;
    AnswersKept(s.handlers, s.store.states, t.store.states);
  }

  // ----- The steps that give a final answer -----

  lemma DenyAnswers(s: System, h: HandlerId)
    requires h in s.handlers && s.handlers[h].request.Deny?
    ensures OneMoved(s, AfterDeny(s, h), h)
  {
  }

  lemma CompleteAnswers(s: System, h: HandlerId)
    requires Inv(s) && At(s, h, Completing) && s.handlers[h].request.Approve? && h in s.creates
      && HasEvent(s.creates[h].reply)
    ensures OneMoved(s, AfterComplete(s, h), h)
  {
    hide Inv, HasEvent;
    LeavingKnown(s, h);
  }

  lemma RetryIsApproved(s: System, h: HandlerId)
    requires Inv(s) && h in s.handlers && Retrying(s.handlers[h])
    ensures Resolved(s.store.states, s.handlers[h].request.proposalId, Store.Approved)
  {
    hide Store.Valid, IssuesOk, NoncesOk, AcceptedOk, SingleUse, ConsumesOk, StagesOk, EffectsOk, EventsOk, RepliesOk,
      AbandonedOk, CreatedOnce, LockOk, TimesOk, Retrying;
  }

  lemma CreateReturnsAnswers(s: System, h: HandlerId)
    requires Inv(s) && h in s.handlers && s.handlers[h].stage.Creating? && h in s.creates
      && HasEvent(s.creates[h].reply)
    ensures OneMoved(s, AfterCreateReturns(s, h), h)
  {
    hide Inv, HasEvent, Granted;
    StageKnown(s, h);
    if s.handlers[h].stage.retry { RetryIsApproved(s, h); }
  }

  // ----- The others -----

  lemma BeginAnswers(s: System, h: HandlerId)
    requires h in s.handlers && s.handlers[h].request.Approve?
    ensures OneMoved(s, AfterBegin(s, h), h)
  {
    hide Store.OperationFor;
  }

  lemma CancelAnswers(s: System, h: HandlerId)
    requires h in s.handlers && s.handlers[h].request.Approve? && h in s.creates
    ensures OneMoved(s, AfterCancel(s, h), h)
  {
    hide Store.Leaving;
  }

  lemma AuthorizeAnswers(s: System, h: HandlerId, answer: Option<Answer>)
    requires h in s.handlers
    ensures OneMoved(s, AfterAuthorize(s, h, answer), h)
  {
    hide PolicyGrant, Decided, UnlockBinding;
  }

  lemma ReviewAnswers(s: System, h: HandlerId)
    requires h in s.handlers && !s.handlers[h].request.Unlock?
    ensures OneMoved(s, AfterReview(s, h), h)
  {
    hide Store.Reviewing, ExactBinding;
  }

  lemma AuditAnswers(s: System, h: HandlerId, delivered: bool, replied: bool)
    requires h in s.handlers && h in s.history.accepted
    ensures OneMoved(s, AfterAudit(s, h, delivered, replied), h)
  {
    hide UnlockRecord, Audit.Valid;
  }

  predicate Answering(a: Action) {
    a.DenyProposal? || a.Complete? || a.CreateReturns? || a.Begin? || a.Cancel? || a.Authorize? || a.Review?
    || a.RecordAudit?
  }

  lemma AnsweringMoves(s: System, a: Action)
    requires Inv(s) && Enabled(s, a) && Answering(a)
    ensures OneMoved(s, Outcome(s, a), a.h)
  {
    hide Inv, OneMoved, AfterDeny, AfterComplete, AfterCreateReturns, AfterBegin, AfterCancel, AfterAuthorize,
      AfterReview, AfterAudit, HasEvent, GoodAnswer;
    match a
    case DenyProposal(h) => DenyAnswers(s, h);
    case Complete(h) => CompleteAnswers(s, h);
    case CreateReturns(h) => CreateReturnsAnswers(s, h);
    case Begin(h) => BeginAnswers(s, h);
    case Cancel(h) => CancelAnswers(s, h);
    case Authorize(h, answer) => AuthorizeAnswers(s, h, answer);
    case Review(h) => ReviewAnswers(s, h);
    case RecordAudit(h, delivered, replied) => AuditAnswers(s, h, delivered, replied);
  }

  lemma MoveAnswers(s: System, h: HandlerId, stage: Stage)
    requires h in s.handlers
    requires !stage.Finished? || (!stage.result.EventReturned? && stage.result != ProposalDenied)
    ensures OneMoved(s, Move(s, h, stage), h)
  {
  }

  /** A handler starts, hears from the Authority or the lock, gives up, or calls the lock. */
  predicate Moving(a: Action) {
    a.StartHandler? || a.ConsumeReturns? || a.ConsumeFails? || a.CreateFails? || a.CallLock? || a.UnlockReturns?
    || a.UnlockFails?
  }

  lemma CallLockAnswers(s: System, h: HandlerId)
    requires h in s.handlers && s.handlers[h].request.Unlock?
    ensures OneMoved(s, AfterCallLock(s, h), h)
  {
  }

  lemma MovingMoves(s: System, a: Action)
    requires Enabled(s, a) && Moving(a)
    ensures OneMoved(s, Outcome(s, a), a.h)
  {
    hide Move, AfterCallLock, GoodAnswer;
    match a
    case StartHandler(_, _, _) =>
    case ConsumeReturns(h) => MoveAnswers(s, h, AfterConsumed(s.handlers[h].request));
    case ConsumeFails(h) => MoveAnswers(s, h, Finished(ApprovalRefused));
    case CreateFails(h) => MoveAnswers(s, h,
                                       if s.handlers[h].stage.retry then Finished(CalendarFailed) else Cancelling);
    case CallLock(h) => CallLockAnswers(s, h);
    case UnlockReturns(h) => MoveAnswers(s, h, Finished(LockOpened));
    case UnlockFails(h) => MoveAnswers(s, h, Finished(LockFailed));
  }

  lemma CommitMovesNobody(s: System, h: HandlerId, append: Authority.Append)
    requires h in s.consumes && s.consumes[h].phase.Checked? && s.consumes[h].token.Opens?
    ensures AfterCommit(s, h, append).handlers == s.handlers
  {
    hide Authority.Commit;
  }

  lemma OthersMoveNobody(s: System, a: Action)
    requires Enabled(s, a) && !Answering(a) && !Moving(a)
    ensures Outcome(s, a).handlers == s.handlers
  {
    hide AfterCommit, Authority.Restart, Authority.ClaimsFor, Calendar.Creating, Lock.Unlocking,
      Authority.ValidBinding, Genuine, Authority.Matches, Audit.Valid, Policy.Authorization,
      CalendarGateway.AcceptsProposal, Store.Submitted;
    if a.ConsumeCommits? { CommitMovesNobody(s, a.h, a.append); }
  }

  lemma OnwardKeepsStatuses(s: System, t: System)
    requires Onward(s, t)
    ensures StatusesKept(s.store.states, t.store.states)
  {
    forall id
      ensures (Resolved(s.store.states, id, Store.Approved) ==> Resolved(t.store.states, id, Store.Approved))
        && (Resolved(s.store.states, id, Store.Denied) ==> Resolved(t.store.states, id, Store.Denied))
    {
      assert HasStatus(s, id, Store.Approved) ==> HasStatus(t, id, Store.Approved);
      assert HasStatus(s, id, Store.Denied) ==> HasStatus(t, id, Store.Denied);
    }
  }

  lemma AnswersStep(s: System, a: Action)
    requires Inv(s) && AnswersOk(s.handlers, s.store.states) && Enabled(s, a)
    ensures AnswersOk(Next(s, a).handlers, Next(s, a).store.states)
  {
    hide Inv, Enabled, Outcome, AnswersOk, StatusesKept, OneMoved, Answering, Moving, Onward;
    OnwardOutcome(s, a);
    OnwardKeepsStatuses(s, Outcome(s, a));
    if Answering(a) {
      AnsweringMoves(s, a);
      AnswersPut(s, Outcome(s, a), HandlerOf(a));
    } else if Moving(a) {
      MovingMoves(s, a);
      AnswersPut(s, Outcome(s, a), HandlerOf(a));
    } else {
      OthersMoveNobody(s, a);
      AnswersKept(s.handlers, s.store.states, Outcome(s, a).store.states);
    }
  }

  function HandlerOf(a: Action): HandlerId
    requires Answering(a) || Moving(a)
  {
    a.h
  }

  lemma {:induction false} AnswersRun(s: System, actions: seq<Action>, t: System)
    requires Inv(s) && AnswersOk(s.handlers, s.store.states) && Run(s, actions, t)
    ensures AnswersOk(t.handlers, t.store.states)
    decreases |actions|
  {
    hide Inv, Enabled, Next, AnswersOk;
    if actions != [] {
      StepKeeps(s, actions[0]);
      AnswersStep(s, actions[0]);
      AnswersRun(Next(s, actions[0]), actions[1..], t);
    }
  }

  /** Who is told that a proposal was denied, or that its event exists, is told the final status; so never is one caller
      told the one and another the other. */
  lemma AnswersAgree(s: System, h: HandlerId, k: HandlerId)
    requires Reachable(s) && h in s.handlers && k in s.handlers
    ensures s.handlers[h].stage == Finished(ProposalDenied) ==>
      s.handlers[h].request.Deny? && Resolved(s.store.states, s.handlers[h].request.proposalId, Store.Denied)
    ensures s.handlers[k].stage.Finished? && s.handlers[k].stage.result.EventReturned? ==>
      s.handlers[k].request.Approve? && Resolved(s.store.states, s.handlers[k].request.proposalId, Store.Approved)
    ensures (s.handlers[h].stage == Finished(ProposalDenied)
             && s.handlers[k].stage.Finished? && s.handlers[k].stage.result.EventReturned?) ==>
      s.handlers[h].request.proposalId != s.handlers[k].request.proposalId
  {
    hide Inv, Run;
    var start, actions :| Initial(start) && Run(start, actions, s);
    InitialHolds(start);
    AnswersRun(start, actions, s);
    assert AnswerOk(s.handlers[h], s.store.states) && AnswerOk(s.handlers[k], s.store.states);
  }
}
