/** What an answer means, for a handler interrupted by others in any way: which answers come with a call to the calendar
    or the lock, and what stands behind each. */
module ProtocolOutcomes {
  import opened Text
  import opened Protocol
  import opened ProtocolInvariant
  import opened ProtocolCalendar
  import opened ProtocolSafety
  import opened ProtocolTheorems
  import opened ProtocolAnswers
  import Policy
  import Audit
  import Files = NonceFile
  import Authority = ApprovalAuthority
  import Store = MeetingStore
  import Calendar = CalendarServer
  import CalendarGateway
  import Lock = SmartLockServer

  /** Answers that are given after the calendar or the lock has been called. */
  predicate AfterCall(result: Result) {
    result.EventReturned? || result == CalendarFailed || result == LockOpened || result == LockFailed
  }

  /** The event of the proposal is stored under this id. */
  predicate HasEventId(events: Calendar.Events, id: string, eventId: string) {
    Store.IdempotencyKey(id) in events && events[Store.IdempotencyKey(id)].eventId == eventId
  }

  predicate OutcomeOk(handler: Handler, h: HandlerId, accepted: Acceptances, effects: Effects, events: Calendar.Events,
                      unlocks: Unlocks) {
    handler.stage.Finished? ==>
      (AfterCall(handler.stage.result) <==> h in effects)
      && match handler.stage.result
         case EventReturned(eventId) =>
           handler.request.Approve? && HasEventId(events, handler.request.proposalId, eventId)
         case ProposalDenied => h in accepted
         case LockOpened => h in unlocks && unlocks[h].answer == Some(Lock.Unlocked)
         case _ => true
  }

  predicate OutcomesOk(handlers: Handlers, accepted: Acceptances, effects: Effects, events: Calendar.Events,
                       unlocks: Unlocks) {
    forall h :: h in handlers ==> OutcomeOk(handlers[h], h, accepted, effects, events, unlocks)
  }

  predicate Meaningful(s: System) {
    OutcomesOk(s.handlers, s.history.accepted, s.history.effects, s.events, s.unlocks)
  }

  // ----- How the parts may change -----

  /** One handler, which had not answered, has moved; for any other the effects and the unlock calls are the same. */
  ghost predicate HandlerStep(s: System, t: System, h: HandlerId) {
    h in t.handlers && t.handlers == s.handlers[h := t.handlers[h]]
    && t.history.accepted == s.history.accepted && t.events == s.events
    && Apart(h, s.history.effects, t.history.effects)
    && (forall k :: k != h && k in s.unlocks ==> k in t.unlocks && t.unlocks[k] == s.unlocks[k])
    && OutcomeOk(t.handlers[h], h, t.history.accepted, t.history.effects, t.events, t.unlocks)
  }

  lemma HandlerStepKeeps(s: System, t: System, h: HandlerId)
    requires Meaningful(s) && HandlerStep(s, t, h)
    ensures Meaningful(t)
  {
    hide HasEventId;
    forall k | k in t.handlers
      ensures OutcomeOk(t.handlers[k], k, t.history.accepted, t.history.effects, t.events, t.unlocks)
    {
      if k != h {
        assert OutcomeOk(s.handlers[k], k, s.history.accepted, s.history.effects, s.events, s.unlocks);
      }
    }
  }

  /** Handlers stand where they stood; acceptances and events have only been added, and unlock calls only answered. */
  ghost predicate ServerStep(s: System, t: System) {
    t.handlers == s.handlers && t.history.effects == s.history.effects
    && (forall h :: h in s.history.accepted ==> h in t.history.accepted)
    && (forall key :: key in s.events ==> key in t.events && t.events[key] == s.events[key])
    && forall h :: h in s.unlocks ==> h in t.unlocks && (s.unlocks[h].answer.Some? ==> t.unlocks[h] == s.unlocks[h])
  }

  lemma ServerStepKeeps(s: System, t: System)
    requires Meaningful(s) && ServerStep(s, t)
    ensures Meaningful(t)
  {
    forall h | h in t.handlers
      ensures OutcomeOk(t.handlers[h], h, t.history.accepted, t.history.effects, t.events, t.unlocks)
    {
      assert OutcomeOk(s.handlers[h], h, s.history.accepted, s.history.effects, s.events, s.unlocks);
    }
  }

  // ----- What the handler that answers knows -----

  lemma NoEffectWithoutCall(s: System, h: HandlerId)
    requires Inv(s) && h in s.handlers && s.handlers[h].stage in {Authorizing, Reviewing}
    ensures h !in s.history.effects
  {
    hide Inv, Holding, Granted;
    BeforeCallKnown(s, h);
    NotYetSent(s, h);
  }

  lemma NoEffectYetAt(s: System, h: HandlerId)
    requires Inv(s) && h in s.handlers && s.handlers[h].stage in {Consuming, Beginning, Auditing}
    ensures h !in s.history.effects
  {
    hide Inv, Granted;
    StageKnown(s, h);
  }

  lemma DenyingKnown(s: System, h: HandlerId)
    requires Inv(s) && At(s, h, Denying)
    ensures h !in s.history.effects && h in s.history.accepted
  {
    hide Inv, Granted, EvidenceOk, Store.OperationFor;
    StageKnown(s, h);
    if h in s.history.effects { EffectKnown(s, h); }
  }

  lemma CallsAreEffects(s: System, h: HandlerId)
    requires Inv(s)
    ensures h in s.creates || h in s.unlocks ==> h in s.history.effects
  {
    hide Store.Valid, IssuesOk, NoncesOk, AcceptedOk, SingleUse, ConsumesOk, StagesOk, HoldersOk, EventsOk, RepliesOk,
      AbandonedOk, CreatedOnce, LockOk, TimesOk, EffectOk, EvidenceOk;
  }

  lemma CreatingKnown(s: System, h: HandlerId)
    requires Inv(s) && h in s.handlers
    requires s.handlers[h].stage.Creating? || s.handlers[h].stage in {Completing, Cancelling}
    ensures h in s.history.effects && h in s.creates && s.handlers[h].request.Approve?
  {
    hide Inv, Granted, HasEvent;
    StageKnown(s, h);
    CallsAreEffects(s, h);
  }

  /** The id the calendar answered with is that of the stored event. */
  lemma AnswerIsStored(s: System, h: HandlerId)
    requires Inv(s) && h in s.creates && HasEvent(s.creates[h].reply)
    ensures h in s.handlers && s.handlers[h].request.Approve?
    ensures HasEventId(s.events, s.handlers[h].request.proposalId, s.creates[h].reply.value.eventId)
  {
    hide Inv, Store.OperationFor, Live, Calendar.ValidEvent, Store.IdempotencyKey;
    RequestKnown(s, h);
  }

  // ----- Each action -----

  lemma AuthorizeMeans(s: System, h: HandlerId, answer: Option<Answer>)
    requires Inv(s) && At(s, h, Authorizing)
    ensures HandlerStep(s, AfterAuthorize(s, h, answer), h)
  {
    hide Inv, PolicyGrant, Decided, UnlockBinding;
    NoEffectWithoutCall(s, h);
  }

  lemma ReviewMeans(s: System, h: HandlerId)
    requires Inv(s) && At(s, h, Reviewing) && !s.handlers[h].request.Unlock?
    ensures HandlerStep(s, AfterReview(s, h), h)
  {
    hide Inv, Store.Reviewing, ExactBinding;
    NoEffectWithoutCall(s, h);
  }

  lemma DenyMeans(s: System, h: HandlerId)
    requires Inv(s) && At(s, h, Denying) && s.handlers[h].request.Deny?
    ensures HandlerStep(s, AfterDeny(s, h), h)
  {
    hide Inv, Store.Denying;
    DenyingKnown(s, h);
  }

  lemma BeginOutcome(s: System, h: HandlerId)
    requires Inv(s) && At(s, h, Beginning) && s.handlers[h].request.Approve?
    ensures HandlerStep(s, AfterBegin(s, h), h)
  {
    hide Inv, Store.Beginning, Store.OperationFor;
    NoEffectYetAt(s, h);
  }

  lemma CreateReturnsMeans(s: System, h: HandlerId)
    requires Inv(s) && h in s.handlers && s.handlers[h].stage.Creating?
      && h in s.creates && HasEvent(s.creates[h].reply)
    ensures HandlerStep(s, AfterCreateReturns(s, h), h)
  {
    hide Inv, HasEvent, HasEventId;
    CreatingKnown(s, h);
    AnswerIsStored(s, h);
  }

  lemma CreateFailsMeans(s: System, h: HandlerId)
    requires Inv(s) && h in s.handlers && s.handlers[h].stage.Creating?
    ensures HandlerStep(s, AfterCreateFails(s, h), h)
  {
    hide Inv, HasEvent, HasEventId;
    CreatingKnown(s, h);
  }

  lemma CompleteMeans(s: System, h: HandlerId)
    requires Inv(s) && At(s, h, Completing) && s.handlers[h].request.Approve?
      && h in s.creates && HasEvent(s.creates[h].reply)
    ensures HandlerStep(s, AfterComplete(s, h), h)
  {
    hide Inv, HasEvent, HasEventId, Store.Leaving;
    CreatingKnown(s, h);
    AnswerIsStored(s, h);
  }

  lemma CancelMeans(s: System, h: HandlerId)
    requires Inv(s) && At(s, h, Cancelling) && s.handlers[h].request.Approve? && h in s.creates
    ensures HandlerStep(s, AfterCancel(s, h), h)
  {
    hide Inv, HasEventId, Store.Leaving;
    CreatingKnown(s, h);
  }

  lemma AuditMeans(s: System, h: HandlerId, delivered: bool, replied: bool)
    requires Inv(s) && At(s, h, Auditing) && h in s.history.accepted
    ensures HandlerStep(s, AfterAudit(s, h, delivered, replied), h)
  {
    hide Inv, UnlockRecord, Audit.Valid, HasEventId;
    NoEffectYetAt(s, h);
  }

  lemma CallLockMeans(s: System, h: HandlerId)
    requires Inv(s) && At(s, h, Opening) && s.handlers[h].request.Unlock?
    ensures HandlerStep(s, AfterCallLock(s, h), h)
  {
    hide Inv, HasEventId;
  }

  lemma MoveMeans(s: System, h: HandlerId, stage: Stage)
    requires h in s.handlers
    requires OutcomeOk(s.handlers[h].(stage := stage), h, s.history.accepted, s.history.effects, s.events, s.unlocks)
    ensures HandlerStep(s, Move(s, h, stage), h)
  {
    hide OutcomeOk;
  }

  lemma ConsumeFailsMeans(s: System, h: HandlerId)
    requires Inv(s) && At(s, h, Consuming)
    ensures HandlerStep(s, Move(s, h, Finished(ApprovalRefused)), h)
  {
    hide Inv, HandlerStep;
    NoEffectYetAt(s, h);
    MoveMeans(s, h, Finished(ApprovalRefused));
  }

  lemma UnlockingMeans(s: System, h: HandlerId, result: Result)
    requires Inv(s) && At(s, h, Unlocking)
    requires result == LockFailed
      || (result == LockOpened && h in s.unlocks && s.unlocks[h].answer == Some(Lock.Unlocked))
    ensures HandlerStep(s, Move(s, h, Finished(result)), h)
  {
    hide Inv, HandlerStep, Granted;
    StageKnown(s, h);
    CallsAreEffects(s, h);
    MoveMeans(s, h, Finished(result));
  }

  lemma AnsweringMeans(s: System, a: Action)
    requires Inv(s) && Enabled(s, a) && Answering(a)
    ensures HandlerStep(s, Outcome(s, a), a.h)
  {
    hide Inv, HandlerStep, AfterDeny, AfterComplete, AfterCreateReturns, AfterBegin, AfterCancel, AfterAuthorize,
      AfterReview, AfterAudit, HasEvent, GoodAnswer;
    match a
    case DenyProposal(h) => DenyMeans(s, h);
    case Complete(h) => CompleteMeans(s, h);
    case CreateReturns(h) => CreateReturnsMeans(s, h);
    case Begin(h) => BeginOutcome(s, h);
    case Cancel(h) => CancelMeans(s, h);
    case Authorize(h, answer) => AuthorizeMeans(s, h, answer);
    case Review(h) => ReviewMeans(s, h);
    case RecordAudit(h, delivered, replied) => AuditMeans(s, h, delivered, replied);
  }

  lemma StartMeans(s: System, h: HandlerId, handler: Handler)
    requires h !in s.handlers && handler.stage == Authorizing
    ensures HandlerStep(s, s.(handlers := s.handlers[h := handler]), h)
  {
  }

  lemma MovingMeans(s: System, a: Action)
    requires Inv(s) && Enabled(s, a) && Moving(a)
    ensures HandlerStep(s, Outcome(s, a), a.h)
  {
    hide Inv, HandlerStep, Move, AfterCallLock, AfterCreateFails, GoodAnswer;
    match a
    case StartHandler(h, context, request) =>
      StartMeans(s, h, Handler(context, request, Audit.NO_DECISION, Authorizing));
    case ConsumeReturns(h) => MoveMeans(s, h, AfterConsumed(s.handlers[h].request));
    case ConsumeFails(h) => ConsumeFailsMeans(s, h);
    case CreateFails(h) => CreateFailsMeans(s, h);
    case CallLock(h) => CallLockMeans(s, h);
    case UnlockReturns(h) => UnlockingMeans(s, h, LockOpened);
    case UnlockFails(h) => UnlockingMeans(s, h, LockFailed);
  }

  lemma CommitServes(s: System, h: HandlerId, append: Authority.Append)
    requires h in s.consumes && s.consumes[h].phase.Checked? && s.consumes[h].token.Opens?
    ensures ServerStep(s, AfterCommit(s, h, append))
  {
    hide Authority.Commit;
  }

  lemma EventServes(s: System, h: HandlerId)
    requires Inv(s) && h in s.creates
    ensures ServerStep(s, AfterEvent(s, h))
  {
    hide Inv, Calendar.Creating;
    EventsAreFiled(s);
    Calendar.CreatingKeepsFiled(s.events, s.creates[h].arguments);
  }

  lemma EventsAreFiled(s: System)
    requires Inv(s)
    ensures Calendar.Filed(s.events)
  {
    hide Store.Valid, IssuesOk, NoncesOk, AcceptedOk, SingleUse, ConsumesOk, StagesOk, EffectsOk, HoldersOk,
      RepliesOk, AbandonedOk, CreatedOnce, LockOk, TimesOk, Calendar.Filed;
  }

  lemma UnlockServes(s: System, h: HandlerId)
    requires h in s.unlocks && s.unlocks[h].answer == None
    ensures ServerStep(s, AfterUnlock(s, h))
  {
    hide Lock.Unlocking;
  }

  lemma RestartServes(s: System, readable: bool)
    ensures ServerStep(s, AfterRestart(s, readable))
  {
    hide Authority.Restart;
  }

  lemma CheckServes(s: System, h: HandlerId)
    requires h in s.consumes
    ensures ServerStep(s, AfterArrive(s, h)) && ServerStep(s, AfterCheck(s, h))
  {
    hide Genuine, Authority.Matches;
  }

  lemma AuthorityServes(s: System, a: Action)
    requires Enabled(s, a) && AtAuthority(a)
    ensures ServerStep(s, Outcome(s, a))
  {
    hide ServerStep, AfterCommit, AfterArrive, AfterCheck, AfterRestart;
    match a
    case ConsumeCommits(h, append) => CommitServes(s, h, append);
    case ConsumeArrives(h) => CheckServes(s, h);
    case ConsumeChecked(h) => CheckServes(s, h);
    case RestartAuthority(readable) => RestartServes(s, readable);
  }

  lemma GatewayServes(s: System, context: Policy.SecurityContext, input: Store.ProposalInput)
    ensures ServerStep(s, AfterSubmit(s, context, input))
  {
    hide Store.Submitted, CalendarGateway.Trimmed;
  }

  lemma IssueServes(s: System, binding: Authority.Binding, nonce: string)
    ensures ServerStep(s, AfterIssue(s, binding, nonce))
  {
    hide Authority.ClaimsFor;
  }

  lemma OthersServe(s: System, a: Action)
    requires Inv(s) && Enabled(s, a) && !Answering(a) && !Moving(a) && !AtAuthority(a)
    ensures ServerStep(s, Outcome(s, a))
  {
    hide Inv, AfterEvent, AfterUnlock, AfterSubmit, AfterIssue, Authority.ValidBinding, Audit.Valid,
      Policy.Authorization, CalendarGateway.AcceptsProposal, Files.IsNonce, HasEvent, GoodAnswer, HasEventId;
    match a
    case Submit(context, input) => GatewayServes(s, context, input);
    case IssueApproval(binding, nonce) => IssueServes(s, binding, nonce);
    case EventArrives(h) => EventServes(s, h);
    case UnlockArrives(h) => UnlockServes(s, h);
    case _ =>
  }

  lemma ServersServe(s: System, a: Action)
    requires Inv(s) && Enabled(s, a) && !Answering(a) && !Moving(a)
    ensures ServerStep(s, Outcome(s, a))
  {
    hide Inv, Enabled, Outcome, ServerStep, Answering, Moving, AtAuthority;
    if AtAuthority(a) { AuthorityServes(s, a); } else { OthersServe(s, a); }
  }

  lemma MeaningfulStep(s: System, a: Action)
    requires Inv(s) && Meaningful(s) && Enabled(s, a)
    ensures Meaningful(Next(s, a))
  {
    hide Inv, Enabled, Outcome, OutcomesOk, HandlerStep, ServerStep, Answering, Moving;
    if Answering(a) {
      AnsweringMeans(s, a);
      HandlerStepKeeps(s, Outcome(s, a), HandlerOf(a));
    } else if Moving(a) {
      MovingMeans(s, a);
      HandlerStepKeeps(s, Outcome(s, a), HandlerOf(a));
    } else {
      ServersServe(s, a);
      ServerStepKeeps(s, Outcome(s, a));
    }
  }

  lemma {:induction false} MeaningfulRun(s: System, actions: seq<Action>, t: System)
    requires Inv(s) && Meaningful(s) && Run(s, actions, t)
    ensures Meaningful(t)
    decreases |actions|
  {
    hide Inv, Enabled, Next, Meaningful;
    if actions != [] {
      StepKeeps(s, actions[0]);
      MeaningfulStep(s, actions[0]);
      MeaningfulRun(Next(s, actions[0]), actions[1..], t);
    }
  }

  /** Whatever other handlers did between its steps, a handler that has answered has called the calendar or the lock
      exactly if its answer is one that comes after the call. Who got an event id can find the event under it; who was
      told that the lock opened has had the lock answer so; and who was told of a denial has spent an Approval. */
  lemma AnswerMeans(s: System, h: HandlerId)
    requires Reachable(s) && h in s.handlers && s.handlers[h].stage.Finished?
    ensures AfterCall(s.handlers[h].stage.result) <==> h in s.history.effects
    ensures match s.handlers[h].stage.result
      case EventReturned(eventId) =>
        s.handlers[h].request.Approve? && HasEventId(s.events, s.handlers[h].request.proposalId, eventId)
      case ProposalDenied => h in s.history.accepted
      case LockOpened => h in s.unlocks && s.unlocks[h].answer == Some(Lock.Unlocked)
      case _ => true
  {
    hide Inv, Run;
    var start, actions :| Initial(start) && Run(start, actions, s);
    InitialHolds(start);
    MeaningfulRun(start, actions, s);
    assert OutcomeOk(s.handlers[h], h, s.history.accepted, s.history.effects, s.events, s.unlocks);
  }
}
