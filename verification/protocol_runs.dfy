/** What no run of the protocol undoes. */
module ProtocolRuns {
  import opened Text
  import opened Protocol
  import opened ProtocolInvariant
  import opened ProtocolSteps
  import opened ProtocolEffects
  import opened ProtocolCalendar
  import opened ProtocolSafety
  import Policy
  import Audit
  import Authority = ApprovalAuthority
  import Store = MeetingStore
  import Calendar = CalendarServer
  import CalendarGateway
  import Lock = SmartLockServer

  predicate HasStatus(s: System, id: string, status: Store.Status) {
    id in s.store.states && s.store.states[id] == status
  }

  predicate CreatesFor(effect: Effect, id: string) {
    effect.CreateEvent? && effect.arguments.proposalId == id
  }

  /** What no run undoes: proposals, requests, effects, and approved or denied statuses; and a denied proposal is
      not sent to the calendar again. */
  ghost predicate Onward(s: System, t: System) {
    ProposalsGrow(s.store.proposals, t.store.proposals) && SameRequests(s.handlers, t.handlers)
    && (forall id :: HasStatus(s, id, Store.Approved) ==> HasStatus(t, id, Store.Approved))
    && (forall id :: HasStatus(s, id, Store.Denied) ==>
      HasStatus(t, id, Store.Denied) && (id in s.history.abandoned <==> id in t.history.abandoned))
    && (forall h :: h in s.history.effects ==> h in t.history.effects && t.history.effects[h] == s.history.effects[h])
    && (forall h, id ::
      h in t.history.effects && CreatesFor(t.history.effects[h], id) && HasStatus(s, id, Store.Denied) ==>
      h in s.history.effects)
  }

  lemma OnwardBoth(s: System, t: System, u: System)
    requires Onward(s, t) && Onward(t, u)
    ensures Onward(s, u)
  {
    hide CreatesFor, HasStatus;
  }

  /** Nothing but handlers of the same requests changes, or things that do not matter here. */
  lemma OnwardQuiet(s: System, t: System)
    requires t.store == s.store && SameRequests(s.handlers, t.handlers)
    requires t.history.abandoned == s.history.abandoned && t.history.effects == s.history.effects
    ensures Onward(s, t)
  {
  }

  lemma StoreIsValid(s: System)
    requires Inv(s)
    ensures Store.Valid(s.store)
  {
    hide Store.Valid, IssuesOk, NoncesOk, AcceptedOk, SingleUse, ConsumesOk, StagesOk, EffectsOk, HoldersOk, EventsOk,
      RepliesOk, AbandonedOk, CreatedOnce, LockOk, TimesOk;
  }

  lemma OnwardSubmit(s: System, context: Policy.SecurityContext, input: Store.ProposalInput)
    requires Inv(s) && s.store.next + 1 < Store.COUNTER_RANGE
    ensures Onward(s, AfterSubmit(s, context, input))
  {
    hide Inv, Store.Submitted, Store.Valid, CalendarGateway.Trimmed, CommitmentKept;
    StoreIsValid(s);
    SubmitEffects(s.store, AfterSubmit(s, context, input).store, context.subject, CalendarGateway.Trimmed(input));
  }

  /** One more call with an effect, not for a denied proposal. */
  lemma OnwardEffect(s: System, t: System, h: HandlerId, effect: Effect)
    requires t.store.proposals == s.store.proposals && SameRequests(s.handlers, t.handlers)
    requires forall id :: HasStatus(s, id, Store.Approved) ==> HasStatus(t, id, Store.Approved)
    requires forall id :: HasStatus(s, id, Store.Denied) ==> HasStatus(t, id, Store.Denied) && !CreatesFor(effect, id)
    requires t.history.abandoned == s.history.abandoned
    requires h !in s.history.effects && t.history.effects == s.history.effects[h := effect]
    ensures Onward(s, t)
  {
    hide CreatesFor, HasStatus, SameRequests;
  }

  lemma BeginMeans(s: System, h: HandlerId)
    requires h in s.handlers && s.handlers[h].request.Approve?
    ensures var id, t := s.handlers[h].request.proposalId, AfterBegin(s, h);
      t.store.proposals == s.store.proposals && SameRequests(s.handlers, t.handlers)
      && t.history.abandoned == s.history.abandoned && t.history.evidence == s.history.evidence
      && match Store.Beginning(s.store, id).1
         case BeginFailed(_) => t.store == s.store && t.history.effects == s.history.effects
         case Begin(operation, retry) =>
           t.store.states == (if retry then s.store.states else s.store.states[id := Store.Approving])
           && t.history.effects == s.history.effects[h := CreateEvent(operation.arguments, s.ticks)]
  {
    hide Store.OperationFor;
  }

  lemma OnwardBegin(s: System, h: HandlerId)
    requires Inv(s) && At(s, h, Beginning) && s.handlers[h].request.Approve?
    ensures Onward(s, AfterBegin(s, h))
  {
    hide Inv, Granted, Onward, Store.OperationFor, AfterBegin, SameRequests;
    var id, t := s.handlers[h].request.proposalId, AfterBegin(s, h);
    BeginningKnown(s, h);
    StoreIsValid(s);
    OperationArguments(s.store, id);
    BeginMeans(s, h);
    if s.store.states[id] in {Store.Pending, Store.Approved} {
      OnwardEffect(s, t, h, CreateEvent(Store.OperationFor(s.store.proposals[id]).arguments, s.ticks));
    } else {
      OnwardQuiet(s, t);
    }
  }

  lemma OnwardDeny(s: System, h: HandlerId)
    requires h in s.handlers && s.handlers[h].request.Deny?
    ensures Onward(s, AfterDeny(s, h))
  {
  }

  lemma OnwardComplete(s: System, h: HandlerId)
    requires h in s.handlers && s.handlers[h].request.Approve? && h in s.creates && HasEvent(s.creates[h].reply)
    ensures Onward(s, AfterComplete(s, h))
  {
  }

  lemma OnwardCancel(s: System, h: HandlerId)
    requires Inv(s) && At(s, h, Cancelling) && s.handlers[h].request.Approve? && h in s.creates
    ensures Onward(s, AfterCancel(s, h))
  {
    hide Inv;
    LeavingKnown(s, h);
  }

  lemma OnwardCallLock(s: System, h: HandlerId)
    requires Inv(s) && At(s, h, Opening) && s.handlers[h].request.Unlock?
    ensures Onward(s, AfterCallLock(s, h))
  {
    hide Inv, Granted;
    StageKnown(s, h);
  }

  predicate Resolving(a: Action) {
    a.Submit? || a.Begin? || a.DenyProposal? || a.Complete? || a.Cancel? || a.CallLock?
  }

  predicate Quiet(s: System, t: System) {
    t.store == s.store && SameRequests(s.handlers, t.handlers)
    && t.history.abandoned == s.history.abandoned && t.history.effects == s.history.effects
  }

  lemma PutQuiet(s: System, h: HandlerId, moved: Handler, consumes: map<HandlerId, ConsumeCall>)
    requires h in s.handlers && moved.context == s.handlers[h].context && moved.request == s.handlers[h].request
    ensures Quiet(s, s.(handlers := s.handlers[h := moved], consumes := consumes))
  {
  }

  lemma AuthorizeQuiet(s: System, h: HandlerId, answer: Option<Answer>)
    requires h in s.handlers
    ensures Quiet(s, AfterAuthorize(s, h, answer))
  {
    hide PolicyGrant, Decided, UnlockBinding, Quiet;
    var t := AfterAuthorize(s, h, answer);
    PutQuiet(s, h, t.handlers[h], t.consumes);
  }

  lemma ReviewQuiet(s: System, h: HandlerId)
    requires h in s.handlers && !s.handlers[h].request.Unlock?
    ensures Quiet(s, AfterReview(s, h))
  {
    hide Store.Reviewing, ExactBinding, Quiet;
    var t := AfterReview(s, h);
    PutQuiet(s, h, t.handlers[h], t.consumes);
  }

  lemma CommitQuiet(s: System, h: HandlerId, append: Authority.Append)
    requires h in s.consumes && s.consumes[h].phase.Checked? && s.consumes[h].token.Opens?
    ensures Quiet(s, AfterCommit(s, h, append))
  {
    hide Authority.Commit;
  }

  lemma AuditQuiet(s: System, h: HandlerId, delivered: bool, replied: bool)
    requires h in s.handlers && h in s.history.accepted
    ensures Quiet(s, AfterAudit(s, h, delivered, replied))
  {
    hide UnlockRecord, Audit.Valid;
  }

  lemma MoveQuiet(s: System, h: HandlerId, stage: Stage)
    requires h in s.handlers
    ensures Quiet(s, Move(s, h, stage))
  {
  }

  /** The actions that leave the handlers alone. */
  predicate Remote(a: Action) {
    a.SetClock? || a.IssueApproval? || a.RestartAuthority? || a.ConsumeArrives? || a.ConsumeChecked?
    || a.ConsumeCommits? || a.EventArrives? || a.UnlockArrives? || a.ResetLock? || a.ResetCollector? || a.Collect?
  }

  lemma RemoteQuiet(s: System, a: Action)
    requires Enabled(s, a) && Remote(a)
    ensures Quiet(s, Outcome(s, a))
  {
    hide AfterCommit, Authority.Restart, Authority.ClaimsFor, Calendar.Creating, Lock.Unlocking,
      Authority.ValidBinding, Genuine, Authority.Matches, Audit.Valid;
    if a.ConsumeCommits? { CommitQuiet(s, a.h, a.append); }
  }

  lemma StartQuiet(s: System, h: HandlerId, handler: Handler)
    requires h !in s.handlers
    ensures Quiet(s, s.(handlers := s.handlers[h := handler]))
  {
  }

  lemma LocalQuiet(s: System, a: Action)
    requires Enabled(s, a) && !Resolving(a) && !Remote(a)
    ensures Quiet(s, Outcome(s, a))
  {
    hide AfterAuthorize, AfterReview, AfterAudit, GoodAnswer, Move, Quiet, AfterConsumed;
    match a
    case StartHandler(h, context, request) =>
      StartQuiet(s, h, Handler(context, request, Audit.NO_DECISION, Authorizing));
    case Authorize(h, answer) => AuthorizeQuiet(s, h, answer);
    case Review(h) => ReviewQuiet(s, h);
    case ConsumeReturns(h) => MoveQuiet(s, h, AfterConsumed(s.handlers[h].request));
    case ConsumeFails(h) => MoveQuiet(s, h, Finished(ApprovalRefused));
    case CreateReturns(h) =>
      var retry, eventId := s.handlers[h].stage.retry, s.creates[h].reply.value.eventId;
      MoveQuiet(s, h, if retry then Finished(EventReturned(eventId)) else Completing);
    case CreateFails(h) => MoveQuiet(s, h, if s.handlers[h].stage.retry then Finished(CalendarFailed) else Cancelling);
    case RecordAudit(h, delivered, replied) => AuditQuiet(s, h, delivered, replied);
    case UnlockReturns(h) => MoveQuiet(s, h, Finished(LockOpened));
    case UnlockFails(h) => MoveQuiet(s, h, Finished(LockFailed));
  }

  /** The other actions leave the store, the effects and the abandoned approvals alone. */
  lemma OtherwiseQuiet(s: System, a: Action)
    requires Enabled(s, a) && !Resolving(a)
    ensures Quiet(s, Outcome(s, a))
  {
    hide Enabled, Outcome, Quiet;
    if Remote(a) {
      RemoteQuiet(s, a);
    } else {
      LocalQuiet(s, a);
    }
  }

  lemma OnwardResolving(s: System, a: Action)
    requires Inv(s) && Enabled(s, a) && Resolving(a)
    ensures Onward(s, Outcome(s, a))
  {
    hide Inv, Onward, CalendarGateway.AcceptsProposal, Policy.Authorization, AfterSubmit, AfterBegin, AfterDeny,
      AfterComplete, AfterCancel, AfterCallLock;
    match a
    case Submit(context, input) => OnwardSubmit(s, context, input);
    case Begin(h) => OnwardBegin(s, h);
    case DenyProposal(h) => OnwardDeny(s, h);
    case Complete(h) => OnwardComplete(s, h);
    case Cancel(h) => OnwardCancel(s, h);
    case CallLock(h) => OnwardCallLock(s, h);
  }

  lemma OnwardOutcome(s: System, a: Action)
    requires Inv(s) && Enabled(s, a)
    ensures Onward(s, Outcome(s, a))
  {
    hide Inv, Onward, Enabled, Outcome, Resolving, SameRequests;
    if Resolving(a) {
      OnwardResolving(s, a);
    } else {
      OtherwiseQuiet(s, a);
      OnwardQuiet(s, Outcome(s, a));
    }
  }

  lemma OnwardTick(s: System, t: System)
    requires Onward(s, t)
    ensures Onward(s, t.(ticks := s.ticks + 1))
  {
  }

  lemma OnwardStep(s: System, a: Action)
    requires Inv(s) && Enabled(s, a)
    ensures Onward(s, Next(s, a))
  {
    hide Inv, Enabled, Outcome, Onward;
    OnwardOutcome(s, a);
    OnwardTick(s, Outcome(s, a));
  }

  /** No run undoes any of it. */
  lemma {:induction false} OnwardRun(s: System, actions: seq<Action>, t: System)
    requires Inv(s) && Run(s, actions, t)
    ensures Onward(s, t)
    decreases |actions|
  {
    hide Inv, Enabled, Next, Onward;
    if actions == [] {
      OnwardQuiet(s, s);
    } else {
      StepKeeps(s, actions[0]);
      OnwardStep(s, actions[0]);
      OnwardRun(Next(s, actions[0]), actions[1..], t);
      OnwardBoth(s, Next(s, actions[0]), t);
    }
  }
}
