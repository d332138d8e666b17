/** Handlers' own steps keep the invariant, and so does every action and every run. */
module ProtocolSafety {
  import opened Text
  import opened CanonicalJson
  import opened Protocol
  import opened ProtocolInvariant
  import opened ProtocolSteps
  import opened ProtocolEffects
  import opened ProtocolCalendar
  import opened ProtocolLock
  import Policy
  import Audit
  import Authority = ApprovalAuthority
  import Store = MeetingStore
  import Files = NonceFile
  import CalendarGateway

  // ----- Authorize and review -----

  /** What the policy allows a handler to do, it has granted to the Owner's Telegram turn. */
  lemma GrantedBy(handler: Handler, now: int)
    requires PolicyGrant(handler, now).allow
    ensures Granted(handler)
  {
    hide Policy.Authorization, Policy.ReferenceAllowed;
    var tool, arguments := ToolOf(handler.request), ArgumentsOf(handler.request);
    Policy.EffectToolsExactly(handler.context, tool, arguments, now);
    if handler.request.Unlock? {
      assert arguments.fields["device_id"] == Str(handler.request.device);
    }
  }

  lemma NotYetSent(s: System, h: HandlerId)
    requires Inv(s) && h !in s.consumes
    ensures h !in s.history.accepted && h !in s.history.effects && h !in s.history.evidence
  {
    hide Store.Valid, IssuesOk, NoncesOk, SingleUse, ConsumesOk, StagesOk, HoldersOk, EventsOk, RepliesOk,
      AbandonedOk, CreatedOnce, LockOk, TimesOk, Authority.SameBinding, Store.OperationFor, Audit.Valid;
  }

  /** A handler sends the binding of its operation to the Authority. */
  lemma FirstCallKeeps(s: System, h: HandlerId, moved: Handler, binding: Authority.Binding, t: System)
    requires Inv(s) && h in s.handlers && h !in s.consumes && s.handlers[h].stage in {Authorizing, Reviewing}
    requires moved.context == s.handlers[h].context && moved.request == s.handlers[h].request
      && moved.stage == Consuming
    requires Granted(moved) && Fits(s.store.proposals, moved, binding)
    requires t == s.(handlers := s.handlers[h := moved],
                     consumes := s.consumes[h := ConsumeCall(moved.request.token, binding, Sent)], ticks := s.ticks + 1)
    ensures Inv(t)
  {
    hide Inv, Granted, Fits;
    NotYetSent(s, h);
    SendKeeps(s, h, moved, t.consumes[h], t);
  }

  lemma FinishKeeps(s: System, h: HandlerId, result: Result, t: System)
    requires Inv(s) && h in s.handlers && !Holding(s.handlers[h])
      && t == Move(s, h, Finished(result)).(ticks := s.ticks + 1)
    ensures Inv(t)
  {
    hide Inv;
    MoveKeeps(s, h, t.handlers[h], t);
  }

  lemma ReviewNextKeeps(s: System, h: HandlerId, moved: Handler, t: System)
    requires Inv(s) && h in s.handlers && h !in s.consumes && s.handlers[h].stage == Authorizing
    requires moved.context == s.handlers[h].context && moved.request == s.handlers[h].request
      && moved.stage == Reviewing
    requires !moved.request.Unlock? && Granted(moved)
      && t == s.(handlers := s.handlers[h := moved], ticks := s.ticks + 1)
    ensures Inv(t)
  {
    hide Inv, Granted;
    MoveKeeps(s, h, moved, t);
  }

  /** A handler that is authorizing or reviewing has not called the Authority; a reviewing one is past the policy. */
  lemma BeforeCallKnown(s: System, h: HandlerId)
    requires Inv(s) && h in s.handlers && s.handlers[h].stage in {Authorizing, Reviewing}
    ensures h !in s.consumes && !Holding(s.handlers[h])
    ensures s.handlers[h].stage == Reviewing ==> Granted(s.handlers[h])
  {
    hide Inv, Granted;
    StageKnown(s, h);
  }

  lemma SameGrant(handler: Handler, moved: Handler)
    requires Granted(handler) && moved.context == handler.context && moved.request == handler.request
    ensures Granted(moved)
  {
  }

  lemma UnlockFits(proposals: Proposals, handler: Handler)
    requires handler.request.Unlock?
    ensures Fits(proposals, handler, UnlockBinding(handler.context, handler.request.device, handler.request.traceId))
  {
  }

  /** The policy has allowed the call. */
  lemma AllowedKeeps(s: System, h: HandlerId, answer: Answer, t: System)
    requires Inv(s) && At(s, h, Authorizing) && PolicyGrant(s.handlers[h], s.clock).allow
    requires t == AfterAuthorize(s, h, Some(answer)).(ticks := s.ticks + 1)
    ensures Inv(t)
  {
    hide Inv, Granted, PolicyGrant, UnlockBinding, Decided, StageOk, Holding, Fits;
    BeforeCallKnown(s, h);
    var handler := s.handlers[h];
    GrantedBy(handler, s.clock);
    SameGrant(handler, t.handlers[h]);
    if handler.request.Unlock? {
      UnlockFits(s.store.proposals, t.handlers[h]);
      var binding := UnlockBinding(handler.context, handler.request.device, handler.request.traceId);
      FirstCallKeeps(s, h, t.handlers[h], binding, t);
    } else {
      ReviewNextKeeps(s, h, t.handlers[h], t);
    }
  }

  lemma AuthorizeKeeps(s: System, h: HandlerId, answer: Option<Answer>, t: System)
    requires Inv(s) && At(s, h, Authorizing) && t == AfterAuthorize(s, h, answer).(ticks := s.ticks + 1)
    ensures Inv(t)
  {
    hide Inv, PolicyGrant, UnlockBinding, Decided, StageOk;
    if answer == None || !PolicyGrant(s.handlers[h], s.clock).allow {
      FinishKeeps(s, h, PolicyRefused, t);
    } else {
      AllowedKeeps(s, h, answer.value, t);
    }
  }

  lemma ReviewKeeps(s: System, h: HandlerId, t: System)
    requires Inv(s) && At(s, h, Reviewing) && !s.handlers[h].request.Unlock?
      && t == AfterReview(s, h).(ticks := s.ticks + 1)
    ensures Inv(t)
  {
    hide Inv, Granted, ExactBinding, Store.OperationFor, StageOk, Holding;
    BeforeCallKnown(s, h);
    var reviewed := Store.Reviewing(s.store, s.handlers[h].request.proposalId);
    if reviewed.Review? {
      SameGrant(s.handlers[h], t.handlers[h]);
      FirstCallKeeps(s, h, t.handlers[h], ExactBinding(s.handlers[h].context, reviewed.operation), t);
    } else {
      FinishKeeps(s, h, StoreRefused(reviewed.error), t);
    }
  }

  lemma StartKeeps(s: System, h: HandlerId, handler: Handler, t: System)
    requires Inv(s) && h !in s.handlers && handler.stage == Authorizing
    requires t == s.(handlers := s.handlers[h := handler], ticks := s.ticks + 1)
    ensures Inv(t)
  {
    hide Inv, Granted;
    CallsHaveHandlers(s, h);
    MoveKeeps(s, h, handler, t);
  }

  lemma CallsHaveHandlers(s: System, h: HandlerId)
    requires Inv(s)
    ensures h in s.consumes ==> h in s.handlers
  {
    hide Store.Valid, IssuesOk, NoncesOk, AcceptedOk, SingleUse, StagesOk, EffectsOk, HoldersOk, EventsOk, RepliesOk,
      AbandonedOk, CreatedOnce, LockOk, TimesOk, Granted, Fits;
  }

  // ----- The Authority's answer and the lock's answer reach the handler -----

  lemma ReturnKeeps(s: System, h: HandlerId, t: System)
    requires Inv(s) && At(s, h, Consuming) && InPhase(s, h, Replied(Authority.Accepted))
    requires t == Move(s, h, AfterConsumed(s.handlers[h].request)).(ticks := s.ticks + 1)
    ensures Inv(t)
  {
    hide Inv, Granted, Fits;
    StageKnown(s, h);
    CallKnown(s, h);
    MoveKeeps(s, h, t.handlers[h], t);
  }

  // ----- Every action, every run -----

  lemma CommitKeeps(s: System, h: HandlerId, append: Authority.Append, t: System)
    requires Inv(s) && h in s.consumes && s.consumes[h].phase.Checked? && s.consumes[h].token.Opens?
    requires t == AfterCommit(s, h, append).(ticks := s.ticks + 1)
    ensures Inv(t)
  {
    hide Inv, Authority.Commit, AfterCommit;
    if Authority.Commit(s.nonces, s.consumes[h].token.claims.nonce, append).1 == Authority.Accepted {
      CommitAcceptedKeeps(s, h, append, t);
    } else {
      CommitRefusedKeeps(s, h, append, t);
    }
  }

  /** Actions up to the consumption of an Approval; the others come after. */
  predicate Approving(a: Action) {
    a.SetClock? || a.Submit? || a.IssueApproval? || a.RestartAuthority? || a.StartHandler? || a.Authorize? || a.Review?
    || a.ConsumeArrives? || a.ConsumeChecked? || a.ConsumeCommits? || a.ConsumeReturns? || a.ConsumeFails?
  }

  lemma ApprovingKeeps(s: System, a: Action)
    requires Inv(s) && Enabled(s, a) && Approving(a)
    ensures Inv(Next(s, a))
  {
    hide Inv, CalendarGateway.AcceptsProposal, Policy.Authorization, Authority.ValidBinding;
    hide AfterSubmit, AfterIssue, AfterRestart, AfterAuthorize, AfterReview, AfterArrive, AfterCheck, AfterCommit,
      AfterConsumed, AfterBegin, AfterDeny, AfterEvent, AfterCreateReturns, AfterCreateFails, AfterComplete,
      AfterCancel, AfterAudit, AfterCallLock, AfterUnlock, Move, Files.IsNonce, Audit.Valid;
    var t := Next(s, a);
    match a
    case SetClock(_) => QuietKeeps(s, t);
    case Submit(context, input) => SubmitKeeps(s, context, input, t);
    case IssueApproval(binding, nonce) => IssueKeeps(s, binding, nonce, t);
    case RestartAuthority(readable) => RestartKeeps(s, readable, t);
    case StartHandler(h, context, request) =>
      StartKeeps(s, h, Handler(context, request, Audit.NO_DECISION, Authorizing), t);
    case Authorize(h, answer) => AuthorizeKeeps(s, h, answer, t);
    case Review(h) => ReviewKeeps(s, h, t);
    case ConsumeArrives(h) => ArriveKeeps(s, h, t);
    case ConsumeChecked(h) => CheckKeeps(s, h, t);
    case ConsumeCommits(h, append) => CommitKeeps(s, h, append, t);
    case ConsumeReturns(h) => ReturnKeeps(s, h, t);
    case ConsumeFails(h) => FinishKeeps(s, h, ApprovalRefused, t);
  }

  lemma EffectingKeeps(s: System, a: Action)
    requires Inv(s) && Enabled(s, a) && !Approving(a)
    ensures Inv(Next(s, a))
  {
    hide Inv, CalendarGateway.AcceptsProposal, Policy.Authorization, Authority.ValidBinding;
    hide AfterSubmit, AfterIssue, AfterRestart, AfterAuthorize, AfterReview, AfterArrive, AfterCheck, AfterCommit,
      AfterConsumed, AfterBegin, AfterDeny, AfterEvent, AfterCreateReturns, AfterCreateFails, AfterComplete,
      AfterCancel, AfterAudit, AfterCallLock, AfterUnlock, Move, Files.IsNonce, Audit.Valid;
    var t := Next(s, a);
    match a
    case Begin(h) => BeginKeeps(s, h, t);
    case DenyProposal(h) => DenyKeeps(s, h, t);
    case EventArrives(h) => EventKeeps(s, h, t);
    case CreateReturns(h) => CreateReturnsKeeps(s, h, t);
    case CreateFails(h) => CreateFailsKeeps(s, h, t);
    case Complete(h) => CompleteKeeps(s, h, t);
    case Cancel(h) => CancelKeeps(s, h, t);
    case RecordAudit(h, delivered, replied) => AuditKeeps(s, h, delivered, replied, t);
    case CallLock(h) => CallLockKeeps(s, h, t);
    case UnlockArrives(h) => UnlockKeeps(s, h, t);
    case UnlockReturns(h) => FinishKeeps(s, h, LockOpened, t);
    case UnlockFails(h) => FinishKeeps(s, h, LockFailed, t);
    case ResetLock => ResetKeeps(s, t);
    case ResetCollector => QuietKeeps(s, t);
    case Collect(_) => QuietKeeps(s, t);
  }

  lemma StepKeeps(s: System, a: Action)
    requires Inv(s) && Enabled(s, a)
    ensures Inv(Next(s, a))
  {
    hide Inv, Enabled, Next, Approving;
    if Approving(a) { ApprovingKeeps(s, a); } else { EffectingKeeps(s, a); }
  }

  lemma {:induction false} RunKeeps(s: System, actions: seq<Action>, t: System)
    requires Inv(s) && Run(s, actions, t)
    ensures Inv(t)
    decreases |actions|
  {
    hide Inv, Enabled, Next;
    if actions != [] {
      StepKeeps(s, actions[0]);
      RunKeeps(Next(s, actions[0]), actions[1..], t);
    }
  }

  lemma ReachableInv(t: System)
    requires Reachable(t)
    ensures Inv(t)
  {
    hide Inv, Run, Initial;
    var s, actions :| Initial(s) && Run(s, actions, t);
    InitialHolds(s);
    RunKeeps(s, actions, t);
  }
}
