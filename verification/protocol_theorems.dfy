/** What the invariant means: the guarantees of the exact-Approval protocol in every reachable state and over every
    run. */
module ProtocolTheorems {
  import opened Text
  import opened Protocol
  import opened ProtocolInvariant
  import opened ProtocolEffects
  import opened ProtocolCalendar
  import opened ProtocolSafety
  import opened ProtocolRuns
  import Policy
  import Audit
  import Expiry = ApprovalToken
  import Authority = ApprovalAuthority
  import Store = MeetingStore
  import Calendar = CalendarServer
  import CalendarGateway
  import Lock = SmartLockServer

  // ----- Every effect has its own exact Approval -----

  /** The binding of the operation behind an effect. */
  function EffectBinding(s: System, h: HandlerId): Authority.Binding
    requires h in s.handlers
    requires !s.handlers[h].request.Unlock? ==> s.handlers[h].request.proposalId in s.store.proposals
  {
    var context := s.handlers[h].context;
    match s.handlers[h].request
    case Unlock(device, traceId, _) => UnlockBinding(context, device, traceId)
    case _ => ExactBinding(context, Store.OperationFor(s.store.proposals[s.handlers[h].request.proposalId]))
  }

  lemma IssueKnown(s: System, nonce: string)
    requires Inv(s) && nonce in s.history.issued
    ensures IssueOk(s.settings, nonce, s.history.issued[nonce])
  {
    hide Store.Valid, NoncesOk, AcceptedOk, SingleUse, ConsumesOk, StagesOk, EffectsOk, HoldersOk, EventsOk,
      RepliesOk, AbandonedOk, CreatedOnce, LockOk, TimesOk, IssueOk;
  }

  /** What was accepted for a handler was issued for exactly the operation it is about. */
  lemma AcceptedIsIssued(s: System, h: HandlerId)
    requires Inv(s) && h in s.history.accepted
    ensures h in s.handlers && Granted(s.handlers[h])
    ensures !s.handlers[h].request.Unlock? ==> s.handlers[h].request.proposalId in s.store.proposals
    ensures var a := s.history.accepted[h];
      a.claims.nonce in s.history.issued
      && var issue := s.history.issued[a.claims.nonce];
      issue.claims == a.claims && issue.when < a.when && Expiry.Unexpired(a.checkedAt, issue.claims.expiresAt)
      && issue.binding == EffectBinding(s, h) && issue.binding.traceId != ""
        && issue.claims.traceId == issue.binding.traceId
  {
    hide Inv, Granted, Authority.SameBinding, Expiry.Unexpired, Authority.ValidToolBinding;
    CallOfAccepted(s, h);
    var a := s.history.accepted[h];
    var issue := s.history.issued[a.claims.nonce];
    IssueKnown(s, a.claims.nonce);
    Authority.ExactMatch(issue.binding, issue.issuedAt, s.settings.ttl, a.claims.nonce, s.consumes[h].binding);
  }

  lemma EffectKnown(s: System, h: HandlerId)
    requires Inv(s) && h in s.history.effects
    ensures EffectOk(s.store.proposals, s.handlers, s.creates, s.unlocks, s.history.accepted, s.history.evidence, h,
                     s.history.effects[h])
    ensures h in s.history.evidence ==> EvidenceOk(s.history.accepted, h, s.history.evidence[h])
  {
    hide Store.Valid, IssuesOk, NoncesOk, AcceptedOk, SingleUse, ConsumesOk, StagesOk, HoldersOk, EventsOk, RepliesOk,
      AbandonedOk, CreatedOnce, LockOk, TimesOk, EffectOk, EvidenceOk;
  }

  /** Every call with an effect follows the acceptance, for its own handler, of an Approval that was issued before,
      was unexpired when it was checked, and was issued for exactly this subject, actor, tool, trace and arguments;
      and the handler serves the Owner's Telegram turn with the right capability. */
  lemma EveryEffectIsApproved(s: System, h: HandlerId)
    requires Reachable(s) && h in s.history.effects
    ensures h in s.history.accepted && s.history.accepted[h].claims.nonce in s.history.issued
    ensures var a := s.history.accepted[h];
      var issue := s.history.issued[a.claims.nonce];
      issue.when < a.when < s.history.effects[h].when
      && issue.claims == a.claims && Expiry.Unexpired(a.checkedAt, issue.claims.expiresAt)
      && h in s.handlers && Granted(s.handlers[h])
      && match s.history.effects[h]
         case CreateEvent(arguments, _) =>
           s.handlers[h].request.Approve? && s.handlers[h].request.proposalId in s.store.proposals
           && var operation := Store.OperationFor(s.store.proposals[s.handlers[h].request.proposalId]);
           arguments == operation.arguments && issue.binding == ExactBinding(s.handlers[h].context, operation)
         case OpenLock(device, _) =>
           s.handlers[h].request.Unlock? && device == s.handlers[h].request.device == Lock.DEMO_DEVICE
           && issue.binding == UnlockBinding(s.handlers[h].context, device, s.handlers[h].request.traceId)
  {
    hide Inv, Reachable, Expiry.Unexpired, Store.OperationFor, ExactBinding, UnlockBinding, EvidenceOk;
    ReachableInv(s);
    EffectKnown(s, h);
    AcceptedIsIssued(s, h);
  }

  /** No Approval serves two handlers, however the requests interleave and however often the Authority restarts. */
  lemma NoncesAreDistinct(s: System, h: HandlerId, k: HandlerId)
    requires Reachable(s) && h in s.history.accepted && k in s.history.accepted && h != k
    ensures s.history.accepted[h].claims.nonce != s.history.accepted[k].claims.nonce
  {
    hide Reachable, Store.Valid, IssuesOk, NoncesOk, AcceptedOk, ConsumesOk, StagesOk, EffectsOk, HoldersOk, EventsOk,
      RepliesOk, AbandonedOk, CreatedOnce, LockOk, TimesOk;
    ReachableInv(s);
  }

  /** Distinct nonces drawn from a set are no more than the set holds. */
  lemma {:induction false} DistinctNoncesFit(handlers: set<HandlerId>, accepted: Acceptances, nonces: set<string>)
    requires handlers <= accepted.Keys && SingleUse(accepted)
    requires forall h :: h in handlers ==> accepted[h].claims.nonce in nonces
    ensures |handlers| <= |nonces|
  {
    if handlers != {} {
      var h :| h in handlers;
      var nonce := accepted[h].claims.nonce;
      DistinctNoncesFit(handlers - {h}, accepted, nonces - {nonce});
      assert |handlers - {h}| == |handlers| - 1 && |nonces - {nonce}| == |nonces| - 1;
    }
  }

  lemma {:induction false} SubsetFits(small: set<HandlerId>, large: set<HandlerId>)
    requires small <= large
    ensures |small| <= |large|
  {
    if small != {} {
      var h :| h in small;
      SubsetFits(small - {h}, large - {h});
    }
  }

  /** Calls with effects are no more than accepted Approvals, and those no more than issued ones. */
  lemma EffectsWithinApprovals(s: System)
    requires Reachable(s)
    ensures |s.history.effects.Keys| <= |s.history.accepted.Keys| <= |s.history.issued.Keys|
  {
    hide Reachable, Inv, Granted, EffectOk;
    ReachableInv(s);
    forall h | h in s.history.effects.Keys ensures h in s.history.accepted.Keys {
      EveryEffectIsApproved(s, h);
    }
    SubsetFits(s.history.effects.Keys, s.history.accepted.Keys);
    forall h | h in s.history.accepted.Keys ensures s.history.accepted[h].claims.nonce in s.history.issued.Keys {
      AcceptedIsIssued(s, h);
    }
    forall h, k | h in s.history.accepted && k in s.history.accepted && h != k
      ensures s.history.accepted[h].claims.nonce != s.history.accepted[k].claims.nonce
    {
      NoncesAreDistinct(s, h, k);
    }
    DistinctNoncesFit(s.history.accepted.Keys, s.history.accepted, s.history.issued.Keys);
  }

  // ----- Approve and deny exclude each other -----

  ghost predicate HeldBy(s: System, id: string, h: HandlerId) {
    h in s.handlers && Holding(s.handlers[h]) && s.handlers[h].request.proposalId == id
  }

  /** A proposal is approving exactly while one handler, and no other, is between begin and complete or cancel. */
  lemma ApprovingExactlyWhileHeld(s: System, id: string)
    requires Reachable(s)
    ensures id in s.store.states && s.store.states[id] == Store.Approving <==> exists h :: HeldBy(s, id, h)
    ensures forall h, k :: HeldBy(s, id, h) && HeldBy(s, id, k) ==> h == k
  {
    hide Reachable, Store.Valid, IssuesOk, NoncesOk, AcceptedOk, SingleUse, ConsumesOk, StagesOk, EffectsOk, EventsOk,
      RepliesOk, AbandonedOk, CreatedOnce, LockOk, TimesOk, Holding, Retrying;
    ReachableInv(s);
    if id in s.history.holder { assert HeldBy(s, id, s.history.holder[id]); }
  }

  /** Approved and denied are final, and a stored proposal is never altered. */
  lemma ResolutionIsFinal(s: System, actions: seq<Action>, t: System, id: string)
    requires Reachable(s) && Run(s, actions, t) && id in s.store.proposals
    ensures id in t.store.proposals && t.store.proposals[id] == s.store.proposals[id]
    ensures HasStatus(s, id, Store.Approved) ==> HasStatus(t, id, Store.Approved)
    ensures HasStatus(s, id, Store.Denied) ==> HasStatus(t, id, Store.Denied)
  {
    hide Reachable, Inv, Run, HasStatus;
    ReachableInv(s);
    OnwardRun(s, actions, t);
  }

  /** Once a proposal is denied, no handler sends the calendar a request for it. */
  lemma DeniedSendsNothing(s: System, actions: seq<Action>, t: System, id: string, h: HandlerId)
    requires Reachable(s) && Run(s, actions, t) && HasStatus(s, id, Store.Denied)
    requires h in t.history.effects && CreatesFor(t.history.effects[h], id)
    ensures h in s.history.effects && s.history.effects[h] == t.history.effects[h]
  {
    hide Reachable, Inv, Run, HasStatus, CreatesFor;
    ReachableInv(s);
    OnwardRun(s, actions, t);
  }

  /** What a handler is shown when it reviews is what it executes, whatever runs in between. */
  lemma ReviewedIsExecuted(s: System, actions: seq<Action>, t: System, h: HandlerId)
    requires Reachable(s) && Run(s, actions, t) && At(s, h, Reviewing) && s.handlers[h].request.Approve?
    requires Store.Reviewing(s.store, s.handlers[h].request.proposalId).Review?
    requires h in t.history.effects
    ensures t.history.effects[h].CreateEvent?
    ensures var reviewed := Store.Reviewing(s.store, s.handlers[h].request.proposalId);
      t.history.effects[h].arguments == reviewed.operation.arguments
  {
    hide Reachable, Inv, Run, EvidenceOk, Store.OperationFor;
    ReachableInv(s);
    RunKeeps(s, actions, t);
    OnwardRun(s, actions, t);
    EffectKnown(t, h);
  }

  // ----- Calendar events -----

  /** Every stored event is the operation of a stored proposal, under its key and named after it; and the proposal is
      approving, approved, or was cancelled with a request still under way. */
  lemma EventsAreOperations(s: System, key: string)
    requires Reachable(s) && key in s.events
    ensures var a := s.events[key].arguments;
      a.proposalId in s.store.proposals && a == Store.OperationFor(s.store.proposals[a.proposalId]).arguments
      && key == Store.IdempotencyKey(a.proposalId) && s.events[key].eventId == Calendar.EventId(a.proposalId)
      && Calendar.ValidEvent(a)
      && (HasStatus(s, a.proposalId, Store.Approving) || HasStatus(s, a.proposalId, Store.Approved)
          || a.proposalId in s.history.abandoned)
  {
    hide Reachable, Store.Valid, IssuesOk, NoncesOk, AcceptedOk, SingleUse, ConsumesOk, StagesOk, EffectsOk,
      HoldersOk, RepliesOk, AbandonedOk, CreatedOnce, LockOk, TimesOk, Store.OperationFor, TrimSpace,
      Calendar.EventId;
    ReachableInv(s);
  }

  lemma RepliesKnown(s: System, h: HandlerId)
    requires Inv(s) && h in s.creates
    ensures ReplyOk(s.store.states, s.history.holder, s.events, s.history.abandoned, h, s.creates[h])
  {
    hide Inv, ReplyOk, Store.OperationFor;
    RequestKnown(s, h);
  }

  lemma CreatedOnceKnown(s: System)
    requires Inv(s)
    ensures CreatedOnce(s.creates)
  {
    hide Store.Valid, IssuesOk, NoncesOk, AcceptedOk, SingleUse, ConsumesOk, StagesOk, EffectsOk, HoldersOk, EventsOk,
      RepliesOk, AbandonedOk, CreatedOnce, LockOk, TimesOk;
  }

  /** At most one event per proposal; the conflict answer is never given; and of all requests for one proposal, at most
      one is told that it created the event while every one that succeeds is told the same event. */
  lemma OneEventPerProposal(s: System, id: string)
    requires Reachable(s)
    ensures forall key, other ::
      (key in s.events && other in s.events
       && s.events[key].arguments.proposalId == id && s.events[other].arguments.proposalId == id) ==> key == other
    ensures forall h :: h in s.creates ==> s.creates[h].reply != Some(Calendar.Conflict)
    ensures forall h :: h in s.creates && s.creates[h].arguments.proposalId == id && HasEvent(s.creates[h].reply) ==>
      Store.IdempotencyKey(id) in s.events
      && s.creates[h].reply.value.eventId == s.events[Store.IdempotencyKey(id)].eventId
    ensures forall h, k ::
      h in s.creates && k in s.creates && h != k && WasCreated(s.creates[h]) && WasCreated(s.creates[k]) ==>
      s.creates[h].arguments.proposalId != s.creates[k].arguments.proposalId
  {
    hide Reachable, Inv, Store.OperationFor, Calendar.EventId, Calendar.ValidEvent, Store.IdempotencyKey, Live;
    ReachableInv(s);
    forall key, other | key in s.events && other in s.events
      && s.events[key].arguments.proposalId == id && s.events[other].arguments.proposalId == id ensures key == other
    {
      EventsAreOperations(s, key);
      EventsAreOperations(s, other);
    }
    forall h | h in s.creates
      ensures ReplyOk(s.store.states, s.history.holder, s.events, s.history.abandoned, h, s.creates[h])
        && s.creates[h].arguments.idempotencyKey == Store.IdempotencyKey(s.creates[h].arguments.proposalId)
    {
      RequestKnown(s, h);
    }
    CreatedOnceKnown(s);
  }

  lemma StatusHasProposal(store: Store.StoreState, id: string)
    requires Store.Valid(store) && id in store.states
    ensures id in store.proposals
  {
    hide Store.Numbered;
    assert id in store.states.Keys;
  }

  /** An approved proposal has its event. */
  lemma ApprovedHasItsEvent(s: System, id: string)
    requires Reachable(s) && HasStatus(s, id, Store.Approved)
    ensures id in s.store.proposals && Store.IdempotencyKey(id) in s.events
    ensures s.events[Store.IdempotencyKey(id)].arguments == Store.OperationFor(s.store.proposals[id]).arguments
  {
    hide Reachable, Store.Valid, IssuesOk, NoncesOk, AcceptedOk, SingleUse, ConsumesOk, StagesOk, EffectsOk,
      HoldersOk, RepliesOk, AbandonedOk, CreatedOnce, LockOk, TimesOk, Store.OperationFor, Store.IdempotencyKey;
    ReachableInv(s);
    StoreIsValid(s);
    StatusHasProposal(s.store, id);
    StoredIsTheOperation(s.store, s.store.states, s.events, s.history.abandoned, id);
  }

  /** A denied proposal with no cancelled approval behind it has no event. */
  lemma DeniedHasNoEvent(s: System, id: string, key: string)
    requires Reachable(s) && HasStatus(s, id, Store.Denied) && id !in s.history.abandoned && key in s.events
    ensures s.events[key].arguments.proposalId != id
  {
    hide Reachable;
    EventsAreOperations(s, key);
  }

  ghost predicate MayGetEvent(s: System, id: string) {
    exists actions, t :: Run(s, actions, t) && Store.IdempotencyKey(id) in t.events
  }

  lemma AbandonedKnown(s: System, id: string)
    requires Inv(s) && id in s.history.abandoned
    ensures s.history.abandoned[id] in s.creates && s.creates[s.history.abandoned[id]].arguments.proposalId == id
  {
    hide Store.Valid, IssuesOk, NoncesOk, AcceptedOk, SingleUse, ConsumesOk, StagesOk, EffectsOk, HoldersOk, EventsOk,
      RepliesOk, CreatedOnce, LockOk, TimesOk;
  }

  lemma RunOne(s: System, a: Action)
    requires Enabled(s, a)
    ensures Run(s, [a], Next(s, a))
  {
    hide Enabled, Next;
    assert Run(Next(s, a), [a][1..], Next(s, a));
  }

  /** An abandoned request for a valid event is either served already or can still be served. */
  lemma AbandonedMayBeServed(s: System, id: string)
    requires Inv(s) && id in s.history.abandoned && id in s.store.proposals
    requires Calendar.ValidEvent(Store.OperationFor(s.store.proposals[id]).arguments)
    ensures MayGetEvent(s, id)
  {
    hide Inv, Calendar.ValidEvent, Store.OperationFor, Store.IdempotencyKey, Live, Calendar.EventId;
    var h := s.history.abandoned[id];
    AbandonedKnown(s, id);
    RequestKnown(s, h);
    if s.creates[h].reply == None {
      var t := Next(s, EventArrives(h));
      assert Store.IdempotencyKey(id) in t.events;
      RunOne(s, EventArrives(h));
    } else {
      assert Store.IdempotencyKey(id) in s.events;
      assert Run(s, [], s);
    }
  }

  lemma EventNeedsAbandoned(s: System, id: string)
    requires Inv(s) && HasStatus(s, id, Store.Denied) && Store.IdempotencyKey(id) in s.events && id in s.store.proposals
    ensures id in s.history.abandoned && Calendar.ValidEvent(Store.OperationFor(s.store.proposals[id]).arguments)
  {
    hide IssuesOk, NoncesOk, AcceptedOk, SingleUse, ConsumesOk, StagesOk, EffectsOk, HoldersOk, RepliesOk,
      AbandonedOk, CreatedOnce, LockOk, TimesOk, Store.Numbered, TrimSpace;
    StoredIsTheOperation(s.store, s.store.states, s.events, s.history.abandoned, id);
  }

  /** A denied proposal can have an event, now or later, exactly when an approval of it was cancelled without the
      calendar having refused the request, and the event is one the calendar accepts. */
  lemma DeniedMayGetEventExactly(s: System, id: string)
    requires Reachable(s) && HasStatus(s, id, Store.Denied)
    ensures id in s.store.proposals
    ensures MayGetEvent(s, id) <==>
      id in s.history.abandoned && Calendar.ValidEvent(Store.OperationFor(s.store.proposals[id]).arguments)
  {
    hide Inv, Run, Store.OperationFor, Calendar.ValidEvent, Store.IdempotencyKey, Reachable;
    ReachableInv(s);
    StoreIsValid(s);
    StatusHasProposal(s.store, id);
    if MayGetEvent(s, id) {
      var actions, t :| Run(s, actions, t) && Store.IdempotencyKey(id) in t.events;
      RunKeeps(s, actions, t);
      OnwardRun(s, actions, t);
      EventNeedsAbandoned(t, id);
    } else if id in s.history.abandoned && Calendar.ValidEvent(Store.OperationFor(s.store.proposals[id]).arguments) {
      AbandonedMayBeServed(s, id);
    }
  }

  // ----- The lock -----

  /** Every call to the lock comes after collector-accepted allow evidence that carries the Approval's own trace. */
  lemma UnlockHasEvidence(s: System, h: HandlerId)
    requires Reachable(s) && h in s.history.effects && s.history.effects[h].OpenLock?
    ensures h in s.history.evidence && h in s.history.accepted
    ensures var e, a := s.history.evidence[h], s.history.accepted[h];
      a.when < e.when < s.history.effects[h].when && Audit.Valid(e.record)
      && e.record.outcome == "allow" && e.record.operation == "execute" && e.record.tool == Policy.UNLOCK_LOCK
      && a.claims.nonce in s.history.issued && e.record.traceId == s.history.issued[a.claims.nonce].binding.traceId
  {
    hide Reachable, Inv, Audit.Valid, Store.OperationFor, Expiry.Unexpired, Granted;
    ReachableInv(s);
    EffectKnown(s, h);
    AcceptedIsIssued(s, h);
  }

  lemma SubmitHasNoEvidence(s: System, context: Policy.SecurityContext, input: Store.ProposalInput)
    ensures AfterSubmit(s, context, input).history == s.history
  {
    hide Store.Submitted, CalendarGateway.Trimmed;
  }

  lemma DenyHasNoEvidence(s: System, h: HandlerId)
    requires h in s.handlers && s.handlers[h].request.Deny?
    ensures AfterDeny(s, h).history == s.history
  {
    hide Store.Denying;
  }

  lemma CompleteHasNoEvidence(s: System, h: HandlerId)
    requires h in s.handlers && s.handlers[h].request.Approve? && h in s.creates && HasEvent(s.creates[h].reply)
    ensures AfterComplete(s, h).history.evidence == s.history.evidence
  {
    hide Store.Leaving, HasEvent;
  }

  lemma CancelHasNoEvidence(s: System, h: HandlerId)
    requires h in s.handlers && s.handlers[h].request.Approve? && h in s.creates
    ensures AfterCancel(s, h).history.evidence == s.history.evidence
  {
    hide Store.Leaving;
  }

  lemma ResolvingHasNoEvidence(s: System, a: Action)
    requires Enabled(s, a) && Resolving(a)
    ensures Outcome(s, a).history.evidence == s.history.evidence
  {
    hide Policy.Authorization, AfterSubmit, AfterBegin, AfterDeny, AfterComplete, AfterCancel, SameRequests,
      CalendarGateway.AcceptsProposal, HasEvent;
    match a
    case Submit(context, input) => SubmitHasNoEvidence(s, context, input);
    case Begin(h) => BeginMeans(s, h);
    case DenyProposal(h) => DenyHasNoEvidence(s, h);
    case Complete(h) => CompleteHasNoEvidence(s, h);
    case Cancel(h) => CancelHasNoEvidence(s, h);
    case CallLock(_) =>
  }

  lemma CommitHasNoEvidence(s: System, h: HandlerId, append: Authority.Append)
    requires h in s.consumes && s.consumes[h].phase.Checked? && s.consumes[h].token.Opens?
    ensures AfterCommit(s, h, append).history.evidence == s.history.evidence
  {
    hide Authority.Commit;
  }

  lemma CheckHasNoEvidence(s: System, h: HandlerId)
    requires h in s.consumes
    ensures AfterArrive(s, h).history == s.history && AfterCheck(s, h).history == s.history
  {
    hide Genuine, Authority.Matches;
  }

  lemma RestartHasNoEvidence(s: System, readable: bool)
    ensures AfterRestart(s, readable).history == s.history
  {
    hide Authority.Restart;
  }

  predicate AtAuthority(a: Action) {
    a.RestartAuthority? || a.ConsumeArrives? || a.ConsumeChecked? || a.ConsumeCommits?
  }

  lemma AuthorityHasNoEvidence(s: System, a: Action)
    requires Enabled(s, a) && AtAuthority(a)
    ensures Outcome(s, a).history.evidence == s.history.evidence
  {
    hide AfterCommit, AfterArrive, AfterCheck, AfterRestart;
    match a
    case ConsumeCommits(h, append) => CommitHasNoEvidence(s, h, append);
    case ConsumeArrives(h) => CheckHasNoEvidence(s, h);
    case ConsumeChecked(h) => CheckHasNoEvidence(s, h);
    case RestartAuthority(readable) => RestartHasNoEvidence(s, readable);
  }

  lemma ServersHaveNoEvidence(s: System, a: Action)
    requires Enabled(s, a) && Remote(a) && !AtAuthority(a)
    ensures Outcome(s, a).history.evidence == s.history.evidence
  {
    hide Authority.ClaimsFor, Calendar.Creating, Lock.Unlocking, Authority.ValidBinding, Audit.Valid;
  }

  lemma RemoteHasNoEvidence(s: System, a: Action)
    requires Enabled(s, a) && Remote(a)
    ensures Outcome(s, a).history.evidence == s.history.evidence
  {
    hide Enabled, Outcome, Remote, AtAuthority;
    if AtAuthority(a) { AuthorityHasNoEvidence(s, a); } else { ServersHaveNoEvidence(s, a); }
  }

  lemma AuthorizeHasNoEvidence(s: System, h: HandlerId, answer: Option<Answer>)
    requires h in s.handlers
    ensures AfterAuthorize(s, h, answer).history == s.history
  {
    hide PolicyGrant, Decided, UnlockBinding;
  }

  lemma ReviewHasNoEvidence(s: System, h: HandlerId)
    requires h in s.handlers && !s.handlers[h].request.Unlock?
    ensures AfterReview(s, h).history == s.history
  {
    hide Store.Reviewing, ExactBinding;
  }

  lemma LocalHasNoEvidence(s: System, a: Action)
    requires Enabled(s, a) && !Resolving(a) && !Remote(a) && !a.RecordAudit?
    ensures Outcome(s, a).history.evidence == s.history.evidence
  {
    hide AfterAuthorize, AfterReview, GoodAnswer, AfterConsumed;
    match a
    case Authorize(h, answer) => AuthorizeHasNoEvidence(s, h, answer);
    case Review(h) => ReviewHasNoEvidence(s, h);
    case _ =>
  }

  lemma AuditCollects(s: System, a: Action, h: HandlerId)
    requires Enabled(s, a) && a.RecordAudit? && h !in s.history.evidence && h in Next(s, a).history.evidence
    ensures Next(s, a).collector == s.collector + [Next(s, a).history.evidence[h].record]
  {
    hide Audit.Valid, UnlockRecord;
  }

  /** Evidence is what the collector has just stored. */
  lemma EvidenceIsCollected(s: System, a: Action, h: HandlerId)
    requires Enabled(s, a) && h !in s.history.evidence && h in Next(s, a).history.evidence
    ensures Next(s, a).collector == s.collector + [Next(s, a).history.evidence[h].record]
  {
    hide Enabled, Outcome, Audit.Valid, UnlockRecord;
    if Resolving(a) {
      ResolvingHasNoEvidence(s, a);
    } else if Remote(a) {
      RemoteHasNoEvidence(s, a);
    } else if !a.RecordAudit? {
      LocalHasNoEvidence(s, a);
    } else {
      AuditCollects(s, a, h);
    }
  }

  /** The lock's counter shows its state, and it opens at most once between resets. */
  lemma LockOpensOncePerReset(s: System)
    requires Reachable(s)
    ensures s.lock.unlockCount == if s.lock.unlocked then 1 else 0
    ensures s.history.openings <= s.history.resets + 1
  {
    hide Reachable, Store.Valid, IssuesOk, NoncesOk, AcceptedOk, SingleUse, ConsumesOk, StagesOk, EffectsOk,
      HoldersOk, EventsOk, RepliesOk, AbandonedOk, CreatedOnce, TimesOk;
    ReachableInv(s);
  }
}
