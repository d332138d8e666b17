/** The inductive invariant of the protocol, one predicate a concern, each over just the parts of the state it
    reads; and how each part may change without disturbing it. */
module ProtocolInvariant {
  import opened Text
  import opened Protocol
  import Policy
  import Audit
  import Files = NonceFile
  import Expiry = ApprovalToken
  import Authority = ApprovalAuthority
  import Store = MeetingStore
  import Calendar = CalendarServer
  import Lock = SmartLockServer

  type Proposals = map<string, Store.Proposal>
  type States = map<string, Store.Status>
  type Handlers = map<HandlerId, Handler>
  type Consumes = map<HandlerId, ConsumeCall>
  type Creates = map<HandlerId, CreateCall>
  type Unlocks = map<HandlerId, UnlockCall>
  type Issued = map<string, Issue>
  type Acceptances = map<HandlerId, Acceptance>
  type Effects = map<HandlerId, Effect>
  type Evidences = map<HandlerId, Evidence>
  type Holders = map<string, HandlerId>

  // ----- Issued Approvals -----

  predicate IssueOk(settings: Settings, nonce: string, issue: Issue) {
    Files.IsNonce(nonce) && Authority.ValidBinding(settings.keyLength, settings.owner, issue.binding)
    && issue.claims == Authority.ClaimsFor(issue.binding, issue.issuedAt, settings.ttl, nonce)
  }

  predicate IssuesOk(settings: Settings, issued: Issued) {
    forall n :: n in issued ==> IssueOk(settings, n, issued[n])
  }

  predicate IsIssued(issued: Issued, token: Token) {
    token.Opens? && token.claims.nonce in issued && issued[token.claims.nonce].claims == token.claims
  }

  predicate IssuedGrows(issued: Issued, more: Issued) {
    forall n :: n in issued ==> n in more && more[n] == issued[n]
  }

  // ----- Accepted Approvals -----

  predicate NoncesOk(nonces: Authority.NonceState, accepted: Acceptances) {
    Authority.StateValid(nonces)
    && forall h :: h in accepted ==> accepted[h].claims.nonce in Authority.OnFile(nonces)
  }

  predicate AcceptanceOk(consumes: Consumes, issued: Issued, h: HandlerId, a: Acceptance) {
    h in consumes && consumes[h].token == Opens(a.claims) && IsIssued(issued, Opens(a.claims))
    && Authority.SameBinding(a.claims, consumes[h].binding) && Expiry.Unexpired(a.checkedAt, a.claims.expiresAt)
    && issued[a.claims.nonce].when < a.when
  }

  predicate AcceptedOk(consumes: Consumes, issued: Issued, accepted: Acceptances) {
    forall h :: h in accepted ==> AcceptanceOk(consumes, issued, h, accepted[h])
  }

  /** No two handlers have had the same nonce accepted. */
  predicate SingleUse(accepted: Acceptances) {
    forall h, k :: h in accepted && k in accepted && h != k ==> accepted[h].claims.nonce != accepted[k].claims.nonce
  }

  lemma AcceptedKept(consumes: Consumes, issued: Issued, accepted: Acceptances, consumes': Consumes, issued': Issued)
    requires AcceptedOk(consumes, issued, accepted) && IssuedGrows(issued, issued')
    requires forall h :: h in accepted && h in consumes ==>
      h in consumes' && consumes'[h].token == consumes[h].token && consumes'[h].binding == consumes[h].binding
    ensures AcceptedOk(consumes', issued', accepted)
  {
    hide Authority.SameBinding, Expiry.Unexpired;
  }

  // ----- Calls to the Authority -----

  /** What the policy has established about a handler that got past it. */
  predicate Granted(handler: Handler) {
    handler.context.subject == Policy.OWNER && handler.context.actor == Policy.TELEGRAM_AGENT
    && handler.context.channel == Policy.TELEGRAM
    && match handler.request
       case Unlock(device, _, _) =>
         "smart_lock.write" in handler.context.capabilities && device == Lock.DEMO_DEVICE
       case _ => "calendar.meeting.approve" in handler.context.capabilities
  }

  /** The binding a handler presents is that of the operation it is about. */
  predicate Fits(proposals: Proposals, handler: Handler, binding: Authority.Binding) {
    match handler.request
    case Unlock(device, traceId, _) => binding == UnlockBinding(handler.context, device, traceId)
    case _ =>
      handler.request.proposalId in proposals
      && binding == ExactBinding(handler.context, Store.OperationFor(proposals[handler.request.proposalId]))
  }

  predicate ConsumeOk(proposals: Proposals, handlers: Handlers, issued: Issued, accepted: Acceptances, h: HandlerId,
                      call: ConsumeCall) {
    h in handlers && call.token == handlers[h].request.token && Granted(handlers[h])
    && Fits(proposals, handlers[h], call.binding)
    && (call.phase == Replied(Authority.Accepted) <==> h in accepted)
    && (call.phase.Checked? ==>
      IsIssued(issued, call.token) && Authority.SameBinding(call.token.claims, call.binding)
      && Expiry.Unexpired(call.phase.at, call.token.claims.expiresAt))
  }

  predicate ConsumesOk(proposals: Proposals, handlers: Handlers, consumes: Consumes, issued: Issued,
                       accepted: Acceptances) {
    forall h :: h in consumes ==> ConsumeOk(proposals, handlers, issued, accepted, h, consumes[h])
  }

  predicate ProposalsGrow(proposals: Proposals, more: Proposals) {
    forall id :: id in proposals ==> id in more && more[id] == proposals[id]
  }

  /** Handlers keep what they were asked; only stages and decisions change. */
  predicate SameRequests(handlers: Handlers, later: Handlers) {
    forall h :: h in handlers ==>
      h in later && later[h].context == handlers[h].context && later[h].request == handlers[h].request
  }

  lemma ConsumesGrow(proposals: Proposals, handlers: Handlers, consumes: Consumes, issued: Issued,
                     accepted: Acceptances, proposals': Proposals, handlers': Handlers, issued': Issued)
    requires ConsumesOk(proposals, handlers, consumes, issued, accepted)
    requires ProposalsGrow(proposals, proposals') && SameRequests(handlers, handlers') && IssuedGrows(issued, issued')
    ensures ConsumesOk(proposals', handlers', consumes, issued', accepted)
  {
    hide Authority.SameBinding, Expiry.Unexpired, Store.OperationFor, ExactBinding, UnlockBinding;
  }

  // ----- Stages -----

  predicate StageOk(handler: Handler, h: HandlerId, consumes: Consumes, creates: Creates, unlocks: Unlocks,
                    accepted: Acceptances, effects: Effects, evidence: Evidences) {
    match handler.stage
    case Authorizing => h !in consumes
    case Reviewing => h !in consumes && !handler.request.Unlock? && Granted(handler)
    case Consuming => h in consumes && h !in effects && h !in evidence
    case Beginning => h in accepted && handler.request.Approve? && h !in effects
    case Denying => h in accepted && handler.request.Deny?
    case Creating(_) => h in accepted && handler.request.Approve? && h in creates
    case Completing => h in accepted && handler.request.Approve? && h in creates && HasEvent(creates[h].reply)
    case Cancelling => h in accepted && handler.request.Approve? && h in creates
    case Auditing => h in accepted && handler.request.Unlock? && h !in effects && h !in evidence
    case Opening => h in accepted && handler.request.Unlock? && h !in effects && h in evidence
    case Unlocking => h in accepted && handler.request.Unlock? && h in unlocks
    case Finished(_) => true
  }

  predicate StagesOk(handlers: Handlers, consumes: Consumes, creates: Creates, unlocks: Unlocks, accepted: Acceptances,
                     effects: Effects, evidence: Evidences) {
    forall h :: h in handlers ==> StageOk(handlers[h], h, consumes, creates, unlocks, accepted, effects, evidence)
  }

  /** Handlers other than h see no difference. */
  ghost predicate Apart<T>(h: HandlerId, m: map<HandlerId, T>, m': map<HandlerId, T>) {
    forall k :: k != h ==> (k in m <==> k in m')
  }

  predicate RepliesKept(h: HandlerId, creates: Creates, creates': Creates) {
    forall k :: k in creates && k != h && HasEvent(creates[k].reply) ==> k in creates' && HasEvent(creates'[k].reply)
  }

  lemma StagesStep(h: HandlerId, handlers: Handlers, consumes: Consumes, creates: Creates, unlocks: Unlocks,
                   accepted: Acceptances, effects: Effects, evidence: Evidences, handlers': Handlers,
                   consumes': Consumes, creates': Creates, unlocks': Unlocks, accepted': Acceptances,
                   effects': Effects, evidence': Evidences)
    requires StagesOk(handlers, consumes, creates, unlocks, accepted, effects, evidence)
    requires forall k :: k in handlers' && k != h ==> k in handlers && handlers'[k] == handlers[k]
    requires Apart(h, consumes, consumes') && Apart(h, creates, creates') && Apart(h, unlocks, unlocks')
    requires Apart(h, accepted, accepted') && Apart(h, effects, effects') && Apart(h, evidence, evidence')
    requires RepliesKept(h, creates, creates')
    requires h in handlers' ==> StageOk(handlers'[h], h, consumes', creates', unlocks', accepted', effects', evidence')
    ensures StagesOk(handlers', consumes', creates', unlocks', accepted', effects', evidence')
  {
    hide Granted;
    forall k | k in handlers'
      ensures StageOk(handlers'[k], k, consumes', creates', unlocks', accepted', effects', evidence')
    {
      if k != h {
        assert StageOk(handlers[k], k, consumes, creates, unlocks, accepted, effects, evidence);
      }
    }
  }

  /** Membership as the handlers see it is unchanged, except that more may have been accepted. */
  predicate SameView(handlers: Handlers, consumes: Consumes, creates: Creates, unlocks: Unlocks, accepted: Acceptances,
                     consumes': Consumes, creates': Creates, unlocks': Unlocks, accepted': Acceptances) {
    consumes.Keys == consumes'.Keys && creates.Keys == creates'.Keys && unlocks.Keys == unlocks'.Keys
    && accepted.Keys <= accepted'.Keys
    && forall k :: k in handlers && k in creates && HasEvent(creates[k].reply) ==> HasEvent(creates'[k].reply)
  }

  lemma StagesSame(handlers: Handlers, consumes: Consumes, creates: Creates, unlocks: Unlocks, accepted: Acceptances,
                   effects: Effects, evidence: Evidences, consumes': Consumes, creates': Creates, unlocks': Unlocks,
                   accepted': Acceptances)
    requires StagesOk(handlers, consumes, creates, unlocks, accepted, effects, evidence)
    requires SameView(handlers, consumes, creates, unlocks, accepted, consumes', creates', unlocks', accepted')
    ensures StagesOk(handlers, consumes', creates', unlocks', accepted', effects, evidence)
  {
    hide Granted, HasEvent;
    forall k | k in handlers
      ensures StageOk(handlers[k], k, consumes', creates', unlocks', accepted', effects, evidence)
    {
      assert StageOk(handlers[k], k, consumes, creates, unlocks, accepted, effects, evidence);
      assert k in consumes <==> k in consumes.Keys;
      assert k in consumes' <==> k in consumes'.Keys;
      assert k in creates <==> k in creates.Keys;
      assert k in creates' <==> k in creates'.Keys;
      assert k in unlocks <==> k in unlocks.Keys;
      assert k in unlocks' <==> k in unlocks'.Keys;
      assert k in accepted <==> k in accepted.Keys;
    }
  }

  // ----- Effects -----

  predicate EffectOk(proposals: Proposals, handlers: Handlers, creates: Creates, unlocks: Unlocks,
                     accepted: Acceptances, evidence: Evidences, h: HandlerId, effect: Effect) {
    h in accepted && accepted[h].when < effect.when && h in handlers
    && match effect
       case CreateEvent(arguments, _) =>
         handlers[h].request.Approve? && handlers[h].request.proposalId in proposals
         && arguments == Store.OperationFor(proposals[handlers[h].request.proposalId]).arguments
         && h in creates && creates[h].arguments == arguments
       case OpenLock(device, _) =>
         handlers[h].request.Unlock? && device == handlers[h].request.device
         && h in unlocks && unlocks[h].device == device
         && h in evidence && evidence[h].when < effect.when
  }

  predicate EvidenceOk(accepted: Acceptances, h: HandlerId, e: Evidence) {
    h in accepted && accepted[h].when < e.when
    && Audit.Valid(e.record) && e.record.outcome == "allow" && e.record.operation == "execute"
    && e.record.tool == Policy.UNLOCK_LOCK
    && (accepted[h].claims.traceId != "" ==> e.record.traceId == accepted[h].claims.traceId)
  }

  predicate EffectsOk(proposals: Proposals, handlers: Handlers, creates: Creates, unlocks: Unlocks,
                      accepted: Acceptances, effects: Effects, evidence: Evidences) {
    (forall h :: h in effects ==> EffectOk(proposals, handlers, creates, unlocks, accepted, evidence, h, effects[h]))
    && (forall h :: h in evidence ==> EvidenceOk(accepted, h, evidence[h]))
    && (forall h :: h in creates ==> h in effects && effects[h].CreateEvent?)
    && (forall h :: h in unlocks ==> h in effects && effects[h].OpenLock?)
  }

  predicate AcceptedGrows(accepted: Acceptances, more: Acceptances) {
    forall h :: h in accepted ==> h in more && more[h] == accepted[h]
  }

  lemma EffectsGrow(proposals: Proposals, handlers: Handlers, creates: Creates, unlocks: Unlocks,
                    accepted: Acceptances, effects: Effects, evidence: Evidences, proposals': Proposals,
                    handlers': Handlers, accepted': Acceptances)
    requires EffectsOk(proposals, handlers, creates, unlocks, accepted, effects, evidence)
    requires ProposalsGrow(proposals, proposals') && SameRequests(handlers, handlers')
      && AcceptedGrows(accepted, accepted')
    ensures EffectsOk(proposals', handlers', creates, unlocks, accepted', effects, evidence)
  {
    hide Store.OperationFor, Audit.Valid;
  }

  // ----- Who holds an approving proposal -----

  /** The handler is between a begin that was not a retry and the matching complete or cancel. */
  predicate Holding(handler: Handler) {
    handler.request.Approve? && handler.stage in {Creating(false), Completing, Cancelling}
  }

  predicate Retrying(handler: Handler) {
    handler.request.Approve? && handler.stage == Creating(true)
  }

  predicate HoldersOk(states: States, handlers: Handlers, holder: Holders) {
    (forall id :: id in holder ==>
      id in states && states[id] == Store.Approving
      && holder[id] in handlers && Holding(handlers[holder[id]]) && handlers[holder[id]].request.proposalId == id)
    && (forall id :: id in states && states[id] == Store.Approving ==> id in holder)
    && (forall h :: h in handlers && Holding(handlers[h]) ==>
      handlers[h].request.proposalId in holder && holder[handlers[h].request.proposalId] == h)
    && (forall h :: h in handlers && Retrying(handlers[h]) ==>
      handlers[h].request.proposalId in states && states[handlers[h].request.proposalId] == Store.Approved)
  }

  /** Nobody starts or stops holding or retrying, and no status changes to or from approving or from approved. */
  predicate HoldingKept(states: States, handlers: Handlers, states': States, handlers': Handlers) {
    (forall h :: h in handlers && Holding(handlers[h]) ==>
      h in handlers' && Holding(handlers'[h]) && handlers'[h].request == handlers[h].request)
    && (forall h :: h in handlers' && Holding(handlers'[h]) ==>
      h in handlers && Holding(handlers[h]) && handlers'[h].request == handlers[h].request)
    && (forall h :: h in handlers' && Retrying(handlers'[h]) ==>
      h in handlers && Retrying(handlers[h]) && handlers'[h].request == handlers[h].request)
    && (forall id :: id in states && states[id] in {Store.Approving, Store.Approved} ==>
      id in states' && states'[id] == states[id])
    && (forall id :: id in states' && states'[id] == Store.Approving ==> id in states && states[id] == Store.Approving)
  }

  lemma HoldersKept(states: States, handlers: Handlers, holder: Holders, states': States, handlers': Handlers)
    requires HoldersOk(states, handlers, holder) && HoldingKept(states, handlers, states', handlers')
    ensures HoldersOk(states', handlers', holder)
  {
    hide Holding, Retrying;
  }

  // ----- Calendar events -----

  /** An event request for the proposal may have succeeded or may still succeed. */
  predicate Committed(states: States, abandoned: Holders, id: string) {
    (id in states && states[id] in {Store.Approving, Store.Approved}) || id in abandoned
  }

  predicate EventsOk(proposals: Proposals, states: States, events: Calendar.Events, abandoned: Holders) {
    Calendar.Filed(events)
    && (forall key :: key in events ==>
      events[key].arguments.proposalId in proposals
      && events[key].arguments == Store.OperationFor(proposals[events[key].arguments.proposalId]).arguments
      && Committed(states, abandoned, events[key].arguments.proposalId))
    && (forall id :: id in states && states[id] == Store.Approved ==> Store.IdempotencyKey(id) in events)
  }

  /** A request the calendar has not refused is still wanted: its proposal is approved, its handler holds the
      proposal, or the approval was abandoned. */
  predicate Live(states: States, holder: Holders, abandoned: Holders, h: HandlerId, id: string) {
    (id in states && states[id] == Store.Approved) || (id in holder && holder[id] == h) || id in abandoned
  }

  predicate ReplyOk(states: States, holder: Holders, events: Calendar.Events, abandoned: Holders, h: HandlerId,
                    call: CreateCall) {
    (HasEvent(call.reply) ==>
      call.arguments.idempotencyKey in events
      && call.reply.value.eventId == events[call.arguments.idempotencyKey].eventId)
    && call.reply != Some(Calendar.Conflict)
    && (call.reply == Some(Calendar.Invalid) ==> !Calendar.ValidEvent(call.arguments))
    && (call.reply != Some(Calendar.Invalid) ==> Live(states, holder, abandoned, h, call.arguments.proposalId))
  }

  predicate WasCreated(call: CreateCall) {
    call.reply.Some? && call.reply.value.Created?
  }

  predicate RepliesOk(states: States, holder: Holders, events: Calendar.Events, abandoned: Holders, creates: Creates) {
    forall h :: h in creates ==> ReplyOk(states, holder, events, abandoned, h, creates[h])
  }

  predicate AbandonedOk(abandoned: Holders, creates: Creates) {
    forall id :: id in abandoned ==> abandoned[id] in creates && creates[abandoned[id]].arguments.proposalId == id
  }

  /** Of the requests for one event at most one was answered as creating it. */
  predicate CreatedOnce(creates: Creates) {
    forall h, k :: h in creates && k in creates && h != k && WasCreated(creates[h]) && WasCreated(creates[k]) ==>
      creates[h].arguments.idempotencyKey != creates[k].arguments.idempotencyKey
  }

  /** Statuses move on only where stored events allow it. */
  predicate CommitmentKept(states: States, states': States) {
    (forall id :: id in states && states[id] in {Store.Approving, Store.Approved} ==>
      id in states' && states'[id] in {Store.Approving, Store.Approved})
    && (forall id :: id in states' && states'[id] == Store.Approved ==> id in states && states[id] == Store.Approved)
    && (forall id :: id in states && states[id] == Store.Approved ==> id in states' && states'[id] == Store.Approved)
  }

  lemma EventsKept(proposals: Proposals, states: States, events: Calendar.Events, abandoned: Holders,
                   proposals': Proposals, states': States)
    requires EventsOk(proposals, states, events, abandoned) && ProposalsGrow(proposals, proposals')
    requires CommitmentKept(states, states')
    ensures EventsOk(proposals', states', events, abandoned)
  {
    hide Store.OperationFor, Calendar.Filed;
  }

  lemma RepliesKeptBy(states: States, holder: Holders, events: Calendar.Events, abandoned: Holders, creates: Creates,
                      states': States)
    requires RepliesOk(states, holder, events, abandoned, creates) && CommitmentKept(states, states')
    ensures RepliesOk(states', holder, events, abandoned, creates)
  {
    hide Calendar.ValidEvent, HasEvent;
  }

  // ----- The lock -----

  predicate LockOk(lock: Lock.LockState, openings: nat, resets: nat) {
    Lock.Valid(lock) && openings <= resets + if lock.unlocked then 1 else 0
  }

  // ----- Order of events -----

  predicate TimesOk(issued: Issued, accepted: Acceptances, effects: Effects, evidence: Evidences, ticks: nat) {
    (forall n :: n in issued ==> issued[n].when < ticks) && (forall h :: h in accepted ==> accepted[h].when < ticks)
    && (forall h :: h in effects ==> effects[h].when < ticks)
    && (forall h :: h in evidence ==> evidence[h].when < ticks)
  }

  // ----- All of it -----

  predicate Inv(s: System) {
    var y := s.history;
    Store.Valid(s.store) && IssuesOk(s.settings, y.issued) && NoncesOk(s.nonces, y.accepted)
    && AcceptedOk(s.consumes, y.issued, y.accepted) && SingleUse(y.accepted)
    && ConsumesOk(s.store.proposals, s.handlers, s.consumes, y.issued, y.accepted)
    && StagesOk(s.handlers, s.consumes, s.creates, s.unlocks, y.accepted, y.effects, y.evidence)
    && EffectsOk(s.store.proposals, s.handlers, s.creates, s.unlocks, y.accepted, y.effects, y.evidence)
    && HoldersOk(s.store.states, s.handlers, y.holder)
    && EventsOk(s.store.proposals, s.store.states, s.events, y.abandoned)
    && RepliesOk(s.store.states, y.holder, s.events, y.abandoned, s.creates) && AbandonedOk(y.abandoned, s.creates)
    && CreatedOnce(s.creates)
    && LockOk(s.lock, y.openings, y.resets)
    && TimesOk(y.issued, y.accepted, y.effects, y.evidence, s.ticks)
  }

  lemma EmptyHolds(settings: Settings)
    ensures Store.Valid(Store.EMPTY) && IssuesOk(settings, map[]) && AcceptedOk(map[], map[], map[]) && SingleUse(map[])
    ensures ConsumesOk(map[], map[], map[], map[], map[]) && StagesOk(map[], map[], map[], map[], map[], map[], map[])
    ensures EffectsOk(map[], map[], map[], map[], map[], map[], map[]) && HoldersOk(map[], map[], map[])
    ensures EventsOk(map[], map[], map[], map[]) && RepliesOk(map[], map[], map[], map[], map[])
      && AbandonedOk(map[], map[])
    ensures CreatedOnce(map[]) && LockOk(Lock.LOCKED, 0, 0) && TimesOk(map[], map[], map[], map[], 0)
  {
    hide Store.Numbered, IssueOk, AcceptanceOk, ConsumeOk, StageOk, EffectOk, EvidenceOk, Holding, Retrying,
      Committed, ReplyOk, WasCreated, Calendar.ValidEvent, Calendar.EventId;
  }

  lemma InitialNonces(nonces: Authority.NonceState)
    requires Files.Complete(nonces.text)
    requires nonces == Authority.Restart(nonces.text, true) || nonces == Authority.Restart(nonces.text, false)
    ensures NoncesOk(nonces, map[])
  {
    hide Authority.StateValid, Authority.Restart, Authority.OnFile;
    Authority.RestartKeepsValid(nonces.text, true);
    Authority.RestartKeepsValid(nonces.text, false);
  }

  lemma InitialHolds(s: System)
    requires Initial(s)
    ensures Inv(s)
  {
    hide Store.Valid, IssuesOk, NoncesOk, AcceptedOk, SingleUse, ConsumesOk, StagesOk, EffectsOk, HoldersOk, EventsOk,
      RepliesOk, AbandonedOk, CreatedOnce, LockOk, TimesOk, Authority.Restart, Files.Complete;
    EmptyHolds(s.settings);
    InitialNonces(s.nonces);
  }
}
