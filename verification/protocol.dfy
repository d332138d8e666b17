/** The exact-Approval protocol as a transition system: gateway handlers for approve, deny and unlock
    (internal/gateway/gateway.go), the proposal store, the Approval Authority, the calendar, the lock and the audit
    collector. Every critical section is one action; any number of handlers and requests interleave. A remote call is
    an entity of its own, so a handler may give up on a call that the other side still serves. */
module Protocol {
  import opened Text
  import opened CanonicalJson
  import Policy
  import Audit
  import Files = NonceFile
  import Authority = ApprovalAuthority
  import Store = MeetingStore
  import Calendar = CalendarServer
  import CalendarGateway
  import Lock = SmartLockServer

  type HandlerId = nat

  /** A token either opens to claims or does not; whether claims were really issued is checked against history. */
  datatype Token = Unopenable | Opens(claims: Authority.Claims)

  datatype Request =
    | Approve(proposalId: string, token: Token)
    | Deny(proposalId: string, token: Token)
    | Unlock(device: string, traceId: string, token: Token)

  /** Where a handler stands between two of its steps. */
  datatype Stage =
    | Authorizing
    | Reviewing
    | Consuming
    | Beginning
    | Denying
    | Creating(retry: bool)
    | Completing
    | Cancelling
    | Auditing
    | Opening
    | Unlocking
    | Finished(result: Result)

  datatype Result =
    | PolicyRefused | StoreRefused(error: Store.StoreError) | ApprovalRefused
    | CalendarFailed | AuditFailed | LockFailed
    | EventReturned(eventId: string) | ProposalDenied | LockOpened

  datatype Handler = Handler(context: Policy.SecurityContext, request: Request, decision: Audit.Decision, stage: Stage)

  /** A consume call at the Authority: sent, past the availability check, past the checks of the claims, answered, or
      lost in a restart. */
  datatype ConsumePhase = Sent | Admitted | Checked(at: int) | Replied(verdict: Authority.Verdict) | Dropped

  datatype ConsumeCall = ConsumeCall(token: Token, binding: Authority.Binding, phase: ConsumePhase)

  datatype CreateCall = CreateCall(arguments: Store.EventArguments, reply: Option<Calendar.Reply>)

  datatype UnlockCall = UnlockCall(device: string, answer: Option<Lock.Answer>)

  // What has happened, for stating properties; `when` is the number of the action.

  datatype Issue = Issue(binding: Authority.Binding, claims: Authority.Claims, issuedAt: int, when: nat)

  datatype Acceptance = Acceptance(claims: Authority.Claims, checkedAt: int, acceptedAt: int, when: nat)

  datatype Effect =
    | CreateEvent(arguments: Store.EventArguments, when: nat)
    | OpenLock(device: string, when: nat)

  datatype Evidence = Evidence(record: Audit.AuditRecord, when: nat)

  datatype History = History(
    issued: map<string, Issue>,
    accepted: map<HandlerId, Acceptance>,
    effects: map<HandlerId, Effect>,
    evidence: map<HandlerId, Evidence>,
    holder: map<string, HandlerId>,       // the handler between begin and complete or cancel
    abandoned: map<string, HandlerId>,    // a cancelled approval whose event request was not refused
    openings: nat, resets: nat)

  datatype Settings = Settings(keyLength: nat, owner: string, ttl: int)

  datatype System = System(
    settings: Settings, clock: int, ticks: nat,
    store: Store.StoreState, nonces: Authority.NonceState, events: Calendar.Events, lock: Lock.LockState,
    collector: seq<Audit.AuditRecord>,
    handlers: map<HandlerId, Handler>,
    consumes: map<HandlerId, ConsumeCall>,
    creates: map<HandlerId, CreateCall>,
    unlocks: map<HandlerId, UnlockCall>,
    history: History)

  const NO_HISTORY := History(map[], map[], map[], map[], map[], map[], 0, 0)

  /** A fresh gateway, calendar and lock, and an Authority started on any file of finished lines. */
  predicate Initial(s: System) {
    s.ticks == 0 && s.store == Store.EMPTY && s.events == map[] && s.lock == Lock.LOCKED && s.collector == []
    && s.handlers == map[] && s.consumes == map[] && s.creates == map[] && s.unlocks == map[] && s.history == NO_HISTORY
    && Files.Complete(s.nonces.text)
    && (s.nonces == Authority.Restart(s.nonces.text, true) || s.nonces == Authority.Restart(s.nonces.text, false))
  }

  // ----- What handlers send -----

  function ToolOf(request: Request): string {
    match request
    case Approve(_, _) => Policy.APPROVE_PROPOSAL
    case Deny(_, _) => Policy.DENY_PROPOSAL
    case Unlock(_, _, _) => Policy.UNLOCK_LOCK
  }

  function ArgumentsOf(request: Request): Json {
    match request
    case Approve(id, _) => Policy.ReferenceArguments(id)
    case Deny(id, _) => Policy.ReferenceArguments(id)
    case Unlock(device, _, _) => Authority.DeviceArguments(device)
  }

  function ExactBinding(context: Policy.SecurityContext, operation: Store.Operation): Authority.Binding {
    Authority.Binding(context.subject, context.actor, operation.tool, Store.ArgumentsJson(operation.arguments),
                      operation.traceId)
  }

  function UnlockBinding(context: Policy.SecurityContext, device: string, traceId: string): Authority.Binding {
    Authority.Binding(context.subject, context.actor, Authority.UNLOCK, Authority.DeviceArguments(device), traceId)
  }

  function PolicyGrant(handler: Handler, now: int): Policy.Grant {
    Policy.Authorization(Policy.ExecuteInput(handler.context, ToolOf(handler.request), ArgumentsOf(handler.request)),
                         now)
  }

  /** The identifiers a policy answer carries; the client refuses answers without them. */
  datatype Answer = Answer(correlationId: string, decisionId: string, policyRevision: string)

  predicate GoodAnswer(answer: Answer) {
    answer.correlationId != "" && answer.decisionId != "" && answer.policyRevision != ""
  }

  function Decided(grant: Policy.Grant, answer: Answer): Audit.Decision {
    Audit.Decision(grant.allow, answer.correlationId, answer.decisionId, grant.obligations, answer.policyRevision,
                   grant.reason)
  }

  /** The record written before the lock is opened. */
  function UnlockRecord(handler: Handler, traceId: string): Audit.AuditRecord {
    Audit.DetailedRecord(handler.context, "execute", Policy.UNLOCK_LOCK, handler.decision, traceId, "allow",
                         handler.decision.reason, map[], 0)
  }

  function SubmitInput(context: Policy.SecurityContext, input: Store.ProposalInput): Policy.Input {
    Policy.Input(context, "execute", Policy.SUBMIT_PROPOSAL,
                 Obj(map["reason" := Str(input.reason), "contact" := Str(input.contact)]),
                 Some(input.start), Some(input.end))
  }

  /** Keyed digests are unforgeable: a token is genuine when its claims are those issued under its nonce. */
  predicate Genuine(history: History, token: Token) {
    token.Opens? && token.claims.nonce in history.issued && history.issued[token.claims.nonce].claims == token.claims
  }

  // ----- Actions -----

  datatype Action =
    | SetClock(now: int)
    | Submit(context: Policy.SecurityContext, input: Store.ProposalInput)
    | IssueApproval(binding: Authority.Binding, nonce: string)
    | RestartAuthority(readable: bool)
    | StartHandler(h: HandlerId, context: Policy.SecurityContext, request: Request)
    | Authorize(h: HandlerId, answer: Option<Answer>)
    | Review(h: HandlerId)
    | ConsumeArrives(h: HandlerId)
    | ConsumeChecked(h: HandlerId)
    | ConsumeCommits(h: HandlerId, append: Authority.Append)
    | ConsumeReturns(h: HandlerId)
    | ConsumeFails(h: HandlerId)
    | Begin(h: HandlerId)
    | DenyProposal(h: HandlerId)
    | EventArrives(h: HandlerId)
    | CreateReturns(h: HandlerId)
    | CreateFails(h: HandlerId)
    | Complete(h: HandlerId)
    | Cancel(h: HandlerId)
    | RecordAudit(h: HandlerId, delivered: bool, replied: bool)
    | CallLock(h: HandlerId)
    | UnlockArrives(h: HandlerId)
    | UnlockReturns(h: HandlerId)
    | UnlockFails(h: HandlerId)
    | ResetLock
    | ResetCollector
    | Collect(record: Audit.AuditRecord)

  predicate At(s: System, h: HandlerId, stage: Stage) {
    h in s.handlers && s.handlers[h].stage == stage
  }

  predicate InPhase(s: System, h: HandlerId, phase: ConsumePhase) {
    h in s.consumes && s.consumes[h].phase == phase
  }

  function Move(s: System, h: HandlerId, stage: Stage): System
    requires h in s.handlers
  {
    s.(handlers := s.handlers[h := s.handlers[h].(stage := stage)])
  }

  function Phase(s: System, h: HandlerId, phase: ConsumePhase): System
    requires h in s.consumes
  {
    s.(consumes := s.consumes[h := s.consumes[h].(phase := phase)])
  }

  /** The call to the Authority leaves the gateway. */
  function SendConsume(s: System, h: HandlerId, handler: Handler, binding: Authority.Binding): System {
    s.(handlers := s.handlers[h := handler.(stage := Consuming)],
       consumes := s.consumes[h := ConsumeCall(handler.request.token, binding, Sent)])
  }

  // Each action has its guard and its result; `ticks` advances with every action.

  function AfterSubmit(s: System, context: Policy.SecurityContext, input: Store.ProposalInput): System {
    s.(store := Store.Submitted(s.store, context.subject, CalendarGateway.Trimmed(input)))
  }

  function AfterIssue(s: System, binding: Authority.Binding, nonce: string): System {
    var claims := Authority.ClaimsFor(binding, s.clock, s.settings.ttl, nonce);
    s.(history := s.history.(issued := s.history.issued[nonce := Issue(binding, claims, s.clock, s.ticks)]))
  }

  /** A restart rebuilds the nonce state from the file; calls the old process was working on are lost. */
  function AfterRestart(s: System, readable: bool): System {
    s.(nonces := Authority.Restart(s.nonces.text, readable),
       consumes := map h | h in s.consumes ::
         if s.consumes[h].phase.Admitted? || s.consumes[h].phase.Checked? then s.consumes[h].(phase := Dropped)
         else s.consumes[h])
  }

  function AfterAuthorize(s: System, h: HandlerId, answer: Option<Answer>): System
    requires h in s.handlers
  {
    var handler := s.handlers[h];
    if answer == None then Move(s, h, Finished(PolicyRefused))
    else
      var grant := PolicyGrant(handler, s.clock);
      if !grant.allow then Move(s, h, Finished(PolicyRefused))
      else
        var decided := handler.(decision := Decided(grant, answer.value));
        match handler.request
        case Unlock(device, traceId, _) => SendConsume(s, h, decided, UnlockBinding(handler.context, device, traceId))
        case _ => s.(handlers := s.handlers[h := decided.(stage := Reviewing)])
  }

  function AfterReview(s: System, h: HandlerId): System
    requires h in s.handlers && !s.handlers[h].request.Unlock?
  {
    match Store.Reviewing(s.store, s.handlers[h].request.proposalId)
    case ReviewFailed(error) => Move(s, h, Finished(StoreRefused(error)))
    case Review(operation) => SendConsume(s, h, s.handlers[h], ExactBinding(s.handlers[h].context, operation))
  }

  function AfterArrive(s: System, h: HandlerId): System
    requires h in s.consumes
  {
    Phase(s, h, if s.nonces.failed then Replied(Authority.Unavailable) else Admitted)
  }

  /** The token, the binding and the expiry are checked outside the critical section. */
  function AfterCheck(s: System, h: HandlerId): System
    requires h in s.consumes
  {
    var call := s.consumes[h];
    Phase(s, h, if Genuine(s.history, call.token) && Authority.Matches(call.token.claims, call.binding, s.clock)
                then Checked(s.clock) else Replied(Authority.Refused))
  }

  function AfterCommit(s: System, h: HandlerId, append: Authority.Append): System
    requires h in s.consumes && s.consumes[h].phase.Checked? && s.consumes[h].token.Opens?
  {
    var call := s.consumes[h];
    var (nonces, verdict) := Authority.Commit(s.nonces, call.token.claims.nonce, append);
    var t := Phase(s, h, Replied(verdict)).(nonces := nonces);
    if verdict != Authority.Accepted then t
    else
      var acceptance := Acceptance(call.token.claims, call.phase.at, s.clock, s.ticks);
      t.(history := s.history.(accepted := s.history.accepted[h := acceptance]))
  }

  function AfterConsumed(request: Request): Stage {
    match request
    case Approve(_, _) => Beginning
    case Deny(_, _) => Denying
    case Unlock(_, _, _) => Auditing
  }

  function AfterBegin(s: System, h: HandlerId): System
    requires h in s.handlers && s.handlers[h].request.Approve?
  {
    var id := s.handlers[h].request.proposalId;
    var (store, begun) := Store.Beginning(s.store, id);
    match begun
    case BeginFailed(error) => Move(s, h, Finished(StoreRefused(error)))
    case Begin(operation, retry) =>
      Move(s, h, Creating(retry)).(
        store := store,
        creates := s.creates[h := CreateCall(operation.arguments, None)],
        history := s.history.(
          effects := s.history.effects[h := CreateEvent(operation.arguments, s.ticks)],
          holder := if retry then s.history.holder else s.history.holder[id := h]))
  }

  function AfterDeny(s: System, h: HandlerId): System
    requires h in s.handlers && s.handlers[h].request.Deny?
  {
    var (store, error) := Store.Denying(s.store, s.handlers[h].request.proposalId);
    Move(s, h, Finished(if error == None then ProposalDenied else StoreRefused(error.value))).(store := store)
  }

  function AfterEvent(s: System, h: HandlerId): System
    requires h in s.creates
  {
    var (events, reply) := Calendar.Creating(s.events, s.creates[h].arguments);
    s.(events := events, creates := s.creates[h := s.creates[h].(reply := Some(reply))])
  }

  predicate HasEvent(reply: Option<Calendar.Reply>) {
    reply.Some? && (reply.value.Created? || reply.value.Existing?)
  }

  function AfterCreateReturns(s: System, h: HandlerId): System
    requires h in s.handlers && s.handlers[h].stage.Creating? && h in s.creates && HasEvent(s.creates[h].reply)
  {
    var eventId := s.creates[h].reply.value.eventId;
    Move(s, h, if s.handlers[h].stage.retry then Finished(EventReturned(eventId)) else Completing)
  }

  function AfterCreateFails(s: System, h: HandlerId): System
    requires h in s.handlers && s.handlers[h].stage.Creating?
  {
    Move(s, h, if s.handlers[h].stage.retry then Finished(CalendarFailed) else Cancelling)
  }

  function AfterComplete(s: System, h: HandlerId): System
    requires h in s.handlers && s.handlers[h].request.Approve? && h in s.creates && HasEvent(s.creates[h].reply)
  {
    var id := s.handlers[h].request.proposalId;
    Move(s, h, Finished(EventReturned(s.creates[h].reply.value.eventId))).(
      store := Store.Leaving(s.store, id, Store.Approved),
      history := s.history.(holder := s.history.holder - {id}))
  }

  /** A cancelled approval is abandoned unless the calendar has refused the event. */
  function AfterCancel(s: System, h: HandlerId): System
    requires h in s.handlers && s.handlers[h].request.Approve? && h in s.creates
  {
    var id := s.handlers[h].request.proposalId;
    Move(s, h, Finished(CalendarFailed)).(
      store := Store.Leaving(s.store, id, Store.Pending),
      history := s.history.(
        holder := s.history.holder - {id},
        abandoned :=
          if s.creates[h].reply == Some(Calendar.Invalid) then s.history.abandoned else s.history.abandoned[id := h]))
  }

  /** The sink may fail before or after the collector has the record. */
  function AfterAudit(s: System, h: HandlerId, delivered: bool, replied: bool): System
    requires h in s.handlers && h in s.history.accepted
  {
    var record := UnlockRecord(s.handlers[h], s.history.accepted[h].claims.traceId);
    var stored := delivered && Audit.Valid(record);
    var t := s.(collector := if stored then s.collector + [record] else s.collector);
    if stored && replied then
      Move(t, h, Opening).(history := s.history.(evidence := s.history.evidence[h := Evidence(record, s.ticks)]))
    else Move(t, h, Finished(AuditFailed))
  }

  function AfterCallLock(s: System, h: HandlerId): System
    requires h in s.handlers && s.handlers[h].request.Unlock?
  {
    var device := s.handlers[h].request.device;
    Move(s, h, Unlocking).(
      unlocks := s.unlocks[h := UnlockCall(device, None)],
      history := s.history.(effects := s.history.effects[h := OpenLock(device, s.ticks)]))
  }

  function AfterUnlock(s: System, h: HandlerId): System
    requires h in s.unlocks
  {
    var (lock, answer) := Lock.Unlocking(s.lock, s.unlocks[h].device);
    s.(lock := lock, unlocks := s.unlocks[h := s.unlocks[h].(answer := Some(answer))],
       history := s.history.(openings := s.history.openings + if answer == Lock.Unlocked then 1 else 0))
  }

  predicate Enabled(s: System, a: Action) {
    match a
    case SetClock(_) => true
    case Submit(context, input) =>
      CalendarGateway.AcceptsProposal(input) && Policy.Authorization(SubmitInput(context, input), s.clock).allow
      && s.store.next + 1 < Store.COUNTER_RANGE
    case IssueApproval(binding, nonce) =>
      !s.nonces.failed && Authority.ValidBinding(s.settings.keyLength, s.settings.owner, binding)
      && Files.IsNonce(nonce) && nonce !in s.history.issued
    case RestartAuthority(_) => true
    case StartHandler(h, _, _) => h !in s.handlers
    case Authorize(h, answer) => At(s, h, Authorizing) && (answer.Some? ==> GoodAnswer(answer.value))
    case Review(h) => At(s, h, Reviewing) && !s.handlers[h].request.Unlock?
    case ConsumeArrives(h) => InPhase(s, h, Sent)
    case ConsumeChecked(h) => InPhase(s, h, Admitted)
    case ConsumeCommits(h, _) => h in s.consumes && s.consumes[h].phase.Checked? && s.consumes[h].token.Opens?
    case ConsumeReturns(h) =>
      At(s, h, Consuming) && InPhase(s, h, Replied(Authority.Accepted))
      && s.consumes[h].token.Opens? && s.consumes[h].token.claims.traceId != ""
    case ConsumeFails(h) => At(s, h, Consuming)
    case Begin(h) => At(s, h, Beginning) && s.handlers[h].request.Approve?
    case DenyProposal(h) => At(s, h, Denying) && s.handlers[h].request.Deny?
    case EventArrives(h) => h in s.creates && s.creates[h].reply == None
    case CreateReturns(h) =>
      h in s.handlers && s.handlers[h].stage.Creating? && h in s.creates && HasEvent(s.creates[h].reply)
    case CreateFails(h) => h in s.handlers && s.handlers[h].stage.Creating?
    case Complete(h) =>
      At(s, h, Completing) && s.handlers[h].request.Approve? && h in s.creates && HasEvent(s.creates[h].reply)
    case Cancel(h) => At(s, h, Cancelling) && s.handlers[h].request.Approve? && h in s.creates
    case RecordAudit(h, _, _) => At(s, h, Auditing) && h in s.history.accepted
    case CallLock(h) => At(s, h, Opening) && s.handlers[h].request.Unlock?
    case UnlockArrives(h) => h in s.unlocks && s.unlocks[h].answer == None
    case UnlockReturns(h) => At(s, h, Unlocking) && h in s.unlocks && s.unlocks[h].answer == Some(Lock.Unlocked)
    case UnlockFails(h) => At(s, h, Unlocking)
    case ResetLock => true
    case ResetCollector => true
    case Collect(record) => Audit.Valid(record)
  }

  function Outcome(s: System, a: Action): System
    requires Enabled(s, a)
  {
    hide Policy.Authorization, CalendarGateway.AcceptsProposal, Authority.ValidBinding, Audit.Valid, Files.IsNonce,
      GoodAnswer;
    match a
    case SetClock(now) => s.(clock := now)
    case Submit(context, input) => AfterSubmit(s, context, input)
    case IssueApproval(binding, nonce) => AfterIssue(s, binding, nonce)
    case RestartAuthority(readable) => AfterRestart(s, readable)
    case StartHandler(h, context, request) =>
      s.(handlers := s.handlers[h := Handler(context, request, Audit.NO_DECISION, Authorizing)])
    case Authorize(h, answer) => AfterAuthorize(s, h, answer)
    case Review(h) => AfterReview(s, h)
    case ConsumeArrives(h) => AfterArrive(s, h)
    case ConsumeChecked(h) => AfterCheck(s, h)
    case ConsumeCommits(h, append) => AfterCommit(s, h, append)
    case ConsumeReturns(h) => Move(s, h, AfterConsumed(s.handlers[h].request))
    case ConsumeFails(h) => Move(s, h, Finished(ApprovalRefused))
    case Begin(h) => AfterBegin(s, h)
    case DenyProposal(h) => AfterDeny(s, h)
    case EventArrives(h) => AfterEvent(s, h)
    case CreateReturns(h) => AfterCreateReturns(s, h)
    case CreateFails(h) => AfterCreateFails(s, h)
    case Complete(h) => AfterComplete(s, h)
    case Cancel(h) => AfterCancel(s, h)
    case RecordAudit(h, delivered, replied) => AfterAudit(s, h, delivered, replied)
    case CallLock(h) => AfterCallLock(s, h)
    case UnlockArrives(h) => AfterUnlock(s, h)
    case UnlockReturns(h) => Move(s, h, Finished(LockOpened))
    case UnlockFails(h) => Move(s, h, Finished(LockFailed))
    case ResetLock => s.(lock := Lock.LOCKED, history := s.history.(resets := s.history.resets + 1))
    case ResetCollector => s.(collector := [])
    case Collect(record) => s.(collector := s.collector + [record])
  }

  function Next(s: System, a: Action): System
    requires Enabled(s, a)
  {
    Outcome(s, a).(ticks := s.ticks + 1)
  }

  /** The actions lead from s to t, each enabled in its turn. */
  predicate Run(s: System, actions: seq<Action>, t: System)
    decreases |actions|
  {
    if actions == [] then s == t else Enabled(s, actions[0]) && Run(Next(s, actions[0]), actions[1..], t)
  }

  ghost predicate Reachable(t: System) {
    exists s, actions :: Initial(s) && Run(s, actions, t)
  }
}
