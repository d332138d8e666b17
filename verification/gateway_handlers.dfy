/** The gateway's approve, deny and unlock handlers (internal/gateway/gateway.go) as programs over the store, the
    Authority, the calendar, the lock and the collector. Each call they make is one step of the protocol, so from any
    reachable state, with whatever other handlers under way, a handler's whole run is a run of the protocol. */
module GatewayHandlers {
  import opened Text
  import opened CanonicalJson
  import opened Protocol
  import opened ProtocolInvariant
  import opened ProtocolCalendar
  import opened ProtocolSafety
  import opened ProtocolRuns
  import opened ProtocolTheorems
  import opened ProtocolWitness
  import opened HandlerRuns
  import Policy
  import Audit
  import Files = NonceFile
  import Tokens = ApprovalToken
  import Authority = ApprovalAuthority
  import Store = MeetingStore
  import Calendar = CalendarServer
  import Lock = SmartLockServer

  /** What a token is to the Authority that holds the key. */
  function TokenOf(config: Authority.Config, token: string): Token {
    if token == "" || config.Open(token) == None then Unopenable else Opens(config.Open(token).value)
  }

  /** The Authority's consumption of a token is that of what the token opens to. */
  lemma ConsumptionAgrees(s: System, h: HandlerId, config: Authority.Config, token: string, binding: Authority.Binding,
                          append: Authority.Append)
    requires h in s.consumes && s.consumes[h].token == TokenOf(config, token) && s.consumes[h].binding == binding
    ensures var (nonces, verdict) := Authority.Consuming(s.nonces, token, config.Open(token), binding, s.clock, append);
      Consumption(s, h, append).0 == nonces
      && (Consumption(s, h, append).1 == Authority.Accepted <==> verdict == Authority.Accepted)
  {
    hide Authority.Matches, Authority.Commit;
  }

  /** The trace a refusal is recorded under: the one the Authority answers with, once the token opens, or the
      caller's. */
  function AnsweredTrace(config: Authority.Config, token: string, answered: bool, traceId: string): string {
    match TokenOf(config, token)
    case Opens(claims) => if answered then Audit.OrElse(claims.traceId, traceId) else traceId
    case Unopenable => traceId
  }

  lemma AnsweredTraceIs(config: Authority.Config, token: string, answered: bool, traceId: string,
                        claims: Option<Authority.Claims>, trace: string)
    requires claims == if answered && token != "" then config.Open(token) else None
    requires trace == if claims.Some? && claims.value.traceId != "" then claims.value.traceId else traceId
    ensures trace == AnsweredTrace(config, token, answered, traceId)
  {
  }

  /** One record was appended. */
  predicate OneMore(before: seq<Audit.AuditRecord>, after: seq<Audit.AuditRecord>) {
    |after| == |before| + 1 && before <= after
  }

  /** The record is about a call of the lock from this context, and carries what the policy decided about it. */
  predicate AboutUnlock(record: Audit.AuditRecord, context: Policy.SecurityContext, decision: Option<Audit.Decision>) {
    record.operation == "execute" && record.tool == "smart_lock.unlock"
    && record.actor == context.actor && record.channel == context.channel
    && (record.subjectKind == "owner" <==> context.subject == "owner-subject-id")
    && record.subjectRef == Audit.SubjectRef(context.subject)
    && record.safeArguments == map[] && record.durationMicros == 0
    && (decision.Some? ==>
        record.obligations == decision.value.obligations
        && (decision.value.correlationId != "" ==> record.correlationId == decision.value.correlationId)
        && (decision.value.decisionId != "" ==> record.decisionId == decision.value.decisionId)
        && (decision.value.policyRevision != "" ==> record.policyRevision == decision.value.policyRevision)
        && (decision.value.reason != "" ==> record.rule == decision.value.reason))
  }

  /** Deny evidence of an unlock, for this reason and under this trace if there is one. */
  predicate IsRefusal(record: Audit.AuditRecord, context: Policy.SecurityContext, decision: Option<Audit.Decision>,
                      traceId: string, reason: string) {
    Audit.Valid(record) && AboutUnlock(record, context, decision) && record.outcome == "deny"
    && record.reason == reason && (traceId != "" ==> record.traceId == traceId)
  }

  /** What the collector needs to take the evidence of a refusal. */
  predicate Correlates(context: Policy.SecurityContext, decision: Option<Audit.Decision>, traceId: string,
                       reason: string) {
    reason != "" && context.actor != "" && context.channel != ""
    && (traceId != "" || (decision.Some? && decision.value.correlationId != ""))
  }

  /** Without an answer and a trace there is nothing to correlate by. */
  lemma NothingCorrelates(context: Policy.SecurityContext, reason: string)
    ensures !Correlates(context, None, "", reason)
  {
  }

  /** A decision under a good answer can always be correlated. */
  lemma DecisionCorrelates(context: Policy.SecurityContext, grant: Policy.Grant, answer: Answer, traceId: string,
                           reason: string)
    requires GoodAnswer(answer)
    ensures Correlates(context, Some(Decided(grant, answer)), traceId, reason) <==>
      reason != "" && context.actor != "" && context.channel != ""
  {
  }

  /** The decision a refusal is recorded with: a policy that could not be asked leaves none. */
  function Found(decision: Option<Audit.Decision>): Audit.Decision {
    if decision == None then Audit.NO_DECISION.(decisionId := "unavailable") else decision.value
  }

  lemma RecordIsAbout(context: Policy.SecurityContext, decision: Option<Audit.Decision>, traceId: string,
                      outcome: string, reason: string)
    ensures AboutUnlock(Audit.DetailedRecord(context, "execute", Policy.UNLOCK_LOCK, Found(decision), traceId, outcome,
                                             reason, map[], 0), context, decision)
  {
    hide Audit.SubjectRef;
    Audit.KindsAreExclusive(context.subject);
  }

  lemma RecordIsRefusal(context: Policy.SecurityContext, decision: Option<Audit.Decision>, traceId: string,
                        reason: string)
    ensures var record := Audit.DetailedRecord(context, "execute", Policy.UNLOCK_LOCK, Found(decision), traceId, "deny",
                                               reason, map[], 0);
      Audit.Valid(record) ==> IsRefusal(record, context, decision, traceId, reason)
  {
    hide Audit.Valid, AboutUnlock;
    RecordIsAbout(context, decision, traceId, "deny", reason);
  }

  /** What the policy says about an unlock. */
  function UnlockGrant(context: Policy.SecurityContext, device: string, now: int): Policy.Grant {
    Policy.Authorization(Policy.ExecuteInput(context, Policy.UNLOCK_LOCK, Authority.DeviceArguments(device)), now)
  }

  /** The decision the gateway has about an unlock, if the policy answered. */
  function UnlockDecision(context: Policy.SecurityContext, device: string, answer: Option<Answer>, now: int):
    Option<Audit.Decision>
  {
    if answer == None then None else Some(Decided(UnlockGrant(context, device, now), answer.value))
  }

  lemma SetClockNext(s: System, now: int)
    ensures Enabled(s, SetClock(now)) && Next(s, SetClock(now)) == s.(clock := now, ticks := s.ticks + 1)
  {
  }

  lemma AuthorizeNext(s: System, h: HandlerId, answer: Option<Answer>)
    requires At(s, h, Authorizing) && (answer.Some? ==> GoodAnswer(answer.value))
    ensures Enabled(s, Action.Authorize(h, answer))
    ensures Next(s, Action.Authorize(h, answer)) == AfterAuthorize(s, h, answer).(ticks := s.ticks + 1)
  {
    hide AfterAuthorize;
  }

  lemma ReviewNext(s: System, h: HandlerId)
    requires At(s, h, Reviewing) && !s.handlers[h].request.Unlock?
    ensures Enabled(s, Action.Review(h)) && Next(s, Action.Review(h)) == AfterReview(s, h).(ticks := s.ticks + 1)
  {
    hide AfterReview;
  }

  lemma IssueNext(s: System, binding: Authority.Binding, nonce: string)
    requires !s.nonces.failed && Authority.ValidBinding(s.settings.keyLength, s.settings.owner, binding)
    requires Files.IsNonce(nonce) && nonce !in s.history.issued
    ensures Enabled(s, Action.IssueApproval(binding, nonce))
    ensures Next(s, Action.IssueApproval(binding, nonce)) == AfterIssue(s, binding, nonce).(ticks := s.ticks + 1)
  {
    hide AfterIssue;
  }

  lemma BeginNext(s: System, h: HandlerId)
    requires At(s, h, Beginning) && s.handlers[h].request.Approve?
    ensures Enabled(s, Begin(h)) && Next(s, Begin(h)) == AfterBegin(s, h).(ticks := s.ticks + 1)
  {
    hide AfterBegin;
  }

  /** A handler that has not started has no effect. */
  lemma NoEffectYet(s: System, h: HandlerId)
    requires Reachable(s) && h !in s.handlers
    ensures h !in s.history.effects
  {
    hide Reachable, Inv, EffectOk;
    ReachableInv(s);
    if h in s.history.effects { EveryEffectIsApproved(s, h); }
  }

  /** Allow evidence of an unlock, under this trace and with this decision. */
  predicate IsUnlockEvidence(record: Audit.AuditRecord, context: Policy.SecurityContext, decision: Audit.Decision,
                             traceId: string) {
    Audit.Valid(record) && AboutUnlock(record, context, Some(decision)) && record.outcome == "allow"
    && record.reason == decision.reason && record.traceId == traceId != ""
  }

  lemma RecordIsEvidence(context: Policy.SecurityContext, decision: Audit.Decision, traceId: string)
    requires traceId != ""
    ensures var record := Audit.DetailedRecord(context, "execute", Policy.UNLOCK_LOCK, decision, traceId, "allow",
                                               decision.reason, map[], 0);
      Audit.Valid(record) ==> IsUnlockEvidence(record, context, decision, traceId)
  {
    hide Audit.Valid, AboutUnlock;
    RecordIsAbout(context, Some(decision), traceId, "allow", decision.reason);
  }

  /** The policy allows the lock of the demo door only, and says why. */
  lemma AllowedUnlock(context: Policy.SecurityContext, device: string, now: int)
    ensures var grant := UnlockGrant(context, device, now);
      grant.reason != ""
      && (grant.allow ==> device == Lock.DEMO_DEVICE && context.actor != "" && context.channel != "")
  {
    hide Policy.Authorization, Policy.ReferenceAllowed;
    var arguments := Authority.DeviceArguments(device);
    Audit.PolicyGivesReason(Policy.ExecuteInput(context, Policy.UNLOCK_LOCK, arguments), now);
    Policy.EffectToolsExactly(context, Policy.UNLOCK_LOCK, arguments, now);
    assert arguments.fields["device_id"] == Str(device);
  }

  lemma AuditRun(s: System, h: HandlerId, delivered: bool, replied: bool, record: Audit.AuditRecord) returns (t: System)
    requires Reachable(s) && At(s, h, Auditing) && h in s.history.accepted && Audit.Valid(record)
    requires record == UnlockRecord(s.handlers[h], s.history.accepted[h].claims.traceId)
    ensures Reachable(t) && Leads(s, t)
    ensures var stage := if delivered && replied then Opening else Finished(AuditFailed);
      t == s.(collector := if delivered then s.collector + [record] else s.collector,
              handlers := s.handlers[h := s.handlers[h].(stage := stage)],
                    history := s.history.(evidence := t.history.evidence), ticks := t.ticks)
  {
    hide Reachable, Leads, Audit.Valid, UnlockRecord;
    ReachableNext(s, RecordAudit(h, delivered, replied));
    t := Next(s, RecordAudit(h, delivered, replied));
  }

  /** The evidence of an accepted unlock is complete, so the collector takes it. */
  lemma EvidenceIsValid(s: System, h: HandlerId, record: Audit.AuditRecord)
    requires Inv(s) && At(s, h, Auditing) && s.handlers[h].decision.reason != ""
    requires s.handlers[h].request.Unlock?
    requires var handler := s.handlers[h];
      record == Audit.DetailedRecord(handler.context, "execute", Policy.UNLOCK_LOCK, handler.decision,
                                     handler.request.traceId, "allow", handler.decision.reason, map[], 0)
    ensures Audit.Valid(record) && h in s.history.accepted && s.handlers[h].request.traceId != ""
    ensures record == UnlockRecord(s.handlers[h], s.history.accepted[h].claims.traceId)
  {
    hide Inv, Audit.Valid, Audit.DetailedRecord;
    StageKnown(s, h);
    AcceptedIsIssued(s, h);
    var handler := s.handlers[h];
    Audit.DetailedRecordValid(handler.context, "execute", Policy.UNLOCK_LOCK, handler.decision,
                              handler.request.traceId, "allow",
                              handler.decision.reason, map[], 0);
  }

  lemma StoredOperation(store: Store.StoreState, id: string)
    requires Store.Valid(store)
    ensures id in store.proposals ==>
      id in store.states && Store.OperationFor(store.proposals[id]).arguments.idempotencyKey == Store.IdempotencyKey(id)
      && Store.OperationFor(store.proposals[id]).arguments.proposalId == id
  {
    hide Store.Numbered;
    assert id in store.proposals ==> id in store.states.Keys;
  }

  lemma NeverConflicts(s: System, h: HandlerId)
    requires Reachable(s) && h in s.creates
    ensures s.creates[h].reply != Some(Calendar.Conflict)
  {
    hide Reachable, Inv;
    ReachableInv(s);
    RepliesKnown(s, h);
  }

  /** Where an approval is left, its event request is on record, and answered if it is to be completed. */
  lemma LeavingHasRequest(s: System, h: HandlerId)
    requires Inv(s) && h in s.handlers && s.handlers[h].stage in {Completing, Cancelling}
    ensures h in s.creates && (s.handlers[h].stage == Completing ==> HasEvent(s.creates[h].reply))
  {
    hide Inv, Granted, HasEvent;
    StageKnown(s, h);
  }

  lemma OpensToIssued(config: Authority.Config, token: string, binding: Authority.Binding, nonce: string, now: int)
    requires config.Open(token) == Some(Authority.ClaimsFor(binding, now, config.Ttl(), nonce))
    ensures TokenOf(config, token) == Opens(Authority.ClaimsFor(binding, now, config.Ttl(), nonce))
    ensures Authority.ClaimsFor(binding, now, config.Ttl(), nonce).nonce == nonce
  {
    hide HashArguments;
  }

  predicate IssuedAs(config: Authority.Config, history: History, nonce: string, payload: seq<Tokens.Byte>) {
    nonce in history.issued && history.issued[nonce].claims.nonce == nonce
    && payload == config.render(history.issued[nonce].claims)
  }

  /** Keyed digests are unforgeable: if only renderings of issued claims are ever signed, a token that opens is
      genuine. */
  lemma OpenedIsGenuine(config: Authority.Config, history: History, token: string, signed: set<seq<Tokens.Byte>>)
    requires config.Faithful() && Tokens.Unforgeable(config.mac, token, signed)
    requires forall p :: p in signed ==> exists n :: IssuedAs(config, history, n, p)
    ensures TokenOf(config, token).Opens? ==> Genuine(history, TokenOf(config, token))
  {
    hide Tokens.Verify, Tokens.Unforgeable;
    Tokens.OnlySignedVerify(config.mac, token, signed);
    if TokenOf(config, token).Opens? {
      var p := Tokens.Verify(config.mac, token).value;
      var n :| IssuedAs(config, history, n, p);
    }
  }

  class Gateway {
    const store: Store.Store
    const authority: Authority.Authority
    const calendar: Calendar.Calendar
    const lock: Lock.SmartLock
    const collector: Audit.Collector
    ghost var system: System

    /** The objects are the parts of a reachable state of the protocol. */
    ghost predicate Valid()
      reads this, store, authority, authority.file, calendar, lock, collector
    {
      Reachable(system) && system.store == store.State() && system.nonces == authority.State()
      && system.events == calendar.events && system.lock == lock.State() && system.collector == collector.records
      && system.settings == Settings(authority.config.keyLength, authority.config.owner, authority.config.Ttl())
    }

    ghost predicate Standing(h: HandlerId, context: Policy.SecurityContext, request: Request, stage: Stage)
      reads this
    {
      At(system, h, stage) && system.handlers[h].context == context && system.handlers[h].request == request
    }

    /** Handler h has sent the calendar a request with these arguments. */
    ghost predicate Asking(h: HandlerId, arguments: Store.EventArguments)
      reads this
    {
      h in system.history.effects && system.history.effects[h].CreateEvent?
      && system.history.effects[h].arguments == arguments
    }

    /** Handler h has sent the lock a request for this device. */
    ghost predicate Ringing(h: HandlerId, device: string)
      reads this
    {
      h in system.history.effects && system.history.effects[h].OpenLock? && system.history.effects[h].device == device
    }

    /** Handler h has called the Authority with this binding and is not answered yet. */
    ghost predicate Calling(h: HandlerId, context: Policy.SecurityContext, request: Request, binding: Authority.Binding)
      reads this
    {
      Standing(h, context, request, Consuming) && InPhase(system, h, Sent)
      && system.consumes[h].token == request.token && system.consumes[h].binding == binding
    }

    /** Everything is new, except the Authority's state file, which may come from earlier lives. */
    constructor (authority: Authority.Authority, ghost now: int)
      requires Files.Complete(authority.file.text)
      requires authority.State() == Authority.Restart(authority.file.text, true)
        || authority.State() == Authority.Restart(authority.file.text, false)
      ensures Valid() && this.authority == authority && fresh(store) && fresh(calendar) && fresh(lock)
        && fresh(collector)
    {
      hide Files.Complete, Authority.Restart;
      this.authority := authority;
      store := new Store.Store();
      calendar := new Calendar.Calendar();
      lock := new Lock.SmartLock();
      collector := new Audit.Collector();
      system := System(Settings(authority.config.keyLength, authority.config.owner, authority.config.Ttl()), now, 0,
                       Store.EMPTY,
                       authority.State(), map[], Lock.LOCKED, [], map[], map[], map[], map[], NO_HISTORY);
      new;
      assert Run(system, [], system);
    }

    lemma StoreIsSound()
      requires Valid()
      ensures Store.Valid(store.State())
    {
      hide Reachable, Inv;
      ReachableInv(system);
      StoreIsValid(system);
    }

    lemma EventIsNamed(key: string)
      requires Valid() && key in calendar.events
      ensures calendar.events[key].eventId == Calendar.EventId(calendar.events[key].arguments.proposalId)
    {
      hide Reachable, Calendar.EventId, Store.OperationFor;
      EventsAreOperations(system, key);
    }

    lemma NothingYet(h: HandlerId)
      requires Valid() && h !in system.handlers
      ensures h !in system.history.effects
    {
      hide Reachable;
      NoEffectYet(system, h);
    }

    /** The Authority issues an Approval; what it returns is a genuine token of these claims. */
    method IssueApproval(binding: Authority.Binding, nonce: string, now: int) returns (token: Option<string>)
      requires Valid() && authority.config.Faithful() && Files.IsNonce(nonce) && nonce !in system.history.issued
      modifies this`system
      ensures Valid() && Leads(old(system), system)
      ensures token.Some? <==>
        !authority.stateErr && Authority.Issuable(authority.config.keyLength, authority.config.owner, binding)
      ensures token.Some? ==>
        TokenOf(authority.config, token.value) ==
          Opens(Authority.ClaimsFor(binding, now, authority.config.Ttl(), nonce))
        && Genuine(system.history, TokenOf(authority.config, token.value))
    {
      hide Reachable, Leads, Authority.ValidBinding, Authority.Issuable, Files.IsNonce, Authority.ClaimsFor, Enabled,
        Next;
      ghost var start := system;
      SetClockNext(system, now);
      ReachableNext(system, SetClock(now));
      system := Next(system, SetClock(now));
      ghost var ready := system;
      token := authority.Issue(binding, nonce, now);
      if token.Some? {
        OpensToIssued(authority.config, token.value, binding, nonce, now);
        IssueNext(system, binding, nonce);
        ReachableNext(system, Action.IssueApproval(binding, nonce));
        LeadsOn(start, ready, Next(system, Action.IssueApproval(binding, nonce)));
        system := Next(system, Action.IssueApproval(binding, nonce));
      }
    }

    // ----- The steps all handlers share -----

    /** A call comes in. */
    ghost method Enter(h: HandlerId, context: Policy.SecurityContext, request: Request, now: int)
      requires Valid() && h !in system.handlers
      modifies this`system
      ensures Valid() && Leads(old(system), system) && Standing(h, context, request, Authorizing)
      ensures system.clock == now && system.history == old(system.history)
    {
      hide Reachable, Leads;
      ReachableNext(system, SetClock(now));
      var ready := Next(system, SetClock(now));
      ReachableNext(ready, StartHandler(h, context, request));
      LeadsOn(system, ready, Next(ready, StartHandler(h, context, request)));
      system := Next(ready, StartHandler(h, context, request));
    }

    /** The policy is asked; an answer may fail to come. An unlock then calls the Authority at once. */
    method Authorize(ghost h: HandlerId, context: Policy.SecurityContext, tool: string, arguments: Json,
                     answer: Option<Answer>, now: int, ghost request: Request)
      returns (decision: Option<Audit.Decision>)
      requires Valid() && Standing(h, context, request, Authorizing) && system.clock == now
      requires tool == ToolOf(request) && arguments == ArgumentsOf(request)
      requires answer.Some? ==> GoodAnswer(answer.value)
      modifies this`system
      ensures Valid() && Leads(old(system), system) && system.clock == now && system.history == old(system.history)
      ensures decision == if answer == None then None
        else Some(Decided(Policy.Authorization(Policy.ExecuteInput(context, tool, arguments), now), answer.value))
      ensures decision == None || !decision.value.allow ==> Standing(h, context, request, Finished(PolicyRefused))
      ensures decision.Some? && decision.value.allow ==>
        h in system.handlers && system.handlers[h].decision == decision.value
        && match request
           case Unlock(device, traceId, _) => Calling(h, context, request, UnlockBinding(context, device, traceId))
           case _ => Standing(h, context, request, Reviewing)
    {
      hide Reachable, Leads, Policy.Authorization, GoodAnswer, UnlockBinding, Enabled, Next;
      AuthorizeNext(system, h, answer);
      ReachableNext(system, Action.Authorize(h, answer));
      system := Next(system, Action.Authorize(h, answer));
      if answer == None { return None; }
      var grant := Policy.Authorization(Policy.ExecuteInput(context, tool, arguments), now);
      decision := Some(Audit.Decision(grant.allow, answer.value.correlationId, answer.value.decisionId,
                                      grant.obligations,
                                      answer.value.policyRevision, grant.reason));
    }

    /** The proposal is looked up and the Authority called with its operation. */
    method Review(ghost h: HandlerId, context: Policy.SecurityContext, id: string, ghost request: Request)
      returns (reviewed: Store.Reviewed)
      requires Valid() && Standing(h, context, request, Reviewing) && !request.Unlock? && request.proposalId == id
      modifies this`system
      ensures Valid() && Leads(old(system), system) && system.clock == old(system.clock)
        && system.history == old(system.history)
      ensures reviewed == Store.Reviewing(store.State(), id)
      ensures match reviewed
        case Review(operation) => Calling(h, context, request, ExactBinding(context, operation))
        case ReviewFailed(error) => Standing(h, context, request, Finished(StoreRefused(error)))
    {
      hide Reachable, Leads, ExactBinding, Store.OperationFor, Enabled, Next;
      ReviewNext(system, h);
      ReachableNext(system, Action.Review(h));
      StoreIsSound();
      reviewed := store.Review(id);
      system := Next(system, Action.Review(h));
    }

    /** The Authority accepts, and says so. */
    ghost predicate Accepts(token: string, binding: Authority.Binding, now: int, append: Authority.Append,
                            replied: bool)
      reads authority, authority.file
    {
      replied && Authority.Consuming(authority.State(), token, authority.config.Open(token), binding, now,
                                     append).1 == Authority.Accepted
    }

    /** The Approval is consumed at the Authority; `replied` says whether its answer reaches the gateway. */
    method ConsumeExact(ghost h: HandlerId, context: Policy.SecurityContext, token: string, binding: Authority.Binding,
                        now: int, append: Authority.Append, replied: bool, ghost request: Request) returns (ok: bool)
      requires Valid() && Calling(h, context, request, binding) && system.clock == now
      requires request.token == TokenOf(authority.config, token)
      requires request.token.Opens? ==> Genuine(system.history, request.token)
      modifies this`system, authority`used, authority`stateErr, authority`consumeCount, authority.file
      ensures Valid() && Leads(old(system), system) && system.clock == now
      ensures ok <==> old(Accepts(token, binding, now, append, replied))
      ensures authority.State() ==
        Authority.Consuming(old(authority.State()), token, authority.config.Open(token), binding, now, append).0
      ensures Standing(h, context, request, if ok then AfterConsumed(request) else Finished(ApprovalRefused))
      ensures system.handlers[h].decision == old(system.handlers[h].decision)
      ensures system.history.effects == old(system.history.effects)
    {
      hide Reachable, Leads, Genuine, Authority.Matches, Authority.Consuming, Consumption, AfterConsumed, TokenOf;
      ConsumptionAgrees(system, h, authority.config, token, binding, append);
      ghost var after := ConsumeExactRun(system, h, append, replied);
      LeadsFromReachable(system, after);
      var verdict := authority.ConsumeApproval(token, binding, now, append);
      ok := verdict == Authority.Accepted && replied;
      system := after;
    }

    // ----- Approve -----

    method Begin(ghost h: HandlerId, context: Policy.SecurityContext, id: string, ghost request: Request)
      returns (begun: Store.Begun)
      requires Valid() && Standing(h, context, request, Beginning) && request.Approve? && request.proposalId == id
      modifies this`system, store`states
      ensures Valid() && Leads(old(system), system)
      ensures (store.State(), begun) == Store.Beginning(old(store.State()), id)
      ensures match begun
        case Begin(operation, retry) =>
          Standing(h, context, request, Creating(retry)) && Asking(h, operation.arguments)
          && h in system.creates && system.creates[h] == CreateCall(operation.arguments, None)
        case BeginFailed(error) =>
          Standing(h, context, request, Finished(StoreRefused(error)))
          && system.history.effects == old(system.history.effects)
    {
      hide Reachable, Leads, Store.OperationFor, Enabled, Next;
      BeginNext(system, h);
      ReachableNext(system, Action.Begin(h));
      StoreIsSound();
      ghost var after := Next(system, Action.Begin(h));
      begun := store.BeginApproval(id);
      system := after;
    }

    /** The event request reaches the calendar. */
    method Deliver(ghost h: HandlerId, context: Policy.SecurityContext, arguments: Store.EventArguments,
                   ghost request: Request, ghost retry: bool) returns (reply: Calendar.Reply)
      requires Valid() && Standing(h, context, request, Creating(retry))
      requires h in system.creates && system.creates[h] == CreateCall(arguments, None)
      modifies this`system, calendar
      ensures Valid() && Leads(old(system), system) && Standing(h, context, request, Creating(retry))
      ensures (calendar.events, reply) == Calendar.Creating(old(calendar.events), arguments)
        && reply != Calendar.Conflict
      ensures h in system.creates && system.creates[h] == CreateCall(arguments, Some(reply))
      ensures system.history.effects == old(system.history.effects)
    {
      hide Reachable, Leads, Calendar.Creating;
      ReachableNext(system, EventArrives(h));
      ghost var after := Next(system, EventArrives(h));
      NeverConflicts(after, h);
      reply := calendar.PostEvent(arguments);
      system := after;
    }

    /** The caller hears of the event, or has to give up. */
    ghost method Hear(h: HandlerId, context: Policy.SecurityContext, request: Request, retry: bool, heard: bool)
      requires Valid() && Standing(h, context, request, Creating(retry))
      requires h in system.creates && (heard ==> HasEvent(system.creates[h].reply))
      modifies this`system
      ensures Valid() && Leads(old(system), system)
      ensures system.history.effects == old(system.history.effects)
        && h in system.creates && h in old(system.creates) && system.creates[h] == old(system.creates[h])
      ensures Standing(h, context, request,
                       if !retry then (if heard then Completing else Cancelling)
                       else if heard then Finished(EventReturned(system.creates[h].reply.value.eventId))
                       else Finished(CalendarFailed))
    {
      hide Reachable, Leads;
      var a := if heard then CreateReturns(h) else CreateFails(h);
      ReachableNext(system, a);
      system := Next(system, a);
    }

    method Complete(ghost h: HandlerId, context: Policy.SecurityContext, id: string, ghost request: Request)
      requires Valid() && Standing(h, context, request, Completing) && request.Approve? && request.proposalId == id
      modifies this`system, store`states
      ensures Valid() && Leads(old(system), system)
      ensures store.State() == Store.Leaving(old(store.State()), id, Store.Approved)
      ensures h in old(system.creates) && HasEvent(old(system.creates[h]).reply)
        && Standing(h, context, request, Finished(EventReturned(old(system.creates[h]).reply.value.eventId)))
      ensures system.history.effects == old(system.history.effects)
    {
      hide Reachable, Leads, HasEvent, Inv;
      ReachableInv(system);
      LeavingHasRequest(system, h);
      ReachableNext(system, Action.Complete(h));
      store.CompleteApproval(id);
      system := Next(system, Action.Complete(h));
    }

    method Cancel(ghost h: HandlerId, context: Policy.SecurityContext, id: string, ghost request: Request)
      requires Valid() && Standing(h, context, request, Cancelling) && request.Approve? && request.proposalId == id
      modifies this`system, store`states
      ensures Valid() && Leads(old(system), system)
      ensures store.State() == Store.Leaving(old(store.State()), id, Store.Pending)
      ensures Standing(h, context, request, Finished(CalendarFailed))
      ensures system.history.effects == old(system.history.effects)
    {
      hide Reachable, Leads, HasEvent, Inv;
      ReachableInv(system);
      LeavingHasRequest(system, h);
      ReachableNext(system, Action.Cancel(h));
      store.CancelApproval(id);
      system := Next(system, Action.Cancel(h));
    }

    // ----- Deny -----

    method DenyStored(ghost h: HandlerId, context: Policy.SecurityContext, id: string, ghost request: Request)
      returns (error: Option<Store.StoreError>)
      requires Valid() && Standing(h, context, request, Denying) && request.Deny? && request.proposalId == id
      modifies this`system, store`states
      ensures Valid() && Leads(old(system), system)
      ensures (store.State(), error) == Store.Denying(old(store.State()), id)
      ensures Standing(h, context, request,
                       Finished(if error == None then ProposalDenied else StoreRefused(error.value)))
      ensures system.history.effects == old(system.history.effects)
    {
      hide Reachable, Leads;
      ReachableNext(system, DenyProposal(h));
      StoreIsSound();
      error := store.Deny(id);
      system := Next(system, DenyProposal(h));
    }

    // ----- The handlers -----

    /** Whether the policy lets the Owner resolve the proposal. */
    ghost predicate Permits(context: Policy.SecurityContext, tool: string, id: string, answer: Option<Answer>, now: int)
    {
      answer.Some? && Policy.Authorization(Policy.ExecuteInput(context, tool, Policy.ReferenceArguments(id)), now).allow
    }

    /** The operation of a stored proposal that is not denied. */
    ghost predicate Reviewable(id: string)
      reads store
    {
      Store.Reviewing(store.State(), id).Review?
    }

    ghost function OperationOf(id: string): Store.Operation
      requires id in store.proposals
      reads store
    {
      Store.OperationFor(store.proposals[id])
    }

    /** The binding presented for a proposal, if it is one that can be reviewed. */
    ghost function ExactFor(context: Policy.SecurityContext, id: string): Option<Authority.Binding>
      reads store
    {
      if Reviewable(id) then Some(ExactBinding(context, OperationOf(id))) else None
    }

    /** The Authority's nonces after a consumption, if there is one. */
    ghost function Spent(permitted: bool, token: string, binding: Option<Authority.Binding>, now: int,
                         append: Authority.Append):
      Authority.NonceState
      reads authority, authority.file
    {
      if permitted && binding.Some?
      then Authority.Consuming(authority.State(), token, authority.config.Open(token), binding.value, now, append).0
      else authority.State()
    }

    /** The Authority's nonces after a handler of this tool has tried to consume an Approval for the proposal. */
    ghost function SpentFor(tool: string, context: Policy.SecurityContext, id: string, token: string,
                            answer: Option<Answer>, now: int, append: Authority.Append): Authority.NonceState
      reads store, authority, authority.file
    {
      Spent(Permits(context, tool, id, answer, now), token, ExactFor(context, id), now, append)
    }

    /** What the front of the approve and the deny handler answers, if it does not go on. */
    ghost function Refusal(context: Policy.SecurityContext, tool: string, id: string, token: string,
                           answer: Option<Answer>, now: int, append: Authority.Append, replied: bool): Option<Result>
      reads store, authority, authority.file
    {
      if !Permits(context, tool, id, answer, now) then Some(PolicyRefused)
      else
        match Store.Reviewing(store.State(), id)
        case ReviewFailed(error) => Some(StoreRefused(error))
        case Review(operation) =>
          if Accepts(token, ExactBinding(context, operation), now, append, replied) then None else Some(ApprovalRefused)
    }

    /** The front of the approve and the deny handler: policy, review, and consumption of the exact Approval. */
    method Prepare(ghost h: HandlerId, context: Policy.SecurityContext, tool: string, id: string, token: string,
                   answer: Option<Answer>, now: int, append: Authority.Append, replied: bool, ghost request: Request)
      returns (refused: Option<Result>)
      requires Valid() && h !in system.handlers && !request.Unlock? && request.proposalId == id
        && tool == ToolOf(request)
      requires request.token == TokenOf(authority.config, token)
      requires request.token.Opens? ==> Genuine(system.history, request.token)
      requires answer.Some? ==> GoodAnswer(answer.value)
      modifies this`system, authority`used, authority`stateErr, authority`consumeCount, authority.file
      ensures Valid() && Leads(old(system), system)
      ensures refused == old(Refusal(context, tool, id, token, answer, now, append, replied))
      ensures Standing(h, context, request, if refused == None then AfterConsumed(request) else Finished(refused.value))
      ensures system.history.effects == old(system.history.effects)
      ensures authority.State() == old(SpentFor(tool, context, id, token, answer, now, append))
    {
      hide Reachable, Leads, GoodAnswer, Genuine, Policy.Authorization, Authority.Consuming, ExactBinding,
        Store.OperationFor, AfterConsumed, Valid, TokenOf;
      ghost var start := system;
      Enter(h, context, request, now);
      ghost var entered := system;
      var decision := Authorize(h, context, tool, Policy.ReferenceArguments(id), answer, now, request);
      LeadsOn(start, entered, system);
      if decision == None || !decision.value.allow { return Some(PolicyRefused); }
      ghost var authorized := system;
      var reviewed := Review(h, context, id, request);
      LeadsOn(start, authorized, system);
      if reviewed.ReviewFailed? { return Some(StoreRefused(reviewed.error)); }
      ghost var called := system;
      var ok := ConsumeExact(h, context, token, ExactBinding(context, reviewed.operation), now, append, replied,
                             request);
      LeadsOn(start, called, system);
      refused := if ok then None else Some(ApprovalRefused);
    }

    /** The calendar is asked for the event. The request may not arrive in time, and the answer may not come back. */
    method CreateEvent(ghost h: HandlerId, context: Policy.SecurityContext, arguments: Store.EventArguments,
                       delivered: bool, replied: bool, ghost request: Request, ghost retry: bool)
      returns (eventId: Option<string>)
      requires Valid() && Standing(h, context, request, Creating(retry))
      requires h in system.creates && system.creates[h] == CreateCall(arguments, None)
      modifies this`system, calendar
      ensures Valid() && Leads(old(system), system)
      ensures calendar.events ==
        if delivered then Calendar.Creating(old(calendar.events), arguments).0 else old(calendar.events)
      ensures eventId.Some? <==> delivered && replied && Calendar.ValidEvent(arguments)
      ensures eventId.Some? ==>
        arguments.idempotencyKey in calendar.events
        && eventId.value == calendar.events[arguments.idempotencyKey].eventId
        && calendar.events[arguments.idempotencyKey].arguments == arguments
      ensures Standing(h, context, request,
                       if !retry then (if eventId.Some? then Completing else Cancelling)
                       else if eventId.Some? then Finished(EventReturned(eventId.value)) else Finished(CalendarFailed))
      ensures h in system.creates
        && (eventId.Some? ==>
            HasEvent(system.creates[h].reply) && system.creates[h].reply.value.eventId == eventId.value)
      ensures system.history.effects == old(system.history.effects)
    {
      hide Reachable, Leads, Valid, Standing, Calendar.ValidEvent, Calendar.EventId;
      ghost var start := system;
      LeadsNowhere(start);
      if delivered {
        var reply := Deliver(h, context, arguments, request, retry);
        if (reply.Created? || reply.Existing?) && replied { eventId := Some(reply.eventId); } else { eventId := None; }
      } else {
        eventId := None;
      }
      ghost var delivering := system;
      Hear(h, context, request, retry, eventId.Some?);
      LeadsOn(start, delivering, system);
    }

    ghost predicate Resolvable(id: string, statuses: set<Store.Status>)
      reads store
    {
      id in store.proposals && id in store.states && store.states[id] in statuses
    }

    /** The event of the proposal is stored, and this is its id. */
    ghost predicate Stored(id: string, arguments: Store.EventArguments, eventId: string)
      reads calendar
    {
      Store.IdempotencyKey(id) in calendar.events && calendar.events[Store.IdempotencyKey(id)].arguments == arguments
      && calendar.events[Store.IdempotencyKey(id)].eventId == eventId
    }

    /** What the approve handler answers from begin on: the event's own id if the calendar was reached, took the event
        and was heard. */
    ghost function ApproveEnd(id: string, delivered: bool, replied: bool): Result
      reads store
    {
      match Store.Beginning(store.State(), id).1
      case BeginFailed(error) => StoreRefused(error)
      case Begin(operation, _) =>
        if delivered && replied && Calendar.ValidEvent(operation.arguments) then EventReturned(Calendar.EventId(id))
        else CalendarFailed
    }

    /** What the deny handler answers once the Approval has been consumed. */
    ghost function DenyEnd(id: string): Result
      reads store
    {
      match Store.Denying(store.State(), id).1
      case None => ProposalDenied
      case Some(error) => StoreRefused(error)
    }

    /** The rest of the approve handler, from begin to complete or cancel. */
    method CreateApproved(ghost h: HandlerId, context: Policy.SecurityContext, id: string, delivered: bool,
                          replied: bool, ghost request: Request) returns (result: Result)
      requires Valid() && Standing(h, context, request, Beginning) && request.Approve? && request.proposalId == id
      requires id in store.proposals
      modifies this`system, store`states, calendar
      ensures Valid() && Leads(old(system), system)
      ensures result == old(ApproveEnd(id, delivered, replied))
      ensures result.EventReturned? <==>
        old(Resolvable(id, {Store.Pending, Store.Approved})) && delivered && replied
        && Calendar.ValidEvent(old(OperationOf(id)).arguments)
      ensures result.EventReturned? ==>
        store.states == old(store.states)[id := Store.Approved]
        && Stored(id, old(OperationOf(id)).arguments, result.eventId)
      ensures !result.EventReturned? ==> store.states == old(store.states)
      ensures calendar.events ==
        if old(Resolvable(id, {Store.Pending, Store.Approved})) && delivered
        then Calendar.Creating(old(calendar.events), old(OperationOf(id)).arguments).0 else old(calendar.events)
      ensures Standing(h, context, request, Finished(result))
      ensures if old(Resolvable(id, {Store.Pending, Store.Approved})) then Asking(h, old(OperationOf(id)).arguments)
              else system.history.effects == old(system.history.effects)
    {
      hide Reachable, Leads, Valid, Calendar.Creating, Calendar.ValidEvent, Calendar.EventId, Standing,
        Store.OperationFor, HasEvent;
      ghost var start := system;
      StoreIsSound();
      StoredOperation(store.State(), id);
      var begun := Begin(h, context, id, request);
      if begun.BeginFailed? { return StoreRefused(begun.error); }
      ghost var asked := system;
      var event := CreateEvent(h, context, begun.operation.arguments, delivered, replied, request, begun.retry);
      LeadsOn(start, asked, system);
      ghost var answered := system;
      if event == None {
        if !begun.retry {
          Cancel(h, context, id, request);
          LeadsOn(start, answered, system);
        }
        return CalendarFailed;
      }
      EventIsNamed(begun.operation.arguments.idempotencyKey);
      if !begun.retry {
        Complete(h, context, id, request);
        LeadsOn(start, answered, system);
      }
      result := EventReturned(event.value);
    }

    /** The event stored under the proposal's key says what the proposal says. */
    lemma StoredSays(id: string, eventId: string)
      requires Valid() && id in store.proposals && Stored(id, OperationOf(id).arguments, eventId)
      ensures "meeting-proposal:" + id in calendar.events
        && Store.EventSays(calendar.events["meeting-proposal:" + id].arguments, store.proposals[id])
    {
      hide Reachable;
      StoreIsSound();
    }

    /** The policy permits approving, the proposal is pending or approved, and the Authority accepts the exact
        Approval. */
    ghost predicate Approvable(context: Policy.SecurityContext, id: string, token: string, answer: Option<Answer>,
                               now: int, append: Authority.Append, replied: bool)
      reads store, authority, authority.file
      ensures Approvable(context, id, token, answer, now, append, replied) ==> id in store.proposals
    {
      Permits(context, Policy.APPROVE_PROPOSAL, id, answer, now) && Resolvable(id, {Store.Pending, Store.Approved})
      && Accepts(token, ExactBinding(context, OperationOf(id)), now, append, replied)
    }

    /** Approve: the event is created after the Owner's exact Approval has been consumed. The handler returns the event
        exactly when the policy permits, the proposal is pending or approved, the Authority accepts, and the calendar
        is reached, accepts the event and is heard; then the proposal is approved and its event stored. Otherwise the
        store is as it was; the event may be stored all the same, exactly when the request was accepted and delivered.
        In the run that this is, handler h ends with this result, and has called the calendar exactly when accepted. */
    method Approve(ghost h: HandlerId, context: Policy.SecurityContext, id: string, token: string,
                   answer: Option<Answer>, now: int, append: Authority.Append, consumeReplied: bool, delivered: bool,
                   replied: bool)
      returns (result: Result)
      requires Valid() && h !in system.handlers && (answer.Some? ==> GoodAnswer(answer.value))
      requires TokenOf(authority.config, token).Opens? ==> Genuine(system.history, TokenOf(authority.config, token))
      modifies this`system, store`states, authority`used, authority`stateErr, authority`consumeCount, authority.file,
        calendar
      ensures Valid() && Leads(old(system), system)
      ensures var refusal :=
          old(Refusal(context, Policy.APPROVE_PROPOSAL, id, token, answer, now, append, consumeReplied));
        result == if refusal.Some? then refusal.value else old(ApproveEnd(id, delivered, replied))
      ensures result.EventReturned? <==>
        old(Approvable(context, id, token, answer, now, append, consumeReplied))
        && delivered && replied && Calendar.ValidEvent(old(OperationOf(id)).arguments)
      ensures result.EventReturned? ==>
        store.states == old(store.states)[id := Store.Approved]
        && Stored(id, old(OperationOf(id)).arguments, result.eventId)
      ensures result.EventReturned? ==>
        id in store.proposals && "meeting-proposal:" + id in calendar.events
        && Store.EventSays(calendar.events["meeting-proposal:" + id].arguments, store.proposals[id])
        && result.eventId == "demo-event-" + TrimPrefix(id, "proposal-")
      ensures !result.EventReturned? ==> store.states == old(store.states)
      ensures authority.State() == old(SpentFor(Policy.APPROVE_PROPOSAL, context, id, token, answer, now, append))
      ensures calendar.events ==
        if old(Approvable(context, id, token, answer, now, append, consumeReplied)) && delivered
        then Calendar.Creating(old(calendar.events), old(OperationOf(id)).arguments).0 else old(calendar.events)
      ensures Standing(h, context, Request.Approve(id, TokenOf(authority.config, token)), Finished(result))
      ensures h in system.history.effects <==> old(Approvable(context, id, token, answer, now, append, consumeReplied))
      ensures h in system.history.effects ==> Asking(h, old(OperationOf(id)).arguments)
    {
      hide Reachable, Leads, GoodAnswer, Genuine, Policy.Authorization, Authority.Consuming, ExactBinding, Valid,
        TokenOf, Calendar.Creating, Calendar.ValidEvent, Standing, Permits, Accepts, Stored, Store.OperationFor,
        SpentFor, Store.EventSays;
      ghost var start := system;
      ghost var request := Request.Approve(id, TokenOf(authority.config, token));
      StoreIsSound();
      NothingYet(h);
      var refused := Prepare(h, context, Policy.APPROVE_PROPOSAL, id, token, answer, now, append, consumeReplied,
                             request);
      if refused.Some? { return refused.value; }
      ghost var prepared := system;
      result := CreateApproved(h, context, id, delivered, replied, request);
      LeadsOn(start, prepared, system);
      if result.EventReturned? { StoredSays(id, result.eventId); }
    }

    /** Deny: exactly when the policy permits, the proposal is pending and the Authority accepts, the proposal is
        denied; otherwise the store is as it was. The calendar is not touched. */
    method Deny(ghost h: HandlerId, context: Policy.SecurityContext, id: string, token: string, answer: Option<Answer>,
                now: int, append: Authority.Append, consumeReplied: bool)
      returns (result: Result)
      requires Valid() && h !in system.handlers && (answer.Some? ==> GoodAnswer(answer.value))
      requires TokenOf(authority.config, token).Opens? ==> Genuine(system.history, TokenOf(authority.config, token))
      modifies this`system, store`states, authority`used, authority`stateErr, authority`consumeCount, authority.file
      ensures Valid() && Leads(old(system), system)
      ensures var refusal :=
          old(Refusal(context, Policy.DENY_PROPOSAL, id, token, answer, now, append, consumeReplied));
        result == if refusal.Some? then refusal.value else old(DenyEnd(id))
      ensures result == ProposalDenied <==>
        Permits(context, Policy.DENY_PROPOSAL, id, answer, now) && old(Resolvable(id, {Store.Pending}))
        && old(Accepts(token, ExactBinding(context, OperationOf(id)), now, append, consumeReplied))
      ensures authority.State() == old(SpentFor(Policy.DENY_PROPOSAL, context, id, token, answer, now, append))
      ensures store.states ==
        if result == ProposalDenied then old(store.states)[id := Store.Denied] else old(store.states)
      ensures Standing(h, context, Request.Deny(id, TokenOf(authority.config, token)), Finished(result))
      ensures system.history.effects == old(system.history.effects)
    {
      hide Reachable, Leads, GoodAnswer, Genuine, Policy.Authorization, Authority.Consuming, ExactBinding, Valid,
        TokenOf, Standing, Permits, Accepts, SpentFor;
      ghost var start := system;
      ghost var request := Request.Deny(id, TokenOf(authority.config, token));
      StoreIsSound();
      var refused := Prepare(h, context, Policy.DENY_PROPOSAL, id, token, answer, now, append, consumeReplied, request);
      if refused.Some? { return refused.value; }
      ghost var prepared := system;
      var error := DenyStored(h, context, id, request);
      LeadsOn(start, prepared, system);
      result := if error == None then ProposalDenied else StoreRefused(error.value);
    }

    // ----- Unlock -----

    ghost predicate MayUnlock(context: Policy.SecurityContext, device: string, answer: Option<Answer>, now: int) {
      answer.Some? && UnlockGrant(context, device, now).allow
    }

    /** Evidence of a refused unlock: stored exactly when the sink is reached and there is something to correlate it by.
        Without a policy answer and a trace there is nothing, and the collector does not take it. */
    method RefuseUnlock(ghost h: HandlerId, context: Policy.SecurityContext, decision: Option<Audit.Decision>,
                        traceId: string, reason: string, delivered: bool, ghost request: Request, ghost result: Result)
      requires Valid() && Standing(h, context, request, Finished(result))
      modifies this`system, collector
      ensures Valid() && Leads(old(system), system) && Standing(h, context, request, Finished(result))
      ensures system.history == old(system.history)
      ensures if delivered && Correlates(context, decision, traceId, reason)
        then OneMore(old(collector.records), collector.records)
             && IsRefusal(collector.records[|old(collector.records)|], context, decision, traceId, reason)
        else collector.records == old(collector.records)
    {
      hide Valid, Leads, Audit.Valid, Audit.DetailedRecord, IsRefusal;
      var found := if decision == None then Audit.NO_DECISION.(decisionId := "unavailable") else decision.value;
      assert found == Found(decision);
      var record := Audit.DetailedRecord(context, "execute", Policy.UNLOCK_LOCK, found, traceId, "deny", reason, map[],
                                         0);
      Audit.DetailedRecordValid(context, "execute", Policy.UNLOCK_LOCK, found, traceId, "deny", reason, map[], 0);
      RecordIsRefusal(context, decision, traceId, reason);
      RecordRefusal(record, delivered);
    }

    method RecordRefusal(record: Audit.AuditRecord, delivered: bool)
      requires Valid()
      modifies this`system, collector
      ensures Valid() && Leads(old(system), system)
      ensures system.handlers == old(system.handlers) && system.history == old(system.history)
      ensures collector.records ==
        if delivered && Audit.Valid(record) then old(collector.records) + [record] else old(collector.records)
    {
      hide Reachable, Leads, Audit.Valid;
      LeadsNowhere(system);
      if delivered {
        var accepted := collector.PostRecord(record);
        if accepted {
          ReachableNext(system, Collect(record));
          system := Next(system, Collect(record));
        }
      }
    }

    /** The record that has to be stored before the lock is called. */
    method RecordEvidence(ghost h: HandlerId, context: Policy.SecurityContext, traceId: string,
                          decision: Audit.Decision, delivered: bool, replied: bool, ghost request: Request)
      returns (ok: bool)
      requires Valid() && Standing(h, context, request, Auditing) && request.Unlock? && request.traceId == traceId
      requires system.handlers[h].decision == decision && decision.reason != ""
      modifies this`system, collector
      ensures Valid() && Leads(old(system), system)
      ensures ok <==> delivered && replied
      ensures Standing(h, context, request, if ok then Opening else Finished(AuditFailed))
      ensures delivered ==>
        OneMore(old(collector.records), collector.records)
        && IsUnlockEvidence(collector.records[|old(collector.records)|], context, decision, traceId)
      ensures !delivered ==> collector.records == old(collector.records)
      ensures system.history.effects == old(system.history.effects)
    {
      hide Reachable, Leads, Inv, Audit.Valid, Audit.DetailedRecord, Next, IsUnlockEvidence;
      ReachableInv(system);
      var record := Audit.DetailedRecord(context, "execute", Policy.UNLOCK_LOCK, decision, traceId, "allow",
                                         decision.reason, map[], 0);
      EvidenceIsValid(system, h, record);
      RecordIsEvidence(context, decision, traceId);
      ghost var after := AuditRun(system, h, delivered, replied, record);
      ok := false;
      if delivered {
        var accepted := collector.PostRecord(record);
        ok := accepted && replied;
      }
      system := after;
    }

    /** The call to the lock leaves the gateway. */
    ghost method SendUnlock(h: HandlerId, context: Policy.SecurityContext, device: string, request: Request)
      requires Valid() && Standing(h, context, request, Opening) && request.Unlock? && request.device == device
      modifies this`system
      ensures Valid() && Leads(old(system), system) && Standing(h, context, request, Unlocking)
      ensures h in system.unlocks && system.unlocks[h] == UnlockCall(device, None) && Ringing(h, device)
    {
      hide Reachable, Leads;
      ReachableNext(system, Action.CallLock(h));
      system := Next(system, Action.CallLock(h));
    }

    method DeliverUnlock(ghost h: HandlerId, context: Policy.SecurityContext, device: string, ghost request: Request)
      returns (answer: Lock.Answer)
      requires Valid() && Standing(h, context, request, Unlocking) && h in system.unlocks
        && system.unlocks[h] == UnlockCall(device, None)
      modifies this`system, lock
      ensures Valid() && Leads(old(system), system) && Standing(h, context, request, Unlocking)
      ensures h in system.unlocks && system.unlocks[h] == UnlockCall(device, Some(answer))
      ensures (lock.State(), answer) == Lock.Unlocking(old(lock.State()), device)
      ensures system.history.effects == old(system.history.effects)
    {
      hide Reachable, Leads, Lock.Unlocking;
      LockIsSound();
      ReachableNext(system, UnlockArrives(h));
      answer := lock.PostUnlock(device);
      system := Next(system, UnlockArrives(h));
    }

    ghost method HearUnlock(h: HandlerId, context: Policy.SecurityContext, request: Request, heard: bool)
      requires Valid() && Standing(h, context, request, Unlocking)
      requires heard ==> h in system.unlocks && system.unlocks[h].answer == Some(Lock.Unlocked)
      modifies this`system
      ensures Valid() && Leads(old(system), system)
      ensures Standing(h, context, request, Finished(if heard then LockOpened else LockFailed))
      ensures system.history.effects == old(system.history.effects)
    {
      hide Reachable, Leads;
      var a := if heard then UnlockReturns(h) else UnlockFails(h);
      ReachableNext(system, a);
      system := Next(system, a);
    }

    /** The lock is called; the request may not arrive in time, and the answer may not come back. */
    method CallLock(ghost h: HandlerId, context: Policy.SecurityContext, device: string, delivered: bool,
                    replied: bool, ghost request: Request) returns (unlocked: bool)
      requires Valid() && Standing(h, context, request, Opening) && request.Unlock? && request.device == device
      modifies this`system, lock
      ensures Valid() && Leads(old(system), system)
      ensures lock.State() == if delivered then Lock.Unlocking(old(lock.State()), device).0 else old(lock.State())
      ensures unlocked <==> delivered && replied && Lock.Unlocking(old(lock.State()), device).1 == Lock.Unlocked
      ensures Standing(h, context, request, Finished(if unlocked then LockOpened else LockFailed)) && Ringing(h, device)
    {
      hide Reachable, Leads, Valid, Standing, Lock.Unlocking;
      ghost var start := system;
      SendUnlock(h, context, device, request);
      ghost var sent := system;
      unlocked := false;
      if delivered {
        var answer := DeliverUnlock(h, context, device, request);
        LeadsOn(start, sent, system);
        unlocked := answer == Lock.Unlocked && replied;
      }
      ghost var waiting := system;
      HearUnlock(h, context, request, unlocked);
      LeadsOn(start, waiting, system);
    }

    lemma LockIsSound()
      requires Valid()
      ensures Lock.Valid(lock.State())
    {
      hide Reachable;
      LockOpensOncePerReset(system);
    }

    /** What the front of the unlock handler answers, if it does not go on. */
    ghost function UnlockRefusal(context: Policy.SecurityContext, device: string, traceId: string, token: string,
                                 answer: Option<Answer>, now: int, append: Authority.Append, replied: bool):
      Option<Result>
      reads authority, authority.file
    {
      if !MayUnlock(context, device, answer, now) then Some(PolicyRefused)
      else if !Accepts(token, UnlockBinding(context, device, traceId), now, append, replied) then Some(ApprovalRefused)
      else None
    }

    /** The evidence a refused unlock leaves: after a policy answer for a caller with actor and channel, and after every
        refusal by the Authority, deny evidence if the sink was reached; without a policy answer none. */
    ghost predicate RefusalRecorded(before: seq<Audit.AuditRecord>, result: Result, context: Policy.SecurityContext,
                                    device: string, answer: Option<Answer>, now: int, answered: string, recorded: bool)
      reads collector
    {
      var decision := UnlockDecision(context, device, answer, now);
      if result == PolicyRefused then
        if recorded && answer.Some? && context.actor != "" && context.channel != ""
        then OneMore(before, collector.records)
             && IsRefusal(collector.records[|before|], context, decision, "", UnlockGrant(context, device, now).reason)
        else collector.records == before
      else if recorded then
        OneMore(before, collector.records)
        && IsRefusal(collector.records[|before|], context, decision, answered, "exact_approval_denied")
      else collector.records == before
    }

    /** The evidence an unlock leaves that was permitted and whose Approval was accepted: if the sink was reached, allow
        evidence with the decision that permitted it. */
    ghost predicate EvidenceRecorded(before: seq<Audit.AuditRecord>, context: Policy.SecurityContext,
                                     decision: Option<Audit.Decision>, traceId: string, recorded: bool)
      reads collector
    {
      if recorded then
        decision.Some? && OneMore(before, collector.records)
        && IsUnlockEvidence(collector.records[|before|], context, decision.value, traceId)
      else collector.records == before
    }

    /** The front of the unlock handler: policy, consumption of the exact Approval, and the evidence of a refusal. */
    method PrepareUnlock(ghost h: HandlerId, context: Policy.SecurityContext, device: string, traceId: string,
                         token: string, answer: Option<Answer>, now: int, append: Authority.Append, replied: bool,
                         recorded: bool, ghost request: Request)
      returns (refused: Option<Result>, decision: Audit.Decision)
      requires Valid() && h !in system.handlers && (answer.Some? ==> GoodAnswer(answer.value))
      requires request == Request.Unlock(device, traceId, TokenOf(authority.config, token))
      requires request.token.Opens? ==> Genuine(system.history, request.token)
      modifies this`system, authority`used, authority`stateErr, authority`consumeCount, authority.file, collector
      ensures Valid() && Leads(old(system), system)
      ensures Standing(h, context, request, if refused == None then Auditing else Finished(refused.value))
      ensures refused == old(UnlockRefusal(context, device, traceId, token, answer, now, append, replied))
      ensures refused.Some? ==>
        RefusalRecorded(old(collector.records), refused.value, context, device, answer, now,
                        AnsweredTrace(authority.config, token, !old(authority.stateErr) && replied, traceId), recorded)
      ensures refused == None ==>
        collector.records == old(collector.records) && system.handlers[h].decision == decision && decision.reason != ""
        && UnlockDecision(context, device, answer, now) == Some(decision)
      ensures authority.State() ==
        old(Spent(MayUnlock(context, device, answer, now), token, Some(UnlockBinding(context, device, traceId)), now,
                  append))
      ensures system.history.effects == old(system.history.effects)
    {
      hide Reachable, Leads, GoodAnswer, Genuine, Policy.Authorization, Authority.Consuming, UnlockBinding, Valid,
        TokenOf, Standing, Accepts, IsRefusal, OneMore, AnsweredTrace, Correlates;
      AllowedUnlock(context, device, now);
      ghost var grant := UnlockGrant(context, device, now);
      ghost var start := system;
      Enter(h, context, request, now);
      ghost var entered := system;
      var decided := Authorize(h, context, Policy.UNLOCK_LOCK, Authority.DeviceArguments(device), answer, now, request);
      LeadsOn(start, entered, system);
      ghost var authorized := system;
      decision := if decided == None then Audit.NO_DECISION else decided.value;
      if decided == None || !decided.value.allow {
        NothingCorrelates(context, "policy_unavailable");
        if answer.Some? { DecisionCorrelates(context, grant, answer.value, "", grant.reason); }
        RefuseUnlock(h, context, decided, "", if decided == None then "policy_unavailable" else decision.reason,
                     recorded, request, PolicyRefused);
        LeadsOn(start, authorized, system);
        return Some(PolicyRefused), decision;
      }
      var available := !authority.stateErr && replied;
      var ok := ConsumeExact(h, context, token, UnlockBinding(context, device, traceId), now, append, replied, request);
      LeadsOn(start, authorized, system);
      ghost var consumed := system;
      if !ok {
        var claims := if available && token != "" then authority.config.Open(token) else None;
        var trace := if claims.Some? && claims.value.traceId != "" then claims.value.traceId else traceId;
        AnsweredTraceIs(authority.config, token, available, traceId, claims, trace);
        DecisionCorrelates(context, grant, answer.value, trace, "exact_approval_denied");
        RefuseUnlock(h, context, decided, trace, "exact_approval_denied", recorded, request, ApprovalRefused);
        LeadsOn(start, consumed, system);
        return Some(ApprovalRefused), decision;
      }
      refused := None;
    }

    /** The rest of the unlock handler, once the Approval has been consumed: evidence, then the lock. */
    method OpenRecorded(ghost h: HandlerId, context: Policy.SecurityContext, device: string, traceId: string,
                        decision: Audit.Decision, recorded: bool, recordReplied: bool, delivered: bool, replied: bool,
                        ghost request: Request) returns (result: Result)
      requires Valid() && Standing(h, context, request, Auditing) && h !in system.history.effects
      requires request.Unlock? && request.traceId == traceId && request.device == device == Lock.DEMO_DEVICE
      requires system.handlers[h].decision == decision && decision.reason != ""
      modifies this`system, collector, lock
      ensures Valid() && Leads(old(system), system)
      ensures result ==
        if !recorded || !recordReplied then AuditFailed
        else if delivered && replied && !old(lock.unlocked) then LockOpened else LockFailed
      ensures lock.State() ==
        if result in {LockOpened, LockFailed} && delivered then Lock.Unlocking(old(lock.State()), device).0
        else old(lock.State())
      ensures recorded ==>
        OneMore(old(collector.records), collector.records)
        && IsUnlockEvidence(collector.records[|old(collector.records)|], context, decision, traceId)
      ensures !recorded ==> collector.records == old(collector.records)
      ensures Standing(h, context, request, Finished(result))
      ensures h in system.history.effects <==> result in {LockOpened, LockFailed}
      ensures h in system.history.effects ==> Ringing(h, device)
    {
      hide Reachable, Leads, Valid, Standing, IsUnlockEvidence, OneMore;
      ghost var start := system;
      var stored := RecordEvidence(h, context, traceId, decision, recorded, recordReplied, request);
      if !stored { return AuditFailed; }
      ghost var evident := system;
      var unlocked := CallLock(h, context, device, delivered, replied, request);
      LeadsOn(start, evident, system);
      result := if unlocked then LockOpened else LockFailed;
    }

    /** Unlock: the lock is called after the Owner's exact Approval has been consumed and evidence of it is stored. The
        contract gives the answer, the lock and the evidence exactly: the lock is called, and its state can change, only
        once the policy permits, the Authority accepts and the evidence is stored and acknowledged. In the run that this
        is, handler h ends with this result, and has called the lock exactly then. */
    method Unlock(ghost h: HandlerId, context: Policy.SecurityContext, device: string, traceId: string, token: string,
                  answer: Option<Answer>, now: int, append: Authority.Append, consumeReplied: bool, recorded: bool,
                  recordReplied: bool, delivered: bool, replied: bool)
      returns (result: Result)
      requires Valid() && h !in system.handlers && (answer.Some? ==> GoodAnswer(answer.value))
      requires TokenOf(authority.config, token).Opens? ==> Genuine(system.history, TokenOf(authority.config, token))
      modifies this`system, authority`used, authority`stateErr, authority`consumeCount, authority.file, collector, lock
      ensures Valid() && Leads(old(system), system)
      ensures var refusal := old(UnlockRefusal(context, device, traceId, token, answer, now, append, consumeReplied));
        result ==
          if refusal.Some? then refusal.value
          else if !recorded || !recordReplied then AuditFailed
          else if delivered && replied && !old(lock.unlocked) then LockOpened else LockFailed
      ensures lock.State() ==
        if result in {LockOpened, LockFailed} && delivered then Lock.Unlocking(old(lock.State()), device).0
        else old(lock.State())
      ensures result == LockOpened ==> lock.unlocked && !old(lock.unlocked)
      ensures result in {PolicyRefused, ApprovalRefused} ==>
        RefusalRecorded(old(collector.records), result, context, device, answer, now,
                        AnsweredTrace(authority.config, token, !old(authority.stateErr) && consumeReplied, traceId),
                        recorded)
      ensures result in {AuditFailed, LockFailed, LockOpened} ==>
        EvidenceRecorded(old(collector.records), context, UnlockDecision(context, device, answer, now), traceId,
                         recorded)
      ensures authority.State() ==
        old(Spent(MayUnlock(context, device, answer, now), token, Some(UnlockBinding(context, device, traceId)), now,
                  append))
      ensures Standing(h, context, Request.Unlock(device, traceId, TokenOf(authority.config, token)), Finished(result))
      ensures h in system.history.effects <==> result in {LockOpened, LockFailed}
      ensures h in system.history.effects ==> Ringing(h, device)
    {
      hide Reachable, Leads, GoodAnswer, Genuine, Policy.Authorization, UnlockBinding, Valid, TokenOf, Standing,
        Accepts, IsUnlockEvidence, RefusalRecorded, OneMore, AnsweredTrace, Spent, UnlockGrant, Ringing;
      ghost var start := system;
      ghost var request := Request.Unlock(device, traceId, TokenOf(authority.config, token));
      NothingYet(h);
      AllowedUnlock(context, device, now);
      var refused, decision := PrepareUnlock(h, context, device, traceId, token, answer, now, append, consumeReplied,
                                             recorded,
                                             request);
      if refused.Some? { return refused.value; }
      ghost var prepared := system;
      result := OpenRecorded(h, context, device, traceId, decision, recorded, recordReplied, delivered, replied,
                             request);
      LeadsOn(start, prepared, system);
    }
  }
}
