/** The gateway's tool listing and its proposal submission (internal/gateway/gateway.go). */
module GatewayTools {
  import opened Text
  import opened CanonicalJson
  import Policy
  import Audit
  import Protocol
  import Store = MeetingStore
  import Calendar = CalendarServer
  import CalendarGateway

  /** What the policy client returns for one question: nothing when the policy cannot be reached, otherwise the grant
      with the identifiers of the answer. */
  function Decide(input: Policy.Input, now: int, answer: Option<Protocol.Answer>): Option<Audit.Decision> {
    if answer == None then None else Some(Protocol.Decided(Policy.Authorization(input, now), answer.value))
  }

  // ----- tools/list -----

  function DiscoverInput(context: Policy.SecurityContext, tool: string): Policy.Input {
    Policy.Input(context, "discover", tool, Null, None, None)
  }

  predicate Shown(context: Policy.SecurityContext, tool: string, answer: Option<Protocol.Answer>, now: int) {
    answer.Some? && Policy.Authorization(DiscoverInput(context, tool), now).allow
  }

  /** A tool is shown when the policy answers and the call comes by the tool's own route; arguments do not matter. */
  lemma ShownExactly(context: Policy.SecurityContext, tool: string, answer: Option<Protocol.Answer>, now: int)
    ensures Shown(context, tool, answer, now) <==>
      answer.Some? && tool in Policy.ROUTES && Policy.Comes(context, Policy.ROUTES[tool])
  {
    hide Policy.Authorization, Policy.Comes;
    Policy.AuthorizationExactly(DiscoverInput(context, tool), now);
    assert tool in Policy.ROUTES && Policy.Comes(context, Policy.ROUTES[tool]) && tool == "smart_lock.unlock" ==>
      context.subject == "owner-subject-id" by { Policy.LockIsOwners(context); }
    if tool in Policy.ROUTES { Policy.DiscoveriesAllow(tool); }
  }

  /** The positions of the tools that are shown, in order. */
  function Kept(context: Policy.SecurityContext, tools: seq<string>, answers: seq<Option<Protocol.Answer>>, now: int):
    (kept: seq<nat>)
    requires |answers| == |tools|
    ensures forall k :: 0 <= k < |kept| ==> kept[k] < |tools|
    ensures forall j, k :: 0 <= j < k < |kept| ==> kept[j] < kept[k]
    ensures forall i :: 0 <= i < |tools| ==> (i in kept <==> Shown(context, tools[i], answers[i], now))
  {
    if tools == [] then []
    else
      var n := |tools| - 1;
      var front := Kept(context, tools[..n], answers[..n], now);
      assert forall i :: 0 <= i < n ==> tools[..n][i] == tools[i] && answers[..n][i] == answers[i];
      if Shown(context, tools[n], answers[n], now) then front + [n] else front
  }

  /** The evidence of a discovery of the lock, allowed or not. */
  function DiscoveryRecord(context: Policy.SecurityContext, answer: Option<Protocol.Answer>, traceId: string, now: int):
    Audit.AuditRecord
  {
    var decision := Decide(DiscoverInput(context, Policy.UNLOCK_LOCK), now, answer);
    if decision == None then
      Audit.DetailedRecord(context, "discover", Policy.UNLOCK_LOCK, Audit.NO_DECISION, traceId, "deny",
                           "policy_unavailable", map[], 0)
    else
      Audit.DetailedRecord(context, "discover", Policy.UNLOCK_LOCK, decision.value, traceId,
                           if decision.value.allow then "allow" else "deny", decision.value.reason, map[], 0)
  }

  lemma DiscoveryRecordValid(context: Policy.SecurityContext, answer: Option<Protocol.Answer>, traceId: string,
                             now: int)
    requires traceId != "" && context.actor != "" && context.channel != ""
    ensures Audit.Valid(DiscoveryRecord(context, answer, traceId, now))
    ensures var record := DiscoveryRecord(context, answer, traceId, now);
      record.traceId == traceId && record.operation == "discover" && record.tool == "smart_lock.unlock"
      && record.actor == context.actor && record.channel == context.channel
      && (record.subjectKind == "owner" <==> context.subject == "owner-subject-id")
      && record.subjectRef == Audit.SubjectRef(context.subject)
      && record.safeArguments == map[] && record.durationMicros == 0
      && (record.outcome == "allow" <==> Shown(context, Policy.UNLOCK_LOCK, answer, now))
      && if answer == None then
           record.reason == record.rule == "policy_unavailable"
           && record.decisionId == record.policyRevision == "unavailable" && record.correlationId == traceId
         else
           record.reason == record.rule == Policy.Authorization(DiscoverInput(context, Policy.UNLOCK_LOCK), now).reason
           && (answer.value.decisionId != "" ==> record.decisionId == answer.value.decisionId)
           && (answer.value.correlationId != "" ==> record.correlationId == answer.value.correlationId)
           && (answer.value.policyRevision != "" ==> record.policyRevision == answer.value.policyRevision)
  {
    hide Audit.Valid, Policy.Authorization, Audit.SubjectKind, Audit.SubjectRef;
    Audit.KindsAreExclusive(context.subject);
    var decision := Decide(DiscoverInput(context, Policy.UNLOCK_LOCK), now, answer);
    if decision == None {
      Audit.DetailedRecordValid(context, "discover", Policy.UNLOCK_LOCK, Audit.NO_DECISION, traceId, "deny",
                                "policy_unavailable", map[], 0);
    } else {
      Audit.PolicyGivesReason(DiscoverInput(context, Policy.UNLOCK_LOCK), now);
      Audit.DetailedRecordValid(context, "discover", Policy.UNLOCK_LOCK, decision.value, traceId,
                                if decision.value.allow then "allow" else "deny", decision.value.reason, map[], 0);
    }
  }

  /** The evidence of every discovery of the lock in a listing, in order. */
  function Discoveries(context: Policy.SecurityContext, tools: seq<string>, answers: seq<Option<Protocol.Answer>>,
                       traceId: string, now: int): seq<Audit.AuditRecord>
    requires |answers| == |tools|
  {
    if tools == [] then []
    else
      var n := |tools| - 1;
      Discoveries(context, tools[..n], answers[..n], traceId, now)
      + if tools[n] == "smart_lock.unlock" then [DiscoveryRecord(context, answers[n], traceId, now)] else []
  }

  lemma NothingDiscovered(context: Policy.SecurityContext, traceId: string, now: int)
    ensures Discoveries(context, [], [], traceId, now) == []
  {
  }

  lemma DiscoveriesNext(context: Policy.SecurityContext, tools: seq<string>, answers: seq<Option<Protocol.Answer>>,
                        traceId: string, now: int, i: nat)
    requires |answers| == |tools| && i < |tools|
    ensures Discoveries(context, tools[..i + 1], answers[..i + 1], traceId, now) ==
      Discoveries(context, tools[..i], answers[..i], traceId, now)
      + if tools[i] == "smart_lock.unlock" then [DiscoveryRecord(context, answers[i], traceId, now)] else []
  {
    hide DiscoveryRecord;
    assert tools[..i + 1][..i] == tools[..i] && answers[..i + 1][..i] == answers[..i];
  }

  /** Whether the sink takes a record, and whether the gateway hears that it did. */
  datatype Delivery = Delivery(delivered: bool, replied: bool)

  /** The evidence of one discovery of the lock is sent to the sink. */
  method RecordDiscovery(collector: Audit.Collector, context: Policy.SecurityContext, answer: Option<Protocol.Answer>,
                         delivery: Delivery, traceId: string, now: int) returns (ok: bool)
    requires traceId != "" && context.actor != "" && context.channel != ""
    modifies collector
    ensures ok <==> delivery.delivered && delivery.replied
    ensures collector.records ==
      if delivery.delivered then old(collector.records) + [DiscoveryRecord(context, answer, traceId, now)]
      else old(collector.records)
  {
    hide Audit.Valid, DiscoveryRecord;
    ok := false;
    if delivery.delivered {
      DiscoveryRecordValid(context, answer, traceId, now);
      var accepted := collector.PostRecord(DiscoveryRecord(context, answer, traceId, now));
      ok := accepted && delivery.replied;
    }
  }

  lemma KeptNone(context: Policy.SecurityContext, now: int)
    ensures Kept(context, [], [], now) == []
  {
  }

  lemma KeptNext(context: Policy.SecurityContext, tools: seq<string>, answers: seq<Option<Protocol.Answer>>, now: int,
                 i: nat)
    requires |answers| == |tools| && i < |tools|
    ensures Kept(context, tools[..i + 1], answers[..i + 1], now) ==
      Kept(context, tools[..i], answers[..i], now) + if Shown(context, tools[i], answers[i], now) then [i] else []
  {
    hide Shown;
    assert tools[..i + 1][..i] == tools[..i] && answers[..i + 1][..i] == answers[..i];
  }

  /** The listing filter: the tools shown are exactly the allowed ones the policy answered for, in their order; but no
      listing at all is given when the evidence of a discovery of the lock could not be stored. */
  method ListTools(collector: Audit.Collector, context: Policy.SecurityContext, tools: seq<string>,
                   answers: seq<Option<Protocol.Answer>>, deliveries: seq<Delivery>, traceId: string, now: int)
    returns (listed: Option<seq<string>>)
    requires |answers| == |tools| == |deliveries|
    requires traceId != "" && context.actor != "" && context.channel != ""
    modifies collector
    ensures listed == None <==>
      exists i :: 0 <= i < |tools| && tools[i] == Policy.UNLOCK_LOCK
                  && !(deliveries[i].delivered && deliveries[i].replied)
    ensures listed.Some? ==>
      |listed.value| == |Kept(context, tools, answers, now)|
      && forall k :: 0 <= k < |listed.value| ==> listed.value[k] == tools[Kept(context, tools, answers, now)[k]]
    ensures old(collector.records) <= collector.records
    ensures listed.Some? ==>
      collector.records == old(collector.records) + Discoveries(context, tools, answers, traceId, now)
  {
    hide Policy.Authorization, DiscoveryRecord, Kept, Discoveries, DiscoverInput;
    var filtered := [];
    var i := 0;
    ghost var kept: seq<nat> := [];
    KeptNone(context, now);
    NothingDiscovered(context, traceId, now);
    assert tools[..0] == [] && answers[..0] == [];
    while i < |tools|
      invariant 0 <= i <= |tools|
      invariant kept == Kept(context, tools[..i], answers[..i], now) && |filtered| == |kept|
      invariant forall k :: 0 <= k < |filtered| ==> filtered[k] == tools[kept[k]]
      invariant collector.records ==
        old(collector.records) + Discoveries(context, tools[..i], answers[..i], traceId, now)
      invariant forall j :: 0 <= j < i && tools[j] == Policy.UNLOCK_LOCK ==>
        deliveries[j].delivered && deliveries[j].replied
    {
      var decision := Decide(DiscoverInput(context, tools[i]), now, answers[i]);
      KeptNext(context, tools, answers, now, i);
      DiscoveriesNext(context, tools, answers, traceId, now, i);
      if tools[i] == Policy.UNLOCK_LOCK {
        var stored := RecordDiscovery(collector, context, answers[i], deliveries[i], traceId, now);
        if !stored { return None; }
      }
      if decision.Some? && decision.value.allow {
        filtered := filtered + [tools[i]];
        kept := kept + [i];
      }
      i := i + 1;
    }
    assert tools[..i] == tools && answers[..i] == answers;
    listed := Some(filtered);
  }

  /** A tool the context may execute is listed to it, whenever the policy answers. */
  lemma ExecutableIsListed(context: Policy.SecurityContext, tools: seq<string>, answers: seq<Option<Protocol.Answer>>,
                           now: int, i: nat, call: Policy.Input, later: int)
    requires |answers| == |tools| && i < |tools| && answers[i].Some?
    requires call.context == context && call.tool == tools[i] && Policy.Authorization(call, later).allow
    ensures i in Kept(context, tools, answers, now)
  {
    hide Policy.Authorization;
    Policy.ExecuteImpliesDiscover(call, later, DiscoverInput(context, tools[i]), now);
  }

  // ----- calendar.submit_meeting_proposal -----

  datatype Submission = InvalidProposal | Refused | Recorded(proposal: Store.Proposal)

  /** What may be submitted, and by whom: what the gateway takes, in as many characters as sent, by the external subject
      in a Telegram turn that may propose. */
  ghost predicate MaySubmit(context: Policy.SecurityContext, input: Store.ProposalInput) {
    CalendarGateway.Submittable(input) && |input.reason| <= 200 && |input.contact| <= 320
    && context.subject == "external-alice-subject-id" && context.actor == "telegram-agent"
    && context.channel == "telegram" && "calendar.meeting.propose" in context.capabilities
  }

  /** The gateway's own checks and the policy's together. */
  lemma MaySubmitExactly(context: Policy.SecurityContext, input: Store.ProposalInput, now: int)
    requires CalendarGateway.AcceptsProposal(input)
    ensures Policy.Authorization(Protocol.SubmitInput(context, input), now).allow <==> MaySubmit(context, input)
  {
    hide Policy.Authorization, TrimSpace, ByteLength;
    CalendarGateway.AcceptsExactly(input);
    Policy.AuthorizationExactly(Protocol.SubmitInput(context, input), now);
  }

  /** A proposal is recorded exactly when its instants parse, the policy answers, and it may be submitted; then it is
      the external subject's, pending, under a new number, cut to whole seconds and trimmed; and its event is one the
      calendar takes exactly when it starts and ends in different seconds. */
  method SubmitMeeting(store: Store.Store, context: Policy.SecurityContext, start: Option<int>, end: Option<int>,
                       reason: string, contact: string, answer: Option<Protocol.Answer>, now: int)
    returns (result: Submission)
    modifies store
    ensures result.Recorded? <==>
      start.Some? && end.Some? && answer.Some?
      && MaySubmit(context, Store.ProposalInput(start.value, end.value, reason, contact))
    ensures result == InvalidProposal <==>
      !(start.Some? && end.Some?
        && CalendarGateway.Submittable(Store.ProposalInput(start.value, end.value, reason, contact)))
    ensures !result.Recorded? ==> store.State() == old(store.State())
    ensures result.Recorded? ==>
      store.State() ==
        Store.Submitted(old(store.State()), context.subject,
                        CalendarGateway.Trimmed(Store.ProposalInput(start.value, end.value, reason, contact)))
      && result.proposal ==
        Store.Proposal("proposal-" + Decimal(store.next), "meeting-trace-" + Decimal(store.next),
                       start.value / 1_000_000_000, end.value / 1_000_000_000, "external-alice-subject-id",
                       TrimSpace(reason), TrimSpace(contact))
      && result.proposal.proposalId in store.proposals && store.proposals[result.proposal.proposalId] == result.proposal
      && (Calendar.ValidEvent(Store.OperationFor(result.proposal).arguments) <==>
          start.value / 1_000_000_000 != end.value / 1_000_000_000)
  {
    hide Policy.Authorization, TrimSpace, ByteLength, Decimal, Calendar.ValidEvent, Store.OperationFor,
      CalendarGateway.Submittable;
    if start == None || end == None { return InvalidProposal; }
    var input := Store.ProposalInput(start.value, end.value, reason, contact);
    CalendarGateway.AcceptsExactly(input);
    if !CalendarGateway.AcceptsProposal(input) { return InvalidProposal; }
    MaySubmitExactly(context, input, now);
    var decision := Decide(Protocol.SubmitInput(context, input), now, answer);
    if decision == None || !decision.value.allow { return Refused; }
    ghost var n := Store.NextCounter(store.next);
    TrimSpaceIdempotent(reason);
    TrimSpaceIdempotent(contact);
    var proposal := store.Submit(context.subject, CalendarGateway.Trimmed(input));
    CalendarGateway.AcceptedIsCreatable(n, context.subject, input);
    result := Recorded(proposal);
  }
}
