/** Audit evidence: what a tool call observes and the record the gateway builds from it
    (internal/gateway/telemetry.go, internal/gateway/gateway.go), and the collector that accepts records
    (internal/auditserver/server.go). */
module Audit {
  import opened Text
  import opened CanonicalJson
  import opened Policy

  datatype Decision = Decision(allow: bool, correlationId: string, decisionId: string, obligations: seq<string>,
                               policyRevision: string, reason: string)

  const NO_DECISION := Decision(false, "", "", [], "", "")

  datatype AuditRecord = AuditRecord(
    traceId: string, correlationId: string, decisionId: string, subjectKind: string, subjectRef: string,
    actor: string, channel: string, operation: string, tool: string, outcome: string, reason: string,
    safeArguments: map<string, Json>, rule: string, policyRevision: string, obligations: seq<string>,
    durationMicros: int, stage: string)

  // ----- The per-tool allow-list of argument names -----

  const AUDIT_KEYS: map<string, set<string>> := map[
    "mcp.request" := {},
    COFFEE_STATUS := {"station_id"},
    FIND_AVAILABILITY := {"start", "end"},
    SUBMIT_PROPOSAL := {"start", "end"},
    REVIEW_PROPOSAL := {"proposal_id"},
    APPROVE_PROPOSAL := {"proposal_id"},
    DENY_PROPOSAL := {"proposal_id"},
    UNLOCK_LOCK := {"device_id"},
    SEARCH_OUTLOOK := {"limit", "query_length"},
    READ_OUTLOOK := {"message_id"},
    READ_REPOSITORY := {"path"}]

  /** Which argument of which tool a record may show, name by name: no reason, contact, query or Approval is among
      them. */
  lemma AuditedNames(tool: string, key: string)
    ensures tool in AUDIT_KEYS && key in AUDIT_KEYS[tool] <==>
      if key == "start" || key == "end" then
        tool in {"calendar.find_availability", "calendar.submit_meeting_proposal"}
      else if key == "proposal_id" then
        tool in {"calendar.review_meeting_proposal", "calendar.approve_meeting_proposal",
                 "calendar.deny_meeting_proposal"}
      else if key == "limit" || key == "query_length" then tool == "outlook.search_messages"
      else if key == "message_id" then tool == "outlook.read_message"
      else if key == "station_id" then tool == "coffee_station.get_status"
      else if key == "device_id" then tool == "smart_lock.unlock"
      else key == "path" && tool == "dev.read_repository"
  {
  }

  /** The tools the policy knows, and requests that name none. */
  lemma AuditedTools(tool: string)
    ensures tool in AUDIT_KEYS <==> tool in ROUTES || tool == "mcp.request"
  {
    EveryTool(tool);
  }

  /** The raw arguments of a call: not a JSON object, or its fields (none for null). */
  datatype Raw = Undecodable | Fields(fields: map<string, Json>)

  /** The value projected for one allowed name: the length of a query instead of its text, otherwise the argument. */
  function Projected(fields: map<string, Json>, key: string): Option<Json> {
    if key == "query_length" then
      if "query" in fields && fields["query"].Str? then Some(Number(ByteLength(fields["query"].text))) else None
    else if key in fields then Some(fields[key]) else None
  }

  ghost predicate IsProjection(tool: string, raw: Raw, safe: map<string, Json>) {
    forall key ::
      (key in safe <==>
        raw.Fields? && tool in AUDIT_KEYS && key in AUDIT_KEYS[tool] && Projected(raw.fields, key).Some?)
      && (key in safe ==> safe[key] == Projected(raw.fields, key).value)
  }

  predicate ArgumentsAllowed(tool: string, arguments: map<string, Json>) {
    tool in AUDIT_KEYS && arguments.Keys <= AUDIT_KEYS[tool]
  }

  /** The projection loop: exactly the allowed names that the call supplies, and no mailbox query text. */
  method SafeArguments(tool: string, raw: Raw) returns (safe: map<string, Json>)
    ensures IsProjection(tool, raw, safe)
    ensures tool in AUDIT_KEYS ==> ArgumentsAllowed(tool, safe)
  {
    if raw.Undecodable? || tool !in AUDIT_KEYS { return map[]; }
    safe := map[];
    var allowed := AUDIT_KEYS[tool];
    var pending := allowed;
    while pending != {}
      invariant pending <= allowed
      invariant forall key :: key in safe <==> key in allowed - pending && Projected(raw.fields, key).Some?
      invariant forall key :: key in safe ==> safe[key] == Projected(raw.fields, key).value
      decreases |pending|
    {
      var key :| key in pending;
      pending := pending - {key};
      if key == "query_length" {
        if "query" in raw.fields && raw.fields["query"].Str? {
          safe := safe[key := Number(ByteLength(raw.fields["query"].text))];
        }
        continue;
      }
      if key in raw.fields { safe := safe[key := raw.fields[key]]; }
    }
  }

  /** The collector's loop over the names a record carries. */
  method CheckArguments(tool: string, arguments: map<string, Json>) returns (ok: bool)
    ensures ok <==> ArgumentsAllowed(tool, arguments)
  {
    if tool !in AUDIT_KEYS { return false; }
    var allowed := AUDIT_KEYS[tool];
    var pending := arguments.Keys;
    while pending != {}
      invariant pending <= arguments.Keys
      invariant arguments.Keys - pending <= allowed
      decreases |pending|
    {
      var key :| key in pending;
      if key !in allowed { return false; }
      pending := pending - {key};
    }
    ok := true;
  }

  // ----- What the collector accepts -----

  predicate Valid(r: AuditRecord) {
    r.traceId != "" && r.correlationId != "" && r.decisionId != ""
    && r.subjectKind in {"owner", "external", "unknown"} && r.subjectRef != ""
    && r.actor != "" && r.channel != "" && r.operation in {"execute", "discover"} && r.tool != ""
    && r.outcome in {"allow", "deny"} && r.reason != "" && r.rule != ""
    && r.policyRevision != "" && r.durationMicros >= 0 && r.stage == "gateway_result"
    && ArgumentsAllowed(r.tool, r.safeArguments)
  }

  // ----- What the gateway builds -----

  function SubjectKind(subject: string): string {
    if subject == OWNER then "owner" else if HasPrefix(subject, "external-") then "external" else "unknown"
  }

  /** A short digest of the subject; only that it is never empty is used. */
  function SubjectRef(subject: string): (ref: string)
    ensures ref != ""
  {
    if subject == "" then "unknown" else "sha256:" + subject
  }

  function OrElse(text: string, fallback: string): string {
    if text == "" then fallback else text
  }

  /** Duration.Microseconds truncates toward zero. */
  function Micros(duration: int): int {
    if duration >= 0 then duration / 1000 else -(-duration / 1000)
  }

  function DetailedRecord(context: SecurityContext, operation: string, tool: string, decision: Decision,
                          traceId: string, outcome: string, reason: string, safe: map<string, Json>, duration: int):
    AuditRecord
  {
    var trace := OrElse(traceId, decision.correlationId);
    AuditRecord(trace, OrElse(decision.correlationId, trace), OrElse(decision.decisionId, "unavailable"),
                SubjectKind(context.subject), SubjectRef(context.subject), context.actor, context.channel, operation,
                tool,
                outcome, reason, safe, OrElse(decision.reason, reason), OrElse(decision.policyRevision, "unavailable"),
                decision.obligations, Micros(duration), "gateway_result")
  }

  /** A detailed record is acceptable exactly when what the caller passes in is; every gap in the decision is filled. */
  lemma DetailedRecordValid(context: SecurityContext, operation: string, tool: string, decision: Decision,
                            traceId: string, outcome: string, reason: string, safe: map<string, Json>, duration: int)
    ensures Valid(DetailedRecord(context, operation, tool, decision, traceId, outcome, reason, safe, duration)) <==>
      context.actor != "" && context.channel != "" && (traceId != "" || decision.correlationId != "")
      && operation in {"execute", "discover"} && outcome in {"allow", "deny"} && reason != ""
      && duration > -1000 && ArgumentsAllowed(tool, safe) && tool != ""
  {
    hide ArgumentsAllowed;
    if duration < 0 { assert -duration / 1000 >= 1 <==> -duration >= 1000; }
  }

  /** A coffee call of the Owner's that succeeded under a decision without a reason: its record is refused. */
  lemma ReasonlessRecordRefused()
    ensures var owner := SecurityContext(OWNER, TELEGRAM_AGENT, TELEGRAM, []);
      !Valid(DetailedRecord(owner, "execute", COFFEE_STATUS, Decision(true, "c", "d", [], "r", ""), "t", "allow", "",
                            map[], 0))
  {
    hide Valid, DetailedRecord;
    var owner := SecurityContext(OWNER, TELEGRAM_AGENT, TELEGRAM, []);
    DetailedRecordValid(owner, "execute", COFFEE_STATUS, Decision(true, "c", "d", [], "r", ""), "t", "allow", "",
                        map[], 0);
  }

  lemma KindsAreExclusive(subject: string)
    ensures SubjectKind(subject) == "owner" <==> subject == OWNER
    ensures SubjectKind(subject) == "external" <==> HasPrefix(subject, "external-")
  {
    assert OWNER[0] != "external-"[0];
  }

  function DenyReason(failure: string, decision: Decision): string {
    if failure != "" then failure else if decision.decisionId == "" then "malformed_input" else "tool_or_adapter_denied"
  }

  /** How the wrapped handler returned. */
  datatype CallEnd = Failed | ErrorResult | Succeeded

  class Observation {
    const traceId: string
    const tool: string
    const safeArguments: map<string, Json>
    var decision: Decision
    var failureReason: string

    /** beginToolCall: a fresh trace, the projected arguments, nothing decided yet. */
    constructor (traceId: string, tool: string, safeArguments: map<string, Json>)
      ensures this.traceId == traceId && this.tool == tool && this.safeArguments == safeArguments
      ensures decision == NO_DECISION && failureReason == ""
    {
      this.traceId, this.tool, this.safeArguments := traceId, tool, safeArguments;
      decision, failureReason := NO_DECISION, "";
    }

    method ObserveDecision(observed: Decision)
      modifies this`decision
      ensures decision == observed
    {
      decision := observed;
    }

    method ObserveFailure(reason: string)
      modifies this`failureReason
      ensures failureReason == reason
    {
      failureReason := reason;
    }

    /** correlatedPolicy.Decide: a failing policy is observed as a failure, a decision gets the input's correlation
        if it has none and is observed. */
    method Correlated(answer: Option<Decision>, correlationId: string) returns (result: Option<Decision>)
      modifies this
      ensures result == None <==> answer == None
      ensures result == None ==> failureReason == "policy_unavailable" && decision == old(decision)
      ensures result.Some? ==> failureReason == old(failureReason) && decision == result.value
      ensures result.Some? ==>
        result.value == answer.value.(correlationId := OrElse(answer.value.correlationId, correlationId))
    {
      if answer == None {
        ObserveFailure("policy_unavailable");
        return None;
      }
      var decided := answer.value;
      if decided.correlationId == "" { decided := decided.(correlationId := correlationId); }
      ObserveDecision(decided);
      result := Some(decided);
    }

    /** The record written after every tool call. It is denied evidence exactly when the call failed or a failure was
        observed; and the collector accepts it exactly when actor, channel, tool and clock are in order and a call
        that went through was decided with a reason. */
    method OperationalRecord(context: SecurityContext, ended: CallEnd, duration: int) returns (record: AuditRecord)
      requires traceId != "" && ArgumentsAllowed(tool, safeArguments) == (tool in AUDIT_KEYS)
      ensures record.traceId == traceId && record.tool == tool && record.safeArguments == safeArguments
      ensures record.actor == context.actor && record.channel == context.channel
      ensures record.subjectKind == "owner" <==> context.subject == OWNER
      ensures record.subjectKind == "external" <==> HasPrefix(context.subject, "external-")
      ensures record.outcome == "allow" <==> ended == Succeeded && failureReason == ""
      ensures record.outcome in {"allow", "deny"}
      ensures record.outcome == "deny" ==> record.reason == DenyReason(failureReason, decision)
      ensures record.outcome == "allow" ==> record.reason == decision.reason
      ensures decision.correlationId != "" ==> record.correlationId == decision.correlationId
      ensures decision.correlationId == "" ==> record.correlationId == traceId
      ensures record.decisionId == if decision.decisionId == "" then "unavailable" else decision.decisionId
      ensures record.policyRevision == if decision.policyRevision == "" then "unavailable" else decision.policyRevision
      ensures record.rule == if decision.reason == "" then record.reason else decision.reason
      ensures record.obligations == decision.obligations && record.subjectRef == SubjectRef(context.subject)
      ensures record.operation == "execute" && (duration >= 0 ==> record.durationMicros == duration / 1_000)
      ensures Valid(record) <==>
        context.actor != "" && context.channel != "" && tool in AUDIT_KEYS && duration > -1000 && tool != ""
        && (ended == Succeeded && failureReason == "" ==> decision.reason != "")
    {
      hide ArgumentsAllowed, Valid, SubjectKind, SubjectRef;
      var outcome, reason := Conclude(ended, failureReason, decision);
      var filled := FillDecision(decision, traceId, reason);
      record := DetailedRecord(context, "execute", tool, filled, traceId, outcome, reason, safeArguments, duration);
      DetailedRecordValid(context, "execute", tool, filled, traceId, outcome, reason, safeArguments, duration);
      KindsAreExclusive(context.subject);
    }
  }

  method Conclude(ended: CallEnd, failure: string, decision: Decision) returns (outcome: string, reason: string)
    ensures outcome == if ended == Succeeded && failure == "" then "allow" else "deny"
    ensures reason == if outcome == "allow" then decision.reason else DenyReason(failure, decision)
  {
    outcome, reason := "allow", decision.reason;
    if ended != Succeeded {
      outcome := "deny";
      if failure != "" {
        reason := failure;
      } else if decision.decisionId == "" {
        reason := "malformed_input";
      } else {
        reason := "tool_or_adapter_denied";
      }
    }
    if failure != "" {
      outcome, reason := "deny", failure;
    }
  }

  /** Gaps of a decision that was never made, or only in part. */
  method FillDecision(decision: Decision, traceId: string, reason: string) returns (filled: Decision)
    ensures filled ==
      Decision(decision.allow, OrElse(decision.correlationId, traceId), OrElse(decision.decisionId, "unavailable"),
               decision.obligations, OrElse(decision.policyRevision, "unavailable"), OrElse(decision.reason, reason))
  {
    filled := decision;
    if filled.decisionId == "" { filled := filled.(decisionId := "unavailable"); }
    if filled.correlationId == "" { filled := filled.(correlationId := traceId); }
    if filled.reason == "" { filled := filled.(reason := reason); }
    if filled.policyRevision == "" { filled := filled.(policyRevision := "unavailable"); }
  }

  /** What became of the policy in a call: some calls are refused before it is asked. */
  datatype PolicyUse = NotAsked | PolicyFailed | Decided(decision: Decision)

  /** A whole call from its raw arguments to its record: with a policy that always gives a reason, every registered
      tool's record is accepted, whatever the arguments, the decision, the result and the failures were. */
  method ToolCallRecord(context: SecurityContext, tool: string, raw: Raw, traceId: string, policy: PolicyUse,
                        correlationId: string, failure: Option<string>, ended: CallEnd, duration: int)
    returns (record: AuditRecord)
    requires traceId != "" && context.actor != "" && context.channel != "" && duration >= 0
    requires policy.Decided? ==> policy.decision.reason != ""
    requires !policy.Decided? ==> ended != Succeeded
    ensures Valid(record) <==> tool in AUDIT_KEYS && tool != ""
    ensures IsProjection(tool, raw, record.safeArguments)
    ensures record.traceId == traceId && record.tool == tool && record.operation == "execute"
    ensures record.actor == context.actor && record.channel == context.channel
    ensures record.subjectKind == "owner" <==> context.subject == "owner-subject-id"
    ensures var failed :=
        if failure.Some? then failure.value else if policy.PolicyFailed? then "policy_unavailable" else "";
      var decision :=
        if policy.Decided? then
          policy.decision.(correlationId := OrElse(policy.decision.correlationId, correlationId))
        else NO_DECISION;
      record.outcome == (if ended == Succeeded && failed == "" then "allow" else "deny")
      && record.reason == (if record.outcome == "allow" then decision.reason else DenyReason(failed, decision))
      && (decision.correlationId != "" ==> record.correlationId == decision.correlationId)
      && record.obligations == decision.obligations && record.durationMicros == duration / 1_000
  {
    hide Valid;
    var safe := SafeArguments(tool, raw);
    var observation := new Observation(traceId, tool, safe);
    if !policy.NotAsked? {
      var result := observation.Correlated(if policy.Decided? then Some(policy.decision) else None, correlationId);
    }
    if failure.Some? { observation.ObserveFailure(failure.value); }
    record := observation.OperationalRecord(context, ended, duration);
  }

  /** Every decision of the policy carries a reason. */
  lemma PolicyGivesReason(input: Input, now: int)
    ensures Authorization(input, now).reason != ""
  {
    hide Fires, FirstValue, Value;
    FirstValueMeans(BODIES, input, now);
    if Authorization(input, now) != DEFAULT_DENY {
      var body :| body in BODIES && Authorization(input, now) == Value(body);
      ValueHasReason(body);
    }
  }

  lemma ValueHasReason(body: Body)
    ensures Value(body).reason != ""
  {
  }

  // ----- The collector -----

  class Collector {
    var records: seq<AuditRecord>

    constructor ()
      ensures records == []
    {
      records := [];
    }

    method PostRecord(record: AuditRecord) returns (accepted: bool)
      modifies this
      ensures accepted <==> Valid(record)
      ensures records == if accepted then old(records) + [record] else old(records)
    {
      var argumentsOk := CheckArguments(record.tool, record.safeArguments);
      accepted := record.traceId != "" && record.correlationId != "" && record.decisionId != ""
        && (record.subjectKind == "owner" || record.subjectKind == "external" || record.subjectKind == "unknown")
        && record.subjectRef != "" && record.actor != "" && record.channel != ""
        && (record.operation == "execute" || record.operation == "discover") && record.tool != ""
        && (record.outcome == "allow" || record.outcome == "deny") && record.reason != "" && record.rule != ""
        && record.policyRevision != "" && record.durationMicros >= 0 && record.stage == "gateway_result" && argumentsOk;
      if accepted { records := records + [record]; }
    }

    method PostReset()
      modifies this
      ensures records == []
    {
      records := [];
    }
  }
}
