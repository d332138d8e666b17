/** Where events and Approvals come from, in plain terms: from what was submitted, over everything that may run in
    between, to what is reviewed, approved and stored. The names, keys and instants are spelled out here. */
module ProtocolOrigin {
  import opened Text
  import opened CanonicalJson
  import opened Protocol
  import opened ProtocolInvariant
  import opened ProtocolSafety
  import opened ProtocolRuns
  import opened ProtocolTheorems
  import opened ProtocolWitness
  import Policy
  import Authority = ApprovalAuthority
  import Store = MeetingStore
  import Calendar = CalendarServer
  import CalendarGateway
  import GatewayTools

  // ----- From submission to calendar -----

  /** The proposal is submission number n: its instants cut to whole seconds, its texts trimmed. */
  predicate FiledAs(p: Store.Proposal, n: nat, requester: string, input: Store.ProposalInput) {
    p.proposalId == "proposal-" + Decimal(n) && p.traceId == "meeting-trace-" + Decimal(n)
    && p.start == input.start / 1_000_000_000 && p.end == input.end / 1_000_000_000
    && p.requester == requester && p.reason == TrimSpace(input.reason) && p.contact == TrimSpace(input.contact)
  }

  /** The event is the one of submission number n. */
  predicate EventOf(a: Store.EventArguments, n: nat, requester: string, input: Store.ProposalInput) {
    a.proposalId == "proposal-" + Decimal(n)
    && a.start == input.start / 1_000_000_000 && a.end == input.end / 1_000_000_000
    && a.requester == requester && a.reason == TrimSpace(input.reason) && a.contact == TrimSpace(input.contact)
    && a.idempotencyKey == "meeting-proposal:proposal-" + Decimal(n)
  }

  lemma FiledOnSubmission(s: System, context: Policy.SecurityContext, input: Store.ProposalInput)
    requires Enabled(s, Submit(context, input))
    ensures var n, t := s.store.next + 1, Next(s, Submit(context, input));
      "proposal-" + Decimal(n) in t.store.proposals
      && FiledAs(t.store.proposals["proposal-" + Decimal(n)], n, context.subject, input)
  {
    hide Decimal, TrimSpace, ByteLength, Policy.Authorization;
    TrimSpaceIdempotent(input.reason);
    TrimSpaceIdempotent(input.contact);
  }

  lemma OperationOfFiled(p: Store.Proposal, n: nat, requester: string, input: Store.ProposalInput)
    requires FiledAs(p, n, requester, input)
    ensures var operation := Store.OperationFor(p);
      operation.tool == "calendar.create_event" && operation.traceId == "meeting-trace-" + Decimal(n)
      && EventOf(operation.arguments, n, requester, input)
  {
    hide Decimal, TrimSpace;
    assert "meeting-proposal:" + ("proposal-" + Decimal(n)) == "meeting-proposal:proposal-" + Decimal(n);
  }

  /** A proposal is filed as it was submitted and stays so, whatever runs. */
  lemma StaysFiled(s: System, context: Policy.SecurityContext, input: Store.ProposalInput, actions: seq<Action>,
                   t: System)
    requires Reachable(s) && Enabled(s, Submit(context, input)) && Run(Next(s, Submit(context, input)), actions, t)
    ensures Inv(t)
    ensures var n := s.store.next + 1;
      "proposal-" + Decimal(n) in t.store.proposals
      && FiledAs(t.store.proposals["proposal-" + Decimal(n)], n, context.subject, input)
  {
    hide Reachable, Inv, Enabled, Next, Run, FiledAs, Decimal;
    ReachableInv(s);
    StepKeeps(s, Submit(context, input));
    FiledOnSubmission(s, context, input);
    RunKeeps(Next(s, Submit(context, input)), actions, t);
    OnwardRun(Next(s, Submit(context, input)), actions, t);
  }

  /** Whatever runs after a submission, its review shows the operation of that submission under its own trace; it is
      shown exactly until the proposal is denied. */
  lemma SubmissionIsReviewed(s: System, context: Policy.SecurityContext, input: Store.ProposalInput,
                             actions: seq<Action>, t: System)
    requires Reachable(s) && Enabled(s, Submit(context, input)) && Run(Next(s, Submit(context, input)), actions, t)
    ensures var n := s.store.next + 1;
      var reviewed := Store.Reviewing(t.store, "proposal-" + Decimal(n));
      (reviewed.Review? <==> !HasStatus(t, "proposal-" + Decimal(n), Store.Denied))
      && (reviewed.Review? ==>
          reviewed.operation.tool == "calendar.create_event"
          && reviewed.operation.traceId == "meeting-trace-" + Decimal(n)
          && EventOf(reviewed.operation.arguments, n, context.subject, input))
  {
    hide Reachable, Inv, Enabled, Next, Run, FiledAs, EventOf, Decimal, Store.OperationFor;
    StaysFiled(s, context, input, actions, t);
    var n := s.store.next + 1;
    OperationOfFiled(t.store.proposals["proposal-" + Decimal(n)], n, context.subject, input);
  }

  /** And the calendar's event under its key is the event of that submission; it is there once the proposal is
      approved. */
  lemma SubmissionIsBooked(s: System, context: Policy.SecurityContext, input: Store.ProposalInput,
                           actions: seq<Action>, t: System)
    requires Reachable(s) && Enabled(s, Submit(context, input)) && Run(Next(s, Submit(context, input)), actions, t)
    ensures var n := s.store.next + 1;
      var key := "meeting-proposal:proposal-" + Decimal(n);
      (key in t.events ==>
        EventOf(t.events[key].arguments, n, context.subject, input)
        && t.events[key].eventId == "demo-event-" + Decimal(n))
      && (HasStatus(t, "proposal-" + Decimal(n), Store.Approved) ==> key in t.events)
  {
    hide Reachable, Inv, Enabled, Next, Run, FiledAs, EventOf, Decimal, Store.OperationFor, Calendar.ValidEvent,
      HasStatus;
    StaysFiled(s, context, input, actions, t);
    LaterIsReachable(s, Submit(context, input), actions, t);
    var n := s.store.next + 1;
    var id, key := "proposal-" + Decimal(n), "meeting-proposal:proposal-" + Decimal(n);
    assert Store.IdempotencyKey(id) == key;
    OperationOfFiled(t.store.proposals[id], n, context.subject, input);
    if key in t.events {
      EventsAreOperations(t, key);
      Store.IdempotencyKeyInjective(t.events[key].arguments.proposalId, id);
      assert TrimPrefix(id, "proposal-") == Decimal(n);
    }
    if HasStatus(t, id, Store.Approved) { ApprovedHasItsEvent(t, id); }
  }

  lemma LaterIsReachable(s: System, a: Action, actions: seq<Action>, t: System)
    requires Reachable(s) && Enabled(s, a) && Run(Next(s, a), actions, t)
    ensures Reachable(t)
  {
    hide Enabled, Next, Reachable;
    assert Run(s, [a] + actions, t) by { assert ([a] + actions)[1..] == actions; }
    LeadsFromReachable(s, t);
  }

  // ----- From calendar to submission -----

  /** The action submits what is stored as this proposal, and it may be submitted. */
  ghost predicate Submits(a: Action, p: Store.Proposal) {
    a.Submit? && GatewayTools.MaySubmit(a.context, a.input)
    && exists n :: FiledAs(p, n, a.context.subject, a.input)
  }

  lemma SubmitterMaySubmit(s: System, a: Action)
    requires Enabled(s, a) && a.Submit?
    ensures GatewayTools.MaySubmit(a.context, a.input)
  {
    hide Policy.Authorization, CalendarGateway.AcceptsProposal, GatewayTools.MaySubmit;
    GatewayTools.MaySubmitExactly(a.context, a.input, s.clock);
  }

  lemma OtherwiseNothingFiled(s: System, a: Action)
    requires Enabled(s, a) && !a.Submit?
    ensures Next(s, a).store.proposals == s.store.proposals
  {
    hide AfterBegin, AfterDeny, AfterComplete, AfterCancel, AfterCallLock, Outcome, Enabled;
    if Resolving(a) { ResolvingFilesNothing(s, a); } else { OtherwiseQuiet(s, a); }
  }

  lemma ResolvingFilesNothing(s: System, a: Action)
    requires Enabled(s, a) && Resolving(a) && !a.Submit?
    ensures Outcome(s, a).store.proposals == s.store.proposals
  {
    hide AfterBegin, HasEvent;
    if a.Begin? { BeginMeans(s, a.h); }
  }

  lemma SubmitFilesOne(s: System, a: Action, id: string)
    requires Enabled(s, a) && a.Submit? && id in Next(s, a).store.proposals
    ensures (id in s.store.proposals && Next(s, a).store.proposals[id] == s.store.proposals[id])
      || Submits(a, Next(s, a).store.proposals[id])
  {
    hide Decimal, TrimSpace, ByteLength, Policy.Authorization, FiledAs, GatewayTools.MaySubmit;
    FiledOnSubmission(s, a.context, a.input);
    SubmitterMaySubmit(s, a);
  }

  lemma FiledByStep(s: System, a: Action, id: string)
    requires Enabled(s, a) && id in Next(s, a).store.proposals
    ensures (id in s.store.proposals && Next(s, a).store.proposals[id] == s.store.proposals[id])
      || Submits(a, Next(s, a).store.proposals[id])
  {
    hide Enabled, Next, Submits;
    if a.Submit? { SubmitFilesOne(s, a, id); } else { OtherwiseNothingFiled(s, a); }
  }

  /** Whatever a run ends with was there at its start or submitted on its way. */
  lemma {:induction false} FiledByRun(s: System, actions: seq<Action>, t: System, id: string)
    requires Inv(s) && Run(s, actions, t) && id in t.store.proposals
    ensures (id in s.store.proposals && t.store.proposals[id] == s.store.proposals[id])
      || exists i :: 0 <= i < |actions| && Submits(actions[i], t.store.proposals[id])
    decreases |actions|
  {
    hide Inv, Enabled, Next, Submits;
    if actions != [] {
      var next := Next(s, actions[0]);
      StepKeeps(s, actions[0]);
      FiledByRun(next, actions[1..], t, id);
      if id in next.store.proposals && t.store.proposals[id] == next.store.proposals[id] {
        FiledByStep(s, actions[0], id);
      } else {
        var i :| 0 <= i < |actions[1..]| && Submits(actions[1..][i], t.store.proposals[id]);
        assert Submits(actions[i + 1], t.store.proposals[id]);
      }
    }
  }

  ghost predicate SubmittedAs(a: Action, arguments: Store.EventArguments) {
    a.Submit? && GatewayTools.MaySubmit(a.context, a.input)
    && exists n :: EventOf(arguments, n, "external-alice-subject-id", a.input)
  }

  /** Nothing gets onto the calendar that was not submitted as it stands, by one who may and in a form that may. */
  lemma EveryEventWasSubmitted(s: System, actions: seq<Action>, t: System, key: string)
    requires Initial(s) && Run(s, actions, t) && key in t.events
    ensures exists i :: 0 <= i < |actions| && SubmittedAs(actions[i], t.events[key].arguments)
  {
    hide Inv, Run, FiledAs, EventOf, Store.OperationFor, Calendar.ValidEvent, Calendar.EventId;
    assert Reachable(t);
    EventsAreOperations(t, key);
    InitialHolds(s);
    var id := t.events[key].arguments.proposalId;
    FiledByRun(s, actions, t, id);
    var i :| 0 <= i < |actions| && Submits(actions[i], t.store.proposals[id]);
    var n :| FiledAs(t.store.proposals[id], n, actions[i].context.subject, actions[i].input);
    OperationOfFiled(t.store.proposals[id], n, actions[i].context.subject, actions[i].input);
    assert SubmittedAs(actions[i], t.events[key].arguments);
  }

  // ----- What Approvals are for -----

  lemma HexDigitIs(c: char)
    requires '0' <= c <= '9' || 'a' <= c <= 'f'
    ensures c in "0123456789abcdef"
  {
    assert "0123456789abcdef"[if c <= '9' then c as int - '0' as int else c as int - 'a' as int + 10] == c;
  }

  /** Whatever has been issued was issued with a key of 32 bytes, to the owner through the Telegram agent, under a
      trace, and for one of two tools. */
  lemma IssuedToTheOwner(s: System, nonce: string)
    requires Reachable(s) && nonce in s.history.issued
    ensures |nonce| == 32 && forall i :: 0 <= i < 32 ==> nonce[i] in "0123456789abcdef"
    ensures var binding := s.history.issued[nonce].binding;
      s.settings.keyLength >= 32 && binding.subject == s.settings.owner && binding.actor == "telegram-agent"
      && binding.traceId != "" && binding.tool in {"calendar.create_event", "smart_lock.unlock"}
      && (binding.tool == "smart_lock.unlock" ==>
          binding.arguments.Obj? && Authority.NamesDemoDoor(binding.arguments.fields))
  {
    hide Reachable, Inv, Authority.ValidBinding, Authority.ClaimsFor, Authority.NamesDemoDoor;
    ReachableInv(s);
    IssueKnown(s, nonce);
    Authority.ValidBindingExactly(s.settings.keyLength, s.settings.owner, s.history.issued[nonce].binding);
    forall i | 0 <= i < 32 ensures nonce[i] in "0123456789abcdef" { HexDigitIs(nonce[i]); }
  }

  /** The owner's Telegram turn with this capability. */
  predicate OwnersTurn(context: Policy.SecurityContext, capability: string) {
    context.subject == "owner-subject-id" && context.actor == "telegram-agent" && context.channel == "telegram"
    && capability in context.capabilities
  }

  /** The Approval is the Owner's, for creating this very event under this trace. */
  predicate ApprovesEvent(binding: Authority.Binding, a: Store.EventArguments, traceId: string) {
    binding.subject == "owner-subject-id" && binding.actor == "telegram-agent"
    && binding.tool == "calendar.create_event" && binding.traceId == traceId
    && binding.arguments == Obj(map[
         "proposal_id" := Str(a.proposalId), "start" := Str(Store.StampText(a.start)),
         "end" := Str(Store.StampText(a.end)), "requester_subject" := Str(a.requester), "reason" := Str(a.reason),
         "contact" := Str(a.contact), "idempotency_key" := Str(a.idempotencyKey)])
  }

  /** Whoever asks the calendar for an event does so in the Owner's turn and has spent, before, an Approval that was
      issued for this event field by field. */
  lemma EventIsApproved(s: System, h: HandlerId)
    requires Reachable(s) && h in s.history.effects && s.history.effects[h].CreateEvent?
    ensures h in s.handlers && OwnersTurn(s.handlers[h].context, "calendar.meeting.approve")
    ensures var arguments := s.history.effects[h].arguments;
      h in s.history.accepted && s.history.accepted[h].claims.nonce in s.history.issued
      && var issue := s.history.issued[s.history.accepted[h].claims.nonce];
      issue.when < s.history.accepted[h].when < s.history.effects[h].when
      && arguments.proposalId in s.store.proposals
      && ApprovesEvent(issue.binding, arguments, s.store.proposals[arguments.proposalId].traceId)
  {
    hide Reachable, Inv, Store.StampText, Authority.ClaimsFor, TrimSpace;
    EveryEffectIsApproved(s, h);
    ReachableInv(s);
    StoreIsValid(s);
  }

  /** Whoever calls the lock does so in the Owner's turn, for the demo door, and has spent an Approval for it under the
      trace it named. */
  lemma OpeningIsApproved(s: System, h: HandlerId)
    requires Reachable(s) && h in s.history.effects && s.history.effects[h].OpenLock?
    ensures h in s.handlers && OwnersTurn(s.handlers[h].context, "smart_lock.write")
      && s.handlers[h].request.Unlock?
    ensures s.history.effects[h].device == "demo-front-door"
    ensures h in s.history.accepted && s.history.accepted[h].claims.nonce in s.history.issued
      && var issue := s.history.issued[s.history.accepted[h].claims.nonce];
      issue.when < s.history.accepted[h].when < s.history.effects[h].when
      && issue.binding ==
         Authority.Binding("owner-subject-id", "telegram-agent", "smart_lock.unlock",
                           Obj(map["device_id" := Str("demo-front-door")]), s.handlers[h].request.traceId)
  {
    hide Reachable, Inv, Store.OperationFor, ExactBinding;
    EveryEffectIsApproved(s, h);
  }
}
