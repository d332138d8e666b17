/** The Meeting Proposal store (internal/meeting/store.go): submission, review, and the
    pending / approving / approved / denied machine. */
module MeetingStore {
  import opened Text
  import opened CanonicalJson
  import opened Instants

  const COUNTER_RANGE := 0x1_0000_0000_0000_0000

  /** Instants in nanoseconds since the epoch. */
  datatype ProposalInput = ProposalInput(start: int, end: int, reason: string, contact: string)

  /** `start` and `end` are the RFC 3339 texts of whole UTC seconds, kept as the second they denote. */
  datatype Proposal = Proposal(proposalId: string, traceId: string, start: int, end: int,
                               requester: string, reason: string, contact: string)

  datatype EventArguments = EventArguments(proposalId: string, start: int, end: int, requester: string,
                                           reason: string, contact: string, idempotencyKey: string)

  datatype Operation = Operation(tool: string, traceId: string, arguments: EventArguments)

  datatype Status = Pending | Approving | Approved | Denied

  datatype StoreError = NotFound | Resolved

  /** Formatting an instant keeps its whole second. */
  function WholeSecond(instant: int): int {
    instant / SECOND
  }

  function ProposalId(n: nat): string {
    "proposal-" + Decimal(n)
  }

  function TraceId(n: nat): string {
    "meeting-trace-" + Decimal(n)
  }

  function IdempotencyKey(proposalId: string): string {
    "meeting-proposal:" + proposalId
  }

  function OperationFor(p: Proposal): Operation {
    Operation("calendar.create_event", p.traceId,
              EventArguments(p.proposalId, p.start, p.end, p.requester, p.reason, p.contact,
                             IdempotencyKey(p.proposalId)))
  }

  /** The event says what the proposal says, field by field, under the proposal's own key. */
  predicate EventSays(a: EventArguments, p: Proposal) {
    a.proposalId == p.proposalId && a.start == p.start && a.end == p.end && a.requester == p.requester
    && a.reason == p.reason && a.contact == p.contact && a.idempotencyKey == "meeting-proposal:" + p.proposalId
  }

  /** The operation is to create that event, under the proposal's own trace. */
  predicate SaysAs(operation: Operation, p: Proposal) {
    operation.tool == "calendar.create_event" && operation.traceId == p.traceId && EventSays(operation.arguments, p)
  }

  lemma ProposalIdInjective(m: nat, n: nat)
    requires ProposalId(m) == ProposalId(n)
    ensures m == n
  {
    ConcatInjective("proposal-", Decimal(m), Decimal(n));
    DecimalInjective(m, n);
  }

  lemma IdempotencyKeyInjective(a: string, b: string)
    requires IdempotencyKey(a) == IdempotencyKey(b)
    ensures a == b
  {
    ConcatInjective("meeting-proposal:", a, b);
  }

  // ----- The JSON form of the arguments, which an Approval's digest covers -----

  /** Stands for the RFC 3339 text of a whole second; only that different seconds differ is used. */
  function StampText(second: int): string {
    EncodeNumber(second)
  }

  function ArgumentsJson(a: EventArguments): Json {
    Obj(map["proposal_id" := Str(a.proposalId), "start" := Str(StampText(a.start)), "end" := Str(StampText(a.end)),
            "requester_subject" := Str(a.requester), "reason" := Str(a.reason), "contact" := Str(a.contact),
            "idempotency_key" := Str(a.idempotencyKey)])
  }

  lemma StampInjective(s: int, t: int)
    requires StampText(s) == StampText(t)
    ensures s == t
  {
    NumberPrefix(s, "", t, "");
  }

  lemma ArgumentsJsonInjective(a: EventArguments, b: EventArguments)
    requires ArgumentsJson(a) == ArgumentsJson(b)
    ensures a == b
  {
    hide StampText;
    var f, g := ArgumentsJson(a).fields, ArgumentsJson(b).fields;
    assert f["proposal_id"] == g["proposal_id"] && f["requester_subject"] == g["requester_subject"];
    assert f["reason"] == g["reason"] && f["contact"] == g["contact"] && f["idempotency_key"] == g["idempotency_key"];
    assert f["start"] == g["start"];
    assert f["end"] == g["end"];
    StampInjective(a.start, b.start);
    StampInjective(a.end, b.end);
  }

  /** Equal digests mean equal events. */
  lemma ArgumentsHashDecides(a: EventArguments, b: EventArguments)
    ensures HashArguments(ArgumentsJson(a)) == HashArguments(ArgumentsJson(b)) <==> a == b
  {
    hide HashArguments, ArgumentsJson;
    HashDecidesArguments(ArgumentsJson(a), ArgumentsJson(b));
    if ArgumentsJson(a) == ArgumentsJson(b) { ArgumentsJsonInjective(a, b); }
  }

  // ----- State and transitions; each is one critical section -----

  datatype StoreState = StoreState(next: nat, proposals: map<string, Proposal>, states: map<string, Status>)

  const EMPTY := StoreState(0, map[], map[])

  function NextCounter(next: nat): nat {
    (next + 1) % COUNTER_RANGE
  }

  function NewProposal(n: nat, requester: string, input: ProposalInput): Proposal {
    Proposal(ProposalId(n), TraceId(n), WholeSecond(input.start), WholeSecond(input.end),
             requester, TrimSpace(input.reason), TrimSpace(input.contact))
  }

  function Submitted(s: StoreState, requester: string, input: ProposalInput): StoreState {
    var n := NextCounter(s.next);
    StoreState(n, s.proposals[ProposalId(n) := NewProposal(n, requester, input)], s.states[ProposalId(n) := Pending])
  }

  datatype Reviewed = ReviewFailed(error: StoreError) | Review(operation: Operation)

  function Reviewing(s: StoreState, id: string): Reviewed {
    if id !in s.proposals then ReviewFailed(NotFound)
    else if id in s.states && s.states[id] == Denied then ReviewFailed(Resolved)
    else Review(OperationFor(s.proposals[id]))
  }

  function Denying(s: StoreState, id: string): (StoreState, Option<StoreError>) {
    if id !in s.proposals then (s, Some(NotFound))
    else if id !in s.states || s.states[id] != Pending then (s, Some(Resolved))
    else (s.(states := s.states[id := Denied]), None)
  }

  datatype Begun = BeginFailed(error: StoreError) | Begin(operation: Operation, retry: bool)

  function Beginning(s: StoreState, id: string): (StoreState, Begun) {
    if id !in s.proposals then (s, BeginFailed(NotFound))
    else if id in s.states && s.states[id] == Pending then
      (s.(states := s.states[id := Approving]), Begin(OperationFor(s.proposals[id]), false))
    else if id in s.states && s.states[id] == Approved then (s, Begin(OperationFor(s.proposals[id]), true))
    else (s, BeginFailed(Resolved))
  }

  /** Complete and Cancel leave an approving proposal for `target` and change nothing else. */
  function Leaving(s: StoreState, id: string, target: Status): StoreState {
    if id in s.states && s.states[id] == Approving then s.(states := s.states[id := target]) else s
  }

  // ----- Invariants -----

  predicate Numbered(s: StoreState, id: string) {
    exists n :: 1 <= n <= s.next && id == ProposalId(n)
  }

  /** Every key is a proposal's own id, rendered from a counter value already used. */
  predicate Valid(s: StoreState) {
    s.states.Keys == s.proposals.Keys
    && forall id :: id in s.proposals ==>
      s.proposals[id].proposalId == id && s.proposals[id].traceId != "" && Numbered(s, id)
  }

  lemma NextIdUnused(s: StoreState)
    requires Valid(s)
    ensures ProposalId(s.next + 1) !in s.proposals
  {
    hide Decimal;
    if ProposalId(s.next + 1) in s.proposals {
      var n :| 1 <= n <= s.next && ProposalId(s.next + 1) == ProposalId(n);
      ProposalIdInjective(n, s.next + 1);
    }
  }

  lemma NumberedGrows(s: StoreState, t: StoreState, id: string)
    requires Numbered(s, id) && s.next <= t.next
    ensures Numbered(t, id)
  {
    hide Decimal;
    var n :| 1 <= n <= s.next && id == ProposalId(n);
    assert 1 <= n <= t.next && id == ProposalId(n);
  }

  /** Below the counter's range a submission gets an unused id and disturbs nothing already stored. */
  lemma SubmitFresh(s: StoreState, requester: string, input: ProposalInput)
    requires Valid(s) && s.next + 1 < COUNTER_RANGE
    ensures var t := Submitted(s, requester, input);
      Valid(t) && t.next == s.next + 1 && ProposalId(t.next) !in s.proposals
      && Extends(s, t) && forall id :: id in s.proposals ==> t.states[id] == s.states[id]
  {
    hide Decimal, TrimSpace;
    NextIdUnused(s);
    var t := Submitted(s, requester, input);
    forall id | id in t.proposals ensures Numbered(t, id) {
      if id in s.proposals {
        NumberedGrows(s, t, id);
      } else {
        assert 1 <= t.next && id == ProposalId(t.next);
      }
    }
  }

  /** No step alters a stored proposal or loses one. */
  predicate Extends(s: StoreState, t: StoreState) {
    forall id :: id in s.proposals ==> id in t.proposals && t.proposals[id] == s.proposals[id]
  }

  /** What review shows is what begin hands out, however the store moved on in between. */
  lemma ReviewedIsBegun(s: StoreState, t: StoreState, id: string)
    requires Extends(s, t) && Reviewing(s, id).Review? && Beginning(t, id).1.Begin?
    ensures Beginning(t, id).1.operation == Reviewing(s, id).operation
  {
  }

  // ----- Freshness of ids, including counter wrap-around -----

  /** The id that the n-th submission gets. */
  function NthId(n: nat): string {
    ProposalId(n % COUNTER_RANGE)
  }

  lemma CounterModulo(count: nat)
    ensures NextCounter(count % COUNTER_RANGE) == (count + 1) % COUNTER_RANGE
  {
  }

  lemma NthIdRepeats(n: nat)
    ensures NthId(n + COUNTER_RANGE) == NthId(n)
  {
    assert (n + COUNTER_RANGE) % COUNTER_RANGE == n % COUNTER_RANGE;
  }

  /** In one round of the counter no id comes twice. */
  lemma NthIdDistinct(m: nat, n: nat)
    requires m < n < m + COUNTER_RANGE
    ensures NthId(m) != NthId(n)
  {
    hide ProposalId;
    if NthId(m) == NthId(n) {
      ProposalIdInjective(m % COUNTER_RANGE, n % COUNTER_RANGE);
      SameRemainder(m, n);
    }
  }

  lemma SameRemainder(m: nat, n: nat)
    requires m < n && m % COUNTER_RANGE == n % COUNTER_RANGE
    ensures n - m >= COUNTER_RANGE
  {
    assert m == m / COUNTER_RANGE * COUNTER_RANGE + m % COUNTER_RANGE;
    assert n == n / COUNTER_RANGE * COUNTER_RANGE + n % COUNTER_RANGE;
  }

  ghost predicate Given(count: nat, id: string) {
    exists j :: 1 <= j <= count && id == NthId(j)
  }

  /** `count` submissions have been made. */
  ghost predicate Counted(s: StoreState, count: nat) {
    s.next == count % COUNTER_RANGE && forall id :: id in s.proposals <==> Given(count, id)
  }

  lemma GivenNext(count: nat, id: string)
    ensures Given(count + 1, id) <==> Given(count, id) || id == NthId(count + 1)
  {
    hide NthId;
    if Given(count, id) {
      var j :| 1 <= j <= count && id == NthId(j);
      assert 1 <= j <= count + 1 && id == NthId(j);
    }
    if id == NthId(count + 1) { assert 1 <= count + 1 <= count + 1 && id == NthId(count + 1); }
  }

  lemma SubmittedMeans(s: StoreState, count: nat, requester: string, input: ProposalInput)
    requires s.next == count % COUNTER_RANGE
    ensures var t := Submitted(s, requester, input);
      t.next == (count + 1) % COUNTER_RANGE && t.proposals.Keys == s.proposals.Keys + {NthId(count + 1)}
  {
    hide ProposalId, NewProposal, NextCounter;
    CounterModulo(count);
  }

  lemma CountedSubmit(s: StoreState, count: nat, requester: string, input: ProposalInput)
    requires Counted(s, count)
    ensures Counted(Submitted(s, requester, input), count + 1)
  {
    hide Submitted, NthId, Given;
    var t := Submitted(s, requester, input);
    SubmittedMeans(s, count, requester, input);
    forall id ensures id in t.proposals <==> Given(count + 1, id) {
      GivenNext(count, id);
      assert id in t.proposals <==> id in t.proposals.Keys;
    }
  }

  lemma CountedFresh(s: StoreState, count: nat)
    requires Counted(s, count)
    ensures ProposalId(NextCounter(s.next)) !in s.proposals <==> count < COUNTER_RANGE
  {
    hide ProposalId, NextCounter;
    CounterModulo(count);
    assert ProposalId(NextCounter(s.next)) == NthId(count + 1);
    GivenAgain(count);
  }

  lemma GivenAgain(count: nat)
    ensures Given(count, NthId(count + 1)) <==> count >= COUNTER_RANGE
  {
    hide NthId;
    if count >= COUNTER_RANGE {
      var j := count + 1 - COUNTER_RANGE;
      NthIdRepeats(j);
      assert 1 <= j <= count && NthId(count + 1) == NthId(j);
    } else if Given(count, NthId(count + 1)) {
      var j :| 1 <= j <= count && NthId(count + 1) == NthId(j);
      NthIdDistinct(j, count + 1);
      assert false;
    }
  }

  /** What may be asked of the store. */
  datatype Request =
    | SubmitRequest(requester: string, input: ProposalInput)
    | DenyRequest(id: string)
    | BeginRequest(id: string)
    | LeaveRequest(id: string, target: Status)

  function AfterRequest(s: StoreState, request: Request): StoreState {
    match request
    case SubmitRequest(requester, input) => Submitted(s, requester, input)
    case DenyRequest(id) => Denying(s, id).0
    case BeginRequest(id) => Beginning(s, id).0
    case LeaveRequest(id, target) => Leaving(s, id, target)
  }

  /** The store after a list of requests, from the start. */
  function AfterRequests(requests: seq<Request>): StoreState {
    if requests == [] then EMPTY else AfterRequest(AfterRequests(requests[..|requests| - 1]), requests[|requests| - 1])
  }

  function Submissions(requests: seq<Request>): nat {
    if requests == [] then 0
    else Submissions(requests[..|requests| - 1]) + if requests[|requests| - 1].SubmitRequest? then 1 else 0
  }

  lemma {:induction false} RequestsCounted(requests: seq<Request>)
    ensures Counted(AfterRequests(requests), Submissions(requests))
  {
    hide Submitted, Decimal, ProposalId;
    if requests != [] {
      var front, last := requests[..|requests| - 1], requests[|requests| - 1];
      RequestsCounted(front);
      if last.SubmitRequest? {
        CountedSubmit(AfterRequests(front), Submissions(front), last.requester, last.input);
      }
    }
  }

  /** After any requests whatever, the id of the next submission is unused exactly if fewer than 2^64 submissions were
      made before; from then on a submission replaces a stored proposal. */
  lemma FreshExactlyBeforeWrap(requests: seq<Request>)
    ensures var s := AfterRequests(requests);
      ProposalId(NextCounter(s.next)) !in s.proposals <==> Submissions(requests) < 18_446_744_073_709_551_616
  {
    hide Counted, AfterRequests, Submissions, ProposalId;
    RequestsCounted(requests);
    CountedFresh(AfterRequests(requests), Submissions(requests));
  }

  // ----- The store object -----

  class Store {
    var next: nat
    var proposals: map<string, Proposal>
    var states: map<string, Status>

    ghost function State(): StoreState
      reads this
    {
      StoreState(next, proposals, states)
    }

    constructor ()
      ensures State() == EMPTY
    {
      next, proposals, states := 0, map[], map[];
    }

    method Submit(requester: string, input: ProposalInput) returns (proposal: Proposal)
      modifies this
      ensures State() == Submitted(old(State()), requester, input)
      ensures proposal == NewProposal(next, requester, input)
      ensures proposal.proposalId in proposals && proposals[proposal.proposalId] == proposal
      ensures proposal ==
        Proposal("proposal-" + Decimal(next), "meeting-trace-" + Decimal(next), input.start / 1_000_000_000,
                 input.end / 1_000_000_000, requester, TrimSpace(input.reason), TrimSpace(input.contact))
    {
      next := (next + 1) % COUNTER_RANGE;
      var id := "proposal-" + Decimal(next);
      proposal := Proposal(id, "meeting-trace-" + Decimal(next), WholeSecond(input.start), WholeSecond(input.end),
                           requester, TrimSpace(input.reason), TrimSpace(input.contact));
      proposals := proposals[id := proposal];
      states := states[id := Pending];
    }

    method Review(id: string) returns (reviewed: Reviewed)
      requires Valid(State())
      ensures reviewed == Reviewing(State(), id)
      ensures reviewed.Review? <==> id in proposals && states[id] != Denied
      ensures reviewed.Review? ==> SaysAs(reviewed.operation, proposals[id])
    {
      if id !in proposals { return ReviewFailed(NotFound); }
      if states[id] == Denied { return ReviewFailed(Resolved); }
      reviewed := Reviewed.Review(OperationFor(proposals[id]));
    }

    method Deny(id: string) returns (error: Option<StoreError>)
      requires Valid(State())
      modifies this`states
      ensures (State(), error) == Denying(old(State()), id)
      ensures error == None <==> id in old(proposals) && old(states)[id] == Pending
    {
      if id !in proposals { return Some(NotFound); }
      if states[id] != Pending { return Some(Resolved); }
      states := states[id := Denied];
      error := None;
    }

    method BeginApproval(id: string) returns (begun: Begun)
      requires Valid(State())
      modifies this`states
      ensures (State(), begun) == Beginning(old(State()), id)
      ensures begun.Begin? <==> id in old(proposals) && old(states)[id] in {Pending, Approved}
      ensures begun.Begin? ==> SaysAs(begun.operation, proposals[id]) && (begun.retry <==> old(states)[id] == Approved)
    {
      if id !in proposals { return BeginFailed(NotFound); }
      match states[id]
      case Pending =>
        states := states[id := Approving];
        begun := Begin(OperationFor(proposals[id]), false);
      case Approved => begun := Begin(OperationFor(proposals[id]), true);
      case _ => begun := BeginFailed(Resolved);
    }

    method CompleteApproval(id: string)
      modifies this`states
      ensures State() == Leaving(old(State()), id, Approved)
    {
      if id in states && states[id] == Approving { states := states[id := Approved]; }
    }

    method CancelApproval(id: string)
      modifies this`states
      ensures State() == Leaving(old(State()), id, Pending)
    {
      if id in states && states[id] == Approving { states := states[id := Pending]; }
    }
  }
}
