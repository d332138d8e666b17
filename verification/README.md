# Exact Approvals for agent tools: a verified model

This project models a gateway that lets agents use tools with real effects only under an exact, single-use Approval by
the Owner, and proves what that protocol guarantees. It covers the meeting proposal store, the Approval Authority, the
approve, deny and unlock handlers of the gateway, the calendar, the smart lock, the audit collector, the authorization
policy and the rate limiter of the Telegram adapter.

Verify everything with `dafny verify dfyconfig.toml`.

## How it is built

Each server is modelled twice. Its critical sections are functions on a value (`Store.Beginning`, `Authority.Commit`,
`Calendar.Creating`, `Lock.Unlocking`), and a class with the fields of the program performs them in place, proved
against those functions.

`protocol.dfy` joins them into a transition system. Every critical section is one action, any number of handlers
interleave, and a remote call is an entity of its own: a handler may give up on a call that the other side serves later.
The clock is arbitrary. The Authority may restart at any moment, append with or without error, and find its file
unreadable. `protocol_invariant.dfy` states the inductive invariant as one predicate a concern, each over the parts of
the state it reads; `protocol_steps.dfy`, `protocol_effects.dfy`, `protocol_calendar.dfy` and `protocol_lock.dfy` prove
it action by action; `protocol_safety.dfy` concludes for all runs. `protocol_runs.dfy`, `protocol_theorems.dfy`,
`protocol_answers.dfy`, `protocol_outcomes.dfy`, `protocol_clock.dfy` and `protocol_origin.dfy` hold the results, and
`protocol_witness.dfy` shows runs that exist, among them the ones that make expected properties false.

`handler_runs.dfy` and `gateway_handlers.dfy` tie programs to the transition system: the handlers are imperative methods
over the store, Authority, calendar, lock and collector objects, with a ghost copy of the protocol state. Each method is
proved to take that state along a run of the transition system, so every theorem about reachable states holds of the
objects after every handler.

Definitions that the results speak through are described a second time, in other terms and with the names and numbers
of the deployment spelled out: the rules of the policy by a table (`Policy.AuthorizationExactly`), valid bindings
(`ApprovalAuthority.ValidBindingExactly`), the occupied half hour by the clock (`CalendarServer.OccupiedExactly`), the
limiter window by window (`RateLimit.ConfiguredAnswers`), and the way from submission to calendar in
`protocol_origin.dfy`.

The other files stand alone: canonical JSON (`canonical_json.dfy`) with numbers rounded to double precision
(`double_precision.dfy`), token format and expiry (`approval_token.dfy`), the nonce file (`nonce_file.dfy`), the policy
(`policy.dfy`), audit records (`audit.dfy`), free/busy (`calendar_server.dfy`, `calendar_gateway.dfy`), the limiter
(`rate_limit.dfy`), listing and submission (`gateway_tools.dfy`).

## Assumptions

- SHA-256 is injective: a digest is a value that carries the hashed text. The text itself, canonical JSON, is modelled
  character by character and its injectivity is proved.
- The keyed digest is unforgeable: what verifies was signed. In the transition system a token opens to claims or does
  not, and only claims that were issued pass. `GatewayHandlers.OpenedIsGenuine` derives this from the ideal digest.
- Issued nonces are fresh: 32 hexadecimal digits not issued before.
- An append to the state file writes the whole line or nothing; an error may be reported although the line was written.
- One gateway and one calendar process live as long as the store. The Authority restarts at will.
- In the transition system fewer than 2^64 proposals are submitted. `MeetingStore.FreshExactlyBeforeWrap` says what
  happens at that bound.
- RFC 3339 text (section 5.6 of RFC 3339) stands for the whole second it denotes; formatting drops the fraction.
- JSON numbers are integers, rounded to double precision where the source decodes them into generic values; the text of a
  large double stands for its shortest rendering.
- Policy answers that reach a handler carry their three identifiers, as the policy client demands.
- The limiter's clock does not go back. No other result needs that.

## Where the code differs from what one expects

The model follows the code. For each of these the members named show it on a run or an input and say exactly when the
expected property holds.

- A denied proposal can have a calendar event. When CreateEvent fails without an answer the approval is cancelled, the
  proposal is pending again and can be denied, and the first request may still be served
  (`ProtocolWitness.DeniedProposalWithEvent`). It can happen exactly when a cancelled approval whose request was not
  refused stands behind the denial (`ProtocolTheorems.DeniedMayGetEventExactly`).
- An Approval can be accepted after it expired: the expiry is compared before the lock is taken and not again
  (`ProtocolWitness.AcceptedAtAnyTime`). It is unexpired at the comparison, so with a delay of at most d an acceptance comes
  before d has passed since the expiry (`ProtocolClock.AcceptedBeforeExpiryAnd`), and a checked call can be accepted too
  late exactly when no more than the delay was left at its check (`ProtocolClock.MayBeLateExactly`).
- The availability rule compares weekdays, not dates, so windows of one or two weeks pass although the README of the
  repository (line 58) speaks of working hours (`Policy.WeekLongWindowAllowed`, `Policy.OneWorkingDayExactly`).
- A proposal shorter than a second can be accepted, and its event is then refused by the calendar for ever
  (`CalendarGateway.SubSecondProposalAccepted`, `CalendarGateway.AcceptedIsCreatable`).
- A free/busy question whose start has a fraction of a second is answered correctly and then refused by the gateway's own
  check, unless it starts in the occupied half hour (`CalendarGateway.FindAvailability`,
  `CalendarGateway.FractionalStartRefused`).
- A call that went through under a decision without a reason gives a record the collector refuses
  (`Audit.Observation.OperationalRecord`, `Audit.ReasonlessRecordRefused`); the shipped policy always gives
  one (`Audit.PolicyGivesReason`).
- The deny evidence written when the policy cannot be asked about an unlock carries neither trace nor correlation and is
  never accepted; with either, and a reason, an actor and a channel, such evidence is
  (`GatewayHandlers.Gateway.RefuseUnlock`).
- Different arguments can have one digest, as numbers are rounded to double precision when they are decoded
  (`CanonicalJson.LargeNumbersCollide`). Arguments have a digest of their own exactly when each of their numbers is below
  2^53 in size, or below 2^54 and twice an odd number (`CanonicalJson.OwnDigestExactly`). The arguments of the tools with
  effects hold no numbers.

Approve and deny present the same binding, so an Approval given for creating the event can also be spent on denying
the proposal (`ProtocolWitness.AcceptedRun`, for either request).

## Model

| member | source | states |
|---|---|---|
| Text.DecimalRoundTrip | internal/meeting/store.go:36-40 | reading a rendered counter back gives the counter, so different counters have different texts |
| Text.TrimSpaceIdempotent | internal/meeting/store.go:44-45 | the gateway trims and the store trims again: the second trim changes nothing |
| Text.TrimSpaceRemoves | internal/meeting/store.go:44-45 | trimming removes exactly the white space before and after a text that neither starts nor ends with it |
| Text.ByteLengthExactly | internal/gateway/gateway.go:553-560 | the length of a text in bytes is one a character and one more each from code points 2^7, 2^11 and 2^16 on |
| CanonicalJson.HashDecidesArguments | internal/approvalauthority/handler.go:286-293 | two decoded argument values have the same hash exactly when they are the same JSON value (SHA-256 injective on the text, which is the canonical encoding) |
| CanonicalJson.ReceivedAsWritten | internal/approvalauthority/handler.go:286-293 | decoding into generic values, which rounds numbers to double precision, keeps a value as written exactly when every number in it is one a double can hold |
| DoublePrecision.ExactExactly | internal/approvalauthority/handler.go:286-293 | the numbers a double holds are those of 53 binary digits times a power of two |
| DoublePrecision.RoundedIsNearest | internal/approvalauthority/handler.go:286-293 | rounding gives a nearest one of those, and the even one of two |
| CanonicalJson.DecodedField | internal/approvalauthority/handler.go:286-293 | of fields with one name the last counts |
| CanonicalJson.ExactArgumentsDecide | internal/approvalauthority/handler.go:286-293 | two argument texts with such numbers hash equally exactly when they denote the same value |
| DoublePrecision.AloneExactly | internal/approvalauthority/handler.go:286-293 | an integer is rounded to double precision as no other is exactly when it is below 2^53 in size, or below 2^54 and twice an odd number |
| CanonicalJson.OwnDigestExactly | internal/approvalauthority/handler.go:286-293 | arguments share their hash with no others exactly when each number in them is such an integer, which can be seen from these arguments alone |
| CanonicalJson.LargeNumbersCollide | internal/approvalauthority/handler.go:286-293 | 2^53 and its successor are different arguments with one hash |
| CanonicalJson.FieldOrderIrrelevant | internal/approvalauthority/handler.go:286-293 | two sendings of one value that differ in the order of fields, of any object at any depth, hash equally |
| CanonicalJson.ValuePrefix | internal/approvalauthority/handler.go:286-293 | encoded values followed by a stop character can be told apart: equal texts mean equal values and equal rests |
| ApprovalToken.Base64RoundTrip | internal/approvalauthority/handler.go:261-284 | decoding what unpadded base64url encoding produced gives the bytes back, for every byte string |
| ApprovalToken.SignedVerifies | internal/approvalauthority/handler.go:261-284 | `verify` of `sign` returns the payload, for every payload and every keyed digest |
| ApprovalToken.OnlySignedVerify | internal/approvalauthority/handler.go:268-284 | with an unforgeable digest, whatever token verifies carries a payload that was signed |
| ApprovalToken.ExpiryWindow | internal/approvalauthority/handler.go:128 | an Approval passes the expiry test at every instant up to one second before its lifetime ends, fails at every instant from its end on, and passes at issue exactly when a whole second ends within the lifetime |
| NonceFile.LoadUsedNonces | internal/approvalauthority/handler.go:200-219 | the scanner loop returns the nonces on all lines before the first over-long one, and whether there was none |
| NonceFile.LoadConcat | internal/approvalauthority/handler.go:200-219 | loading a file of finished lines followed by more text is the union of loading both parts |
| NonceFile.AppendAddsOne | internal/approvalauthority/handler.go:221-234 | appending one line to a file of finished lines adds exactly that nonce to what a restart loads |
| NonceFile.LoadPrinted | internal/approvalauthority/handler.go:200-234 | loading the lines of any list of nonces gives exactly the set of that list |
| NonceFile.LineLimit | internal/approvalauthority/handler.go:212-218 | a line is read back exactly up to 65535 bytes |
| NonceFile.UnfinishedLineSwallows | internal/approvalauthority/handler.go:221-234 | why finished lines are needed: behind an unfinished line an appended nonce is not loaded as itself |
| ApprovalAuthority.UnlockNamesDemoDevice | internal/approvalauthority/handler.go:241-259 | a valid unlock binding for the arguments the gateway sends names the demo device |
| ApprovalAuthority.DeviceExactly | internal/approvalauthority/handler.go:241-259 | decoding arguments for the lock gives the demo door exactly when every field spells device_id in small or capital letters and holds a text or null, and the last text in the order of names is that of the demo door |
| ApprovalAuthority.ValidBindingExactly | internal/approvalauthority/handler.go:236-259 | a binding is valid exactly with a key of 32 bytes, for the owner through the Telegram agent, under a trace, for a calendar event with any arguments or for the demo door |
| ApprovalAuthority.ExactMatch | internal/approvalauthority/handler.go:168-171 | claims issued for a binding match a presented binding exactly when the two are equal in every field |
| ApprovalAuthority.CommitKeepsValid | internal/approvalauthority/handler.go:175-191 | consuming keeps memory and file in step; an accepted nonce was not on file before and is afterwards |
| ApprovalAuthority.RestartKeepsValid | internal/approvalauthority/handler.go:200-219 | a restart on any file of finished lines, readable or not, is a state in step with its file |
| ApprovalAuthority.OnFileNeverAccepted | internal/approvalauthority/handler.go:175-219 | no run of consumptions, persist failures and restarts accepts a nonce that the file already held |
| ApprovalAuthority.AcceptedOnce | internal/approvalauthority/handler.go:175-219 | over every such run no nonce is answered 204 twice |
| ApprovalAuthority.AcceptedOnFile | internal/approvalauthority/handler.go:175-234 | over every such run each accepted nonce is on file at the end |
| ApprovalAuthority.FailureIsSticky | internal/approvalauthority/handler.go:175-191 | after a persist error nothing is accepted and nothing changes until a restart |
| ApprovalAuthority.StateFile.PersistNonce | internal/approvalauthority/handler.go:221-234 | success means the whole line was written; failure leaves either the whole line or nothing |
| ApprovalAuthority.Authority.constructor | internal/approvalauthority/handler.go:60-68 | start-up rebuilds the used set from the file and fails closed |
| ApprovalAuthority.Authority.Issue | internal/approvalauthority/handler.go:100-139 | while state is available, and only then, a token is given, exactly for those bindings, for a calendar event spelled out; it opens to the claims of the binding and expires when its lifetime, two minutes if none is set, ends, cut to whole seconds |
| ApprovalAuthority.Authority.CommitNonce | internal/approvalauthority/handler.go:175-191 | the critical section: the new nonce state and the verdict |
| ApprovalAuthority.Authority.ConsumeApproval | internal/approvalauthority/handler.go:141-192 | accepted exactly when state is available, the token opens to claims that match the binding unexpired, the nonce is unused and its line is written |
| MeetingStore.ProposalIdInjective | internal/meeting/store.go:36-37 | different counters give different proposal ids |
| MeetingStore.ArgumentsHashDecides | internal/meeting/store.go:65-79 | equal argument hashes mean equal calendar events |
| MeetingStore.SubmitFresh | internal/meeting/store.go:33-50 | below the range of the counter a submission gets an unused id, keeps the store well formed and alters nothing stored |
| MeetingStore.FreshExactlyBeforeWrap | internal/meeting/store.go:36-48 | after any list of requests to a new store, the next id is unused exactly if fewer than 2^64 submissions came before; from then on a stored proposal is replaced |
| MeetingStore.ReviewedIsBegun | internal/meeting/store.go:52-63 | what review showed is what begin hands out, however the store grew in between |
| MeetingStore.Store.Submit | internal/meeting/store.go:33-50 | the new state, and the stored proposal field by field: id and trace from the counter, instants cut to whole seconds, texts trimmed |
| MeetingStore.Store.Review | internal/meeting/store.go:52-79 | not found, resolved, or the operation, which says field by field what the stored proposal says, under its trace and key |
| MeetingStore.Store.Deny | internal/meeting/store.go:81-92 | succeeds exactly for a pending proposal, which becomes denied |
| MeetingStore.Store.BeginApproval | internal/meeting/store.go:65-110 | succeeds exactly for a pending proposal, which becomes approving, or an approved one as a retry, and hands out the operation that says what the proposal says |
| MeetingStore.Store.CompleteApproval | internal/meeting/store.go:112-118 | approving becomes approved; any other state stays |
| MeetingStore.Store.CancelApproval | internal/meeting/store.go:120-126 | approving becomes pending; any other state stays |
| CalendarServer.CreatingKeepsFiled | internal/calendarserver/server.go:83-98 | every event stays filed under its own key and id, and no stored event changes |
| CalendarServer.OneEventPerProposal | internal/calendarserver/server.go:83-98 | two stored events of one proposal are one event |
| CalendarServer.RetriesReturnTheEvent | internal/calendarserver/server.go:83-98 | after creation, whatever requests follow, a retry answers with the same id and not as created |
| CalendarServer.Calendar.PostEvent | internal/calendarserver/server.go:71-109 | the new events and the answer: invalid exactly for such events as are not valid, else conflict, existing or created, with the id made from the proposal |
| CalendarServer.OccupiedExactly | internal/calendarserver/server.go:42-43 | the occupied half hour is the one from 10:30 by the clock of UTC on the date of the start in its own time zone |
| CalendarServer.ValidEventExactly | internal/calendarserver/server.go:103-109 | an event is valid exactly when it lasts up to two hours, names proposal and requester, has a reason and a contact, and is filed under the key of its proposal |
| CalendarServer.FreeBusy | internal/calendarserver/server.go:35-59 | for every window and time zone the intervals are ordered, non-empty, disjoint, and cover exactly the window without what the clock shows as 10:30 to 10:59 on that date |
| CalendarServer.GetFreeBusy | internal/calendarserver/server.go:35-61 | for whole-second windows formatting to seconds keeps all of that |
| CalendarGateway.AcceptView | internal/gateway/gateway.go:532-547 | the checking loop accepts a list of any length exactly when every interval parses, is non-empty and in the window, and the list is ordered and disjoint pair by pair |
| CalendarGateway.FindAvailability | internal/gateway/gateway.go:507-547 | producer and checker together: the call succeeds exactly when the window holds a whole second and its start is a whole second or falls into the occupied half hour; then the view is exactly the window cut to seconds without the occupied half hour |
| CalendarGateway.AcceptsExactly | internal/gateway/gateway.go:550-560 | the gateway takes a proposal exactly when it lasts up to two hours and its trimmed reason and contact are there and hold at most 200 and 320 bytes |
| CalendarGateway.AcceptedIsCreatable | internal/gateway/gateway.go:553-560 | the calendar can store the event of an accepted proposal exactly when its start and end lie in different whole seconds |
| CalendarGateway.SubSecondProposalAccepted | internal/gateway/gateway.go:553-560 | a proposal of 800 milliseconds is accepted and can never become an event |
| CalendarGateway.FractionalStartRefused | internal/gateway/gateway.go:507-547 | a window from half a second past nine passes the policy and has a free answer, which the gateway refuses |
| SmartLockServer.OneSuccessPerReset | internal/smartlockserver/server.go:39-71 | over every run of unlock requests and resets the lock opens at most once more often than it is reset |
| SmartLockServer.SmartLock.PostUnlock | internal/smartlockserver/server.go:49-69 | opens exactly for the demo device when locked; the counter is 1 when unlocked and 0 when locked |
| SmartLockServer.SmartLock.PostReset | internal/smartlockserver/server.go:42-48 | locked, with the counter at zero |
| Policy.AtMostOneFires | policies/agent_tools.rego:25-214 | the complete rule never conflicts: no two of its bodies match the same input |
| Policy.AuthorizationExactly | policies/agent_tools.rego:1-214 | for every input the seventeen bodies decide what a table says tool by tool: subject, actors, channel and capability, the arguments the tool may be called with, and the whole grant with obligations and reason |
| Policy.OfficeHoursExactly | policies/agent_tools.rego:94-123 | a window is allowed exactly when it starts on a Monday to Friday from nine o clock on, ends on the same weekday before 17:00:01, and lies within the next 14 days |
| Policy.ReferenceExactly | policies/agent_tools.rego:187-190 | a reference is proposal- followed by at least one letter, digit or hyphen and nothing else |
| Policy.DecisionOfBody | policies/agent_tools.rego:13-214 | the decision is the value of whichever body matches |
| Policy.FirstValueMeans | policies/agent_tools.rego:13-214 | and the default exactly when none does |
| Policy.ExecuteImpliesDiscover | policies/agent_tools.rego:17-214 | whatever a context may execute it may discover, at any time and whatever the arguments |
| Policy.CapabilitiesMonotone | policies/agent_tools.rego:17-214 | adding capabilities never changes an allow |
| Policy.EffectToolsExactly | policies/agent_tools.rego:160-214 | approve, deny and unlock are allowed exactly to the Owner on the Telegram channel with the capability of the tool, for a well-formed reference or the demo door |
| Policy.DutiesAreSeparate | policies/agent_tools.rego:17-214 | every allow needs the capability of the tool in the turn; the external subject gets exactly the availability and submission tools and no one else does; the coding agent gets neither mail, calendar nor lock |
| Policy.AllowedWindow | policies/agent_tools.rego:94-115 | both ends of an allowed window lie on UTC days 0, 7 or 14 apart, from 09:00:00 on and before 17:00:01, within the next 14 days |
| Policy.OneWorkingDayExactly | policies/agent_tools.rego:94-115 | an allowed window lies inside one working day exactly when it is shorter than eight hours and a second, which is exactly when its days are equal |
| Policy.WeekLongWindowAllowed | policies/agent_tools.rego:94-115 | windows of one and of two weeks are allowed |
| RateLimit.NewLimits | internal/telegramadapter/handler.go:320-338 | every limit is at least one and the window positive, whatever is configured |
| RateLimit.ConfiguredAnswers | internal/telegramadapter/handler.go:320-356 | all answers of a configured limiter: each action has its own setting, 10 for availability, 3 for proposal and an hour where none is set; window by window so many calls of a subject are let through and the rest refused until the window has passed |
| RateLimit.WithinOneWindow | internal/telegramadapter/handler.go:340-356 | while calls come within one window exactly the first ones up to the limit are let through |
| RateLimit.KeysAreIndependent | internal/telegramadapter/handler.go:340-356 | the answers a subject and action get depend on their own calls alone: the map refines one limiter a key |
| RateLimit.SlidingWindowBound | internal/telegramadapter/handler.go:340-356 | on a forward clock no interval as long as the window sees more than 2 * limit - 1 allowed calls of one key |
| RateLimit.BoundAttained | internal/telegramadapter/handler.go:340-356 | and that many are reached, for every limit and every window of at least two ticks |
| RateLimit.RateLimits.Allow | internal/telegramadapter/handler.go:340-356 | the new entry and the answer; other keys and refused calls leave the map alone |
| Audit.SafeArguments | internal/gateway/telemetry.go:124-146 | the projection holds exactly the allowed names that the call supplies, with a query replaced by its length |
| Audit.CheckArguments | internal/gateway/telemetry.go:149-160 | true exactly when the tool is known and every name is allowed for it |
| Audit.AuditedNames | internal/gateway/telemetry.go:110-122 | which argument of which tool a record may show, name by name: no reason, contact, query or Approval |
| Audit.AuditedTools | internal/gateway/telemetry.go:110-122 | the tools with such a list are those the policy knows, and requests that name none |
| Audit.DetailedRecordValid | internal/gateway/gateway.go:893-921 | a built record passes the schema of the collector exactly when actor, channel, tool, outcome, operation, reason, arguments, duration and a trace or correlation are in order; all other gaps are filled |
| Audit.Observation.Correlated | internal/gateway/telemetry.go:164-175 | a failed decision is observed as failure; a decision gets the correlation of the question if it has none |
| Audit.Observation.OperationalRecord | internal/gateway/gateway.go:841-921 | every field of the record of a tool call; it is deny evidence exactly when the call failed or a failure was observed, and is valid exactly when actor, channel and tool are in order and a call that went through was decided with a reason |
| Audit.ToolCallRecord | internal/gateway/gateway.go:388-406 | for any raw arguments, decision, result and failure, the record of a registered tool passes the schema of the collector, and says outcome, reason and correlation of this call |
| Audit.ReasonlessRecordRefused | internal/gateway/gateway.go:893-921 | a successful call decided without a reason has a record the collector refuses |
| Audit.PolicyGivesReason | policies/agent_tools.rego:13-214 | every decision of the policy has a reason |
| Audit.Collector.PostRecord | internal/auditserver/server.go:27-39 | appended exactly when valid |
| Audit.Collector.PostReset | internal/auditserver/server.go:46-51 | emptied |
| ProtocolSafety.StepKeeps | internal/gateway/gateway.go:601-732 | every action of the protocol keeps the invariant, whatever else is under way |
| ProtocolSafety.RunKeeps | internal/gateway/gateway.go:601-732 | every run keeps the invariant |
| ProtocolSafety.ReachableInv | internal/gateway/gateway.go:601-732 | the invariant holds in every state reachable from a start on any state file |
| ProtocolSafety.GrantedBy | internal/gateway/gateway.go:813-824 | a handler past the policy serves the Owner, through the Telegram agent and channel, with the capability of its tool |
| ProtocolSteps.CommitAcceptedKeeps | internal/approvalauthority/handler.go:175-191 | an acceptance keeps the invariant: its nonce was on no earlier acceptance |
| ProtocolSteps.RestartKeeps | internal/approvalauthority/handler.go:200-219 | so does a restart of the Authority, with its calls in flight lost |
| ProtocolEffects.BeginKeeps | internal/meeting/store.go:94-110 | so does beginning an approval, fresh or as a retry |
| ProtocolEffects.DenyKeeps | internal/meeting/store.go:81-92 | so does a denial |
| ProtocolCalendar.EventKeeps | internal/calendarserver/server.go:83-98 | so does an event request at the calendar, late or not: it is for the stored operation and cannot conflict |
| ProtocolCalendar.StoredIsTheOperation | internal/calendarserver/server.go:85-89 | an event stored under the key of a proposal has the arguments of its operation, so the conflict branch is not taken |
| ProtocolCalendar.CompleteKeeps | internal/meeting/store.go:112-118 | so does completing |
| ProtocolCalendar.CancelKeeps | internal/meeting/store.go:120-126 | so does cancelling, after a refused request or an unanswered one |
| ProtocolLock.AuditKeeps | internal/gateway/gateway.go:718-721 | so does recording the evidence of an unlock |
| ProtocolLock.CallLockKeeps | internal/gateway/gateway.go:722-725 | so does calling the lock |
| ProtocolTheorems.EveryEffectIsApproved | internal/gateway/gateway.go:601-732 | every CreateEvent or unlock call follows an acceptance for its own handler of an Approval issued earlier, unexpired when checked, and issued for exactly the operation executed; the caller is the Owner on the Telegram turn |
| ProtocolTheorems.NoncesAreDistinct | internal/approvalauthority/handler.go:175-191 | no two handlers ever have the same nonce accepted, through any interleaving and restarts |
| ProtocolTheorems.EffectsWithinApprovals | internal/gateway/gateway.go:601-732 | calls with effects are at most the accepted Approvals, which are at most the issued ones |
| ProtocolTheorems.ApprovingExactlyWhileHeld | internal/gateway/gateway.go:624-638 | a proposal is approving exactly while one handler, and only one, is between a begin that was not a retry and complete or cancel |
| ProtocolRuns.OnwardRun | internal/meeting/store.go:33-126 | no run alters a stored proposal, a request, an effect, or an approved or denied status |
| ProtocolTheorems.ResolutionIsFinal | internal/meeting/store.go:81-126 | approved and denied are absorbing over every run |
| ProtocolTheorems.DeniedSendsNothing | internal/gateway/gateway.go:624-629 | after denial no handler sends the calendar a request for the proposal |
| ProtocolTheorems.ReviewedIsExecuted | internal/gateway/gateway.go:615-629 | the operation a handler reviews is the one it executes, whatever runs in between |
| ProtocolTheorems.EventsAreOperations | internal/calendarserver/server.go:83-98 | every stored event is the operation of a stored proposal, under its key and id; that proposal is approving, approved, or was cancelled with its request not refused |
| ProtocolOrigin.SubmissionIsReviewed | internal/meeting/store.go:33-79 | whatever runs after a submission, review shows its instants, texts and requester under its number, key and trace, exactly until it is denied |
| ProtocolOrigin.SubmissionIsBooked | internal/calendarserver/server.go:83-98 | and the event stored under its key has exactly these, with the id of its number; it is there once the proposal is approved |
| ProtocolOrigin.EveryEventWasSubmitted | internal/gateway/gateway.go:549-577 | every event on the calendar at the end of a run was submitted in that run, as it stands, by the external subject in a Telegram turn that may propose, in a form that the gateway and the policy take |
| ProtocolOrigin.IssuedToTheOwner | internal/approvalauthority/handler.go:236-259 | whatever was issued was issued with a key of 32 bytes to the owner, through the Telegram agent, under a trace, for one of the two tools |
| ProtocolOrigin.EventIsApproved | internal/gateway/gateway.go:601-629 | whoever asks the calendar for an event does so in the Telegram turn of the Owner with the capability, and has spent an Approval whose arguments are this event field by field |
| ProtocolOrigin.OpeningIsApproved | internal/gateway/gateway.go:678-725 | whoever calls the lock does so in such a turn, for the demo door, and has spent an Approval for it under the trace it named |
| ProtocolTheorems.OneEventPerProposal | internal/calendarserver/server.go:83-98 | at most one event a proposal; conflict is never answered; at most one request of a proposal is told it created the event and all successful ones are told the same id |
| ProtocolTheorems.ApprovedHasItsEvent | internal/gateway/gateway.go:630-638 | an approved proposal has its event, with the arguments of its operation |
| ProtocolTheorems.DeniedHasNoEvent | internal/gateway/gateway.go:647-676 | a denied proposal without a cancelled approval behind it has no event |
| ProtocolTheorems.DeniedMayGetEventExactly | internal/gateway/gateway.go:630-635 | a denied proposal can have its event, now or later, exactly when an approval of it was cancelled without the calendar having refused the request and the event is valid |
| ProtocolTheorems.UnlockHasEvidence | internal/gateway/gateway.go:703-732 | every call to the lock follows allow evidence, valid for the collector, that follows the acceptance and carries the trace of the Approval |
| ProtocolTheorems.EvidenceIsCollected | internal/gateway/gateway.go:718-721 | such evidence was appended to the records of the collector when it was acknowledged |
| ProtocolTheorems.LockOpensOncePerReset | internal/smartlockserver/server.go:39-69 | in every reachable state the counter shows the state of the lock and openings are at most resets plus one |
| ProtocolAnswers.AnswersAgree | internal/gateway/gateway.go:601-676 | a caller told that a proposal was denied, or that its event exists, is told the final status, so no two callers are told the one and the other |
| ProtocolOutcomes.AnswerMeans | internal/gateway/gateway.go:601-732 | however other handlers step in between: a handler has called the calendar or the lock exactly if its answer is one given after the call; an event id it gives names the stored event; opened means the lock answered so; denied means an Approval was spent |
| ProtocolWitness.RestartRecovers | internal/approvalauthority/handler.go:60-68 | in any state a restart on a file that loads may come: the Authority serves again with every nonce on file used, and only its own calls in flight are lost |
| ProtocolWitness.CheckedRun | internal/gateway/gateway.go:609-622 | a fresh Approval of any proposal that is not denied, issued and presented by the Owner, passes the checks of the Authority |
| ProtocolWitness.AcceptedRun | internal/gateway/gateway.go:609-622 | and reaches the step that resolves the proposal, whichever of approve and deny presents it |
| ProtocolWitness.AcceptedAtAnyTime | internal/approvalauthority/handler.go:168-191 | the expiry is checked before the critical section, so an Approval can be accepted at any instant, its expiry included |
| ProtocolClock.AcceptedBeforeExpiryAnd | internal/approvalauthority/handler.go:168-191 | on runs whose clock goes forward by at most d between a check and its commit, every acceptance comes at most d after its check and before d has passed since the expiry |
| ProtocolClock.MayBeLateExactly | internal/approvalauthority/handler.go:168-191 | a checked call with an unused nonce can be accepted expired within a delay exactly when the Approval does not outlive the check by more than that delay |
| ProtocolWitness.DeniedWithItsEvent | internal/gateway/gateway.go:624-676 | from any reachable state with a pending proposal for a valid event, a run ends with the proposal denied and its event on the calendar |
| ProtocolWitness.DeniedProposalWithEvent | internal/gateway/gateway.go:624-676 | a concrete such run from a new system: submit, approve, calendar late, cancel, deny, event served |
| HandlerRuns.ConsumeExactRun | internal/approvalauthority/handler.go:141-192 | a whole consumption at the Authority is a run of the protocol with the verdict of the Authority |
| GatewayHandlers.OpenedIsGenuine | internal/approvalauthority/handler.go:268-284 | with an unforgeable digest and only issued claims signed, a token that opens is genuine |
| GatewayHandlers.Gateway.IssueApproval | internal/approvalauthority/handler.go:100-139 | issuing is a run of the protocol; a token is given exactly for the bindings that may be issued, and is a genuine one of exactly these claims |
| GatewayHandlers.Gateway.Authorize | internal/gateway/gateway.go:813-824 | asking the policy is a step of the protocol; an unlock then has called the Authority with its binding |
| GatewayHandlers.Gateway.ConsumeExact | internal/gateway/gateway.go:620-623 | succeeds exactly when the Authority accepts and its answer arrives |
| GatewayHandlers.Gateway.CreateEvent | internal/calendarclient/client.go:62-89 | an event id exactly when the calendar is reached, takes the event and is heard; a conflict does not occur |
| GatewayHandlers.Gateway.Approve | internal/gateway/gateway.go:601-645 | the handler is a run of the protocol from any reachable state; it returns the event exactly under the stated conditions, and otherwise the exact refusal; with the event the proposal is approved and the event stored, saying field by field what the proposal says, else the store is unchanged; the calendar has served this request exactly when accepted and delivered; the handler ends the run with this result and has called the calendar exactly when accepted |
| GatewayHandlers.Gateway.Deny | internal/gateway/gateway.go:647-676 | likewise: denied exactly when permitted, pending and accepted; otherwise the exact refusal, with the store unchanged; the handler ends with this result and has no effect |
| GatewayHandlers.Gateway.Unlock | internal/gateway/gateway.go:678-732 | likewise: the answer, the state of the lock and the evidence are given exactly; when it answers that the lock opened, the lock is open and allow evidence of this caller, with the decision of the policy, under the trace of the Approval is stored; the handler ends with this result and has called the lock exactly once evidence was acknowledged |
| GatewayHandlers.Gateway.RecordEvidence | internal/gateway/gateway.go:718-721 | succeeds exactly when the sink is reached and acknowledges; the record is then valid allow evidence of this caller, with the decision of the policy, under the trace of the Approval |
| GatewayHandlers.Gateway.RefuseUnlock | internal/gateway/gateway.go:687-717 | deny evidence of this caller, with the decision, reason and trace given, is stored exactly when the sink is reached and reason, actor, channel and a trace or correlation are there; without a policy answer and a trace none is |
| GatewayTools.ShownExactly | internal/gateway/gateway.go:409-441 | a tool is shown exactly when the policy answers and the caller is the one the tool is for, on its channel and with its capability |
| GatewayTools.ListTools | internal/gateway/gateway.go:409-441 | the tools listed are exactly those shown, in order, and the evidence stored is that of each discovery of the lock, in order; no listing is given exactly when such evidence could not be stored and acknowledged |
| GatewayTools.ExecutableIsListed | internal/gateway/gateway.go:418-441 | a tool the context may execute is listed to it whenever the policy answers |
| GatewayTools.DiscoveryRecordValid | internal/gateway/gateway.go:422-432 | the evidence of a discovery of the lock is always valid, is of a discovery by this caller with the decision of the policy, and says allow exactly when the lock is listed |
| GatewayTools.MaySubmitExactly | policies/agent_tools.rego:128-157 | of what the gateway takes, the policy lets through exactly proposals of at most 200 and 320 characters by the external subject in a Telegram turn that may propose |
| GatewayTools.SubmitMeeting | internal/gateway/gateway.go:549-577 | a proposal is recorded exactly when it parses, the policy answers and it may be submitted, and refused as invalid exactly when the gateway does not take it; the recorded proposal is given field by field, and its event is valid exactly when it spans different seconds |

## Left out

- HTTP servers, clients, status codes and the MCP session machinery: library behaviour.
- Bearer credentials, OIDC, JWKS, Keycloak, Vault and the OAuth facade: a trusted security context is the input.
- The internals of HMAC, SHA-256 and random numbers: ideal functions.
- RFC 3339 parsing and formatting: see the assumptions; in bindings the text of a second is any injective rendering of it.
- Torn writes to the state file; `NonceFile.UnfinishedLineSwallows` shows why they would matter.
- Restarts of the gateway or the calendar, and several gateways on one calendar.
- Coffee station, Outlook and repository tools beyond their policy rules and audit arguments: they have no effects.
- Numbers with fractions or beyond the range of a double in tool arguments, and JSON strings that are not sequences of
  characters.
- The health check of the Authority before each tool call, and the error a caller gets when the record after a call
  cannot be stored: the record itself is modelled, the transport of that error is not.
- Telegram commands, message texts and identity mapping around the limiter.
- Demo reset control, replay demo, bundle server, smoke programs, health and metrics handlers.
- GatewayHandlers.Gateway.Approve: other handlers may be under way but do not step in between its calls; for handlers that
  are interrupted there are the theorems of the transition system, `ProtocolOutcomes.AnswerMeans` and
  `ProtocolAnswers.AnswersAgree` about answers among them.
- GatewayHandlers.Gateway.Deny: likewise.
- GatewayHandlers.Gateway.Unlock: likewise.
- ProtocolTheorems.EvidenceIsCollected: says what one step appended; a reset of the collector may remove it later.
