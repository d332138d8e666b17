/** Runs that exist: the Owner can always get an Approval accepted, a denied proposal can still get its event, and an
    Approval can be accepted after it expired. */
module ProtocolWitness {
  import opened Text
  import opened CanonicalJson
  import opened Instants
  import opened Protocol
  import opened ProtocolInvariant
  import opened ProtocolSafety
  import opened ProtocolRuns
  import opened ProtocolTheorems
  import Policy
  import Audit
  import Files = NonceFile
  import Expiry = ApprovalToken
  import Authority = ApprovalAuthority
  import Store = MeetingStore
  import Calendar = CalendarServer
  import CalendarGateway
  import Lock = SmartLockServer

  ghost predicate Leads(s: System, t: System) {
    exists actions :: Run(s, actions, t)
  }

  lemma {:induction false} RunThen(s: System, actions: seq<Action>, t: System, a: Action)
    requires Run(s, actions, t) && Enabled(t, a)
    ensures Run(s, actions + [a], Next(t, a))
    decreases |actions|
  {
    hide Enabled, Next;
    if actions == [] {
      assert actions + [a] == [a];
      RunOne(t, a);
    } else {
      RunThen(Next(s, actions[0]), actions[1..], t, a);
      assert (actions + [a])[1..] == actions[1..] + [a];
    }
  }

  lemma LeadsStep(s: System, t: System, a: Action, u: System)
    requires Leads(s, t) && Enabled(t, a) && u == Next(t, a)
    ensures Leads(s, u)
  {
    hide Run, Enabled, Next;
    var actions :| Run(s, actions, t);
    RunThen(s, actions, t, a);
  }

  lemma {:induction false} RunConcat(s: System, first: seq<Action>, t: System, second: seq<Action>, u: System)
    requires Run(s, first, t) && Run(t, second, u)
    ensures Run(s, first + second, u)
    decreases |first|
  {
    hide Enabled, Next;
    if first == [] {
      assert first + second == second;
    } else {
      RunConcat(Next(s, first[0]), first[1..], t, second, u);
      assert (first + second)[1..] == first[1..] + second;
    }
  }

  lemma LeadsOn(s: System, t: System, u: System)
    requires Leads(s, t) && Leads(t, u)
    ensures Leads(s, u)
  {
    hide Run;
    var first :| Run(s, first, t);
    var second :| Run(t, second, u);
    RunConcat(s, first, t, second, u);
  }

  lemma LeadsFromReachable(s: System, t: System)
    requires Reachable(s) && Leads(s, t)
    ensures Reachable(t) && Inv(t)
  {
    hide Run, Inv, Initial;
    var start, first :| Initial(start) && Run(start, first, s);
    var second :| Run(s, second, t);
    RunConcat(start, first, s, second, t);
    ReachableInv(t);
  }

  // ----- What may happen at any time -----

  /** The Authority serves again, with every nonce on file used; of its own, only calls in flight are lost. */
  predicate Recovered(s: System, t: System) {
    !t.nonces.failed && t.nonces.used == Files.Load(s.nonces.text).nonces && t.nonces.text == s.nonces.text
    && t.store == s.store && t.handlers == s.handlers && t.history == s.history
    && forall h :: h in s.consumes ==>
      h in t.consumes
      && if s.consumes[h].phase.Admitted? || s.consumes[h].phase.Checked? then t.consumes[h].phase.Dropped?
         else t.consumes[h] == s.consumes[h]
  }

  lemma RestartNext(s: System)
    requires Files.Load(s.nonces.text).ok
    ensures Enabled(s, RestartAuthority(true)) && Recovered(s, Next(s, RestartAuthority(true)))
  {
    hide Files.Load;
  }

  /** In any state a restart on a file that loads may come. */
  lemma RestartRecovers(s: System)
    requires Files.Load(s.nonces.text).ok
    ensures exists t :: Leads(s, t) && Recovered(s, t)
  {
    hide Run, Enabled, Next, Recovered;
    RestartNext(s);
    RunOne(s, RestartAuthority(true));
    assert Leads(s, Next(s, RestartAuthority(true)));
  }

  /** In any state the demo's resets may come, and each changes nothing else. */
  lemma LockResetMayCome(s: System)
    ensures Leads(s, s.(lock := Lock.LockState(false, 0), ticks := s.ticks + 1,
                        history := s.history.(resets := s.history.resets + 1)))
  {
    hide Run;
    RunOne(s, ResetLock);
  }

  lemma CollectorResetMayCome(s: System)
    ensures Leads(s, s.(collector := [], ticks := s.ticks + 1))
  {
    hide Run;
    RunOne(s, ResetCollector);
  }

  // ----- The Owner's Approval is accepted -----

  const OWNER_TURN := Policy.SecurityContext(Policy.OWNER, Policy.TELEGRAM_AGENT, Policy.TELEGRAM,
                                             ["calendar.meeting.approve"])

  const ANSWER := Answer("correlation", "decision", "revision")

  /** The Authority serves the policy's owner, can reach its file, and grants long enough to be used at once. */
  predicate Serving(s: System) {
    !s.nonces.failed && s.settings.keyLength >= 32 && s.settings.owner == Policy.OWNER
    && Expiry.Unexpired(s.clock, Expiry.ExpiresAt(s.clock, s.settings.ttl))
  }

  predicate FreshNonce(s: System, nonce: string) {
    Files.IsNonce(nonce) && nonce !in s.history.issued && nonce !in s.nonces.used
  }

  function BindingFor(s: System, id: string): Authority.Binding
    requires id in s.store.proposals
  {
    ExactBinding(OWNER_TURN, Store.OperationFor(s.store.proposals[id]))
  }

  function ClaimsOf(s: System, id: string, nonce: string): Authority.Claims
    requires id in s.store.proposals
  {
    Authority.ClaimsFor(BindingFor(s, id), s.clock, s.settings.ttl, nonce)
  }

  function Resolve(approve: bool, id: string, claims: Authority.Claims): Request {
    if approve then Approve(id, Opens(claims)) else Deny(id, Opens(claims))
  }

  /** The state after `n` steps of a handler h for this request: issued, and at the given stage and call. */
  function Served(s: System, h: HandlerId, id: string, approve: bool, nonce: string, decision: Audit.Decision,
                  stage: Stage, phase: Option<ConsumePhase>, n: nat): System
    requires id in s.store.proposals
  {
    var claims := ClaimsOf(s, id, nonce);
    s.(handlers := s.handlers[h := Handler(OWNER_TURN, Resolve(approve, id, claims), decision, stage)],
       consumes :=
         if phase.Some? then s.consumes[h := ConsumeCall(Opens(claims), BindingFor(s, id), phase.value)]
         else s.consumes,
       history := s.history.(issued := s.history.issued[nonce := Issue(BindingFor(s, id), claims, s.clock, s.ticks)]),
       ticks := s.ticks + n)
  }

  lemma {:induction false} DigitsAreReferenceChars(n: nat)
    ensures forall i :: 0 <= i < |Decimal(n)| ==> '0' <= Decimal(n)[i] <= '9'
    ensures Decimal(n) != ""
  {
    if n >= 10 { DigitsAreReferenceChars(n / 10); }
  }

  /** The ids the store gives out are references the policy lets through. */
  lemma StoredIdIsReference(store: Store.StoreState, id: string)
    requires Store.Valid(store) && id in store.proposals
    ensures Policy.ReferenceAllowed(Policy.ReferenceArguments(id))
  {
    hide Decimal;
    assert Store.Numbered(store, id);
    var n :| 1 <= n <= store.next && id == Store.ProposalId(n);
    DigitsAreReferenceChars(n);
    assert forall i :: 9 <= i < |id| ==> id[i] == Decimal(n)[i - 9];
  }

  lemma IssueStep(s: System, id: string, nonce: string)
    requires Store.Valid(s.store) && id in s.store.proposals && Serving(s) && FreshNonce(s, nonce)
    ensures Enabled(s, IssueApproval(BindingFor(s, id), nonce))
  {
    hide Files.IsNonce, Store.Numbered;
  }

  lemma StartStep(s: System, h: HandlerId, id: string, approve: bool, nonce: string)
    requires Store.Valid(s.store) && id in s.store.proposals && Serving(s) && FreshNonce(s, nonce) && h !in s.handlers
    ensures Leads(s, Served(s, h, id, approve, nonce, Audit.NO_DECISION, Authorizing, None, 2))
  {
    hide Files.IsNonce, Authority.ClaimsFor, Authority.ValidBinding, ExactBinding, Store.OperationFor, Store.Valid,
      Expiry.Unexpired;
    IssueStep(s, id, nonce);
    assert Run(s, [], s);
    var t := Next(s, IssueApproval(BindingFor(s, id), nonce));
    LeadsStep(s, s, IssueApproval(BindingFor(s, id), nonce), t);
    var a := StartHandler(h, OWNER_TURN, Resolve(approve, id, ClaimsOf(s, id, nonce)));
    LeadsStep(s, t, a, Next(t, a));
  }

  /** The decision the policy's answer becomes. */
  const GRANTED := Audit.Decision(true, "correlation", "decision", ["exact_approval"], "revision",
                                  "owner_exact_meeting_approval")

  lemma OwnerIsAllowed(s: System, id: string, approve: bool, claims: Authority.Claims)
    requires Store.Valid(s.store) && id in s.store.proposals
    ensures var handler := Handler(OWNER_TURN, Resolve(approve, id, claims), Audit.NO_DECISION, Authorizing);
      PolicyGrant(handler, s.clock).allow && Decided(PolicyGrant(handler, s.clock), ANSWER) == GRANTED
  {
    hide Store.Valid, Policy.ReferenceAllowed, Policy.FirstValue;
    StoredIdIsReference(s.store, id);
    var tool := if approve then Policy.APPROVE_PROPOSAL else Policy.DENY_PROPOSAL;
    Policy.DecisionOfBody(Policy.ApprovalExecute, Policy.ExecuteInput(OWNER_TURN, tool, Policy.ReferenceArguments(id)),
                          s.clock);
  }

  lemma AuthorizeStep(s: System, h: HandlerId, id: string, approve: bool, nonce: string)
    requires Store.Valid(s.store) && id in s.store.proposals
    ensures var t := Served(s, h, id, approve, nonce, Audit.NO_DECISION, Authorizing, None, 2);
      Enabled(t, Authorize(h, Some(ANSWER)))
      && Next(t, Authorize(h, Some(ANSWER))) == Served(s, h, id, approve, nonce, GRANTED, Reviewing, None, 3)
  {
    hide Authority.ClaimsFor, ExactBinding, Store.OperationFor, Store.Valid, PolicyGrant, Decided;
    OwnerIsAllowed(s, id, approve, ClaimsOf(s, id, nonce));
    Overwritten(s.handlers, h, Handler(OWNER_TURN, Resolve(approve, id, ClaimsOf(s, id, nonce)), Audit.NO_DECISION,
                                       Authorizing),
                Handler(OWNER_TURN, Resolve(approve, id, ClaimsOf(s, id, nonce)), GRANTED, Reviewing));
  }

  lemma Overwritten<T>(m: map<HandlerId, T>, h: HandlerId, first: T, second: T)
    ensures m[h := first][h := second] == m[h := second]
  {
  }

  lemma ReviewStep(s: System, h: HandlerId, id: string, approve: bool, nonce: string)
    requires id in s.store.proposals && !HasStatus(s, id, Store.Denied)
    ensures var t := Served(s, h, id, approve, nonce, GRANTED, Reviewing, None, 3);
      Enabled(t, Review(h)) && Next(t, Review(h)) == Served(s, h, id, approve, nonce, GRANTED, Consuming, Some(Sent), 4)
  {
    hide Authority.ClaimsFor, ExactBinding, Store.OperationFor;
    Overwritten(s.handlers, h, Handler(OWNER_TURN, Resolve(approve, id, ClaimsOf(s, id, nonce)), GRANTED, Reviewing),
                Handler(OWNER_TURN, Resolve(approve, id, ClaimsOf(s, id, nonce)), GRANTED, Consuming));
  }

  lemma ArriveStep(s: System, h: HandlerId, id: string, approve: bool, nonce: string)
    requires id in s.store.proposals && !s.nonces.failed
    ensures var t := Served(s, h, id, approve, nonce, GRANTED, Consuming, Some(Sent), 4);
      Enabled(t, ConsumeArrives(h))
      && Next(t, ConsumeArrives(h)) == Served(s, h, id, approve, nonce, GRANTED, Consuming, Some(Admitted), 5)
  {
    hide Authority.ClaimsFor, ExactBinding, Store.OperationFor;
    Overwritten(s.consumes, h, ConsumeCall(Opens(ClaimsOf(s, id, nonce)), BindingFor(s, id), Sent),
                ConsumeCall(Opens(ClaimsOf(s, id, nonce)), BindingFor(s, id), Admitted));
  }

  lemma NonceOfClaims(s: System, id: string, nonce: string)
    requires id in s.store.proposals && Serving(s)
    ensures ClaimsOf(s, id, nonce).nonce == nonce
    ensures ClaimsOf(s, id, nonce).expiresAt == Expiry.ExpiresAt(s.clock, s.settings.ttl)
    ensures Authority.Matches(ClaimsOf(s, id, nonce), BindingFor(s, id), s.clock)
    ensures ClaimsOf(s, id, nonce).traceId == s.store.proposals[id].traceId
  {
    hide Expiry.Unexpired, Expiry.ExpiresAt, Authority.SameBinding;
    Authority.ExactMatch(BindingFor(s, id), s.clock, s.settings.ttl, nonce, BindingFor(s, id));
  }

  lemma CheckStep(s: System, h: HandlerId, id: string, approve: bool, nonce: string)
    requires id in s.store.proposals && Serving(s)
    ensures var t := Served(s, h, id, approve, nonce, GRANTED, Consuming, Some(Admitted), 5);
      Enabled(t, ConsumeChecked(h))
      && Next(t, ConsumeChecked(h)) == Served(s, h, id, approve, nonce, GRANTED, Consuming, Some(Checked(s.clock)), 6)
  {
    hide ClaimsOf, BindingFor, Authority.Matches, Serving;
    NonceOfClaims(s, id, nonce);
    Overwritten(s.consumes, h, ConsumeCall(Opens(ClaimsOf(s, id, nonce)), BindingFor(s, id), Admitted),
                ConsumeCall(Opens(ClaimsOf(s, id, nonce)), BindingFor(s, id), Checked(s.clock)));
  }

  /** A fresh Approval of any proposal that is not denied, issued and presented, passes the Authority's checks. */
  lemma CheckedRun(s: System, h: HandlerId, id: string, approve: bool, nonce: string)
    requires Store.Valid(s.store) && id in s.store.proposals && !HasStatus(s, id, Store.Denied)
    requires Serving(s) && FreshNonce(s, nonce) && h !in s.handlers
    ensures Leads(s, Served(s, h, id, approve, nonce, GRANTED, Consuming, Some(Checked(s.clock)), 6))
  {
    hide Store.Valid, HasStatus, Leads, Enabled, Next, Served, FreshNonce;
    StartStep(s, h, id, approve, nonce);
    AuthorizeStep(s, h, id, approve, nonce);
    ReviewStep(s, h, id, approve, nonce);
    ArriveStep(s, h, id, approve, nonce);
    CheckStep(s, h, id, approve, nonce);
    var t2 := Served(s, h, id, approve, nonce, Audit.NO_DECISION, Authorizing, None, 2);
    var t3 := Served(s, h, id, approve, nonce, GRANTED, Reviewing, None, 3);
    var t4 := Served(s, h, id, approve, nonce, GRANTED, Consuming, Some(Sent), 4);
    var t5 := Served(s, h, id, approve, nonce, GRANTED, Consuming, Some(Admitted), 5);
    var t6 := Served(s, h, id, approve, nonce, GRANTED, Consuming, Some(Checked(s.clock)), 6);
    LeadsStep(s, t2, Authorize(h, Some(ANSWER)), t3);
    LeadsStep(s, t3, Review(h), t4);
    LeadsStep(s, t4, ConsumeArrives(h), t5);
    LeadsStep(s, t5, ConsumeChecked(h), t6);
  }

  // ----- Accepted late -----

  predicate AcceptedAt(s: System, h: HandlerId, at: int, expiresAt: int) {
    h in s.history.accepted && s.history.accepted[h].acceptedAt == at
    && s.history.accepted[h].claims.expiresAt == expiresAt
  }

  lemma CommitsAt(t: System, h: HandlerId, late: int)
    requires h in t.consumes && t.consumes[h].phase.Checked? && t.consumes[h].token.Opens?
    requires !t.nonces.failed && t.consumes[h].token.claims.nonce !in t.nonces.used
    ensures Enabled(t, SetClock(late))
    ensures var later := Next(t, SetClock(late));
      Enabled(later, ConsumeCommits(h, Authority.Written))
      && var u := Next(later, ConsumeCommits(h, Authority.Written));
      h in u.history.accepted && u.history.accepted[h].acceptedAt == late
      && u.history.accepted[h].claims == t.consumes[h].token.claims
  {
  }

  /** The critical section does not look at the clock again: from any reachable state in which the Authority serves,
      an Approval can be accepted at any instant whatever, its expiry included or long past. */
  lemma AcceptedAtAnyTime(s: System, h: HandlerId, id: string, approve: bool, nonce: string, late: int)
    requires Reachable(s) && id in s.store.proposals && !HasStatus(s, id, Store.Denied)
    requires Serving(s) && FreshNonce(s, nonce) && h !in s.handlers
    ensures exists t :: Reachable(t) && AcceptedAt(t, h, late, Expiry.ExpiresAt(s.clock, s.settings.ttl))
  {
    hide Reachable, Inv, Store.Valid, HasStatus, Leads, Next, Run, ClaimsOf, BindingFor, Files.IsNonce,
      Expiry.Unexpired, Expiry.ExpiresAt;
    ReachableInv(s);
    StoreIsValid(s);
    CheckedRun(s, h, id, approve, nonce);
    NonceOfClaims(s, id, nonce);
    var t6 := Served(s, h, id, approve, nonce, GRANTED, Consuming, Some(Checked(s.clock)), 6);
    var t7 := Next(t6, SetClock(late));
    LeadsStep(s, t6, SetClock(late), t7);
    CommitsAt(t6, h, late);
    var t8 := Next(t7, ConsumeCommits(h, Authority.Written));
    LeadsStep(s, t7, ConsumeCommits(h, Authority.Written), t8);
    LeadsFromReachable(s, t8);
  }

  // ----- Accepted and handed back -----

  /** Handler h has had its Approval accepted and stands before the step that resolves the proposal; nothing else
      moved that matters to the proposal. */
  predicate ReadyToResolve(s: System, t: System, h: HandlerId, id: string, approve: bool, nonce: string) {
    t.store == s.store && t.events == s.events && t.settings == s.settings && t.clock == s.clock
    && t.creates == s.creates && t.history.abandoned == s.history.abandoned && t.handlers.Keys == s.handlers.Keys + {h}
    && !t.nonces.failed
    && (forall n :: n in t.nonces.used ==> n in s.nonces.used || n == nonce)
    && (forall n :: n in t.history.issued ==> n in s.history.issued || n == nonce)
    && h in t.handlers && t.handlers[h].stage == (if approve then Beginning else Denying)
    && (if approve then t.handlers[h].request.Approve? else t.handlers[h].request.Deny?)
    && t.handlers[h].request.proposalId == id
  }

  /** The state right after the nonce has been committed. */
  function Granting(s: System, h: HandlerId, id: string, approve: bool, nonce: string): System
    requires id in s.store.proposals
  {
    var t := Served(s, h, id, approve, nonce, GRANTED, Consuming, Some(Replied(Authority.Accepted)), 7);
    t.(nonces := Authority.Commit(s.nonces, nonce, Authority.Written).0,
       history := t.history.(accepted :=
         s.history.accepted[h := Acceptance(ClaimsOf(s, id, nonce), s.clock, s.clock, s.ticks + 6)]))
  }

  lemma CommitStep(s: System, h: HandlerId, id: string, approve: bool, nonce: string)
    requires id in s.store.proposals && Serving(s) && FreshNonce(s, nonce)
    ensures var t := Served(s, h, id, approve, nonce, GRANTED, Consuming, Some(Checked(s.clock)), 6);
      Enabled(t, ConsumeCommits(h, Authority.Written))
      && Next(t, ConsumeCommits(h, Authority.Written)) == Granting(s, h, id, approve, nonce)
  {
    hide ClaimsOf, BindingFor, Authority.Matches, Expiry.Unexpired, Expiry.ExpiresAt, Files.IsNonce, Files.Appended;
    NonceOfClaims(s, id, nonce);
    Overwritten(s.consumes, h, ConsumeCall(Opens(ClaimsOf(s, id, nonce)), BindingFor(s, id), Checked(s.clock)),
                ConsumeCall(Opens(ClaimsOf(s, id, nonce)), BindingFor(s, id), Replied(Authority.Accepted)));
  }

  lemma GrantingMeans(s: System, h: HandlerId, id: string, approve: bool, nonce: string)
    requires id in s.store.proposals && s.store.proposals[id].traceId != "" && Serving(s) && FreshNonce(s, nonce)
    ensures Enabled(Granting(s, h, id, approve, nonce), ConsumeReturns(h))
    ensures var t := Granting(s, h, id, approve, nonce).nonces;
      !t.failed && forall n :: n in t.used ==> n in s.nonces.used || n == nonce
  {
    hide ClaimsOf, BindingFor, Authority.Matches, Expiry.Unexpired, Expiry.ExpiresAt, Files.IsNonce, Files.Appended;
    NonceOfClaims(s, id, nonce);
  }

  lemma ReturnStep(s: System, h: HandlerId, id: string, approve: bool, nonce: string)
    requires id in s.store.proposals && s.store.proposals[id].traceId != "" && Serving(s) && FreshNonce(s, nonce)
    ensures var u := Granting(s, h, id, approve, nonce);
      Enabled(u, ConsumeReturns(h)) && ReadyToResolve(s, Next(u, ConsumeReturns(h)), h, id, approve, nonce)
  {
    hide ClaimsOf, BindingFor, Authority.Commit, Serving, FreshNonce, Enabled;
    GrantingMeans(s, h, id, approve, nonce);
  }

  /** A fresh Approval of any proposal that is not denied can be taken to the step that resolves it. */
  lemma AcceptedRun(s: System, h: HandlerId, id: string, approve: bool, nonce: string) returns (t: System)
    requires Store.Valid(s.store) && id in s.store.proposals && !HasStatus(s, id, Store.Denied)
    requires Serving(s) && FreshNonce(s, nonce) && h !in s.handlers
    ensures Leads(s, t) && ReadyToResolve(s, t, h, id, approve, nonce)
  {
    hide HasStatus, Leads, Enabled, Next, Served, Granting, FreshNonce, ReadyToResolve, Store.Numbered, Serving;
    CheckedRun(s, h, id, approve, nonce);
    CommitStep(s, h, id, approve, nonce);
    ReturnStep(s, h, id, approve, nonce);
    var t6 := Served(s, h, id, approve, nonce, GRANTED, Consuming, Some(Checked(s.clock)), 6);
    var t7 := Next(t6, ConsumeCommits(h, Authority.Written));
    t := Next(t7, ConsumeReturns(h));
    LeadsStep(s, t6, ConsumeCommits(h, Authority.Written), t7);
    LeadsStep(s, t7, ConsumeReturns(h), t);
  }

  // ----- Denied, and yet on the calendar -----

  /** What cancelling an approval whose request has not been answered leaves behind. */
  predicate Abandoned(s: System, t: System, id: string) {
    HasStatus(t, id, Store.Pending) && id in t.history.abandoned && t.store.proposals == s.store.proposals
    && t.settings == s.settings && t.clock == s.clock && t.nonces == s.nonces && t.history.issued == s.history.issued
    && t.handlers.Keys == s.handlers.Keys
  }

  /** Handler h, which serves the approval of an id, stands at a stage of its event request, not answered. */
  predicate Requesting(s: System, t: System, h: HandlerId, id: string, stage: Stage) {
    At(t, h, stage) && t.handlers[h].request.Approve? && t.handlers[h].request.proposalId == id
    && h in t.creates && t.creates[h].reply == None && HasStatus(t, id, Store.Approving)
    && t.store.proposals == s.store.proposals && t.settings == s.settings && t.clock == s.clock && t.nonces == s.nonces
    && t.history.issued == s.history.issued && t.handlers.Keys == s.handlers.Keys
  }

  lemma BeginStep(s: System, h: HandlerId, id: string)
    requires id in s.store.proposals && HasStatus(s, id, Store.Pending) && At(s, h, Beginning)
    requires s.handlers[h].request.Approve? && s.handlers[h].request.proposalId == id
    ensures Enabled(s, Begin(h)) && Requesting(s, Next(s, Begin(h)), h, id, Creating(false))
  {
    hide Store.OperationFor;
  }

  lemma CreateFailsStep(s: System, t: System, h: HandlerId, id: string)
    requires Requesting(s, t, h, id, Creating(false))
    ensures Enabled(t, CreateFails(h)) && Requesting(s, Next(t, CreateFails(h)), h, id, Cancelling)
  {
  }

  lemma CancelStep(s: System, t: System, h: HandlerId, id: string)
    requires Requesting(s, t, h, id, Cancelling)
    ensures Enabled(t, Cancel(h)) && Abandoned(s, Next(t, Cancel(h)), id)
  {
  }

  lemma AbandonRun(s: System, h: HandlerId, id: string) returns (t: System)
    requires id in s.store.proposals && HasStatus(s, id, Store.Pending) && At(s, h, Beginning)
    requires s.handlers[h].request.Approve? && s.handlers[h].request.proposalId == id
    ensures Leads(s, t) && Abandoned(s, t, id)
  {
    hide HasStatus, Leads, Enabled, Next, Abandoned, Requesting;
    LeadsNowhere(s);
    BeginStep(s, h, id);
    var t1 := Next(s, Begin(h));
    CreateFailsStep(s, t1, h, id);
    var t2 := Next(t1, CreateFails(h));
    CancelStep(s, t2, h, id);
    t := Next(t2, Cancel(h));
    LeadsStep(s, s, Begin(h), t1);
    LeadsStep(s, t1, CreateFails(h), t2);
    LeadsStep(s, t2, Cancel(h), t);
  }

  lemma LeadsNowhere(s: System)
    ensures Leads(s, s)
  {
    assert Run(s, [], s);
  }

  lemma DenyStep(s: System, t: System, k: HandlerId, id: string, nonce: string)
    requires ReadyToResolve(s, t, k, id, false, nonce) && id in s.store.proposals && HasStatus(s, id, Store.Pending)
    ensures Enabled(t, DenyProposal(k)) && HasStatus(Next(t, DenyProposal(k)), id, Store.Denied)
    ensures Next(t, DenyProposal(k)).history.abandoned == s.history.abandoned
    ensures Next(t, DenyProposal(k)).store.proposals == s.store.proposals
  {
  }

  /** From any reachable state with a pending proposal: its approval is cancelled while the event request is still
      under way, and then it is denied. */
  lemma DeniedAfterCancel(s: System, id: string, h: HandlerId, k: HandlerId, first: string, second: string)
    returns (t: System)
    requires Reachable(s) && id in s.store.proposals && HasStatus(s, id, Store.Pending) && Serving(s)
    requires h !in s.handlers && k !in s.handlers && h != k
    requires FreshNonce(s, first) && FreshNonce(s, second) && first != second
    ensures Leads(s, t) && HasStatus(t, id, Store.Denied) && id in t.history.abandoned
    ensures t.store.proposals == s.store.proposals
  {
    hide Reachable, Inv, Leads, Enabled, Next, Files.IsNonce, Expiry.Unexpired, Expiry.ExpiresAt, Store.Valid;
    ReachableInv(s);
    StoreIsValid(s);
    var t1 := AcceptedRun(s, h, id, true, first);
    var t4 := AbandonRun(t1, h, id);
    LeadsOn(s, t1, t4);
    LeadsFromReachable(s, t4);
    StoreIsValid(t4);
    var t5 := AcceptedRun(t4, k, id, false, second);
    DenyStep(t4, t5, k, id, second);
    t := Next(t5, DenyProposal(k));
    LeadsStep(t4, t5, DenyProposal(k), t);
    LeadsOn(s, t4, t);
  }

  predicate DeniedWithEvent(s: System, id: string) {
    HasStatus(s, id, Store.Denied) && Store.IdempotencyKey(id) in s.events
  }

  /** Denying does not keep the event out: any pending proposal for a valid event can end denied with its event on the
      calendar. */
  lemma DeniedWithItsEvent(s: System, id: string, h: HandlerId, k: HandlerId, first: string, second: string)
    requires Reachable(s) && id in s.store.proposals && HasStatus(s, id, Store.Pending) && Serving(s)
    requires h !in s.handlers && k !in s.handlers && h != k
    requires FreshNonce(s, first) && FreshNonce(s, second) && first != second
    requires Calendar.ValidEvent(Store.OperationFor(s.store.proposals[id]).arguments)
    ensures exists t :: Reachable(t) && DeniedWithEvent(t, id)
  {
    hide Reachable, Inv, Run, HasStatus, Serving, FreshNonce, Store.OperationFor, Store.IdempotencyKey,
      Calendar.ValidEvent;
    var denied := DeniedAfterCancel(s, id, h, k, first, second);
    LeadsFromReachable(s, denied);
    AbandonedMayBeServed(denied, id);
    var actions, t :| Run(denied, actions, t) && Store.IdempotencyKey(id) in t.events;
    ResolutionIsFinal(denied, actions, t, id);
    LeadsFromReachable(denied, t);
  }

  // ----- One such run, from the very start -----

  /** An Authority on a new state file, with a two-minute lifetime, at the epoch. */
  const START := System(Settings(32, Policy.OWNER, 120 * SECOND), 0, 0, Store.EMPTY,
                        Authority.NonceState({}, false,
                                             ""), map[], Lock.LOCKED, [], map[], map[], map[], map[], NO_HISTORY)

  /** Half an hour, one hour from the start. */
  const REQUEST := Store.ProposalInput(HOUR, HOUR + HOUR / 2, "r", "r")

  const ALICE_TURN := Policy.SecurityContext(Policy.ALICE, Policy.TELEGRAM_AGENT, Policy.TELEGRAM,
                                             ["calendar.meeting.propose"])

  const ZEROS := "00000000000000000000000000000000"
  const ONES := "11111111111111111111111111111111"

  lemma StartIsInitial()
    ensures Initial(START)
  {
    assert Files.Load("") == Files.Loaded({}, true);
  }

  lemma AliceMaySubmit()
    ensures CalendarGateway.AcceptsProposal(REQUEST)
    ensures Policy.Authorization(SubmitInput(ALICE_TURN, REQUEST), 0).allow
  {
    hide TrimSpace, ByteLength, Policy.FirstValue;
    CalendarGateway.ShortText();
    assert Policy.Fires(Policy.ProposalExecute, SubmitInput(ALICE_TURN, REQUEST), 0);
    Policy.DecisionOfBody(Policy.ProposalExecute, SubmitInput(ALICE_TURN, REQUEST), 0);
  }

  lemma SubmittedIsValid()
    ensures var store := Store.Submitted(Store.EMPTY, Policy.ALICE, CalendarGateway.Trimmed(REQUEST));
      var id := Store.ProposalId(1);
      id in store.proposals && id in store.states && store.states[id] == Store.Pending
      && Calendar.ValidEvent(Store.OperationFor(store.proposals[id]).arguments)
  {
    hide TrimSpace, ByteLength, Calendar.ValidEvent, Store.OperationFor, Store.ProposalId, Store.NewProposal;
    CalendarGateway.ShortText();
    CalendarGateway.AcceptedIsCreatable(1, Policy.ALICE, REQUEST);
  }

  lemma AfterSubmission() returns (s: System)
    ensures Reachable(s) && s.handlers == map[] && s.history.issued == map[] && s.nonces == START.nonces
    ensures s.settings == START.settings && s.clock == 0
    ensures s.store == Store.Submitted(Store.EMPTY, Policy.ALICE, CalendarGateway.Trimmed(REQUEST))
  {
    hide Run, Store.Submitted, CalendarGateway.AcceptsProposal, Policy.Authorization, SubmitInput, Initial,
      CalendarGateway.Trimmed;
    StartIsInitial();
    AliceMaySubmit();
    s := Next(START, Submit(ALICE_TURN, REQUEST));
    RunOne(START, Submit(ALICE_TURN, REQUEST));
  }

  lemma NoncesAreFresh(s: System)
    requires s.history.issued == map[] && s.nonces == START.nonces
    ensures FreshNonce(s, ZEROS) && FreshNonce(s, ONES) && ZEROS != ONES
  {
    assert ZEROS[0] != ONES[0];
  }

  /** Alice submits, the Owner approves, the calendar does not answer in time, the Owner denies, and the calendar then
      serves the first request: the proposal is denied and its event exists. */
  lemma DeniedProposalWithEvent()
    ensures exists t :: Reachable(t) && DeniedWithEvent(t, Store.ProposalId(1))
  {
    hide Reachable, Store.OperationFor, Store.ProposalId, Calendar.ValidEvent, Store.Submitted,
      CalendarGateway.Trimmed, FreshNonce, DeniedWithEvent;
    SubmittedIsValid();
    var s := AfterSubmission();
    NoncesAreFresh(s);
    DeniedWithItsEvent(s, Store.ProposalId(1), 0, 1, ZEROS, ONES);
  }
}
