/** The authorization policy (policies/agent_tools.rego), body by body. */
module Policy {
  import opened Text
  import opened CanonicalJson
  import opened Instants
  import SmartLockServer

  datatype SecurityContext = SecurityContext(subject: string, actor: string, channel: string, capabilities: seq<string>)

  /** `start` and `end` are what time.parse_rfc3339_ns yields for arguments.start and arguments.end, in nanoseconds;
      None where it is undefined. */
  datatype Input = Input(context: SecurityContext, operation: string, tool: string, arguments: Json,
                         start: Option<int>, end: Option<int>)

  datatype Grant = Grant(allow: bool, obligations: seq<string>, reason: string)

  const OWNER := "owner-subject-id"
  const ALICE := "external-alice-subject-id"
  const TELEGRAM_AGENT := "telegram-agent"
  const CODING_AGENT := "coding-agent"
  const TELEGRAM := "telegram"
  const HTTP := "streamable-http"

  const READ_REPOSITORY := "dev.read_repository"
  const SEARCH_OUTLOOK := "outlook.search_messages"
  const READ_OUTLOOK := "outlook.read_message"
  const COFFEE_STATUS := "coffee_station.get_status"
  const FIND_AVAILABILITY := "calendar.find_availability"
  const SUBMIT_PROPOSAL := "calendar.submit_meeting_proposal"
  const REVIEW_PROPOSAL := "calendar.review_meeting_proposal"
  const APPROVE_PROPOSAL := "calendar.approve_meeting_proposal"
  const DENY_PROPOSAL := "calendar.deny_meeting_proposal"
  const UNLOCK_LOCK := "smart_lock.unlock"

  const DEFAULT_DENY := Grant(false, [], "default_deny")

  // ----- Argument access -----

  function Field(arguments: Json, name: string): Option<Json> {
    if arguments.Obj? && name in arguments.fields then Some(arguments.fields[name]) else None
  }

  /** is_string, not empty, and at most `limit` characters. */
  predicate BoundedText(arguments: Json, name: string, limit: nat) {
    match Field(arguments, name)
    case Some(Str(text)) => text != "" && |text| <= limit
    case _ => false
  }

  predicate Within(arguments: Json, name: string, low: int, high: int) {
    match Field(arguments, name)
    case Some(Number(n)) => low <= n <= high
    case _ => false
  }

  // ----- Eligibility -----

  predicate Eligible(input: Input, subject: string, actors: set<string>, channel: string, capability: string,
                     tools: set<string>) {
    input.context.subject == subject && input.context.actor in actors && input.context.channel == channel
    && capability in input.context.capabilities && input.tool in tools
  }

  predicate EligibleRepository(input: Input) {
    Eligible(input, OWNER, {CODING_AGENT}, HTTP, "dev.repository.read", {READ_REPOSITORY})
  }

  predicate EligibleOutlook(input: Input) {
    Eligible(input, OWNER, {TELEGRAM_AGENT}, TELEGRAM, "outlook.mail.read", {SEARCH_OUTLOOK, READ_OUTLOOK})
  }

  predicate EligibleCoffee(input: Input) {
    Eligible(input, OWNER, {TELEGRAM_AGENT, CODING_AGENT}, HTTP, "coffee_station.read", {COFFEE_STATUS})
  }

  predicate EligibleAvailability(input: Input) {
    Eligible(input, ALICE, {TELEGRAM_AGENT}, TELEGRAM, "calendar.free_busy.read", {FIND_AVAILABILITY})
  }

  predicate EligibleProposal(input: Input) {
    Eligible(input, ALICE, {TELEGRAM_AGENT}, TELEGRAM, "calendar.meeting.propose", {SUBMIT_PROPOSAL})
  }

  predicate EligibleApproval(input: Input) {
    Eligible(input, OWNER, {TELEGRAM_AGENT}, TELEGRAM, "calendar.meeting.approve",
             {REVIEW_PROPOSAL, APPROVE_PROPOSAL, DENY_PROPOSAL})
  }

  predicate EligibleLock(input: Input) {
    Eligible(input, OWNER, {TELEGRAM_AGENT}, TELEGRAM, "smart_lock.write", {UNLOCK_LOCK})
  }

  // ----- Availability: weekday and clock arithmetic over nanoseconds since the epoch -----

  predicate WorkingDayEnd(clock: Clock) {
    clock.hour < 17 || clock == Clock(17, 0, 0)
  }

  predicate WindowAllowed(start: int, end: int, now: int) {
    now <= start < end <= now + 14 * DAY
    && 1 <= Weekday(start) <= 5 && Weekday(end) == Weekday(start)
    && ClockOf(start).hour >= 9 && WorkingDayEnd(ClockOf(end))
  }

  /** What the rule is described as: one window inside the working hours of one weekday. */
  predicate InsideOneWorkingDay(start: int, end: int) {
    DayOf(start) == DayOf(end) && 1 <= Weekday(start) <= 5
    && DayOf(start) * DAY + 9 * HOUR <= start < end < DayOf(start) * DAY + 17 * HOUR + SECOND
  }

  lemma ClockBounds(t: int)
    ensures t == DayOf(t) * DAY + t % DAY
    ensures ClockOf(t).hour >= 9 <==> DayOf(t) * DAY + 9 * HOUR <= t
    ensures WorkingDayEnd(ClockOf(t)) <==> t < DayOf(t) * DAY + 17 * HOUR + SECOND
  {
    hide ClockOf;
    ClockReads(t);
  }

  lemma SameWeekday(a: int, b: int)
    requires (a + 4) % 7 == (b + 4) % 7 && a <= b <= a + 14
    ensures b - a in {0, 7, 14}
  {
  }

  /** Both ends of an allowed window fall on the same weekday 0, 7 or 14 days apart, its start not before nine and
      its end not after five, and it lies within the next fourteen days. */
  lemma AllowedWindow(start: int, end: int, now: int)
    requires WindowAllowed(start, end, now)
    ensures DayOf(end) - DayOf(start) in {0, 7, 14}
    ensures DayOf(start) * DAY + 9 * HOUR <= start && end < DayOf(end) * DAY + 17 * HOUR + SECOND
    ensures now <= start < end <= now + 14 * DAY
  {
    ClockBounds(start);
    ClockBounds(end);
    DaysBetween(start, end);
    SameWeekday(DayOf(start), DayOf(end));
  }

  lemma DaysBetween(start: int, end: int)
    requires start <= end <= start + 14 * DAY
    ensures DayOf(start) <= DayOf(end) <= DayOf(start) + 14
  {
    assert DayOf(start + 14 * DAY) == DayOf(start) + 14;
  }

  /** An allowed window is the single working-day window it is meant to be exactly when it is shorter than a
      working day and a second; every other allowed window spans one or two weeks. */
  lemma OneWorkingDayExactly(start: int, end: int, now: int)
    requires WindowAllowed(start, end, now)
    ensures InsideOneWorkingDay(start, end) <==> end - start < 8 * HOUR + SECOND
    ensures InsideOneWorkingDay(start, end) <==> DayOf(start) == DayOf(end)
  {
    AllowedWindow(start, end, now);
    ClockBounds(start);
    ClockBounds(end);
  }

  /** From Monday 1970-01-05 at 23:00 to ten o'clock on the Monday one week later, and two weeks later from 12:00. */
  lemma WeekLongWindowAllowed()
    ensures var monday := 4 * DAY;
      WindowAllowed(monday + 23 * HOUR, monday + 7 * DAY + 10 * HOUR, monday)
      && !InsideOneWorkingDay(monday + 23 * HOUR, monday + 7 * DAY + 10 * HOUR)
      && WindowAllowed(monday + 12 * HOUR, monday + 14 * DAY + 10 * HOUR, monday + 11 * HOUR)
  {
    hide DayOf, Weekday, ClockOf;
    MondayAt(0, 23, 0);
    MondayAt(1, 10, 0);
    MondayAt(0, 12, 0);
    MondayAt(2, 10, 0);
  }

  // ----- Other argument rules -----

  predicate ProposalArgumentsAllowed(input: Input) {
    input.start.Some? && input.end.Some?
    && input.start.value < input.end.value <= input.start.value + 2 * HOUR
    && BoundedText(input.arguments, "reason", 200) && BoundedText(input.arguments, "contact", 320)
  }

  predicate ReferenceChar(c: char) {
    'a' <= c <= 'z' || 'A' <= c <= 'Z' || '0' <= c <= '9' || c == '-'
  }

  /** ^proposal-[a-zA-Z0-9-]+$ */
  predicate ProposalReference(id: string) {
    HasPrefix(id, "proposal-") && |id| > |"proposal-"|
    && forall i :: |"proposal-"| <= i < |id| ==> ReferenceChar(id[i])
  }

  predicate ReferenceAllowed(arguments: Json) {
    match Field(arguments, "proposal_id")
    case Some(Str(id)) => ProposalReference(id)
    case _ => false
  }

  // ----- The bodies of the complete rule `authorization` -----

  datatype Body =
    | RepositoryDiscover | RepositoryExecute
    | OutlookDiscover | OutlookRead | OutlookSearch
    | CoffeeExecute | CoffeeDiscover
    | AvailabilityExecute | AvailabilityDiscover
    | ProposalDiscover | ProposalExecute
    | ApprovalDiscover | ReviewExecute | ApprovalExecute
    | LockForeignSubject | LockDiscover | LockExecute

  const BODIES := [
    RepositoryDiscover, RepositoryExecute, OutlookDiscover, OutlookRead, OutlookSearch, CoffeeExecute, CoffeeDiscover,
    AvailabilityExecute, AvailabilityDiscover, ProposalDiscover, ProposalExecute, ApprovalDiscover, ReviewExecute,
    ApprovalExecute, LockForeignSubject, LockDiscover, LockExecute]

  predicate Fires(body: Body, input: Input, now: int) {
    match body
    case RepositoryDiscover => EligibleRepository(input) && input.operation == "discover"
    case RepositoryExecute =>
      EligibleRepository(input) && input.operation == "execute"
      && input.arguments == Obj(map["path" := Str("CONTEXT.md")])
    case OutlookDiscover => EligibleOutlook(input) && input.operation == "discover"
    case OutlookRead =>
      EligibleOutlook(input) && input.operation == "execute" && input.tool == READ_OUTLOOK
      && Field(input.arguments, "message_id") == Some(Str("demo-injection-message"))
    case OutlookSearch =>
      EligibleOutlook(input) && input.operation == "execute" && input.tool == SEARCH_OUTLOOK
      && BoundedText(input.arguments, "query", 100) && Within(input.arguments, "limit", 1, 5)
    case CoffeeExecute =>
      EligibleCoffee(input) && input.operation == "execute"
      && Field(input.arguments, "station_id") == Some(Str("demo-station"))
    case CoffeeDiscover => EligibleCoffee(input) && input.operation == "discover"
    case AvailabilityExecute =>
      EligibleAvailability(input) && input.operation == "execute"
      && input.start.Some? && input.end.Some? && WindowAllowed(input.start.value, input.end.value, now)
    case AvailabilityDiscover => EligibleAvailability(input) && input.operation == "discover"
    case ProposalDiscover => EligibleProposal(input) && input.operation == "discover"
    case ProposalExecute =>
      EligibleProposal(input) && input.operation == "execute" && ProposalArgumentsAllowed(input)
    case ApprovalDiscover => EligibleApproval(input) && input.operation == "discover"
    case ReviewExecute =>
      EligibleApproval(input) && input.operation == "execute" && input.tool == REVIEW_PROPOSAL
      && ReferenceAllowed(input.arguments)
    case ApprovalExecute =>
      EligibleApproval(input) && input.operation == "execute" && input.tool in {APPROVE_PROPOSAL, DENY_PROPOSAL}
      && ReferenceAllowed(input.arguments)
    case LockForeignSubject => input.tool == UNLOCK_LOCK && input.context.subject != OWNER
    case LockDiscover => EligibleLock(input) && input.operation == "discover"
    case LockExecute =>
      EligibleLock(input) && input.operation == "execute"
      && input.arguments == Obj(map["device_id" := Str(SmartLockServer.DEMO_DEVICE)])
  }

  function Value(body: Body): Grant {
    match body
    case RepositoryDiscover => Grant(true, [], "owner_coding_repository_read")
    case RepositoryExecute => Grant(true, [], "owner_coding_repository_read")
    case OutlookDiscover => Grant(true, [], "owner_outlook_read_discovery")
    case OutlookRead => Grant(true, [], "owner_exact_outlook_message")
    case OutlookSearch => Grant(true, [], "owner_bounded_outlook_search")
    case CoffeeExecute => Grant(true, [], "owner_demo_station")
    case CoffeeDiscover => Grant(true, [], "owner_tool_discovery")
    case AvailabilityExecute => Grant(true, [], "external_free_busy")
    case AvailabilityDiscover => Grant(true, [], "external_availability_discovery")
    case ProposalDiscover => Grant(true, [], "external_meeting_proposal")
    case ProposalExecute => Grant(true, [], "external_meeting_proposal")
    case ApprovalDiscover => Grant(true, ["exact_approval"], "owner_exact_meeting_approval")
    case ReviewExecute => Grant(true, [], "owner_meeting_review")
    case ApprovalExecute => Grant(true, ["exact_approval"], "owner_exact_meeting_approval")
    case LockForeignSubject => Grant(false, [], "smart_lock_owner_subject_required")
    case LockDiscover => Grant(true, ["exact_approval"], "owner_exact_smart_lock")
    case LockExecute => Grant(true, ["exact_approval"], "owner_exact_smart_lock")
  }

  function FirstValue(bodies: seq<Body>, input: Input, now: int): Grant {
    if bodies == [] then DEFAULT_DENY
    else if Fires(bodies[0], input, now) then Value(bodies[0])
    else FirstValue(bodies[1..], input, now)
  }

  function Authorization(input: Input, now: int): Grant {
    FirstValue(BODIES, input, now)
  }

  /** Which tools a body is about; bodies about a common tool and the same operation cannot both fire, apart from
      the smart lock's foreign-subject body, which needs another subject. */
  function Subject(body: Body): set<string> {
    match body
    case RepositoryDiscover => {READ_REPOSITORY}
    case RepositoryExecute => {READ_REPOSITORY}
    case OutlookDiscover => {SEARCH_OUTLOOK, READ_OUTLOOK}
    case OutlookRead => {READ_OUTLOOK}
    case OutlookSearch => {SEARCH_OUTLOOK}
    case CoffeeExecute => {COFFEE_STATUS}
    case CoffeeDiscover => {COFFEE_STATUS}
    case AvailabilityExecute => {FIND_AVAILABILITY}
    case AvailabilityDiscover => {FIND_AVAILABILITY}
    case ProposalDiscover => {SUBMIT_PROPOSAL}
    case ProposalExecute => {SUBMIT_PROPOSAL}
    case ApprovalDiscover => {REVIEW_PROPOSAL, APPROVE_PROPOSAL, DENY_PROPOSAL}
    case ReviewExecute => {REVIEW_PROPOSAL}
    case ApprovalExecute => {APPROVE_PROPOSAL, DENY_PROPOSAL}
    case LockForeignSubject => {UNLOCK_LOCK}
    case LockDiscover => {UNLOCK_LOCK}
    case LockExecute => {UNLOCK_LOCK}
  }

  predicate Executes(body: Body) {
    body in {RepositoryExecute, OutlookRead, OutlookSearch, CoffeeExecute, AvailabilityExecute, ProposalExecute,
             ReviewExecute, ApprovalExecute, LockExecute}
  }

  lemma FiringNeeds(body: Body, input: Input, now: int)
    requires Fires(body, input, now)
    ensures input.tool in Subject(body)
    ensures body != LockForeignSubject ==> input.operation == if Executes(body) then "execute" else "discover"
    ensures body in {LockDiscover, LockExecute} ==> input.context.subject == OWNER
    ensures body == LockForeignSubject ==> input.context.subject != OWNER
  {
    hide WindowAllowed, BoundedText, ReferenceAllowed;
  }

  /** The complete rule never conflicts: at most one body fires. */
  lemma AtMostOneFires(a: Body, b: Body, input: Input, now: int)
    requires Fires(a, input, now) && Fires(b, input, now)
    ensures a == b
  {
    hide Fires;
    FiringNeeds(a, input, now);
    FiringNeeds(b, input, now);
  }

  lemma EveryBodyListed(body: Body)
    ensures body in BODIES
  {
    match body
    case RepositoryDiscover => assert BODIES[0] == body;
    case RepositoryExecute => assert BODIES[1] == body;
    case OutlookDiscover => assert BODIES[2] == body;
    case OutlookRead => assert BODIES[3] == body;
    case OutlookSearch => assert BODIES[4] == body;
    case CoffeeExecute => assert BODIES[5] == body;
    case CoffeeDiscover => assert BODIES[6] == body;
    case AvailabilityExecute => assert BODIES[7] == body;
    case AvailabilityDiscover => assert BODIES[8] == body;
    case ProposalDiscover => assert BODIES[9] == body;
    case ProposalExecute => assert BODIES[10] == body;
    case ApprovalDiscover => assert BODIES[11] == body;
    case ReviewExecute => assert BODIES[12] == body;
    case ApprovalExecute => assert BODIES[13] == body;
    case LockForeignSubject => assert BODIES[14] == body;
    case LockDiscover => assert BODIES[15] == body;
    case LockExecute => assert BODIES[16] == body;
  }

  lemma {:induction false} FirstValueMeans(bodies: seq<Body>, input: Input, now: int)
    ensures (forall b :: b in bodies ==> !Fires(b, input, now)) ==> FirstValue(bodies, input, now) == DEFAULT_DENY
    ensures (exists b :: b in bodies && Fires(b, input, now)) ==>
      exists b :: b in bodies && Fires(b, input, now) && FirstValue(bodies, input, now) == Value(b)
  {
    hide Fires, Value;
    if bodies != [] {
      FirstValueMeans(bodies[1..], input, now);
      assert bodies[0] in bodies;
      assert forall b :: b in bodies ==> b == bodies[0] || b in bodies[1..];
    }
  }

  /** The decision is the value of whichever body fires, in whatever order the bodies are tried, and the default
      when none does. */
  lemma DecisionOfBody(body: Body, input: Input, now: int)
    requires Fires(body, input, now)
    ensures Authorization(input, now) == Value(body)
  {
    hide Fires, Value, FirstValue;
    EveryBodyListed(body);
    FirstValueMeans(BODIES, input, now);
    var b :| b in BODIES && Fires(b, input, now) && Authorization(input, now) == Value(b);
    AtMostOneFires(body, b, input, now);
  }

  lemma AllowNeedsBody(input: Input, now: int) returns (body: Body)
    requires Authorization(input, now).allow
    ensures Fires(body, input, now) && Value(body).allow
  {
    hide Fires, Value, FirstValue;
    FirstValueMeans(BODIES, input, now);
    body :| Fires(body, input, now) && Authorization(input, now) == Value(body);
  }

  function DiscoverBody(body: Body): Body {
    match body
    case RepositoryExecute => RepositoryDiscover
    case OutlookRead => OutlookDiscover
    case OutlookSearch => OutlookDiscover
    case CoffeeExecute => CoffeeDiscover
    case AvailabilityExecute => AvailabilityDiscover
    case ProposalExecute => ProposalDiscover
    case ReviewExecute => ApprovalDiscover
    case ApprovalExecute => ApprovalDiscover
    case LockExecute => LockDiscover
    case other => other
  }

  lemma DiscoverFires(body: Body, input: Input, now: int, listing: Input, later: int)
    requires Fires(body, input, now) && Value(body).allow
    requires listing.operation == "discover" && listing.context == input.context && listing.tool == input.tool
    ensures Fires(DiscoverBody(body), listing, later) && Value(DiscoverBody(body)).allow
  {
    hide WindowAllowed, BoundedText, ReferenceAllowed, ProposalArgumentsAllowed, Field, Within;
  }

  /** Whatever a context may execute, it may discover, whenever it asks and whatever the arguments were. */
  lemma ExecuteImpliesDiscover(input: Input, now: int, listing: Input, later: int)
    requires Authorization(input, now).allow
    requires listing.operation == "discover" && listing.context == input.context && listing.tool == input.tool
    ensures Authorization(listing, later).allow
  {
    hide Fires, Value, DiscoverBody;
    var body := AllowNeedsBody(input, now);
    DiscoverFires(body, input, now, listing, later);
    DecisionOfBody(DiscoverBody(body), listing, later);
  }

  /** Adding capabilities never turns allow into deny. */
  lemma CapabilitiesMonotone(input: Input, now: int, more: seq<string>)
    requires Authorization(input, now).allow && forall c :: c in input.context.capabilities ==> c in more
    ensures Authorization(input.(context := input.context.(capabilities := more)), now) == Authorization(input, now)
  {
    hide Value;
    var body := AllowNeedsBody(input, now);
    var wider := input.(context := input.context.(capabilities := more));
    CapabilityKeepsFiring(body, input, now, wider);
    DecisionOfBody(body, input, now);
    DecisionOfBody(body, wider, now);
  }

  lemma CapabilityKeepsFiring(body: Body, input: Input, now: int, wider: Input)
    requires Fires(body, input, now)
    requires wider == input.(context := input.context.(capabilities := wider.context.capabilities))
    requires forall c :: c in input.context.capabilities ==> c in wider.context.capabilities
    ensures Fires(body, wider, now)
  {
    hide WindowAllowed, BoundedText, ReferenceAllowed, Field, Within;
  }

  // ----- What the policy grants for the tools with effects -----

  function ReferenceArguments(id: string): Json {
    Obj(map["proposal_id" := Str(id)])
  }

  function ExecuteInput(context: SecurityContext, tool: string, arguments: Json): Input {
    Input(context, "execute", tool, arguments, None, None)
  }

  /** Only the Owner, through the Telegram agent on the Telegram channel and with the tool's own turn capability,
      may execute a tool that resolves a proposal or opens the lock; and exactly then, for well-formed arguments. */
  lemma EffectToolsExactly(context: SecurityContext, tool: string, arguments: Json, now: int)
    requires tool in {APPROVE_PROPOSAL, DENY_PROPOSAL, UNLOCK_LOCK}
    ensures Authorization(ExecuteInput(context, tool, arguments), now).allow <==>
      context.subject == OWNER && context.actor == TELEGRAM_AGENT && context.channel == TELEGRAM
      && if tool == UNLOCK_LOCK
         then "smart_lock.write" in context.capabilities
              && arguments == Obj(map["device_id" := Str(SmartLockServer.DEMO_DEVICE)])
         else "calendar.meeting.approve" in context.capabilities && ReferenceAllowed(arguments)
  {
    hide FirstValue, ReferenceAllowed;
    var input := ExecuteInput(context, tool, arguments);
    var body := if tool == UNLOCK_LOCK then LockExecute else ApprovalExecute;
    if Fires(body, input, now) {
      DecisionOfBody(body, input, now);
    }
    if Authorization(input, now).allow {
      var firing := AllowNeedsBody(input, now);
      FiringNeeds(firing, input, now);
      assert firing == body;
    }
  }

  // ----- The whole policy, tool by tool -----

  /** Who reaches a tool and how, and what is granted for seeing and for calling it. */
  datatype Route = Route(subject: string, actors: set<string>, channel: string, capability: string, discovery: Grant,
                         execution: Grant)

  /** Every tool, with the names of the deployment spelled out. */
  const ROUTES: map<string, Route> := map[
    "dev.read_repository" :=
      Route("owner-subject-id", {"coding-agent"}, "streamable-http", "dev.repository.read",
            Grant(true, [], "owner_coding_repository_read"), Grant(true, [], "owner_coding_repository_read")),
    "outlook.search_messages" :=
      Route("owner-subject-id", {"telegram-agent"}, "telegram", "outlook.mail.read",
            Grant(true, [], "owner_outlook_read_discovery"), Grant(true, [], "owner_bounded_outlook_search")),
    "outlook.read_message" :=
      Route("owner-subject-id", {"telegram-agent"}, "telegram", "outlook.mail.read",
            Grant(true, [], "owner_outlook_read_discovery"), Grant(true, [], "owner_exact_outlook_message")),
    "coffee_station.get_status" :=
      Route("owner-subject-id", {"telegram-agent", "coding-agent"}, "streamable-http", "coffee_station.read",
            Grant(true, [], "owner_tool_discovery"), Grant(true, [], "owner_demo_station")),
    "calendar.find_availability" :=
      Route("external-alice-subject-id", {"telegram-agent"}, "telegram", "calendar.free_busy.read",
            Grant(true, [], "external_availability_discovery"), Grant(true, [], "external_free_busy")),
    "calendar.submit_meeting_proposal" :=
      Route("external-alice-subject-id", {"telegram-agent"}, "telegram", "calendar.meeting.propose",
            Grant(true, [], "external_meeting_proposal"), Grant(true, [], "external_meeting_proposal")),
    "calendar.review_meeting_proposal" :=
      Route("owner-subject-id", {"telegram-agent"}, "telegram", "calendar.meeting.approve",
            Grant(true, ["exact_approval"], "owner_exact_meeting_approval"), Grant(true, [], "owner_meeting_review")),
    "calendar.approve_meeting_proposal" :=
      Route("owner-subject-id", {"telegram-agent"}, "telegram", "calendar.meeting.approve",
            Grant(true, ["exact_approval"], "owner_exact_meeting_approval"),
            Grant(true, ["exact_approval"], "owner_exact_meeting_approval")),
    "calendar.deny_meeting_proposal" :=
      Route("owner-subject-id", {"telegram-agent"}, "telegram", "calendar.meeting.approve",
            Grant(true, ["exact_approval"], "owner_exact_meeting_approval"),
            Grant(true, ["exact_approval"], "owner_exact_meeting_approval")),
    "smart_lock.unlock" :=
      Route("owner-subject-id", {"telegram-agent"}, "telegram", "smart_lock.write",
            Grant(true, ["exact_approval"], "owner_exact_smart_lock"),
            Grant(true, ["exact_approval"], "owner_exact_smart_lock"))]

  /** The call comes from the tool's subject, through its actor and channel, in a turn with its capability. */
  predicate Comes(context: SecurityContext, route: Route) {
    context.subject == route.subject && context.actor in route.actors && context.channel == route.channel
    && route.capability in context.capabilities
  }

  predicate TextOfLength(arguments: Json, name: string, low: nat, high: nat) {
    arguments.Obj? && name in arguments.fields && arguments.fields[name].Str?
    && low <= |arguments.fields[name].text| <= high
  }

  /** The same weekday, Monday to Friday, from nine o'clock to the last second of five o'clock, within two weeks;
      1970-01-05 was a Monday. */
  predicate OfficeHours(start: int, end: int, now: int) {
    now <= start < end <= now + 1_209_600 * SECOND
    && (start / DAY - 4) % 7 < 5 && (end / DAY - start / DAY) % 7 == 0
    && start % DAY >= 32_400 * SECOND && end % DAY < 61_201 * SECOND
  }

  lemma OfficeHoursExactly(start: int, end: int, now: int)
    ensures WindowAllowed(start, end, now) <==> OfficeHours(start, end, now)
  {
    hide ClockOf, WorkingDayEnd;
    ClockBounds(start);
    ClockBounds(end);
    assert DAY == 86_400 * SECOND && DayOf(start) == start / DAY && DayOf(end) == end / DAY;
    WeekdaysAgree(start / DAY, end / DAY);
  }

  /** Days since the epoch: Monday to Friday, and the same weekday. */
  lemma WeekdaysAgree(a: int, b: int)
    ensures 1 <= (a + 4) % 7 <= 5 <==> (a - 4) % 7 < 5
    ensures (a + 4) % 7 == (b + 4) % 7 <==> (b - a) % 7 == 0
  {
  }

  /** "proposal-" and then at least one letter, digit or hyphen and nothing else. */
  ghost predicate IsReference(id: string) {
    exists tail :: tail != "" && id == "proposal-" + tail
      && forall c :: c in tail ==> 'a' <= c <= 'z' || 'A' <= c <= 'Z' || '0' <= c <= '9' || c == '-'
  }

  lemma ReferenceExactly(id: string)
    ensures ProposalReference(id) <==> IsReference(id)
  {
    if ProposalReference(id) {
      var tail := id[|"proposal-"|..];
      assert id == "proposal-" + tail;
      forall c | c in tail ensures ReferenceChar(c) {
        var i :| 0 <= i < |tail| && tail[i] == c;
        assert id[|"proposal-"| + i] == c;
      }
    } else if IsReference(id) {
      var tail :| tail != "" && id == "proposal-" + tail
        && forall c :: c in tail ==> 'a' <= c <= 'z' || 'A' <= c <= 'Z' || '0' <= c <= '9' || c == '-';
      forall i | |"proposal-"| <= i < |id| ensures ReferenceChar(id[i]) {
        assert id[i] == tail[i - |"proposal-"|] && tail[i - |"proposal-"|] in tail;
      }
      assert false;
    }
  }

  /** The arguments each tool may be called with. */
  ghost predicate MayBeCalledWith(tool: string, arguments: Json, start: Option<int>, end: Option<int>, now: int) {
    if tool == "dev.read_repository" then arguments == Obj(map["path" := Str("CONTEXT.md")])
    else if tool == "smart_lock.unlock" then arguments == Obj(map["device_id" := Str("demo-front-door")])
    else if tool == "outlook.read_message" then
      arguments.Obj? && "message_id" in arguments.fields
      && arguments.fields["message_id"] == Str("demo-injection-message")
    else if tool == "coffee_station.get_status" then
      arguments.Obj? && "station_id" in arguments.fields && arguments.fields["station_id"] == Str("demo-station")
    else if tool == "outlook.search_messages" then
      arguments.Obj? && TextOfLength(arguments, "query", 1, 100)
      && "limit" in arguments.fields && arguments.fields["limit"].Number? && 1 <= arguments.fields["limit"].number <= 5
    else if tool == "calendar.find_availability" then
      start.Some? && end.Some? && OfficeHours(start.value, end.value, now)
    else if tool == "calendar.submit_meeting_proposal" then
      start.Some? && end.Some? && 0 < end.value - start.value <= 7_200 * SECOND
      && TextOfLength(arguments, "reason", 1, 200) && TextOfLength(arguments, "contact", 1, 320)
    else
      arguments.Obj? && "proposal_id" in arguments.fields && arguments.fields["proposal_id"].Str?
      && IsReference(arguments.fields["proposal_id"].text)
  }

  /** What is granted, read off the table. */
  ghost function Granting(input: Input, now: int): Grant {
    if input.tool == "smart_lock.unlock" && input.context.subject != "owner-subject-id" then
      Grant(false, [], "smart_lock_owner_subject_required")
    else if input.tool !in ROUTES || !Comes(input.context, ROUTES[input.tool]) then Grant(false, [], "default_deny")
    else if input.operation == "discover" then ROUTES[input.tool].discovery
    else if input.operation == "execute"
      && MayBeCalledWith(input.tool, input.arguments, input.start, input.end, now) then ROUTES[input.tool].execution
    else Grant(false, [], "default_deny")
  }

  /** The body that decides about a tool, for its own subject. */
  function BodyFor(tool: string, execute: bool): Body
    requires tool in ROUTES
  {
    if tool == READ_REPOSITORY then if execute then RepositoryExecute else RepositoryDiscover
    else if tool == SEARCH_OUTLOOK then if execute then OutlookSearch else OutlookDiscover
    else if tool == READ_OUTLOOK then if execute then OutlookRead else OutlookDiscover
    else if tool == COFFEE_STATUS then if execute then CoffeeExecute else CoffeeDiscover
    else if tool == FIND_AVAILABILITY then if execute then AvailabilityExecute else AvailabilityDiscover
    else if tool == SUBMIT_PROPOSAL then if execute then ProposalExecute else ProposalDiscover
    else if tool == REVIEW_PROPOSAL then if execute then ReviewExecute else ApprovalDiscover
    else if tool == UNLOCK_LOCK then if execute then LockExecute else LockDiscover
    else if execute then ApprovalExecute else ApprovalDiscover
  }

  lemma DiscoverFiresExactly(input: Input, now: int)
    requires input.tool in ROUTES && input.operation == "discover"
    ensures Fires(BodyFor(input.tool, false), input, now) <==> Comes(input.context, ROUTES[input.tool])
    ensures Value(BodyFor(input.tool, false)) == ROUTES[input.tool].discovery
  {
  }

  /** The body for a call of this tool fires exactly when the table lets the call through, and with the same grant. */
  ghost predicate CallAgrees(input: Input, now: int) {
    input.tool in ROUTES
    && (Fires(BodyFor(input.tool, true), input, now) <==>
        Comes(input.context, ROUTES[input.tool])
        && MayBeCalledWith(input.tool, input.arguments, input.start, input.end, now))
    && Value(BodyFor(input.tool, true)) == ROUTES[input.tool].execution
  }

  lemma FixedCallAgrees(input: Input, now: int)
    requires input.operation == "execute" && input.tool in {READ_REPOSITORY, UNLOCK_LOCK, COFFEE_STATUS}
    ensures CallAgrees(input, now)
  {
  }

  lemma OutlookCallAgrees(input: Input, now: int)
    requires input.operation == "execute" && input.tool in {READ_OUTLOOK, SEARCH_OUTLOOK}
    ensures CallAgrees(input, now)
  {
  }

  lemma TimedCallAgrees(input: Input, now: int)
    requires input.operation == "execute" && input.tool in {FIND_AVAILABILITY, SUBMIT_PROPOSAL}
    ensures CallAgrees(input, now)
  {
    hide WindowAllowed, OfficeHours;
    if input.start.Some? && input.end.Some? { OfficeHoursExactly(input.start.value, input.end.value, now); }
  }

  lemma ReferenceCallAgrees(input: Input, now: int)
    requires input.operation == "execute" && input.tool in {REVIEW_PROPOSAL, APPROVE_PROPOSAL, DENY_PROPOSAL}
    ensures CallAgrees(input, now)
  {
    hide ProposalReference, IsReference;
    match Field(input.arguments, "proposal_id")
    case Some(Str(id)) => ReferenceExactly(id);
    case _ =>
  }

  lemma EveryTool(tool: string)
    ensures tool in ROUTES <==>
      tool in {READ_REPOSITORY, UNLOCK_LOCK, COFFEE_STATUS, READ_OUTLOOK, SEARCH_OUTLOOK, FIND_AVAILABILITY,
               SUBMIT_PROPOSAL, REVIEW_PROPOSAL, APPROVE_PROPOSAL, DENY_PROPOSAL}
  {
  }

  lemma EveryCallAgrees(input: Input, now: int)
    requires input.tool in ROUTES && input.operation == "execute"
    ensures CallAgrees(input, now)
  {
    hide CallAgrees;
    EveryTool(input.tool);
    if input.tool in {READ_REPOSITORY, UNLOCK_LOCK, COFFEE_STATUS} {
      FixedCallAgrees(input, now);
    } else if input.tool in {READ_OUTLOOK, SEARCH_OUTLOOK} {
      OutlookCallAgrees(input, now);
    } else if input.tool in {FIND_AVAILABILITY, SUBMIT_PROPOSAL} {
      TimedCallAgrees(input, now);
    } else {
      ReferenceCallAgrees(input, now);
    }
  }

  /** Only the bodies of its tool and operation, and the one about foreign subjects at the lock, fire at all. */
  lemma OnlyBodyFor(body: Body, input: Input, now: int)
    requires Fires(body, input, now) && body != LockForeignSubject
    ensures input.tool in ROUTES && input.operation in {"discover", "execute"}
    ensures body == BodyFor(input.tool, input.operation == "execute")
  {
    hide WindowAllowed, BoundedText, ReferenceAllowed, Field, Within, ProposalArgumentsAllowed;
  }

  lemma ForeignFires(input: Input, now: int)
    ensures Fires(LockForeignSubject, input, now) <==>
      input.tool == "smart_lock.unlock" && input.context.subject != "owner-subject-id"
    ensures Value(LockForeignSubject) == Grant(false, [], "smart_lock_owner_subject_required")
  {
  }

  /** The rule with its seventeen bodies decides what the table says, for every input: the whole grant with its
      obligations and its reason. */
  lemma AuthorizationExactly(input: Input, now: int)
    ensures Authorization(input, now) == Granting(input, now)
  {
    hide Fires, Value, FirstValue, Comes, MayBeCalledWith;
    ForeignFires(input, now);
    if Fires(LockForeignSubject, input, now) {
      DecisionOfBody(LockForeignSubject, input, now);
    } else {
      if input.tool in ROUTES && input.operation == "discover" {
        DiscoverFiresExactly(input, now);
        if Comes(input.context, ROUTES[input.tool]) { DecisionOfBody(BodyFor(input.tool, false), input, now); }
      } else if input.tool in ROUTES && input.operation == "execute" {
        EveryCallAgrees(input, now);
        if Fires(BodyFor(input.tool, true), input, now) { DecisionOfBody(BodyFor(input.tool, true), input, now); }
      }
      FirstValueMeans(BODIES, input, now);
      if exists b :: b in BODIES && Fires(b, input, now) {
        var b :| b in BODIES && Fires(b, input, now);
        OnlyBodyFor(b, input, now);
      }
    }
  }

  lemma DiscoveriesAllow(tool: string)
    requires tool in ROUTES
    ensures ROUTES[tool].discovery.allow
  {
  }

  lemma LockIsOwners(context: SecurityContext)
    ensures Comes(context, ROUTES["smart_lock.unlock"]) ==> context.subject == "owner-subject-id"
  {
  }

  // ----- Who may do what at all -----

  const EXTERNAL_TOOLS := {FIND_AVAILABILITY, SUBMIT_PROPOSAL}

  const CODING_TOOLS := {READ_REPOSITORY, COFFEE_STATUS}

  /** Every allow, for whatever input, needs the tool's own capability in the turn; the external subject gets exactly
      the two tools no one else gets; and the coding agent gets neither mail nor calendar nor lock. */
  lemma DutiesAreSeparate(input: Input, now: int)
    requires Authorization(input, now).allow
    ensures input.tool in ROUTES && ROUTES[input.tool].capability in input.context.capabilities
    ensures input.operation in {"discover", "execute"}
    ensures input.context.subject == if input.tool in EXTERNAL_TOOLS then ALICE else OWNER
    ensures input.context.actor == CODING_AGENT ==> input.tool in CODING_TOOLS && input.context.channel == HTTP
  {
    hide Authorization, MayBeCalledWith;
    AuthorizationExactly(input, now);
  }
}
