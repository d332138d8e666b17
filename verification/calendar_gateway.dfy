/** The gateway's own checks around the calendar (internal/gateway/gateway.go): the proposal it records and the
    free/busy view it passes on. */
module CalendarGateway {
  import opened Text
  import opened Instants
  import opened MeetingStore
  import opened CalendarServer
  import Policy

  // ----- Submission checks against the calendar's checks -----

  predicate AcceptsProposal(input: ProposalInput) {
    var reason, contact := TrimSpace(input.reason), TrimSpace(input.contact);
    input.start < input.end && input.end - input.start <= TWO_HOURS * SECOND
    && reason != "" && contact != "" && ByteLength(reason) <= 200 && ByteLength(contact) <= 320
  }

  /** Up to two hours, with a reason of up to 200 and a contact of up to 320 bytes once trimmed. */
  predicate Submittable(input: ProposalInput) {
    0 < input.end - input.start <= 7_200_000_000_000
    && HasText(input.reason) && ByteLength(TrimSpace(input.reason)) <= 200
    && HasText(input.contact) && ByteLength(TrimSpace(input.contact)) <= 320
  }

  lemma AcceptsExactly(input: ProposalInput)
    ensures AcceptsProposal(input) <==> Submittable(input)
  {
    hide TrimSpace, ByteLength;
    assert HasText(input.reason) <==> TrimSpace(input.reason) != "";
    assert HasText(input.contact) <==> TrimSpace(input.contact) != "";
  }

  /** What the gateway hands to the store: the trimmed texts. */
  function Trimmed(input: ProposalInput): ProposalInput {
    input.(reason := TrimSpace(input.reason), contact := TrimSpace(input.contact))
  }

  lemma WholeSecondsBetween(start: int, end: int)
    requires start < end <= start + TWO_HOURS * SECOND
    ensures 0 <= WholeSecond(end) - WholeSecond(start) <= TWO_HOURS
  {
    assert start == WholeSecond(start) * SECOND + start % SECOND;
    assert end == WholeSecond(end) * SECOND + end % SECOND;
  }

  /** The calendar can store the event of an accepted proposal exactly when its start and end lie in different
      whole seconds: formatting drops the fractions, and the calendar refuses an empty event. */
  lemma AcceptedIsCreatable(n: nat, requester: string, input: ProposalInput)
    requires AcceptsProposal(input) && requester != ""
    ensures ValidEvent(OperationFor(NewProposal(n, requester, Trimmed(input))).arguments)
      <==> WholeSecond(input.start) != WholeSecond(input.end)
  {
    hide Decimal, TrimSpace, ByteLength, ProposalId, IdempotencyKey;
    WholeSecondsBetween(input.start, input.end);
    var a := OperationFor(NewProposal(n, requester, Trimmed(input))).arguments;
    TrimSpaceIdempotent(input.reason);
    TrimSpaceIdempotent(input.contact);
    assert TrimSpace(a.reason) == TrimSpace(input.reason) && TrimSpace(a.contact) == TrimSpace(input.contact);
    ProposalIdNotEmpty(n);
  }

  lemma ProposalIdNotEmpty(n: nat)
    ensures ProposalId(n) != ""
  {
  }

  lemma ShortText()
    ensures TrimSpace("r") == "r" && ByteLength("r") == 1
  {
    hide TrimSpace;
    TrimSpaceFixed("r");
  }

  /** Such a proposal exists: 800 milliseconds inside one second. */
  lemma SubSecondProposalAccepted(n: nat)
    ensures var input := ProposalInput(SECOND / 10, 9 * SECOND / 10, "r", "r");
      AcceptsProposal(input)
      && !ValidEvent(OperationFor(NewProposal(n, "external-alice-subject-id", Trimmed(input))).arguments)
  {
    hide TrimSpace, ByteLength, ValidEvent, OperationFor, NewProposal, Trimmed;
    ShortText();
    AcceptedIsCreatable(n, "external-alice-subject-id", ProposalInput(SECOND / 10, 9 * SECOND / 10, "r", "r"));
  }

  // ----- The free/busy validation loop -----

  /** An interval of the view after parsing its two instants. */
  datatype Received = Unparsable | Parsed(interval: Interval)

  predicate AllParsed(view: seq<Received>) {
    forall i :: 0 <= i < |view| ==> view[i].Parsed?
  }

  function Intervals(view: seq<Received>): seq<Interval>
    requires AllParsed(view)
  {
    seq(|view|, i requires 0 <= i < |view| => view[i].interval)
  }

  /** The loop compares neighbours only; the view it accepts is ordered and disjoint pair by pair. */
  method AcceptView(view: seq<Received>, start: int, end: int) returns (ok: bool)
    ensures ok <==> AllParsed(view) && OrderedWithin(Intervals(view), start, end)
  {
    var previousEnd := start;
    for n := 0 to |view|
      invariant AllParsed(view[..n]) && OrderedWithin(Intervals(view[..n]), start, end)
      invariant start <= previousEnd
      invariant previousEnd == if n == 0 then start else view[n - 1].interval.end
    {
      if view[n].Unparsable? { return false; }
      var current := view[n].interval;
      if current.start < start || current.end > end || !(current.end > current.start) || current.start < previousEnd {
        if AllParsed(view) {
          assert Intervals(view)[n] == current;
          assert n > 0 ==> Intervals(view)[n - 1] == view[n - 1].interval;
        }
        return false;
      }
      ghost var before, after := Intervals(view[..n]), Intervals(view[..n + 1]);
      assert after == before + [current];
      if n > 0 { assert before[n - 1].end == previousEnd; }
      previousEnd := current.end;
    }
    assert view[..|view|] == view;
    ok := true;
  }

  function AsParsed(view: seq<Interval>): seq<Received> {
    seq(|view|, i requires 0 <= i < |view| => Parsed(view[i]))
  }

  /** The intervals cover the window without the occupied half hour. */
  ghost predicate ShowsExactly(intervals: seq<Interval>, start: int, end: int, offset: int) {
    forall t :: Covers(intervals, t) <==> start <= t < end && !Occupied(t, start, offset)
  }

  /** The window cut to whole seconds is not empty, and the requested start is a whole second or falls into the
      occupied half hour. */
  predicate ViewPasses(start: int, end: int, offset: int) {
    var first := FormattedInstant(start);
    WholeSecond(start) < WholeSecond(end)
    && (start % SECOND == 0 || Occupied(first, first, offset))
  }

  /** Inside the occupied half hour every free interval starts at its end. */
  lemma CoversOnlyAfter(intervals: seq<Interval>, first: int, last: int, occupied: int)
    requires OnBoundaries(intervals, first, last, occupied) && OrderedWithin(intervals, first, last)
    requires occupied <= first < occupied + HALF_HOUR
    requires forall t :: Covers(intervals, t) <==> first <= t < last && !(occupied <= t < occupied + HALF_HOUR)
    ensures forall i :: 0 <= i < |intervals| ==> intervals[i].start == occupied + HALF_HOUR
  {
    forall i | 0 <= i < |intervals| ensures intervals[i].start == occupied + HALF_HOUR {
      assert Covers(intervals, intervals[i].start);
    }
  }

  /** The calendar's answer for the cut window fits the window as requested exactly under that condition. */
  lemma AnswerFits(intervals: seq<Interval>, start: int, end: int, offset: int)
    requires FormattedInstant(start) < FormattedInstant(end)
    requires OrderedWithin(intervals, FormattedInstant(start), FormattedInstant(end))
    requires OnBoundaries(intervals, FormattedInstant(start), FormattedInstant(end),
                          OccupiedStart(FormattedInstant(start), offset))
    requires ShowsExactly(intervals, FormattedInstant(start), FormattedInstant(end), offset)
    ensures OrderedWithin(intervals, start, end) <==> ViewPasses(start, end, offset)
  {
    hide OccupiedStart, Occupied;
    var first, last := FormattedInstant(start), FormattedInstant(end);
    var occupied := OccupiedStart(first, offset);
    forall t ensures Occupied(t, first, offset) <==> occupied <= t < occupied + HALF_HOUR {
      OccupiedExactly(t, first, offset);
    }
    assert start == first + start % SECOND && end == last + end % SECOND;
    if occupied <= first < occupied + HALF_HOUR {
      CoversOnlyAfter(intervals, first, last, occupied);
      OccupiedWhole(first, offset);
      assert start < occupied + HALF_HOUR;
    } else {
      assert Covers(intervals, first);
    }
  }

  /** One availability call: the client sends the window cut to whole seconds, the calendar answers, and the gateway
      checks the answer against the window as it was requested. The call succeeds exactly when the cut window is
      not empty and either the requested start is a whole second or it falls into the occupied half hour; every
      other fractional start makes the gateway refuse a correct answer. */
  method FindAvailability(start: int, end: int, offset: int) returns (view: Option<seq<Interval>>)
    ensures view.Some? <==> ViewPasses(start, end, offset)
    ensures view.Some? ==> OrderedWithin(view.value, start, end)
    ensures view.Some? ==>
      ShowsExactly(view.value, start / 1_000_000_000 * 1_000_000_000, end / 1_000_000_000 * 1_000_000_000, offset)
    ensures view.Some? && start % SECOND == 0 && end % SECOND == 0 ==> forall t :: Covers(view.value, t) <==>
      start <= t < end && !Occupied(t, start, offset)
  {
    hide OccupiedStart, Occupied, OrderedWithin;
    var first, last := FormattedInstant(start), FormattedInstant(end);
    var answer := GetFreeBusy(first, last, offset);
    if answer == None { return None; }
    var ok := AcceptView(AsParsed(answer.value), start, end);
    assert Intervals(AsParsed(answer.value)) == answer.value;
    AnswerFits(answer.value, start, end, offset);
    view := if ok then answer else None;
  }

  /** From half a second past nine to ten o'clock on Monday 1970-01-05, asked at midnight: the policy lets the window
      through, the calendar's answer is not empty, and the gateway refuses it. */
  lemma FractionalStartRefused()
    ensures var start, end, now := 4 * DAY + 9 * HOUR + SECOND / 2, 4 * DAY + 10 * HOUR, 4 * DAY;
      Policy.WindowAllowed(start, end, now) && !ViewPasses(start, end, 0)
      && FormattedInstant(start) < FormattedInstant(end) <= OccupiedStart(FormattedInstant(start), 0)
  {
    hide DayOf, Weekday, ClockOf;
    var start, end := 4 * DAY + 9 * HOUR + SECOND / 2, 4 * DAY + 10 * HOUR;
    OccupiedExactly(FormattedInstant(start), FormattedInstant(start), 0);
    MondayAt(0, 10, 0);
    MondayAt(0, 9, SECOND / 2);
    assert FormattedInstant(start) == 4 * DAY + 9 * HOUR;
    assert OccupiedStart(FormattedInstant(start), 0) == 4 * DAY + 21 * HALF_HOUR;
  }
}
