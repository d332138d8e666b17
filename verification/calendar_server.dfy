/** The isolated calendar (internal/calendarserver/server.go): idempotent event creation and the
    free/busy view of a window around one occupied half hour. */
module CalendarServer {
  import opened Text
  import opened Instants
  import opened MeetingStore

  // ----- Events -----

  datatype StoredEvent = StoredEvent(arguments: EventArguments, eventId: string)

  type Events = map<string, StoredEvent>

  datatype Reply = Invalid | Conflict | Existing(eventId: string) | Created(eventId: string)

  const TWO_HOURS := 7200

  predicate ValidEvent(a: EventArguments) {
    a.start < a.end && a.end - a.start <= TWO_HOURS && a.proposalId != "" && a.requester != ""
    && TrimSpace(a.reason) != "" && TrimSpace(a.contact) != "" && a.idempotencyKey == IdempotencyKey(a.proposalId)
  }

  /** Between a second and two hours long, for a named proposal and requester, with a reason and a contact, and filed
      under the proposal's key. */
  lemma ValidEventExactly(a: EventArguments)
    ensures ValidEvent(a) <==>
      0 < a.end - a.start <= 7_200 && a.proposalId != "" && a.requester != ""
      && HasText(a.reason) && HasText(a.contact) && a.idempotencyKey == "meeting-proposal:" + a.proposalId
  {
    hide TrimSpace;
  }

  function EventId(proposalId: string): string {
    "demo-event-" + TrimPrefix(proposalId, "proposal-")
  }

  function Creating(events: Events, a: EventArguments): (Events, Reply) {
    if !ValidEvent(a) then (events, Invalid)
    else if a.idempotencyKey in events then
      var stored := events[a.idempotencyKey];
      (events, if stored.arguments != a then Conflict else Existing(stored.eventId))
    else
      (events[a.idempotencyKey := StoredEvent(a, EventId(a.proposalId))], Created(EventId(a.proposalId)))
  }

  /** Every event is filed under the key of its proposal and named after it. */
  predicate Filed(events: Events) {
    forall key :: key in events ==>
      ValidEvent(events[key].arguments) && events[key].arguments.idempotencyKey == key
      && events[key].eventId == EventId(events[key].arguments.proposalId)
  }

  lemma CreatingKeepsFiled(events: Events, a: EventArguments)
    requires Filed(events)
    ensures Filed(Creating(events, a).0)
    ensures forall key :: key in events ==> key in Creating(events, a).0 && Creating(events, a).0[key] == events[key]
  {
    hide ValidEvent, EventId;
  }

  /** Two events for one proposal are one event. */
  lemma OneEventPerProposal(events: Events, key: string, other: string)
    requires Filed(events) && key in events && other in events
    requires events[key].arguments.proposalId == events[other].arguments.proposalId
    ensures key == other
  {
    hide TrimSpace;
  }

  function AfterAll(events: Events, requests: seq<EventArguments>): Events
    decreases |requests|
  {
    if requests == [] then events else AfterAll(Creating(events, requests[0]).0, requests[1..])
  }

  /** Once created, an event survives any further requests and every retry answers with its id, not as new. */
  lemma {:induction false} RetriesReturnTheEvent(events: Events, a: EventArguments, requests: seq<EventArguments>)
    requires Filed(events) && Creating(events, a).1.Created?
    ensures var later := AfterAll(Creating(events, a).0, requests);
      Creating(later, a) == (later, Existing(Creating(events, a).1.eventId))
  {
    hide TrimSpace;
    CreatingKeepsFiled(events, a);
    StoredSurvives(Creating(events, a).0, a.idempotencyKey, requests);
  }

  lemma {:induction false} StoredSurvives(events: Events, key: string, requests: seq<EventArguments>)
    requires Filed(events) && key in events
    ensures key in AfterAll(events, requests) && AfterAll(events, requests)[key] == events[key]
    decreases |requests|
  {
    hide TrimSpace;
    if requests != [] {
      CreatingKeepsFiled(events, requests[0]);
      StoredSurvives(Creating(events, requests[0]).0, key, requests[1..]);
    }
  }

  class Calendar {
    var events: Events

    constructor ()
      ensures events == map[]
    {
      events := map[];
    }

    method PostEvent(a: EventArguments) returns (reply: Reply)
      modifies this
      ensures (events, reply) == Creating(old(events), a)
      ensures reply.Invalid? <==>
        !(0 < a.end - a.start <= 7_200 && a.proposalId != "" && a.requester != ""
          && HasText(a.reason) && HasText(a.contact) && a.idempotencyKey == "meeting-proposal:" + a.proposalId)
      ensures reply.Created? ==> reply.eventId == "demo-event-" + TrimPrefix(a.proposalId, "proposal-")
    {
      hide TrimSpace, ValidEvent;
      ValidEventExactly(a);
      if !ValidEvent(a) { return Invalid; }
      if a.idempotencyKey in events {
        var existing := events[a.idempotencyKey];
        if existing.arguments != a { return Conflict; }
        return Existing(existing.eventId);
      }
      var eventId := "demo-event-" + TrimPrefix(a.proposalId, "proposal-");
      events := events[a.idempotencyKey := StoredEvent(a, eventId)];
      reply := Created(eventId);
    }
  }

  // ----- Free/busy -----

  datatype Interval = Interval(start: int, end: int)

  const HALF_HOUR := 1_800 * SECOND

  /** 10:30 UTC on the calendar date that `start` has in its own time zone (`offset` nanoseconds east of UTC). */
  function OccupiedStart(start: int, offset: int): int {
    (start + offset) / DAY * DAY + 21 * HALF_HOUR
  }

  /** The occupied half hour as the calendar and the clock of UTC show it: on that date, from 10:30 to 10:59. */
  predicate Occupied(t: int, start: int, offset: int) {
    DayOf(t) == DayOf(start + offset) && ClockOf(t).hour == 10 && ClockOf(t).minute >= 30
  }

  lemma OccupiedExactly(t: int, start: int, offset: int)
    ensures Occupied(t, start, offset) <==>
      OccupiedStart(start, offset) <= t < OccupiedStart(start, offset) + HALF_HOUR
  {
    hide ClockOf;
    ClockReads(t);
  }

  predicate Covers(intervals: seq<Interval>, t: int) {
    exists i :: 0 <= i < |intervals| && intervals[i].start <= t < intervals[i].end
  }

  /** Non-empty intervals inside the window, each ending before any later one starts. */
  predicate OrderedWithin(intervals: seq<Interval>, start: int, end: int) {
    (forall i :: 0 <= i < |intervals| ==> start <= intervals[i].start < intervals[i].end <= end)
    && forall i, j :: 0 <= i < j < |intervals| ==> intervals[i].end <= intervals[j].start
  }

  function MinTime(left: int, right: int): int {
    if left < right then left else right
  }

  function MaxTime(left: int, right: int): int {
    if left > right then left else right
  }

  /** Every end of an interval is an end of the window or of the occupied half hour. */
  predicate OnBoundaries(intervals: seq<Interval>, start: int, end: int, occupied: int) {
    forall i :: 0 <= i < |intervals| ==>
      intervals[i].start in {start, occupied + HALF_HOUR} && intervals[i].end in {end, occupied}
  }

  /** The view is exactly the window without the occupied half hour. */
  method FreeBusy(start: int, end: int, offset: int) returns (view: Option<seq<Interval>>)
    ensures view.Some? <==> start < end
    ensures view.Some? ==> OnBoundaries(view.value, start, end, OccupiedStart(start, offset))
    ensures view.Some? ==> OrderedWithin(view.value, start, end)
    ensures view.Some? ==> forall t :: Covers(view.value, t) <==> start <= t < end && !Occupied(t, start, offset)
  {
    hide OccupiedStart, Occupied;
    if end <= start { return None; }
    var occupiedStart := OccupiedStart(start, offset);
    var occupiedEnd := occupiedStart + HALF_HOUR;
    var intervals := [];
    if start < occupiedStart {
      var freeEnd := MinTime(end, occupiedStart);
      if freeEnd > start { intervals := intervals + [Interval(start, freeEnd)]; }
    }
    if end > occupiedEnd {
      var freeStart := MaxTime(start, occupiedEnd);
      if end > freeStart { intervals := intervals + [Interval(freeStart, end)]; }
    }
    if !(start < occupiedEnd) || !(end > occupiedStart) {
      intervals := [Interval(start, end)];
    }
    view := Some(intervals);
    assert |intervals| > 0 ==> Covers(intervals, intervals[0].start);
    forall t ensures Covers(intervals, t) <==> start <= t < end && !Occupied(t, start, offset) {
      OccupiedExactly(t, start, offset);
      var in0 := |intervals| > 0 && intervals[0].start <= t < intervals[0].end;
      var in1 := |intervals| > 1 && intervals[1].start <= t < intervals[1].end;
      assert Covers(intervals, t) <==> in0 || in1;
    }
  }

  // ----- What leaves the server: interval ends formatted to whole seconds -----

  function FormattedInstant(t: int): int {
    WholeSecond(t) * SECOND
  }

  function Formatted(intervals: seq<Interval>): seq<Interval> {
    seq(|intervals|, i requires 0 <= i < |intervals| =>
      Interval(FormattedInstant(intervals[i].start), FormattedInstant(intervals[i].end)))
  }

  lemma OccupiedWhole(start: int, offset: int)
    ensures OccupiedStart(start, offset) % SECOND == 0
  {
    assert OccupiedStart(start, offset) == ((start + offset) / DAY * 86_400 + 37_800) * SECOND;
  }

  lemma WholeSecondBoundaries(intervals: seq<Interval>, start: int, end: int, offset: int)
    requires FormattedInstant(start) == start && FormattedInstant(end) == end
    requires OnBoundaries(intervals, start, end, OccupiedStart(start, offset))
    ensures Formatted(intervals) == intervals
  {
    var occupied := OccupiedStart(start, offset);
    OccupiedWhole(start, offset);
    assert FormattedInstant(occupied) == occupied && FormattedInstant(occupied + HALF_HOUR) == occupied + HALF_HOUR;
  }

  /** For whole-second windows, which are the only ones the gateway's client sends, formatting loses nothing: the
      response is still exactly the window without the occupied half hour. */
  method GetFreeBusy(start: int, end: int, offset: int) returns (view: Option<seq<Interval>>)
    ensures view.Some? <==> start < end
    ensures view.Some? && FormattedInstant(start) == start && FormattedInstant(end) == end ==>
      OrderedWithin(view.value, start, end)
      && OnBoundaries(view.value, start, end, OccupiedStart(start, offset))
      && forall t :: Covers(view.value, t) <==> start <= t < end && !Occupied(t, start, offset)
  {
    var exact := FreeBusy(start, end, offset);
    if exact == None { return None; }
    view := Some(Formatted(exact.value));
    if FormattedInstant(start) == start && FormattedInstant(end) == end {
      WholeSecondBoundaries(exact.value, start, end, offset);
    }
  }
}
