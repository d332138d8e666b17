/** The fixed-window rate limiter of the Telegram adapter (internal/telegramadapter/handler.go). */
module RateLimit {
  import opened Text
  import opened Instants

  datatype Key = Key(subject: string, action: string)

  /** A window in progress: when it was opened and how many calls it has let through. */
  datatype Entry = Entry(started: int, count: nat)

  datatype Limits = Limits(limits: map<string, nat>, window: int)

  const AVAILABILITY := "availability"
  const PROPOSAL := "proposal"

  function LimitOf(l: Limits, action: string): nat {
    if action in l.limits then l.limits[action] else 0
  }

  /** Settings that are not positive are replaced by defaults, so every limit is at least one. */
  function NewLimits(availability: int, proposal: int, window: int): (l: Limits)
    ensures l.window > 0 && LimitOf(l, AVAILABILITY) >= 1 && LimitOf(l, PROPOSAL) >= 1
  {
    Limits(map[AVAILABILITY := if availability <= 0 then 10 else availability,
               PROPOSAL := if proposal <= 0 then 3 else proposal],
           if window <= 0 then HOUR else window)
  }

  // ----- One key on its own -----

  /** The next entry of one key, and whether the call is let through. */
  function Step(limit: nat, window: int, entry: Option<Entry>, now: int): (Entry, bool) {
    if entry == None || now - entry.value.started >= window then (Entry(now, 1), true)
    else if entry.value.count >= limit then (entry.value, false)
    else (entry.value.(count := entry.value.count + 1), true)
  }

  /** How many of the calls at `times` are let through at instants in [from, from + window). */
  function CountIn(limit: nat, window: int, entry: Option<Entry>, times: seq<int>, from: int): nat
    decreases |times|
  {
    if times == [] then 0
    else
      var (next, ok) := Step(limit, window, entry, times[0]);
      (if ok && from <= times[0] < from + window then 1 else 0) + CountIn(limit, window, Some(next), times[1..], from)
  }

  predicate Nondecreasing(last: int, times: seq<int>)
    decreases |times|
  {
    times == [] || (last <= times[0] && Nondecreasing(times[0], times[1..]))
  }

  /** What an interval can still receive, given the key's entry and the time of its latest call. */
  function Remaining(limit: nat, entry: Option<Entry>, last: int, from: int): int {
    if entry == None then 2 * limit - 1
    else if entry.value.started >= from then limit - entry.value.count
    else if last >= from then 2 * limit - entry.value.count
    else 2 * limit - 1
  }

  lemma {:induction false} CountWithinRemaining(limit: nat, window: int, entry: Option<Entry>, last: int,
                                                times: seq<int>, from: int)
    requires limit >= 1 && window > 0 && Nondecreasing(last, times)
    requires entry.Some? ==> entry.value.started <= last && 1 <= entry.value.count <= limit
    ensures last >= from + window ==> CountIn(limit, window, entry, times, from) == 0
    ensures CountIn(limit, window, entry, times, from) <= Remaining(limit, entry, last, from)
    decreases |times|
  {
    if times != [] {
      var (next, ok) := Step(limit, window, entry, times[0]);
      CountWithinRemaining(limit, window, Some(next), times[0], times[1..], from);
    }
  }

  // ----- The map of all keys -----

  datatype Call = Call(key: Key, now: int)

  type Items = map<Key, Entry>

  function EntryOf(items: Items, key: Key): Option<Entry> {
    if key in items then Some(items[key]) else None
  }

  function Allowing(l: Limits, items: Items, call: Call): (Items, bool) {
    var (next, ok) := Step(LimitOf(l, call.key.action), l.window, EntryOf(items, call.key), call.now);
    (if ok then items[call.key := next] else items, ok)
  }

  /** The answers given to the calls of one key, in order. */
  function AnswersFor(l: Limits, items: Items, calls: seq<Call>, key: Key): seq<bool>
    decreases |calls|
  {
    if calls == [] then []
    else
      var (next, ok) := Allowing(l, items, calls[0]);
      (if calls[0].key == key then [ok] else []) + AnswersFor(l, next, calls[1..], key)
  }

  function TimesOf(calls: seq<Call>, key: Key): seq<int> {
    if calls == [] then []
    else (if calls[0].key == key then [calls[0].now] else []) + TimesOf(calls[1..], key)
  }

  /** A limiter that serves a single key. */
  function SingleAnswers(limit: nat, window: int, entry: Option<Entry>, times: seq<int>): seq<bool>
    decreases |times|
  {
    if times == [] then []
    else
      var (next, ok) := Step(limit, window, entry, times[0]);
      [ok] + SingleAnswers(limit, window, Some(next), times[1..])
  }

  /** The map refines independent single-key limiters: the answers a key gets depend on its own calls only. */
  lemma {:induction false} KeysAreIndependent(l: Limits, items: Items, calls: seq<Call>, key: Key)
    ensures AnswersFor(l, items, calls, key)
      == SingleAnswers(LimitOf(l, key.action), l.window, EntryOf(items, key), TimesOf(calls, key))
    decreases |calls|
  {
    if calls != [] {
      var (next, ok) := Allowing(l, items, calls[0]);
      KeysAreIndependent(l, next, calls[1..], key);
      if calls[0].key == key {
        var times := TimesOf(calls, key);
        assert times[0] == calls[0].now && times[1..] == TimesOf(calls[1..], key);
        assert EntryOf(next, key) == Some(Step(LimitOf(l, key.action), l.window, EntryOf(items, key), times[0]).0);
      } else {
        assert EntryOf(next, key) == EntryOf(items, key);
        assert TimesOf(calls, key) == TimesOf(calls[1..], key);
      }
    }
  }

  /** How many calls of one key are let through at instants in [from, from + window). */
  function AllowedIn(l: Limits, items: Items, calls: seq<Call>, key: Key, from: int): nat
    decreases |calls|
  {
    if calls == [] then 0
    else
      var (next, ok) := Allowing(l, items, calls[0]);
      (if calls[0].key == key && ok && from <= calls[0].now < from + l.window then 1 else 0)
      + AllowedIn(l, next, calls[1..], key, from)
  }

  predicate ClockForward(calls: seq<Call>) {
    forall i, j :: 0 <= i < j < |calls| ==> calls[i].now <= calls[j].now
  }

  lemma {:induction false} AllowedIsCount(l: Limits, items: Items, calls: seq<Call>, key: Key, from: int)
    ensures AllowedIn(l, items, calls, key, from)
      == CountIn(LimitOf(l, key.action), l.window, EntryOf(items, key), TimesOf(calls, key), from)
    decreases |calls|
  {
    if calls != [] {
      var (next, ok) := Allowing(l, items, calls[0]);
      AllowedIsCount(l, next, calls[1..], key, from);
      if calls[0].key == key {
        var times := TimesOf(calls, key);
        assert times[0] == calls[0].now && times[1..] == TimesOf(calls[1..], key);
        assert EntryOf(next, key) == Some(Step(LimitOf(l, key.action), l.window, EntryOf(items, key), times[0]).0);
      } else {
        assert EntryOf(next, key) == EntryOf(items, key);
        assert TimesOf(calls, key) == TimesOf(calls[1..], key);
      }
    }
  }

  lemma {:induction false} TimesNondecreasing(calls: seq<Call>, key: Key, last: int)
    requires ClockForward(calls) && (calls != [] ==> last <= calls[0].now)
    ensures Nondecreasing(last, TimesOf(calls, key))
    decreases |calls|
  {
    if calls != [] {
      var times := TimesOf(calls, key);
      if calls[0].key == key {
        TimesNondecreasing(calls[1..], key, calls[0].now);
        assert times[1..] == TimesOf(calls[1..], key);
      } else {
        TimesNondecreasing(calls[1..], key, last);
        assert times == TimesOf(calls[1..], key);
      }
    }
  }

  /** On a forward clock, no interval as long as the window sees more than 2 * limit - 1 calls of one key let
      through, whatever calls are made. */
  lemma SlidingWindowBound(l: Limits, calls: seq<Call>, key: Key, from: int)
    requires l.window > 0 && LimitOf(l, key.action) >= 1 && ClockForward(calls)
    ensures AllowedIn(l, map[], calls, key, from) <= 2 * LimitOf(l, key.action) - 1
  {
    AllowedIsCount(l, map[], calls, key, from);
    var last := if calls == [] then 0 else calls[0].now;
    TimesNondecreasing(calls, key, last);
    CountWithinRemaining(LimitOf(l, key.action), l.window, None, last, TimesOf(calls, key), from);
  }

  // ----- The bound is attained -----

  function Repeat(t: int, n: nat): seq<int> {
    if n == 0 then [] else [t] + Repeat(t, n - 1)
  }

  lemma {:induction false} RepeatNondecreasing(last: int, t: int, n: nat, rest: seq<int>)
    requires last <= t && Nondecreasing(t, rest)
    ensures Nondecreasing(last, Repeat(t, n) + rest)
    decreases n
  {
    var times := Repeat(t, n) + rest;
    if n == 0 {
      assert times == rest;
    } else {
      assert times[0] == t && times[1..] == Repeat(t, n - 1) + rest;
      RepeatNondecreasing(t, t, n - 1, rest);
    }
  }

  lemma {:induction false} BurstLetThrough(limit: nat, window: int, entry: Entry, t: int, n: nat, rest: seq<int>,
                                           from: int)
    requires entry.started <= t < entry.started + window && entry.count + n <= limit && from <= t < from + window
    ensures CountIn(limit, window, Some(entry), Repeat(t, n) + rest, from)
      == n + CountIn(limit, window, Some(Entry(entry.started, entry.count + n)), rest, from)
    decreases n
  {
    var times := Repeat(t, n) + rest;
    if n == 0 {
      assert times == rest;
    } else {
      assert times[0] == t && times[1..] == Repeat(t, n - 1) + rest;
      BurstLetThrough(limit, window, Entry(entry.started, entry.count + 1), t, n - 1, rest, from);
    }
  }

  /** One call opens a window, limit - 1 follow in its last instant, and limit more in the first instant of the next. */
  function WorstCase(limit: nat, window: int): seq<int>
    requires limit >= 1
  {
    [0] + (Repeat(window - 1, limit - 1) + ([window] + (Repeat(window, limit - 1) + [])))
  }

  /** The first call of the next window opens it, and limit - 1 more follow at once. */
  lemma NextWindow(limit: nat, window: int)
    requires limit >= 1 && window >= 2
    ensures CountIn(limit, window, Some(Entry(0, limit)), [window] + (Repeat(window, limit - 1) + []), window - 1)
      == limit
  {
    var burst := Repeat(window, limit - 1) + [];
    var late := [window] + burst;
    assert late[0] == window && late[1..] == burst;
    BurstLetThrough(limit, window, Entry(window, 1), window, limit - 1, [], window - 1);
  }

  lemma WorstCaseNondecreasing(limit: nat, window: int)
    requires limit >= 1 && window >= 2
    ensures Nondecreasing(0, WorstCase(limit, window))
  {
    var burst := Repeat(window, limit - 1) + [];
    var late := [window] + burst;
    var middle := Repeat(window - 1, limit - 1) + late;
    assert late[0] == window && late[1..] == burst;
    assert WorstCase(limit, window)[0] == 0 && WorstCase(limit, window)[1..] == middle;
    RepeatNondecreasing(window, window, limit - 1, []);
    RepeatNondecreasing(0, window - 1, limit - 1, late);
  }

  lemma BoundAttained(limit: nat, window: int)
    requires limit >= 1 && window >= 2
    ensures Nondecreasing(0, WorstCase(limit, window))
    ensures CountIn(limit, window, None, WorstCase(limit, window), window - 1) == 2 * limit - 1
  {
    hide Nondecreasing, Repeat;
    var late := [window] + (Repeat(window, limit - 1) + []);
    var middle := Repeat(window - 1, limit - 1) + late;
    assert WorstCase(limit, window)[0] == 0 && WorstCase(limit, window)[1..] == middle;
    WorstCaseNondecreasing(limit, window);
    BurstLetThrough(limit, window, Entry(0, 1), window - 1, limit - 1, late, window - 1);
    NextWindow(limit, window);
  }

  // ----- What a configured limiter answers -----

  /** How many leading calls fall into the window opened at `started`. */
  function Leading(times: seq<int>, started: int, window: int): (n: nat)
    ensures n <= |times| && (forall i :: 0 <= i < n ==> times[i] - started < window)
    ensures n < |times| ==> times[n] - started >= window
  {
    if times == [] || times[0] - started >= window then 0 else 1 + Leading(times[1..], started, window)
  }

  /** The answers to n calls of which the first `left` are let through. */
  function FirstLetThrough(n: nat, left: int): (answers: seq<bool>)
    ensures |answers| == n && forall i :: 0 <= i < n ==> (answers[i] <==> i < left)
  {
    if n == 0 then [] else [left > 0] + FirstLetThrough(n - 1, left - 1)
  }

  /** Window by window: each is opened by the first call after the one before has passed, and lets its first `limit`
      calls through. */
  function WindowAnswers(limit: nat, window: int, times: seq<int>): seq<bool>
    decreases |times|
  {
    if times == [] then []
    else
      var n := 1 + Leading(times[1..], times[0], window);
      FirstLetThrough(n, limit) + WindowAnswers(limit, window, times[n..])
  }

  /** While calls come within one window, exactly the first `limit` of them are let through. */
  lemma WithinOneWindow(limit: nat, window: int, times: seq<int>)
    requires forall i :: 0 <= i < |times| ==> times[i] < times[0] + window
    ensures |WindowAnswers(limit, window, times)| == |times|
    ensures forall i :: 0 <= i < |times| ==> (WindowAnswers(limit, window, times)[i] <==> i < limit)
  {
    if times != [] {
      assert Leading(times[1..], times[0], window) == |times| - 1;
      assert times[|times|..] == [];
    }
  }

  /** Once nothing is left it does not matter by how much. */
  lemma NoneLeft(n: nat, left: int, other: int)
    requires left == other || (left <= 0 && other <= 0)
    ensures FirstLetThrough(n, left) == FirstLetThrough(n, other)
  {
  }

  lemma FirstAnswer(limit: nat, window: int, entry: Option<Entry>, times: seq<int>)
    requires times != []
    ensures var (next, ok) := Step(limit, window, entry, times[0]);
      SingleAnswers(limit, window, entry, times) == [ok] + SingleAnswers(limit, window, Some(next), times[1..])
  {
  }

  lemma FirstOfWindow(n: nat, left: int)
    requires n > 0
    ensures FirstLetThrough(n, left) == [left > 0] + FirstLetThrough(n - 1, left - 1)
  {
  }

  lemma Passed(limit: nat, window: int, entry: Entry, times: seq<int>)
    requires times != [] ==> times[0] - entry.started >= window
    ensures Leading(times, entry.started, window) == 0
    ensures SingleAnswers(limit, window, Some(entry), times) == SingleAnswers(limit, window, None, times)
  {
  }

  lemma LeadingNext(times: seq<int>, started: int, window: int)
    requires times != [] && times[0] - started < window
    ensures Leading(times, started, window) == 1 + Leading(times[1..], started, window)
  {
  }

  /** An open window fills up, and once it has passed the limiter is as if it were new. */
  lemma {:induction false} WindowFills(limit: nat, window: int, entry: Entry, times: seq<int>)
    ensures var n := Leading(times, entry.started, window);
      SingleAnswers(limit, window, Some(entry), times)
        == FirstLetThrough(n, limit - entry.count) + SingleAnswers(limit, window, None, times[n..])
    decreases |times|
  {
    hide SingleAnswers, FirstLetThrough, Leading;
    if times == [] || times[0] - entry.started >= window {
      Passed(limit, window, entry, times);
      assert times[0..] == times && FirstLetThrough(0, limit - entry.count) == [];
    } else {
      LeadingNext(times, entry.started, window);
      var n := Leading(times, entry.started, window);
      var (next, ok) := Step(limit, window, Some(entry), times[0]);
      FirstAnswer(limit, window, Some(entry), times);
      WindowFills(limit, window, next, times[1..]);
      assert times[1..][n - 1..] == times[n..];
      NoneLeft(n - 1, limit - entry.count - 1, limit - next.count);
      FirstOfWindow(n, limit - entry.count);
      var rest := SingleAnswers(limit, window, None, times[n..]);
      assert [ok] + (FirstLetThrough(n - 1, limit - next.count) + rest)
        == [ok] + FirstLetThrough(n - 1, limit - next.count) + rest;
    }
  }

  lemma WindowsNext(limit: nat, window: int, times: seq<int>)
    requires times != []
    ensures var n := 1 + Leading(times[1..], times[0], window);
      WindowAnswers(limit, window, times) == FirstLetThrough(n, limit) + WindowAnswers(limit, window, times[n..])
  {
  }

  lemma NothingAnswered(limit: nat, window: int)
    ensures SingleAnswers(limit, window, None, []) == WindowAnswers(if limit == 0 then 1 else limit, window, [])
  {
  }

  /** A limiter for a single key answers window by window; a limit of zero lets the opening call through all the
      same. */
  lemma {:induction false} SingleAnswersExactly(limit: nat, window: int, times: seq<int>)
    ensures SingleAnswers(limit, window, None, times) == WindowAnswers(if limit == 0 then 1 else limit, window, times)
    decreases |times|
  {
    hide SingleAnswers, FirstLetThrough, Leading, WindowAnswers;
    if times == [] {
      NothingAnswered(limit, window);
    } else {
      var n := 1 + Leading(times[1..], times[0], window);
      var least := if limit == 0 then 1 else limit;
      FirstAnswer(limit, window, None, times);
      WindowFills(limit, window, Entry(times[0], 1), times[1..]);
      SingleAnswersExactly(limit, window, times[n..]);
      WindowsNext(least, window, times);
      assert times[1..][n - 1..] == times[n..];
      NoneLeft(n - 1, limit - 1, least - 1);
      FirstOfWindow(n, least);
      var rest := SingleAnswers(limit, window, None, times[n..]);
      assert [true] + (FirstLetThrough(n - 1, limit - 1) + rest) == [true] + FirstLetThrough(n - 1, limit - 1) + rest;
    }
  }

  /** From its first call on, a limiter answers each subject and action by the action's own setting, or the default for
      it, and by nothing but the instants of that subject's calls: window by window, so many are let through, and the
      rest are refused until the window has passed. */
  lemma ConfiguredAnswers(availability: int, proposal: int, window: int, calls: seq<Call>, key: Key)
    ensures AnswersFor(NewLimits(availability, proposal, window), map[], calls, key) ==
      WindowAnswers(if key.action == "availability" then (if availability <= 0 then 10 else availability)
                    else if key.action == "proposal" then (if proposal <= 0 then 3 else proposal)
                    else 1,
                    if window <= 0 then 3_600_000_000_000 else window, TimesOf(calls, key))
  {
    var l := NewLimits(availability, proposal, window);
    KeysAreIndependent(l, map[], calls, key);
    SingleAnswersExactly(LimitOf(l, key.action), l.window, TimesOf(calls, key));
  }

  // ----- The limiter object -----

  class RateLimits {
    const settings: Limits
    var items: Items

    constructor (availability: int, proposal: int, window: int)
      ensures settings == NewLimits(availability, proposal, window) && items == map[]
    {
      settings := NewLimits(availability, proposal, window);
      items := map[];
    }

    method Allow(subject: string, action: string, now: int) returns (ok: bool)
      modifies this
      ensures (items, ok) == Allowing(settings, old(items), Call(Key(subject, action), now))
      ensures forall key :: key != Key(subject, action) ==> EntryOf(items, key) == EntryOf(old(items), key)
      ensures !ok ==> items == old(items)
    {
      var key := Key(subject, action);
      if key !in items || now - items[key].started >= settings.window {
        items := items[key := Entry(now, 1)];
        return true;
      }
      var entry := items[key];
      if entry.count >= LimitOf(settings, action) { return false; }
      items := items[key := Entry(entry.started, entry.count + 1)];
      ok := true;
    }
  }
}
