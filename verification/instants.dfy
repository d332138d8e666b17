/** Instants and durations are nanoseconds, as in time.Time and time.Duration; the calendar and the clock are UTC. */
module Instants {
  const SECOND := 1_000_000_000
  const HOUR := 3_600 * SECOND
  const DAY := 24 * HOUR

  /** Days since the epoch. */
  function DayOf(t: int): int {
    t / DAY
  }

  /** Sunday is 0; the epoch was a Thursday. */
  function Weekday(t: int): int {
    (DayOf(t) + 4) % 7
  }

  datatype Clock = Clock(hour: int, minute: int, second: int)

  function ClockOf(t: int): Clock {
    var seconds := t % DAY / SECOND;
    Clock(seconds / 3_600, seconds / 60 % 60, seconds % 60)
  }

  /** The clock is read off the instant: put together again it gives the second of the day. */
  lemma ClockReads(t: int)
    ensures var c := ClockOf(t);
      0 <= c.hour < 24 && 0 <= c.minute < 60 && 0 <= c.second < 60
      && 0 <= t - (DayOf(t) * 86_400 + c.hour * 3_600 + c.minute * 60 + c.second) * 1_000_000_000 < 1_000_000_000
  {
    var inDay := t % DAY;
    var seconds := inDay / SECOND;
    assert t == t / DAY * DAY + inDay;
    assert inDay == seconds * SECOND + inDay % SECOND;
    assert seconds == 3_600 * (seconds / 3_600) + seconds % 3_600;
    assert seconds / 60 == 60 * (seconds / 3_600) + seconds / 60 % 60;
    assert seconds == 60 * (seconds / 60) + seconds % 60;
  }

  /** The calendar and the clock `hours` and a fraction of a second after midnight of the Monday that starts the
      week. */
  lemma MondayAt(week: int, hours: int, fraction: int)
    requires 0 <= hours < 24 && 0 <= fraction < SECOND
    ensures var t := (7 * week + 4) * DAY + hours * HOUR + fraction;
      DayOf(t) == 7 * week + 4 && Weekday(t) == 1 && ClockOf(t) == Clock(hours, 0, 0)
  {
    var t := (7 * week + 4) * DAY + hours * HOUR + fraction;
    assert t / DAY == 7 * week + 4 && t % DAY == hours * HOUR + fraction;
    assert (hours * HOUR + fraction) / SECOND == hours * 3_600;
  }
}
