/**
 * Instants are whole seconds since 1970-01-01 00:00 UTC (a Thursday). A weekday
 * is Monday = 0 … Sunday = 6, as Python's datetime.weekday(). Zones are fixed
 * offsets from UTC, in seconds.
 */
module Time {
  import opened Wrappers

  const Minute: int := 60
  const Hour: int := 3600
  const Day: int := 86400

  /** Days from 1970-01-01 to the given proleptic Gregorian date. */
  function CivilDay(year: int, month: int, day: int): int
    requires 1 <= month <= 12 && 1 <= day <= 31
  {
    var y := if month <= 2 then year - 1 else year;
    var era := y / 400;
    var yoe := y - era * 400;
    var mp := (month + 9) % 12;
    var doy := (153 * mp + 2) / 5 + day - 1;
    var doe := yoe * 365 + yoe / 4 - yoe / 100 + doy;
    era * 146097 + doe - 719468
  }

  /** The instant of midnight UTC at the start of the given date. */
  function Midnight(year: int, month: int, day: int): int
    requires 1 <= month <= 12 && 1 <= day <= 31
  {
    CivilDay(year, month, day) * Day
  }

  function DayNumber(t: int): int { t / Day }

  function Weekday(t: int): (w: int)
    ensures 0 <= w < 7
  {
    (t / Day + 3) % 7
  }

  function TimeOfDay(t: int): (s: int)
    ensures 0 <= s < Day
  {
    t % Day
  }

  /** Moving by whole days keeps the time of day and advances the weekday. */
  lemma ShiftByDays(t: int, k: int)
    ensures DayNumber(t + k * Day) == DayNumber(t) + k
    ensures TimeOfDay(t + k * Day) == TimeOfDay(t)
    ensures Weekday(t + k * Day) == (Weekday(t) + k) % 7
  {
  }

  /** Two instants with the same time of day lie a whole number of days apart. */
  lemma SameTimeOfDay(t: int, u: int)
    requires TimeOfDay(t) == TimeOfDay(u)
    ensures u == t + (DayNumber(u) - DayNumber(t)) * Day
  {
  }

  // Time zones: the part of the zone database the reminders use, at their
  // December (standard time) offsets.

  /** The zone used when a command names none. */
  const HomeZone: string := "US/Eastern"

  function ZoneOffset(name: string): Option<int>
  {
    if name == "US/Eastern" || name == "EST" then Some(-5 * Hour)
    else if name == "US/Central" then Some(-6 * Hour)
    else if name == "UTC" then Some(0)
    else None
  }

  const HomeOffset: int := -5 * Hour

  function LocalTimeOfDay(t: int, offset: int): int { TimeOfDay(t + offset) }

  function LocalDay(t: int, offset: int): int { DayNumber(t + offset) }

  function LocalWeekday(t: int, offset: int): int { Weekday(t + offset) }

  /**
   * The instant at which the wall clock of a zone next reads hour:minute, seen
   * from now: today's reading when it has not yet passed, else tomorrow's.
   */
  function ResolveClock(now: int, hour: int, minute: int, offset: int): int
    requires 0 <= hour < 24 && 0 <= minute < 60
  {
    var local := now + offset;
    var today := local - TimeOfDay(local) + hour * Hour + minute * Minute;
    (if today < local then today + Day else today) - offset
  }

  /**
   * ResolveClock gives the first instant, not before now, whose local wall
   * clock reads hour:minute; it falls on the local day of now exactly when that
   * reading has not yet passed, and on the next local day otherwise.
   */
  lemma ResolveClockIsNext(now: int, hour: int, minute: int, offset: int)
    requires 0 <= hour < 24 && 0 <= minute < 60
    ensures var r := ResolveClock(now, hour, minute, offset);
      && now <= r < now + Day
      && LocalTimeOfDay(r, offset) == hour * Hour + minute * Minute
      && (forall t :: now <= t < r ==> LocalTimeOfDay(t, offset) != hour * Hour + minute * Minute)
      && (LocalTimeOfDay(now, offset) <= hour * Hour + minute * Minute ==> LocalDay(r, offset) == LocalDay(now, offset))
      && (LocalTimeOfDay(now, offset) > hour * Hour + minute * Minute ==> LocalDay(r, offset) == LocalDay(now, offset) + 1)
  {
    ResolveClockReading(now, hour, minute, offset);
    var r := ResolveClock(now, hour, minute, offset);
    forall t | now <= t < r
      ensures LocalTimeOfDay(t, offset) != hour * Hour + minute * Minute
    {
      if LocalTimeOfDay(t, offset) == hour * Hour + minute * Minute {
        SameTimeOfDay(t + offset, r + offset);
      }
    }
  }

  /** Where ResolveClock lands: less than a day ahead, on the target reading, today or tomorrow. */
  lemma ResolveClockReading(now: int, hour: int, minute: int, offset: int)
    requires 0 <= hour < 24 && 0 <= minute < 60
    ensures var r := ResolveClock(now, hour, minute, offset);
      && now <= r < now + Day
      && LocalTimeOfDay(r, offset) == hour * Hour + minute * Minute
      && (LocalTimeOfDay(now, offset) <= hour * Hour + minute * Minute ==> LocalDay(r, offset) == LocalDay(now, offset))
      && (LocalTimeOfDay(now, offset) > hour * Hour + minute * Minute ==> LocalDay(r, offset) == LocalDay(now, offset) + 1)
  {
    var target := hour * 3600 + minute * 60;
    var local := now + offset;
    var d := DayNumber(local);
    assert local == d * Day + TimeOfDay(local);
    ShiftByDays(target, d);
    ShiftByDays(target, d + 1);
  }
}
