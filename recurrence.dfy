/**
 * Weekly recurrence: from a due instant and a list of weekday codes, the next
 * due instant, which is always strictly later and keeps the time of day.
 */
module Recurrence {
  import opened Wrappers
  import opened Time

  /** The weekday i days after weekday start. */
  function DayAfter(start: int, i: int): int { (start + i) % 7 }

  /**
   * The least j in k..last such that the weekday i days after start is listed
   * in days, or last + 1 when no j in that range qualifies.
   */
  function FirstListedDay(start: int, days: seq<int>, k: nat, last: nat): (j: nat)
    requires k <= last + 1
    ensures k <= j <= last + 1
    ensures j <= last ==> DayAfter(start, j) in days
    ensures forall i :: k <= i < j ==> DayAfter(start, i) !in days
    decreases last + 1 - k
  {
    if k > last then k
    else if DayAfter(start, k) in days then k
    else FirstListedDay(start, days, k + 1, last)
  }

  /**
   * next_occurrence: scan the seven days after the weekday of when (tomorrow
   * through the same weekday one week later) for the first weekday listed in
   * repeat; the result is that day at the same time, with its day count. None
   * when no day of the week is listed.
   */
  function NextOccurrence(when: int, repeat: seq<int>): (r: Option<(int, int)>)
    ensures r.Some? ==> 1 <= r.value.1 <= 7 && r.value.0 == when + r.value.1 * Day
  {
    var delta := FirstListedDay(Weekday(when), repeat, 1, 7);
    if delta <= 7 then Some((when + delta * Day, delta)) else None
  }

  /** True when repeat names at least one day of the week. */
  predicate HasWeekday(repeat: seq<int>)
  {
    exists d :: d in repeat && 0 <= d < 7
  }

  /** A scan that finds nothing in 1..7 has passed every weekday. */
  lemma ScanMissesEveryWeekday(cw: int, repeat: seq<int>)
    requires 0 <= cw < 7
    requires FirstListedDay(cw, repeat, 1, 7) == 8
    ensures !HasWeekday(repeat)
  {
    forall d | 0 <= d < 7
      ensures d !in repeat
    {
      var j := if d > cw then d - cw else d - cw + 7;
      assert DayAfter(cw, j) == d;
    }
  }

  /** When repeat names a weekday, a scan of the seven days from start on (start included) finds one. */
  lemma ScanFromStartFindsListedDay(cw: int, repeat: seq<int>)
    requires 0 <= cw < 7 && HasWeekday(repeat)
    ensures FirstListedDay(cw, repeat, 0, 6) <= 6
  {
    var d :| d in repeat && 0 <= d < 7;
    var j := if d >= cw then d - cw else d - cw + 7;
    assert DayAfter(cw, j) == d;
  }

  /** No instant strictly inside a run of unlisted days falls on a listed weekday. */
  lemma NoListedDayBefore(when: int, repeat: seq<int>, delta: int)
    requires 1 <= delta <= 8
    requires forall i :: 1 <= i < delta ==> DayAfter(Weekday(when), i) !in repeat
    ensures forall t :: when < t < when + delta * Day && TimeOfDay(t) == TimeOfDay(when) ==> Weekday(t) !in repeat
  {
    forall t | when < t < when + delta * Day && TimeOfDay(t) == TimeOfDay(when)
      ensures Weekday(t) !in repeat
    {
      SameTimeOfDay(when, t);
      var j := DayNumber(t) - DayNumber(when);
      ShiftByDays(when, j);
      assert Weekday(t) == DayAfter(Weekday(when), j);
    }
  }

  /**
   * NextOccurrence finds the first later instant, at the same time of day,
   * that falls on a listed weekday: 1 to 7 days ahead (never the same day, so
   * a listed current weekday gives a full week), and None exactly when no
   * weekday is listed.
   */
  lemma NextOccurrenceIsFirstListedDay(when: int, repeat: seq<int>)
    ensures NextOccurrence(when, repeat).None? <==> !HasWeekday(repeat)
    ensures NextOccurrence(when, repeat).Some? ==>
      var (next, delta) := NextOccurrence(when, repeat).value;
      && 1 <= delta <= 7
      && next == when + delta * Day
      && TimeOfDay(next) == TimeOfDay(when)
      && Weekday(next) in repeat
      && forall t :: when < t < next && TimeOfDay(t) == TimeOfDay(when) ==> Weekday(t) !in repeat
  {
    var cw := Weekday(when);
    var delta := FirstListedDay(cw, repeat, 1, 7);
    if delta <= 7 {
      ShiftByDays(when, delta);
      assert Weekday(when + delta * Day) == DayAfter(cw, delta);
      NoListedDayBefore(when, repeat, delta);
    } else {
      ScanMissesEveryWeekday(cw, repeat);
    }
  }

  /** The first value of days, in list order, strictly greater than cw. */
  function FirstAbove(days: seq<int>, cw: int): Option<int>
    decreases |days|
  {
    if days == [] then None
    else if days[0] > cw then Some(days[0])
    else FirstAbove(days[1..], cw)
  }

  /**
   * The day count the recurrence rule gives for an ascending list of weekdays:
   * the first listed weekday after cw in the same week, else a wrap to the
   * first listed weekday of the next week.
   */
  function RuleDelta(cw: int, days: seq<int>): Option<int>
  {
    if days == [] then None
    else match FirstAbove(days, cw)
      case Some(d) => Some(d - cw)
      case None => Some(7 - cw + days[0])
  }

  predicate IsWeekdayList(days: seq<int>)
  {
    && (forall i :: 0 <= i < |days| ==> 0 <= days[i] < 7)
    && (forall i, j :: 0 <= i < j < |days| ==> days[i] < days[j])
  }

  lemma FirstAboveIsLeast(days: seq<int>, cw: int)
    requires IsWeekdayList(days)
    ensures FirstAbove(days, cw).Some? ==>
      var d := FirstAbove(days, cw).value;
      d in days && d > cw && forall e :: e in days && e > cw ==> d <= e
    ensures FirstAbove(days, cw).None? ==> forall e :: e in days ==> e <= cw
    decreases |days|
  {
    if days != [] && days[0] <= cw {
      FirstAboveIsLeast(days[1..], cw);
      forall e | e in days
        ensures e == days[0] || e in days[1..]
      {
        var i :| 0 <= i < |days| && days[i] == e;
        if i > 0 { assert days[1..][i - 1] == e; }
      }
    } else if days != [] {
      forall e | e in days && e > cw
        ensures days[0] <= e
      {
        var i :| 0 <= i < |days| && days[i] == e;
      }
    }
  }

  lemma FirstIsLeast(days: seq<int>)
    requires IsWeekdayList(days) && days != []
    ensures forall e :: e in days ==> days[0] <= e
  {
    forall e | e in days ensures days[0] <= e {
      var i :| 0 <= i < |days| && days[i] == e;
    }
  }

  /** The rule's day count lands on a listed weekday, and passes no listed weekday before it. */
  lemma RuleDeltaIsFirstListed(cw: int, days: seq<int>)
    requires 0 <= cw < 7 && IsWeekdayList(days) && days != []
    ensures var delta := RuleDelta(cw, days).value;
      && 1 <= delta <= 7
      && DayAfter(cw, delta) in days
      && forall i :: 1 <= i < delta ==> DayAfter(cw, i) !in days
  {
    FirstAboveIsLeast(days, cw);
    FirstIsLeast(days);
    var delta := RuleDelta(cw, days).value;
    forall i | 1 <= i < delta
      ensures DayAfter(cw, i) !in days
    {
      if cw + i >= 7 {
        assert DayAfter(cw, i) == cw + i - 7;
      }
    }
  }

  /**
   * On an ascending list of weekdays, the day scan of NextOccurrence and the
   * rule "next listed weekday this week, else wrap to the first listed one"
   * agree, from any due instant.
   */
  lemma NextOccurrenceFollowsRule(when: int, days: seq<int>)
    requires IsWeekdayList(days)
    ensures NextOccurrence(when, days).Some? <==> RuleDelta(Weekday(when), days).Some?
    ensures NextOccurrence(when, days).Some? ==>
      NextOccurrence(when, days).value.1 == RuleDelta(Weekday(when), days).value
  {
    var cw := Weekday(when);
    var delta := FirstListedDay(cw, days, 1, 7);
    if days != [] {
      RuleDeltaIsFirstListed(cw, days);
      var expected := RuleDelta(cw, days).value;
      assert delta <= expected;
      assert DayAfter(cw, delta) in days;
    }
  }
}
