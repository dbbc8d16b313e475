/**
 * Reading the time tokens of the in and at commands: a relative duration
 * ("12m", "12h", "12d"), a wall-clock time ("13:00", "6:00") and a string of
 * weekday letters ("MWF"); and the first instant an at command is due.
 */
module TimeResolver {
  import opened Wrappers
  import opened Strings
  import opened Time
  import opened Recurrence

  /** The reply to a duration or clock token that cannot be read. */
  function NotUnderstood(token: string): string
  {
    "Sorry I didn't understand '" + token + "'"
  }

  /** Seconds in one unit of a relative duration. */
  function UnitSeconds(unit: char): Option<int>
  {
    if unit == 'm' then Some(Minute)
    else if unit == 'h' then Some(Hour)
    else if unit == 'd' then Some(Day)
    else None
  }

  /** A count of minutes, hours or days, written as digits and one unit letter, in seconds. */
  function ParseDuration(token: string): Result<nat, string>
  {
    if |token| >= 2 && UnitSeconds(token[|token| - 1]).Some? && ParseNat(token[..|token| - 1]).Some?
    then Ok(ParseNat(token[..|token| - 1]).value * UnitSeconds(token[|token| - 1]).value)
    else Err(NotUnderstood(token))
  }

  /** N followed by m, h or d reads as N minutes, hours or days. */
  lemma ParseDurationOfCount(n: nat, unit: char)
    requires unit == 'm' || unit == 'h' || unit == 'd'
    ensures ParseDuration(NatToString(n) + [unit]) ==
      Ok(if unit == 'm' then n * 60 else if unit == 'h' then n * 3600 else n * 86400)
  {
    var token := NatToString(n) + [unit];
    assert token[..|token| - 1] == NatToString(n);
    ParseNatOfNatToString(n);
  }

  /** A token is refused with a reply that starts "Sorry I didn't understand '<token>'"; any unit other than m, h or d is refused. */
  lemma ParseDurationRefusal(token: string)
    ensures ParseDuration(token).Err? ==> "Sorry I didn't understand '" + token + "'" <= ParseDuration(token).error
    ensures token != [] && token[|token| - 1] !in "mhd" ==> ParseDuration(token).Err?
  {
  }

  /** The position of the first c in s, or |s| when s holds none. */
  function IndexOf(s: string, c: char): (i: nat)
    ensures i <= |s| && (i < |s| ==> s[i] == c)
    ensures forall j :: 0 <= j < i ==> s[j] != c
    decreases |s|
  {
    if s == [] then 0 else if s[0] == c then 0 else 1 + IndexOf(s[1..], c)
  }

  /** A 24-hour wall-clock time: hours, a colon and minutes, as digits. */
  function ParseClock(token: string): (r: Result<(int, int), string>)
    ensures r.Ok? ==> 0 <= r.value.0 < 24 && 0 <= r.value.1 < 60
  {
    var i := IndexOf(token, ':');
    if i == |token| then Err(NotUnderstood(token))
    else
      var hour := ParseNat(token[..i]);
      var minute := ParseNat(token[i + 1..]);
      if hour.Some? && minute.Some? && hour.value < 24 && minute.value < 60
      then Ok((hour.value, minute.value))
      else Err(NotUnderstood(token))
  }

  function TwoDigits(n: nat): string
    requires n < 100
  {
    [DigitChar(n / 10), DigitChar(n % 10)]
  }

  /** Every time of day written as H:MM (or HH:MM) reads back as itself. */
  lemma ParseClockOfTime(hour: nat, minute: nat)
    requires hour < 24 && minute < 60
    ensures ParseClock(NatToString(hour) + ":" + TwoDigits(minute)) == Ok((hour, minute))
  {
    var h := NatToString(hour);
    var t := TwoDigits(minute);
    var token := h + ":" + t;
    assert token[|h|] == ':';
    assert forall j :: 0 <= j < |h| ==> token[j] == h[j] && IsDigit(h[j]);
    var i := IndexOf(token, ':');
    assert i == |h|;
    assert token[..i] == h;
    assert token[i + 1..] == t;
    ParseNatOfNatToString(hour);
    assert t[..1] == [t[0]];
    assert DigitsValue(t) == minute;
    assert ParseNat(t) == Some(minute);
  }

  // Weekday letters

  /** One letter per weekday, Monday first: Monday, Tuesday, Wednesday, thuRsday, Friday, Saturday, sUnday. */
  const DayLetters: string := "MTWRFSU"

  /** The reply to a weekday token that cannot be read. */
  function DaysNotUnderstood(token: string): string
  {
    "I didn't understand '" + token + "'"
  }

  predicate AllDayLetters(s: string)
  {
    forall i :: 0 <= i < |s| ==> s[i] in DayLetters
  }

  /** The weekdays from d on, ascending, whose letter occurs in token. */
  function ListedFrom(token: string, d: nat): seq<int>
    requires d <= 7
    decreases 7 - d
  {
    if d == 7 then []
    else (if DayLetters[d] in token then [d] else []) + ListedFrom(token, d + 1)
  }

  /** A non-empty string of distinct weekday letters, as ascending weekday codes. */
  function ParseWeekdays(token: string): Result<seq<int>, string>
  {
    if token != [] && AllDayLetters(token) && Distinct(token)
    then Ok(ListedFrom(token, 0))
    else Err(DaysNotUnderstood(token))
  }

  /** The letters of a list of weekday codes, in list order. */
  function Letters(days: seq<int>): (s: string)
    requires forall i :: 0 <= i < |days| ==> 0 <= days[i] < 7
    ensures |s| == |days| && forall i :: 0 <= i < |days| ==> s[i] == DayLetters[days[i]]
  {
    if days == [] then "" else [DayLetters[days[0]]] + Letters(days[1..])
  }

  lemma {:induction false} ListedFromMembers(token: string, d: nat)
    requires d <= 7
    ensures forall x :: x in ListedFrom(token, d) <==> d <= x < 7 && DayLetters[x] in token
    decreases 7 - d
  {
    if d < 7 {
      ListedFromMembers(token, d + 1);
    }
  }

  lemma {:induction false} ListedFromIsAscending(token: string, d: nat)
    requires d <= 7
    ensures IsWeekdayList(ListedFrom(token, d))
    ensures forall i :: 0 <= i < |ListedFrom(token, d)| ==> d <= ListedFrom(token, d)[i]
    decreases 7 - d
  {
    if d < 7 {
      ListedFromIsAscending(token, d + 1);
      var rest := ListedFrom(token, d + 1);
      var head: seq<int> := if DayLetters[d] in token then [d] else [];
      assert ListedFrom(token, d) == head + rest;
    }
  }

  /** Two ascending lists of weekday codes with the same members are equal. */
  lemma {:induction false} AscendingListsWithSameMembers(a: seq<int>, b: seq<int>)
    requires IsWeekdayList(a) && IsWeekdayList(b)
    requires forall x :: x in a <==> x in b
    ensures a == b
    decreases |a|
  {
    if a == [] {
      assert forall i :: 0 <= i < |b| ==> b[i] in b;
    } else {
      assert a[0] in a;
      assert b != [];
      FirstIsLeast(a);
      FirstIsLeast(b);
      assert a[0] in b && b[0] in a;
      assert a[0] == b[0];
      forall x ensures x in a[1..] <==> x in b[1..] {
        if x in a[1..] { TailMember(a, b, x); }
        if x in b[1..] { TailMember(b, a, x); }
      }
      AscendingListsWithSameMembers(a[1..], b[1..]);
      assert a == [a[0]] + a[1..] && b == [b[0]] + b[1..];
    }
  }

  /** Past a common least element, a member of one ascending list's tail is in the other's. */
  lemma TailMember(a: seq<int>, b: seq<int>, x: int)
    requires IsWeekdayList(a) && IsWeekdayList(b) && a != [] && b != [] && a[0] == b[0]
    requires forall y :: y in a <==> y in b
    requires x in a[1..]
    ensures x in b[1..]
  {
    var i :| 0 <= i < |a| - 1 && a[1..][i] == x;
    assert a[i + 1] == x && a[0] < a[i + 1];
    assert x in b && x != b[0];
    var k :| 0 <= k < |b| && b[k] == x;
    assert b[1..][k - 1] == x;
  }

  /**
   * A weekday token is accepted exactly when it is a non-empty string of
   * distinct weekday letters; it then gives the ascending codes of exactly the
   * weekdays it names. A refused token is answered with a reply that says
   * "I didn't understand" and quotes it.
   */
  lemma ParseWeekdaysMeaning(token: string)
    ensures ParseWeekdays(token).Ok? <==> token != [] && AllDayLetters(token) && Distinct(token)
    ensures ParseWeekdays(token).Ok? ==>
      var days := ParseWeekdays(token).value;
      && IsWeekdayList(days)
      && days != []
      && forall d :: 0 <= d < 7 ==> (d in days <==> DayLetters[d] in token)
    ensures ParseWeekdays(token).Err? ==> Contains(ParseWeekdays(token).error, "I didn't understand '" + token + "'")
  {
    if ParseWeekdays(token).Ok? {
      ListedFromIsAscending(token, 0);
      ListedFromMembers(token, 0);
      var c := token[0];
      assert c in DayLetters;
      var d :| 0 <= d < 7 && DayLetters[d] == c;
      assert d in ListedFrom(token, 0);
    } else {
      PrefixIsContained(DaysNotUnderstood(token), DaysNotUnderstood(token));
    }
  }

  lemma LettersAreDistinct(days: seq<int>)
    requires IsWeekdayList(days)
    ensures Distinct(Letters(days)) && AllDayLetters(Letters(days))
  {
    var s := Letters(days);
    forall i, j | 0 <= i < j < |s| ensures s[i] != s[j] {
      DayLettersDiffer(days[i], days[j]);
    }
  }

  lemma DayLettersDiffer(a: int, b: int)
    requires 0 <= a < b < 7
    ensures DayLetters[a] != DayLetters[b]
  {
  }

  /** No letter stands for two weekdays. */
  lemma DayLetterNamesOneDay(a: int, b: int)
    requires 0 <= a < 7 && 0 <= b < 7 && DayLetters[a] == DayLetters[b]
    ensures a == b
  {
  }

  lemma LettersMembers(days: seq<int>)
    requires IsWeekdayList(days)
    ensures forall x :: 0 <= x < 7 ==> (DayLetters[x] in Letters(days) <==> x in days)
  {
    var s := Letters(days);
    forall x | 0 <= x < 7 ensures DayLetters[x] in s <==> x in days {
      if DayLetters[x] in s {
        var i :| 0 <= i < |s| && s[i] == DayLetters[x];
        DayLetterNamesOneDay(days[i], x);
        assert days[i] in days;
      }
      if x in days {
        var i :| 0 <= i < |days| && days[i] == x;
        assert s[i] == DayLetters[x];
      }
    }
  }

  /** Rendering ascending weekday codes as letters and reading them back gives the codes. */
  lemma LettersRoundTrip(days: seq<int>)
    requires IsWeekdayList(days) && days != []
    ensures ParseWeekdays(Letters(days)) == Ok(days)
  {
    var s := Letters(days);
    LettersAreDistinct(days);
    LettersMembers(days);
    ListedFromIsAscending(s, 0);
    ListedFromMembers(s, 0);
    var listed := ListedFrom(s, 0);
    forall x ensures x in listed <==> x in days {
      if x in days {
        var i :| 0 <= i < |days| && days[i] == x;
      }
    }
    AscendingListsWithSameMembers(listed, days);
  }

  // The first due instant of an at command

  /**
   * The next instant the local wall clock reads hour:minute and, for a
   * repeating reminder, the first such instant on a listed weekday.
   */
  function FirstDue(now: int, hour: int, minute: int, offset: int, repeat: Option<seq<int>>): int
    requires 0 <= hour < 24 && 0 <= minute < 60
  {
    var base := ResolveClock(now, hour, minute, offset);
    match repeat
    case None => base
    case Some(days) =>
      var k := FirstListedDay(LocalWeekday(base, offset), days, 0, 6);
      if k <= 6 then base + k * Day else base
  }

  /** With a repeat, the first due instant is the first reading of the clock that falls on a listed local weekday. */
  lemma FirstDueOnListedDay(now: int, hour: int, minute: int, offset: int, days: seq<int>)
    requires 0 <= hour < 24 && 0 <= minute < 60
    requires HasWeekday(days)
    ensures var r := FirstDue(now, hour, minute, offset, Some(days));
      && now <= r
      && LocalTimeOfDay(r, offset) == hour * Hour + minute * Minute
      && LocalWeekday(r, offset) in days
      && forall t :: now <= t < r && LocalTimeOfDay(t, offset) == hour * Hour + minute * Minute ==>
           LocalWeekday(t, offset) !in days
  {
    ResolveClockIsNext(now, hour, minute, offset);
    var base := ResolveClock(now, hour, minute, offset);
    var lw := LocalWeekday(base, offset);
    ScanFromStartFindsListedDay(lw, days);
    var k := FirstListedDay(lw, days, 0, 6);
    ShiftByDays(base + offset, k);
    assert LocalWeekday(base + k * Day, offset) == DayAfter(lw, k);
    NoListedReadingBefore(now, hour, minute, offset, days);
  }

  /** Every reading of the clock between now and the first due instant falls on an unlisted weekday. */
  lemma NoListedReadingBefore(now: int, hour: int, minute: int, offset: int, days: seq<int>)
    requires 0 <= hour < 24 && 0 <= minute < 60
    ensures var base := ResolveClock(now, hour, minute, offset);
      var lw := LocalWeekday(base, offset);
      var k := FirstListedDay(lw, days, 0, 6);
      forall t :: now <= t < base + k * Day && LocalTimeOfDay(t, offset) == hour * Hour + minute * Minute ==>
        LocalWeekday(t, offset) !in days
  {
    ResolveClockIsNext(now, hour, minute, offset);
    var base := ResolveClock(now, hour, minute, offset);
    var lw := LocalWeekday(base, offset);
    var k := FirstListedDay(lw, days, 0, 6);
    forall t | now <= t < base + k * Day && LocalTimeOfDay(t, offset) == hour * Hour + minute * Minute
      ensures LocalWeekday(t, offset) !in days
    {
      assert base <= t;
      SameTimeOfDay(base + offset, t + offset);
      var j := LocalDay(t, offset) - LocalDay(base, offset);
      ShiftByDays(base + offset, j);
      assert LocalWeekday(t, offset) == DayAfter(lw, j);
    }
  }

  /**
   * An at command is first due at the earliest instant, not before now, whose
   * local wall clock reads hour:minute and (with a repeat that names a
   * weekday) whose local weekday is listed.
   */
  lemma FirstDueIsEarliest(now: int, hour: int, minute: int, offset: int, repeat: Option<seq<int>>)
    requires 0 <= hour < 24 && 0 <= minute < 60
    requires repeat.Some? ==> HasWeekday(repeat.value)
    ensures var r := FirstDue(now, hour, minute, offset, repeat);
      && now <= r
      && LocalTimeOfDay(r, offset) == hour * Hour + minute * Minute
      && (repeat.Some? ==> LocalWeekday(r, offset) in repeat.value)
      && (repeat.None? ==> forall t :: now <= t < r ==> LocalTimeOfDay(t, offset) != hour * Hour + minute * Minute)
      && (repeat.Some? ==> forall t :: now <= t < r && LocalTimeOfDay(t, offset) == hour * Hour + minute * Minute ==>
            LocalWeekday(t, offset) !in repeat.value)
  {
    match repeat {
      case None => ResolveClockIsNext(now, hour, minute, offset);
      case Some(days) => FirstDueOnListedDay(now, hour, minute, offset, days);
    }
  }
}
