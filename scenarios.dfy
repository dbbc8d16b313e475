/**
 * The repository's own examples, stated about the model: each lemma fixes the
 * inputs of one example and states the outcome it expects.
 */
module Scenarios {
  import opened Wrappers
  import opened Strings
  import opened Time
  import opened Recurrence
  import opened TimeResolver
  import opened ReadableTime
  import opened Scheduler
  import opened Recovery

  function Fresh(): State { State(map[], {}, [], [], 0) }

  function Holding(id: Id, rec: Reminder, pending: set<Id>): State
  {
    State(map[id := rec], pending, [], [], id + 1)
  }

  // Firing

  lemma FireOneShot()
    ensures var s := DoReminder(Holding(1, Reminder("#bots", "some message", 0, None), {1}), 1, 0);
      && 1 !in s.pending && 1 !in s.store
      && s.sent == [Delivery("#bots", "some message")]
  {
  }

  /** Fired on Wednesday 11 December 2013, a Monday-Wednesday-Friday reminder moves to Friday the 13th. */
  lemma FireRecurringSameWeek()
    ensures var s := DoReminder(Holding(1, Reminder("#bots", "some message", Dec11, Some([0, 2, 4])), {1}), 1, Dec11);
      && 1 in s.store && s.store[1].when == Dec11 + 2 * Day
      && s.timers == [Timer(48 * 3600, 1)]
  {
    assert Weekday(Dec11) == 2;
    assert FirstListedDay(2, [0, 2, 4], 2, 7) == 2;
    assert FirstListedDay(2, [0, 2, 4], 1, 7) == 2;
  }

  /** Fired on Friday 13 December 2013, it moves to Monday the 16th. */
  lemma FireRecurringNextWeek()
    ensures var s := DoReminder(Holding(1, Reminder("#bots", "some message", Dec11 + 2 * Day, Some([0, 2, 4])), {1}), 1, Dec11 + 2 * Day);
      && 1 in s.store && s.store[1].when == Dec11 + 5 * Day
      && s.timers == [Timer(72 * 3600, 1)]
  {
    assert Weekday(Dec11 + 2 * Day) == 4;
    assert FirstListedDay(4, [0, 2, 4], 3, 7) == 3;
    assert FirstListedDay(4, [0, 2, 4], 2, 7) == 3;
    assert FirstListedDay(4, [0, 2, 4], 1, 7) == 3;
  }

  lemma FireWithoutRecord()
    ensures var s := DoReminder(State(map[], {1}, [], [], 2), 1, 0);
      s.pending == {} && s.sent == []
  {
  }

  lemma FireUnicode()
    ensures DoReminder(Holding(1, Reminder("☃", "☃", 0, None), {1}), 1, 0).sent == [Delivery("☃", "☃")]
  {
  }

  // next_occurrence, from Wednesday 13 August 2014

  /** Midnight UTC at the start of 13 August 2014. */
  const Aug13: int := 1407888000

  lemma CivilAug13(y: int, m: int, d: int)
    requires y == 2014 && m == 8 && d == 13
    ensures CivilDay(y, m, d) == 16295
  {
    assert (m + 9) % 12 == 5;
    assert (153 * 5 + 2) / 5 == 153;
    assert y / 400 == 5;
  }

  /** 13 August 2014 is a Wednesday. */
  lemma Aug13IsMidnight()
    ensures Midnight(2014, 8, 13) == Aug13
    ensures Weekday(Aug13) == 2
  {
    CivilAug13(2014, 8, 13);
    assert Aug13 / Day == 16295;
  }

  lemma NextMondayIsFiveDaysOn()
    ensures NextOccurrence(Aug13, [0]) == Some((Aug13 + 5 * Day, 5))
  {
    Aug13IsMidnight();
    assert FirstListedDay(2, [0], 1, 7) == 5 by {
      assert DayAfter(2, 1) == 3 && DayAfter(2, 2) == 4 && DayAfter(2, 3) == 5 && DayAfter(2, 4) == 6 && DayAfter(2, 5) == 0;
    }
  }

  lemma NextWednesdayIsAWeekOn()
    ensures NextOccurrence(Aug13, [2]) == Some((Aug13 + 7 * Day, 7))
  {
    Aug13IsMidnight();
    assert FirstListedDay(2, [2], 7, 7) == 7;
    assert FirstListedDay(2, [2], 6, 7) == 7;
    assert FirstListedDay(2, [2], 5, 7) == 7;
    assert FirstListedDay(2, [2], 4, 7) == 7;
    assert FirstListedDay(2, [2], 3, 7) == 7;
    assert FirstListedDay(2, [2], 2, 7) == 7;
    assert FirstListedDay(2, [2], 1, 7) == 7;
  }

  lemma NextSaturdayIsThreeDaysOn()
    ensures NextOccurrence(Aug13, [5]) == Some((Aug13 + 3 * Day, 3))
  {
    Aug13IsMidnight();
    assert FirstListedDay(2, [5], 1, 7) == 3 by {
      assert DayAfter(2, 1) == 3 && DayAfter(2, 2) == 4 && DayAfter(2, 3) == 5;
    }
  }

  // in

  lemma TheMessage()
    ensures Join(["this", "is", "the", "message"], " ") == "this is the message"
  {
    var w := ["this", "is", "the", "message"];
    assert w[1..][1..][1..] == ["message"];
    assert w[1..][1..] == ["the", "message"];
    assert w[1..] == ["is", "the", "message"];
  }

  lemma Twelve()
    ensures NatToString(12) == "12"
  {
  }

  lemma InMinutes(args: seq<string>)
    requires args == ["12m", "this", "is", "the", "message"]
    ensures var now := Midnight(2013, 12, 13);
      var (s, reply) := InReminder(Fresh(), now, "#bots", args);
      && reply == Created(0)
      && 0 in s.store && s.store[0] == Reminder("#bots", "this is the message", now + 12 * 60, None)
      && s.timers == [Timer(12 * 60, 0)]
  {
    var words := ["this", "is", "the", "message"];
    Twelve();
    assert "12m" == "12" + ['m'];
    assert args == [NatToString(12) + ['m']] + words;
    InReminderSchedulesDuration(Fresh(), Midnight(2013, 12, 13), "#bots", 12, 'm', words);
    TheMessage();
  }

  lemma InHours(args: seq<string>)
    requires args == ["12h", "this", "is", "the", "message"]
    ensures var now := Midnight(2013, 12, 13);
      var (s, reply) := InReminder(Fresh(), now, "#bots", args);
      && 0 in s.store && s.store[0] == Reminder("#bots", "this is the message", now + 12 * 3600, None)
      && s.timers == [Timer(12 * 3600, 0)]
  {
    var words := ["this", "is", "the", "message"];
    Twelve();
    assert "12h" == "12" + ['h'];
    assert args == [NatToString(12) + ['h']] + words;
    InReminderSchedulesDuration(Fresh(), Midnight(2013, 12, 13), "#bots", 12, 'h', words);
    TheMessage();
  }

  lemma InDays(args: seq<string>)
    requires args == ["12d", "this", "is", "the", "message"]
    ensures var now := Midnight(2013, 12, 13);
      var (s, reply) := InReminder(Fresh(), now, "#bots", args);
      && 0 in s.store && s.store[0] == Reminder("#bots", "this is the message", now + 12 * 24 * 3600, None)
      && s.timers == [Timer(12 * 24 * 3600, 0)]
  {
    var words := ["this", "is", "the", "message"];
    Twelve();
    assert "12d" == "12" + ['d'];
    assert args == [NatToString(12) + ['d']] + words;
    InReminderSchedulesDuration(Fresh(), Midnight(2013, 12, 13), "#bots", 12, 'd', words);
    TheMessage();
  }

  /** "on #foo" and "on foo" both send the reminder to #foo; the message is what follows. */
  lemma InOtherChannel(args: seq<string>, channel: string)
    requires channel == "#foo" || channel == "foo"
    requires args == ["12m", "on", channel, "this", "is", "the", "message"]
    ensures var now := Midnight(2013, 12, 13);
      var s := InReminder(Fresh(), now, "#bots", args).0;
      0 in s.store && s.store[0].channel == "#foo" && s.store[0].message == "this is the message"
  {
    var words := ["this", "is", "the", "message"];
    Twelve();
    assert "12m" == "12" + ['m'];
    assert args == [NatToString(12) + ['m']] + (["on", channel] + words);
    InReminderSchedulesDuration(Fresh(), Midnight(2013, 12, 13), "#bots", 12, 'm', ["on", channel] + words);
    assert (["on", channel] + words)[2..] == words;
    FooChannel(channel);
    TheMessage();
  }

  lemma FooChannel(channel: string)
    requires channel == "#foo" || channel == "foo"
    ensures ChannelName(channel) == "#foo"
  {
  }

  lemma InUnknownUnit()
    ensures var (s, reply) := InReminder(Fresh(), Midnight(2013, 12, 13), "#bots", ["12x", "this", "is", "the", "message"]);
      && s == Fresh()
      && reply.Refused? && "Sorry I didn't understand '12x'" <= reply.text
  {
  }

  // at, with now at noon on Wednesday 11 December 2013, local time

  lemma Clock13()
    ensures ParseClock("13:00") == Ok((13, 0))
  {
    assert NatToString(13) == "13";
    assert "13:00" == NatToString(13) + ":" + TwoDigits(0);
    ParseClockOfTime(13, 0);
  }

  lemma Clock6()
    ensures ParseClock("6:00") == Ok((6, 0))
  {
    assert NatToString(6) == "6";
    assert "6:00" == NatToString(6) + ":" + TwoDigits(0);
    ParseClockOfTime(6, 0);
  }

  lemma MondayWednesdayFriday()
    ensures ParseWeekdays("MWF") == Ok([0, 2, 4])
  {
    ListedMondayWednesdayFriday("MWF");
  }

  lemma ListedMondayWednesdayFriday(t: string)
    requires t == "MWF"
    ensures ParseWeekdays(t) == Ok([0, 2, 4])
  {
    assert AllDayLetters(t) by {
      assert t[0] == DayLetters[0] && t[1] == DayLetters[2] && t[2] == DayLetters[4];
    }
    assert ListedFrom(t, 5) == [] by {
      assert DayLetters[5] !in t && DayLetters[6] !in t;
    }
    assert ListedFrom(t, 3) == [4] by {
      assert DayLetters[3] !in t && DayLetters[4] in t;
    }
    assert ListedFrom(t, 0) == [0, 2, 4] by {
      assert DayLetters[0] in t && DayLetters[1] !in t && DayLetters[2] in t;
    }
  }

  lemma BadWeekdayTokens()
    ensures ParseWeekdays("XYZ") == Err("I didn't understand 'XYZ'")
    ensures ParseWeekdays("") == Err("I didn't understand ''")
  {
    assert "XYZ"[0] !in DayLetters;
    assert DaysNotUnderstood("XYZ") == "I didn't understand 'XYZ'";
    assert DaysNotUnderstood("") == "I didn't understand ''";
  }

  /** Midnight UTC at the start of 11 December 2013. */
  const Dec11: int := 1386720000

  lemma CivilDec11(y: int, m: int, d: int)
    requires y == 2013 && m == 12 && d == 11
    ensures CivilDay(y, m, d) == 16050
  {
    assert (m + 9) % 12 == 9;
    assert (153 * 9 + 2) / 5 == 275;
    assert y / 400 == 5;
  }

  /** 11 December 2013 is a Wednesday. */
  lemma Dec11IsMidnight()
    ensures Midnight(2013, 12, 11) == Dec11
    ensures Weekday(Dec11) == 2
  {
    CivilDec11(2013, 12, 11);
    assert Dec11 / Day == 16050;
  }

  function EasternNoon(): int { Dec11 + 17 * Hour }

  function CentralNoon(): int { Dec11 + 18 * Hour }

  const Eastern: int := -5 * Hour
  const Central: int := -6 * Hour

  // The splits are stated for any clock, zone and message words; the scenarios below instantiate them.

  lemma NotZones()
    ensures ZoneOffset("this is a message").None? && ZoneOffset("on").None?
    ensures ZoneOffset("US/Central") == Some(Central) && ZoneOffset("EST") == Some(Eastern)
  {
  }

  lemma SplitPlain(args: seq<string>, clock: string, hour: int, message: string)
    requires ParseClock(clock) == Ok((hour, 0)) && ZoneOffset(message).None?
    requires args == [clock, message]
    ensures SplitAt("#bots", args) == Ok(AtParts(hour, 0, Eastern, "#bots", [message], None))
  {
    assert args[1..] == [message];
  }

  lemma SplitZoned(args: seq<string>, clock: string, hour: int, zone: string, offset: int, message: string)
    requires ParseClock(clock) == Ok((hour, 0)) && ZoneOffset(zone) == Some(offset)
    requires args == [clock, zone, message]
    ensures SplitAt("#bots", args) == Ok(AtParts(hour, 0, offset, "#bots", [message], None))
  {
    assert args[1..][1..] == [message];
  }

  lemma SplitZonedRepeat(args: seq<string>, clock: string, hour: int, zone: string, offset: int, message: string, repeat: string, days: string)
    requires ParseClock(clock) == Ok((hour, 0)) && ZoneOffset(zone) == Some(offset)
    requires message != "on" && repeat == "repeat"
    requires args == [clock, zone, message, repeat, days]
    ensures SplitAt("#bots", args) == Ok(AtParts(hour, 0, offset, "#bots", [message], Some(days)))
  {
    var words := [message, repeat, days];
    assert args[1..][1..] == words;
    assert Destination("#bots", words) == ("#bots", words);
    assert words[..|words| - 2] == [message];
  }

  /** Noon local time on 11 December 2013, in either zone. */
  lemma LocalNoon()
    ensures EasternNoon() + Eastern == Dec11 + 12 * Hour
    ensures CentralNoon() + Central == Dec11 + 12 * Hour
    ensures TimeOfDay(Dec11 + 12 * Hour) == 12 * Hour
  {
  }

  lemma DueWithoutRepeat()
    ensures FirstDue(EasternNoon(), 13, 0, Eastern, None) == EasternNoon() + Hour
    ensures FirstDue(EasternNoon(), 6, 0, Eastern, None) == EasternNoon() + 18 * Hour
    ensures FirstDue(CentralNoon(), 13, 0, Central, None) == CentralNoon() + Hour
    ensures FirstDue(CentralNoon(), 6, 0, Central, None) == CentralNoon() + 18 * Hour
  {
    LocalNoon();
  }

  lemma DueWednesday()
    ensures FirstDue(CentralNoon(), 13, 0, Central, Some([0, 2, 4])) == CentralNoon() + Hour
    ensures FirstDue(EasternNoon(), 13, 0, Eastern, Some([0, 2, 4])) == EasternNoon() + Hour
  {
    LocalNoon();
    assert Weekday(Dec11 + 13 * Hour) == 2;
    assert FirstListedDay(2, [0, 2, 4], 0, 6) == 0;
  }

  lemma DueFriday()
    ensures FirstDue(CentralNoon(), 6, 0, Central, Some([0, 2, 4])) == CentralNoon() + 42 * Hour
  {
    LocalNoon();
    var base := ResolveClock(CentralNoon(), 6, 0, Central);
    assert base == Dec11 + 36 * Hour;
    assert LocalWeekday(base, Central) == 3;
    assert FirstListedDay(3, [0, 2, 4], 0, 6) == 1 by {
      assert DayAfter(3, 0) == 3 && DayAfter(3, 1) == 4;
    }
  }

  /** Noon in US/Central on Monday 9 December 2013, which is 18:00 UTC. */
  function MondayCentralNoon(): int { Dec11 - 2 * Day + 18 * Hour }

  /**
   * "at 20:00 US/Central ... repeat M" asked at noon Central on Monday 9
   * December 2013 is first due at 20:00 Central that Monday, which is 02:00
   * UTC on Tuesday. The next occurrence is read from the UTC weekday, so it
   * falls six days later, at 20:00 Central on Sunday 15 December.
   */
  lemma CentralEveningRepeatDrifts()
    ensures var due := FirstDue(MondayCentralNoon(), 20, 0, Central, Some([0]));
      && due == Dec11 - Day + 2 * Hour
      && LocalWeekday(due, Central) == 0 && LocalTimeOfDay(due, Central) == 20 * Hour
      && Weekday(due) == 1
      && NextOccurrence(due, [0]) == Some((due + 6 * Day, 6))
      && LocalWeekday(due + 6 * Day, Central) == 6 && LocalTimeOfDay(due + 6 * Day, Central) == 20 * Hour
  {
    DriftBase();
    DriftWeekdays();
    assert FirstListedDay(0, [0], 0, 6) == 0;
    assert FirstListedDay(1, [0], 1, 7) == 6 by {
      assert DayAfter(1, 1) == 2 && DayAfter(1, 2) == 3 && DayAfter(1, 3) == 4;
      assert DayAfter(1, 4) == 5 && DayAfter(1, 5) == 6 && DayAfter(1, 6) == 0;
    }
  }

  lemma DriftBase()
    ensures ResolveClock(MondayCentralNoon(), 20, 0, Central) == Dec11 - Day + 2 * Hour
  {
    var local := MondayCentralNoon() + Central;
    assert local == Dec11 - 2 * Day + 12 * Hour;
    assert TimeOfDay(local) == 12 * Hour;
  }

  /** Monday 20:00 Central is Tuesday 02:00 UTC; six days later it is Sunday 20:00 Central. */
  lemma DriftWeekdays()
    ensures Weekday(Dec11 - Day + 2 * Hour) == 1
    ensures LocalWeekday(Dec11 - Day + 2 * Hour, Central) == 0
    ensures LocalTimeOfDay(Dec11 - Day + 2 * Hour, Central) == 20 * Hour
    ensures LocalWeekday(Dec11 - Day + 2 * Hour + 6 * Day, Central) == 6
    ensures LocalTimeOfDay(Dec11 - Day + 2 * Hour + 6 * Day, Central) == 20 * Hour
  {
    assert (Dec11 - Day + 2 * Hour) / Day == 16049;
    assert (Dec11 - Day + 2 * Hour + Central) / Day == 16048;
    assert (Dec11 - Day + 2 * Hour + 6 * Day + Central) / Day == 16054;
  }

  lemma AtLaterToday(args: seq<string>)
    requires args == ["13:00", "this is a message"]
    ensures var (s, reply) := AtReminder(Fresh(), EasternNoon(), "#bots", args);
      && reply == Created(0)
      && 0 in s.store && s.store[0] == Reminder("#bots", "this is a message", EasternNoon() + Hour, None)
      && s.timers == [Timer(3600, 0)]
  {
    Clock13();
    NotZones();
    SplitPlain(args, "13:00", 13, "this is a message");
    DueWithoutRepeat();
  }

  lemma AtTomorrow(args: seq<string>)
    requires args == ["6:00", "this is a message"]
    ensures var (s, reply) := AtReminder(Fresh(), EasternNoon(), "#bots", args);
      && 0 in s.store && s.store[0] == Reminder("#bots", "this is a message", EasternNoon() + 18 * Hour, None)
      && s.timers == [Timer(18 * 3600, 0)]
  {
    Clock6();
    NotZones();
    SplitPlain(args, "6:00", 6, "this is a message");
    DueWithoutRepeat();
  }

  lemma AtCentralLaterToday(args: seq<string>)
    requires args == ["13:00", "US/Central", "this is a message"]
    ensures var (s, reply) := AtReminder(Fresh(), CentralNoon(), "#bots", args);
      && 0 in s.store && s.store[0] == Reminder("#bots", "this is a message", CentralNoon() + Hour, None)
      && s.timers == [Timer(3600, 0)]
  {
    Clock13();
    NotZones();
    SplitZoned(args, "13:00", 13, "US/Central", Central, "this is a message");
    DueWithoutRepeat();
  }

  lemma AtCentralTomorrow(args: seq<string>)
    requires args == ["6:00", "US/Central", "this is a message"]
    ensures var (s, reply) := AtReminder(Fresh(), CentralNoon(), "#bots", args);
      && 0 in s.store && s.store[0] == Reminder("#bots", "this is a message", CentralNoon() + 18 * Hour, None)
      && s.timers == [Timer(18 * 3600, 0)]
  {
    Clock6();
    NotZones();
    SplitZoned(args, "6:00", 6, "US/Central", Central, "this is a message");
    DueWithoutRepeat();
  }

  lemma AtCentralRepeatToday(args: seq<string>)
    requires args == ["13:00", "US/Central", "this is a message", "repeat", "MWF"]
    ensures var (s, reply) := AtReminder(Fresh(), CentralNoon(), "#bots", args);
      && 0 in s.store && s.store[0] == Reminder("#bots", "this is a message", CentralNoon() + Hour, Some([0, 2, 4]))
      && s.timers == [Timer(3600, 0)]
  {
    Clock13();
    NotZones();
    SplitZonedRepeat(args, "13:00", 13, "US/Central", Central, "this is a message", "repeat", "MWF");
    MondayWednesdayFriday();
    DueWednesday();
  }

  /** 6:00 has passed on Wednesday and Thursday is not listed: the first reading is Friday's. */
  lemma AtCentralRepeatFriday(args: seq<string>)
    requires args == ["6:00", "US/Central", "this is a message", "repeat", "MWF"]
    ensures var (s, reply) := AtReminder(Fresh(), CentralNoon(), "#bots", args);
      && 0 in s.store && s.store[0] == Reminder("#bots", "this is a message", CentralNoon() + 42 * Hour, Some([0, 2, 4]))
      && s.timers == [Timer(42 * 3600, 0)]
  {
    Clock6();
    NotZones();
    SplitZonedRepeat(args, "6:00", 6, "US/Central", Central, "this is a message", "repeat", "MWF");
    MondayWednesdayFriday();
    DueFriday();
  }

  lemma SplitOtherChannel(args: seq<string>, clock: string, on: string, name: string, repeat: string, days: string)
    requires ParseClock(clock) == Ok((13, 0)) && ZoneOffset(on).None?
    requires on == "on" && repeat == "repeat"
    requires args == [clock, on, name, "test", "message", repeat, days]
    ensures SplitAt("#bots", args) == Ok(AtParts(13, 0, Eastern, ChannelName(name), ["test", "message"], Some(days)))
  {
    var words := ["test", "message", repeat, days];
    assert args[1..][2..] == words;
    assert Destination("#bots", args[1..]) == (ChannelName(name), words);
    assert words[..|words| - 2] == ["test", "message"];
  }

  lemma TestMessage()
    ensures Join(["test", "message"], " ") == "test message"
  {
    assert ["test", "message"][1..] == ["message"];
  }

  lemma AtOtherChannelRepeating(args: seq<string>, channel: string)
    requires channel == "#foo" || channel == "foo"
    requires args == ["13:00", "on", channel, "test", "message", "repeat", "MWF"]
    ensures 0 in AtReminder(Fresh(), EasternNoon(), "#bots", args).0.store
    ensures AtReminder(Fresh(), EasternNoon(), "#bots", args).0.store[0]
      == Reminder("#foo", "test message", EasternNoon() + Hour, Some([0, 2, 4]))
  {
    Clock13();
    NotZones();
    FooChannel(channel);
    SplitOtherChannel(args, "13:00", "on", channel, "repeat", "MWF");
    TestMessage();
    MondayWednesdayFriday();
    DueWednesday();
  }

  lemma SplitOnChannel(args: seq<string>, clock: string, on: string, name: string, message: string)
    requires ParseClock(clock) == Ok((13, 0)) && ZoneOffset(on).None? && on == "on"
    requires args == [clock, on, name, message]
    ensures SplitAt("#bots", args) == Ok(AtParts(13, 0, Eastern, ChannelName(name), [message], None))
  {
    var rest := [on, name, message];
    assert args[1..] == rest;
    assert rest[2..] == [message];
    assert Destination("#bots", rest) == (ChannelName(name), [message]);
  }

  lemma AtOtherChannel(args: seq<string>, channel: string)
    requires channel == "#foo" || channel == "foo"
    requires args == ["13:00", "on", channel, "this is a message"]
    ensures 0 in AtReminder(Fresh(), EasternNoon(), "#bots", args).0.store
    ensures AtReminder(Fresh(), EasternNoon(), "#bots", args).0.store[0]
      == Reminder("#foo", "this is a message", EasternNoon() + Hour, None)
  {
    Clock13();
    NotZones();
    FooChannel(channel);
    SplitOnChannel(args, "13:00", "on", channel, "this is a message");
    DueWithoutRepeat();
  }

  lemma SplitZoneThenChannel(args: seq<string>, clock: string, zone: string, on: string, name: string, message: string)
    requires ParseClock(clock) == Ok((13, 0)) && ZoneOffset(zone) == Some(Eastern) && on == "on"
    requires args == [clock, zone, on, name, message]
    ensures SplitAt("#bots", args) == Ok(AtParts(13, 0, Eastern, ChannelName(name), [message], None))
  {
    var rest := [on, name, message];
    assert args[1..][1..] == rest;
    assert rest[2..] == [message];
    assert Destination("#bots", rest) == (ChannelName(name), [message]);
  }

  lemma AtOtherChannelInZone(args: seq<string>)
    requires args == ["13:00", "EST", "on", "#foo", "this is a message"]
    ensures 0 in AtReminder(Fresh(), EasternNoon(), "#bots", args).0.store
    ensures AtReminder(Fresh(), EasternNoon(), "#bots", args).0.store[0]
      == Reminder("#foo", "this is a message", EasternNoon() + Hour, None)
  {
    Clock13();
    NotZones();
    FooChannel("#foo");
    SplitZoneThenChannel(args, "13:00", "EST", "on", "#foo", "this is a message");
    DueWithoutRepeat();
  }

  /** "XYZ" holds no weekday letter and "" none at all: both are refused. */
  lemma AtBadWeekdayLetters(args: seq<string>, days: string)
    requires days == "XYZ" || days == ""
    requires args == ["6:00", "US/Central", "this is a message", "repeat", days]
    ensures var (s, reply) := AtReminder(Fresh(), CentralNoon(), "#bots", args);
      s == Fresh() && reply.Refused? && Contains(reply.text, "I didn't understand")
  {
    Clock6();
    NotZones();
    BadWeekdayTokens();
    SplitZonedRepeat(args, "6:00", 6, "US/Central", Central, "this is a message", "repeat", days);
    AtReminderRefusesBadWeekdays(Fresh(), CentralNoon(), "#bots", args);
  }

  // readable_time_delta

  lemma QuantityOfOne(unit: string)
    ensures Quantity(1, unit) == "1 " + unit
  {
    assert NatToString(1) == "1";
  }

  lemma QuantityOfMany(n: nat, unit: string)
    requires n > 1
    ensures Quantity(n, unit) == NatToString(n) + " " + unit + "s"
  {
  }

  lemma HoursComeFirst(h: nat, m: nat)
    requires h != 0
    ensures HoursPart(h, m) == Quantity(h, "hour") + " and " + MinutesPart(m)
  {
  }

  lemma DaysComeFirst(d: nat, h: nat, m: nat)
    requires d != 0
    ensures Phrase(d, h, m) == Quantity(d, "day") + ", " + HoursPart(h, m)
  {
  }

  lemma MinutesAlone(m: nat)
    ensures Phrase(0, 0, m) == MinutesPart(m)
  {
  }

  lemma HoursAndMinutes(h: nat, m: nat)
    ensures Phrase(0, h, m) == HoursPart(h, m)
  {
  }

  lemma TenMinutes(m: nat)
    requires m == 10
    ensures MinutesPart(m) == "10 minutes"
  {
    assert NatToString(10) == "10";
    QuantityOfMany(10, "minute");
    assert "10" + " " + "minute" + "s" == "10 minutes";
  }

  lemma OneMinute(m: nat)
    requires m == 1
    ensures MinutesPart(m) == "1 minute"
  {
    QuantityOfOne("minute");
    assert "1 " + "minute" == "1 minute";
  }

  // Each literal join on its own, so each proof stays small.

  lemma JoinThreeHours()
    ensures "3 hours" + " and " + "10 minutes" == "3 hours and 10 minutes"
  {
  }

  lemma JoinOneHour()
    ensures "1 hour" + " and " + "1 minute" == "1 hour and 1 minute"
  {
  }

  lemma JoinEightDays()
    ensures "8 days" + ", " + "3 hours and 10 minutes" == "8 days, 3 hours and 10 minutes"
  {
  }

  lemma JoinOneDay()
    ensures "1 day" + ", " + "1 hour and 1 minute" == "1 day, 1 hour and 1 minute"
  {
  }

  lemma ThreeHoursPhrase(h: nat, m: nat)
    requires h == 3 && m == 10
    ensures HoursPart(h, m) == "3 hours and 10 minutes"
  {
    HoursComeFirst(h, m);
    assert NatToString(3) == "3";
    QuantityOfMany(3, "hour");
    assert "3" + " " + "hour" + "s" == "3 hours";
    TenMinutes(m);
    JoinThreeHours();
  }

  lemma OneHourPhrase(h: nat, m: nat)
    requires h == 1 && m == 1
    ensures HoursPart(h, m) == "1 hour and 1 minute"
  {
    HoursComeFirst(h, m);
    QuantityOfOne("hour");
    assert "1 " + "hour" == "1 hour";
    OneMinute(m);
    JoinOneHour();
  }

  lemma EightDaysPhrase(d: nat, h: nat, m: nat)
    requires d == 8 && h == 3 && m == 10
    ensures Phrase(d, h, m) == "8 days, 3 hours and 10 minutes"
  {
    DaysComeFirst(d, h, m);
    assert NatToString(8) == "8";
    QuantityOfMany(8, "day");
    assert "8" + " " + "day" + "s" == "8 days";
    ThreeHoursPhrase(h, m);
    JoinEightDays();
  }

  lemma OneDayPhrase(d: nat, h: nat, m: nat)
    requires d == 1 && h == 1 && m == 1
    ensures Phrase(d, h, m) == "1 day, 1 hour and 1 minute"
  {
    DaysComeFirst(d, h, m);
    QuantityOfOne("day");
    assert "1 " + "day" == "1 day";
    OneHourPhrase(h, m);
    JoinOneDay();
  }

  lemma ReadableTenMinutes()
    ensures ReadableTimeDelta(610) == "10 minutes"
  {
    ReadableTimeDeltaOfParts(0, 0, 10, 10);
    MinutesAlone(10);
    TenMinutes(10);
  }

  lemma ReadableOneMinute()
    ensures ReadableTimeDelta(65) == "1 minute"
  {
    ReadableTimeDeltaOfParts(0, 0, 1, 5);
    MinutesAlone(1);
    OneMinute(1);
  }

  lemma ReadableThreeHours()
    ensures ReadableTimeDelta(3 * 3600 + 610) == "3 hours and 10 minutes"
  {
    ReadableTimeDeltaOfParts(0, 3, 10, 10);
    HoursAndMinutes(3, 10);
    ThreeHoursPhrase(3, 10);
  }

  lemma ReadableOneHour()
    ensures ReadableTimeDelta(1 * 3600 + 65) == "1 hour and 1 minute"
  {
    ReadableTimeDeltaOfParts(0, 1, 1, 5);
    HoursAndMinutes(1, 1);
    OneHourPhrase(1, 1);
  }

  lemma ReadableDaysHoursMinutes()
    ensures ReadableTimeDelta(8 * 86400 + 3 * 3600 + 610) == "8 days, 3 hours and 10 minutes"
  {
    ReadableTimeDeltaOfParts(8, 3, 10, 10);
    EightDaysPhrase(8, 3, 10);
  }

  lemma ReadableOneOfEach()
    ensures ReadableTimeDelta(1 * 86400 + 1 * 3600 + 65) == "1 day, 1 hour and 1 minute"
  {
    ReadableTimeDeltaOfParts(1, 1, 1, 5);
    OneDayPhrase(1, 1, 1);
  }

  // init_reminders, for one record due at midnight UTC on Friday 13 December 2013

  const RecordId: Id := 1234567890

  function Dec13(): int { Dec11 + 2 * Day }

  function Standup(repeat: Option<seq<int>>): Reminder { Reminder("#bots", "Standup Time!", Dec13(), repeat) }

  function Stored(repeat: Option<seq<int>>, pending: set<Id>): State
  {
    State(map[RecordId := Standup(repeat)], pending, [], [], RecordId + 1)
  }

  lemma InitIgnoresScheduled()
    ensures ReconcileAll(Stored(None, {RecordId}), [RecordId], Dec13()) == Stored(None, {RecordId})
  {
  }

  lemma InitArmsDueRecord()
    ensures var s := ReconcileAll(Stored(None, {}), [RecordId], Dec13());
      RecordId in s.pending && s.timers == [Timer(0, RecordId)]
  {
  }

  lemma InitDropsStaleRecord()
    ensures var s := ReconcileAll(Stored(None, {}), [RecordId], Dec13() + Day);
      RecordId !in s.pending && RecordId !in s.store
  {
  }

  lemma InitArmsLateRecord()
    ensures var s := ReconcileAll(Stored(None, {}), [RecordId], Dec13() + 60);
      RecordId in s.pending && s.timers == [Timer(0, RecordId)]
  {
  }

  /** 300 seconds late, a record repeating every day moves to the next midnight. */
  lemma InitAdvancesRepeatingRecord()
    ensures var s := ReconcileAll(Stored(Some([0, 1, 2, 3, 4, 5, 6]), {}), [RecordId], Dec13() + 300);
      && RecordId in s.pending
      && s.timers == [Timer(86400 - 300, RecordId)]
      && s.store == map[RecordId := Standup(Some([0, 1, 2, 3, 4, 5, 6])).(when := Dec11 + 3 * Day)]
  {
    var days := [0, 1, 2, 3, 4, 5, 6];
    assert Weekday(Dec13()) == 4;
    assert FirstListedDay(4, days, 1, 7) == 1 by {
      assert DayAfter(4, 1) == 5;
    }
    assert Upcoming(Dec13() + Day, days, Dec13() + 300) == Dec13() + Day;
    assert Upcoming(Dec13(), days, Dec13() + 300) == Dec13() + Day;
  }

  // delete_reminder

  lemma DeleteMalformedId()
    ensures DeleteReminder(Fresh(), "xyz") == (Fresh(), InvalidId("Invalid ID format 'xyz'"))
  {
    assert "Invalid ID format '" + "xyz" + "'" == "Invalid ID format 'xyz'";
  }

  const DeadBeef: string := "54f529958973817f30dead5a"

  lemma DeadBeefIsAnId()
    ensures ParseObjectId(DeadBeef) == Some(HexValue(DeadBeef))
  {
    assert AllHex(DeadBeef);
  }

  lemma DeadBeefNotFound()
    ensures "No reminder found with id '" + DeadBeef + "'" == "No reminder found with id '54f529958973817f30dead5a'"
  {
    QuoteId(DeadBeef);
  }

  lemma QuoteId(t: string)
    requires t == "54f529958973817f30dead5a"
    ensures "No reminder found with id '" + t + "'" == "No reminder found with id '54f529958973817f30dead5a'"
  {
  }

  lemma DeleteMissingRecord()
    ensures DeleteReminder(Fresh(), DeadBeef) == (Fresh(), NotFound("No reminder found with id '54f529958973817f30dead5a'"))
  {
    DeadBeefIsAnId();
    DeadBeefNotFound();
  }

  lemma DeleteStoredRecord()
    ensures var id := HexValue(DeadBeef);
      var s := State(map[id := Standup(None)], {}, [], [], id + 1);
      DeleteReminder(s, DeadBeef) == (s.(store := map[]), Removed(id))
  {
    DeadBeefIsAnId();
    var id := HexValue(DeadBeef);
    assert map[id := Standup(None)] - {id} == map[];
  }
}
