# helga-reminders: the reminder scheduling engine

helga-reminders is a plugin for the helga IRC bot. It keeps reminders for a
channel. It has four commands:

- `in 12m <message>`: remind after a duration in minutes, hours or days;
- `at 13:00 [zone] [on <channel>] <message> [repeat MWF]`: remind at a
  wall-clock time, optionally on listed weekdays every week;
- `list`: show the stored reminders;
- `delete <id>`: remove one stored reminder.

Every reminder is a record in a store. A live timer is armed for each
reminder whose id is in the pending set. When a timer fires, the plugin sends
the message. It then deletes a one-shot record, or moves a recurring record
on to its next occurrence and arms the next timer. At startup it walks the
store and re-arms the timers that a previous process lost.

The implementation module `helga_reminders.py` is not part of this model.
Its behaviour is rebuilt from the assertions in its test suite,
`test_helga_reminders.py`. Each row below cites the tests whose behaviour the
member states.

Modules:

- `Time` holds:
  - instants as integer seconds since 1970-01-01 (a Thursday);
  - day numbers and weekdays (Monday = 0);
  - fixed zone offsets;
  - the next instant at which a zone's clock shows a given time.
- `Recurrence` holds `NextOccurrence`. It scans the seven days after the due
  weekday for the first listed one. An independent reference rule is proved
  to agree with it: "next listed weekday later this week, else the first one
  next week".
- `TimeResolver` parses three kinds of token:
  - durations (`12m`, `12h`, `12d`);
  - clock times (`H:MM`);
  - weekday letters (`MTWRFSU`, distinct, given back in ascending order).

  It also computes the first due instant of an `at` command.
- `ReadableTime` holds `readable_time_delta`.
- `Scheduler` holds the state: store, pending set, timer registrations, sent
  messages and next id. Its pure steps are the `in`, `at` and fire steps
  (`_do_reminder`) and the delete step.
- `Recovery` holds `init_reminders`. Its loop over the stored records is
  proved equal to a record-by-record description, and proved idempotent. A
  recurring record is moved to its first occurrence after now. The plugin's
  own one-step move is kept beside it as `AdvanceAsWritten` (see
  "## Findings").
- `Reminders.Engine` is a class with those fields. Each of its methods
  updates the fields in place and is proved to reach exactly the state the
  matching pure step gives. `InitReminders` is a loop over the records in the
  order the store yields them.
- `Scenarios` states every example of the test suite about the model, one
  lemma per example.

## Model

| member | source | states |
|---|---|---|
| Time.ShiftByDays | test_helga_reminders.py:544-560 | moving an instant by k whole days adds k to its day count, keeps its time of day and moves its weekday k places round the week |
| Time.ResolveClockIsNext | test_helga_reminders.py:209-293 | the instant at which a zone's clock next shows hour:minute lies in [now, now + 1 day) and shows that time; no earlier instant from now shows it; it falls on now's local day when that time has not yet passed, else on the next local day |
| Recurrence.NextOccurrenceIsFirstListedDay | test_helga_reminders.py:544-574 | there is no next occurrence exactly when the repeat list names no weekday. Otherwise the next occurrence is 1 to 7 days later, so a listed current weekday gives a full week. It keeps the UTC time of day and falls on a listed UTC weekday, and no instant in between at that time of day does |
| Recurrence.RuleDeltaIsFirstListed | test_helga_reminders.py:32-60 | the reference rule (next listed weekday later this week, else wrap to the first listed one) gives 1 to 7 days, lands on a listed weekday and passes no listed weekday before it |
| Recurrence.NextOccurrenceFollowsRule | test_helga_reminders.py:32-60 | on an ascending weekday list, the day scan and the reference rule agree on whether there is a next occurrence and on its day count |
| TimeResolver.ParseDurationOfCount | test_helga_reminders.py:105-143 | a count of digits followed by m, h or d reads as that many times 60, 3600 or 86400 seconds |
| TimeResolver.ParseDurationRefusal | test_helga_reminders.py:145-147 | a refused duration is answered with a text that starts with "Sorry I didn't understand '<token>'"; a token not ending in m, h or d is refused |
| TimeResolver.ParseClockOfTime | test_helga_reminders.py:209-337 | every time of day written H:MM or HH:MM reads back as its hour and minute |
| TimeResolver.AscendingListsWithSameMembers | test_helga_reminders.py:297-337 | two ascending weekday lists with the same members are the same list, so the parsed form of a weekday set is unique |
| TimeResolver.ParseWeekdaysMeaning | test_helga_reminders.py:297-352 | a weekday token is accepted exactly when it is a non-empty string of distinct weekday letters. It then gives the ascending codes of exactly the weekdays it names. A refusal's text contains "I didn't understand '<token>'" |
| TimeResolver.LettersRoundTrip | test_helga_reminders.py:297-337 | writing a non-empty ascending weekday list as letters and parsing it gives the list back |
| TimeResolver.FirstDueIsEarliest | test_helga_reminders.py:209-337 | the first due instant of an at command is not before now and shows the asked time on the zone's clock. When repeating, it falls on a listed weekday of the zone's local calendar, and no earlier qualifying instant from now does. When not repeating, no earlier instant from now shows that time |
| ReadableTime.ReadableTimeDeltaOfParts | test_helga_reminders.py:357-379 | the text of d days, h < 24 hours, m < 60 minutes and s < 60 seconds is the phrase for d, h and m: leftover seconds are dropped |
| ReadableTime.PhraseInjective | test_helga_reminders.py:357-379 | different day, hour and minute counts are never written the same |
| ReadableTime.ReadableTimeDeltaNamesWholeMinutes | test_helga_reminders.py:357-379 | two durations read the same exactly when they hold the same number of whole minutes |
| Scheduler.CreateAddsOneReminder | test_helga_reminders.py:105-143 | creating takes a fresh id (neither stored nor pending). The store gains exactly that record and the id becomes pending. One timer is registered with the clamped delay. Nothing is sent and the state stays well formed |
| Scheduler.ChannelNameNormalises | test_helga_reminders.py:90-101 | the channel named after "on" starts with '#', ends with the name as given and is at most one character longer. It is the name itself exactly when that starts with '#'. So "foo" and "#foo" name the same channel, and normalising twice changes nothing |
| Scheduler.InReminderSchedulesDuration | test_helga_reminders.py:90-143 | "in N<unit> words" creates one record, due N minutes, hours or days from now, for the channel named after an optional "on", with the remaining words joined by spaces. It arms exactly one timer with that delay and answers with the new id |
| Scheduler.RefusedCommandChangesNothing | test_helga_reminders.py:145-147 | a refused in or at command leaves the state alone; an unreadable duration is answered "Sorry I didn't understand '<token>'" |
| Scheduler.ParsedWeekdaysNameAWeekday | test_helga_reminders.py:297-337 | an accepted weekday token gives a non-empty ascending list of weekday codes |
| Scheduler.AtRequestIsNotPast | test_helga_reminders.py:209-337 | an accepted at command is due no earlier than now, and its repeat list is a non-empty ascending weekday list |
| Scheduler.AtReminderArmsUntilDue | test_helga_reminders.py:209-337 | an accepted at command registers one timer whose delay is exactly the time from now until it is due |
| Scheduler.SplitAtReadsTrailingRepeat | test_helga_reminders.py:163-352 | with a readable clock time, an at command is split without error. Its repeat token is read exactly when at least two words are left after the clock time, the zone and the "on <channel>" and the next to last word is "repeat". The token is then the last word, and the message words are the ones in between |
| Scheduler.SplitAtReadsLongRepeat | test_helga_reminders.py:297-352 | an at command of six words or more with a readable clock time that ends "repeat <token>" always has that token read as its repeat |
| Scheduler.AtReminderRefusesBadWeekdays | test_helga_reminders.py:341-352 | any at command whose repeat token is not a string of distinct weekday letters is refused with a text containing "I didn't understand", and the state is unchanged. This holds with or without a zone, an "on <channel>" and a message of any length |
| Scheduler.DoReminderWithoutRecord | test_helga_reminders.py:64-67 | firing an id with no record only removes the id from the pending set |
| Scheduler.DoReminderOneShot | test_helga_reminders.py:22-28 | firing a one-shot record sends exactly its channel and message and deletes the record. The id leaves the pending set and no timer is registered |
| Scheduler.DoReminderRecurring | test_helga_reminders.py:32-60 | firing a recurring record sends it once and saves it with only its due time changed. The new due time is 1 to 7 days later, at the same time of day, on the first listed UTC weekday. One timer is registered for the time until then and the id stays pending |
| Scheduler.DoReminderExhausted | test_helga_reminders.py:564-574 | firing a recurring record with no next occurrence sends it and drops the id from the pending set, without a timer |
| Scheduler.DoReminderKeepsValid | test_helga_reminders.py:13-79 | firing keeps the state well formed (stored and pending ids below the next id) and takes no id |
| Scheduler.CreateThenFireOneShot | test_helga_reminders.py:22-28 | creating a one-shot reminder and firing it leaves the store and the pending set as they were and sends the message once |
| Scheduler.DeleteReminderMeaning | test_helga_reminders.py:580-595 | deleting answers "Invalid ID format '<text>'" exactly when the text is not 24 hex digits, and "No reminder found with id '<text>'" exactly when no record has that id; in both cases nothing changes. Otherwise exactly that record leaves the store, and the timers and pending set stay as they were |
| Scheduler.DeleteThenFire | test_helga_reminders.py:587-591 | the timer of a deleted reminder still fires later, sends nothing and only clears the pending id |
| Recovery.ReconcileAllIsReconciled | test_helga_reminders.py:446-539 | the startup loop over distinct ids equals the description in which every record is decided on the state before the loop |
| Recovery.RegistrationsAreForUnpendingRecords | test_helga_reminders.py:450-461 | every timer the startup loop registers is for a visited, stored record not pending before, and no id is registered twice |
| Recovery.ReconcileOutcome | test_helga_reminders.py:446-539 | after the loop, a dropped record is gone and not pending. An armed or advanced record is stored (unchanged or advanced) and pending, with its timer among the new registrations |
| Recovery.ReconcileSendsNothing | test_helga_reminders.py:446-539 | startup recovery sends no message and takes no id |
| Recovery.ReconcileSkipsPending | test_helga_reminders.py:450-461 | a record whose id is pending keeps its record and pending mark, and gets no new timer |
| Recovery.ReconcileOneShot | test_helga_reminders.py:465-514 | a one-shot record a day or more late is deleted and not pending. Otherwise it is kept, becomes pending, and gets a timer for the time until due, or 0 when late |
| Recovery.UpcomingIsNextFuture | test_helga_reminders.py:518-539 | the corrected recovery time of a recurring record is after now. A due time still ahead is kept. Otherwise it is the first instant after now at the stored UTC time of day on a listed UTC weekday, at most a week after now |
| Recovery.ReconcileRecurring | test_helga_reminders.py:518-539 | a recurring record becomes pending and gets a timer for the positive time from now until its new due time; only the due time changes. A due time still ahead is kept. Otherwise the record moves to its first occurrence after now, within a week |
| Recovery.AsWrittenArmsPastOccurrence | test_helga_reminders.py:518-539 | when the occurrence after the stored due time is already past, the plugin's one-step recovery arms it with a negative delay, while the corrected step arms a later occurrence with a positive delay |
| Recovery.AsWrittenSkipsFutureOccurrence | test_helga_reminders.py:518-539 | when the stored due time is still ahead, the plugin's one-step recovery moves the record past it, while the corrected step keeps it and arms the time left |
| Recovery.AsWrittenDailyExamples | test_helga_reminders.py:518-539 | for a daily record: due at 0 and recovered at two days, the plugin arms −86400 s and the corrected step the third midnight; due on day 10 and recovered on day 0, the plugin moves it to day 11 and the corrected step keeps day 10 |
| Recovery.ReconcileKeepsValid | test_helga_reminders.py:446-539 | startup recovery keeps the state well formed |
| Recovery.ReconciledRecordsAreSettled | test_helga_reminders.py:446-539 | after a run over all stored ids, every record without a pending timer is recurring with no next occurrence |
| Recovery.SettledStateIsFixed | test_helga_reminders.py:446-539 | recovery leaves such a settled state unchanged, over any ids at any time |
| Recovery.ReconcileTwiceChangesNothing | test_helga_reminders.py:446-539 | running startup recovery a second time changes nothing |
| Reminders.Engine.constructor | test_helga_reminders.py:84-87 | the plugin starts with no records, nothing pending, nothing registered or sent |
| Reminders.Engine.Submit | test_helga_reminders.py:105-115 | a parsed request is stored under a fresh id in place and armed, or refused without change, exactly as the pure creation step says |
| Reminders.Engine.InReminder | test_helga_reminders.py:90-147 | the in command updates the fields exactly as the pure in step says and keeps them well formed |
| Reminders.Engine.AtReminder | test_helga_reminders.py:163-352 | the at command updates the fields exactly as the pure at step says and keeps them well formed |
| Reminders.Engine.DoReminder | test_helga_reminders.py:22-79 | the timer callback updates the fields in place exactly as the pure fire step says |
| Reminders.Engine.DeleteReminder | test_helga_reminders.py:580-595 | the delete command updates the fields exactly as the pure delete step says, with the same reply |
| Reminders.Engine.ReconcileRecord | test_helga_reminders.py:446-539 | one turn of the startup loop acts on one record in place as the pure step for that record says |
| Reminders.Engine.InitReminders | test_helga_reminders.py:446-539 | the startup loop over the stored ids reaches the same state as the pure recovery step, keeps it well formed and leaves it settled |
| Scenarios.FireOneShot | test_helga_reminders.py:22-28 | firing id 1 holding "#bots"/"some message" sends exactly that and removes the record and the pending id |
| Scenarios.FireRecurringSameWeek | test_helga_reminders.py:32-44 | fired on Wednesday 11 December 2013, a Monday-Wednesday-Friday reminder moves to the 13th with a 48-hour timer |
| Scenarios.FireRecurringNextWeek | test_helga_reminders.py:48-60 | fired on Friday 13 December 2013, it moves to the 16th with a 72-hour timer |
| Scenarios.FireWithoutRecord | test_helga_reminders.py:64-67 | firing a pending id with no record clears it and sends nothing |
| Scenarios.FireUnicode | test_helga_reminders.py:70-79 | a snowman channel and message are sent unchanged |
| Scenarios.Aug13IsMidnight | test_helga_reminders.py:544-548 | midnight of 13 August 2014 is the instant 1407888000, a Wednesday |
| Scenarios.NextMondayIsFiveDaysOn | test_helga_reminders.py:544-560 | from Wednesday 13 August 2014, repeat [0] gives 5 days on |
| Scenarios.NextWednesdayIsAWeekOn | test_helga_reminders.py:544-560 | repeat [2] gives 7 days on |
| Scenarios.NextSaturdayIsThreeDaysOn | test_helga_reminders.py:544-560 | repeat [5] gives 3 days on |
| Scenarios.InOtherChannel | test_helga_reminders.py:90-101 | "12m on #foo ..." and "12m on foo ..." both store a reminder for #foo with message "this is the message" |
| Scenarios.InMinutes | test_helga_reminders.py:105-115 | "12m this is the message" stores it for #bots due in 720 s and arms a 720 s timer |
| Scenarios.InHours | test_helga_reminders.py:119-129 | "12h ..." arms a 12·3600 s timer |
| Scenarios.InDays | test_helga_reminders.py:133-143 | "12d ..." arms a 12·24·3600 s timer |
| Scenarios.InUnknownUnit | test_helga_reminders.py:145-147 | "12x ..." is refused with a text starting "Sorry I didn't understand '12x'" and changes nothing |
| Scenarios.Dec11IsMidnight | test_helga_reminders.py:152-160 | midnight of 11 December 2013 is the instant 1386720000, a Wednesday |
| Scenarios.MondayWednesdayFriday | test_helga_reminders.py:297-315 | "MWF" parses to [0, 2, 4] |
| Scenarios.BadWeekdayTokens | test_helga_reminders.py:341-352 | "XYZ" and "" are refused with "I didn't understand '<token>'" |
| Scenarios.AtOtherChannelRepeating | test_helga_reminders.py:163-175 | "13:00 on #foo/foo test message repeat MWF" stores "test message" for #foo, repeating [0, 2, 4] |
| Scenarios.AtOtherChannel | test_helga_reminders.py:178-190 | "13:00 on #foo/foo this is a message" stores it for #foo |
| Scenarios.AtOtherChannelInZone | test_helga_reminders.py:193-205 | "13:00 EST on #foo this is a message" stores it for #foo |
| Scenarios.AtLaterToday | test_helga_reminders.py:209-227 | at noon Eastern, "13:00 ..." is due an hour later, does not repeat, and arms a 3600 s timer |
| Scenarios.AtTomorrow | test_helga_reminders.py:231-249 | at noon Eastern, "6:00 ..." is due 18 hours later with an 18-hour timer |
| Scenarios.AtCentralLaterToday | test_helga_reminders.py:253-271 | at noon Central, "13:00 US/Central ..." is due an hour later |
| Scenarios.AtCentralTomorrow | test_helga_reminders.py:275-293 | at noon Central, "6:00 US/Central ..." is due 18 hours later |
| Scenarios.AtCentralRepeatToday | test_helga_reminders.py:297-315 | "13:00 US/Central ... repeat MWF" on a Wednesday is due an hour later, repeating [0, 2, 4] |
| Scenarios.AtCentralRepeatFriday | test_helga_reminders.py:319-337 | "6:00 US/Central ... repeat MWF" on a Wednesday is due on Friday, 42 hours later, with a 42-hour timer |
| Scenarios.CentralEveningRepeatDrifts | test_helga_reminders.py:297-337 | "20:00 US/Central ... repeat M" asked at noon Central on Monday 9 December 2013 is first due at 20:00 Central that Monday, 02:00 UTC Tuesday. Its next occurrence, read from the UTC weekday, is six days later: 20:00 Central on Sunday |
| Scenarios.AtBadWeekdayLetters | test_helga_reminders.py:341-352 | "repeat XYZ" and "repeat" followed by an empty token are both refused with "I didn't understand", and nothing is stored or armed |
| Scenarios.ReadableTenMinutes | test_helga_reminders.py:357-359 | 610 s reads "10 minutes" |
| Scenarios.ReadableThreeHours | test_helga_reminders.py:361-363 | 3·3600 + 610 s reads "3 hours and 10 minutes" |
| Scenarios.ReadableDaysHoursMinutes | test_helga_reminders.py:365-367 | 8·86400 + 3·3600 + 610 s reads "8 days, 3 hours and 10 minutes" |
| Scenarios.ReadableOneMinute | test_helga_reminders.py:369-371 | 65 s reads "1 minute" |
| Scenarios.ReadableOneHour | test_helga_reminders.py:373-375 | 3600 + 65 s reads "1 hour and 1 minute" |
| Scenarios.ReadableOneOfEach | test_helga_reminders.py:377-379 | 86400 + 3600 + 65 s reads "1 day, 1 hour and 1 minute" |
| Scenarios.InitIgnoresScheduled | test_helga_reminders.py:450-461 | a record whose id is pending is left as it is, with no timer |
| Scenarios.InitArmsDueRecord | test_helga_reminders.py:465-479 | a record due exactly now becomes pending with a timer of 0 |
| Scenarios.InitDropsStaleRecord | test_helga_reminders.py:482-496 | a record exactly one day late is deleted and not pending |
| Scenarios.InitArmsLateRecord | test_helga_reminders.py:500-514 | a record 60 s late becomes pending with a timer of 0 |
| Scenarios.InitAdvancesRepeatingRecord | test_helga_reminders.py:518-539 | an every-day record 300 s late is saved due on 14 December, becomes pending and gets an 86400 − 300 s timer |
| Scenarios.DeleteMissingRecord | test_helga_reminders.py:580-584 | deleting a well-formed id with no record answers "No reminder found with id '54f529958973817f30dead5a'" and changes nothing |
| Scenarios.DeleteStoredRecord | test_helga_reminders.py:587-591 | deleting that id when it is stored removes the record |
| Scenarios.DeleteMalformedId | test_helga_reminders.py:593-595 | deleting "xyz" answers "Invalid ID format 'xyz'" and changes nothing |

## Left out

- IRC transport: the client's `msg` and `me` calls are modelled only as an
  appended entry in the sent log.
- The `reminders` command dispatcher that routes subcommands to
  in/at/list/delete (test_helga_reminders.py:598-630): it is routing only.
- `list_reminders` and its date rendering (test_helga_reminders.py:382-443):
  it is presentation through the datetime library and changes no state.
  `TimeResolver.Letters` gives only the weekday letters of a repeat list.
- Real timers (Twisted's reactor): a timer is a registration (delay, id) in
  a log, and a fire is a call of `DoReminder` with the current instant as a
  parameter. The clock is always a parameter.
- MongoDB: it is a map from id to record. The order in which `find()` yields
  records is a parameter of `InitReminders`. Ids are abstract numbers, and
  ObjectId text is read as 24 hexadecimal digits.
- pytz: zones are fixed offsets (`EST` and `US/Eastern` −5 h, `US/Central`
  −6 h, `UTC` 0), since the tests' dates are all in winter. Daylight saving
  time and other zone names are not modelled. The home zone is US/Eastern.
- Reply texts for successful commands: these are not pinned by the tests.
  The model answers with the new id (`Created`) or the removed id
  (`Removed`).
- Records with missing or malformed fields in the store: the model's
  records always hold channel, message, due time and an optional repeat
  list.
- The channel argument of `delete_reminder`: it takes no part in the lookup.
- The test at lines 564-574 patches the weekday scan so that it finds
  nothing even for `range(7)`. In the model, `NextOccurrence` is None only
  for a repeat list with no weekday code. The part of that test which
  clears the pending id is stated by `Scheduler.DoReminderExhausted`.
- Recurrence.NextOccurrence: reads the weekday of the stored due time on
  the UTC clock, as the plugin's `next_occurrence` does. `TimeResolver.FirstDue`
  reads the weekday on the zone's local clock. A record holds no zone, so the
  model keeps the UTC reading. As a result, a reminder whose local day differs
  from its UTC day repeats one local day off
  (`Scenarios.CentralEveningRepeatDrifts`). Repeating by the local weekday is
  not modelled.
- ReadableTime.ReadableTimeDelta: a count of 0 is written with the plural
  ending off ("0 minute"), since the tests only pin the counts 1 and above.
- A word after the clock time that is not a known zone starts the message
  (test_helga_reminders.py:178-190, 209-227).
- A recurring record with no next occurrence stays in the store; only its
  pending id is dropped.

## Findings

| source | as written | input that shows it | evidently intended | confidence | as-written member | corrected member |
|---|---|---|---|---|---|---|
| test_helga_reminders.py:518-539 | startup recovery moves a recurring record exactly one occurrence past its stored due time and arms it for that occurrence minus now | a daily record due at 0, recovered at 172800: saved due at 86400 and armed with delay −86400 | step on through the occurrences until one is after now, and arm it with a positive delay | medium; not executed | Recovery.AsWrittenArmsPastOccurrence | Recovery.ReconcileRecurring |
| test_helga_reminders.py:518-539 | the same one-occurrence step is taken for a record whose stored due time is still ahead | a daily record due on day 10, recovered on day 0: moved to day 11, so the day-10 reminder is never sent | keep a due time that is still ahead and arm it for the time left | medium; not executed | Recovery.AsWrittenSkipsFutureOccurrence | Recovery.ReconcileRecurring |

`Recovery.AdvanceAsWritten` is the plugin's one-step recovery of a recurring
record. `Recovery.AdvanceRecurring` is the corrected step, and
`Recovery.Decide` uses it. The two agree on the example of
test_helga_reminders.py:518-539, a record 300 s late that repeats every day.
