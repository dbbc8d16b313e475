/**
 * The scheduler's state and its steps: creating a reminder from an in or at
 * command, firing a due reminder, and deleting one by id. The store of
 * records, the set of ids with a timer pending, and append-only logs of timer
 * registrations and of messages sent make up the state.
 */
module Scheduler {
  import opened Wrappers
  import opened Strings
  import opened Time
  import opened Recurrence
  import opened TimeResolver

  type Id = nat

  /** A stored reminder; repeat is None for a one-shot reminder. */
  datatype Reminder = Reminder(channel: string, message: string, when: int, repeat: Option<seq<int>>)

  /** A timer registration: call the fire step for id after delay seconds. */
  datatype Timer = Timer(delay: int, id: Id)

  /** A message sent to a channel. */
  datatype Delivery = Delivery(target: string, text: string)

  datatype State = State(
    store: map<Id, Reminder>,
    pending: set<Id>,
    timers: seq<Timer>,
    sent: seq<Delivery>,
    nextId: Id)

  /** Ids in the store and in the pending set are ids the store has handed out. */
  predicate Valid(s: State)
  {
    && (forall id :: id in s.store ==> id < s.nextId)
    && (forall id :: id in s.pending ==> id < s.nextId)
  }

  /** The delay of a new reminder's timer: the time until it is due, or zero once due. */
  function Delay(when: int, now: int): nat
  {
    if when > now then when - now else 0
  }

  /** Insert a record under a fresh id, register its timer and mark the id pending. */
  function Create(s: State, rec: Reminder, now: int): (State, Id)
  {
    var id := s.nextId;
    (s.(store := s.store[id := rec],
        pending := s.pending + {id},
        timers := s.timers + [Timer(Delay(rec.when, now), id)],
        nextId := id + 1),
     id)
  }

  /**
   * Creating stores exactly one new record under an id not used before, arms
   * one timer for it, marks it pending, sends nothing and keeps the state valid.
   */
  lemma CreateAddsOneReminder(s: State, rec: Reminder, now: int)
    requires Valid(s)
    ensures var (t, id) := Create(s, rec, now);
      && Valid(t)
      && id !in s.store && id !in s.pending
      && t.store == s.store[id := rec] && |t.store| == |s.store| + 1
      && t.pending == s.pending + {id}
      && t.timers == s.timers + [Timer(Delay(rec.when, now), id)]
      && t.sent == s.sent
  {
  }

  // The in and at commands

  datatype Reply = Created(id: Id) | Refused(text: string)

  /** A channel name given after "on", with the leading # added when missing. */
  function ChannelName(name: string): (c: string)
    ensures c != [] && c[0] == '#'
  {
    if name != [] && name[0] == '#' then name else "#" + name
  }

  /**
   * A channel name starts with '#', ends with the name as given and is at
   * most one character longer; it is the name itself exactly when that
   * already starts with '#'. So "foo" and "#foo" name the same channel, and a
   * channel name is its own channel.
   */
  lemma ChannelNameNormalises(name: string)
    ensures var c := ChannelName(name);
      && c[0] == '#'
      && |name| <= |c| <= |name| + 1 && c[|c| - |name|..] == name
      && (c == name <==> name != [] && name[0] == '#')
      && ChannelName(c) == c
    ensures (name == [] || name[0] != '#') ==> ChannelName(name) == ChannelName("#" + name)
  {
  }

  /** An optional "on <channel>" in front of the message words picks the target channel. */
  function Destination(channel: string, words: seq<string>): (string, seq<string>)
  {
    if |words| >= 2 && words[0] == "on" then (ChannelName(words[1]), words[2..]) else (channel, words)
  }

  /** The record an in command asks for: a duration, then the message. */
  function InRequest(now: int, channel: string, args: seq<string>): Result<Reminder, string>
  {
    var token := if args == [] then "" else args[0];
    var rest := if args == [] then [] else args[1..];
    match ParseDuration(token)
    case Err(e) => Err(e)
    case Ok(seconds) =>
      var (target, words) := Destination(channel, rest);
      Ok(Reminder(target, Join(words, " "), now + seconds, None))
  }

  /** The pieces of an at command before its weekday letters are read. */
  datatype AtParts = AtParts(hour: int, minute: int, offset: int, target: string, words: seq<string>, days: Option<string>)

  /**
   * The part of an at command after its clock time: an optional zone name (a
   * word that is not a known zone starts the message instead) and an optional
   * "on <channel>"; gives the zone offset, the target channel and the words
   * left.
   */
  function AtHead(channel: string, rest: seq<string>): (int, string, seq<string>)
  {
    var zoned := rest != [] && ZoneOffset(rest[0]).Some?;
    var offset := if zoned then ZoneOffset(rest[0]).value else HomeOffset;
    var (target, words) := Destination(channel, if zoned then rest[1..] else rest);
    (offset, target, words)
  }

  /**
   * Split an at command: a clock time, the head read by AtHead, the message
   * words, and an optional "repeat <weekday letters>" at the end.
   */
  function SplitAt(channel: string, args: seq<string>): (r: Result<AtParts, string>)
    ensures r.Ok? ==> 0 <= r.value.hour < 24 && 0 <= r.value.minute < 60
  {
    var token := if args == [] then "" else args[0];
    var rest := if args == [] then [] else args[1..];
    match ParseClock(token)
    case Err(e) => Err(e)
    case Ok(clock) => AtPartsOf(clock, AtHead(channel, rest))
  }

  /** The parts of an at command from its clock time and its head: the last two words may be "repeat <letters>". */
  function AtPartsOf(clock: (int, int), head: (int, string, seq<string>)): Result<AtParts, string>
  {
    var (offset, target, words) := head;
    if |words| >= 2 && words[|words| - 2] == "repeat"
    then Ok(AtParts(clock.0, clock.1, offset, target, words[..|words| - 2], Some(words[|words| - 1])))
    else Ok(AtParts(clock.0, clock.1, offset, target, words, None))
  }

  /** The words AtHead leaves are the last words of the command, and at most three words go before them. */
  lemma AtHeadLeavesTail(channel: string, rest: seq<string>)
    ensures var words := AtHead(channel, rest).2;
      |rest| - 3 <= |words| <= |rest| && words == rest[|rest| - |words|..]
  {
    var zoned := rest != [] && ZoneOffset(rest[0]).Some?;
    var after := if zoned then rest[1..] else rest;
    assert after == rest[|rest| - |after|..];
    var words := Destination(channel, after).1;
    if |after| >= 2 && after[0] == "on" {
      assert words == after[2..];
      assert words == rest[|rest| - |words|..];
    }
  }

  /**
   * Where an at command's repeat comes from: with a readable clock time, a
   * repeat token is read exactly when at least two words are left after the
   * clock time, the zone and the "on <channel>" and the command's next to last
   * word is "repeat". The token is then the command's last word, and the
   * message is the words in between.
   */
  lemma SplitAtReadsTrailingRepeat(channel: string, args: seq<string>)
    requires args != [] && ParseClock(args[0]).Ok?
    ensures var words := AtHead(channel, args[1..]).2;
      var p := SplitAt(channel, args).value;
      && SplitAt(channel, args).Ok?
      && (p.days.Some? <==> |words| >= 2 && args[|args| - 2] == "repeat")
      && (p.days.Some? ==> p.days.value == args[|args| - 1] && p.words + ["repeat", p.days.value] == words)
      && (p.days.None? ==> p.words == words)
  {
    var rest := args[1..];
    var clock := ParseClock(args[0]).value;
    assert SplitAt(channel, args) == AtPartsOf(clock, AtHead(channel, rest));
    AtHeadLeavesTail(channel, rest);
    AtPartsOfRepeat(clock, AtHead(channel, rest));
    var words := AtHead(channel, rest).2;
    if |words| >= 2 {
      assert words[|words| - 2] == args[|args| - 2];
      assert words[|words| - 1] == args[|args| - 1];
    }
  }

  /** The last two words are taken as the repeat exactly when the first of them is "repeat". */
  lemma AtPartsOfRepeat(clock: (int, int), head: (int, string, seq<string>))
    ensures var w := head.2;
      var p := AtPartsOf(clock, head).value;
      && (p.days.Some? <==> |w| >= 2 && w[|w| - 2] == "repeat")
      && (p.days.Some? ==> p.days.value == w[|w| - 1] && p.words + ["repeat", p.days.value] == w)
      && (p.days.None? ==> p.words == w)
  {
    var w := head.2;
    if |w| >= 2 {
      LastTwo(w);
    }
  }

  /** With six words or more, a command that ends with "repeat <token>" has that token read as its repeat. */
  lemma SplitAtReadsLongRepeat(channel: string, args: seq<string>)
    requires |args| >= 6 && ParseClock(args[0]).Ok? && args[|args| - 2] == "repeat"
    ensures SplitAt(channel, args).Ok? && SplitAt(channel, args).value.days == Some(args[|args| - 1])
  {
    AtHeadLeavesTail(channel, args[1..]);
    SplitAtReadsTrailingRepeat(channel, args);
  }

  lemma LastTwo(w: seq<string>)
    requires |w| >= 2
    ensures w[..|w| - 2] + [w[|w| - 2], w[|w| - 1]] == w
  {
  }

  /** The record an at command asks for, due the first time its clock time comes round on a listed day. */
  function AtRequest(now: int, channel: string, args: seq<string>): Result<Reminder, string>
  {
    match SplitAt(channel, args)
    case Err(e) => Err(e)
    case Ok(p) =>
      match p.days
      case None => Ok(Reminder(p.target, Join(p.words, " "), FirstDue(now, p.hour, p.minute, p.offset, None), None))
      case Some(token) =>
        match ParseWeekdays(token)
        case Err(e) => Err(e)
        case Ok(days) => Ok(Reminder(p.target, Join(p.words, " "), FirstDue(now, p.hour, p.minute, p.offset, Some(days)), Some(days)))
  }

  /** Carry out a parsed request: a refusal changes nothing, a record is created. */
  function Submit(s: State, request: Result<Reminder, string>, now: int): (State, Reply)
  {
    match request
    case Err(e) => (s, Refused(e))
    case Ok(rec) =>
      var (t, id) := Create(s, rec, now);
      (t, Created(id))
  }

  function InReminder(s: State, now: int, channel: string, args: seq<string>): (State, Reply)
  {
    Submit(s, InRequest(now, channel, args), now)
  }

  function AtReminder(s: State, now: int, channel: string, args: seq<string>): (State, Reply)
  {
    Submit(s, AtRequest(now, channel, args), now)
  }

  /**
   * "in N<unit> <words>" creates one one-shot reminder due N minutes, hours or
   * days from now and arms its timer with exactly that delay; the words, after
   * an optional "on <channel>", are the message.
   */
  lemma InReminderSchedulesDuration(s: State, now: int, channel: string, n: nat, unit: char, words: seq<string>)
    requires Valid(s)
    requires unit == 'm' || unit == 'h' || unit == 'd'
    ensures var seconds := if unit == 'm' then n * 60 else if unit == 'h' then n * 3600 else n * 86400;
      var (t, reply) := InReminder(s, now, channel, [NatToString(n) + [unit]] + words);
      var (target, message) := Destination(channel, words);
      && reply == Created(s.nextId)
      && t.store == s.store[s.nextId := Reminder(target, Join(message, " "), now + seconds, None)]
      && t.timers == s.timers + [Timer(seconds, s.nextId)]
      && t.pending == s.pending + {s.nextId}
  {
    ParseDurationOfCount(n, unit);
    assert ([NatToString(n) + [unit]] + words)[1..] == words;
  }

  /** A refused in or at command answers with the refusal and leaves the store, the timers and the pending set alone. */
  lemma RefusedCommandChangesNothing(s: State, now: int, channel: string, args: seq<string>)
    ensures InReminder(s, now, channel, args).1.Refused? ==> InReminder(s, now, channel, args).0 == s
    ensures AtReminder(s, now, channel, args).1.Refused? ==> AtReminder(s, now, channel, args).0 == s
    ensures var token := if args == [] then "" else args[0];
      ParseDuration(token).Err? ==> InReminder(s, now, channel, args) == (s, Refused(NotUnderstood(token)))
  {
  }

  /** The weekday codes of an accepted repeat token name at least one weekday. */
  lemma ParsedWeekdaysNameAWeekday(token: string)
    requires ParseWeekdays(token).Ok?
    ensures IsWeekdayList(ParseWeekdays(token).value) && ParseWeekdays(token).value != []
    ensures HasWeekday(ParseWeekdays(token).value)
  {
    ParseWeekdaysMeaning(token);
    var days := ParseWeekdays(token).value;
    assert days[0] in days;
  }

  /**
   * An accepted at command asks for a reminder due at or after now; a repeat
   * in it is an ascending list of weekday codes.
   */
  lemma AtRequestIsNotPast(now: int, channel: string, args: seq<string>)
    requires AtRequest(now, channel, args).Ok?
    ensures var rec := AtRequest(now, channel, args).value;
      && now <= rec.when
      && (rec.repeat.Some? ==> IsWeekdayList(rec.repeat.value) && rec.repeat.value != [])
  {
    var p := SplitAt(channel, args).value;
    if p.days.Some? {
      ParsedWeekdaysNameAWeekday(p.days.value);
      FirstDueIsEarliest(now, p.hour, p.minute, p.offset, Some(ParseWeekdays(p.days.value).value));
    } else {
      FirstDueIsEarliest(now, p.hour, p.minute, p.offset, None);
    }
  }

  /** An accepted at command arms its timer with exactly the time until the reminder is due. */
  lemma AtReminderArmsUntilDue(s: State, now: int, channel: string, args: seq<string>)
    requires AtRequest(now, channel, args).Ok?
    ensures AtReminder(s, now, channel, args).0.timers ==
      s.timers + [Timer(AtRequest(now, channel, args).value.when - now, s.nextId)]
  {
    var r := AtRequest(now, channel, args);
    AtRequestIsNotPast(now, channel, args);
    assert AtReminder(s, now, channel, args) == Submit(s, r, now);
    assert Delay(r.value.when, now) == r.value.when - now;
  }

  /**
   * An at command whose repeat token (see SplitAtReadsTrailingRepeat) is not a
   * string of distinct weekday letters is refused with a reply saying "I
   * didn't understand", and nothing is stored or armed.
   */
  lemma AtReminderRefusesBadWeekdays(s: State, now: int, channel: string, args: seq<string>)
    requires SplitAt(channel, args).Ok? && SplitAt(channel, args).value.days.Some?
    requires ParseWeekdays(SplitAt(channel, args).value.days.value).Err?
    ensures var (t, reply) := AtReminder(s, now, channel, args);
      t == s && reply.Refused? && Contains(reply.text, "I didn't understand")
  {
    var days := SplitAt(channel, args).value.days.value;
    ParseWeekdaysMeaning(days);
    var e := ParseWeekdays(days).error;
    var i :| 0 <= i <= |e| && "I didn't understand '" + days + "'" <= e[i..];
    assert "I didn't understand" <= e[i..];
  }

  // Firing a reminder

  /**
   * _do_reminder: look the id up; a missing record only leaves the pending
   * set. Otherwise send the message to the channel; a one-shot reminder is
   * then removed and leaves the pending set; a recurring one is saved with its
   * next due time and re-armed, and stays pending; when no next occurrence
   * exists it only leaves the pending set.
   */
  function DoReminder(s: State, id: Id, now: int): State
  {
    if id !in s.store then s.(pending := s.pending - {id})
    else
      var rec := s.store[id];
      var delivered := s.(sent := s.sent + [Delivery(rec.channel, rec.message)]);
      match rec.repeat
      case None => delivered.(store := s.store - {id}, pending := s.pending - {id})
      case Some(days) =>
        match NextOccurrence(rec.when, days)
        case None => delivered.(pending := s.pending - {id})
        case Some((next, _)) =>
          delivered.(store := s.store[id := rec.(when := next)], timers := s.timers + [Timer(next - now, id)])
  }

  /** Firing an id that has no record sends nothing and only takes the id off the pending set. */
  lemma DoReminderWithoutRecord(s: State, id: Id, now: int)
    requires id !in s.store
    ensures DoReminder(s, id, now) == s.(pending := s.pending - {id})
  {
  }

  /**
   * Firing a one-shot reminder sends exactly its message, unchanged, to its
   * channel, removes the record and takes the id off the pending set.
   */
  lemma DoReminderOneShot(s: State, id: Id, now: int)
    requires id in s.store && s.store[id].repeat.None?
    ensures var t := DoReminder(s, id, now);
      && t.sent == s.sent + [Delivery(s.store[id].channel, s.store[id].message)]
      && t.store == s.store - {id}
      && id !in t.pending && t.pending == s.pending - {id}
      && t.timers == s.timers
  {
  }

  /**
   * Firing a recurring reminder whose repeat names a weekday sends its
   * message, saves the record with only its due time changed, to the first
   * later instant at the same time of day on a listed weekday (one to seven
   * days on, never the same day), re-arms the timer for that instant and
   * leaves the pending set as it was. Fired on time, the delay is a whole
   * number of days.
   */
  lemma DoReminderRecurring(s: State, id: Id, now: int)
    requires id in s.store && s.store[id].repeat.Some? && HasWeekday(s.store[id].repeat.value)
    ensures var rec := s.store[id];
      var t := DoReminder(s, id, now);
      var next := t.store[id].when;
      && id in t.store
      && t.store == s.store[id := rec.(when := next)]
      && rec.when < next <= rec.when + 7 * Day
      && TimeOfDay(next) == TimeOfDay(rec.when)
      && Weekday(next) in rec.repeat.value
      && (forall u :: rec.when < u < next && TimeOfDay(u) == TimeOfDay(rec.when) ==> Weekday(u) !in rec.repeat.value)
      && t.sent == s.sent + [Delivery(rec.channel, rec.message)]
      && t.timers == s.timers + [Timer(next - now, id)]
      && t.pending == s.pending
      && (now == rec.when ==> exists k :: 1 <= k <= 7 && next - now == k * Day)
  {
    var rec := s.store[id];
    NextOccurrenceIsFirstListedDay(rec.when, rec.repeat.value);
    var (next, delta) := NextOccurrence(rec.when, rec.repeat.value).value;
    if now == rec.when {
      assert next - now == delta * Day;
    }
  }

  /** A recurring reminder whose repeat names no weekday is delivered, kept in the store, and only leaves the pending set. */
  lemma DoReminderExhausted(s: State, id: Id, now: int)
    requires id in s.store && s.store[id].repeat.Some? && !HasWeekday(s.store[id].repeat.value)
    ensures var t := DoReminder(s, id, now);
      && t.sent == s.sent + [Delivery(s.store[id].channel, s.store[id].message)]
      && t.store == s.store && t.timers == s.timers
      && t.pending == s.pending - {id}
  {
    NextOccurrenceIsFirstListedDay(s.store[id].when, s.store[id].repeat.value);
  }

  lemma DoReminderKeepsValid(s: State, id: Id, now: int)
    requires Valid(s)
    ensures Valid(DoReminder(s, id, now))
    ensures DoReminder(s, id, now).nextId == s.nextId
  {
  }

  /**
   * A one-shot reminder created and then fired leaves the store and the
   * pending set as they were before, with its message delivered once.
   */
  lemma CreateThenFireOneShot(s: State, rec: Reminder, now: int, later: int)
    requires Valid(s) && rec.repeat.None?
    ensures var (t, id) := Create(s, rec, now);
      var u := DoReminder(t, id, later);
      && u.store == s.store
      && u.pending == s.pending
      && u.sent == s.sent + [Delivery(rec.channel, rec.message)]
  {
    var (t, id) := Create(s, rec, now);
    assert t.store - {id} == s.store;
    assert t.pending - {id} == s.pending;
  }

  // Deleting a reminder

  datatype Deletion = Removed(id: Id) | NotFound(reply: string) | InvalidId(reply: string)

  /** A store id written as an ObjectId: 24 hexadecimal digits. */
  function ParseObjectId(text: string): Option<Id>
  {
    if |text| == 24 && AllHex(text) then Some(HexValue(text)) else None
  }

  /** delete_reminder: refuse a malformed id, report a missing record, else remove it. */
  function DeleteReminder(s: State, text: string): (State, Deletion)
  {
    match ParseObjectId(text)
    case None => (s, InvalidId("Invalid ID format '" + text + "'"))
    case Some(id) =>
      if id in s.store then (s.(store := s.store - {id}), Removed(id))
      else (s, NotFound("No reminder found with id '" + text + "'"))
  }

  /**
   * Deleting answers "Invalid ID format '<text>'" exactly when the text is
   * not 24 hex digits and "No reminder found with id '<text>'" exactly when
   * no record has that id; otherwise only that record leaves the store: its
   * timer stays registered and the pending set is untouched.
   */
  lemma DeleteReminderMeaning(s: State, text: string)
    ensures var (t, result) := DeleteReminder(s, text);
      && (result.InvalidId? <==> !(|text| == 24 && AllHex(text)))
      && (result.InvalidId? ==> t == s && result.reply == "Invalid ID format '" + text + "'")
      && (result.NotFound? <==> |text| == 24 && AllHex(text) && HexValue(text) !in s.store)
      && (result.NotFound? ==> t == s && result.reply == "No reminder found with id '" + text + "'")
      && (result.Removed? ==> result.id == HexValue(text) && result.id in s.store && t == s.(store := s.store - {result.id}))
  {
  }

  /** A timer that fires after its reminder was deleted sends nothing and only clears the pending mark. */
  lemma DeleteThenFire(s: State, text: string, now: int)
    requires DeleteReminder(s, text).1.Removed?
    ensures var (t, result) := DeleteReminder(s, text);
      var u := DoReminder(t, result.id, now);
      && u.sent == s.sent && u.timers == s.timers
      && u.store == s.store - {result.id}
      && result.id !in u.pending
  {
  }
}
