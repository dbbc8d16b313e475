/**
 * init_reminders: at startup, walk the stored records and re-arm the timers an
 * earlier process lost. A record whose id is pending is left alone; a
 * recurring one is moved on to its first occurrence after now, saved and
 * armed; a one-shot one is armed when due or less than a day late and deleted
 * when a day or more late.
 */
module Recovery {
  import opened Wrappers
  import opened Time
  import opened Recurrence
  import opened Scheduler

  /** What reconciling does with one record. */
  datatype Action =
    | Skip                              // no record, or its id is already pending
    | Arm(delay: int)                   // one-shot, in the future or late by less than a day
    | Drop                              // one-shot, late by a day or more
    | Advance(rec: Reminder, delay: int) // recurring: saved with its next due time, then armed
    | Exhaust                           // recurring, but no next occurrence exists

  /** How late a one-shot reminder may be and still be delivered. */
  const Grace: int := Day

  /**
   * The action for the record stored under id. A recurring record is moved
   * on to its first occurrence after now (see Upcoming), not just one step
   * past its stored due time as the plugin does (see AdvanceAsWritten).
   */
  function Decide(s: State, id: Id, now: int): Action
  {
    if id !in s.store || id in s.pending then Skip
    else
      var rec := s.store[id];
      match rec.repeat
      case Some(days) => AdvanceRecurring(rec, days, now)
      case None =>
        if now - rec.when >= Grace then Drop else Arm(Delay(rec.when, now))
  }

  /**
   * A recurring record keeps a due time that is still ahead; otherwise it is
   * stepped through its occurrences until one is after now. It is armed for
   * the time until then.
   */
  function AdvanceRecurring(rec: Reminder, days: seq<int>, now: int): Action
  {
    match NextOccurrence(rec.when, days)
    case None => Exhaust
    case Some(_) =>
      var next := Upcoming(rec.when, days, now);
      Advance(rec.(when := next), next - now)
  }

  /** The stored due time when it is after now, else the first occurrence after now. */
  function Upcoming(when: int, days: seq<int>, now: int): int
    decreases if when > now then 0 else now - when + 1
  {
    if when > now then when
    else match NextOccurrence(when, days)
      case None => when
      case Some((next, _)) => Upcoming(next, days, now)
  }

  /**
   * Upcoming is after now. A due time still ahead is kept; otherwise the
   * result is the first instant after now at the stored time of day on a
   * listed weekday, at most a week after now.
   */
  lemma {:induction false} UpcomingIsNextFuture(when: int, days: seq<int>, now: int)
    requires HasWeekday(days)
    ensures var r := Upcoming(when, days, now);
      && now < r
      && (when > now ==> r == when)
      && (when <= now ==>
            && when < r <= now + 7 * Day
            && TimeOfDay(r) == TimeOfDay(when)
            && Weekday(r) in days
            && forall u :: now < u < r && TimeOfDay(u) == TimeOfDay(when) ==> Weekday(u) !in days)
    decreases if when > now then 0 else now - when + 1
  {
    if when <= now {
      NextOccurrenceIsFirstListedDay(when, days);
      var next := NextOccurrence(when, days).value.0;
      if next <= now {
        UpcomingIsNextFuture(next, days, now);
      }
    }
  }

  /**
   * The plugin's own step for a recurring record: one occurrence past the
   * stored due time, armed for that occurrence minus now, whatever now is.
   */
  function AdvanceAsWritten(rec: Reminder, days: seq<int>, now: int): Action
  {
    match NextOccurrence(rec.when, days)
    case None => Exhaust
    case Some((next, _)) => Advance(rec.(when := next), next - now)
  }

  /**
   * As written, a record more than one occurrence late is armed for an
   * occurrence already past, with a negative delay.
   */
  lemma AsWrittenArmsPastOccurrence(rec: Reminder, days: seq<int>, now: int)
    requires NextOccurrence(rec.when, days).Some? && NextOccurrence(rec.when, days).value.0 < now
    ensures var a := AdvanceAsWritten(rec, days, now);
      a.Advance? && a.rec.when < now && a.delay < 0
    ensures var a := AdvanceRecurring(rec, days, now);
      a.Advance? && a.rec.when > now && a.delay > 0
  {
    NextOccurrenceIsFirstListedDay(rec.when, days);
    UpcomingIsNextFuture(rec.when, days, now);
  }

  /**
   * As written, a record whose due time is still ahead is moved past it, so
   * the occurrence at its stored due time is never armed.
   */
  lemma AsWrittenSkipsFutureOccurrence(rec: Reminder, days: seq<int>, now: int)
    requires HasWeekday(days) && rec.when > now
    ensures var a := AdvanceAsWritten(rec, days, now);
      a.Advance? && a.rec.when > rec.when
    ensures AdvanceRecurring(rec, days, now) == Advance(rec, rec.when - now)
  {
    NextOccurrenceIsFirstListedDay(rec.when, days);
  }

  /**
   * A daily record due at 0 and recovered two days later is armed with a
   * delay of minus one day as written, and for the third midnight once
   * corrected; one due on day 10 and recovered on day 0 is moved to day 11 as
   * written, and kept at day 10 once corrected.
   */
  lemma AsWrittenDailyExamples(rec: Reminder)
    requires rec.repeat == Some([0, 1, 2, 3, 4, 5, 6])
    ensures rec.when == 0 ==>
      && AdvanceAsWritten(rec, rec.repeat.value, 2 * Day) == Advance(rec.(when := Day), -Day)
      && AdvanceRecurring(rec, rec.repeat.value, 2 * Day) == Advance(rec.(when := 3 * Day), Day)
    ensures rec.when == 10 * Day ==>
      && AdvanceAsWritten(rec, rec.repeat.value, 0) == Advance(rec.(when := 11 * Day), 11 * Day)
      && AdvanceRecurring(rec, rec.repeat.value, 0) == Advance(rec, 10 * Day)
  {
    var days := rec.repeat.value;
    forall t | true
      ensures NextOccurrence(t, days) == Some((t + Day, 1))
    {
      assert DayAfter(Weekday(t), 1) in days;
    }
    if rec.when == 0 {
      assert Upcoming(2 * Day, days, 2 * Day) == 3 * Day;
      assert Upcoming(Day, days, 2 * Day) == 3 * Day;
      assert Upcoming(0, days, 2 * Day) == 3 * Day;
    }
  }

  function Apply(s: State, id: Id, a: Action): State
  {
    match a
    case Skip => s
    case Arm(delay) => s.(pending := s.pending + {id}, timers := s.timers + [Timer(delay, id)])
    case Drop => s.(store := s.store - {id})
    case Advance(rec, delay) =>
      s.(store := s.store[id := rec], pending := s.pending + {id}, timers := s.timers + [Timer(delay, id)])
    case Exhaust => s.(pending := s.pending - {id})
  }

  /** The loop body for one record. */
  function ReconcileOne(s: State, id: Id, now: int): State
  {
    Apply(s, id, Decide(s, id, now))
  }

  /** The loop over the records, in the order the store yields them. */
  function ReconcileAll(s: State, found: seq<Id>, now: int): State
    decreases |found|
  {
    if found == [] then s
    else ReconcileOne(ReconcileAll(s, found[..|found| - 1], now), found[|found| - 1], now)
  }

  // The same result described record by record, each decided on the state
  // before the loop.

  predicate Arms(a: Action) { a.Arm? || a.Advance? }

  function RegistrationOf(id: Id, a: Action): seq<Timer>
  {
    match a
    case Arm(delay) => [Timer(delay, id)]
    case Advance(_, delay) => [Timer(delay, id)]
    case _ => []
  }

  function Registrations(s: State, found: seq<Id>, now: int): seq<Timer>
    decreases |found|
  {
    if found == [] then []
    else Registrations(s, found[..|found| - 1], now) + RegistrationOf(found[|found| - 1], Decide(s, found[|found| - 1], now))
  }

  function ReconciledStore(s: State, found: seq<Id>, now: int): map<Id, Reminder>
  {
    map id | id in s.store && !(id in found && Decide(s, id, now).Drop?) ::
      if id in found && Decide(s, id, now).Advance? then Decide(s, id, now).rec else s.store[id]
  }

  function ReconciledPending(s: State, found: seq<Id>, now: int): set<Id>
  {
    (s.pending + set id | id in found && Arms(Decide(s, id, now))) - set id | id in found && Decide(s, id, now).Exhaust?
  }

  function Reconciled(s: State, found: seq<Id>, now: int): State
  {
    s.(store := ReconciledStore(s, found, now),
       pending := ReconciledPending(s, found, now),
       timers := s.timers + Registrations(s, found, now))
  }

  /** A record not yet visited looks the same after part of the loop as before it. */
  lemma UnvisitedUntouched(s: State, found: seq<Id>, now: int, x: Id)
    requires x !in found
    ensures var r := Reconciled(s, found, now);
      && (x in r.store <==> x in s.store)
      && (x in s.store ==> r.store[x] == s.store[x])
      && (x in r.pending <==> x in s.pending)
      && Decide(r, x, now) == Decide(s, x, now)
  {
  }

  lemma StepStore(s: State, init: seq<Id>, x: Id, now: int)
    requires x !in init
    ensures Apply(Reconciled(s, init, now), x, Decide(s, x, now)).store == ReconciledStore(s, init + [x], now)
  {
    var a := Decide(s, x, now);
    var before := ReconciledStore(s, init, now);
    var goal := ReconciledStore(s, init + [x], now);
    StoreElsewhere(s, init, x, now);
    assert x in init + [x];
    if a.Drop? {
      SameMaps(before - {x}, goal, x);
    } else if a.Advance? {
      SameMaps(before[x := a.rec], goal, x);
    } else {
      SameMaps(before, goal, x);
    }
  }

  /** Visiting x changes the reconciled store at x only. */
  lemma StoreElsewhere(s: State, init: seq<Id>, x: Id, now: int)
    requires x !in init
    ensures var before, after := ReconciledStore(s, init, now), ReconciledStore(s, init + [x], now);
      forall id :: id != x ==> (id in after <==> id in before) && (id in after ==> after[id] == before[id])
  {
    assert forall id :: id in init + [x] <==> id in init || id == x;
  }

  /** Two maps that agree at x and everywhere else are equal. */
  lemma SameMaps(t: map<Id, Reminder>, goal: map<Id, Reminder>, x: Id)
    requires forall id :: id != x ==> (id in goal <==> id in t) && (id in goal ==> goal[id] == t[id])
    requires x in t <==> x in goal
    requires x in t ==> t[x] == goal[x]
    ensures t == goal
  {
  }

  lemma StepPending(s: State, init: seq<Id>, x: Id, now: int)
    requires x !in init
    ensures Apply(Reconciled(s, init, now), x, Decide(s, x, now)).pending == ReconciledPending(s, init + [x], now)
  {
    var found := init + [x];
    forall id ensures id in found <==> id in init || id == x {
    }
  }

  lemma StepTimers(s: State, init: seq<Id>, x: Id, now: int)
    ensures Apply(Reconciled(s, init, now), x, Decide(s, x, now)).timers == s.timers + Registrations(s, init + [x], now)
  {
    var found := init + [x];
    assert found[..|found| - 1] == init;
  }

  /** One more turn of the loop, over a record not yet visited. */
  lemma ReconcileStep(s: State, init: seq<Id>, x: Id, now: int)
    requires x !in init
    ensures ReconcileOne(Reconciled(s, init, now), x, now) == Reconciled(s, init + [x], now)
  {
    UnvisitedUntouched(s, init, now, x);
    StepStore(s, init, x, now);
    StepPending(s, init, x, now);
    StepTimers(s, init, x, now);
  }

  /**
   * Run over records with distinct ids, the loop decides every record on the
   * state before it started: its result is Reconciled, whatever the order
   * (which only orders the timer registrations).
   */
  lemma {:induction false} ReconcileAllIsReconciled(s: State, found: seq<Id>, now: int)
    requires Distinct(found)
    ensures ReconcileAll(s, found, now) == Reconciled(s, found, now)
    decreases |found|
  {
    if found == [] {
      assert ReconciledStore(s, found, now) == s.store;
      assert ReconciledPending(s, found, now) == s.pending;
    } else {
      var init, x := found[..|found| - 1], found[|found| - 1];
      assert found == init + [x];
      assert Distinct(init);
      assert x !in init by {
        forall i | 0 <= i < |init| ensures init[i] != x {
          assert found[i] == init[i];
        }
      }
      ReconcileAllIsReconciled(s, init, now);
      ReconcileStep(s, init, x, now);
    }
  }

  lemma RegistrationOfFacts(s: State, x: Id, now: int)
    ensures forall t :: t in RegistrationOf(x, Decide(s, x, now)) ==> t.id == x && x in s.store && x !in s.pending
    ensures |RegistrationOf(x, Decide(s, x, now))| <= 1
  {
  }

  /** Every registration is for a visited record that was not pending, one per id. */
  lemma {:induction false} RegistrationsAreForUnpendingRecords(s: State, found: seq<Id>, now: int)
    requires Distinct(found)
    ensures var reg := Registrations(s, found, now);
      && (forall t :: t in reg ==> t.id in found && t.id in s.store && t.id !in s.pending)
      && (forall i, j :: 0 <= i < j < |reg| ==> reg[i].id != reg[j].id)
    decreases |found|
  {
    if found != [] {
      var init, x := found[..|found| - 1], found[|found| - 1];
      assert found == init + [x];
      assert Distinct(init);
      RegistrationsAreForUnpendingRecords(s, init, now);
      RegistrationOfFacts(s, x, now);
      assert x !in init by {
        forall i | 0 <= i < |init| ensures init[i] != x {
          assert found[i] == init[i];
        }
      }
      var prev := Registrations(s, init, now);
      var last := RegistrationOf(x, Decide(s, x, now));
      var reg := Registrations(s, found, now);
      assert reg == prev + last;
      forall i, j | 0 <= i < j < |reg| ensures reg[i].id != reg[j].id {
        if j < |prev| {
          assert reg[i] == prev[i] && reg[j] == prev[j];
        } else {
          assert reg[j] in last;
          assert reg[i] == prev[i] && prev[i] in prev;
        }
      }
    }
  }

  /** The registration armed for one visited record, if any. */
  lemma RegistrationOfVisited(s: State, found: seq<Id>, now: int, id: Id)
    requires id in found
    ensures forall t :: t in RegistrationOf(id, Decide(s, id, now)) ==> t in Registrations(s, found, now)
    decreases |found|
  {
    var init, x := found[..|found| - 1], found[|found| - 1];
    if id != x {
      var i :| 0 <= i < |found| && found[i] == id;
      assert init[i] == id;
      RegistrationOfVisited(s, init, now, id);
    }
  }

  /** What happens to one visited record, by the action decided for it on the state before the loop. */
  lemma ReconcileOutcome(s: State, found: seq<Id>, now: int, id: Id)
    requires Distinct(found) && id in found
    ensures var r := ReconcileAll(s, found, now);
      var a := Decide(s, id, now);
      && |s.timers| <= |r.timers|
      && (a.Drop? ==> id !in r.store && id !in r.pending)
      && (a.Arm? ==> id in r.store && r.store[id] == s.store[id] && id in r.pending
                     && Timer(a.delay, id) in r.timers[|s.timers|..])
      && (a.Advance? ==> id in r.store && r.store[id] == a.rec && id in r.pending
                         && Timer(a.delay, id) in r.timers[|s.timers|..])
  {
    ReconcileAllIsReconciled(s, found, now);
    RegistrationOfVisited(s, found, now, id);
    var r := ReconcileAll(s, found, now);
    assert r.timers[|s.timers|..] == Registrations(s, found, now);
  }

  /** Reconciling sends nothing and hands out no ids. */
  lemma ReconcileSendsNothing(s: State, found: seq<Id>, now: int)
    ensures ReconcileAll(s, found, now).sent == s.sent
    ensures ReconcileAll(s, found, now).nextId == s.nextId
    decreases |found|
  {
    if found != [] {
      ReconcileSendsNothing(s, found[..|found| - 1], now);
    }
  }

  /** A record whose id already has a timer pending is left exactly as it was, and no timer is registered for it. */
  lemma ReconcileSkipsPending(s: State, found: seq<Id>, now: int, id: Id)
    requires Distinct(found) && id in s.pending
    ensures var r := ReconcileAll(s, found, now);
      && id in r.pending
      && (id in r.store <==> id in s.store)
      && (id in s.store ==> r.store[id] == s.store[id])
      && |s.timers| <= |r.timers|
      && forall t :: t in r.timers[|s.timers|..] ==> t.id != id
  {
    ReconcileAllIsReconciled(s, found, now);
    RegistrationsAreForUnpendingRecords(s, found, now);
    var r := ReconcileAll(s, found, now);
    assert r.timers[|s.timers|..] == Registrations(s, found, now);
  }

  /**
   * A one-shot record not pending is deleted, and not marked pending, when it
   * is a day or more late; otherwise it is kept as it is, marked pending and
   * armed with the time until it is due, or zero when it is late.
   */
  lemma ReconcileOneShot(s: State, found: seq<Id>, now: int, id: Id)
    requires Distinct(found) && id in found
    requires id in s.store && id !in s.pending && s.store[id].repeat.None?
    ensures var r := ReconcileAll(s, found, now);
      var when := s.store[id].when;
      && (now - when >= Day ==> id !in r.store && id !in r.pending)
      && (now - when < Day ==>
            && id in r.store && r.store[id] == s.store[id]
            && id in r.pending
            && |s.timers| <= |r.timers|
            && Timer(if when > now then when - now else 0, id) in r.timers[|s.timers|..])
  {
    ReconcileOutcome(s, found, now, id);
  }

  /**
   * A recurring record not pending, whose repeat names a weekday, is marked
   * pending and armed with the time from now until its new due time, which
   * is after now. A due time still ahead is kept. Otherwise only the due time
   * changes: to the first instant after now, at the stored time of day, on a
   * listed weekday, at most a week after now.
   */
  lemma ReconcileRecurring(s: State, found: seq<Id>, now: int, id: Id)
    requires Distinct(found) && id in found
    requires id in s.store && id !in s.pending && s.store[id].repeat.Some? && HasWeekday(s.store[id].repeat.value)
    ensures var r := ReconcileAll(s, found, now);
      var rec := s.store[id];
      && id in r.store && id in r.pending
      && r.store[id] == rec.(when := r.store[id].when)
      && now < r.store[id].when
      && (rec.when > now ==> r.store[id].when == rec.when)
      && (rec.when <= now ==>
            && r.store[id].when <= now + 7 * Day
            && TimeOfDay(r.store[id].when) == TimeOfDay(rec.when)
            && Weekday(r.store[id].when) in rec.repeat.value
            && forall u :: now < u < r.store[id].when && TimeOfDay(u) == TimeOfDay(rec.when) ==> Weekday(u) !in rec.repeat.value)
      && |s.timers| <= |r.timers|
      && Timer(r.store[id].when - now, id) in r.timers[|s.timers|..]
  {
    var rec := s.store[id];
    NextOccurrenceIsFirstListedDay(rec.when, rec.repeat.value);
    UpcomingIsNextFuture(rec.when, rec.repeat.value, now);
    var next := Upcoming(rec.when, rec.repeat.value, now);
    assert Decide(s, id, now) == Advance(rec.(when := next), next - now);
    ReconcileOutcome(s, found, now, id);
  }

  lemma ReconcileKeepsValid(s: State, found: seq<Id>, now: int)
    requires Valid(s)
    ensures Valid(ReconcileAll(s, found, now))
    decreases |found|
  {
    if found != [] {
      ReconcileKeepsValid(s, found[..|found| - 1], now);
      ReconcileSendsNothing(s, found[..|found| - 1], now);
    }
  }

  /** Every record without a pending timer is recurring and has no next occurrence. */
  predicate Settled(r: State)
  {
    forall id :: id in r.store && id !in r.pending ==>
      r.store[id].repeat.Some? && NextOccurrence(r.store[id].when, r.store[id].repeat.value).None?
  }

  /** After reconciling every record, each record left is pending or recurring with no next occurrence. */
  lemma ReconciledRecordsAreSettled(s: State, found: seq<Id>, now: int)
    requires Distinct(found) && forall id :: id in s.store ==> id in found
    ensures Settled(ReconcileAll(s, found, now))
  {
    ReconcileAllIsReconciled(s, found, now);
    var r := ReconcileAll(s, found, now);
    forall id | id in r.store && id !in r.pending
      ensures r.store[id].repeat.Some? && NextOccurrence(r.store[id].when, r.store[id].repeat.value).None?
    {
      assert id in s.store && id in found;
      assert Decide(s, id, now).Exhaust?;
      assert r.store[id] == s.store[id];
    }
  }

  /** Once every record is settled, reconciling at any time changes nothing: not even the timers. */
  lemma {:induction false} SettledStateIsFixed(r: State, found: seq<Id>, now: int)
    requires Settled(r)
    ensures ReconcileAll(r, found, now) == r
    decreases |found|
  {
    if found != [] {
      SettledStateIsFixed(r, found[..|found| - 1], now);
      var x := found[|found| - 1];
      if x in r.store && x !in r.pending {
        assert r.pending - {x} == r.pending;
      }
    }
  }

  /**
   * Reconciling is idempotent: a second pass over the records, at any later
   * time, registers no timer and changes no record.
   */
  lemma ReconcileTwiceChangesNothing(s: State, found: seq<Id>, now: int, again: seq<Id>, later: int)
    requires Distinct(found) && forall id :: id in s.store ==> id in found
    ensures var r := ReconcileAll(s, found, now);
      ReconcileAll(r, again, later) == r
  {
    ReconciledRecordsAreSettled(s, found, now);
    SettledStateIsFixed(ReconcileAll(s, found, now), again, later);
  }
}
