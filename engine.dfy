/**
 * The plugin's live state as one object: the reminder collection, the ids with
 * a timer pending, the timers registered and the messages sent. Each command
 * and callback updates the fields in place and is proved to take the state
 * exactly where the matching step of Scheduler or Recovery takes it.
 */
module Reminders {
  import opened Wrappers
  import S = Scheduler
  import R = Recovery
  import Recurrence

  class Engine {
    var store: map<S.Id, S.Reminder>
    var pending: set<S.Id>
    var timers: seq<S.Timer>
    var sent: seq<S.Delivery>
    var nextId: S.Id

    function Snapshot(): S.State
      reads this
    {
      S.State(store, pending, timers, sent, nextId)
    }

    ghost predicate Valid()
      reads this
    {
      S.Valid(Snapshot())
    }

    /** An empty collection, nothing pending, nothing registered or sent. */
    constructor()
      ensures Valid()
      ensures Snapshot() == S.State(map[], {}, [], [], 0)
    {
      store, pending, timers, sent, nextId := map[], {}, [], [], 0;
    }

    /** The in command: a reminder after a duration. */
    method InReminder(now: int, channel: string, args: seq<string>) returns (reply: S.Reply)
      requires Valid()
      modifies this
      ensures Valid()
      ensures (Snapshot(), reply) == S.InReminder(old(Snapshot()), now, channel, args)
    {
      var request := S.InRequest(now, channel, args);
      reply := Submit(request, now);
    }

    /** The at command: a reminder at a wall-clock time, optionally repeating. */
    method AtReminder(now: int, channel: string, args: seq<string>) returns (reply: S.Reply)
      requires Valid()
      modifies this
      ensures Valid()
      ensures (Snapshot(), reply) == S.AtReminder(old(Snapshot()), now, channel, args)
    {
      var request := S.AtRequest(now, channel, args);
      reply := Submit(request, now);
    }

    /** Saves a parsed request under a fresh id and arms its timer, or refuses it. */
    method Submit(request: Result<S.Reminder, string>, now: int) returns (reply: S.Reply)
      requires Valid()
      modifies this
      ensures Valid()
      ensures (Snapshot(), reply) == S.Submit(old(Snapshot()), request, now)
    {
      match request {
        case Err(text) =>
          reply := S.Refused(text);
        case Ok(rec) =>
          var id := nextId;
          store := store[id := rec];
          pending := pending + {id};
          timers := timers + [S.Timer(S.Delay(rec.when, now), id)];
          nextId := nextId + 1;
          reply := S.Created(id);
      }
    }

    /** The timer callback for id. */
    method DoReminder(id: S.Id, now: int)
      requires Valid()
      modifies this
      ensures Valid()
      ensures Snapshot() == S.DoReminder(old(Snapshot()), id, now)
    {
      S.DoReminderKeepsValid(Snapshot(), id, now);
      if id !in store {
        pending := pending - {id};
      } else {
        var rec := store[id];
        sent := sent + [S.Delivery(rec.channel, rec.message)];
        match rec.repeat {
          case None =>
            store := store - {id};
            pending := pending - {id};
          case Some(days) =>
            var next := Recurrence.NextOccurrence(rec.when, days);
            match next {
              case None =>
                pending := pending - {id};
              case Some((when, _)) =>
                store := store[id := rec.(when := when)];
                timers := timers + [S.Timer(when - now, id)];
            }
        }
      }
    }

    /** The delete command. */
    method DeleteReminder(text: string) returns (result: S.Deletion)
      requires Valid()
      modifies this
      ensures Valid()
      ensures (Snapshot(), result) == S.DeleteReminder(old(Snapshot()), text)
    {
      var id := S.ParseObjectId(text);
      match id {
        case None =>
          result := S.InvalidId("Invalid ID format '" + text + "'");
        case Some(key) =>
          if key in store {
            store := store - {key};
            result := S.Removed(key);
          } else {
            result := S.NotFound("No reminder found with id '" + text + "'");
          }
      }
    }

    /** One turn of the startup loop: act on the record stored under id as Recovery.Decide says. */
    method ReconcileRecord(id: S.Id, now: int)
      modifies this
      ensures Snapshot() == R.ReconcileOne(old(Snapshot()), id, now)
    {
      var action := R.Decide(Snapshot(), id, now);
      match action {
        case Skip =>
        case Arm(delay) =>
          pending := pending + {id};
          timers := timers + [S.Timer(delay, id)];
        case Drop =>
          store := store - {id};
        case Advance(rec, delay) =>
          store := store[id := rec];
          pending := pending + {id};
          timers := timers + [S.Timer(delay, id)];
        case Exhaust =>
          pending := pending - {id};
      }
    }

    /**
     * Startup recovery over the records in the order the store yields them
     * (found lists every stored id once). Afterwards every record without a
     * pending timer is recurring with no next occurrence, so a second run
     * changes nothing.
     */
    method InitReminders(now: int, found: seq<S.Id>)
      requires Valid()
      requires Distinct(found) && forall id :: id in store <==> id in found
      modifies this
      ensures Valid()
      ensures Snapshot() == R.ReconcileAll(old(Snapshot()), found, now)
      ensures R.Settled(Snapshot())
    {
      var i := 0;
      while i < |found|
        invariant 0 <= i <= |found|
        invariant Snapshot() == R.ReconcileAll(old(Snapshot()), found[..i], now)
      {
        ReconcileRecord(found[i], now);
        assert found[..i + 1][..i] == found[..i];
        i := i + 1;
      }
      assert found[..i] == found;
      R.ReconcileKeepsValid(old(Snapshot()), found, now);
      R.ReconciledRecordsAreSettled(old(Snapshot()), found, now);
    }
  }
}
