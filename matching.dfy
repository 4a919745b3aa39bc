/**
 * The rule checkTasks applies on every tick: a task fires when it is enabled
 * and its time string equals the current `HH:MM` string exactly. The whole
 * list is scanned; every firing task is taken, in list order.
 */
module Matching {
  import opened Clock
  import opened TaskList

  /** The per-task test of the scan; no field other than `enabled` and `time` takes part. */
  predicate Fires(t: Task, now: string)
  {
    t.enabled && t.time == now
  }

  /** The tasks a tick at clock string `now` dispatches, in list order. */
  function Due(tasks: seq<Task>, now: string): (r: seq<Task>)
    ensures |r| <= |tasks|
    ensures forall t :: t in r ==> t in tasks && Fires(t, now)
  {
    if tasks == [] then []
    else (if Fires(tasks[0], now) then [tasks[0]] else []) + Due(tasks[1..], now)
  }

  /** A task is dispatched exactly when it is in the list, enabled, and due at this minute. */
  lemma {:induction false} DueMembership(tasks: seq<Task>, now: string, t: Task)
    ensures t in Due(tasks, now) <==> t in tasks && t.enabled && t.time == now
  {
    if tasks != [] {
      DueMembership(tasks[1..], now, t);
      assert tasks == [tasks[0]] + tasks[1..];
    }
  }

  /** The scan does not stop early: each firing record is dispatched as often as it occurs, the rest never. */
  lemma {:induction false} DueCounts(tasks: seq<Task>, now: string, t: Task)
    ensures multiset(Due(tasks, now))[t] == if Fires(t, now) then multiset(tasks)[t] else 0
  {
    if tasks != [] {
      DueCounts(tasks[1..], now, t);
      assert tasks == [tasks[0]] + tasks[1..];
    }
  }

  /** The scan works piece by piece, so dispatch follows list order. */
  lemma {:induction false} DueAppend(a: seq<Task>, b: seq<Task>, now: string)
    ensures Due(a + b, now) == Due(a, now) + Due(b, now)
  {
    if a != [] {
      DueAppend(a[1..], b, now);
      assert (a + b)[1..] == a[1..] + b;
    } else {
      assert a + b == b;
    }
  }

  /**
   * At any clock reading, a task fires exactly when it is enabled and its time
   * string names that very minute; a time string that is not a valid `HH:MM`
   * never fires.
   */
  lemma FiresAtItsTime(t: Task, hour: nat, minute: nat)
    requires At(hour, minute).InRange()
    ensures Fires(t, FormatTime(hour, minute)) <==> t.enabled && ParseTime(t.time) == Some(At(hour, minute))
  {
    FormatThenParse(hour, minute);
    if ParseTime(t.time) == Some(At(hour, minute)) {
      ParseThenFormat(t.time, At(hour, minute));
    }
  }

  /** After an add, a tick dispatches what it did before, plus the new task when it was accepted and is due. */
  lemma DueAfterAdd(tasks: seq<Task>, id: int, d: Draft, now: string)
    ensures Due(AddTask(tasks, id, d), now)
         == Due(tasks, now) + (if Accepts(d) && d.time == now then [Task(id, d.name, d.time, d.kind, true)] else [])
  {
    if Accepts(d) {
      var t := Task(id, d.name, d.time, d.kind, true);
      DueAppend(tasks, [t], now);
      assert [t][1..] == [];
    }
  }

  /** Deleting then scanning is scanning then deleting: the remaining due tasks still fire, in order. */
  lemma {:induction false} DueAfterDelete(tasks: seq<Task>, id: int, now: string)
    ensures Due(DeleteTask(tasks, id), now) == DeleteTask(Due(tasks, now), id)
  {
    if tasks != [] {
      DueAfterDelete(tasks[1..], id, now);
      var head := if tasks[0].id != id then [tasks[0]] else [];
      DueAppend(head, DeleteTask(tasks[1..], id), now);
      var fired := if Fires(tasks[0], now) then [tasks[0]] else [];
      DeleteAppend(fired, Due(tasks[1..], now), id);
    }
  }

  /** A deleted id is never dispatched again: not merely disabled, gone. */
  lemma DeletedNeverFires(tasks: seq<Task>, id: int, now: string)
    ensures id !in Ids(Due(DeleteTask(tasks, id), now))
  {
  }

  /** Toggling one id leaves every other task's dispatch as it was, in the same order. */
  lemma {:induction false} DueAfterToggle(tasks: seq<Task>, id: int, now: string)
    ensures DeleteTask(Due(ToggleTask(tasks, id), now), id) == DeleteTask(Due(tasks, now), id)
  {
    if tasks != [] {
      DueAfterToggle(tasks[1..], id, now);
      var flipped := ToggleTask(tasks, id);
      assert flipped == [Flip(tasks[0], id)] + ToggleTask(tasks[1..], id);
      var a := if Fires(flipped[0], now) then [flipped[0]] else [];
      var b := if Fires(tasks[0], now) then [tasks[0]] else [];
      DeleteAppend(a, Due(ToggleTask(tasks[1..], id), now), id);
      DeleteAppend(b, Due(tasks[1..], now), id);
    }
  }

  /** Toggling an id whose tasks are all enabled switches them off: none of them fires afterwards. */
  lemma ToggleOffSilences(tasks: seq<Task>, id: int, now: string)
    requires forall t :: t in tasks && t.id == id ==> t.enabled
    ensures id !in Ids(Due(ToggleTask(tasks, id), now))
  {
  }

  /** A list in which no time string equals `now` dispatches nothing. */
  lemma {:induction false} DueNone(tasks: seq<Task>, now: string)
    requires forall i :: 0 <= i < |tasks| ==> tasks[i].time != now
    ensures Due(tasks, now) == []
  {
    if tasks != [] {
      DueNone(tasks[1..], now);
    }
  }

  /** A one-task list dispatches its task exactly when that task fires. */
  lemma DueSingle(t: Task, now: string)
    ensures Due([t], now) == if Fires(t, now) then [t] else []
  {
    assert [t][1..] == [];
  }

  /** Every seeded reminder's time is a valid `HH:MM` string, so each fires at exactly one minute of the day. */
  lemma SeededTimesValid()
    ensures forall i :: 0 <= i < |Seeded()| ==> ParseTime(Seeded()[i].time).Some?
  {
  }

  /** The eight seeded reminders between breakfast and leaving for work are not due at "08:00". */
  lemma SeededMiddleSilent()
    ensures Due(Seeded()[1..9], "08:00") == []
  {
    var mid := Seeded()[1..9];
    assert forall i :: 0 <= i < |mid| ==> mid[i].time != "08:00";
    DueNone(mid, "08:00");
  }

  /** When only the first and the last task fire, exactly those two are dispatched, first one first. */
  lemma DueEnds(tasks: seq<Task>, now: string)
    requires |tasks| >= 2 && Fires(tasks[0], now) && Fires(tasks[|tasks| - 1], now)
    requires Due(tasks[1..|tasks| - 1], now) == []
    ensures Due(tasks, now) == [tasks[0], tasks[|tasks| - 1]]
  {
    var n := |tasks|;
    var first, mid, last := [tasks[0]], tasks[1..n - 1], [tasks[n - 1]];
    assert tasks == first + mid + last;
    DueAppend(first + mid, last, now);
    DueAppend(first, mid, now);
    DueSingle(tasks[0], now);
    DueSingle(tasks[n - 1], now);
  }

  /** The seeded list at "08:00": the breakfast reminder and the leave-for-work reminder. */
  lemma SeededAtEight()
    ensures Due(Seeded(), "08:00") == [Seeded()[0], Seeded()[9]]
  {
    SeededMiddleSilent();
    DueEnds(Seeded(), "08:00");
  }

  /** The two seeded reminders at 08:00 (ids 1 and 10) both fire at 08:00, in list order, and nothing else. */
  lemma SeededBreakfastTick()
    ensures Due(Seeded(), FormatTime(8, 0)) == [Seeded()[0], Seeded()[9]]
  {
    ParseThenFormat("08:00", At(8, 0));
    SeededAtEight();
  }

  /**
   * A list holding only an enabled "12:30" reminder dispatches it at 12:30
   * and at no other minute; once it is deleted, it is dispatched at no minute.
   */
  lemma ZuhrTick(hour: nat, minute: nat)
    requires At(hour, minute).InRange()
    ensures Due([Task(6, "Zuhr Namaz", "12:30", "prayer", true)], FormatTime(hour, minute))
         == if hour == 12 && minute == 30 then [Task(6, "Zuhr Namaz", "12:30", "prayer", true)] else []
    ensures Due(DeleteTask([Task(6, "Zuhr Namaz", "12:30", "prayer", true)], 6), FormatTime(hour, minute)) == []
  {
    var zuhr := Task(6, "Zuhr Namaz", "12:30", "prayer", true);
    assert ParseTime("12:30") == Some(At(12, 30));
    FiresAtItsTime(zuhr, hour, minute);
    DueSingle(zuhr, FormatTime(hour, minute));
    assert DeleteTask([zuhr], 6) == [];
  }
}
