/**
 * The reminder list: an ordered sequence of task records and the three
 * transformations the widget applies to it (append from the form, filter
 * out by id, flip `enabled` by id). Each is a pure function of the old
 * list; the widget hands its result to the state setter.
 */
module TaskList {

  /**
   * One reminder. `time` is the string the time input produced (meant to be
   * `HH:MM`, but only checked to be non-empty); `kind` is the category
   * ("food", "sleep", "prayer", "custom") and only chooses the message text.
   */
  datatype Task = Task(id: int, name: string, time: string, kind: string, enabled: bool)

  /** The contents of the add-task form. */
  datatype Draft = Draft(name: string, time: string, kind: string)

  /** The form after a successful add: empty name and time, category "custom". */
  const EmptyDraft: Draft := Draft("", "", "custom")

  /** The ten reminders every session starts with. */
  function Seeded(): seq<Task>
  {
    [ Task(1, "Khana (Breakfast)", "08:00", "food", true),
      Task(2, "Khana (Lunch)", "13:00", "food", true),
      Task(3, "Khana (Dinner)", "20:00", "food", true),
      Task(4, "Sone ka Time", "21:30", "sleep", true),
      Task(5, "Fajr Namaz", "05:30", "prayer", true),
      Task(6, "Zuhr Namaz", "12:30", "prayer", true),
      Task(7, "Asr Namaz", "15:45", "prayer", true),
      Task(8, "Maghrib Namaz", "17:45", "prayer", true),
      Task(9, "Isha Namaz", "19:15", "prayer", true),
      Task(10, "Job ke liye nikalna", "08:00", "custom", true) ]
  }

  /** The set of ids in use. */
  function Ids(tasks: seq<Task>): set<int>
  {
    set t | t in tasks :: t.id
  }

  /** No two records share an id (what the list's keys assume; the code does not enforce it). */
  predicate UniqueIds(tasks: seq<Task>)
  {
    forall i, j :: 0 <= i < j < |tasks| ==> tasks[i].id != tasks[j].id
  }

  /** The form's guard: both the name and the time are non-empty strings. */
  predicate Accepts(d: Draft)
  {
    d.name != "" && d.time != ""
  }

  /**
   * addTask: when the draft has a name and a time, a new enabled task with
   * the given id and the draft's fields goes on the end; otherwise the list
   * is returned as it was.
   */
  function AddTask(tasks: seq<Task>, id: int, d: Draft): (r: seq<Task>)
    ensures !Accepts(d) ==> r == tasks
    ensures Accepts(d) ==> |r| == |tasks| + 1 && r[..|tasks|] == tasks
    ensures Accepts(d) ==> r[|tasks|] == Task(id, d.name, d.time, d.kind, true)
  {
    if Accepts(d) then tasks + [Task(id, d.name, d.time, d.kind, true)] else tasks
  }

  /** deleteTask: `tasks.filter(task => task.id !== id)`. */
  function DeleteTask(tasks: seq<Task>, id: int): (r: seq<Task>)
    ensures |r| <= |tasks|
    ensures forall t :: t in r ==> t in tasks && t.id != id
  {
    if tasks == [] then []
    else (if tasks[0].id != id then [tasks[0]] else []) + DeleteTask(tasks[1..], id)
  }

  /** One record under toggleTask: `enabled` negated when the id matches. */
  function Flip(t: Task, id: int): Task
  {
    if t.id == id then t.(enabled := !t.enabled) else t
  }

  /** toggleTask: `tasks.map(...)` flipping `enabled` on the records with that id. */
  function ToggleTask(tasks: seq<Task>, id: int): (r: seq<Task>)
    ensures |r| == |tasks|
    ensures forall i :: 0 <= i < |r| ==> r[i].(enabled := tasks[i].enabled) == tasks[i]
    ensures forall i :: 0 <= i < |r| ==> (r[i].enabled != tasks[i].enabled <==> tasks[i].id == id)
  {
    if tasks == [] then [] else [Flip(tasks[0], id)] + ToggleTask(tasks[1..], id)
  }

  // ---- addTask ----

  /** A fresh id keeps the ids unique; a rejected draft changes nothing at all. */
  lemma AddKeepsUnique(tasks: seq<Task>, id: int, d: Draft)
    requires UniqueIds(tasks) && id !in Ids(tasks)
    ensures UniqueIds(AddTask(tasks, id, d))
    ensures Ids(AddTask(tasks, id, d)) == if Accepts(d) then Ids(tasks) + {id} else Ids(tasks)
  {
  }

  // ---- deleteTask ----

  /** A record survives deletion exactly when it was in the list and has a different id. */
  lemma {:induction false} DeleteMembership(tasks: seq<Task>, id: int, t: Task)
    ensures t in DeleteTask(tasks, id) <==> t in tasks && t.id != id
  {
    if tasks != [] {
      DeleteMembership(tasks[1..], id, t);
      assert tasks == [tasks[0]] + tasks[1..];
    }
  }

  /** Deletion keeps every other record as many times as it occurred, and none with that id. */
  lemma {:induction false} DeleteCounts(tasks: seq<Task>, id: int, t: Task)
    ensures multiset(DeleteTask(tasks, id))[t] == if t.id == id then 0 else multiset(tasks)[t]
  {
    if tasks != [] {
      DeleteCounts(tasks[1..], id, t);
      assert tasks == [tasks[0]] + tasks[1..];
    }
  }

  /** Deletion works piece by piece, so the survivors keep their relative order. */
  lemma {:induction false} DeleteAppend(a: seq<Task>, b: seq<Task>, id: int)
    ensures DeleteTask(a + b, id) == DeleteTask(a, id) + DeleteTask(b, id)
  {
    if a != [] {
      DeleteAppend(a[1..], b, id);
      assert (a + b)[1..] == a[1..] + b;
    } else {
      assert a + b == b;
    }
  }

  /** Deleting an id is a no-op exactly when no record has that id. */
  lemma {:induction false} DeleteUnknown(tasks: seq<Task>, id: int)
    ensures DeleteTask(tasks, id) == tasks <==> id !in Ids(tasks)
  {
    if tasks != [] {
      DeleteUnknown(tasks[1..], id);
      assert tasks == [tasks[0]] + tasks[1..];
      if tasks[0].id == id {
        assert |DeleteTask(tasks, id)| < |tasks|;
      } else {
        assert Ids(tasks) == {tasks[0].id} + Ids(tasks[1..]);
      }
    }
  }

  /** Deleting twice is deleting once. */
  lemma {:induction false} DeleteIdempotent(tasks: seq<Task>, id: int)
    ensures DeleteTask(DeleteTask(tasks, id), id) == DeleteTask(tasks, id)
  {
    var r := DeleteTask(tasks, id);
    DeleteUnknown(r, id);
  }

  /** Deletion removes exactly that id from the set of ids in use. */
  lemma DeleteIds(tasks: seq<Task>, id: int)
    ensures Ids(DeleteTask(tasks, id)) == Ids(tasks) - {id}
  {
    var r := DeleteTask(tasks, id);
    forall x | x in Ids(tasks) - {id} ensures x in Ids(r) {
      var t :| t in tasks && t.id == x;
      DeleteMembership(tasks, id, t);
    }
  }

  /** Unique ids, read from the front: the head's id is not used again, and the rest is unique. */
  lemma UniqueCons(t: Task, rest: seq<Task>)
    ensures UniqueIds([t] + rest) <==> t.id !in Ids(rest) && UniqueIds(rest)
  {
    var s := [t] + rest;
    if UniqueIds(s) {
      forall u | u in rest ensures u.id != t.id {
        var k :| 0 <= k < |rest| && rest[k] == u;
        assert s[0] == t && s[k + 1] == u;
      }
      forall i, j | 0 <= i < j < |rest| ensures rest[i].id != rest[j].id {
        assert s[i + 1] == rest[i] && s[j + 1] == rest[j];
      }
    }
    if t.id !in Ids(rest) && UniqueIds(rest) {
      forall i, j | 0 <= i < j < |s| ensures s[i].id != s[j].id {
        if i == 0 {
          assert s[j] in rest;
        } else {
          assert s[i] == rest[i - 1] && s[j] == rest[j - 1];
        }
      }
    }
  }

  /** Deletion keeps the ids unique. */
  lemma {:induction false} DeleteKeepsUnique(tasks: seq<Task>, id: int)
    requires UniqueIds(tasks)
    ensures UniqueIds(DeleteTask(tasks, id))
  {
    if tasks != [] {
      assert tasks == [tasks[0]] + tasks[1..];
      UniqueCons(tasks[0], tasks[1..]);
      DeleteKeepsUnique(tasks[1..], id);
      if tasks[0].id != id {
        DeleteIds(tasks[1..], id);
        UniqueCons(tasks[0], DeleteTask(tasks[1..], id));
      }
    }
  }

  // ---- toggleTask ----

  /** Toggling the same id twice gives back the original list. */
  lemma ToggleTwice(tasks: seq<Task>, id: int)
    ensures ToggleTask(ToggleTask(tasks, id), id) == tasks
  {
  }

  /** Toggling an id is a no-op exactly when no record has that id. */
  lemma ToggleUnknown(tasks: seq<Task>, id: int)
    ensures ToggleTask(tasks, id) == tasks <==> id !in Ids(tasks)
  {
  }

  /** Toggling changes no id, so the set of ids and their uniqueness are kept. */
  lemma ToggleKeepsIds(tasks: seq<Task>, id: int)
    ensures Ids(ToggleTask(tasks, id)) == Ids(tasks)
    ensures UniqueIds(tasks) ==> UniqueIds(ToggleTask(tasks, id))
  {
  }

  // ---- the seeded list ----

  /** The ten seeded reminders have distinct ids 1..10, and are all enabled. */
  lemma SeededWellFormed()
    ensures |Seeded()| == 10 && UniqueIds(Seeded())
    ensures forall i :: 0 <= i < 10 ==> Seeded()[i].id == i + 1 && Seeded()[i].enabled
  {
  }
}
