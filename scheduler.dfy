/**
 * The widget's state and the operations that change it: the task list, the
 * add-task form, the notification permission it displays, the host's
 * notification capability, and a log of the effects the ticks dispatched.
 */
module Scheduler {
  import opened Clock
  import opened TaskList
  import opened Matching
  import opened Dispatch

  /** Scanning one more task adds that task's effects when it fires, and nothing otherwise. */
  lemma TickStep(tasks: seq<Task>, i: nat, now: string, api: NotificationApi)
    requires i < |tasks|
    ensures Alerts(Due(tasks[..i + 1], now), api)
         == Alerts(Due(tasks[..i], now), api) + (if Fires(tasks[i], now) then AlertsFor(tasks[i], api) else [])
  {
    assert tasks[..i + 1] == tasks[..i] + [tasks[i]];
    DueAppend(tasks[..i], [tasks[i]], now);
    DueSingle(tasks[i], now);
    AlertsAppend(Due(tasks[..i], now), Due([tasks[i]], now), api);
    assert [tasks[i]][1..] == [];
  }

  class ReminderWidget {
    /** The reminder list. */
    var tasks: seq<Task>
    /** The add-task form. */
    var draft: Draft
    /** The permission the widget shows (its own copy, which decides the banner). */
    var permission: Permission
    /** The host's notification capability and the permission it reports. */
    var api: NotificationApi
    /** Every notification and alarm dispatched so far, oldest first. */
    var log: seq<Alert>

    /** The widget's copy of the permission is the host's, or "default" when there is no capability. */
    ghost predicate Valid()
      reads this
    {
      permission == (if api.Supported? then api.permission else Default)
    }

    /**
     * The widget once mounted: the seeded list, an empty form, no alerts, and
     * the permission read from the host when the capability exists.
     */
    constructor (host: NotificationApi)
      ensures Valid()
      ensures api == host && tasks == Seeded() && draft == EmptyDraft && log == []
    {
      tasks := Seeded();
      draft := EmptyDraft;
      api := host;
      permission := if host.Supported? then host.permission else Default;
      log := [];
    }

    /** The enable-notifications banner is shown exactly when notifications cannot be delivered. */
    function ShowsBanner(): (shown: bool)
      reads this
      requires Valid()
      ensures shown <==> !CanNotify(api)
    {
      permission != Granted
    }

    /**
     * requestNotificationPermission: only a capability still at "default"
     * prompts; the host and the widget then both take the prompt's answer.
     * Otherwise nothing changes.
     */
    method RequestPermission(answer: Permission)
      requires Valid()
      modifies this`permission, this`api
      ensures Valid()
      ensures old(api) == Supported(Default) ==> api == Supported(answer) && permission == answer
      ensures old(api) != Supported(Default) ==> api == old(api) && permission == old(permission)
    {
      if api == Supported(Default) {
        api := Supported(answer);
        permission := answer;
      }
    }

    /**
     * checkTasks at the given clock reading: every task that fires at the
     * formatted time is dispatched, in list order, and its effects are logged.
     */
    method Tick(hour: nat, minute: nat)
      modifies this`log
      ensures log == old(log) + Alerts(Due(tasks, FormatTime(hour, minute)), api)
      ensures !CanNotify(api) ==> forall i :: |old(log)| <= i < |log| ==> log[i] == Alarm
    {
      Scan(FormatTime(hour, minute));
    }

    /** The `forEach` of checkTasks against an already formatted clock string `now`. */
    method Scan(now: string)
      modifies this`log
      ensures log == old(log) + Alerts(Due(tasks, now), api)
      ensures !CanNotify(api) ==> forall i :: |old(log)| <= i < |log| ==> log[i] == Alarm
    {
      var i := 0;
      while i < |tasks|
        invariant 0 <= i <= |tasks|
        invariant log == old(log) + Alerts(Due(tasks[..i], now), api)
      {
        TickStep(tasks, i, now, api);
        var task := tasks[i];
        if task.enabled && task.time == now {
          log := log + AlertsFor(task, api);
        }
        i := i + 1;
      }
      assert tasks[..|tasks|] == tasks;
      if !CanNotify(api) {
        AlertsSilent(Due(tasks, now), api);
      }
    }

    /** The name input's handler: the form takes the new name and keeps its time and category. */
    method EditName(name: string)
      modifies this`draft
      ensures draft == old(draft).(name := name)
    {
      draft := draft.(name := name);
    }

    /** The time input's handler: the form takes the new time and keeps its name and category. */
    method EditTime(time: string)
      modifies this`draft
      ensures draft == old(draft).(time := time)
    {
      draft := draft.(time := time);
    }

    /** The category select's handler: the form takes the new category and keeps its name and time. */
    method EditKind(kind: string)
      modifies this`draft
      ensures draft == old(draft).(kind := kind)
    {
      draft := draft.(kind := kind);
    }

    /**
     * addTask: the form's contents become a new task with the given id when
     * both name and time are filled in, and the form is then cleared; an
     * incomplete form changes neither the list nor the form.
     */
    method SubmitDraft(id: int)
      modifies this`tasks, this`draft
      ensures tasks == AddTask(old(tasks), id, old(draft))
      ensures draft == if Accepts(old(draft)) then EmptyDraft else old(draft)
    {
      if draft.name != "" && draft.time != "" {
        tasks := tasks + [Task(id, draft.name, draft.time, draft.kind, true)];
        draft := EmptyDraft;
      }
    }

    /** deleteTask: the list keeps, in order, the tasks whose id differs. */
    method DeleteTask(id: int)
      modifies this`tasks
      ensures tasks == TaskList.DeleteTask(old(tasks), id)
    {
      tasks := TaskList.DeleteTask(tasks, id);
    }

    /** toggleTask: `enabled` flips on the tasks with that id; nothing else changes. */
    method ToggleTask(id: int)
      modifies this`tasks
      ensures tasks == TaskList.ToggleTask(old(tasks), id)
    {
      tasks := TaskList.ToggleTask(tasks, id);
    }
  }
}
