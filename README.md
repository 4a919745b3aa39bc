# Kids daily routine reminder: scheduler and task list

This project models the reminder scheduler of the kids-routine-app widget (`app.js`). The widget keeps an ordered list of
daily reminders: meals, bedtime, the five prayers and custom tasks. Once a minute it formats the current hour and
minute as `HH:MM` and dispatches every enabled task whose time string is exactly that string. For each such task it
sends a notification (titled with the task's name, with a body chosen by the task's category) and plays an alarm.
Users add tasks through a form, delete them, and switch them on and off. A banner asks for notification permission
until it has been granted.

The model has five modules:

- `Clock` (`clock.dfy`): the `HH:MM` string that `checkTasks` builds. `Number.prototype.toString` and
  `padStart(2, '0')` are written out. `ParseTime` reads the format back, and the round trip is proved in both
  directions.
- `TaskList` (`task_list.dfy`): the task record, the add-task form, the ten seeded reminders, and `addTask`,
  `deleteTask` and `toggleTask` as pure functions of the old list, with their properties as lemmas.
- `Matching` (`matching.dfy`): the firing test and `Due`, the tasks one tick dispatches, in list order. Lemmas
  characterise `Due` and relate it to the list operations and the clock.
- `Dispatch` (`dispatch.dfy`): the permission values, the host's notification capability, the category-to-message
  table with its fallback, and the log entries a dispatched task produces (a notification when permitted, then an
  alarm).
- `Scheduler` (`scheduler.dfy`): class `ReminderWidget`, which holds the list, the form, the widget's permission, the
  host capability and the dispatch log. `Tick` is the `forEach` scan of `checkTasks`, written as a loop and proved
  against `Due`. `RequestPermission` is the permission gate. The list operations are methods that set the list to the
  `TaskList` functions' results.

Inputs the widget takes from the browser become parameters:

- the clock reading (`hour`, `minute`) of a tick;
- the id of a new task (`Date.now()` in the source);
- the host's notification capability and its permission at mount time;
- the answer the permission prompt resolves to.

Notifications and the alarm tone are recorded as entries of a log, not performed.

`showNotification` gates on the browser's own `Notification.permission` (app.js:59). The banner reads the widget's
copy of the permission (app.js:18, 116). `requestNotificationPermission` gates on the browser's value (app.js:52) and
writes the widget's copy (app.js:54). The model keeps both: `api` for the browser's value and `permission` for the
widget's copy. `Valid()` states that they agree. Under that
invariant, the banner is shown exactly when notifications cannot be delivered.

## Model

| member | source | states |
|---|---|---|
| `Clock.Decimal` | app.js:34-35 | `toString()` of a non-negative integer gives at least one digit, only digits, one digit exactly below 10, and no leading zero |
| `Clock.DecimalReadsBack` | app.js:34-35 | the base-10 digits written for `n` denote `n` |
| `Clock.PadStart` | app.js:34-35 | `padStart(width, fill)` yields `max(width, len)` characters: the fill character in front, then the original string unchanged |
| `Clock.TwoDigitsBelowHundred` | app.js:34-35 | for 0..99 the padded field is exactly the tens digit followed by the units digit |
| `Clock.FormatShape` | app.js:34-36 | for hour and minute below 100 the current-time string is exactly 5 characters: two digits, `:`, two digits |
| `Clock.FormatThenParse` | app.js:34-36 | for hour 0..23 and minute 0..59 the formatted string reads back as the same hour and minute |
| `Clock.ParseThenFormat` | app.js:34-36 | every valid `HH:MM` string is exactly what the clock formats at the minute it names |
| `Clock.FormatInjective` | app.js:34-36 | two in-range clock readings give the same string if and only if they are the same minute |
| `TaskList.AddTask` | app.js:94-98 | an empty name or time leaves the list unchanged; otherwise the earlier tasks are kept as they were and one enabled task with the given id, name, time and type is appended |
| `TaskList.AddKeepsUnique` | app.js:96 | with an id not already in use, adding keeps ids unique and adds exactly that id, or nothing when rejected |
| `TaskList.DeleteTask` | app.js:101 | the result is no longer than the list and holds only tasks of the list whose id differs |
| `TaskList.DeleteMembership` | app.js:101 | a task survives deletion if and only if it was in the list and its id differs |
| `TaskList.DeleteCounts` | app.js:101 | each task with a different id survives as many times as it occurred; none with that id survives |
| `TaskList.DeleteAppend` | app.js:101 | deletion distributes over concatenation, so the survivors keep their relative order |
| `TaskList.DeleteUnknown` | app.js:101 | deletion leaves the list unchanged if and only if no task has that id |
| `TaskList.DeleteIdempotent` | app.js:101 | deleting the same id twice equals deleting it once |
| `TaskList.DeleteIds` | app.js:101 | the ids in use after deletion are the old ids minus the deleted one |
| `TaskList.DeleteKeepsUnique` | app.js:101 | deletion keeps ids unique |
| `TaskList.ToggleTask` | app.js:102 | length kept; at every position every field but `enabled` is unchanged, and `enabled` flips if and only if the id matches |
| `TaskList.ToggleTwice` | app.js:102 | toggling the same id twice restores the original list |
| `TaskList.ToggleUnknown` | app.js:102 | toggling leaves the list unchanged if and only if no task has that id |
| `TaskList.ToggleKeepsIds` | app.js:102 | toggling keeps the set of ids, and keeps unique ids unique |
| `TaskList.SeededWellFormed` | app.js:5-16 | the seeded list has ten tasks with ids 1..10 in order, all enabled, ids unique |
| `Matching.Due` | app.js:38-39 | the dispatched tasks are no more than the list's and each is a task of the list that is enabled with time equal to the current string |
| `Matching.DueMembership` | app.js:38-39 | a task is dispatched if and only if it is in the list, enabled, and its time equals the current string |
| `Matching.DueCounts` | app.js:38-43 | the scan does not stop at the first match: every firing task is dispatched once per occurrence, non-firing ones never |
| `Matching.DueAppend` | app.js:38-43 | the scan distributes over concatenation, so dispatch follows list order |
| `Matching.FiresAtItsTime` | app.js:34-39 | at an in-range clock reading a task fires if and only if it is enabled and its time string parses to that very minute; a malformed time never fires |
| `Matching.DueAfterAdd` | app.js:96 | after an add, a tick dispatches what it did before plus the new task when it was accepted and its time is now |
| `Matching.DueAfterDelete` | app.js:101 | scanning the list after deletion equals deleting from the scan's result |
| `Matching.DeletedNeverFires` | app.js:101 | after deleting an id, no task with that id is dispatched |
| `Matching.DueAfterToggle` | app.js:102 | toggling one id does not change, nor reorder, the dispatch of any task with another id |
| `Matching.ToggleOffSilences` | app.js:102 | toggling an id whose tasks are all enabled means none of them is dispatched afterwards |
| `Matching.DueNone` | app.js:38-39 | a list where no time equals the current string dispatches nothing |
| `Matching.SeededTimesValid` | app.js:6-15 | every seeded time is a valid `HH:MM` string naming an in-range minute |
| `Matching.SeededAtEight` | app.js:6-15 | in the seeded list, at the string `08:00`, exactly tasks 1 and 10 are dispatched, in that order |
| `Matching.SeededBreakfastTick` | app.js:6-15 | at clock reading 8:00 the seeded list dispatches exactly tasks 1 and 10, in that order |
| `Matching.ZuhrTick` | app.js:11 | a lone enabled `12:30` task is dispatched at 12:30 and at no other minute, and not at all once deleted |
| `Dispatch.Body` | app.js:60-68 | the body is never empty; it is the table's phrase for food/sleep/prayer/custom, and it is `Time reminder` if and only if the category is not in the table |
| `Dispatch.AlertsAppend` | app.js:38-43 | dispatching two runs of tasks logs the first run's effects, then the second's |
| `Dispatch.AlertsGranted` | app.js:39-41 | with permission granted, each dispatched task logs exactly one notification (its name, its message) then one alarm, in dispatch order |
| `Dispatch.AlertsSilent` | app.js:59 | without the capability or without permission, each dispatched task logs only an alarm |
| `Scheduler.TickStep` | app.js:38-43 | scanning one more task adds that task's effects exactly when it fires |
| `Scheduler.ReminderWidget.constructor` | app.js:4-29 | the mounted widget has the seeded list, an empty form, no alerts, and its permission taken from the host, or `default` without the capability |
| `Scheduler.ReminderWidget.ShowsBanner` | app.js:116 | the banner is shown if and only if notifications cannot be delivered |
| `Scheduler.ReminderWidget.RequestPermission` | app.js:51-56 | only a capability at `default` changes, and then host and widget both take the prompt's answer; from `granted`, `denied` or without the capability nothing changes; consistency is kept |
| `Scheduler.ReminderWidget.Tick` | app.js:32-44 | the log grows by exactly the effects of `Due(tasks, HH:MM)` in list order; without permission only alarms are logged |
| `Scheduler.ReminderWidget.Scan` | app.js:38-43 | the log grows by exactly the effects of `Due(tasks, now)`, in list order; without permission only alarms are logged |
| `Scheduler.ReminderWidget.EditName` | app.js:130 | the name handler sets the form's name and keeps its time and category |
| `Scheduler.ReminderWidget.EditTime` | app.js:136 | the time handler sets the form's time and keeps its name and category |
| `Scheduler.ReminderWidget.EditKind` | app.js:141 | the category handler sets the form's category and keeps its name and time |
| `Scheduler.ReminderWidget.SubmitDraft` | app.js:94-99 | the list becomes `AddTask` of the form's contents, and the form is cleared exactly when the add was accepted |
| `Scheduler.ReminderWidget.DeleteTask` | app.js:101 | the list becomes `DeleteTask` of the old list |
| `Scheduler.ReminderWidget.ToggleTask` | app.js:102 | the list becomes `ToggleTask` of the old list |

## Left out

- Rendering, the React element tree and the `useState`/`useEffect` wiring (app.js:1, 104-186) are UI. The form's
  three input handlers are modelled as `EditName`, `EditTime` and `EditKind`.
- Timers: the 1-second display clock, the 60-second interval and its teardown (app.js:20-23, 46-48). A tick is a
  direct call of `Tick` with an hour and a minute. The immediate run at mount (app.js:47) is a caller calling `Tick`
  once after the constructor.
- The effect also re-runs `checkTasks` whenever the list changes (app.js:49). `filter` and `map` return new arrays,
  so this happens even after a delete or toggle of an unknown id. `SubmitDraft`, `DeleteTask` and `ToggleTask` do not
  fold this extra tick in; a caller models it by calling `Tick` after them.
- The host clock (`new Date()`, `getHours`, `getMinutes`) and the locale formatting of the display (app.js:33, 109,
  112). `Tick` takes hour and minute as naturals. The lemmas about the format assume the ranges `Date` guarantees
  (0..23, 0..59).
- Tick: the model assumes the `Notification` constructor (app.js:67) never throws. It is not inside a try/catch,
  and some hosts throw from it even with permission granted. When it throws, the exception leaves the `forEach`
  (app.js:38), so that task's alarm and every later due task are skipped. The model does not contain this failure
  path: it always logs one alarm per due task.
- The Web Notifications API and the `vibrate` option (app.js:26-27, 53, 67-70). A notification is a log entry of
  (title, body). The browser's permission changing outside the widget (site settings) is not modelled.
- The `async`/`await` of `requestNotificationPermission` (app.js:51-55). `RequestPermission` takes the prompt's
  answer as a parameter and applies it at once. Other operations interleaving during the await are not modelled.
- `playAlarm` (app.js:74-92) uses `AudioContext`, an oscillator, floating-point gain and frequency, a 1-second stop
  timer, and a try/catch that only swallows host errors. It is modelled only as one `Alarm` log entry per dispatched
  task.
- `Date.now()` id generation (app.js:96). The id is a parameter. The code does not guarantee unique ids, so the
  uniqueness lemmas assume a fresh id instead of claiming it.
- `Dispatch.Body`: the lookup is on a plain object, so a category that names an inherited property of
  `Object.prototype` (such as `toString`) would yield that property rather than the fallback. The model treats the
  table as a map with only its four keys. The form's select offers only the four listed categories, so such a
  category cannot arise through the form.
- Task times are not checked to be `HH:MM` when added; only non-emptiness is checked (app.js:95). The model keeps
  times as arbitrary strings. `Matching.FiresAtItsTime` shows that a time that is not a valid `HH:MM` string never
  fires.
