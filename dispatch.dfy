/**
 * What a tick does for each dispatched task: a notification whose title is
 * the task's name and whose body comes from the per-category message table
 * (only when the browser reports notification permission as granted), then
 * an alarm tone. Both effects are recorded as log entries.
 */
module Dispatch {
  import opened TaskList

  /** The three values of the browser's notification permission. */
  datatype Permission = Default | Granted | Denied

  /** The host's notification capability: absent, or present with its current permission. */
  datatype NotificationApi = Unsupported | Supported(permission: Permission)

  /** showNotification's guard: the capability exists and its permission is "granted". */
  predicate CanNotify(api: NotificationApi)
  {
    api == Supported(Granted)
  }

  /** The per-category message table. */
  const Messages: map<string, string> := map[
    "food" := "🍽️ Khane ka time ho gaya hai!",
    "sleep" := "😴 Sone ka time ho gaya hai!",
    "prayer" := "🕌 Namaz ka time ho gaya hai!",
    "custom" := "⏰ Reminder!"
  ]

  /** The body used for a category the table does not list. */
  const Fallback: string := "Time reminder"

  /**
   * `messages[task.type] || 'Time reminder'`: the table's phrase for a listed
   * category (the `||` would also skip an empty phrase; the table has none).
   */
  function Body(kind: string): (r: string)
    ensures r != ""
    ensures kind in Messages ==> r == Messages[kind]
    ensures r == Fallback <==> kind !in Messages
  {
    if kind in Messages && Messages[kind] != "" then Messages[kind] else Fallback
  }

  /** One entry of the dispatch log. */
  datatype Alert = Notification(title: string, body: string) | Alarm

  /** The effects of dispatching one task: the notification when permitted, then the alarm. */
  function AlertsFor(t: Task, api: NotificationApi): seq<Alert>
  {
    (if CanNotify(api) then [Notification(t.name, Body(t.kind))] else []) + [Alarm]
  }

  /** The effects of dispatching a sequence of tasks, one task after another. */
  function Alerts(fired: seq<Task>, api: NotificationApi): seq<Alert>
  {
    if fired == [] then [] else AlertsFor(fired[0], api) + Alerts(fired[1..], api)
  }

  /** Dispatching two runs of tasks logs the first run's effects, then the second's. */
  lemma {:induction false} AlertsAppend(a: seq<Task>, b: seq<Task>, api: NotificationApi)
    ensures Alerts(a + b, api) == Alerts(a, api) + Alerts(b, api)
  {
    if a != [] {
      AlertsAppend(a[1..], b, api);
      assert (a + b)[1..] == a[1..] + b;
    } else {
      assert a + b == b;
    }
  }

  /**
   * With permission granted, every dispatched task logs exactly one
   * notification (its name, its category's message) followed by one alarm,
   * in dispatch order.
   */
  lemma {:induction false} AlertsGranted(fired: seq<Task>, api: NotificationApi)
    requires CanNotify(api)
    ensures |Alerts(fired, api)| == 2 * |fired|
    ensures forall i :: 0 <= i < |fired| ==>
      Alerts(fired, api)[2 * i] == Notification(fired[i].name, Body(fired[i].kind)) &&
      Alerts(fired, api)[2 * i + 1] == Alarm
  {
    if fired != [] {
      AlertsGranted(fired[1..], api);
      var rest := Alerts(fired[1..], api);
      var r := Alerts(fired, api);
      assert r == [Notification(fired[0].name, Body(fired[0].kind)), Alarm] + rest;
      forall i | 1 <= i < |fired|
        ensures r[2 * i] == Notification(fired[i].name, Body(fired[i].kind)) && r[2 * i + 1] == Alarm
      {
        assert r[2 * i] == rest[2 * (i - 1)] && r[2 * i + 1] == rest[2 * (i - 1) + 1];
        assert fired[1..][i - 1] == fired[i];
      }
    }
  }

  /** Without permission (or without the capability), a dispatched task logs only its alarm. */
  lemma {:induction false} AlertsSilent(fired: seq<Task>, api: NotificationApi)
    requires !CanNotify(api)
    ensures Alerts(fired, api) == seq(|fired|, _ => Alarm)
  {
    if fired != [] {
      AlertsSilent(fired[1..], api);
    }
  }
}
