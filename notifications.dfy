/** The icon chosen for a notification (js/main.js, `getNotificationIcon`). */
module Notifications {
  /** The icon table, keyed by notification type. */
  const Icons: map<string, string> := map[
    "success" := "check-circle",
    "error" := "exclamation-circle",
    "warning" := "exclamation-triangle",
    "info" := "info-circle"
  ]

  /** The icon for `kind`, falling back to the `info` icon for a type the
      table does not know. */
  function NotificationIcon(kind: string): (icon: string)
    ensures icon in Icons.Values
  {
    if kind in Icons then Icons[kind] else Icons["info"]
  }

  /** The four known types get four different icons, and every other type
      shares the `info` icon. */
  lemma NotificationIconTable(kind: string)
    ensures kind == "success" ==> NotificationIcon(kind) == "check-circle"
    ensures kind == "error" ==> NotificationIcon(kind) == "exclamation-circle"
    ensures kind == "warning" ==> NotificationIcon(kind) == "exclamation-triangle"
    ensures NotificationIcon(kind) == "info-circle" <==>
      kind != "success" && kind != "error" && kind != "warning"
  {
  }
}
