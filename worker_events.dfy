/** The small event dispatchers of public/sw.js: the SKIP_WAITING message, the
    push-to-notification builder and notification-click routing. Browser calls
    (`skipWaiting`, `showNotification`, `notification.close`,
    `clients.openWindow`) are returned as effects instead of performed. */
module WorkerEvents {
  import opened Common

  datatype Action = Action(action: string, title: string)

  datatype NotificationOptions = NotificationOptions(
    body: string,
    icon: string,
    badge: string,
    vibrate: seq<int>,
    dateOfArrival: int,
    primaryKey: int,
    actions: seq<Action>)

  datatype Effect =
    | SkipWaiting
    | ShowNotification(title: string, options: NotificationOptions)
    | CloseNotification
    | OpenWindow(url: string)

  /** A message's data; `None` stands for a falsy `event.data`. */
  datatype MessageData = MessageData(kind: Option<string>)

  /** A push payload after `data.json()`: `title` and `body` as present in it. */
  datatype PushData = PushData(title: Option<string>, body: Option<string>)

  const DefaultTitle := "资料收集"
  const DefaultBody := "你有新的资料需要整理"

  /** The message handler: only a message of type SKIP_WAITING has an effect. */
  function OnMessage(data: Option<MessageData>): (effects: seq<Effect>)
    ensures effects == [SkipWaiting] <==> data == Some(MessageData(Some("SKIP_WAITING")))
    ensures effects != [SkipWaiting] ==> effects == []
  {
    if data.Some? && data.value.kind == Some("SKIP_WAITING") then [SkipWaiting] else []
  }

  /** JavaScript's `v || fallback` for a string field: an absent or empty
      string yields the fallback. */
  function OrDefault(v: Option<string>, fallback: string): (r: string)
    ensures v.Some? && v.value != "" ==> r == v.value
    ensures v.None? || v.value == "" ==> r == fallback
  {
    if v.Some? && v.value != "" then v.value else fallback
  }

  /** The push handler. Without a payload nothing is shown; otherwise one
      notification whose title and body come from the payload or the defaults,
      with the fixed icon, badge, vibration pattern and the two actions
      `view` and `close`. `now` is `Date.now()`. */
  function OnPush(payload: Option<PushData>, now: int): (effects: seq<Effect>)
    ensures payload.None? <==> effects == []
    ensures payload.Some? ==> |effects| == 1 && effects[0].ShowNotification?
    ensures payload.Some? ==>
              var n := effects[0];
              && n.title != "" && n.options.body != ""
              && (payload.value.title.Some? && payload.value.title.value != "" ==> n.title == payload.value.title.value)
              && (payload.value.title.None? || payload.value.title.value == "" ==> n.title == DefaultTitle)
              && (payload.value.body.Some? && payload.value.body.value != "" ==> n.options.body == payload.value.body.value)
              && (payload.value.body.None? || payload.value.body.value == "" ==> n.options.body == DefaultBody)
              && n.options.dateOfArrival == now
              && |n.options.actions| == 2
              && n.options.actions[0].action == "view" && n.options.actions[1].action == "close"
  {
    match payload
    case None => []
    case Some(data) =>
      var options := NotificationOptions(
        OrDefault(data.body, DefaultBody),
        "/icons/icon-192.png",
        "/icons/icon-72.png",
        [100, 50, 100],
        now,
        1,
        [Action("view", "查看"), Action("close", "关闭")]);
      [ShowNotification(OrDefault(data.title, DefaultTitle), options)]
  }

  /** The notificationclick handler: the notification is always closed, and
      the root page is opened only for the `view` action. */
  function OnNotificationClick(action: string): (effects: seq<Effect>)
    ensures |effects| >= 1 && effects[0] == CloseNotification
    ensures OpenWindow("/") in effects <==> action == "view"
    ensures action == "view" ==> effects == [CloseNotification, OpenWindow("/")]
    ensures action != "view" ==> effects == [CloseNotification]
  {
    [CloseNotification] + (if action == "view" then [OpenWindow("/")] else [])
  }
}
