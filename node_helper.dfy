/** The MagicMirror node helper: it starts the Python recogniser once, when
    the front end sends its configuration, and forwards the recogniser's
    messages to the front end as socket notifications. Spawning the process
    and the socket transport are modelled by what they are given:
    `pythonLaunches` holds the configuration each launch is passed,
    `notifications` every notification sent. */
module NodeHelper {
  import opened Channel

  const ConfigNotification: string := "FACIAL_RECOGNITION_CONFIG"
  const LoginAction: string := "FACIAL_RECOGNITION_LOGIN"
  const LogoutAction: string := "FACIAL_RECOGNITION_LOGOUT"
  const MatchResultsAction: string := "FACIAL_MATCH_RESULTS"

  datatype Notification = Notification(name: string, payload: Value)

  /** What handling one message does: the notifications it sends, or a
      `TypeError` thrown by reading a property of `null` or `undefined`. */
  datatype Reaction = Notify(sent: seq<Notification>) | Threw

  predicate Nullish(v: Value)
  {
    v.JUndefined? || v.JNull?
  }

  /** JavaScript's truthiness (NaN is not among the modelled numbers). */
  predicate Truthy(v: Value)
  {
    match v
    case JUndefined => false
    case JNull => false
    case JBool(b) => b
    case JNum(n) => n != 0.0
    case JStr(s) => s != ""
    case JArr(_) => true
    case JObj(_) => true
  }

  /** `v[key]` on a value that is not `null` or `undefined`, for the keys the
      helper reads (none of which an object inherits from its prototype). */
  function Get(v: Value, key: string): Value
    requires !Nullish(v)
  {
    match v
    case JObj(fields) => if key in fields then fields[key] else JUndefined
    case JStr(s) => if key == "length" then JNum(|s| as real) else JUndefined
    case JArr(items) => if key == "length" then JNum(|items| as real) else JUndefined
    case _ => JUndefined
  }

  function UserNotification(fields: map<string, Value>): seq<Notification>
  {
    [Notification("user", JObj(fields))]
  }

  /** The `pyShell.on("message")` handler: what one message from Python
      leads to, given the helper's current `config`. */
  function OnMessage(payload: Value, config: Value): Reaction
  {
    if Nullish(payload) then Threw
    else
      var messageType := Get(payload, "messageType");
      if !Truthy(messageType) then Notify([])
      else if messageType == JStr("log") then Notify([])
      else if messageType == JStr("login") then
        var message := Get(payload, "message");
        if Nullish(message) then Threw
        else Notify(UserNotification(map["action" := JStr(LoginAction),
                                         "user" := Get(message, "user"),
                                         "distance" := Get(message, "distance")]))
      else if messageType == JStr("logout") then
        var message := Get(payload, "message");
        if Nullish(message) then Threw
        else Notify(UserNotification(map["action" := JStr(LogoutAction), "user" := Get(message, "user")]))
      else if messageType == JStr("matchResults") then
        if Nullish(config) then Threw
        else if !Truthy(Get(config, "debug")) then Notify([])
        else
          var message := Get(payload, "message");
          if Nullish(message) then Threw
          else
            var matchedFaces := Get(message, "matchedFaces");
            // the debug log reads `matchedFaces.length` before notifying
            if Nullish(matchedFaces) then Threw
            else Notify(UserNotification(map["action" := JStr(MatchResultsAction), "matchedFaces" := matchedFaces]))
      else Notify([])
  }

  /** The helper's state: `this.config`, the module-level `pythonStarted`
      flag, and the configuration each Python launch was given. */
  datatype HelperState = HelperState(config: Value, pythonStarted: bool, pythonLaunches: seq<Value>)

  /** `socketNotificationReceived(notification, payload)`. */
  function Receive(h: HelperState, notification: string, payload: Value): HelperState
  {
    if notification == ConfigNotification then
      if !h.pythonStarted then HelperState(payload, true, h.pythonLaunches + [payload])
      else h.(config := payload)
    else h
  }

  class Helper {
    var config: Value
    var pythonStarted: bool
    var pythonLaunches: seq<Value>
    var notifications: seq<Notification>

    function State(): HelperState
      reads this
    {
      HelperState(config, pythonStarted, pythonLaunches)
    }

    constructor ()
      ensures State() == HelperState(JUndefined, false, []) && notifications == []
    {
      config := JUndefined;
      pythonStarted := false;
      pythonLaunches := [];
      notifications := [];
    }

    /** `python_start`: launches the recogniser with the current configuration. */
    method PythonStart()
      modifies this`pythonLaunches
      ensures pythonLaunches == old(pythonLaunches) + [config]
    {
      pythonLaunches := pythonLaunches + [config];
    }

    method SocketNotificationReceived(notification: string, payload: Value)
      modifies this
      ensures State() == Receive(old(State()), notification, payload)
      ensures notifications == old(notifications)
    {
      if notification == ConfigNotification {
        config := payload;
        if !pythonStarted {
          pythonStarted := true;
          PythonStart();
        }
      }
    }

    /** One message from Python; the handler exists only once Python started.
        Returns whether the handler threw. */
    method OnPythonMessage(payload: Value) returns (threw: bool)
      requires pythonStarted
      modifies this`notifications
      ensures threw <==> OnMessage(payload, config).Threw?
      ensures notifications == old(notifications) + (if threw then [] else OnMessage(payload, config).sent)
    {
      match OnMessage(payload, config)
      case Threw =>
        threw := true;
      case Notify(sent) =>
        notifications := notifications + sent;
        threw := false;
    }
  }

  /** A `login` message sends exactly one `user` notification with the login
      action and the message's `user` and `distance`. */
  lemma LoginNotifiesOnce(message: map<string, Value>, config: Value)
    ensures OnMessage(JObj(map["messageType" := JStr("login"), "message" := JObj(message)]), config)
      == Notify([Notification("user", JObj(map["action" := JStr(LoginAction),
                                                "user" := Get(JObj(message), "user"),
                                                "distance" := Get(JObj(message), "distance")]))])
  {
  }

  /** A `logout` message sends exactly one `user` notification with the
      logout action and the message's `user`. */
  lemma LogoutNotifiesOnce(message: map<string, Value>, config: Value)
    ensures OnMessage(JObj(map["messageType" := JStr("logout"), "message" := JObj(message)]), config)
      == Notify([Notification("user", JObj(map["action" := JStr(LogoutAction), "user" := Get(JObj(message), "user")]))])
  {
  }

  /** Whatever arrives, at most one notification is sent, always named
      `user`; it is sent only for `login`, `logout`, or `matchResults` with
      `config.debug` truthy; `log`, unknown types and payloads without a
      `messageType` send nothing. */
  lemma NotifiesOnlyForUserEvents(payload: Value, config: Value)
    requires OnMessage(payload, config).Notify?
    ensures var sent := OnMessage(payload, config).sent;
      |sent| <= 1 && (forall n :: n in sent ==> n.name == "user")
    ensures OnMessage(payload, config).sent != [] ==>
      && !Nullish(payload)
      && var messageType := Get(payload, "messageType");
         (messageType == JStr("login") || messageType == JStr("logout")
          || (messageType == JStr("matchResults") && !Nullish(config) && Truthy(Get(config, "debug"))))
  {
  }

  /** A `matchResults` message is forwarded exactly when `config.debug` is
      truthy (and the message carries its list). */
  lemma MatchResultsNeedDebug(matchedFaces: Value, config: map<string, Value>)
    requires !Nullish(matchedFaces)
    ensures var r := OnMessage(JObj(map["messageType" := JStr("matchResults"),
                                        "message" := JObj(map["matchedFaces" := matchedFaces])]), JObj(config));
      r.Notify? && (r.sent != [] <==> Truthy(Get(JObj(config), "debug")))
  {
  }

  /** Notifications received in order. */
  function ReceiveAll(h: HelperState, received: seq<(string, Value)>): HelperState
    decreases |received|
  {
    if received == [] then h
    else ReceiveAll(Receive(h, received[0].0, received[0].1), received[1..])
  }

  /** The latch: Python has been launched once exactly when `pythonStarted`. */
  predicate LatchHolds(h: HelperState)
  {
    |h.pythonLaunches| == if h.pythonStarted then 1 else 0
  }

  /** However many notifications arrive, Python is launched at most once. */
  lemma {:induction false} PythonStartsAtMostOnce(h: HelperState, received: seq<(string, Value)>)
    requires LatchHolds(h)
    ensures LatchHolds(ReceiveAll(h, received))
    ensures |ReceiveAll(h, received).pythonLaunches| <= 1
    ensures h.pythonStarted ==> ReceiveAll(h, received).pythonLaunches == h.pythonLaunches
    decreases |received|
  {
    if received != [] {
      PythonStartsAtMostOnce(Receive(h, received[0].0, received[0].1), received[1..]);
    }
  }

  /** Before Python has started, the first `FACIAL_RECOGNITION_CONFIG` launches
      it with that notification's configuration, and no later notification
      launches it again. */
  lemma FirstConfigIsTheOneLaunched(h: HelperState, payload: Value, rest: seq<(string, Value)>)
    requires LatchHolds(h) && !h.pythonStarted
    ensures ReceiveAll(h, [(ConfigNotification, payload)] + rest).pythonLaunches == [payload]
  {
    assert ([(ConfigNotification, payload)] + rest)[1..] == rest;
    PythonStartsAtMostOnce(Receive(h, ConfigNotification, payload), rest);
  }

  /** Every `FACIAL_RECOGNITION_CONFIG` replaces `config`, even after Python
      started; any other notification changes nothing. */
  lemma ConfigAlwaysReplaced(h: HelperState, notification: string, payload: Value)
    ensures notification == ConfigNotification ==> Receive(h, notification, payload).config == payload
    ensures notification == ConfigNotification ==> Receive(h, notification, payload).pythonStarted
    ensures notification != ConfigNotification ==> Receive(h, notification, payload) == h
  {
  }
}
