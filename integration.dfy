/** How the pieces meet: the records the session state machine sends through
    `to_node` arrive at the node helper as JSON objects, and the front-end
    module announces its configuration with a notification of its own. */
module Integration {
  import opened Channel
  import LoggedUser
  import NodeHelper

  /** The notification name `MMM-Facial-Recognition.js` sends its configuration under. */
  const FrontEndConfigNotification: string := "CONFIG"

  /** A user `login` from Python reaches the front end as one login
      notification for that user whose `distance` is `undefined`: Python
      names the field `confidence`, the helper reads `distance`. */
  lemma LoginArrivesWithoutDistance(login: string, config: Value)
    ensures NodeHelper.OnMessage(ToJson(LoggedUser.LoginRecord(login)), config)
      == NodeHelper.Notify([NodeHelper.Notification("user", JObj(map[
           "action" := JStr(NodeHelper.LoginAction), "user" := JStr(login), "distance" := JUndefined]))])
  {
  }

  /** The unknown identity arrives as a login of user `0`. */
  lemma UnknownLoginArrivesAsUserZero(config: Value)
    ensures NodeHelper.OnMessage(ToJson(LoggedUser.UnknownLoginRecord()), config)
      == NodeHelper.Notify([NodeHelper.Notification("user", JObj(map[
           "action" := JStr(NodeHelper.LoginAction), "user" := JNum(0.0), "distance" := JUndefined]))])
  {
  }

  /** A `logout` from Python reaches the front end as one logout notification
      naming the identity that was logged out. */
  lemma LogoutArrives(u: LoggedUser.Identity, config: Value)
    ensures NodeHelper.OnMessage(ToJson(LoggedUser.LogoutRecord(u)), config)
      == NodeHelper.Notify([NodeHelper.Notification("user", JObj(map[
           "action" := JStr(NodeHelper.LogoutAction), "user" := LoggedUser.IdentityJson(u)]))])
  {
  }

  /** The front end's `CONFIG` notifications, however many, never start
      Python nor set the helper's configuration: the helper listens for
      `FACIAL_RECOGNITION_CONFIG`. */
  lemma {:induction false} FrontEndConfigNeverStartsPython(h: NodeHelper.HelperState, configs: seq<Value>)
    ensures NodeHelper.ReceiveAll(h, seq(|configs|, i requires 0 <= i < |configs| => (FrontEndConfigNotification, configs[i]))) == h
    decreases |configs|
  {
    var received := seq(|configs|, i requires 0 <= i < |configs| => (FrontEndConfigNotification, configs[i]));
    if configs != [] {
      assert received[1..] == seq(|configs[1..]|, i requires 0 <= i < |configs[1..]| => (FrontEndConfigNotification, configs[1..][i]));
      FrontEndConfigNeverStartsPython(h, configs[1..]);
    }
  }
}
