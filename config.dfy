/** `MMConfig`: the host's configuration, parsed once from the command line,
    read through getters that fall back to a default and announce a missing
    key on the output channel, and `to_node`, which prints one record per
    line for the host. Printing is modelled as appending to `out`. */
module Config {
  import opened Channel

  const ThresholdAttr: string := "threshold"
  const UseUsbCamAttr: string := "useUSBCam"
  const TrainingFileAttr: string := "trainingFile"
  const IntervalAttr: string := "interval"
  const LogoutDelayAttr: string := "logoutDelay"
  const UsersAttr: string := "users"
  const DefaultClassAttr: string := "defaultClass"
  const EveryoneClassAttr: string := "everyoneClass"
  const WelcomeMessageAttr: string := "welcomeMessage"
  const MotionStopDelay: string := "motionStopDelay"
  const MotionDetectionThreshold: string := "motionDetectionThreshold"

  const MissingKeyPrefix: string := "Could not find key \""
  const MissingKeySuffix: string := "\" in config"

  /** The `status` text `_get` prints for a missing key. */
  function MissingKeyMessage(key: string): string
  {
    MissingKeyPrefix + key + MissingKeySuffix
  }

  /** The key a missing-key message names, if it is one. */
  function KeyInMessage(message: string): Option<string>
  {
    if |MissingKeyPrefix| + |MissingKeySuffix| <= |message|
       && message[..|MissingKeyPrefix|] == MissingKeyPrefix
       && message[|message| - |MissingKeySuffix|..] == MissingKeySuffix
    then Some(message[|MissingKeyPrefix|..|message| - |MissingKeySuffix|])
    else None
  }

  /** The missing-key message names exactly the key that was asked for. */
  lemma MissingKeyMessageNamesKey(key: string)
    ensures KeyInMessage(MissingKeyMessage(key)) == Some(key)
  {
    var m := MissingKeyMessage(key);
    assert m[..|MissingKeyPrefix|] == MissingKeyPrefix;
    assert m[|m| - |MissingKeySuffix|..] == MissingKeySuffix;
    assert m[|MissingKeyPrefix|..|m| - |MissingKeySuffix|] == key;
  }

  class MMConfig {
    /** `CONFIG_DATA`: the JSON object given as the first argument. */
    const configData: map<string, Value>
    /** Every record `to_node` has printed, oldest first. */
    var out: seq<Record>

    constructor (configData: map<string, Value>)
      ensures this.configData == configData && out == []
    {
      this.configData := configData;
      out := [];
    }

    /** What `_get(key, default)` returns. */
    function Setting(key: string, defaultValue: Value): Value
    {
      if key in configData then configData[key] else defaultValue
    }

    /** What `_get(key, ...)` prints. */
    function Complaint(key: string): seq<Record>
    {
      if key in configData then [] else [Record("status", JStr(MissingKeyMessage(key)))]
    }

    method ToNode(messageType: string, message: Value)
      modifies this`out
      ensures out == old(out) + [Record(messageType, message)]
    {
      out := out + [Record(messageType, message)];
    }

    /** `_get`: the configured value, or the default with exactly one
        `status` record naming the missing key. The configuration is never
        changed (it is a constant). */
    method Get(key: string, defaultValue: Value) returns (v: Value)
      modifies this`out
      ensures key in configData ==> v == configData[key] && out == old(out)
      ensures key !in configData ==>
        v == defaultValue && out == old(out) + [Record("status", JStr(MissingKeyMessage(key)))]
    {
      if key in configData {
        return configData[key];
      } else {
        ToNode("status", JStr(MissingKeyMessage(key)));
        return defaultValue;
      }
    }

    method GetTrainingFile() returns (v: Value)
      modifies this`out
      ensures v == Setting(TrainingFileAttr, JNull) && out == old(out) + Complaint(TrainingFileAttr)
    {
      v := Get(TrainingFileAttr, JNull);
    }

    /** The only getter with a default other than `None`: 1 second. */
    method GetInterval() returns (v: Value)
      modifies this`out
      ensures v == Setting(IntervalAttr, JNum(1.0)) && out == old(out) + Complaint(IntervalAttr)
    {
      v := Get(IntervalAttr, JNum(1.0));
    }

    method GetLogoutDelay() returns (v: Value)
      modifies this`out
      ensures v == Setting(LogoutDelayAttr, JNull) && out == old(out) + Complaint(LogoutDelayAttr)
    {
      v := Get(LogoutDelayAttr, JNull);
    }

    method GetUsers() returns (v: Value)
      modifies this`out
      ensures v == Setting(UsersAttr, JNull) && out == old(out) + Complaint(UsersAttr)
    {
      v := Get(UsersAttr, JNull);
    }

    method GetDefaultClass() returns (v: Value)
      modifies this`out
      ensures v == Setting(DefaultClassAttr, JNull) && out == old(out) + Complaint(DefaultClassAttr)
    {
      v := Get(DefaultClassAttr, JNull);
    }

    method GetEveryoneClass() returns (v: Value)
      modifies this`out
      ensures v == Setting(EveryoneClassAttr, JNull) && out == old(out) + Complaint(EveryoneClassAttr)
    {
      v := Get(EveryoneClassAttr, JNull);
    }

    method GetWelcomeMessage() returns (v: Value)
      modifies this`out
      ensures v == Setting(WelcomeMessageAttr, JNull) && out == old(out) + Complaint(WelcomeMessageAttr)
    {
      v := Get(WelcomeMessageAttr, JNull);
    }

    method GetUseUsbCam() returns (v: Value)
      modifies this`out
      ensures v == Setting(UseUsbCamAttr, JNull) && out == old(out) + Complaint(UseUsbCamAttr)
    {
      v := Get(UseUsbCamAttr, JNull);
    }

    method GetThreshold() returns (v: Value)
      modifies this`out
      ensures v == Setting(ThresholdAttr, JNull) && out == old(out) + Complaint(ThresholdAttr)
    {
      v := Get(ThresholdAttr, JNull);
    }

    method GetMotionStopDelay() returns (v: Value)
      modifies this`out
      ensures v == Setting(MotionStopDelay, JNull) && out == old(out) + Complaint(MotionStopDelay)
    {
      v := Get(MotionStopDelay, JNull);
    }

    method GetMotionDetectionThreshold() returns (v: Value)
      modifies this`out
      ensures v == Setting(MotionDetectionThreshold, JNull) && out == old(out) + Complaint(MotionDetectionThreshold)
    {
      v := Get(MotionDetectionThreshold, JNull);
    }
  }
}
