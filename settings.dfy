/** Process settings read from the environment (backend/settings.py):
    connection parameters, the ThingSpeak credentials and switch, and the
    defaults of the four configuration keys. */
module Settings {
  import opened Common
  import opened Text

  /** A Python scalar as the configuration code handles it: values of the
      defaults dictionary are bool, int or float; values read from the
      configuration table are str. */
  datatype Scalar = Flag(b: bool) | Whole(i: int) | Decimal(r: real) | Str(s: string)

  /** The four configuration keys, in the order of the defaults dictionary. */
  datatype ConfigKey = KeyOverspeed | KeyPollInterval | KeyThingspeak | KeyAutoSms

  const ConfigKeyOrder: seq<ConfigKey> := [KeyOverspeed, KeyPollInterval, KeyThingspeak, KeyAutoSms]

  /** The key's name in the configuration table. */
  function KeyName(k: ConfigKey): (r: string)
    ensures |r| == match k
      case KeyOverspeed => 19 case KeyPollInterval => 21 case KeyThingspeak => 18 case KeyAutoSms => 16
  {
    match k
    case KeyOverspeed => "overspeed_threshold"
    case KeyPollInterval => "poll_interval_seconds"
    case KeyThingspeak => "thingspeak_enabled"
    case KeyAutoSms => "auto_sms_enabled"
  }

  /** Distinct keys have distinct names. */
  lemma KeyNamesDistinct()
    ensures forall a, b :: KeyName(a) == KeyName(b) ==> a == b
  {
    forall a, b | KeyName(a) == KeyName(b) ensures a == b {
      assert |KeyName(a)| == |KeyName(b)|;
    }
  }

  datatype Settings = Settings(
    mqttHost: string,
    mqttPort: int,
    mqttUsername: string,
    mqttPassword: string,
    postgresHost: string,
    postgresPort: int,
    postgresDb: string,
    postgresUser: string,
    postgresPassword: string,
    thingspeakChannelId: Option<string>,
    thingspeakMqttApiKey: Option<string>,
    thingspeakEnabledEnv: bool,
    overspeedDefault: real,
    pollIntervalDefault: int)

  /** `_to_bool(value, default)`: an unset variable gives the default, a set
      one is true exactly when it is one of the truthy words. */
  function EnvToBool(value: Option<string>, default: bool): (r: bool)
    ensures value.None? ==> r == default
    ensures value.Some? ==> (r <==> Lower(Strip(value.value)) in TruthyWords)
  {
    match value
    case None => default
    case Some(v) => IsTruthyText(v)
  }

  /** Python truthiness of an optional string: set and non-empty. */
  predicate Present(s: Option<string>) {
    s.Some? && s.value != ""
  }

  function Getenv(env: map<string, string>, name: string, default: string): string {
    if name in env then env[name] else default
  }

  function GetenvOpt(env: map<string, string>, name: string): Option<string> {
    if name in env then Some(env[name]) else None
  }

  /** The Settings() instance built at import time. int() and float() of a
      malformed variable raise, which is None here; float() is the
      parameter parseReal. */
  function Load(env: map<string, string>, parseReal: string -> Option<real>): Option<Settings> {
    var mqttPort := ParseInt(Getenv(env, "MQTT_PORT", "1883"));
    var pgPort := ParseInt(Getenv(env, "POSTGRES_PORT", "5432"));
    var overspeed := parseReal(Getenv(env, "CONFIG_OVERSPEED_THRESHOLD", "70"));
    var poll := ParseInt(Getenv(env, "CONFIG_POLL_INTERVAL_SECONDS", "5"));
    if mqttPort.None? || pgPort.None? || overspeed.None? || poll.None? then None
    else Some(Settings(
      Getenv(env, "MQTT_HOST", "mosquitto"),
      mqttPort.value,
      Getenv(env, "MQTT_USERNAME", "studentbus"),
      Getenv(env, "MQTT_PASSWORD", "studentbus123"),
      Getenv(env, "POSTGRES_HOST", "postgres"),
      pgPort.value,
      Getenv(env, "POSTGRES_DB", "busdb"),
      Getenv(env, "POSTGRES_USER", "bususer"),
      Getenv(env, "POSTGRES_PASSWORD", "buspass"),
      GetenvOpt(env, "THINGSPEAK_CHANNEL_ID"),
      GetenvOpt(env, "THINGSPEAK_MQTT_API_KEY"),
      EnvToBool(GetenvOpt(env, "THINGSPEAK_ENABLED"), false),
      overspeed.value,
      poll.value))
  }

  /** The `thingspeak_enabled` property: the switch and both credentials. */
  predicate ThingspeakEnabled(s: Settings) {
    s.thingspeakEnabledEnv && Present(s.thingspeakChannelId) && Present(s.thingspeakMqttApiKey)
  }

  /** `config_defaults`, assigned in __post_init__: the environment's
      threshold and poll interval, the ThingSpeak property, auto-SMS off. */
  function DefaultOf(s: Settings, k: ConfigKey): Scalar {
    match k
    case KeyOverspeed => Decimal(s.overspeedDefault)
    case KeyPollInterval => Whole(s.pollIntervalDefault)
    case KeyThingspeak => Flag(ThingspeakEnabled(s))
    case KeyAutoSms => Flag(false)
  }

  const DatabaseScheme := "postgresql+psycopg2://"

  /** The `database_url` property. */
  function DatabaseUrl(s: Settings): (r: string)
    ensures |r| == |DatabaseScheme| + |s.postgresUser| + 1 + |s.postgresPassword| + 1
                   + |s.postgresHost| + 1 + |IntToString(s.postgresPort)| + 1 + |s.postgresDb|
    ensures DatabaseScheme <= r
    ensures r[|r| - |s.postgresDb| - 1..] == "/" + s.postgresDb
  {
    DatabaseScheme + s.postgresUser + ":" + s.postgresPassword
      + "@" + s.postgresHost + ":" + IntToString(s.postgresPort) + "/" + s.postgresDb
  }

  /** A variable that is set is what the settings hold: strings as given,
      numbers as int() or float() read them. */
  lemma SetVariablesOverride(env: map<string, string>, parseReal: string -> Option<real>)
    requires Load(env, parseReal).Some?
    ensures var s := Load(env, parseReal).value;
      && ("MQTT_HOST" in env ==> s.mqttHost == env["MQTT_HOST"])
      && ("MQTT_PORT" in env ==> ParseInt(env["MQTT_PORT"]) == Some(s.mqttPort))
      && ("MQTT_USERNAME" in env ==> s.mqttUsername == env["MQTT_USERNAME"])
      && ("MQTT_PASSWORD" in env ==> s.mqttPassword == env["MQTT_PASSWORD"])
      && ("POSTGRES_HOST" in env ==> s.postgresHost == env["POSTGRES_HOST"])
      && ("POSTGRES_PORT" in env ==> ParseInt(env["POSTGRES_PORT"]) == Some(s.postgresPort))
      && ("POSTGRES_DB" in env ==> s.postgresDb == env["POSTGRES_DB"])
      && ("POSTGRES_USER" in env ==> s.postgresUser == env["POSTGRES_USER"])
      && ("POSTGRES_PASSWORD" in env ==> s.postgresPassword == env["POSTGRES_PASSWORD"])
      && ("THINGSPEAK_CHANNEL_ID" in env ==> s.thingspeakChannelId == Some(env["THINGSPEAK_CHANNEL_ID"]))
      && ("THINGSPEAK_MQTT_API_KEY" in env ==> s.thingspeakMqttApiKey == Some(env["THINGSPEAK_MQTT_API_KEY"]))
      && ("THINGSPEAK_ENABLED" in env ==> (s.thingspeakEnabledEnv <==> IsTruthyText(env["THINGSPEAK_ENABLED"])))
      && ("CONFIG_OVERSPEED_THRESHOLD" in env ==> parseReal(env["CONFIG_OVERSPEED_THRESHOLD"]) == Some(s.overspeedDefault))
      && ("CONFIG_POLL_INTERVAL_SECONDS" in env ==> ParseInt(env["CONFIG_POLL_INTERVAL_SECONDS"]) == Some(s.pollIntervalDefault))
  {
  }

  /** A variable that is not set leaves its default. */
  lemma UnsetVariablesDefault(env: map<string, string>, parseReal: string -> Option<real>)
    requires parseReal("70") == Some(70.0)
    requires Load(env, parseReal).Some?
    ensures var s := Load(env, parseReal).value;
      && ("MQTT_HOST" !in env ==> s.mqttHost == "mosquitto")
      && ("MQTT_PORT" !in env ==> s.mqttPort == 1883)
      && ("MQTT_USERNAME" !in env ==> s.mqttUsername == "studentbus")
      && ("MQTT_PASSWORD" !in env ==> s.mqttPassword == "studentbus123")
      && ("POSTGRES_HOST" !in env ==> s.postgresHost == "postgres")
      && ("POSTGRES_PORT" !in env ==> s.postgresPort == 5432)
      && ("POSTGRES_DB" !in env ==> s.postgresDb == "busdb")
      && ("POSTGRES_USER" !in env ==> s.postgresUser == "bususer")
      && ("POSTGRES_PASSWORD" !in env ==> s.postgresPassword == "buspass")
      && ("THINGSPEAK_CHANNEL_ID" !in env ==> s.thingspeakChannelId.None?)
      && ("THINGSPEAK_MQTT_API_KEY" !in env ==> s.thingspeakMqttApiKey.None?)
      && ("THINGSPEAK_ENABLED" !in env ==> !s.thingspeakEnabledEnv)
      && ("CONFIG_OVERSPEED_THRESHOLD" !in env ==> s.overspeedDefault == 70.0)
      && ("CONFIG_POLL_INTERVAL_SECONDS" !in env ==> s.pollIntervalDefault == 5)
  {
    MqttPortParses();
    PostgresPortParses();
    PollDefaultParses();
  }

  /** Building the settings raises exactly when a numeric variable is set to
      text that int() or float() refuses; the defaults themselves parse. */
  lemma LoadFailsExactly(env: map<string, string>, parseReal: string -> Option<real>)
    requires parseReal("70").Some?
    ensures Load(env, parseReal).None? <==>
      || ("MQTT_PORT" in env && ParseInt(env["MQTT_PORT"]).None?)
      || ("POSTGRES_PORT" in env && ParseInt(env["POSTGRES_PORT"]).None?)
      || ("CONFIG_OVERSPEED_THRESHOLD" in env && parseReal(env["CONFIG_OVERSPEED_THRESHOLD"]).None?)
      || ("CONFIG_POLL_INTERVAL_SECONDS" in env && ParseInt(env["CONFIG_POLL_INTERVAL_SECONDS"]).None?)
  {
    MqttPortParses();
    PostgresPortParses();
    PollDefaultParses();
  }

  /** ThingSpeak forwarding is on exactly when THINGSPEAK_ENABLED is set to
      a truthy word and both credentials are set and non-empty. */
  lemma ThingspeakFromEnvironment(env: map<string, string>, parseReal: string -> Option<real>)
    requires Load(env, parseReal).Some?
    ensures ThingspeakEnabled(Load(env, parseReal).value) <==>
      && "THINGSPEAK_ENABLED" in env && IsTruthyText(env["THINGSPEAK_ENABLED"])
      && "THINGSPEAK_CHANNEL_ID" in env && env["THINGSPEAK_CHANNEL_ID"] != ""
      && "THINGSPEAK_MQTT_API_KEY" in env && env["THINGSPEAK_MQTT_API_KEY"] != ""
  {
  }

  /** With no environment variables set, the settings hold the documented
      defaults (numbers read back through int()) and ThingSpeak is off. */
  lemma LoadDefaults(parseReal: string -> Option<real>)
    requires parseReal("70") == Some(70.0)
    ensures Load(map[], parseReal) == Some(Settings(
      "mosquitto", 1883, "studentbus", "studentbus123",
      "postgres", 5432, "busdb", "bususer", "buspass",
      None, None, false, 70.0, 5))
    ensures !ThingspeakEnabled(Load(map[], parseReal).value)
  {
    LoadFailsExactly(map[], parseReal);
    UnsetVariablesDefault(map[], parseReal);
  }

  lemma MqttPortParses()
    ensures ParseInt("1883") == Some(1883)
  {
    assert NatToString(1883) == "1883" by {
      assert NatToString(1) == "1";
      assert NatToString(18) == "18";
      assert NatToString(188) == "188";
    }
    ParseIntRoundTrip(1883);
  }

  lemma PostgresPortParses()
    ensures ParseInt("5432") == Some(5432)
  {
    assert NatToString(5432) == "5432" by {
      assert NatToString(5) == "5";
      assert NatToString(54) == "54";
      assert NatToString(543) == "543";
    }
    ParseIntRoundTrip(5432);
  }

  lemma PollDefaultParses()
    ensures ParseInt("5") == Some(5)
  {
    ParseIntRoundTrip(5);
  }
}
