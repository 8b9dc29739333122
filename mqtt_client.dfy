/** Telemetry ingestion (backend/mqtt_client.py): the alert rule applied to
    each decoded sample, the automatic driver SMS, the alert publications and
    the ThingSpeak forwarding. The brokers are an outbox of publications; JSON
    decoding of the payload has already happened (None is a payload that
    failed to decode or validate). */
module MqttClient {
  import opened Common
  import opened Text
  import opened Records
  import opened Schemas
  import opened Settings
  import opened Crud
  import ConfigManager
  import opened MessageService

  const TelemetryTopic := "school/bus/+/telemetry"
  const AlertTopicPrefix := "school/bus/"
  const AlertTopicSuffix := "/alerts"
  const DoorOpenSpeedThreshold: real := 5.0
  const OverspeedKind := "overspeed"
  const DoorKind := "door_open_while_moving"
  const ThingSpeakHost := "mqtt.thingspeak.com"
  const ThingSpeakPort := 1883
  const ClientIdPrefix := "backend-subscriber-"

  /** `ALERT_TOPIC_TEMPLATE.format(bus_id=...)`: the bus id sits between a
      fixed prefix and suffix, so the topic names its bus. */
  function AlertTopic(busId: string): (r: string)
    ensures AlertTopicPrefix <= r
    ensures |r| == |AlertTopicPrefix| + |busId| + |AlertTopicSuffix|
    ensures r[|AlertTopicPrefix|..|r| - |AlertTopicSuffix|] == busId
  {
    AlertTopicPrefix + busId + AlertTopicSuffix
  }

  /** Different buses publish their alerts on different topics. */
  lemma AlertTopicInjective(a: string, b: string)
    requires AlertTopic(a) == AlertTopic(b)
    ensures a == b
  {
    assert a == AlertTopic(a)[|AlertTopicPrefix|..|AlertTopic(a)| - |AlertTopicSuffix|];
  }

  /** An alert before it is stored: its type, the measured value, the limit
      it broke and its text. */
  datatype AlertDraft = AlertDraft(kind: string, value: real, threshold: real, message: string)

  function OverspeedDraft(speed: real, threshold: real, fixed1: real -> string): AlertDraft {
    AlertDraft(OverspeedKind, speed, threshold,
               "Overspeed detected: " + fixed1(speed) + " km/h > " + fixed1(threshold))
  }

  function DoorDraft(speed: real, fixed1: real -> string): AlertDraft {
    AlertDraft(DoorKind, speed, DoorOpenSpeedThreshold,
               "Door open while moving: door is open and speed is " + fixed1(speed) + " km/h > "
               + fixed1(DoorOpenSpeedThreshold))
  }

  /** The alert rule of on_message. It looks at the one sample and the
      configured threshold only: overspeed when the speed is strictly above
      the threshold, door-open-while-moving when the door is open and the
      speed is strictly above 5 km/h, overspeed first. */
  function Decide(speed: real, doorOpen: bool, threshold: real, fixed1: real -> string): (r: seq<AlertDraft>)
    ensures |r| == (if speed > threshold then 1 else 0) + (if doorOpen && speed > DoorOpenSpeedThreshold then 1 else 0)
    ensures (exists d :: d in r && d.kind == OverspeedKind) <==> speed > threshold
    ensures (exists d :: d in r && d.kind == DoorKind) <==> doorOpen && speed > DoorOpenSpeedThreshold
    ensures speed > threshold ==> r[0] == OverspeedDraft(speed, threshold, fixed1)
    ensures doorOpen && speed > DoorOpenSpeedThreshold ==> r[|r| - 1] == DoorDraft(speed, fixed1)
    ensures forall d :: d in r ==> d.value == speed
  {
    (if speed > threshold then [OverspeedDraft(speed, threshold, fixed1)] else [])
    + (if doorOpen && speed > DoorOpenSpeedThreshold then [DoorDraft(speed, fixed1)] else [])
  }

  /** How many alerts a sample raises under a threshold. */
  function Violations(t: TelemetryIn, threshold: real): nat {
    (if t.speedKmh > threshold then 1 else 0) + (if t.doorOpen && t.speedKmh > DoorOpenSpeedThreshold then 1 else 0)
  }

  /** The alerts a run of samples raises under one configuration, in order. */
  function StreamAlerts(samples: seq<TelemetryIn>, threshold: real, fixed1: real -> string): seq<AlertDraft>
  {
    if samples == [] then []
    else
      var last := samples[|samples| - 1];
      StreamAlerts(samples[..|samples| - 1], threshold, fixed1) + Decide(last.speedKmh, last.doorOpen, threshold, fixed1)
  }

  function TotalViolations(samples: seq<TelemetryIn>, threshold: real): nat {
    if samples == [] then 0
    else TotalViolations(samples[..|samples| - 1], threshold) + Violations(samples[|samples| - 1], threshold)
  }

  /** The rule is level-triggered: nothing is remembered between samples, so
      every violating sample of a run raises its alerts again. */
  lemma {:induction false} LevelTriggered(samples: seq<TelemetryIn>, threshold: real, fixed1: real -> string)
    ensures |StreamAlerts(samples, threshold, fixed1)| == TotalViolations(samples, threshold)
  {
    if samples != [] {
      LevelTriggered(samples[..|samples| - 1], threshold, fixed1);
    }
  }

  /** A bus that stays over the limit for two samples gets two overspeed
      alerts, one per sample. */
  lemma RepeatedOverspeed(t: TelemetryIn, u: TelemetryIn, threshold: real, fixed1: real -> string)
    requires t.speedKmh > threshold && u.speedKmh > threshold
    ensures var r := StreamAlerts([t, u], threshold, fixed1);
      var first := |Decide(t.speedKmh, t.doorOpen, threshold, fixed1)|;
      && 2 <= |r| == first + |Decide(u.speedKmh, u.doorOpen, threshold, fixed1)|
      && r[0] == OverspeedDraft(t.speedKmh, threshold, fixed1)
      && r[first] == OverspeedDraft(u.speedKmh, threshold, fixed1)
  {
    var dt := Decide(t.speedKmh, t.doorOpen, threshold, fixed1);
    var du := Decide(u.speedKmh, u.doorOpen, threshold, fixed1);
    assert [t, u][..1] == [t];
    assert [t][..0] == [];
    assert StreamAlerts([t], threshold, fixed1) == [] + dt == dt;
    assert StreamAlerts([t, u], threshold, fixed1) == dt + du;
  }

  /** The stored row for a draft raised by sample t. */
  function AlertOf(t: TelemetryIn, d: AlertDraft, id: int): Alert {
    Alert(id, t.busId, t.timestamp, d.kind, d.value, d.threshold, d.message)
  }

  /** The rows stored for the drafts, with consecutive ids from firstId. */
  function AlertRows(t: TelemetryIn, drafts: seq<AlertDraft>, firstId: int): (r: seq<Alert>)
    ensures |r| == |drafts|
    ensures forall i :: 0 <= i < |r| ==> r[i] == AlertOf(t, drafts[i], firstId + i)
  {
    seq(|drafts|, i requires 0 <= i < |drafts| => AlertOf(t, drafts[i], firstId + i))
  }

  /** The row one check of on_message stores: the alert of draft d when the
      check holds, none otherwise. */
  function CheckAlert(t: TelemetryIn, cond: bool, d: AlertDraft, id: int): seq<Alert> {
    if cond then [AlertOf(t, d, id)] else []
  }

  /** The overspeed check, then the door check numbered on from it. */
  function OverspeedCheck(t: TelemetryIn, c: ConfigResponse, id: int, fixed1: real -> string): seq<Alert> {
    CheckAlert(t, t.speedKmh > c.overspeedThreshold, OverspeedDraft(t.speedKmh, c.overspeedThreshold, fixed1), id)
  }

  function DoorCheck(t: TelemetryIn, id: int, fixed1: real -> string): seq<Alert> {
    CheckAlert(t, t.doorOpen && t.speedKmh > DoorOpenSpeedThreshold, DoorDraft(t.speedKmh, fixed1), id)
  }

  /** The alert rows sample t stores under configuration c, check by check. */
  function SampleAlerts(t: TelemetryIn, c: ConfigResponse, firstAlertId: int, fixed1: real -> string): seq<Alert> {
    var over := OverspeedCheck(t, c, firstAlertId, fixed1);
    over + DoorCheck(t, firstAlertId + |over|, fixed1)
  }

  // ------------------------------------------------------------ publications

  datatype Broker = LocalBroker | ThingSpeakBroker(host: string, port: int, username: string, password: string)

  /** What is published: the JSON alert object (its keys busId, timestamp,
      type, value, threshold, message), or a form-encoded field. */
  datatype Body =
    | AlertJson(busId: string, timestamp: int, kind: string, value: real, threshold: real, message: string)
    | FormField(text: string)

  datatype Publication = Publication(broker: Broker, topic: string, body: Body, qos: int)

  /** The publication announcing an alert raised by sample t, at QoS 1. */
  function AlertPublication(t: TelemetryIn, a: Alert): Publication {
    Publication(LocalBroker, AlertTopic(t.busId),
                AlertJson(t.busId, t.timestamp, a.kind, a.value, a.threshold, a.message), 1)
  }

  function AlertPublications(t: TelemetryIn, rows: seq<Alert>): (r: seq<Publication>)
    ensures |r| == |rows|
    ensures forall i :: 0 <= i < |r| ==> r[i] == AlertPublication(t, rows[i])
  {
    seq(|rows|, i requires 0 <= i < |rows| => AlertPublication(t, rows[i]))
  }

  /** `ThingSpeakForwarder.forward_speed`: nothing unless both the
      environment's ThingSpeak switch and the configuration's flag are on and
      the channel id and key are set; then the speed goes to the channel's
      field1 topic on the ThingSpeak broker, authenticated by the key. */
  function ForwardSpeed(s: Settings, speed: real, configEnabled: bool, fixed1: real -> string): (r: Option<Publication>)
    ensures r.Some? <==> ThingspeakEnabled(s) && configEnabled
    ensures r.Some? ==>
      var key := s.thingspeakMqttApiKey.value;
      && r.value.broker == ThingSpeakBroker(ThingSpeakHost, ThingSpeakPort, key, key)
      && r.value.topic == "channels/" + s.thingspeakChannelId.value + "/publish/fields/field1"
      && r.value.body == FormField("field1=" + fixed1(speed))
  {
    if !(ThingspeakEnabled(s) && configEnabled) then None
    else if !(Present(s.thingspeakChannelId) && Present(s.thingspeakMqttApiKey)) then None
    else
      var key := s.thingspeakMqttApiKey.value;
      Some(Publication(ThingSpeakBroker(ThingSpeakHost, ThingSpeakPort, key, key),
                       "channels/" + s.thingspeakChannelId.value + "/publish/fields/field1",
                       FormField("field1=" + fixed1(speed)), 0))
  }

  function Forwarded(s: Settings, t: TelemetryIn, c: ConfigResponse, fixed1: real -> string): seq<Publication> {
    match ForwardSpeed(s, t.speedKmh, c.thingspeakEnabled, fixed1)
    case Some(p) => [p]
    case None => []
  }

  // ---------------------------------------------------------------- auto SMS

  /** `db.query(User).filter(User.role == "admin").first()`, taking the
      table's order. */
  function FirstAdmin(users: seq<User>): (r: Option<User>)
    ensures r.Some? ==> r.value in users && r.value.role == "admin"
    ensures r.None? ==> forall u :: u in users ==> u.role != "admin"
  {
    match Sorting.FirstIndex(users, (u: User) => u.role == "admin")
    case Some(i) => Some(users[i])
    case None =>
      assert forall u :: u in users ==> u.role != "admin" by {
        forall u | u in users ensures u.role != "admin" {
          var j :| 0 <= j < |users| && users[j] == u;
        }
      }
      None
  }

  /** The driver message template chosen for an alert type, and whether the
      threshold is passed along. */
  function TemplateFor(kind: string): string {
    if kind == OverspeedKind then "overspeed" else "door_open"
  }

  /** The pending message the automatic SMS stores for alert a. */
  function SmsOf(t: TelemetryIn, a: Alert, threshold: real, userId: int, id: int, now: int, fixed1: real -> string): DriverMessage {
    var thr := if a.kind == OverspeedKind then Some(threshold) else None;
    var template := TemplateFor(a.kind);
    DriverMessage(id, t.busId, Some(a.id), MessageText(template, Some(t.speedKmh), thr, None, fixed1),
                  template, None, userId, now, StatusPending, None, None, None)
  }

  /** The messages stored by the automatic SMS for the alerts of one sample:
      one per alert, sent by the first administrator, when auto-SMS is on and
      an administrator exists; none otherwise. */
  function AutoSms(t: TelemetryIn, rows: seq<Alert>, c: ConfigResponse, admin: Option<User>, firstId: int,
                   now: int, fixed1: real -> string): (r: seq<DriverMessage>)
    ensures |r| == (if c.autoSmsEnabled && admin.Some? then |rows| else 0)
    ensures forall i :: 0 <= i < |r| ==>
      && r[i].id == firstId + i && r[i].alertId == Some(rows[i].id) && r[i].busId == t.busId
      && r[i].sentByUserId == admin.value.id && r[i].status == StatusPending
      && r[i] == SmsOf(t, rows[i], c.overspeedThreshold, admin.value.id, firstId + i, now, fixed1)
  {
    if !c.autoSmsEnabled || admin.None? then []
    else seq(|rows|, i requires 0 <= i < |rows| => SmsOf(t, rows[i], c.overspeedThreshold, admin.value.id, firstId + i, now, fixed1))
  }

  /** The message the automatic SMS stores after one check: one for the
      check's alert, if it raised one, auto-SMS is on and an administrator
      exists. */
  function CheckSms(t: TelemetryIn, rows: seq<Alert>, c: ConfigResponse, admin: Option<User>, id: int,
                    now: int, fixed1: real -> string): seq<DriverMessage> {
    if c.autoSmsEnabled && admin.Some? && rows != [] then
      [SmsOf(t, rows[0], c.overspeedThreshold, admin.value.id, id, now, fixed1)]
    else []
  }

  /** The driver messages the automatic SMS stores for sample t, check by
      check. */
  function SampleMessages(t: TelemetryIn, c: ConfigResponse, users: seq<User>, firstAlertId: int, firstMessageId: int,
                          now: int, fixed1: real -> string): seq<DriverMessage> {
    var admin := FirstAdmin(users);
    var over := OverspeedCheck(t, c, firstAlertId, fixed1);
    var s1 := CheckSms(t, over, c, admin, firstMessageId, now, fixed1);
    s1 + CheckSms(t, DoorCheck(t, firstAlertId + |over|, fixed1), c, admin, firstMessageId + |s1|, now, fixed1)
  }

  /** Everything sample t publishes: its alerts, then the forwarded speed. */
  function SamplePublications(s: Settings, t: TelemetryIn, c: ConfigResponse, firstAlertId: int,
                              fixed1: real -> string): seq<Publication> {
    AlertPublications(t, SampleAlerts(t, c, firstAlertId, fixed1)) + Forwarded(s, t, c, fixed1)
  }

  /** Rows for two runs of drafts are the rows of the first run followed by
      the rows of the second, numbered on from where the first stopped. */
  lemma AlertRowsAppend(t: TelemetryIn, d1: seq<AlertDraft>, d2: seq<AlertDraft>, firstId: int)
    ensures AlertRows(t, d1 + d2, firstId) == AlertRows(t, d1, firstId) + AlertRows(t, d2, firstId + |d1|)
  {
    var l := AlertRows(t, d1 + d2, firstId);
    var r := AlertRows(t, d1, firstId) + AlertRows(t, d2, firstId + |d1|);
    assert forall i :: 0 <= i < |l| ==> l[i] == r[i] by {
      forall i | 0 <= i < |l| ensures l[i] == r[i] {
        if i >= |d1| {
          assert (d1 + d2)[i] == d2[i - |d1|];
        }
      }
    }
  }

  lemma AutoSmsAppend(t: TelemetryIn, r1: seq<Alert>, r2: seq<Alert>, c: ConfigResponse, admin: Option<User>,
                      firstId: int, now: int, fixed1: real -> string)
    ensures var s1 := AutoSms(t, r1, c, admin, firstId, now, fixed1);
      AutoSms(t, r1 + r2, c, admin, firstId, now, fixed1) == s1 + AutoSms(t, r2, c, admin, firstId + |s1|, now, fixed1)
  {
    var s1 := AutoSms(t, r1, c, admin, firstId, now, fixed1);
    var l := AutoSms(t, r1 + r2, c, admin, firstId, now, fixed1);
    var r := s1 + AutoSms(t, r2, c, admin, firstId + |s1|, now, fixed1);
    if c.autoSmsEnabled && admin.Some? {
      assert forall i :: 0 <= i < |l| ==> l[i] == r[i] by {
        forall i | 0 <= i < |l| ensures l[i] == r[i] {
          if i >= |r1| {
            assert (r1 + r2)[i] == r2[i - |r1|];
          }
        }
      }
    }
  }

  /** The checks one after the other store exactly the rows of the alert
      rule: one per draft Decide returns, numbered consecutively. */
  lemma {:induction false} SampleAlertsFollowRule(t: TelemetryIn, c: ConfigResponse, firstAlertId: int, fixed1: real -> string)
    ensures SampleAlerts(t, c, firstAlertId, fixed1)
              == AlertRows(t, Decide(t.speedKmh, t.doorOpen, c.overspeedThreshold, fixed1), firstAlertId)
  {
    var d1 := if t.speedKmh > c.overspeedThreshold then [OverspeedDraft(t.speedKmh, c.overspeedThreshold, fixed1)] else [];
    var d2 := if t.doorOpen && t.speedKmh > DoorOpenSpeedThreshold then [DoorDraft(t.speedKmh, fixed1)] else [];
    assert Decide(t.speedKmh, t.doorOpen, c.overspeedThreshold, fixed1) == d1 + d2;
    AlertRowsAppend(t, d1, d2, firstAlertId);
    assert AlertRows(t, d1, firstAlertId) == OverspeedCheck(t, c, firstAlertId, fixed1);
    assert AlertRows(t, d2, firstAlertId + |d1|) == DoorCheck(t, firstAlertId + |d1|, fixed1);
  }

  /** The messages of the checks are the automatic SMS of the sample's
      alerts: one per alert, in order, from the first administrator. */
  lemma {:induction false} SampleMessagesAreAutoSms(t: TelemetryIn, c: ConfigResponse, users: seq<User>, firstAlertId: int,
                                                    firstMessageId: int, now: int, fixed1: real -> string)
    ensures SampleMessages(t, c, users, firstAlertId, firstMessageId, now, fixed1)
              == AutoSms(t, SampleAlerts(t, c, firstAlertId, fixed1), c, FirstAdmin(users), firstMessageId, now, fixed1)
  {
    var admin := FirstAdmin(users);
    var over := OverspeedCheck(t, c, firstAlertId, fixed1);
    var door := DoorCheck(t, firstAlertId + |over|, fixed1);
    var s1 := CheckSms(t, over, c, admin, firstMessageId, now, fixed1);
    AutoSmsAppend(t, over, door, c, admin, firstMessageId, now, fixed1);
    assert AutoSms(t, over, c, admin, firstMessageId, now, fixed1) == s1;
    assert AutoSms(t, door, c, admin, firstMessageId + |s1|, now, fixed1)
             == CheckSms(t, door, c, admin, firstMessageId + |s1|, now, fixed1);
  }

  /** What the two checks store, one after the other, is the sample's
      alerts and messages. */
  lemma SampleCompose(t: TelemetryIn, c: ConfigResponse, users: seq<User>, admin: Option<User>, alertId: int,
                      messageId: int, now: int, fixed1: real -> string,
                      over: seq<Alert>, door: seq<Alert>, s1: seq<DriverMessage>, s2: seq<DriverMessage>)
    requires admin == FirstAdmin(users)
    requires over == CheckAlert(t, t.speedKmh > c.overspeedThreshold,
                                OverspeedDraft(t.speedKmh, c.overspeedThreshold, fixed1), alertId)
    requires door == CheckAlert(t, t.doorOpen && t.speedKmh > DoorOpenSpeedThreshold,
                                DoorDraft(t.speedKmh, fixed1), alertId + |over|)
    requires s1 == CheckSms(t, over, c, admin, messageId, now, fixed1)
    requires s2 == CheckSms(t, door, c, admin, messageId + |s1|, now, fixed1)
    ensures SampleAlerts(t, c, alertId, fixed1) == over + door
    ensures SampleMessages(t, c, users, alertId, messageId, now, fixed1) == s1 + s2
  {
  }

  /** An overspeed alert's SMS carries the overspeed text and a door alert's
      the door text: the sample's speed and the threshold are both given. */
  lemma SmsTexts(t: TelemetryIn, a: Alert, threshold: real, userId: int, id: int, now: int, fixed1: real -> string)
    ensures var m := SmsOf(t, a, threshold, userId, id, now, fixed1);
      && (a.kind == OverspeedKind ==> MessageTemplates.OverspeedPrefix <= m.messageText)
      && (a.kind != OverspeedKind ==> MessageTemplates.DoorPrefix <= m.messageText)
  {
    var thr := if a.kind == OverspeedKind then Some(threshold) else None;
    BaseMessageChoice(TemplateFor(a.kind), Some(t.speedKmh), thr, fixed1);
  }

  // ---------------------------------------------------------------- ingestor

  /** A connected MQTT client: its id and the credentials set on it. */
  datatype Client = Client(id: string, credentials: Option<(string, string)>)

  function NewClient(s: Settings, suffix: int): (r: Client)
    ensures ClientIdPrefix <= r.id
    ensures r.credentials.Some? <==> s.mqttUsername != ""
  {
    Client(ClientIdPrefix + IntToString(suffix),
           if s.mqttUsername != "" then Some((s.mqttUsername, s.mqttPassword)) else None)
  }

  /** `MQTTIngestor`: the client it owns (None while stopped), the topics
      subscribed, and everything published. */
  class Ingestor {
    const settings: Settings
    var client: Option<Client>
    var subscriptions: seq<string>
    var outbox: seq<Publication>

    constructor (s: Settings)
      ensures settings == s && client == None && subscriptions == [] && outbox == []
    {
      settings := s;
      client := None;
      subscriptions := [];
      outbox := [];
    }

    /** `start`: a no-op while a client exists; otherwise a new client with
        a random four-digit suffix. */
    method Start(suffix: int)
      requires 1000 <= suffix <= 9999
      modifies this`client
      ensures old(client).Some? ==> client == old(client)
      ensures old(client).None? ==> client == Some(NewClient(settings, suffix))
    {
      if client.Some? {
        return;
      }
      client := Some(NewClient(settings, suffix));
    }

    /** `stop`: drops the client; a no-op when there is none. */
    method Stop()
      modifies this`client
      ensures client == None
    {
      if client.None? {
        return;
      }
      client := None;
    }

    /** `on_connect`: subscribe to the telemetry topic when the broker
        accepted the connection (rc 0). */
    method OnConnect(rc: int)
      modifies this`subscriptions
      ensures subscriptions == old(subscriptions) + (if rc == 0 then [TelemetryTopic] else [])
    {
      if rc == 0 {
        subscriptions := subscriptions + [TelemetryTopic];
      }
    }

    /** `on_message`. A payload that did not decode changes nothing. */
    method OnMessage(store: Store, payload: Option<TelemetryIn>, ft: FloatText, now: int)
      requires store.Valid()
      modifies store`buses, store`busSeq, store`telemetry, store`telemetrySeq
      modifies store`alerts, store`alertSeq, store`messages, store`messageSeq, this`outbox
      ensures store.Valid()
      ensures payload.None? ==>
        && store.buses == old(store.buses) && store.telemetry == old(store.telemetry)
        && store.alerts == old(store.alerts) && store.messages == old(store.messages) && outbox == old(outbox)
      ensures payload.Some? ==> store.buses == WithBus(old(store.buses), payload.value.busId, old(store.busSeq))
      ensures payload.Some? && ConfigManager.ConfigOf(settings, old(store.config), ft).None? ==>
        && store.telemetry == old(store.telemetry)
        && store.alerts == old(store.alerts) && store.messages == old(store.messages) && outbox == old(outbox)
      ensures payload.Some? && ConfigManager.ConfigOf(settings, old(store.config), ft).Some? ==>
        var t := payload.value;
        var c := ConfigManager.ConfigOf(settings, old(store.config), ft).value;
        && store.telemetry == old(store.telemetry) + [TelemetryOfIn(t, old(store.telemetrySeq))]
        && store.alerts == old(store.alerts) + SampleAlerts(t, c, old(store.alertSeq), ft.fixed1)
        && store.messages == old(store.messages) +
             SampleMessages(t, c, old(store.users), old(store.alertSeq), old(store.messageSeq), now, ft.fixed1)
        && outbox == old(outbox) + SamplePublications(settings, t, c, old(store.alertSeq), ft.fixed1)
    {
      if payload.Some? {
        Receive(store, payload.value, ft, now);
      }
    }

    /** on_message for a decoded sample: accept it, then raise and publish
        its alerts and forward its speed. */
    method Receive(store: Store, t: TelemetryIn, ft: FloatText, now: int)
      requires store.Valid()
      modifies store`buses, store`busSeq, store`telemetry, store`telemetrySeq
      modifies store`alerts, store`alertSeq, store`messages, store`messageSeq, this`outbox
      ensures store.Valid()
      ensures store.buses == WithBus(old(store.buses), t.busId, old(store.busSeq))
      ensures ConfigManager.ConfigOf(settings, old(store.config), ft).None? ==>
        && store.telemetry == old(store.telemetry)
        && store.alerts == old(store.alerts) && store.messages == old(store.messages) && outbox == old(outbox)
      ensures ConfigManager.ConfigOf(settings, old(store.config), ft).Some? ==>
        var c := ConfigManager.ConfigOf(settings, old(store.config), ft).value;
        && store.telemetry == old(store.telemetry) + [TelemetryOfIn(t, old(store.telemetrySeq))]
        && store.alerts == old(store.alerts) + SampleAlerts(t, c, old(store.alertSeq), ft.fixed1)
        && store.messages == old(store.messages) +
             SampleMessages(t, c, old(store.users), old(store.alertSeq), old(store.messageSeq), now, ft.fixed1)
        && outbox == old(outbox) + SamplePublications(settings, t, c, old(store.alertSeq), ft.fixed1)
    {
      ghost var users, alertId, messageId := store.users, store.alertSeq, store.messageSeq;
      ghost var alerts0, messages0, outbox0 := store.alerts, store.messages, outbox;
      var config := Accept(store, t, ft);
      if config.None? {
        return;
      }
      assert store.users == users && store.alertSeq == alertId && store.messageSeq == messageId;
      assert store.alerts == alerts0 && store.messages == messages0 && outbox == outbox0;
      ghost var telemetry1 := store.telemetry;
      var sent := Ingest(store, t, config.value, now, ft.fixed1);
      assert store.telemetry == telemetry1;
      assert store.alerts == alerts0 + SampleAlerts(t, config.value, alertId, ft.fixed1);
      assert sent == SampleMessages(t, config.value, users, alertId, messageId, now, ft.fixed1);
      assert outbox == outbox0 + SamplePublications(settings, t, config.value, alertId, ft.fixed1);
    }

    /** The first part of on_message: the bus is created if needed (and
        committed at once), the sample stored and the configuration read; a
        configuration that cannot be read raises and rolls the sample back. */
    method Accept(store: Store, t: TelemetryIn, ft: FloatText) returns (config: Option<ConfigResponse>)
      requires store.Valid()
      modifies store`buses, store`busSeq, store`telemetry, store`telemetrySeq
      ensures store.Valid() && HasBus(store.buses, t.busId)
      ensures store.buses == WithBus(old(store.buses), t.busId, old(store.busSeq))
      ensures config == ConfigManager.ConfigOf(settings, old(store.config), ft)
      ensures config.None? ==> store.telemetry == old(store.telemetry)
      ensures config.Some? ==> store.telemetry == old(store.telemetry) + [TelemetryOfIn(t, old(store.telemetrySeq))]
    {
      ghost var stored := store.config;
      var _ := store.GetOrCreateBus(t.busId);
      ghost var buses := store.buses;
      var committed := store.telemetry;
      var _ := store.CreateTelemetry(t);
      assert store.config == stored;
      config := ConfigManager.GetConfig(store, settings, ft);
      if config.None? {
        store.RollbackTelemetry(committed);
      }
      assert store.buses == buses;
    }

    /** The part of on_message after the configuration was read. */
    method Ingest(store: Store, t: TelemetryIn, c: ConfigResponse, now: int, fixed1: real -> string)
      returns (sent: seq<DriverMessage>)
      requires store.Valid() && HasBus(store.buses, t.busId)
      modifies store`alerts, store`alertSeq, store`messages, store`messageSeq, this`outbox
      ensures store.Valid()
      ensures store.alerts == old(store.alerts) + SampleAlerts(t, c, old(store.alertSeq), fixed1)
      ensures sent == SampleMessages(t, c, old(store.users), old(store.alertSeq), old(store.messageSeq), now, fixed1)
      ensures store.messages == old(store.messages) + sent
      ensures outbox == old(outbox) + SamplePublications(settings, t, c, old(store.alertSeq), fixed1)
    {
      ghost var alertId := store.alertSeq;
      var created;
      created, sent := StoreAlerts(store, t, c, now, fixed1);
      assert created == SampleAlerts(t, c, alertId, fixed1);
      Publish(t, created, c, fixed1);
    }

    /** After the commit: the stored alerts are published in order, then the
        speed is forwarded to ThingSpeak. */
    method Publish(t: TelemetryIn, created: seq<Alert>, c: ConfigResponse, fixed1: real -> string)
      modifies this`outbox
      ensures outbox == old(outbox) + (AlertPublications(t, created) + Forwarded(settings, t, c, fixed1))
    {
      ghost var outbox0 := outbox;
      PublishAlerts(t, created);
      var forward := ForwardSpeed(settings, t.speedKmh, c.thingspeakEnabled, fixed1);
      if forward.Some? {
        outbox := outbox + [forward.value];
      }
      AppendAssoc(outbox0, AlertPublications(t, created), Forwarded(settings, t, c, fixed1));
    }

    /** The two checks of on_message, overspeed first, each raising its alert. */
    method StoreAlerts(store: Store, t: TelemetryIn, c: ConfigResponse, now: int, fixed1: real -> string)
      returns (created: seq<Alert>, sent: seq<DriverMessage>)
      requires store.Valid() && HasBus(store.buses, t.busId)
      modifies store`alerts, store`alertSeq, store`messages, store`messageSeq
      ensures store.Valid()
      ensures created == SampleAlerts(t, c, old(store.alertSeq), fixed1)
      ensures store.alerts == old(store.alerts) + created
      ensures sent == SampleMessages(t, c, old(store.users), old(store.alertSeq), old(store.messageSeq), now, fixed1)
      ensures store.messages == old(store.messages) + sent
    {
      var admin := FirstAdmin(store.users);
      ghost var alerts0, messages0 := store.alerts, store.messages;
      ghost var users, alertId, messageId := store.users, store.alertSeq, store.messageSeq;
      var overCond, overDraft := t.speedKmh > c.overspeedThreshold, OverspeedDraft(t.speedKmh, c.overspeedThreshold, fixed1);
      var doorCond, doorDraft := t.doorOpen && t.speedKmh > DoorOpenSpeedThreshold, DoorDraft(t.speedKmh, fixed1);
      var over, s1 := RaiseIf(store, t, overCond, overDraft, c, admin, now, fixed1);
      assert over == CheckAlert(t, overCond, overDraft, alertId);
      assert s1 == CheckSms(t, over, c, admin, messageId, now, fixed1);
      assert store.alertSeq == alertId + |over| && store.messageSeq == messageId + |s1|;
      var door, s2 := RaiseIf(store, t, doorCond, doorDraft, c, admin, now, fixed1);
      assert door == CheckAlert(t, doorCond, doorDraft, alertId + |over|);
      assert s2 == CheckSms(t, door, c, admin, messageId + |s1|, now, fixed1);
      created, sent := over + door, s1 + s2;
      AppendAssoc(alerts0, over, door);
      AppendAssoc(messages0, s1, s2);
      SampleCompose(t, c, users, admin, alertId, messageId, now, fixed1, over, door, s1, s2);
    }

    /** One check of on_message: when it holds, the alert is stored and then,
        with auto-SMS on and an administrator known, a driver message. A
        failure of the SMS would be swallowed and leave the alert in place. */
    method RaiseIf(store: Store, t: TelemetryIn, cond: bool, d: AlertDraft, c: ConfigResponse, admin: Option<User>,
                   now: int, fixed1: real -> string) returns (created: seq<Alert>, sent: seq<DriverMessage>)
      requires store.Valid() && HasBus(store.buses, t.busId)
      requires admin.Some? ==> admin.value in store.users
      modifies store`alerts, store`alertSeq, store`messages, store`messageSeq
      ensures store.Valid() && store.users == old(store.users) && store.buses == old(store.buses)
      ensures created == CheckAlert(t, cond, d, old(store.alertSeq))
      ensures store.alerts == old(store.alerts) + created && store.alertSeq == old(store.alertSeq) + |created|
      ensures sent == CheckSms(t, created, c, admin, old(store.messageSeq), now, fixed1)
      ensures store.messages == old(store.messages) + sent && store.messageSeq == old(store.messageSeq) + |sent|
    {
      if !cond {
        return [], [];
      }
      var a := store.CreateAlert(t.busId, t.timestamp, d.kind, d.value, d.threshold, d.message);
      created := [a];
      sent := [];
      if c.autoSmsEnabled && admin.Some? {
        var thr := if d.kind == OverspeedKind then Some(c.overspeedThreshold) else None;
        assert a in store.alerts && admin.value in store.users;
        assert HasAlert(store.alerts, a.id) && HasUser(store.users, admin.value.id);
        ghost var messages0 := store.messages;
        var id := SendDriverMessage(store, t.busId, TemplateFor(d.kind), admin.value.id, Some(a.id), None,
                                    Some(t.speedKmh), thr, now, fixed1);
        sent := [SmsOf(t, a, c.overspeedThreshold, admin.value.id, id.value, now, fixed1)];
        assert store.messages == messages0 + sent;
      }
    }

    /** The publish loop after the commit: one publication per stored alert,
        in order. */
    method PublishAlerts(t: TelemetryIn, created: seq<Alert>)
      modifies this`outbox
      ensures outbox == old(outbox) + AlertPublications(t, created)
    {
      for i := 0 to |created|
        invariant outbox == old(outbox) + AlertPublications(t, created[..i])
      {
        assert AlertPublications(t, created[..i + 1]) == AlertPublications(t, created[..i]) + [AlertPublication(t, created[i])];
        outbox := outbox + [AlertPublication(t, created[i])];
      }
      assert created[..|created|] == created;
    }
  }
}
