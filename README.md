# Smart school bus monitor: backend model

A Dafny model of the backend of the smart school bus monitor. It models the
FastAPI service that ingests bus telemetry over MQTT, raises alerts, sends
simulated SMS messages to drivers, keeps a typed configuration, runs bus
simulators and administers users. Each core source file has its own module:

- `Crud` (backend/crud.py): the record store. The tables are sequences of
  rows, the configuration table is a map, and the serials are counters. The
  queries are functions, and the inserts and updates are methods of the
  `Store` class. `Store.Valid` states the unique columns (`bus_id`, every
  table's `id`, `username`), the foreign keys and the serials of the schema
  in backend/models.py. Every write keeps it.
- `ConfigManager` (backend/config_manager.py) and `Settings`
  (backend/settings.py): the string-valued configuration table is read back
  with the per-key casters, over the defaults. Partial updates write only
  the fields they are given.
- `Schemas` (backend/schemas.py): the field constraints of the request
  bodies, as checks over decoded values that answer 422.
- `MqttClient` (backend/mqtt_client.py): the `Ingestor` class owns the
  client, the subscriptions and an outbox of everything published.
  - `on_message` stores the sample and applies the alert rule. Overspeed
    fires when the speed is strictly above the configured threshold.
    Door-open-while-moving fires when the door is open and the speed is
    strictly above 5 km/h.
  - It stores the alerts and, when auto-SMS is on, the driver messages.
  - After that it publishes the alerts and forwards the speed to
    ThingSpeak.
- `MessageTemplates`, `MessageService`, `MessageRoutes`
  (backend/message_templates.py, message_service.py, message_routes.py):
  - the texts of the driver messages and the choice of template;
  - the checks of `send_message`, which default the speed and threshold
    from the alert;
  - the simulated delivery lifecycle. Its random outcomes and a possible
    exception are inputs.
  - the order in which the router matches the message paths.
- `SimulatorRunner` (backend/simulator_runner.py):
  - choosing a route from the bus id;
  - the motion of one simulated bus along its route (a class whose
    `_next_point` loop is kept);
  - the `SimulatorManager` class with its table of running simulators.
    Each started thread is a numbered entry of `launched`. `stopped` holds
    the threads that were told to stop.
- `AuthRoutes` (backend/auth_routes.py): login, the admin-only user
  routes, changing a password and creating the default users, over the
  users table of the store.
- `App` (backend/main.py): validation, defaulting and row mapping of the
  bus list, history and alert queries.

Helper modules:
- `Common`: Option, Result and HTTP errors.
- `Text`: Python's `strip`, `lower` on ASCII letters, `int()` on ASCII
  digits (sign, underscore grouping), `str()` on ints, and `split` fields.
- `Sorting`: a stable sort that stands for SQL `ORDER BY`.
- `Records`: the ORM rows.

## Behaviour worth noting

- Alerts are level-triggered. Nothing is remembered between samples, and
  every violating sample raises its alerts again
  (`MqttClient.LevelTriggered`, `MqttClient.RepeatedOverspeed`).
- The history of a bus with no telemetry is an empty list
  (`Crud.UnknownBusHistoryEmpty`).
- The overspeed threshold accepted by a configuration update lies in
  [10, 150] and the poll interval in [1, 60] (`Schemas.ConfigUpdateBounds`).
- The MQTT topics are `school/bus/+/telemetry` and
  `school/bus/{bus_id}/alerts`. The REST paths carry the `/api` prefix.
- Creating a user whose name is taken answers 400.
- SMS delivery can fail at random at two points, and reading is optional.
  Every status write goes through the store.
- A body failing validation is answered 422, but only after the
  dependencies have run. So a non-admin caller gets 403 before any 422
  (`AuthRoutes.CreateCheck`).

## Model

| member | source | states |
|---|---|---|
| Text.TrimStart | backend/settings.py:16 | the remainder is a suffix, everything dropped is whitespace, and it does not start with a space |
| Text.TrimEnd | backend/settings.py:16 | the remainder is a prefix, everything dropped is whitespace, and it does not end with a space |
| Text.Strip | backend/settings.py:16 | no longer than the input, no whitespace left at either end, and text without whitespace unchanged |
| Text.StripIsCut | backend/settings.py:16 | the stripped text is s[a..b] for some a <= b where everything before a and from b on is whitespace |
| Text.StripOfCut | backend/settings.py:16 | any cut between whitespace runs that starts and ends on non-space characters is what strip() answers |
| Text.Lower | backend/settings.py:16 | same length, each character lower-cased |
| Text.SerializedTrueIsTruthy | backend/config_manager.py:16 | "true" is one of the truthy words |
| Text.TruthyTextPadded | backend/settings.py:16 | a word padded with whitespace on both sides strips to the word, and is truthy exactly when the word lower-cased is one of "1", "true", "yes", "on" |
| Text.SerializedFalseIsNotTruthy | backend/config_manager.py:16 | "false" is not truthy |
| Text.NatToString | backend/config_manager.py:30 | str() of a natural number: digits only, no leading zero |
| Text.IntToString | backend/config_manager.py:30 | str() of an int: non-empty, no whitespace, a leading '-' exactly for negatives |
| Text.ParseInt | backend/settings.py:22 | int() succeeds exactly when the stripped text is an optional sign and digits with single underscores between them; the value is that of the digits, negated after '-' |
| Text.GroupedDigits | backend/settings.py:22 | "1_000" reads as 1000 |
| Text.MisplacedUnderscores | backend/settings.py:22 | a doubled, leading or trailing underscore makes int() fail |
| Text.DigitsRoundTrip | backend/config_manager.py:21 | the digits str() writes read back as the same number |
| Text.ParseIntRoundTrip | backend/config_manager.py:21 | int(str(i)) == i for every int |
| Text.NatToStringInjective | backend/config_manager.py:30 | distinct numbers print differently |
| Text.AfterLast | backend/simulator_runner.py:54 | the last split field: a suffix without the separator, preceded by the separator when shorter than the text |
| Text.AfterLastOfSuffix | backend/simulator_runner.py:54 | a separator-free tail after the last separator is exactly the last field |
| Text.StrLeTotal | backend/crud.py:64 | the bus_id order compares any two strings |
| Text.StrLeTransitive | backend/crud.py:64 | the bus_id order is transitive |
| Crud.FindBus | backend/crud.py:14-15 | Some exactly when a Bus row with that bus_id exists, and then it is a stored row with that id |
| Crud.FindAlert | backend/message_routes.py:35-37 | Some exactly when an alert with that id exists, and then it is a stored alert with that id |
| Crud.UserIndex | backend/auth_routes.py:77-79 | the first position of a user with that id, None exactly when no user has it |
| Crud.FindUserByName | backend/auth.py:46-47 | a stored user with that username, or None when no user has it |
| Crud.MessageIndex | backend/crud.py:140-142 | the first position of a message with that id (no earlier row has it), None when there is none |
| Crud.FindMessage | backend/crud.py:140-142 | a stored message with that id; None exactly when no row has the id |
| Crud.WithBus | backend/crud.py:14-21 | afterwards the bus exists; an existing bus leaves the table as it was, otherwise exactly one row with no name or capacity is appended |
| Crud.WithBusIdempotent | backend/crud.py:14-21 | a second get_or_create_bus of the same id changes nothing, whatever the serial is then |
| Crud.TelemetryHistory | backend/crud.py:70-78 | the rows of that bus inside the inclusive window, each with its multiplicity and no other row, in ascending timestamp order |
| Crud.UnknownBusHistoryEmpty | backend/crud.py:70-78 | a bus without telemetry has an empty history |
| Crud.LatestRows | backend/crud.py:54-66 | exactly the rows whose timestamp is the maximum of their bus (ties kept), ordered by bus_id |
| Crud.LatestExists | backend/crud.py:55-59 | every bus with a row has a row that is its latest |
| Crud.EveryReportingBusListed | backend/crud.py:54-66 | a bus appears in the latest-per-bus result exactly when it has telemetry |
| Crud.LatestPerBus | backend/crud.py:60-66 | each latest row paired with the Bus row of its bus_id, None when that row is missing (outer join), in the order of LatestRows |
| Crud.RecentAlerts | backend/crud.py:81-82 | min(limit, count) alerts, newest first, a sub-multiset of the table, and no left-out alert is newer than one kept |
| Crud.NewestPrefix | backend/crud.py:81-82 | a prefix of the alerts sorted newest first is ordered, drawn from the table and dominates the rest |
| Crud.OrderedMessages | backend/crud.py:133-137 | the messages of the bus filter, each with its multiplicity and no other, newest sent_at first |
| Crud.DriverMessages | backend/crud.py:127-137 | OFFSET then LIMIT: the page's length and that row i is row offset+i of the ordered messages |
| Crud.PagesConcatenate | backend/crud.py:137 | the page of a rows at offset followed by the page of b rows at offset+a is the page of a+b rows at offset |
| Crud.ApplyStatus | backend/crud.py:157-163 | the status is overwritten, each optional field only when given, every other column unchanged |
| Crud.UpdatedMessages | backend/crud.py:145-165 | same length; unchanged for an unknown id, otherwise only the first row with the id is rewritten by ApplyStatus |
| Crud.UpdatedIndex | backend/crud.py:154 | rewriting the found row with one of the same id keeps it the first row with that id |
| Crud.RefsKept | backend/crud.py:157-163 | rewriting a message without touching bus, alert or sender keeps every foreign key satisfied |
| Crud.Store.constructor | backend/models.py:12-82 | an empty, consistent store with every serial at 1 |
| Crud.Store.GetOrCreateBus | backend/crud.py:14-21 | the table becomes WithBus; the existing row is returned and the serial kept, or the new row with the next serial is returned; consistency kept |
| Crud.Store.CreateTelemetry | backend/crud.py:24-37 | appends exactly the row built from the sample with the next telemetry id; consistency kept |
| Crud.Store.RollbackTelemetry | backend/mqtt_client.py:203-204 | the telemetry table returns to its committed prefix; consistency kept |
| Crud.Store.CreateAlert | backend/crud.py:40-51 | appends exactly the alert with the next id and the given fields; consistency kept |
| Crud.Store.UpsertConfigValues | backend/crud.py:90-99 | the table becomes the old table overridden by the given values, and that whole table is answered |
| Crud.Store.CreateDriverMessage | backend/crud.py:102-124 | succeeds exactly when the bus, alert and sender exist; then appends a pending row with the next id and no delivery times; otherwise nothing changes and the error is 500 |
| Crud.Store.UpdateMessageStatus | backend/crud.py:145-165 | None exactly for an unknown id; otherwise the table becomes UpdatedMessages and the rewritten row is answered; consistency kept |
| Settings.KeyName | backend/settings.py:42-47 | the table name of each configuration key (its length fixed per key) |
| Settings.KeyNamesDistinct | backend/settings.py:42-47 | distinct keys have distinct names |
| Settings.EnvToBool | backend/settings.py:13-16 | an unset variable gives the default; a set one is true exactly when stripped and lower-cased it is 1, true, yes or on |
| Settings.DatabaseUrl | backend/settings.py:49-54 | the URL starts with the psycopg2 scheme, has the length of its parts and ends with "/" and the database name |
| Settings.SetVariablesOverride | backend/settings.py:19-37 | every variable that is set gives its field: strings as given, ports and poll interval as int() reads them, the threshold as float() reads it, the switch by the truthy words |
| Settings.UnsetVariablesDefault | backend/settings.py:19-37 | every variable that is not set leaves its documented default |
| Settings.LoadFailsExactly | backend/settings.py:22-37 | building the settings fails exactly when a numeric variable is set to text that int() or float() refuses |
| Settings.ThingspeakFromEnvironment | backend/settings.py:32-34 | forwarding is on exactly when THINGSPEAK_ENABLED is a truthy word and both credentials are set and non-empty |
| Settings.LoadDefaults | backend/settings.py:19-37 | with an empty environment every setting holds its documented default and ThingSpeak is off |
| Settings.MqttPortParses | backend/settings.py:22 | the default text "1883" parses as 1883 |
| Settings.PostgresPortParses | backend/settings.py:27 | the default text "5432" parses as 5432 |
| Settings.PollDefaultParses | backend/settings.py:37 | the default text "5" parses as 5 |
| Schemas.CheckConfigUpdate | backend/schemas.py:58-62 | accepted, unchanged, exactly when a present threshold lies in [10, 150] and a present interval in [1, 60]; otherwise 422 |
| Schemas.EmptyConfigUpdateAccepted | backend/schemas.py:58-62 | an empty update is valid and leaves every field None |
| Schemas.ConfigUpdateBounds | backend/schemas.py:59-60 | 30 accepted and 9.5 refused; both ends of each range accepted; 0 and 61 refused |
| Schemas.CheckSimulatorStart | backend/schemas.py:65-66 | accepted exactly when bus_ids is absent or non-empty; otherwise 422 |
| Schemas.CheckUserCreate | backend/schemas.py:85-88 | accepted exactly for a username of 3 to 64 characters and a password of at least 6; role defaults to "operator"; otherwise 422 |
| Schemas.TelemetryRoundTrip | backend/schemas.py:8-31 | storing a sample and answering it back keeps every field, whatever id the row gets |
| ConfigManager.ToBool | backend/config_manager.py:13-16 | a bool comes back unchanged; any other value is read through its str(), stripped and lower-cased, against 1/true/yes/on |
| ConfigManager.Serialize | backend/config_manager.py:27-30 | a bool becomes "true"/"false", an int its decimal text, a string itself |
| ConfigManager.SerializeBoolRoundTrip | backend/config_manager.py:13-30 | a serialised bool, read back by `_to_bool`, is the same bool |
| ConfigManager.PythonTrueIsTruthy | backend/config_manager.py:16 | the text "True" that Python's str() gives a bool still reads back as true |
| ConfigManager.Cast | backend/config_manager.py:19-24 | float() and int() fail exactly on text they cannot parse and otherwise give the parsed number; the bool caster never fails |
| ConfigManager.AllKeysListed | backend/config_manager.py:19-24 | the caster table lists every configuration key |
| ConfigManager.ConfigOfReadsBack | backend/config_manager.py:43-55 | the read fails exactly when a stored threshold or interval does not parse; otherwise each field is its stored text cast to its type, or its default when there is no row |
| ConfigManager.GetConfig | backend/config_manager.py:43-55 | the loop over the casters answers ConfigOf of the stored table |
| ConfigManager.MissingAmongRows | backend/config_manager.py:36-38 | the collected rows are keys without a row, each holding its serialised default, and every key without a row is collected |
| ConfigManager.EnsureDefaults | backend/config_manager.py:33-40 | the table becomes the old table plus the missing defaults |
| ConfigManager.CollectMissing | backend/config_manager.py:35-38 | the loop collects exactly MissingAmong of the keys |
| ConfigManager.EnsureDefaultsEffect | backend/config_manager.py:33-40 | afterwards every key has a row, existing rows keep their value, new rows hold the serialised default and no other key appears |
| ConfigManager.EnsureDefaultsIdempotent | backend/config_manager.py:33-40 | a second ensure_defaults finds nothing missing |
| ConfigManager.Updates | backend/config_manager.py:58-67 | a key is written exactly when the payload provides its field; an empty payload writes nothing |
| ConfigManager.UpdatesOnlyKeys | backend/config_manager.py:58-67 | update_config writes configuration keys only |
| ConfigManager.PutIf | backend/config_manager.py:60-67 | adds the key with the value exactly when provided, leaving every other row |
| ConfigManager.UpdatesWritten | backend/config_manager.py:60-67 | each provided field is written as its serialised text |
| ConfigManager.UpdateConfig | backend/config_manager.py:58-70 | the table is overridden by the updates, untouched when there are none, and the answer is the read of the new table |
| ConfigManager.UpdateReadsBack | backend/config_manager.py:58-70 | after an update each provided field reads back as written and every other field as before (floats assumed to survive str/float) |
| ConfigManager.UpdateIdempotent | backend/config_manager.py:58-69 | applying the same payload twice leaves the same table as once |
| ConfigManager.DefaultsReadBack | backend/config_manager.py:43-49 | with nothing stored the read answers the settings' defaults with auto-SMS off |
| MessageTemplates.OverspeedTemplateShape | backend/message_templates.py:4-9 | the text starts with the overspeed prefix and holds the formatted speed and then the formatted limit at fixed places, its length the sum of its parts |
| MessageTemplates.DoorTemplateShape | backend/message_templates.py:12-17 | the text starts with the door prefix and holds the formatted speed right before the fixed tail |
| MessageTemplates.CustomTemplateShape | backend/message_templates.py:20-24 | a missing or empty note leaves the base text; otherwise the base is kept as prefix, followed by the blank-line "Note: " separator and the note |
| MessageTemplates.TemplatesDistinct | backend/message_templates.py:4-17 | an overspeed text never equals a door text, whatever the speeds and the formatter |
| MessageService.BaseMessageChoice | backend/message_service.py:32-39 | the overspeed text exactly when the type is overspeed with speed and limit, the door text exactly when not that and the type is door_open with a speed, the fallback otherwise |
| MessageService.SendDriverMessage | backend/message_service.py:41-65 | succeeds exactly when bus, alert and sender exist; then one pending row with the next id and the template text is appended and that id returned; otherwise nothing is written and the error is 500 |
| MessageService.EffectiveWrites | backend/message_service.py:68-132 | with no exception the writes are those of the uninterrupted run |
| MessageService.Statuses | backend/message_service.py:78-118 | the statuses of the writes, one for one |
| MessageService.LifecycleShapes | backend/message_service.py:74-122 | an uninterrupted run writes failed; sent, failed; sent, delivered; or sent, delivered, read |
| MessageService.LifecycleMovesForward | backend/message_service.py:74-122 | an uninterrupted run only moves the status forward, nothing follows failed, and delivered_at, read_at and the error text come exactly with delivered, read and failed |
| MessageService.FaultEndsFailed | backend/message_service.py:124-132 | an exception at write k leaves the first k writes of the uninterrupted run followed by failed with the exception's text |
| MessageService.ApplyWrites | backend/message_service.py:78-119 | the writes keep the size of the message table |
| MessageService.ApplyWritesAppend | backend/message_service.py:78-119 | applying two runs of writes in turn is applying their concatenation |
| MessageService.ApplyWritesOthers | backend/crud.py:154 | status writes to one message leave every other message as it was |
| MessageService.Step | backend/message_service.py:78-119 | one status write, or at the faulty step the recovery write and a stop; the table is rewritten by exactly those writes and stays consistent |
| MessageService.SimulateSmsLifecycle | backend/message_service.py:68-134 | the message ends as the effective writes of the draws and fault leave it; no other message changes; consistency kept |
| MessageService.EffectiveSteps | backend/message_service.py:74-122 | the effective writes split at each step the run can stop at |
| MqttClient.AlertTopic | backend/mqtt_client.py:24 | the topic is the fixed prefix, the bus id and the fixed suffix, so it names its bus |
| MqttClient.AlertTopicInjective | backend/mqtt_client.py:199 | different buses publish alerts on different topics |
| MqttClient.Decide | backend/mqtt_client.py:101-159 | overspeed exactly when the speed is strictly above the threshold, door-open-while-moving exactly when the door is open and the speed is strictly above 5, overspeed first, each carrying the measured speed |
| MqttClient.LevelTriggered | backend/mqtt_client.py:101-159 | nothing is remembered between samples: a run of samples raises as many alerts as its samples violate the rule |
| MqttClient.RepeatedOverspeed | backend/mqtt_client.py:102-115 | a bus over the limit on two samples gets an overspeed alert for each |
| MqttClient.AlertRows | backend/crud.py:40-51 | one stored alert per draft, with consecutive ids |
| MqttClient.AlertPublications | backend/mqtt_client.py:190-200 | one QoS-1 JSON publication per stored alert, in order |
| MqttClient.ForwardSpeed | backend/mqtt_client.py:33-49 | a publication exactly when ThingSpeak is enabled by the environment and by the configuration; then the field1 topic of the channel, the one-decimal speed and the API key as both credentials |
| MqttClient.FirstAdmin | backend/mqtt_client.py:119 | a stored user with role admin, None exactly when there is none |
| MqttClient.AutoSms | backend/mqtt_client.py:117-136 | one pending message per alert, in order, with consecutive ids, referring to the alert and sent by the administrator, when auto-SMS is on and an administrator exists; none otherwise |
| MqttClient.AlertRowsAppend | backend/mqtt_client.py:99-159 | rows for two runs of drafts are the rows of each, numbered on |
| MqttClient.AutoSmsAppend | backend/mqtt_client.py:117-179 | the messages for two runs of alerts are the messages of each, numbered on |
| MqttClient.SampleAlertsFollowRule | backend/mqtt_client.py:101-159 | the two checks store exactly one row per alert of the rule, with consecutive ids |
| MqttClient.SampleMessagesAreAutoSms | backend/mqtt_client.py:117-179 | the messages the two checks store are the automatic SMS of the sample's alerts from the first administrator |
| MqttClient.SampleCompose | backend/mqtt_client.py:101-185 | the overspeed check followed by the door check store the sample's alerts and messages |
| MqttClient.SmsTexts | backend/mqtt_client.py:122-173 | an overspeed alert's SMS carries the overspeed text, a door alert's the door text |
| MqttClient.NewClient | backend/mqtt_client.py:62-64 | the client id has the subscriber prefix; credentials are set exactly when a username is configured |
| MqttClient.Ingestor.constructor | backend/mqtt_client.py:55-57 | no client, no subscriptions, nothing published |
| MqttClient.Ingestor.Start | backend/mqtt_client.py:59-69 | a no-op while a client exists, otherwise a new client |
| MqttClient.Ingestor.Stop | backend/mqtt_client.py:71-76 | afterwards there is no client |
| MqttClient.Ingestor.OnConnect | backend/mqtt_client.py:78-83 | subscribes to the telemetry topic exactly when rc is 0 |
| MqttClient.Ingestor.OnMessage | backend/mqtt_client.py:85-207 | an undecodable payload changes nothing; otherwise the bus is created if needed; an unreadable configuration rolls the sample back; else the sample, its alerts, its SMS and its publications are appended; consistency kept |
| MqttClient.Ingestor.Receive | backend/mqtt_client.py:93-205 | the same for a decoded sample |
| MqttClient.Ingestor.Accept | backend/mqtt_client.py:95-97 | the bus exists afterwards, the sample is stored, and the configuration read is ConfigOf; on a failed read the sample is rolled back |
| MqttClient.Ingestor.Ingest | backend/mqtt_client.py:99-202 | alerts, messages and publications are exactly the sample's |
| MqttClient.Ingestor.Publish | backend/mqtt_client.py:189-202 | the alert publications in order, then the forwarded speed if any |
| MqttClient.Ingestor.StoreAlerts | backend/mqtt_client.py:101-185 | the overspeed check then the door check: the rows and messages stored are the sample's |
| MqttClient.Ingestor.RaiseIf | backend/mqtt_client.py:102-136 | when the check holds one alert is stored and, with auto-SMS on and an administrator, one message; users and buses unchanged |
| MqttClient.Ingestor.PublishAlerts | backend/mqtt_client.py:190-200 | one publication per stored alert, in order |
| MessageRoutes.PrepareSend | backend/message_routes.py:24-46 | an unknown template type is 400 first; a truthy alert id naming no alert is 404 and one of another bus 400; otherwise accepted, with a missing speed taken from the alert and a missing threshold taken from it for overspeed only |
| MessageRoutes.AlertBackedTemplates | backend/message_routes.py:42-46 | an accepted overspeed or door request tied to an alert always gets its template's text, a custom request the fallback |
| MessageRoutes.SendMessage | backend/message_routes.py:17-64 | a request refused by validation answers its error and writes nothing; one that passes succeeds exactly when its bus, its alert (when an id is given) and its sender exist, and otherwise answers 500 and writes nothing; a success answers exactly the pending record appended with the next id, the template text and the current user as sender |
| MessageRoutes.MessageIdFresh | backend/message_routes.py:61 | the record just appended with a fresh id is the one found by that id |
| MessageRoutes.ListMessages | backend/message_routes.py:67-77 | 422 exactly when limit is outside [1, 500] or offset negative; otherwise the page at the defaulted limit 100 and offset 0 |
| MessageRoutes.GetMessage | backend/message_routes.py:80-90 | the stored record with that id, 404 exactly when there is none |
| MessageRoutes.GetTemplates | backend/message_routes.py:93-112 | three entries, overspeed, door_open and custom, in that order, each a valid template type |
| MessageRoutes.ExamplesMatchTemplates | backend/message_routes.py:96-112 | each example is the text the service sends: overspeed at 85 over 70, door at 25, and the fallback |
| MessageRoutes.Dispatch | backend/message_routes.py:17-93 | a registered route whose verb and path match, None exactly when no route matches |
| MessageRoutes.DispatchFirst | backend/message_routes.py:17-93 | the chosen route is the first in registration order that matches: no earlier route matches the verb and path |
| MessageRoutes.TemplatesShadowedAsWritten | backend/message_routes.py:80-94 | as registered, GET /api/messages/templates reaches get_message and is answered 422 |
| MessageRoutes.TemplatesIsNotANumber | backend/message_routes.py:82 | int("templates") fails |
| MessageRoutes.TemplatesReachableCorrected | backend/message_routes.py:80-94 | with the fixed path first, the catalogue is reachable and every numeric id still reaches get_message |
| SimulatorRunner.RoutesShape | backend/simulator_runner.py:16-22 | five routes of four points each |
| SimulatorRunner.DefaultBusIds | backend/simulator_runner.py:24 | thirteen ids, the i-th being "bus-" and i+1 |
| SimulatorRunner.ExtractNumberOfName | backend/simulator_runner.py:51-56 | the number of a bus named "bus-" and a number is that number, whatever the random draw |
| SimulatorRunner.RouteIndex | backend/simulator_runner.py:41 | a valid route index congruent to number-1 modulo the route count (Python's non-negative %) |
| SimulatorRunner.DefaultFleetRoutes | backend/simulator_runner.py:24-41 | bus-i of the default fleet takes route (i-1) mod 5 |
| SimulatorRunner.BusSimulatorThread.constructor | backend/simulator_runner.py:34-49 | the route chosen from the bus id's number, standing at the start of its first segment |
| SimulatorRunner.BusSimulatorThread.NextPoint | backend/simulator_runner.py:58-73 | a stationary bus keeps its place and answers its first route point with jitter; a moving bus advances by the step, wraps the whole units into segments modulo the route length, keeps the fraction, and answers the interpolated point with jitter |
| SimulatorRunner.WrapStep | backend/simulator_runner.py:68 | advancing a segment taken modulo the route length is advancing the count |
| SimulatorRunner.Untracked | backend/simulator_runner.py:149 | an id is in the result exactly when it was requested and is not tracked |
| SimulatorRunner.UntrackedCounts | backend/simulator_runner.py:149 | each untracked id occurs as often as it was requested; tracked ids do not occur |
| SimulatorRunner.UntrackedAppend | backend/simulator_runner.py:149 | the filter keeps order: filtering a concatenation concatenates the filtered parts |
| SimulatorRunner.UntrackedKeepsNew | backend/simulator_runner.py:149 | requested ids none of which is tracked come back unchanged, repeats and order included |
| SimulatorRunner.Dedup | backend/simulator_runner.py:149 | the same ids, each once |
| SimulatorRunner.StatusReportsTable | backend/simulator_runner.py:128-143 | running exactly when a bus is tracked, the count is the number tracked, the start time is reported, and exactly the tracked buses are listed |
| SimulatorRunner.AssignTracked | backend/simulator_runner.py:159 | a dictionary assignment keeps every key and adds the assigned bus |
| SimulatorRunner.AssignConsistent | backend/simulator_runner.py:155-159 | starting a thread for a bus and assigning it keeps the table consistent |
| SimulatorRunner.AssignAllConsistent | backend/simulator_runner.py:155-159 | the start loop keeps the table consistent |
| SimulatorRunner.AssignAllTracked | backend/simulator_runner.py:155-159 | after the start loop exactly the buses tracked before and the buses started are tracked |
| SimulatorRunner.FreshAll | backend/simulator_runner.py:155-159 | one fresh entry per bus, thread numbers consecutive |
| SimulatorRunner.AssignAllAppends | backend/simulator_runner.py:155-159 | on distinct untracked buses the start loop only appends, one entry per started thread |
| SimulatorRunner.FreshUntracked | backend/simulator_runner.py:149-159 | a bus neither tracked nor among the started ones stays untracked |
| SimulatorRunner.FreshAllSnoc | backend/simulator_runner.py:155-159 | the fresh entries of the loop grow by one per iteration |
| SimulatorRunner.DistinctStartNoOrphans | backend/simulator_runner.py:145-160 | starting distinct untracked buses keeps every started thread reachable or stopped |
| SimulatorRunner.DuplicateStartOrphans | backend/simulator_runner.py:145-160 | start(["bus-2", "bus-2"]) starts two threads, tracks only the second, and after stop_bus("bus-2") the first still runs out of reach |
| SimulatorRunner.Find | backend/simulator_runner.py:181 | Some exactly when the bus is tracked, and then its entry |
| SimulatorRunner.RemoveMembers | backend/simulator_runner.py:186 | deleting a key removes that bus's entry and keeps every other |
| SimulatorRunner.RemoveUnique | backend/simulator_runner.py:186 | deleting a key keeps the keys unique |
| SimulatorRunner.RemoveConsistent | backend/simulator_runner.py:181-188 | dropping a tracked bus and stopping its thread keeps the table consistent and every thread reachable or stopped |
| SimulatorRunner.ThreadsBelow | backend/simulator_runner.py:195-197 | exactly the thread numbers below n |
| SimulatorRunner.Published | backend/simulator_runner.py:110-112 | the publishing thread's counter goes up by one and its last publish is recorded; every other entry is unchanged |
| SimulatorRunner.SimulatorManager.constructor | backend/simulator_runner.py:120-126 | nothing tracked, started or stopped, no start time |
| SimulatorRunner.SimulatorManager.Launch | backend/simulator_runner.py:152-159 | the start time is set when nothing ran; one thread per bus is started and assigned in order; consistency kept, and full reachability when the buses are distinct and new |
| SimulatorRunner.StartIdempotent | backend/simulator_runner.py:145-160 | after a start every requested id is tracked, so a second start with the same ids finds nothing new and changes nothing |
| SimulatorRunner.SimulatorManager.Start | backend/simulator_runner.py:145-160 | the untracked requested ids (the default fleet for a missing or empty list), repeats included, are started in order; with none the call changes nothing; the status of the new table is answered |
| SimulatorRunner.SimulatorManager.StartDeduped | backend/simulator_runner.py:145-160 | each new id started once, appended in order; every started thread stays reachable |
| SimulatorRunner.SimulatorManager.StartBus | backend/simulator_runner.py:162-174 | a tracked bus changes nothing; otherwise one thread is started and appended, with the start time set when nothing ran; reachability kept |
| SimulatorRunner.SimulatorManager.StopBus | backend/simulator_runner.py:176-189 | an untracked bus changes nothing; otherwise its thread is told to stop, only its entry is deleted, and an emptied table clears the start time |
| SimulatorRunner.SimulatorManager.Stop | backend/simulator_runner.py:191-201 | with nothing tracked nothing changes; otherwise every thread started is told to stop, the table is emptied and the start time cleared |
| SimulatorRunner.SimulatorManager.RecordPublish | backend/simulator_runner.py:110-112 | the table becomes Published; consistency and reachability kept |
| AuthRoutes.Login | backend/auth_routes.py:34-40 | success only for a user of that name whose hash verifies the password, answering that user's token, name and role; otherwise 401, and with unique names a 401 means no user of that name verifies |
| AuthRoutes.LoginSucceeds | backend/auth_routes.py:36-40 | a user whose password verifies always logs in |
| AuthRoutes.RequireAdmin | backend/auth.py:72-75 | passes the caller through exactly when its role is admin, 403 otherwise |
| AuthRoutes.ListUsers | backend/auth_routes.py:48-51 | for an admin every row in table order, 403 otherwise |
| AuthRoutes.CreateCheck | backend/auth_routes.py:54-60 | accepted exactly for an admin with a valid body, a role of admin or operator and a new name; 403 for a non-admin, then 422 for an invalid body, otherwise 400 |
| AuthRoutes.DeleteCheck | backend/auth_routes.py:72-81 | accepted exactly for an admin deleting an existing other user no message names as sender; 403 for a non-admin, 400 for oneself, 404 for an unknown id |
| AuthRoutes.RemoveAt | backend/auth_routes.py:80 | the table without its k-th row, the others in order |
| AuthRoutes.RemoveAtOk | backend/auth_routes.py:80-81 | deleting a row keeps names and ids unique and removes exactly the user with that row's id |
| AuthRoutes.RemoveAtMembers | backend/auth_routes.py:80 | the rows left are exactly those with another id |
| AuthRoutes.AppendOk | backend/auth_routes.py:61-68 | a row with a new name and the next id keeps names and ids unique |
| AuthRoutes.WithHash | backend/auth_routes.py:94 | only the hash of the row with that id changes |
| AuthRoutes.WithHashOk | backend/auth_routes.py:94-95 | a new hash keeps the table well formed and every user id |
| AuthRoutes.ChangeCheck | backend/auth_routes.py:29-31 | accepted exactly for a new password of at least 6 characters when the current one verifies; 422 for a short one, otherwise 401 |
| AuthRoutes.SendersKept | backend/auth_routes.py:94-95 | messages keep their sender when every user id survives |
| AuthRoutes.SendersKeptWithout | backend/auth_routes.py:80-81 | messages keep their sender when only a user no message names goes |
| AuthRoutes.BootRows | backend/auth_routes.py:105-111 | the rows of the first k default users with consecutive ids and hashed passwords |
| AuthRoutes.BootstrapUsers | backend/auth_routes.py:105-108 | the defaults are admin with role admin and operator1 with role operator, in that order |
| AuthRoutes.Routes.CreateUser | backend/auth_routes.py:54-69 | a refused request answers its error and writes nothing; otherwise exactly one row with the next id, the name, the role and the hashed password is appended and answered |
| AuthRoutes.Routes.AddUser | backend/auth_routes.py:61-68 | appends the row with the next id, the name, the role and the hash of the password |
| AuthRoutes.Routes.DeleteUser | backend/auth_routes.py:72-82 | a refused request writes nothing; otherwise only the row of that id goes |
| AuthRoutes.Routes.ChangePassword | backend/auth_routes.py:85-97 | a refused request writes nothing; otherwise only the caller's hash changes, to the hash of the new password |
| AuthRoutes.Routes.BootstrapDefaultUsers | backend/auth_routes.py:100-112 | a table with any row is left alone; an empty one receives admin and operator1 with the next two ids |
| App.HistoryWindow | backend/main.py:97-100 | 400 exactly when both bounds are given and from is after to; a missing from becomes one hour before now and to passes through |
| App.BusHistory | backend/main.py:89-114 | fails exactly when the window does; otherwise the store's history answered one for one, in order |
| App.HistoryWithinWindow | backend/main.py:89-114 | every sample answered is a stored sample of that bus inside the window, oldest first |
| App.ListBuses | backend/main.py:67-86 | one entry per row in order, with the row's telemetry and the Bus row's name and capacity, both None without a Bus row |
| App.ListedBus | backend/main.py:67-86 | every bus with telemetry is listed, with its Bus row when it has one |
| App.RecentAlertsRoute | backend/main.py:117-135 | limit defaults to 50; 422 exactly outside [1, 200]; otherwise the min(limit, count) newest alerts, newest first |

## Left out

- JSON and Pydantic decoding are not modelled. An MQTT payload arrives
  already decoded, as `Option<TelemetryIn>`, where None stands for a payload
  that fails to decode or validate. A request body arrives as decoded
  values.
- JWT handling and `get_current_user` are not modelled. The caller is given
  as the users-table row its token resolves to. The token itself is the
  parameter `token`. The `/auth/me` route only echoes that row and is not
  modelled.
- bcrypt hashing and verification are the parameters `hash` and `verify`.
- Float text is not interpreted: `str()` of a float, `float()` of text and
  the `{:.1f}` format are the parameters of `FloatText`. Speeds, thresholds
  and coordinates are reals.
- ConfigManager.UpdateReadsBack: requires that the threshold survives
  `str()` and `float()`. The parameters do not promise that.
- SimulatorRunner.BusSimulatorThread.NextPoint: interpolates over reals
  without float rounding. It requires a non-negative step, which the
  source's draw in [0.08, 0.25] satisfies. Its `len(route) < 2` guard
  cannot fire, because every route has four points.
- Settings.DatabaseUrl: states the scheme prefix, the length and the
  "/db" suffix of the URL. The whole concatenation is its body.
- MqttClient.Ingestor.RaiseIf: the swallowed failure of the automatic SMS
  is not modelled. Its insert cannot fail here, because the alert was just
  stored and the administrator is a stored user.
- Threads, locks, sleeps, clocks and random draws are not modelled. They
  become inputs: the lifecycle outcomes (`SmsDraws`, `Fault`), the step
  and jitter of a simulated bus, the random fallback of `_extract_number`,
  the client id suffix, and `now`.
- `BusSimulatorThread.run` is not modelled: its MQTT client, its payload,
  `_compute_speed`, the door toggling and the occupancy draw. Its effect
  on the metrics is `SimulatorManager.RecordPublish`. A thread told to
  stop is taken to stop, whatever the one-second join timeout.
- MQTT and network I/O are appends to the `outbox` sequence and the
  `subscriptions` sequence. That covers broker connection, subscribe,
  publish and ThingSpeak's `publish.single`. A failed ThingSpeak publish
  is logged and swallowed, so the model does not observe it.
- SQL transactions are simplified. A commit applies the pending writes in
  order. `get_or_create_bus` inserts at once. The only modelled rollback
  is that of the stored sample when the configuration cannot be read
  (`Crud.Store.RollbackTelemetry`). Other database failures are not
  modelled. These include the failure paths of `on_message`, the
  exception and rollback path of `bootstrap_default_users`, and
  connection errors.
- Serials are counters that go up by one per insert.
- `.first()` without `ORDER BY` (the first administrator) takes the
  table's order.
- `ORDER BY bus_id` is taken to use code-point order, as under
  PostgreSQL's "C" collation.
- `get_config_map` is the store's `config` field itself.
- Timestamps are integer microseconds. Time zones and `isoformat` are not
  modelled.
- `lower()` is modelled for ASCII letters only.
- Text.ParseInt: int() also accepts non-ASCII decimal digits (Arabic-Indic
  and other Unicode `Nd` characters); the model refuses them. The path
  parameter of `get_message` is read with the same model of int(), while
  FastAPI's own integer parsing differs in such details.
- The column widths and integer ranges of backend/models.py are not
  modelled: `String(64)` (bus ids, alert and template types, usernames,
  configuration keys), `String(32)` (role, status), `String(255)` (password
  hash) and the 32-bit `Integer` columns. A value the database would refuse
  to store, such as a 65-character bus id, is stored by the model.
- The thin route wrappers in backend/main.py are not modelled separately:
  configuration read and update, and simulator status, start, stop,
  start_bus and stop_bus. Each one passes its arguments to a modelled
  operation (`ConfigManager.GetConfig`, `ConfigManager.UpdateConfig`,
  the `SimulatorManager` methods).
- The health route, the startup and shutdown hooks, CORS and logging are
  not modelled.
- backend/db.py and simulator/bus_simulator.py are not part of this model.
  backend/models.py is used only for its columns, unique columns and foreign
  keys.
  backend/auth.py is used only for `require_admin` and
  `get_user_by_username`.

## Findings

| source | as written | input that shows it | evidently intended | confidence | as-written member | corrected member |
|---|---|---|---|---|---|---|
| backend/message_routes.py:80-94 | `GET /api/messages/{message_id}` is registered before `GET /api/messages/templates`, so the parameterised route takes the request and `int("templates")` fails | GET /api/messages/templates is answered 422 by get_message | the template catalogue is answered | high; not executed | MessageRoutes.TemplatesShadowedAsWritten | MessageRoutes.TemplatesReachableCorrected |
| backend/simulator_runner.py:149-159 | `new_buses` keeps repeated ids: one thread is started per repeat, and only the last one stays in `_threads` | start(["bus-2", "bus-2"]) starts two threads; after stop_bus("bus-2") the first still runs and no call but stop() reaches it | each new id is started once | medium; not executed | SimulatorRunner.DuplicateStartOrphans | SimulatorRunner.SimulatorManager.StartDeduped |
