/** Request and response payloads of the REST API and their field constraints
    (backend/schemas.py). A payload that violates a constraint is answered
    with 422 before the handler runs; the Check* functions model that
    validation on already-decoded values. */
module Schemas {
  import opened Common
  import opened Records

  /** Telemetry sample as it arrives (JSON key `busId` or `bus_id`). */
  datatype TelemetryIn = TelemetryIn(
    busId: string,
    timestamp: int,
    lat: real,
    lon: real,
    speedKmh: real,
    occupancy: int,
    doorOpen: bool,
    engineOn: bool)

  /** Telemetry sample as it is answered (JSON key `busId`). */
  datatype TelemetryOut = TelemetryOut(
    busId: string,
    timestamp: int,
    lat: real,
    lon: real,
    speedKmh: real,
    occupancy: int,
    doorOpen: bool,
    engineOn: bool)

  /** A TelemetryOut with the bus's name and capacity appended. */
  datatype BusLatestTelemetry = BusLatestTelemetry(
    telemetry: TelemetryOut,
    name: Option<string>,
    capacity: Option<int>)

  datatype AlertOut = AlertOut(
    id: int,
    busId: string,
    timestamp: int,
    kind: string,
    value: real,
    threshold: real,
    message: string)

  datatype ConfigResponse = ConfigResponse(
    overspeedThreshold: real,
    pollIntervalSeconds: int,
    thingspeakEnabled: bool,
    autoSmsEnabled: bool)

  /** A partial configuration update: None is a field the payload omitted. */
  datatype ConfigUpdate = ConfigUpdate(
    overspeedThreshold: Option<real>,
    pollIntervalSeconds: Option<int>,
    thingspeakEnabled: Option<bool>,
    autoSmsEnabled: Option<bool>)

  /** The update an empty JSON object decodes to. */
  const EmptyConfigUpdate := ConfigUpdate(None, None, None, None)

  const MinOverspeed: real := 10.0
  const MaxOverspeed: real := 150.0
  const MinPollInterval := 1
  const MaxPollInterval := 60

  /** Validation of ConfigUpdate: a present threshold must lie in [10, 150]
      and a present poll interval in [1, 60], both ends included. */
  function CheckConfigUpdate(u: ConfigUpdate): (r: Result<ConfigUpdate>)
    ensures r.Ok? ==> r.value == u
    ensures r.Err? ==> r.error.status == Unprocessable
    ensures r.Ok? <==>
      (u.overspeedThreshold.Some? ==> MinOverspeed <= u.overspeedThreshold.value <= MaxOverspeed) &&
      (u.pollIntervalSeconds.Some? ==> MinPollInterval <= u.pollIntervalSeconds.value <= MaxPollInterval)
  {
    if u.overspeedThreshold.Some? && !(MinOverspeed <= u.overspeedThreshold.value <= MaxOverspeed) then
      Err(HttpError(Unprocessable, "overspeed_threshold must be between 10 and 150"))
    else if u.pollIntervalSeconds.Some? && !(MinPollInterval <= u.pollIntervalSeconds.value <= MaxPollInterval) then
      Err(HttpError(Unprocessable, "poll_interval_seconds must be between 1 and 60"))
    else
      Ok(u)
  }

  /** Every field of ConfigUpdate is optional: an empty payload is valid and
      leaves all four fields None. */
  lemma EmptyConfigUpdateAccepted()
    ensures CheckConfigUpdate(EmptyConfigUpdate) == Ok(ConfigUpdate(None, None, None, None))
  {
  }

  /** The lower bound on the threshold is 10: 30 km/h is accepted, 9.5 is not,
      and both ends of each range are accepted. */
  lemma ConfigUpdateBounds()
    ensures CheckConfigUpdate(ConfigUpdate(Some(30.0), None, None, None)).Ok?
    ensures CheckConfigUpdate(ConfigUpdate(Some(9.5), None, None, None)).Err?
    ensures CheckConfigUpdate(ConfigUpdate(Some(10.0), Some(60), None, None)).Ok?
    ensures CheckConfigUpdate(ConfigUpdate(Some(150.0), Some(1), None, None)).Ok?
    ensures CheckConfigUpdate(ConfigUpdate(None, Some(61), None, None)).Err?
    ensures CheckConfigUpdate(ConfigUpdate(None, Some(0), None, None)).Err?
  {
  }

  /** `SimulatorStartRequest`: bus_ids is None (start the default fleet) or a
      non-empty list. */
  datatype SimulatorStartRequest = SimulatorStartRequest(busIds: Option<seq<string>>)

  function CheckSimulatorStart(req: SimulatorStartRequest): (r: Result<SimulatorStartRequest>)
    ensures r.Ok? <==> (req.busIds.None? || |req.busIds.value| >= 1)
    ensures r.Ok? ==> r.value == req
    ensures r.Err? ==> r.error.status == Unprocessable
  {
    match req.busIds
    case Some(ids) =>
      if |ids| == 0 then Err(HttpError(Unprocessable, "bus_ids should have at least 1 item"))
      else Ok(req)
    case None => Ok(req)
  }

  datatype SimulatorBusStatus = SimulatorBusStatus(
    busId: string,
    messagesSent: int,
    lastPublish: Option<int>,
    stationary: bool)

  datatype SimulatorStatusResponse = SimulatorStatusResponse(
    running: bool,
    startedAt: Option<int>,
    busCount: int,
    buses: seq<SimulatorBusStatus>)

  /** The decoded body of POST /api/auth/users before validation; `role` is
      None when the body omits it. */
  datatype UserCreateBody = UserCreateBody(username: string, password: string, role: Option<string>)

  datatype UserCreate = UserCreate(username: string, password: string, role: string)

  const DefaultRole := "operator"

  /** Validation of UserCreate: username of 3 to 64 characters, password of at
      least 6, role "operator" when omitted (any role text passes here). */
  function CheckUserCreate(body: UserCreateBody): (r: Result<UserCreate>)
    ensures r.Ok? <==> 3 <= |body.username| <= 64 && |body.password| >= 6
    ensures r.Ok? ==> r.value.username == body.username && r.value.password == body.password
    ensures r.Ok? ==> r.value.role == (if body.role.Some? then body.role.value else DefaultRole)
    ensures r.Err? ==> r.error.status == Unprocessable
  {
    if !(3 <= |body.username| <= 64) then
      Err(HttpError(Unprocessable, "username must have 3 to 64 characters"))
    else if |body.password| < 6 then
      Err(HttpError(Unprocessable, "password must have at least 6 characters"))
    else
      Ok(UserCreate(body.username, body.password, body.role.GetOr(DefaultRole)))
  }

  datatype UserOut = UserOut(id: int, username: string, role: string)

  /** Body of POST /api/messages/send; template_type is free text here and
      checked by the route. */
  datatype MessageSendRequest = MessageSendRequest(
    busId: string,
    alertId: Option<int>,
    templateType: string,
    customNote: Option<string>,
    speed: Option<real>,
    threshold: Option<real>)

  datatype MessageTemplateInfo = MessageTemplateInfo(kind: string, name: string, example: string)

  /** The fields TelemetryIn and TelemetryOut share, as one row. */
  function TelemetryOfIn(t: TelemetryIn, id: int): Telemetry
  {
    Telemetry(id, t.busId, t.timestamp, t.lat, t.lon, t.speedKmh, t.occupancy, t.doorOpen, t.engineOn)
  }

  /** TelemetryOut built from a stored row (from_attributes, busId <- bus_id). */
  function TelemetryOutOf(row: Telemetry): TelemetryOut
  {
    TelemetryOut(row.busId, row.timestamp, row.lat, row.lon, row.speedKmh, row.occupancy, row.doorOpen, row.engineOn)
  }

  /** Storing a sample and answering it back preserves every field, whatever
      id the row received. */
  lemma TelemetryRoundTrip(t: TelemetryIn, id: int)
    ensures var o := TelemetryOutOf(TelemetryOfIn(t, id));
      o.busId == t.busId && o.timestamp == t.timestamp && o.lat == t.lat && o.lon == t.lon &&
      o.speedKmh == t.speedKmh && o.occupancy == t.occupancy && o.doorOpen == t.doorOpen &&
      o.engineOn == t.engineOn
  {
  }

  function AlertOutOf(a: Alert): AlertOut
  {
    AlertOut(a.id, a.busId, a.timestamp, a.kind, a.value, a.threshold, a.message)
  }
}
