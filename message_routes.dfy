/** The driver-message endpoints (backend/message_routes.py): request
    validation and defaulting for sending, lookups, the template catalogue,
    and the order in which the router matches the message paths. */
module MessageRoutes {
  import opened Common
  import opened Text
  import opened Records
  import opened Schemas
  import opened Crud
  import opened MessageTemplates
  import opened MessageService

  const TemplateTypes: set<string> := {"overspeed", "door_open", "custom"}

  /** Python truthiness of an optional id: present and not 0. */
  predicate Truthy(id: Option<int>) {
    id.Some? && id.value != 0
  }

  /** The speed and threshold handed to the service after defaulting. */
  datatype SendPlan = SendPlan(speed: Option<real>, threshold: Option<real>)

  /** The checks and defaulting of send_message before anything is written:
      an unknown template type is refused first (400); then a truthy alert id
      must name an alert (404) of the same bus (400), and that alert supplies
      a missing speed and, for the overspeed template only, a missing
      threshold. */
  function PrepareSend(req: MessageSendRequest, alerts: seq<Alert>): (r: Result<SendPlan>)
    ensures req.templateType !in TemplateTypes ==> r.Err? && r.error.status == BadRequest
    ensures req.templateType in TemplateTypes && Truthy(req.alertId) && !HasAlert(alerts, req.alertId.value) ==>
      r.Err? && r.error.status == NotFound
    ensures req.templateType in TemplateTypes && Truthy(req.alertId) && HasAlert(alerts, req.alertId.value) &&
            FindAlert(alerts, req.alertId.value).value.busId != req.busId
            ==> r.Err? && r.error.status == BadRequest
    ensures r.Ok? <==>
              && req.templateType in TemplateTypes
              && (Truthy(req.alertId) ==> HasAlert(alerts, req.alertId.value) &&
                                          FindAlert(alerts, req.alertId.value).value.busId == req.busId)
    ensures r.Ok? && !Truthy(req.alertId) ==> r.value == SendPlan(req.speed, req.threshold)
    ensures r.Ok? && Truthy(req.alertId) ==>
      var a := FindAlert(alerts, req.alertId.value).value;
      && r.value.speed == (if req.speed.Some? then req.speed else Some(a.value))
      && r.value.threshold == (if req.threshold.None? && req.templateType == "overspeed" then Some(a.threshold) else req.threshold)
  {
    if req.templateType !in TemplateTypes then
      Err(HttpError(BadRequest, "template_type must be 'overspeed', 'door_open', or 'custom'"))
    else if !Truthy(req.alertId) then
      Ok(SendPlan(req.speed, req.threshold))
    else
      match FindAlert(alerts, req.alertId.value)
      case None => Err(HttpError(NotFound, "Alert not found"))
      case Some(a) =>
        if a.busId != req.busId then Err(HttpError(BadRequest, "Alert does not belong to specified bus"))
        else
          var speed := if req.speed.None? then Some(a.value) else req.speed;
          var threshold := if req.threshold.None? && req.templateType == "overspeed" then Some(a.threshold) else req.threshold;
          Ok(SendPlan(speed, threshold))
  }

  /** An overspeed message tied to an alert of its bus always gets the
      overspeed text, and a door message tied to one the door text: the alert
      fills in whatever number the request left out. */
  lemma AlertBackedTemplates(req: MessageSendRequest, alerts: seq<Alert>, fixed1: real -> string)
    requires Truthy(req.alertId) && PrepareSend(req, alerts).Ok?
    ensures var p := PrepareSend(req, alerts).value;
      var text := BaseMessage(req.templateType, p.speed, p.threshold, fixed1);
      && (req.templateType == "overspeed" ==> OverspeedPrefix <= text)
      && (req.templateType == "door_open" ==> DoorPrefix <= text)
      && (req.templateType == "custom" ==> text == FallbackText)
  {
    var p := PrepareSend(req, alerts).value;
    BaseMessageChoice(req.templateType, p.speed, p.threshold, fixed1);
  }

  /** `send_message`: validate, send through the service, answer the stored
      record. A request that passes validation succeeds exactly when its bus,
      its alert (if any id is given) and its sender exist; any refusal writes
      nothing. */
  method SendMessage(store: Store, req: MessageSendRequest, currentUser: User, now: int, fixed1: real -> string)
    returns (r: Result<DriverMessage>)
    requires store.Valid()
    modifies store`messages, store`messageSeq
    ensures store.Valid()
    ensures PrepareSend(req, old(store.alerts)).Err? ==>
      r == Err(PrepareSend(req, old(store.alerts)).error) && store.messages == old(store.messages)
    ensures PrepareSend(req, old(store.alerts)).Ok? ==>
      (r.Ok? <==> HasBus(old(store.buses), req.busId) &&
                  (req.alertId.Some? ==> HasAlert(old(store.alerts), req.alertId.value)) &&
                  HasUser(old(store.users), currentUser.id))
    ensures r.Err? ==> store.messages == old(store.messages) && store.messageSeq == old(store.messageSeq)
    ensures PrepareSend(req, old(store.alerts)).Ok? && r.Err? ==> r.error.status == InternalError
    ensures r.Ok? ==>
      var p := PrepareSend(req, old(store.alerts)).value;
      && store.messages == old(store.messages) + [r.value]
      && r.value == DriverMessage(old(store.messageSeq), req.busId, req.alertId,
           MessageText(req.templateType, p.speed, p.threshold, req.customNote, fixed1),
           req.templateType, req.customNote, currentUser.id, now, StatusPending, None, None, None)
  {
    var plan := PrepareSend(req, store.alerts);
    if plan.Err? {
      return Err(plan.error);
    }
    ghost var before := store.messages;
    assert forall m :: m in before ==> m.id < store.messageSeq;
    var sent := SendDriverMessage(store, req.busId, req.templateType, currentUser.id, req.alertId, req.customNote,
                                  plan.value.speed, plan.value.threshold, now, fixed1);
    if sent.Err? {
      return Err(sent.error);
    }
    var m := FindMessage(store.messages, sent.value);
    if m.None? {
      return Err(HttpError(InternalError, "Failed to create message"));
    }
    MessageIdFresh(before, store.messages, sent.value);
    r := Ok(m.value);
  }

  /** The record just appended with a fresh id is the one found by that id. */
  lemma MessageIdFresh(before: seq<DriverMessage>, after: seq<DriverMessage>, id: int)
    requires |after| == |before| + 1 && after[..|before|] == before && after[|before|].id == id
    requires forall m :: m in before ==> m.id < id
    ensures FindMessage(after, id) == Some(after[|before|])
  {
    assert forall j :: 0 <= j < |before| ==> after[j] == before[j] && before[j] in before;
    assert after[|before|] in after;
  }

  /** Query parameters of GET /api/messages; None where the query omits one. */
  datatype ListQuery = ListQuery(busId: Option<string>, limit: Option<int>, offset: Option<int>)

  /** `list_messages`: limit defaults to 100 and must lie in [1, 500], offset
      defaults to 0 and must not be negative; the page is then taken from the
      store. */
  function ListMessages(msgs: seq<DriverMessage>, q: ListQuery): (r: Result<seq<DriverMessage>>)
    ensures r.Ok? <==> (q.limit.Some? ==> 1 <= q.limit.value <= 500) && (q.offset.Some? ==> q.offset.value >= 0)
    ensures r.Err? ==> r.error.status == Unprocessable
    ensures r.Ok? ==> r.value == DriverMessages(msgs, q.busId, q.limit.GetOr(100), q.offset.GetOr(0))
  {
    var limit := q.limit.GetOr(100);
    var offset := q.offset.GetOr(0);
    if !(1 <= limit <= 500) then Err(HttpError(Unprocessable, "limit must be between 1 and 500"))
    else if offset < 0 then Err(HttpError(Unprocessable, "offset must not be negative"))
    else Ok(DriverMessages(msgs, q.busId, limit, offset))
  }

  /** `get_message`: the record with that id, or 404. */
  function GetMessage(msgs: seq<DriverMessage>, id: int): (r: Result<DriverMessage>)
    ensures r.Ok? ==> r.value in msgs && r.value.id == id
    ensures r.Err? <==> forall m :: m in msgs ==> m.id != id
    ensures r.Err? ==> r.error.status == NotFound
  {
    match FindMessage(msgs, id)
    case Some(m) => Ok(m)
    case None => Err(HttpError(NotFound, "Message not found"))
  }

  // The catalogue's example texts, written in pieces at the points where the
  // templates insert their numbers.
  const OverspeedExample := "ALERT: Overspeed detected. Current speed: " + "85.0" + " km/h (limit: " + "70.0"
                            + " km/h). Please reduce speed immediately for safety."
  const DoorExample := "ALERT: Door is open while bus is moving (speed: " + "25.0"
                       + " km/h). Please close the door immediately for passenger safety."

  /** `get_templates`: the catalogue, in the order overspeed, door_open,
      custom. */
  function GetTemplates(): (r: seq<MessageTemplateInfo>)
    ensures |r| == 3
    ensures r[0].kind == "overspeed" && r[1].kind == "door_open" && r[2].kind == "custom"
    ensures forall i :: 0 <= i < |r| ==> r[i].kind in TemplateTypes
  {
    [MessageTemplateInfo("overspeed", "Overspeed Alert", OverspeedExample),
     MessageTemplateInfo("door_open", "Door Open While Moving", DoorExample),
     MessageTemplateInfo("custom", "Custom Message", FallbackText)]
  }

  /** The catalogue's examples are what the service sends: the overspeed
      example is the overspeed text for 85 km/h over a 70 km/h limit, the door
      example the door text for 25 km/h, the custom example the fallback. */
  lemma ExamplesMatchTemplates(fixed1: real -> string)
    requires fixed1(85.0) == "85.0" && fixed1(70.0) == "70.0" && fixed1(25.0) == "25.0"
    ensures GetTemplates()[0].example == MessageText("overspeed", Some(85.0), Some(70.0), None, fixed1)
    ensures GetTemplates()[1].example == MessageText("door_open", Some(25.0), None, None, fixed1)
    ensures GetTemplates()[2].example == MessageText("custom", None, None, None, fixed1)
  {
  }

  // ------------------------------------------------------------- routing

  /** A path segment of a route: fixed text, or a parameter that matches any
      one segment. */
  datatype Segment = Fixed(text: string) | Param

  datatype Endpoint = SendEndpoint | ListEndpoint | GetMessageEndpoint | TemplatesEndpoint

  datatype Route = Route(verb: string, path: seq<Segment>, endpoint: Endpoint)

  predicate Matches(path: seq<Segment>, request: seq<string>) {
    |path| == |request| && forall i :: 0 <= i < |path| ==> (path[i].Fixed? ==> path[i].text == request[i])
  }

  /** The first route, in registration order, whose verb and path match
      (DispatchFirst states the order). */
  function Dispatch(routes: seq<Route>, verb: string, request: seq<string>): (r: Option<Endpoint>)
    ensures r.Some? ==> exists i :: 0 <= i < |routes| && routes[i].endpoint == r.value &&
                                    routes[i].verb == verb && Matches(routes[i].path, request)
    ensures r.None? ==> forall i :: 0 <= i < |routes| ==> !(routes[i].verb == verb && Matches(routes[i].path, request))
  {
    if routes == [] then None
    else if routes[0].verb == verb && Matches(routes[0].path, request) then Some(routes[0].endpoint)
    else
      var r := Dispatch(routes[1..], verb, request);
      assert forall i :: 1 <= i < |routes| ==> routes[i] == routes[1..][i - 1];
      r
  }

  /** Routes are tried in registration order: the chosen route is the first
      whose verb and path match, and no earlier route matches. */
  lemma {:induction false} DispatchFirst(routes: seq<Route>, verb: string, request: seq<string>)
    ensures var r := Dispatch(routes, verb, request);
            r.Some? ==> exists i :: 0 <= i < |routes| && routes[i].endpoint == r.value &&
                                    routes[i].verb == verb && Matches(routes[i].path, request) &&
                                    forall j :: 0 <= j < i ==> !(routes[j].verb == verb && Matches(routes[j].path, request))
  {
    if routes != [] && !(routes[0].verb == verb && Matches(routes[0].path, request)) {
      var tail := routes[1..];
      DispatchFirst(tail, verb, request);
      if Dispatch(tail, verb, request).Some? {
        var k :| 0 <= k < |tail| && tail[k].endpoint == Dispatch(tail, verb, request).value &&
                 tail[k].verb == verb && Matches(tail[k].path, request) &&
                 forall j :: 0 <= j < k ==> !(tail[j].verb == verb && Matches(tail[j].path, request));
        assert forall j :: 1 <= j < |routes| ==> routes[j] == tail[j - 1];
        assert routes[k + 1] == tail[k];
      }
    }
  }

  const ApiMessages: seq<Segment> := [Fixed("api"), Fixed("messages")]

  /** The message routes in the order the module registers them. */
  const RoutesAsWritten: seq<Route> := [
    Route("POST", ApiMessages + [Fixed("send")], SendEndpoint),
    Route("GET", ApiMessages, ListEndpoint),
    Route("GET", ApiMessages + [Param], GetMessageEndpoint),
    Route("GET", ApiMessages + [Fixed("templates")], TemplatesEndpoint)]

  /** The same routes with the fixed path registered before the
      parameterised one. */
  const RoutesCorrected: seq<Route> := [
    Route("POST", ApiMessages + [Fixed("send")], SendEndpoint),
    Route("GET", ApiMessages, ListEndpoint),
    Route("GET", ApiMessages + [Fixed("templates")], TemplatesEndpoint),
    Route("GET", ApiMessages + [Param], GetMessageEndpoint)]

  /** The status a GET of /api/messages/{segment} obtains: the get_message
      route converts its parameter with int() and answers 422 when that
      fails. */
  function GetStatus(routes: seq<Route>, segment: string, msgs: seq<DriverMessage>): int {
    match Dispatch(routes, "GET", ["api", "messages", segment])
    case Some(GetMessageEndpoint) =>
      (match ParseInt(segment)
       case None => Unprocessable
       case Some(id) => if GetMessage(msgs, id).Ok? then 200 else NotFound)
    case Some(TemplatesEndpoint) => 200
    case _ => NotFound
  }

  /** As registered, GET /api/messages/templates is taken by the
      {message_id} route and answered 422: the catalogue is unreachable. */
  lemma TemplatesShadowedAsWritten(msgs: seq<DriverMessage>)
    ensures Dispatch(RoutesAsWritten, "GET", ["api", "messages", "templates"]) == Some(GetMessageEndpoint)
    ensures GetStatus(RoutesAsWritten, "templates", msgs) == Unprocessable
  {
    TemplatesTaken();
    TemplatesIsNotANumber();
  }

  /** The route table as registered sends /api/messages/templates to
      get_message. */
  lemma TemplatesTaken()
    ensures Dispatch(RoutesAsWritten, "GET", ["api", "messages", "templates"]) == Some(GetMessageEndpoint)
  {
    var req := ["api", "messages", "templates"];
    var rs := RoutesAsWritten;
    assert rs[2].path[2] == Param;
    assert Matches(rs[2].path, req);
    assert Dispatch(rs[2..], "GET", req) == Some(GetMessageEndpoint);
    assert rs[1..][1..] == rs[2..];
    assert !Matches(rs[1].path, req);
    assert Dispatch(rs[1..], "GET", req) == Some(GetMessageEndpoint);
    assert rs[0].verb != "GET";
  }

  /** int("templates") raises. */
  lemma TemplatesIsNotANumber()
    ensures ParseInt("templates").None?
  {
    assert NoSpace("templates");
    assert !IsDigit("templates"[0]);
  }

  /** With the fixed path first, the catalogue is reachable and every numeric
      id still reaches get_message. */
  lemma {:induction false} TemplatesReachableCorrected(n: nat)
    ensures Dispatch(RoutesCorrected, "GET", ["api", "messages", "templates"]) == Some(TemplatesEndpoint)
    ensures Dispatch(RoutesCorrected, "GET", ["api", "messages", NatToString(n)]) == Some(GetMessageEndpoint)
  {
    var rs := RoutesCorrected;
    assert rs[1..][1..] == rs[2..] && rs[2..][1..] == rs[3..];
    assert rs[0].verb != "GET";
    var req := ["api", "messages", "templates"];
    assert Matches(rs[2].path, req) && !Matches(rs[1].path, req);
    assert Dispatch(rs[2..], "GET", req) == Some(TemplatesEndpoint);
    assert Dispatch(rs[1..], "GET", req) == Some(TemplatesEndpoint);
    var digits := NatToString(n);
    var num := ["api", "messages", digits];
    assert digits != "templates" by {
      assert IsDigit(digits[0]) && !IsDigit("templates"[0]);
    }
    assert rs[2].path[2] == Fixed("templates") && |rs[1].path| == 2;
    assert !Matches(rs[2].path, num) && !Matches(rs[1].path, num);
    assert Matches(rs[3].path, num);
    assert Dispatch(rs[3..], "GET", num) == Some(GetMessageEndpoint);
    assert Dispatch(rs[2..], "GET", num) == Some(GetMessageEndpoint);
    assert Dispatch(rs[1..], "GET", num) == Some(GetMessageEndpoint);
  }
}
