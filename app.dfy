/** Request shaping of the REST handlers (backend/main.py): validation and
    defaulting of query parameters and the mapping of store rows to
    responses. Instants are microseconds; `now` is a parameter. */
module App {
  import opened Common
  import opened Records
  import opened Schemas
  import opened Crud

  /** One hour, the default look-back of a history query. */
  const HistoryLookback := 3_600_000_000

  /** The window `bus_history` queries: 400 when both bounds are given and
      `from` is after `to`; a missing `from` becomes one hour before now, a
      missing `to` stays open. */
  function HistoryWindow(from: Option<int>, to: Option<int>, now: int): (r: Result<(int, Option<int>)>)
    ensures r.Err? <==> from.Some? && to.Some? && from.value > to.value
    ensures r.Err? ==> r.error.status == BadRequest
    ensures r.Ok? ==> r.value.0 == (if from.Some? then from.value else now - HistoryLookback)
    ensures r.Ok? ==> r.value.1 == to
  {
    if from.Some? && to.Some? && from.value > to.value then
      Err(HttpError(BadRequest, "`from` must be earlier than `to`."))
    else if from.None? then Ok((now - HistoryLookback, to))
    else Ok((from.value, to))
  }

  /** `bus_history`: the history rows of the window, answered one for one
      and in order. */
  function BusHistory(rows: seq<Telemetry>, busId: string, from: Option<int>, to: Option<int>, now: int): (r: Result<seq<TelemetryOut>>)
    ensures r.Err? <==> HistoryWindow(from, to, now).Err?
    ensures r.Err? ==> r.error.status == BadRequest
    ensures r.Ok? ==>
      var w := HistoryWindow(from, to, now).value;
      var h := TelemetryHistory(rows, busId, Some(w.0), w.1);
      |r.value| == |h| && forall i :: 0 <= i < |h| ==> r.value[i] == TelemetryOutOf(h[i])
  {
    match HistoryWindow(from, to, now)
    case Err(e) => Err(e)
    case Ok(w) =>
      var h := TelemetryHistory(rows, busId, Some(w.0), w.1);
      Ok(seq(|h|, i requires 0 <= i < |h| => TelemetryOutOf(h[i])))
  }

  /** Every sample a history answer holds is a stored sample of that bus
      inside the requested window (from one hour ago when `from` is
      missing), and the answer runs oldest first. */
  lemma {:induction false} HistoryWithinWindow(rows: seq<Telemetry>, busId: string, from: Option<int>, to: Option<int>, now: int)
    ensures var r := BusHistory(rows, busId, from, to, now);
      r.Ok? ==>
        var lower := if from.Some? then from.value else now - HistoryLookback;
        && (forall i :: 0 <= i < |r.value| ==>
              && r.value[i].busId == busId
              && lower <= r.value[i].timestamp
              && (to.Some? ==> r.value[i].timestamp <= to.value)
              && exists t :: t in rows && TelemetryOutOf(t) == r.value[i])
        && (forall i, j :: 0 <= i < j < |r.value| ==> r.value[i].timestamp <= r.value[j].timestamp)
  {
    var r := BusHistory(rows, busId, from, to, now);
    if r.Ok? {
      var w := HistoryWindow(from, to, now).value;
      var h := TelemetryHistory(rows, busId, Some(w.0), w.1);
      forall i | 0 <= i < |r.value|
        ensures && r.value[i].busId == busId && w.0 <= r.value[i].timestamp
                && (to.Some? ==> r.value[i].timestamp <= to.value)
                && exists t :: t in rows && TelemetryOutOf(t) == r.value[i]
      {
        assert h[i] in multiset(h);
        assert InWindow(h[i], busId, Some(w.0), w.1) && h[i] in multiset(rows);
        assert TelemetryOutOf(h[i]) == r.value[i];
      }
    }
  }

  /** One entry of `list_buses`: the latest sample with the bus's name and
      capacity, both None without a Bus row. */
  function BusEntry(t: Telemetry, bus: Option<Bus>): BusLatestTelemetry {
    BusLatestTelemetry(
      TelemetryOutOf(t),
      if bus.Some? then bus.value.name else None,
      if bus.Some? then bus.value.capacity else None)
  }

  /** `list_buses`: one entry per row of the latest-per-bus query, in its
      order. */
  method ListBuses(rows: seq<(Telemetry, Option<Bus>)>) returns (response: seq<BusLatestTelemetry>)
    ensures |response| == |rows|
    ensures forall i :: 0 <= i < |rows| ==> response[i].telemetry == TelemetryOutOf(rows[i].0)
    ensures forall i :: 0 <= i < |rows| ==>
      if rows[i].1.Some? then response[i].name == rows[i].1.value.name && response[i].capacity == rows[i].1.value.capacity
      else response[i].name.None? && response[i].capacity.None?
  {
    response := [];
    for k := 0 to |rows|
      invariant |response| == k
      invariant forall i :: 0 <= i < k ==> response[i] == BusEntry(rows[i].0, rows[i].1)
    {
      var (telemetry, bus) := rows[k];
      response := response + [BusEntry(telemetry, bus)];
    }
  }

  /** Every bus with telemetry appears in the bus list, with the name and
      capacity of its Bus row when it has one. */
  lemma ListedBus(rows: seq<Telemetry>, buses: seq<Bus>, busId: string)
    requires exists t :: t in rows && t.busId == busId
    ensures var pairs := LatestPerBus(rows, buses);
      exists i :: 0 <= i < |pairs| && BusEntry(pairs[i].0, pairs[i].1).telemetry.busId == busId
        && pairs[i].1 == FindBus(buses, busId)
  {
    EveryReportingBusListed(rows, busId);
    var latest := LatestRows(rows);
    var u :| u in latest && u.busId == busId;
    var i :| 0 <= i < |latest| && latest[i] == u;
    var pairs := LatestPerBus(rows, buses);
    assert pairs[i].0 == u;
  }

  const DefaultAlertLimit := 50
  const MaxAlertLimit := 200

  /** `recent_alerts`: the limit defaults to 50 and must lie in [1, 200]
      (422 otherwise); the answer is the `limit` newest alerts, newest first,
      one for one. */
  function RecentAlertsRoute(alerts: seq<Alert>, limit: Option<int>): (r: Result<seq<AlertOut>>)
    ensures var l := limit.GetOr(DefaultAlertLimit);
      && (r.Err? <==> !(1 <= l <= MaxAlertLimit))
      && (r.Err? ==> r.error.status == Unprocessable)
      && (r.Ok? ==> |r.value| == Min(l, |alerts|))
      && (r.Ok? ==> forall i, j :: 0 <= i < j < |r.value| ==> r.value[i].timestamp >= r.value[j].timestamp)
      && (r.Ok? ==> forall i :: 0 <= i < |r.value| ==> r.value[i] == AlertOutOf(RecentAlerts(alerts, l)[i]))
  {
    var l := limit.GetOr(DefaultAlertLimit);
    if !(1 <= l <= MaxAlertLimit) then
      Err(HttpError(Unprocessable, "limit must be between 1 and 200"))
    else
      var recent := RecentAlerts(alerts, l);
      Ok(seq(|recent|, i requires 0 <= i < |recent| => AlertOutOf(recent[i])))
  }
}
