/** The record store (backend/crud.py): the tables as sequences of rows, the
    configuration table as a map, the id serials as counters. The queries are
    functions on the table contents; the writes are methods of Store. */
module Crud {
  import opened Common
  import opened Text
  import opened Sorting
  import opened Records
  import opened Schemas

  // ---------------------------------------------------------------- lookups

  predicate HasBus(buses: seq<Bus>, busId: string) {
    exists b :: b in buses && b.busId == busId
  }

  /** The Bus row with that bus_id (the column is unique). */
  function FindBus(buses: seq<Bus>, busId: string): (r: Option<Bus>)
    ensures r.Some? <==> HasBus(buses, busId)
    ensures r.Some? ==> r.value in buses && r.value.busId == busId
  {
    match FirstIndex(buses, (b: Bus) => b.busId == busId)
    case Some(i) => Some(buses[i])
    case None =>
      assert forall b :: b in buses ==> b.busId != busId by {
        forall b | b in buses ensures b.busId != busId {
          var j :| 0 <= j < |buses| && buses[j] == b;
        }
      }
      None
  }

  predicate HasAlert(alerts: seq<Alert>, id: int) {
    exists a :: a in alerts && a.id == id
  }

  function FindAlert(alerts: seq<Alert>, id: int): (r: Option<Alert>)
    ensures r.Some? <==> HasAlert(alerts, id)
    ensures r.Some? ==> r.value in alerts && r.value.id == id
  {
    match FirstIndex(alerts, (a: Alert) => a.id == id)
    case Some(i) => Some(alerts[i])
    case None =>
      assert forall a :: a in alerts ==> a.id != id by {
        forall a | a in alerts ensures a.id != id {
          var j :| 0 <= j < |alerts| && alerts[j] == a;
        }
      }
      None
  }

  predicate HasUser(users: seq<User>, id: int) {
    exists u :: u in users && u.id == id
  }

  function UserIndex(users: seq<User>, id: int): (r: Option<nat>)
    ensures r.Some? ==> r.value < |users| && users[r.value].id == id
    ensures r.Some? ==> forall j :: 0 <= j < r.value ==> users[j].id != id
    ensures r.None? <==> !HasUser(users, id)
  {
    var r := FirstIndex(users, (u: User) => u.id == id);
    if r.None? then
      assert forall u :: u in users ==> u.id != id by {
        forall u | u in users ensures u.id != id {
          var j :| 0 <= j < |users| && users[j] == u;
        }
      }
      r
    else r
  }

  function FindUserByName(users: seq<User>, username: string): (r: Option<User>)
    ensures r.Some? ==> r.value in users && r.value.username == username
    ensures r.None? ==> forall u :: u in users ==> u.username != username
  {
    match FirstIndex(users, (u: User) => u.username == username)
    case Some(i) => Some(users[i])
    case None =>
      assert forall u :: u in users ==> u.username != username by {
        forall u | u in users ensures u.username != username {
          var j :| 0 <= j < |users| && users[j] == u;
        }
      }
      None
  }

  /** The position of the message with that id (`.first()`). */
  function MessageIndex(msgs: seq<DriverMessage>, id: int): (r: Option<nat>)
    ensures r.Some? ==> r.value < |msgs| && msgs[r.value].id == id
    ensures r.Some? ==> forall j :: 0 <= j < r.value ==> msgs[j].id != id
    ensures r.None? ==> forall m :: m in msgs ==> m.id != id
  {
    var r := FirstIndex(msgs, (m: DriverMessage) => m.id == id);
    if r.None? then
      assert forall m :: m in msgs ==> m.id != id by {
        forall m | m in msgs ensures m.id != id {
          var j :| 0 <= j < |msgs| && msgs[j] == m;
        }
      }
      r
    else r
  }

  /** `get_driver_message_by_id`. */
  function FindMessage(msgs: seq<DriverMessage>, id: int): (r: Option<DriverMessage>)
    ensures r.Some? ==> r.value in msgs && r.value.id == id
    ensures r.None? <==> forall m :: m in msgs ==> m.id != id
  {
    match MessageIndex(msgs, id)
    case Some(i) => Some(msgs[i])
    case None => None
  }

  // ------------------------------------------------------- get_or_create_bus

  /** The bus table after `get_or_create_bus(busId)` when the next serial
      value is nextId. */
  function WithBus(buses: seq<Bus>, busId: string, nextId: int): (r: seq<Bus>)
    ensures HasBus(r, busId)
    ensures HasBus(buses, busId) ==> r == buses
    ensures !HasBus(buses, busId) ==> r == buses + [Bus(nextId, busId, None, None)]
  {
    if HasBus(buses, busId) then buses
    else
      assert Bus(nextId, busId, None, None) in buses + [Bus(nextId, busId, None, None)];
      buses + [Bus(nextId, busId, None, None)]
  }

  /** Calling get_or_create_bus again for the same bus changes nothing, whatever
      the serial has moved to. */
  lemma WithBusIdempotent(buses: seq<Bus>, busId: string, nextId: int, laterId: int)
    ensures WithBus(WithBus(buses, busId, nextId), busId, laterId) == WithBus(buses, busId, nextId)
  {
  }

  // ---------------------------------------------------------------- history

  predicate InWindow(t: Telemetry, busId: string, from: Option<int>, to: Option<int>) {
    && t.busId == busId
    && (from.Some? ==> from.value <= t.timestamp)
    && (to.Some? ==> t.timestamp <= to.value)
  }

  function TelemetryAsc(a: Telemetry, b: Telemetry): bool { a.timestamp <= b.timestamp }

  lemma TelemetryAscTotal()
    ensures TotalPreorder(TelemetryAsc)
  {
  }

  /** `get_telemetry_history`: the rows of that bus inside the inclusive
      window, oldest first. */
  function TelemetryHistory(rows: seq<Telemetry>, busId: string, from: Option<int>, to: Option<int>): (r: seq<Telemetry>)
    ensures forall t :: multiset(r)[t] == if InWindow(t, busId, from, to) then multiset(rows)[t] else 0
    ensures forall i, j :: 0 <= i < j < |r| ==> r[i].timestamp <= r[j].timestamp
  {
    var kept := Filter(rows, (t: Telemetry) => InWindow(t, busId, from, to));
    TelemetryAscTotal();
    SortBySorted(kept, TelemetryAsc);
    SortBy(kept, TelemetryAsc)
  }

  /** A bus without rows has an empty history (and no error). */
  lemma UnknownBusHistoryEmpty(rows: seq<Telemetry>, busId: string, from: Option<int>, to: Option<int>)
    requires forall t :: t in rows ==> t.busId != busId
    ensures TelemetryHistory(rows, busId, from, to) == []
  {
  }

  // --------------------------------------------------------- latest per bus

  /** t has the largest timestamp among the rows of its bus. */
  predicate IsLatest(t: Telemetry, rows: seq<Telemetry>) {
    forall u :: u in rows && u.busId == t.busId ==> u.timestamp <= t.timestamp
  }

  function TelemetryByBus(a: Telemetry, b: Telemetry): bool { StrLe(a.busId, b.busId) }

  lemma TelemetryByBusTotal()
    ensures TotalPreorder(TelemetryByBus)
  {
    forall a: Telemetry, b: Telemetry ensures TelemetryByBus(a, b) || TelemetryByBus(b, a) {
      StrLeTotal(a.busId, b.busId);
    }
    forall a: Telemetry, b: Telemetry, c: Telemetry | TelemetryByBus(a, b) && TelemetryByBus(b, c)
      ensures TelemetryByBus(a, c)
    {
      StrLeTransitive(a.busId, b.busId, c.busId);
    }
  }

  /** The rows of the group-by-max join: each row whose timestamp is its bus's
      maximum (ties all kept), ordered by bus_id. */
  function LatestRows(rows: seq<Telemetry>): (r: seq<Telemetry>)
    ensures forall t :: multiset(r)[t] == if IsLatest(t, rows) then multiset(rows)[t] else 0
    ensures forall i, j :: 0 <= i < j < |r| ==> StrLe(r[i].busId, r[j].busId)
  {
    var kept := Filter(rows, (t: Telemetry) => IsLatest(t, rows));
    TelemetryByBusTotal();
    SortBySorted(kept, TelemetryByBus);
    SortBy(kept, TelemetryByBus)
  }

  lemma {:induction false} LatestExists(rows: seq<Telemetry>, t: Telemetry)
    requires t in rows
    ensures exists u :: u in rows && u.busId == t.busId && IsLatest(u, rows)
  {
    var rest := rows[1..];
    assert rows == [rows[0]] + rest;
    if s :| s in rest && s.busId == t.busId {
      LatestExists(rest, s);
      var u :| u in rest && u.busId == t.busId && IsLatest(u, rest);
      if rows[0].busId == t.busId && rows[0].timestamp > u.timestamp {
        assert IsLatest(rows[0], rows);
      } else {
        assert IsLatest(u, rows);
      }
    } else {
      assert t == rows[0];
      assert IsLatest(rows[0], rows);
    }
  }

  /** Every bus with at least one telemetry row has a row in the result, and
      every row of the result belongs to a bus with telemetry. */
  lemma EveryReportingBusListed(rows: seq<Telemetry>, busId: string)
    ensures (exists t :: t in rows && t.busId == busId) <==>
            (exists u :: u in LatestRows(rows) && u.busId == busId)
  {
    var r := LatestRows(rows);
    if t :| t in rows && t.busId == busId {
      LatestExists(rows, t);
      var u :| u in rows && u.busId == busId && IsLatest(u, rows);
      assert multiset(r)[u] > 0;
    }
    if u :| u in r && u.busId == busId {
      assert multiset(r)[u] > 0;
      assert u in rows;
    }
  }

  /** `get_latest_telemetry_per_bus`: each latest row paired with its Bus row
      by an outer join (None when the bus has no row). */
  function LatestPerBus(rows: seq<Telemetry>, buses: seq<Bus>): (r: seq<(Telemetry, Option<Bus>)>)
    ensures |r| == |LatestRows(rows)|
    ensures forall i :: 0 <= i < |r| ==> r[i].0 == LatestRows(rows)[i]
    ensures forall i :: 0 <= i < |r| ==> r[i].1 == FindBus(buses, r[i].0.busId)
  {
    var latest := LatestRows(rows);
    seq(|latest|, i requires 0 <= i < |latest| => (latest[i], FindBus(buses, latest[i].busId)))
  }

  // ---------------------------------------------------------- recent alerts

  function AlertDesc(a: Alert, b: Alert): bool { a.timestamp >= b.timestamp }

  lemma AlertDescTotal()
    ensures TotalPreorder(AlertDesc)
  {
  }

  /** `get_recent_alerts`: the `limit` newest alerts, newest first. */
  function RecentAlerts(alerts: seq<Alert>, limit: nat): (r: seq<Alert>)
    ensures |r| == Min(limit, |alerts|)
    ensures forall i, j :: 0 <= i < j < |r| ==> r[i].timestamp >= r[j].timestamp
    ensures multiset(r) <= multiset(alerts)
    ensures forall a, b :: a in r && b in multiset(alerts) - multiset(r) ==> a.timestamp >= b.timestamp
  {
    var sorted := SortBy(alerts, AlertDesc);
    var k := Min(limit, |sorted|);
    NewestPrefix(alerts, k);
    sorted[..k]
  }

  lemma NewestPrefix(alerts: seq<Alert>, k: nat)
    requires k <= |alerts|
    ensures var p := SortBy(alerts, AlertDesc)[..k];
      && (forall i, j :: 0 <= i < j < |p| ==> p[i].timestamp >= p[j].timestamp)
      && multiset(p) <= multiset(alerts)
      && (forall a, b :: a in p && b in multiset(alerts) - multiset(p) ==> a.timestamp >= b.timestamp)
  {
    var sorted := SortBy(alerts, AlertDesc);
    var p := sorted[..k];
    AlertDescTotal();
    SortBySorted(alerts, AlertDesc);
    forall i, j | 0 <= i < j < |p| ensures p[i].timestamp >= p[j].timestamp {
      assert AlertDesc(sorted[i], sorted[j]);
    }
    PrefixDominatesRest(sorted, k, AlertDesc);
    assert multiset(sorted) == multiset(alerts);
    forall a, b | a in p && b in multiset(alerts) - multiset(p) ensures a.timestamp >= b.timestamp {
      assert AlertDesc(a, b);
    }
  }

  // -------------------------------------------------------- driver messages

  predicate OnBus(m: DriverMessage, busId: Option<string>) {
    busId.Some? ==> m.busId == busId.value
  }

  function MessageDesc(a: DriverMessage, b: DriverMessage): bool { a.sentAt >= b.sentAt }

  lemma MessageDescTotal()
    ensures TotalPreorder(MessageDesc)
  {
  }

  /** The messages the listing pages through: the bus filter, newest first. */
  function OrderedMessages(msgs: seq<DriverMessage>, busId: Option<string>): (r: seq<DriverMessage>)
    ensures forall m :: multiset(r)[m] == if OnBus(m, busId) then multiset(msgs)[m] else 0
    ensures forall i, j :: 0 <= i < j < |r| ==> r[i].sentAt >= r[j].sentAt
  {
    var kept := Filter(msgs, (m: DriverMessage) => OnBus(m, busId));
    MessageDescTotal();
    SortBySorted(kept, MessageDesc);
    SortBy(kept, MessageDesc)
  }

  /** `get_driver_messages`: OFFSET then LIMIT over OrderedMessages. */
  function DriverMessages(msgs: seq<DriverMessage>, busId: Option<string>, limit: nat, offset: nat): (r: seq<DriverMessage>)
    ensures var all := OrderedMessages(msgs, busId);
      |r| == (if offset >= |all| then 0 else Min(limit, |all| - offset)) &&
      (forall i :: 0 <= i < |r| ==> r[i] == all[offset + i])
  {
    var all := OrderedMessages(msgs, busId);
    var rest := if offset <= |all| then all[offset..] else [];
    rest[..Min(limit, |rest|)]
  }

  /** Consecutive pages join up: the page of `a` rows at `offset`, followed by
      the page of `b` rows at `offset + a`, is the page of `a + b` rows at
      `offset`. */
  lemma {:induction false} PagesConcatenate(msgs: seq<DriverMessage>, busId: Option<string>, a: nat, b: nat, offset: nat)
    ensures DriverMessages(msgs, busId, a, offset) + DriverMessages(msgs, busId, b, offset + a)
         == DriverMessages(msgs, busId, a + b, offset)
  {
    var all := OrderedMessages(msgs, busId);
    var p := DriverMessages(msgs, busId, a, offset);
    var q := DriverMessages(msgs, busId, b, offset + a);
    var w := DriverMessages(msgs, busId, a + b, offset);
    assert |p + q| == |w|;
    forall i | 0 <= i < |w| ensures (p + q)[i] == w[i] {
      if i < |p| {
        assert (p + q)[i] == p[i] == all[offset + i];
      } else {
        assert (p + q)[i] == q[i - |p|] == all[offset + a + (i - |p|)];
      }
    }
  }

  /** The status fields update_message_status writes: None leaves a field. */
  datatype StatusWrite = StatusWrite(
    status: string,
    deliveredAt: Option<int>,
    readAt: Option<int>,
    errorMessage: Option<string>)

  function ApplyStatus(m: DriverMessage, w: StatusWrite): (r: DriverMessage)
    ensures r.status == w.status
    ensures r.deliveredAt == (if w.deliveredAt.Some? then w.deliveredAt else m.deliveredAt)
    ensures r.readAt == (if w.readAt.Some? then w.readAt else m.readAt)
    ensures r.errorMessage == (if w.errorMessage.Some? then w.errorMessage else m.errorMessage)
    ensures r.(status := m.status, deliveredAt := m.deliveredAt, readAt := m.readAt, errorMessage := m.errorMessage) == m
  {
    m.(status := w.status,
       deliveredAt := if w.deliveredAt.Some? then w.deliveredAt else m.deliveredAt,
       readAt := if w.readAt.Some? then w.readAt else m.readAt,
       errorMessage := if w.errorMessage.Some? then w.errorMessage else m.errorMessage)
  }

  /** The message table after `update_message_status(id, w)`. */
  function UpdatedMessages(msgs: seq<DriverMessage>, id: int, w: StatusWrite): (r: seq<DriverMessage>)
    ensures |r| == |msgs|
    ensures MessageIndex(msgs, id).None? ==> r == msgs
    ensures MessageIndex(msgs, id).Some? ==>
      var i := MessageIndex(msgs, id).value;
      r[i] == ApplyStatus(msgs[i], w) && forall j :: 0 <= j < |msgs| && j != i ==> r[j] == msgs[j]
  {
    match MessageIndex(msgs, id)
    case Some(i) => msgs[i := ApplyStatus(msgs[i], w)]
    case None => msgs
  }

  lemma UpdatedIndex(msgs: seq<DriverMessage>, i: nat, id: int, m: DriverMessage)
    requires MessageIndex(msgs, id) == Some(i) && m.id == id
    ensures MessageIndex(msgs[i := m], id) == Some(i)
  {
    var n := msgs[i := m];
    assert n[i] in n && n[i].id == id;
    assert forall j :: 0 <= j < i ==> n[j] == msgs[j];
  }

  lemma RefsKept(msgs: seq<DriverMessage>, i: nat, m: DriverMessage,
                 buses: seq<Bus>, alerts: seq<Alert>, users: seq<User>)
    requires i < |msgs| && forall x :: x in msgs ==> MessageRefsOk(x, buses, alerts, users)
    requires m.busId == msgs[i].busId && m.alertId == msgs[i].alertId && m.sentByUserId == msgs[i].sentByUserId
    ensures forall x :: x in msgs[i := m] ==> MessageRefsOk(x, buses, alerts, users)
  {
    forall x | x in msgs[i := m] ensures MessageRefsOk(x, buses, alerts, users) {
      var j :| 0 <= j < |msgs[i := m]| && msgs[i := m][j] == x;
      if j != i {
        assert x == msgs[j];
      } else {
        assert msgs[i] in msgs;
      }
    }
  }

  // ------------------------------------------------------------------ store

  /** Referential integrity of a message row (the foreign keys on bus_id,
      alert_id and sent_by_user_id). */
  predicate MessageRefsOk(m: DriverMessage, buses: seq<Bus>, alerts: seq<Alert>, users: seq<User>) {
    && HasBus(buses, m.busId)
    && (m.alertId.Some? ==> HasAlert(alerts, m.alertId.value))
    && HasUser(users, m.sentByUserId)
  }

  /** The buses table: bus_id and id unique, ids below the serial. */
  predicate BusRowsOk(buses: seq<Bus>, busSeq: int) {
    && (forall i, j :: 0 <= i < j < |buses| ==> buses[i].busId != buses[j].busId)
    && (forall b :: b in buses ==> b.id < busSeq)
    && (forall i, j :: 0 <= i < j < |buses| ==> buses[i].id != buses[j].id)
  }

  /** The telemetry ids: unique and below the serial. */
  predicate TelemetryIdsOk(telemetry: seq<Telemetry>, telemetrySeq: int) {
    && (forall t :: t in telemetry ==> t.id < telemetrySeq)
    && (forall i, j :: 0 <= i < j < |telemetry| ==> telemetry[i].id != telemetry[j].id)
  }

  class Store {
    var buses: seq<Bus>
    var telemetry: seq<Telemetry>
    var alerts: seq<Alert>
    var config: map<string, string>
    var messages: seq<DriverMessage>
    var users: seq<User>
    /** Next value of each table's id serial. */
    var busSeq: int
    var telemetrySeq: int
    var alertSeq: int
    var messageSeq: int
    var userSeq: int

    /** Unique columns, foreign keys and serials of the schema. */
    ghost predicate Valid()
      reads this
    {
      && BusRowsOk(buses, busSeq)
      && (forall t :: t in telemetry ==> HasBus(buses, t.busId))
      && TelemetryIdsOk(telemetry, telemetrySeq)
      && (forall a :: a in alerts ==> HasBus(buses, a.busId))
      && (forall a :: a in alerts ==> a.id < alertSeq)
      && (forall i, j :: 0 <= i < j < |alerts| ==> alerts[i].id != alerts[j].id)
      && (forall m :: m in messages ==> MessageRefsOk(m, buses, alerts, users))
      && (forall m :: m in messages ==> m.id < messageSeq)
      && (forall i, j :: 0 <= i < j < |messages| ==> messages[i].id != messages[j].id)
      && (forall i, j :: 0 <= i < j < |users| ==> users[i].username != users[j].username)
      && (forall u :: u in users ==> u.id < userSeq)
      && (forall i, j :: 0 <= i < j < |users| ==> users[i].id != users[j].id)
    }

    constructor ()
      ensures Valid()
      ensures buses == [] && telemetry == [] && alerts == [] && config == map[]
      ensures messages == [] && users == []
      ensures busSeq == 1 && telemetrySeq == 1 && alertSeq == 1 && messageSeq == 1 && userSeq == 1
    {
      buses, telemetry, alerts, config, messages, users := [], [], [], map[], [], [];
      busSeq, telemetrySeq, alertSeq, messageSeq, userSeq := 1, 1, 1, 1, 1;
    }

    /** `get_or_create_bus`: an existing row is returned untouched, otherwise a
        row with no name or capacity is inserted (and committed). */
    method GetOrCreateBus(busId: string) returns (b: Bus)
      requires Valid()
      modifies this`buses, this`busSeq
      ensures Valid()
      ensures buses == WithBus(old(buses), busId, old(busSeq))
      ensures b in buses && b.busId == busId
      ensures HasBus(old(buses), busId) ==> b == FindBus(old(buses), busId).value && busSeq == old(busSeq)
      ensures !HasBus(old(buses), busId) ==> b == Bus(old(busSeq), busId, None, None) && busSeq == old(busSeq) + 1
    {
      var found := FindBus(buses, busId);
      if found.Some? {
        b := found.value;
      } else {
        b := Bus(busSeq, busId, None, None);
        buses := buses + [b];
        busSeq := busSeq + 1;
      }
    }

    /** `create_telemetry`: append the sample as a row; the bus must exist. */
    method CreateTelemetry(t: TelemetryIn) returns (row: Telemetry)
      requires Valid() && HasBus(buses, t.busId)
      modifies this`telemetry, this`telemetrySeq
      ensures Valid()
      ensures row == TelemetryOfIn(t, old(telemetrySeq))
      ensures telemetry == old(telemetry) + [row] && telemetrySeq == old(telemetrySeq) + 1
    {
      row := TelemetryOfIn(t, telemetrySeq);
      telemetry := telemetry + [row];
      telemetrySeq := telemetrySeq + 1;
    }

    /** `rollback` while the only uncommitted writes are telemetry rows: the
        table returns to its committed rows. */
    method RollbackTelemetry(committed: seq<Telemetry>)
      requires Valid() && committed <= telemetry
      modifies this`telemetry
      ensures Valid() && telemetry == committed
    {
      assert forall t :: t in committed ==> t in telemetry;
      assert forall i :: 0 <= i < |committed| ==> committed[i] == telemetry[i];
      telemetry := committed;
    }

    /** `create_alert`: append an alert row with a fresh id; the bus must exist. */
    method CreateAlert(busId: string, timestamp: int, kind: string, value: real, threshold: real, message: string)
      returns (a: Alert)
      requires Valid() && HasBus(buses, busId)
      modifies this`alerts, this`alertSeq
      ensures Valid()
      ensures a == Alert(old(alertSeq), busId, timestamp, kind, value, threshold, message)
      ensures alerts == old(alerts) + [a] && alertSeq == old(alertSeq) + 1
    {
      a := Alert(alertSeq, busId, timestamp, kind, value, threshold, message);
      alerts := alerts + [a];
      alertSeq := alertSeq + 1;
    }

    /** `upsert_config_values`: insert or overwrite each key, then answer the
        whole table. */
    method UpsertConfigValues(values: map<string, string>) returns (r: map<string, string>)
      modifies this`config
      ensures config == old(config) + values
      ensures r == config
    {
      var remaining := values.Keys;
      while remaining != {}
        invariant remaining <= values.Keys
        invariant config == old(config) + map k | k in values.Keys - remaining :: values[k]
        decreases remaining
      {
        var key :| key in remaining;
        config := config[key := values[key]];
        remaining := remaining - {key};
      }
      assert values.Keys - remaining == values.Keys;
      r := config;
    }

    /** `create_driver_message`: a new row in status "pending"; a missing bus,
        alert or user breaks a foreign key and the insert fails. */
    method CreateDriverMessage(busId: string, text: string, templateType: string, sentByUserId: int,
                               alertId: Option<int>, customNote: Option<string>, now: int)
      returns (r: Result<DriverMessage>)
      requires Valid()
      modifies this`messages, this`messageSeq
      ensures Valid()
      ensures r.Ok? <==> MessageRefsOk(DriverMessage(0, busId, alertId, text, templateType, customNote,
                                                     sentByUserId, now, StatusPending, None, None, None),
                                       buses, alerts, users)
      ensures r.Ok? ==> r.value == DriverMessage(old(messageSeq), busId, alertId, text, templateType, customNote,
                                                 sentByUserId, now, StatusPending, None, None, None)
      ensures r.Ok? ==> messages == old(messages) + [r.value] && messageSeq == old(messageSeq) + 1
      ensures r.Err? ==> messages == old(messages) && messageSeq == old(messageSeq) && r.error.status == InternalError
    {
      var m := DriverMessage(messageSeq, busId, alertId, text, templateType, customNote,
                             sentByUserId, now, StatusPending, None, None, None);
      if !MessageRefsOk(m, buses, alerts, users) {
        return Err(HttpError(InternalError, "foreign key violation"));
      }
      messages := messages + [m];
      messageSeq := messageSeq + 1;
      r := Ok(m);
    }

    /** `update_message_status`: None for an unknown id; otherwise the status
        is set and only the given optional fields are overwritten. */
    method UpdateMessageStatus(id: int, w: StatusWrite) returns (r: Option<DriverMessage>)
      requires Valid()
      modifies this`messages
      ensures Valid()
      ensures messages == UpdatedMessages(old(messages), id, w)
      ensures r == FindMessage(messages, id)
      ensures r.None? <==> FindMessage(old(messages), id).None?
      ensures r.Some? ==> r.value == ApplyStatus(FindMessage(old(messages), id).value, w)
    {
      var i := MessageIndex(messages, id);
      if i.None? {
        return None;
      }
      var m := ApplyStatus(messages[i.value], w);
      UpdatedIndex(messages, i.value, id, m);
      RefsKept(messages, i.value, m, buses, alerts, users);
      messages := messages[i.value := m];
      r := Some(m);
    }
  }
}
