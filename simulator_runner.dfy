/** The server-managed bus simulators (backend/simulator_runner.py): route
    selection from the bus id, the motion of one simulated bus along its
    route, and the manager's table of running simulators. Threads are
    modelled by what the manager can observe of them: each thread started is
    a numbered entry of `launched`, and `stopped` holds the threads that were
    told to stop. Random draws are parameters. */
module SimulatorRunner {
  import opened Common
  import opened Text
  import opened Schemas

  datatype Point = Point(lat: real, lon: real)

  /** ROUTES: five routes of four points each. */
  const Routes: seq<seq<Point>> := [
    [Point(25.2048, 55.2708), Point(25.1983, 55.2750), Point(25.1905, 55.2639), Point(25.2058, 55.2526)],
    [Point(25.0797, 55.1402), Point(25.0916, 55.1469), Point(25.1007, 55.1544), Point(25.0755, 55.1549)],
    [Point(25.2155, 55.2462), Point(25.2074, 55.2580), Point(25.1991, 55.2465), Point(25.2103, 55.2386)],
    [Point(25.2705, 55.3152), Point(25.2716, 55.2991), Point(25.2620, 55.2841), Point(25.2492, 55.3066)],
    [Point(25.1189, 55.4090), Point(25.0985, 55.3912), Point(25.0841, 55.3685), Point(25.0719, 55.3496)]
  ]

  const RouteLength := 4

  /** Every route has four points. */
  lemma RoutesShape()
    ensures |Routes| == 5
    ensures forall i :: 0 <= i < |Routes| ==> |Routes[i]| == RouteLength
  {
    assert |Routes[0]| == 4 && |Routes[1]| == 4 && |Routes[2]| == 4 && |Routes[3]| == 4 && |Routes[4]| == 4;
  }

  const BusIdPrefix := "bus-"
  const FleetSize := 13

  /** DEFAULT_BUS_IDS: bus-1 to bus-13. */
  function DefaultBusIds(): (r: seq<string>)
    ensures |r| == FleetSize
    ensures forall i :: 0 <= i < FleetSize ==> r[i] == BusIdPrefix + NatToString(i + 1)
  {
    seq(FleetSize, i requires 0 <= i < FleetSize => BusIdPrefix + NatToString(i + 1))
  }

  /** The buses the manager runs as stationary. */
  const StationaryBuses: set<string> := {"bus-1", "bus-5", "bus-9", "bus-13"}

  /** `_extract_number`: the int() of the text after the last '-', or the
      random draw (between 1 and 99) when that text is not a number. */
  function ExtractNumber(busId: string, draw: int): int {
    match ParseInt(AfterLast(busId, '-'))
    case Some(n) => n
    case None => draw
  }

  /** The number of a bus named "bus-" and a number is that number, whatever
      the draw. */
  lemma ExtractNumberOfName(n: nat, draw: int)
    ensures ExtractNumber(BusIdPrefix + NatToString(n), draw) == n
  {
    var digits := NatToString(n);
    assert '-' !in digits by {
      forall k | 0 <= k < |digits| ensures digits[k] != '-' {
        assert IsDigit(digits[k]);
      }
    }
    assert BusIdPrefix + digits == "bus" + ['-'] + digits;
    AfterLastOfSuffix("bus", '-', digits);
    ParseIntRoundTrip(n);
    assert IntToString(n) == digits;
  }

  /** The route of a bus: `(number - 1) % len(ROUTES)`. Python's % with a
      positive modulus is never negative, as Dafny's is, so every number
      picks a route. */
  function RouteIndex(number: int): (r: nat)
    ensures r < |Routes|
    ensures (number - 1 - r) % |Routes| == 0
  {
    (number - 1) % |Routes|
  }

  /** The default fleet cycles through the routes: bus-i takes route
      (i - 1) mod 5, so bus-1, bus-6 and bus-11 share the first route. */
  lemma DefaultFleetRoutes(i: nat, draw: int)
    requires i < FleetSize
    ensures RouteIndex(ExtractNumber(DefaultBusIds()[i], draw)) == i % |Routes|
  {
    ExtractNumberOfName(i + 1, draw);
  }

  /** A point moved by a random offset. */
  function Offset(p: Point, jitter: Point): Point {
    Point(p.lat + jitter.lat, p.lon + jitter.lon)
  }

  /** The point a fraction of the way from a to b. */
  function Between(a: Point, b: Point, fraction: real): Point {
    Point(a.lat + (b.lat - a.lat) * fraction, a.lon + (b.lon - a.lon) * fraction)
  }

  /** `BusSimulatorThread`'s position along its route: the segment it is on
      and how far along it, a fraction in [0, 1). The publish loop of the
      thread is not part of this model. */
  class BusSimulatorThread {
    const busId: string
    const stationary: bool
    const route: seq<Point>
    var segmentIndex: nat
    var progress: real

    ghost predicate Valid()
      reads this
    {
      |route| == RouteLength && segmentIndex < |route| && 0.0 <= progress < 1.0
    }

    /** The route comes from the number in the bus id; a new simulator stands
        at the start of the route's first segment. */
    constructor (id: string, isStationary: bool, draw: int)
      ensures Valid()
      ensures busId == id && stationary == isStationary
      ensures route == Routes[RouteIndex(ExtractNumber(id, draw))]
      ensures segmentIndex == 0 && progress == 0.0
    {
      RoutesShape();
      busId := id;
      stationary := isStationary;
      route := Routes[RouteIndex(ExtractNumber(id, draw))];
      segmentIndex := 0;
      progress := 0.0;
    }

    /** `_next_point`. A stationary bus stays at the first point of its route
        (with jitter). A moving bus advances by the step; every whole unit of
        progress moves it to the next segment, wrapping from the last segment
        to the first. The point is the progress along the segment, with
        jitter. A route of fewer than two points would raise; every route has
        four points, so that branch cannot be taken. */
    method NextPoint(step: real, jitter: Point) returns (p: Point)
      requires Valid() && step >= 0.0
      modifies this`segmentIndex, this`progress
      ensures Valid()
      ensures stationary ==>
        && segmentIndex == old(segmentIndex) && progress == old(progress)
        && p == Offset(route[0], jitter)
      ensures !stationary ==>
        var total := old(progress) + step;
        && progress == total - total.Floor as real
        && segmentIndex == (old(segmentIndex) + total.Floor) % |route|
        && p == Offset(Between(route[segmentIndex], route[(segmentIndex + 1) % |route|], progress), jitter)
    {
      if stationary {
        return Offset(route[0], jitter);
      }
      progress := progress + step;
      ghost var total := progress;
      ghost var passed: nat := 0;
      while progress >= 1.0
        invariant progress == total - passed as real && 0.0 <= progress
        invariant segmentIndex == (old(segmentIndex) + passed) % |route|
        decreases progress.Floor
      {
        progress := progress - 1.0;
        WrapStep(old(segmentIndex) + passed);
        segmentIndex := (segmentIndex + 1) % |route|;
        passed := passed + 1;
      }
      assert total.Floor == passed;
      p := Offset(Between(route[segmentIndex], route[(segmentIndex + 1) % |route|], progress), jitter);
    }
  }

  /** Advancing a position taken modulo the route length by one is advancing
      the count. */
  lemma WrapStep(a: nat)
    ensures (a % RouteLength + 1) % RouteLength == (a + 1) % RouteLength
  {
  }

  /** One entry of the manager's `_threads` dictionary: the bus id (the key),
      the number of the thread started for it, how it was started, and the
      metrics that thread has written. */
  datatype Runner = Runner(busId: string, thread: nat, stationary: bool, messagesSent: nat, lastPublish: Option<int>)

  /** The dictionary entry for a freshly started thread. */
  function Fresh(busId: string, thread: nat): Runner {
    Runner(busId, thread, busId in StationaryBuses, 0, None)
  }

  predicate Tracked(rs: seq<Runner>, busId: string) {
    exists i :: 0 <= i < |rs| && rs[i].busId == busId
  }

  /** Assignment `_threads[bus_id] = thread` on an insertion-ordered
      dictionary: a key already present keeps its position and takes the new
      value; a new key goes last. */
  function Assign(rs: seq<Runner>, r: Runner): seq<Runner> {
    if Tracked(rs, r.busId) then
      seq(|rs|, i requires 0 <= i < |rs| => if rs[i].busId == r.busId then r else rs[i])
    else
      rs + [r]
  }

  /** The whole `for bus_id in new_buses` loop of `start`: the k-th bus gets
      thread number first + k. */
  function AssignAll(rs: seq<Runner>, buses: seq<string>, first: nat): seq<Runner>
    decreases |buses|
  {
    if buses == [] then rs
    else
      var k := |buses| - 1;
      Assign(AssignAll(rs, buses[..k], first), Fresh(buses[k], first + k))
  }

  /** `del _threads[bus_id]`. */
  function Remove(rs: seq<Runner>, busId: string): seq<Runner> {
    if rs == [] then []
    else (if rs[0].busId == busId then [] else [rs[0]]) + Remove(rs[1..], busId)
  }

  /** `bus_ids or DEFAULT_BUS_IDS`: a missing or empty list means the default
      fleet. */
  function Requested(busIds: Option<seq<string>>): seq<string> {
    if busIds.None? || busIds.value == [] then DefaultBusIds() else busIds.value
  }

  /** `[bus_id for bus_id in ids if bus_id not in self._threads]`, in order
      and keeping repeats. */
  function Untracked(ids: seq<string>, rs: seq<Runner>): (r: seq<string>)
    ensures forall b :: b in r <==> b in ids && !Tracked(rs, b)
  {
    if ids == [] then []
    else (if Tracked(rs, ids[0]) then [] else [ids[0]]) + Untracked(ids[1..], rs)
  }

  /** Every untracked id keeps its multiplicity; tracked ids vanish. */
  lemma {:induction false} UntrackedCounts(ids: seq<string>, rs: seq<Runner>)
    ensures forall b :: multiset(Untracked(ids, rs))[b] == if Tracked(rs, b) then 0 else multiset(ids)[b]
  {
    if ids != [] {
      UntrackedCounts(ids[1..], rs);
      assert ids == [ids[0]] + ids[1..];
    }
  }

  /** The filter keeps order: it distributes over concatenation. */
  lemma {:induction false} UntrackedAppend(xs: seq<string>, ys: seq<string>, rs: seq<Runner>)
    ensures Untracked(xs + ys, rs) == Untracked(xs, rs) + Untracked(ys, rs)
  {
    if xs == [] {
      assert xs + ys == ys;
    } else {
      assert (xs + ys)[0] == xs[0];
      assert (xs + ys)[1..] == xs[1..] + ys;
      UntrackedAppend(xs[1..], ys, rs);
    }
  }

  /** Ids none of which is tracked come back unchanged, repeats and order
      included. */
  lemma {:induction false} UntrackedKeepsNew(ids: seq<string>, rs: seq<Runner>)
    requires forall i :: 0 <= i < |ids| ==> !Tracked(rs, ids[i])
    ensures Untracked(ids, rs) == ids
  {
    if ids != [] {
      UntrackedKeepsNew(ids[1..], rs);
    }
  }

  /** The ids in order, each once (first occurrence kept). */
  function Dedup(ids: seq<string>): (r: seq<string>)
    ensures forall b :: b in r <==> b in ids
    ensures Distinct(r)
    decreases |ids|
  {
    if ids == [] then []
    else
      var k := |ids| - 1;
      var front := Dedup(ids[..k]);
      if ids[k] in front then front else front + [ids[k]]
  }

  predicate Distinct(ids: seq<string>) {
    forall i, j :: 0 <= i < j < |ids| ==> ids[i] != ids[j]
  }

  /** What the manager keeps of its table whatever the calls: one entry per
      bus, each naming a thread started for that bus and not told to stop,
      flagged stationary exactly for the stationary buses; only threads
      already started are ever told to stop. */
  ghost predicate TableConsistent(rs: seq<Runner>, launched: seq<string>, stopped: set<nat>) {
    && UniqueIds(rs)
    && (forall i :: 0 <= i < |rs| ==>
          && rs[i].thread < |launched| && launched[rs[i].thread] == rs[i].busId
          && rs[i].thread !in stopped
          && rs[i].stationary == (rs[i].busId in StationaryBuses))
    && (forall t :: t in stopped ==> t < |launched|)
  }

  ghost predicate UniqueIds(rs: seq<Runner>) {
    forall i, j :: 0 <= i < j < |rs| ==> rs[i].busId != rs[j].busId
  }

  ghost predicate Runs(rs: seq<Runner>, t: nat) {
    exists i :: 0 <= i < |rs| && rs[i].thread == t
  }

  /** Every thread ever started is either told to stop or reachable through
      the table, so stop_bus and stop can reach it. */
  ghost predicate NoOrphans(rs: seq<Runner>, launched: seq<string>, stopped: set<nat>) {
    forall t: nat :: t < |launched| ==> t in stopped || Runs(rs, t)
  }

  /** `_status_locked`. */
  function StatusOf(rs: seq<Runner>, startedAt: Option<int>): SimulatorStatusResponse {
    SimulatorStatusResponse(
      rs != [], startedAt, |rs|,
      seq(|rs|, i requires 0 <= i < |rs| =>
        SimulatorBusStatus(rs[i].busId, rs[i].messagesSent, rs[i].lastPublish, rs[i].stationary)))
  }

  /** The status lists the tracked buses in dictionary order, reports running
      exactly when one is tracked, and counts them. */
  lemma StatusReportsTable(rs: seq<Runner>, startedAt: Option<int>)
    ensures var s := StatusOf(rs, startedAt);
      && (s.running <==> s.busCount > 0)
      && s.busCount == |s.buses| == |rs|
      && s.startedAt == startedAt
      && forall b :: (exists i :: 0 <= i < |s.buses| && s.buses[i].busId == b) <==> Tracked(rs, b)
  {
    var s := StatusOf(rs, startedAt);
    forall b ensures (exists i :: 0 <= i < |s.buses| && s.buses[i].busId == b) <==> Tracked(rs, b) {
      if Tracked(rs, b) {
        var i :| 0 <= i < |rs| && rs[i].busId == b;
        assert s.buses[i].busId == b;
      }
    }
  }

  /** Assigning a bus keeps every other key and adds that bus. */
  lemma AssignTracked(rs: seq<Runner>, r: Runner, b: string)
    ensures Tracked(Assign(rs, r), b) <==> Tracked(rs, b) || b == r.busId
  {
    var out := Assign(rs, r);
    if Tracked(rs, r.busId) {
      if Tracked(rs, b) {
        var i :| 0 <= i < |rs| && rs[i].busId == b;
        assert out[i].busId == b;
      }
      if b == r.busId {
        var i :| 0 <= i < |rs| && rs[i].busId == b;
        assert out[i].busId == b;
      }
      if Tracked(out, b) {
        var i :| 0 <= i < |out| && out[i].busId == b;
        assert rs[i].busId == b || b == r.busId;
      }
    } else {
      if Tracked(rs, b) {
        var i :| 0 <= i < |rs| && rs[i].busId == b;
        assert out[i].busId == b;
      }
      assert out[|rs|] == r;
    }
  }

  /** Starting one more thread for a bus keeps the table consistent, whether
      or not the bus was tracked. */
  lemma AssignConsistent(rs: seq<Runner>, launched: seq<string>, stopped: set<nat>, b: string)
    requires TableConsistent(rs, launched, stopped)
    ensures TableConsistent(Assign(rs, Fresh(b, |launched|)), launched + [b], stopped)
  {
    var r := Fresh(b, |launched|);
    var out := Assign(rs, r);
    var l := launched + [b];
    forall i | 0 <= i < |out|
      ensures && out[i].thread < |l| && l[out[i].thread] == out[i].busId
              && out[i].thread !in stopped
              && out[i].stationary == (out[i].busId in StationaryBuses)
    {
      if out[i] != r {
        assert out[i] == rs[i];
        assert l[rs[i].thread] == launched[rs[i].thread];
      }
    }
    forall i, j | 0 <= i < j < |out| ensures out[i].busId != out[j].busId {
      if Tracked(rs, b) {
        if out[i] == r {
          assert rs[i].busId == b;
        } else if out[j] == r {
          assert rs[j].busId == b;
        } else {
          assert out[i] == rs[i] && out[j] == rs[j];
        }
      } else if j == |rs| {
        assert out[i] == rs[i];
      } else {
        assert out[i] == rs[i] && out[j] == rs[j];
      }
    }
  }

  /** The start loop keeps the table consistent. */
  lemma {:induction false} AssignAllConsistent(rs: seq<Runner>, launched: seq<string>, stopped: set<nat>, buses: seq<string>)
    requires TableConsistent(rs, launched, stopped)
    ensures TableConsistent(AssignAll(rs, buses, |launched|), launched + buses, stopped)
    decreases |buses|
  {
    if buses == [] {
      assert launched + buses == launched;
    } else {
      var k := |buses| - 1;
      var front := AssignAll(rs, buses[..k], |launched|);
      AssignAllConsistent(rs, launched, stopped, buses[..k]);
      AssignConsistent(front, launched + buses[..k], stopped, buses[k]);
      assert launched + buses[..k] + [buses[k]] == launched + buses;
      assert |launched + buses[..k]| == |launched| + k;
    }
  }

  /** After the start loop exactly the buses tracked before and the buses it
      started are tracked. */
  lemma {:induction false} AssignAllTracked(rs: seq<Runner>, buses: seq<string>, first: nat, b: string)
    ensures Tracked(AssignAll(rs, buses, first), b) <==> Tracked(rs, b) || b in buses
    decreases |buses|
  {
    if buses != [] {
      var k := |buses| - 1;
      AssignAllTracked(rs, buses[..k], first, b);
      AssignTracked(AssignAll(rs, buses[..k], first), Fresh(buses[k], first + k), b);
      assert buses == buses[..k] + [buses[k]];
    }
  }

  /** `start` is idempotent: after it, every requested id is tracked, so a
      second call with the same ids finds nothing new to start, and (by
      Start's contract) leaves runners, launched threads and start time as
      they were. */
  lemma StartIdempotent(ids: seq<string>, rs: seq<Runner>, n: nat)
    ensures Untracked(ids, AssignAll(rs, Untracked(ids, rs), n)) == []
  {
    var after := AssignAll(rs, Untracked(ids, rs), n);
    var again := Untracked(ids, after);
    if again != [] {
      var b := again[0];
      assert b in again;
      AssignAllTracked(rs, Untracked(ids, rs), n, b);
      assert false;
    }
  }

  /** None of the buses is tracked. */
  predicate NewTo(rs: seq<Runner>, buses: seq<string>) {
    forall i, j :: 0 <= i < |rs| && 0 <= j < |buses| ==> rs[i].busId != buses[j]
  }

  /** The runners a loop over distinct new buses appends. */
  function FreshAll(buses: seq<string>, first: nat): (r: seq<Runner>)
    ensures |r| == |buses|
    ensures forall k :: 0 <= k < |buses| ==> r[k] == Fresh(buses[k], first + k)
  {
    seq(|buses|, k requires 0 <= k < |buses| => Fresh(buses[k], first + k))
  }

  /** Started on distinct buses none of which is tracked, the start loop only
      appends: every started thread gets its own entry. */
  lemma {:induction false} AssignAllAppends(rs: seq<Runner>, buses: seq<string>, first: nat)
    requires Distinct(buses) && NewTo(rs, buses)
    ensures AssignAll(rs, buses, first) == rs + FreshAll(buses, first)
    decreases |buses|
  {
    if buses != [] {
      var k := |buses| - 1;
      var prefix := buses[..k];
      assert forall j :: 0 <= j < k ==> prefix[j] == buses[j];
      assert NewTo(rs, prefix);
      assert NewTo(rs, [buses[k]]);
      AssignAllAppends(rs, prefix, first);
      var front := rs + FreshAll(prefix, first);
      assert buses[k] !in prefix;
      FreshUntracked(rs, prefix, first, buses[k]);
      var r := Fresh(buses[k], first + k);
      assert AssignAll(rs, buses, first) == Assign(front, r);
      FreshAllSnoc(rs, buses, first);
    }
  }

  lemma FreshUntracked(rs: seq<Runner>, buses: seq<string>, first: nat, b: string)
    requires NewTo(rs, [b]) && b !in buses
    ensures !Tracked(rs + FreshAll(buses, first), b)
  {
    var front := rs + FreshAll(buses, first);
    forall i | 0 <= i < |front| ensures front[i].busId != b {
      if i < |rs| {
        assert [b][0] == b;
      } else {
        assert front[i].busId == buses[i - |rs|];
      }
    }
  }

  lemma FreshAllSnoc(rs: seq<Runner>, buses: seq<string>, first: nat)
    requires buses != []
    ensures var k := |buses| - 1;
      rs + FreshAll(buses[..k], first) + [Fresh(buses[k], first + k)] == rs + FreshAll(buses, first)
  {
  }

  /** The corrected start keeps every thread reachable. */
  lemma DistinctStartNoOrphans(rs: seq<Runner>, launched: seq<string>, stopped: set<nat>, buses: seq<string>)
    requires NoOrphans(rs, launched, stopped)
    requires Distinct(buses) && NewTo(rs, buses)
    ensures NoOrphans(AssignAll(rs, buses, |launched|), launched + buses, stopped)
  {
    AssignAllAppends(rs, buses, |launched|);
    var out := AssignAll(rs, buses, |launched|);
    forall t: nat | t < |launched + buses| ensures t in stopped || Runs(out, t) {
      if t < |launched| {
        if !(t in stopped) {
          var i :| 0 <= i < |rs| && rs[i].thread == t;
          assert out[i] == rs[i];
        }
      } else {
        assert out[|rs| + (t - |launched|)].thread == t;
      }
    }
  }

  /** Starting with the same bus id twice, as `start` does for
      ["bus-2", "bus-2"], launches two threads but keeps only the second:
      thread 0 runs on untracked, and stopping bus-2 does not reach it. */
  lemma DuplicateStartOrphans()
    ensures var buses := Untracked(Requested(Some(["bus-2", "bus-2"])), []);
      && buses == ["bus-2", "bus-2"]
      && AssignAll([], buses, 0) == [Fresh("bus-2", 1)]
      && !NoOrphans(AssignAll([], buses, 0), buses, {})
      && Remove(AssignAll([], buses, 0), "bus-2") == []
      && !NoOrphans([], buses, {1})
  {
    var buses := Untracked(Requested(Some(["bus-2", "bus-2"])), []);
    assert buses == ["bus-2", "bus-2"];
    assert buses[..1] == ["bus-2"] && buses[..1][..0] == [];
    assert AssignAll([], buses[..1], 0) == [Fresh("bus-2", 0)];
    assert [Fresh("bus-2", 0)][0].busId == "bus-2";
    var out := AssignAll([], buses, 0);
    assert out == [Fresh("bus-2", 1)];
    assert !Runs(out, 0);
    assert !(0 in {1} || Runs([], 0));
  }

  /** The table entry of a bus, found the way a dictionary lookup does. */
  function Find(rs: seq<Runner>, busId: string): (r: Option<Runner>)
    ensures r.Some? <==> Tracked(rs, busId)
    ensures r.Some? ==> r.value in rs && r.value.busId == busId
  {
    if rs == [] then None
    else if rs[0].busId == busId then Some(rs[0])
    else
      var rest := Find(rs[1..], busId);
      assert Tracked(rs, busId) ==> rs[0].busId == busId || Tracked(rs[1..], busId) by {
        if Tracked(rs, busId) {
          var i :| 0 <= i < |rs| && rs[i].busId == busId;
          if i > 0 { assert rs[1..][i - 1].busId == busId; }
        }
      }
      assert Tracked(rs[1..], busId) ==> Tracked(rs, busId) by {
        if Tracked(rs[1..], busId) {
          var i :| 0 <= i < |rs[1..]| && rs[1..][i].busId == busId;
          assert rs[i + 1].busId == busId;
        }
      }
      rest
  }

  /** Deleting a key removes every entry of that bus and keeps all others. */
  lemma {:induction false} RemoveMembers(rs: seq<Runner>, busId: string)
    ensures forall r :: r in Remove(rs, busId) <==> r in rs && r.busId != busId
  {
    if rs != [] {
      RemoveMembers(rs[1..], busId);
      assert rs == [rs[0]] + rs[1..];
    }
  }

  lemma {:induction false} RemoveUnique(rs: seq<Runner>, busId: string)
    requires UniqueIds(rs)
    ensures UniqueIds(Remove(rs, busId))
  {
    if rs != [] {
      var rest := Remove(rs[1..], busId);
      RemoveUnique(rs[1..], busId);
      RemoveMembers(rs[1..], busId);
      if rs[0].busId != busId {
        var out := [rs[0]] + rest;
        forall i, j | 0 <= i < j < |out| ensures out[i].busId != out[j].busId {
          if i == 0 {
            assert out[j] in rs[1..];
            var k :| 0 <= k < |rs[1..]| && rs[1..][k] == out[j];
            assert rs[k + 1] == out[j];
          } else {
            assert out[i] == rest[i - 1] && out[j] == rest[j - 1];
          }
        }
      }
    }
  }

  /** stop_bus: dropping a tracked bus and telling its thread to stop keeps
      the table consistent, and every thread reachable before stays
      reachable or stopped. */
  lemma RemoveConsistent(rs: seq<Runner>, launched: seq<string>, stopped: set<nat>, r: Runner)
    requires TableConsistent(rs, launched, stopped)
    requires r in rs
    ensures TableConsistent(Remove(rs, r.busId), launched, stopped + {r.thread})
    ensures NoOrphans(rs, launched, stopped) ==> NoOrphans(Remove(rs, r.busId), launched, stopped + {r.thread})
  {
    var out := Remove(rs, r.busId);
    RemoveMembers(rs, r.busId);
    RemoveUnique(rs, r.busId);
    forall i | 0 <= i < |out|
      ensures && out[i].thread < |launched| && launched[out[i].thread] == out[i].busId
              && out[i].thread !in stopped + {r.thread}
              && out[i].stationary == (out[i].busId in StationaryBuses)
    {
      assert out[i] in rs;
      var k :| 0 <= k < |rs| && rs[k] == out[i];
      var m :| 0 <= m < |rs| && rs[m] == r;
      assert launched[r.thread] == r.busId;
    }
    if NoOrphans(rs, launched, stopped) {
      forall t: nat | t < |launched| ensures t in stopped + {r.thread} || Runs(out, t) {
        if t !in stopped {
          var i :| 0 <= i < |rs| && rs[i].thread == t;
          if rs[i].busId != r.busId {
            assert rs[i] in out;
            var k :| 0 <= k < |out| && out[k] == rs[i];
          } else {
            var m :| 0 <= m < |rs| && rs[m] == r;
            assert i == m;
          }
        }
      }
    }
  }

  /** The threads numbered below n. */
  function ThreadsBelow(n: nat): (r: set<nat>)
    ensures forall t: nat :: t in r <==> t < n
  {
    if n == 0 then {} else ThreadsBelow(n - 1) + {n - 1}
  }

  /** A publish by thread t: its counter goes up by one and its last publish
      time is recorded. Only the entry of that thread changes. */
  function Published(rs: seq<Runner>, t: nat, at: int): (r: seq<Runner>)
    ensures |r| == |rs|
    ensures forall i :: 0 <= i < |rs| ==>
      && r[i].busId == rs[i].busId && r[i].thread == rs[i].thread && r[i].stationary == rs[i].stationary
      && (rs[i].thread == t ==> r[i].messagesSent == rs[i].messagesSent + 1 && r[i].lastPublish == Some(at))
      && (rs[i].thread != t ==> r[i] == rs[i])
  {
    seq(|rs|, i requires 0 <= i < |rs| =>
      if rs[i].thread == t then rs[i].(messagesSent := rs[i].messagesSent + 1, lastPublish := Some(at)) else rs[i])
  }

  /** `SimulatorManager`: the `_threads` dictionary in insertion order, the
      start time, and the threads it has started and told to stop. */
  class SimulatorManager {
    var runners: seq<Runner>
    var startedAt: Option<int>
    var launched: seq<string>
    var stopped: set<nat>

    /** What every operation keeps, the start time included: it is set
        exactly while some simulator is tracked. */
    ghost predicate Consistent()
      reads this
    {
      TableConsistent(runners, launched, stopped) && (startedAt.Some? <==> runners != [])
    }

    /** Consistent, and no thread is running out of the manager's reach. */
    ghost predicate Valid()
      reads this
    {
      Consistent() && NoOrphans(runners, launched, stopped)
    }

    constructor ()
      ensures Valid()
      ensures runners == [] && startedAt == None && launched == [] && stopped == {}
    {
      runners, startedAt, launched, stopped := [], None, [], {};
    }

    /** `status`. */
    function Status(): SimulatorStatusResponse
      reads this
    {
      StatusOf(runners, startedAt)
    }

    /** The shared part of `start` and `start_bus`: record the start time if
        nothing was running, then start one thread per listed bus in order and
        assign it to its bus. */
    method Launch(buses: seq<string>, now: int)
      requires Consistent() && buses != []
      modifies this
      ensures runners == AssignAll(old(runners), buses, |old(launched)|)
      ensures launched == old(launched) + buses && stopped == old(stopped)
      ensures startedAt == (if old(runners) == [] then Some(now) else old(startedAt))
      ensures Consistent()
      ensures old(NoOrphans(runners, launched, stopped)) && Distinct(buses) && NewTo(old(runners), buses) ==> Valid()
    {
      ghost var r0, l0 := runners, launched;
      if runners == [] {
        startedAt := Some(now);
      }
      for k := 0 to |buses|
        invariant runners == AssignAll(r0, buses[..k], |l0|)
        invariant launched == l0 + buses[..k] && stopped == old(stopped)
        invariant startedAt == (if r0 == [] then Some(now) else old(startedAt))
      {
        var b := buses[k];
        var thread := Runner(b, |launched|, b in StationaryBuses, 0, None);
        launched := launched + [b];
        assert buses[..k + 1][..k] == buses[..k] && buses[..k + 1] == buses[..k] + [b];
        runners := Assign(runners, thread);
      }
      assert buses[..|buses|] == buses;
      AssignAllConsistent(r0, l0, stopped, buses);
      AssignAllTracked(r0, buses, |l0|, buses[0]);
      if NoOrphans(r0, l0, stopped) && Distinct(buses) && NewTo(r0, buses) {
        DistinctStartNoOrphans(r0, l0, stopped, buses);
      }
    }

    /** `start`: the requested ids (the default fleet for a missing or empty
        list) that are not already tracked, repeats included, are started in
        order; with none of them the call changes nothing. */
    method Start(busIds: Option<seq<string>>, now: int) returns (s: SimulatorStatusResponse)
      requires Consistent()
      modifies this
      ensures var newBuses := Untracked(Requested(busIds), old(runners));
        && runners == AssignAll(old(runners), newBuses, |old(launched)|)
        && launched == old(launched) + newBuses && stopped == old(stopped)
        && startedAt == (if newBuses != [] && old(runners) == [] then Some(now) else old(startedAt))
      ensures Consistent()
      ensures s == StatusOf(runners, startedAt)
    {
      var newBuses := Untracked(Requested(busIds), runners);
      if newBuses != [] {
        Launch(newBuses, now);
      } else {
        assert AssignAll(runners, newBuses, |launched|) == runners && launched + newBuses == launched;
      }
      s := Status();
    }

    /** `start` with each new id started once: the table then keeps every
        started thread within reach. */
    method StartDeduped(busIds: Option<seq<string>>, now: int) returns (s: SimulatorStatusResponse)
      requires Consistent()
      modifies this
      ensures var newBuses := Dedup(Untracked(Requested(busIds), old(runners)));
        && runners == old(runners) + FreshAll(newBuses, |old(launched)|)
        && launched == old(launched) + newBuses && stopped == old(stopped)
        && startedAt == (if newBuses != [] && old(runners) == [] then Some(now) else old(startedAt))
      ensures Consistent()
      ensures old(Valid()) ==> Valid()
      ensures s == StatusOf(runners, startedAt)
    {
      var newBuses := Dedup(Untracked(Requested(busIds), runners));
      assert NewTo(runners, newBuses) by {
        forall i, j | 0 <= i < |runners| && 0 <= j < |newBuses| ensures runners[i].busId != newBuses[j] {
          assert newBuses[j] in newBuses;
        }
      }
      AssignAllAppends(runners, newBuses, |launched|);
      if newBuses != [] {
        Launch(newBuses, now);
      } else {
        assert launched + newBuses == launched;
      }
      s := Status();
    }

    /** `start_bus`: a tracked bus is left alone; otherwise one thread is
        started for it and appended to the table. */
    method StartBus(busId: string, now: int) returns (s: SimulatorStatusResponse)
      requires Consistent()
      modifies this
      ensures Tracked(old(runners), busId) ==>
        && runners == old(runners) && launched == old(launched) && startedAt == old(startedAt)
      ensures !Tracked(old(runners), busId) ==>
        && runners == old(runners) + [Fresh(busId, |old(launched)|)]
        && launched == old(launched) + [busId]
        && startedAt == (if old(runners) == [] then Some(now) else old(startedAt))
      ensures stopped == old(stopped)
      ensures Consistent()
      ensures old(Valid()) ==> Valid()
      ensures s == StatusOf(runners, startedAt)
    {
      if Find(runners, busId).None? {
        assert NewTo(runners, [busId]);
        AssignAllAppends(runners, [busId], |launched|);
        assert FreshAll([busId], |launched|) == [Fresh(busId, |launched|)];
        Launch([busId], now);
      }
      s := Status();
    }

    /** `stop_bus`: an untracked bus changes nothing; otherwise its thread is
        told to stop and only its entry is deleted; an emptied table clears
        the start time. */
    method StopBus(busId: string) returns (s: SimulatorStatusResponse)
      requires Consistent()
      modifies this
      ensures launched == old(launched)
      ensures !Tracked(old(runners), busId) ==>
        runners == old(runners) && stopped == old(stopped) && startedAt == old(startedAt)
      ensures Tracked(old(runners), busId) ==>
        && Find(old(runners), busId).value.thread in stopped
        && stopped == old(stopped) + {Find(old(runners), busId).value.thread}
        && runners == Remove(old(runners), busId)
        && startedAt == (if runners == [] then None else old(startedAt))
      ensures Consistent()
      ensures old(Valid()) ==> Valid()
      ensures s == StatusOf(runners, startedAt)
    {
      var found := Find(runners, busId);
      if found.Some? {
        ghost var r0, s0 := runners, stopped;
        RemoveConsistent(runners, launched, stopped, found.value);
        stopped := stopped + {found.value.thread};
        runners := Remove(runners, busId);
        if runners == [] {
          startedAt := None;
        }
      }
      s := Status();
    }

    /** `stop`: with nothing tracked it changes nothing; otherwise the shared
        stop event reaches every thread started since, so every thread is
        told to stop, the table is emptied and the start time cleared. This
        also reaches threads the table had lost. */
    method Stop() returns (s: SimulatorStatusResponse)
      requires Consistent()
      modifies this
      ensures launched == old(launched)
      ensures old(runners) == [] ==> runners == [] && stopped == old(stopped) && startedAt == old(startedAt)
      ensures old(runners) != [] ==>
        && runners == [] && startedAt == None
        && forall t: nat :: t in stopped <==> t < |launched|
      ensures Consistent()
      ensures old(runners) != [] ==> Valid()
      ensures s == StatusOf(runners, startedAt)
    {
      if runners != [] {
        stopped := stopped + ThreadsBelow(|launched|);
        runners := [];
        startedAt := None;
      }
      s := Status();
    }

    /** The end of one iteration of a running thread's publish loop: that
        thread's metrics record the publish. */
    method RecordPublish(thread: nat, at: int)
      requires Consistent()
      modifies this`runners
      ensures runners == Published(old(runners), thread, at)
      ensures Consistent()
      ensures old(Valid()) ==> Valid()
    {
      ghost var r0 := runners;
      runners := Published(runners, thread, at);
      assert forall i :: 0 <= i < |runners| ==> runners[i].busId == r0[i].busId && runners[i].thread == r0[i].thread;
      if NoOrphans(r0, launched, stopped) {
        forall t: nat | t < |launched| ensures t in stopped || Runs(runners, t) {
          if t !in stopped {
            var i :| 0 <= i < |r0| && r0[i].thread == t;
            assert runners[i].thread == t;
          }
        }
      }
    }
  }
}
