/** The data matcher: it links flights to their ground-service tasks (by
    FUUID), flights to the ADS-B reports of the same flight number on the
    same day, and towing tasks to the GPS fixes of towing vehicles seen near
    the flight's stand within half an hour of the task's end. Each join is a
    nested loop appending into a `defaultdict(list)`; each is proved equal to
    a declarative map built in the `Grouping` module, and the properties of
    the joins are lemmas about those maps. */
module DataMatching {
  import opened Wrappers
  import opened Text
  import opened Values
  import opened Timestamps
  import opened Grouping
  import opened Tasks
  import opened Flights
  import V = VehicleFixes
  import A = AircraftReports

  /** The four tables the matcher reads. Loading them from CSV files is not
      part of this model. */
  datatype DataLoader = DataLoader(
    flights: seq<Flight>,
    tasks: seq<Task>,
    adsbData: seq<A.AircraftAdsb>,
    vehicleGps: seq<V.VehicleGps>)

  /** A (latitude, longitude) pair in degrees. */
  type Coord = (real, real)

  /** One draw of `np.random.uniform(-0.015, 0.015)`, which lies in the
      half-open interval [-0.015, 0.015). */
  type Jitter = r: real | -0.015 <= r < 0.015 witness 0.0

  /** The rough centre of the airport that estimated stands scatter around. */
  const BaseLatitude: real := 31.145
  const BaseLongitude: real := 121.805

  /** A vehicle fix counts for a task up to this many minutes from its end. */
  const TaskTimeWindow: nat := 30

  /** The defaults `match_all` runs the joins with. */
  const DefaultAdsbTimeWindow: int := 120
  const DefaultDistanceThreshold: real := 0.01

  // ---------------------------------------------------------------------
  // Flights and tasks
  // ---------------------------------------------------------------------

  /** The appends `match_flight_tasks` makes: each task under its FUUID. */
  function TaskPairs(tasks: seq<Task>): (ps: seq<(string, Task)>)
    ensures |ps| == |tasks|
    ensures forall i :: 0 <= i < |tasks| ==> ps[i] == (tasks[i].fuuid, tasks[i])
  {
    seq(|tasks|, i requires 0 <= i < |tasks| => (tasks[i].fuuid, tasks[i]))
  }

  /** The flight-to-tasks map. */
  function FlightTaskMap(tasks: seq<Task>): map<string, seq<Task>> {
    GroupPairs(TaskPairs(tasks))
  }

  predicate HasFuuid(k: string, t: Task) {
    t.fuuid == k
  }

  lemma {:induction false} TaskGroupIsSubsequence(tasks: seq<Task>, k: string)
    ensures ValuesAt(TaskPairs(tasks), k) == Matching(k, tasks, HasFuuid)
  {
    if tasks != [] {
      var init := tasks[..|tasks| - 1];
      assert TaskPairs(tasks)[..|tasks| - 1] == TaskPairs(init);
      TaskGroupIsSubsequence(init, k);
    }
  }

  /** A FUUID is a key exactly when some task carries it, and its group is
      the tasks carrying it, in input order. */
  lemma FlightTaskGroups(tasks: seq<Task>, k: string)
    ensures k in FlightTaskMap(tasks) <==> exists i :: 0 <= i < |tasks| && tasks[i].fuuid == k
    ensures k in FlightTaskMap(tasks) ==> FlightTaskMap(tasks)[k] == Matching(k, tasks, HasFuuid)
  {
    TaskGroupIsSubsequence(tasks, k);
    if exists i :: 0 <= i < |tasks| && tasks[i].fuuid == k {
      var i :| 0 <= i < |tasks| && tasks[i].fuuid == k;
      assert TaskPairs(tasks)[i].0 == k;
    }
  }

  /** Every task sits in exactly one group, the one of its own FUUID. */
  lemma TaskInExactlyOneGroup(tasks: seq<Task>, t: Task, k: string)
    requires t in tasks
    ensures k in FlightTaskMap(tasks) && t in FlightTaskMap(tasks)[k] <==> k == t.fuuid
  {
    var m := FlightTaskMap(tasks);
    FlightTaskGroups(tasks, k);
    FlightTaskGroups(tasks, t.fuuid);
    MatchingMember(k, tasks, HasFuuid, t);
    MatchingMember(t.fuuid, tasks, HasFuuid, t);
  }

  /** The group sizes add up to the number of tasks. */
  lemma TaskGroupSizesSum(tasks: seq<Task>, keys: seq<string>)
    requires NoDuplicates(keys)
    requires forall k :: k in keys <==> k in FlightTaskMap(tasks)
    ensures TotalSize(FlightTaskMap(tasks), keys) == |tasks|
  {
    GroupSizesSum(TaskPairs(tasks), keys);
  }

  /** No flight is listed with an empty task list. */
  lemma TaskGroupsNonEmpty(tasks: seq<Task>, k: string)
    requires k in FlightTaskMap(tasks)
    ensures FlightTaskMap(tasks)[k] != []
  {
    GroupsNonEmpty(TaskPairs(tasks), k);
  }

  // ---------------------------------------------------------------------
  // Flights and ADS-B reports
  // ---------------------------------------------------------------------

  /** A report belongs to a flight when the flight's scheduled date parses,
      the report's FN or FN2 equals the stripped flight number, and the
      first word of the report time TE parses to the same date. */
  predicate AdsbJoins(f: Flight, a: A.AircraftAdsb) {
    var flightNo := Strip(f.flightIdentity);
    && ParseDate(f.scheduledDate).Some?
    && (a.fn == flightNo || a.fn2 == Some(flightNo))
    && Present(a.te)
    && FirstWord(a.te.value).Some?
    && ParseDate(FirstWord(a.te.value).value) == ParseDate(f.scheduledDate)
  }

  lemma AdsbJoinsOnceDated(f: Flight, a: A.AircraftAdsb, flightDate: Date)
    requires ParseDate(f.scheduledDate) == Some(flightDate)
    ensures AdsbJoins(f, a) <==>
      && (a.fn == Strip(f.flightIdentity) || a.fn2 == Some(Strip(f.flightIdentity)))
      && Present(a.te)
      && FirstWord(a.te.value).Some?
      && ParseDate(FirstWord(a.te.value).value) == Some(flightDate)
  {
  }

  function FlightKey(f: Flight): string {
    f.fuuid
  }

  /** The flight-to-reports map. */
  function FlightAdsbMap(flights: seq<Flight>, adsb: seq<A.AircraftAdsb>): map<string, seq<A.AircraftAdsb>> {
    GroupPairs(JoinPairs(flights, adsb, FlightKey, AdsbJoins))
  }

  /** A report is listed under a FUUID exactly when it belongs to some
      flight with that FUUID. */
  lemma FlightAdsbMembership(flights: seq<Flight>, adsb: seq<A.AircraftAdsb>, k: string, a: A.AircraftAdsb)
    ensures k in FlightAdsbMap(flights, adsb) && a in FlightAdsbMap(flights, adsb)[k]
        <==> a in adsb && exists i :: 0 <= i < |flights| && flights[i].fuuid == k && AdsbJoins(flights[i], a)
  {
    var ps := JoinPairs(flights, adsb, FlightKey, AdsbJoins);
    ValuesAtMember(ps, k, a);
    JoinPairsMember(flights, adsb, FlightKey, AdsbJoins, k, a);
    if (k, a) in ps {
      var j :| 0 <= j < |ps| && ps[j] == (k, a);
      assert ps[j].0 == k;
    }
  }

  /** A flight whose scheduled date is empty or does not parse adds
      nothing, wherever it appears in the flight table. */
  lemma UndatedFlightAddsNothing(before: seq<Flight>, f: Flight, after: seq<Flight>, adsb: seq<A.AircraftAdsb>)
    requires ParseDate(f.scheduledDate).None?
    ensures FlightAdsbMap(before + [f] + after, adsb) == FlightAdsbMap(before + after, adsb)
  {
    MatchingNone(f, adsb, AdsbJoins);
    JoinPairsSkip(before, f, after, adsb, FlightKey, AdsbJoins);
  }

  /** An empty scheduled date is one that does not parse. */
  lemma EmptyDateDoesNotParse()
    ensures ParseDate("").None?
  {
    assert SplitOn("", '/') == [""];
  }

  /** Leading whitespace in the flight number is stripped before comparing. */
  lemma FlightNumberLeadingSpaceIgnored(f: Flight, c: char, a: A.AircraftAdsb)
    requires IsSpace(c)
    ensures AdsbJoins(f.(flightIdentity := [c] + f.flightIdentity), a) == AdsbJoins(f, a)
  {
    StripLeadingSpace(c, f.flightIdentity);
  }

  /** Only the day of a report counts: a report of the flight's number
      stamped at any minute of the scheduled day joins the flight. */
  lemma ReportOnScheduledDayJoins(f: Flight, a: A.AircraftAdsb, when: DateTime)
    requires ValidDateTime(when)
    requires ParseDate(f.scheduledDate) == Some(when.date)
    requires a.fn == Strip(f.flightIdentity)
    requires a.te == Some(FormatMinuteTime(when))
    ensures AdsbJoins(f, a)
  {
    FirstWordOfMinuteTime(when);
    ParseFormatDate(when.date);
  }

  // ---------------------------------------------------------------------
  // Stand coordinates
  // ---------------------------------------------------------------------

  /** `s` is the non-empty STANDID of some flight. */
  predicate HasStand(flights: seq<Flight>, s: string) {
    exists i :: 0 <= i < |flights| && flights[i].standId == Some(s) && s != []
  }

  /** The non-empty STANDIDs in order of first appearance. */
  function DistinctStands(flights: seq<Flight>): (ds: seq<string>)
    ensures NoDuplicates(ds)
    ensures forall s :: s in ds <==> HasStand(flights, s)
  {
    if flights == [] then []
    else
      var init := flights[..|flights| - 1];
      var f := flights[|flights| - 1];
      var ds := DistinctStands(init);
      assert forall s :: HasStand(init, s) ==> HasStand(flights, s) by {
        forall s | HasStand(init, s) ensures HasStand(flights, s) {
          var i :| 0 <= i < |init| && init[i].standId == Some(s) && s != [];
          assert flights[i] == init[i];
        }
      }
      assert forall s :: HasStand(flights, s) ==> HasStand(init, s) || (f.standId == Some(s) && s != []) by {
        forall s | HasStand(flights, s) ensures HasStand(init, s) || (f.standId == Some(s) && s != []) {
          var i :| 0 <= i < |flights| && flights[i].standId == Some(s) && s != [];
          if i < |init| {
            assert init[i] == flights[i];
          }
        }
      }
      if Present(f.standId) && f.standId.value !in ds then ds + [f.standId.value] else ds
  }

  /** The position of the first occurrence of `s` in `ds`. */
  function IndexIn(ds: seq<string>, s: string): (k: nat)
    requires s in ds
    ensures k < |ds| && ds[k] == s && s !in ds[..k]
  {
    if ds[0] == s then 0
    else
      var k := IndexIn(ds[1..], s);
      assert ds[..k + 1] == [ds[0]] + ds[1..][..k];
      k + 1
  }

  /** The `k`-th stand met gets the `2k`-th and `(2k+1)`-th draws as its
      latitude and longitude offsets. */
  function StandAt(k: nat, rng: nat -> Jitter): Coord {
    (BaseLatitude + rng(2 * k), BaseLongitude + rng(2 * k + 1))
  }

  /** The stand coordinates `_estimate_stand_coordinates` builds from the
      stream of draws `rng`: the `k`-th distinct stand gets `StandAt(k)`. */
  function StandCoordinates(flights: seq<Flight>, rng: nat -> Jitter): map<string, Coord> {
    var ds := DistinctStands(flights);
    map s | s in ds :: StandAt(IndexIn(ds, s), rng)
  }

  /** One entry per distinct non-empty STANDID, each within 0.015 degrees
      of the airport centre (the upper bound excluded). */
  lemma StandCoordinatesSpec(flights: seq<Flight>, rng: nat -> Jitter)
    ensures var coords := StandCoordinates(flights, rng);
      && (forall s :: s in coords <==> HasStand(flights, s))
      && forall s :: s in coords ==>
           && BaseLatitude - 0.015 <= coords[s].0 < BaseLatitude + 0.015
           && BaseLongitude - 0.015 <= coords[s].1 < BaseLongitude + 0.015
  {
  }

  lemma IndexInSnoc(ds: seq<string>, x: string, s: string)
    requires s in ds
    ensures IndexIn(ds + [x], s) == IndexIn(ds, s)
  {
    var k, k' := IndexIn(ds, s), IndexIn(ds + [x], s);
    assert (ds + [x])[k] == s;
  }

  lemma IndexInLast(ds: seq<string>, x: string)
    requires x !in ds
    ensures IndexIn(ds + [x], x) == |ds|
  {
    var k := IndexIn(ds + [x], x);
  }

  /** One more flight: a new non-empty stand gets the next two draws, and a
      stand met before keeps the coordinates of its first occurrence. */
  lemma DistinctStandsSnoc(flights: seq<Flight>, f: Flight)
    ensures DistinctStands(flights + [f])
         == if Present(f.standId) && f.standId.value !in DistinctStands(flights)
            then DistinctStands(flights) + [f.standId.value]
            else DistinctStands(flights)
  {
    assert (flights + [f])[..|flights + [f]| - 1] == flights;
  }

  lemma StandCoordinatesKeys(flights: seq<Flight>, rng: nat -> Jitter, s: string)
    ensures s in StandCoordinates(flights, rng) <==> s in DistinctStands(flights)
  {
  }

  lemma StandCoordinatesSnoc(flights: seq<Flight>, f: Flight, rng: nat -> Jitter)
    ensures var coords := StandCoordinates(flights, rng);
      StandCoordinates(flights + [f], rng)
        == if Present(f.standId) && f.standId.value !in coords
           then coords[f.standId.value := StandAt(|DistinctStands(flights)|, rng)]
           else coords
    ensures |DistinctStands(flights + [f])|
         == |DistinctStands(flights)| + if Present(f.standId) && f.standId.value !in StandCoordinates(flights, rng) then 1 else 0
  {
    var ds := DistinctStands(flights);
    var coords := StandCoordinates(flights, rng);
    var ds' := DistinctStands(flights + [f]);
    var coords' := StandCoordinates(flights + [f], rng);
    DistinctStandsSnoc(flights, f);
    if Present(f.standId) {
      StandCoordinatesKeys(flights, rng, f.standId.value);
    }
    if Present(f.standId) && f.standId.value !in coords {
      var x := f.standId.value;
      assert ds' == ds + [x];
      var expected := coords[x := StandAt(|ds|, rng)];
      forall s ensures s in coords' <==> s in expected {
        StandCoordinatesKeys(flights, rng, s);
        StandCoordinatesKeys(flights + [f], rng, s);
      }
      forall s | s in coords' ensures coords'[s] == expected[s] {
        if s == x {
          IndexInLast(ds, x);
        } else {
          StandCoordinatesKeys(flights + [f], rng, s);
          IndexInSnoc(ds, x, s);
        }
      }
      assert coords' == expected;
    } else {
      assert ds' == ds;
    }
  }

  /** The stand of any flight found by FUUID has coordinates, so the
      matcher's check for a missing stand coordinate never skips a task. */
  lemma FoundStandHasCoordinates(flights: seq<Flight>, k: string, rng: nat -> Jitter)
    requires FlightByFuuid(flights, k).Some? && Present(FlightByFuuid(flights, k).value.standId)
    ensures FlightByFuuid(flights, k).value.standId.value in StandCoordinates(flights, rng)
  {
    var f := FlightByFuuid(flights, k).value;
    var i :| 0 <= i < |flights| && flights[i] == f;
    assert HasStand(flights, f.standId.value);
    StandCoordinatesSpec(flights, rng);
  }

  // ---------------------------------------------------------------------
  // Tasks and vehicle fixes
  // ---------------------------------------------------------------------

  /** The first flight with FUUID `k`, or None. */
  function FlightByFuuid(flights: seq<Flight>, k: string): (r: Option<Flight>)
    ensures r.None? <==> forall i :: 0 <= i < |flights| ==> flights[i].fuuid != k
    ensures r.Some? ==> exists i :: 0 <= i < |flights| && flights[i] == r.value && r.value.fuuid == k
                                    && forall j :: 0 <= j < i ==> flights[j].fuuid != k
  {
    if flights == [] then None
    else if flights[0].fuuid == k then Some(flights[0])
    else
      var r := FlightByFuuid(flights[1..], k);
      assert forall i :: 1 <= i < |flights| ==> flights[i] == flights[1..][i - 1];
      r
  }

  /** A flight preceded by no flight of the same FUUID is the one found. */
  lemma {:induction false} FlightByFuuidFirst(flights: seq<Flight>, k: string, i: nat)
    requires i < |flights| && flights[i].fuuid == k
    requires forall j :: 0 <= j < i ==> flights[j].fuuid != k
    ensures FlightByFuuid(flights, k) == Some(flights[i])
  {
    if i > 0 {
      FlightByFuuidFirst(flights[1..], k, i - 1);
    }
  }

  /** The squared planar distance between two coordinates, in degrees². */
  function SquaredDistance(c1: Coord, c2: Coord): (d: real)
    ensures d >= 0.0
  {
    (c1.0 - c2.0) * (c1.0 - c2.0) + (c1.1 - c2.1) * (c1.1 - c2.1)
  }

  /** `_calculate_distance(c1, c2) <= threshold`, compared without the
      square root: both sides are non-negative, so squaring keeps the order. */
  predicate WithinDistance(c1: Coord, c2: Coord, threshold: real) {
    threshold >= 0.0 && SquaredDistance(c1, c2) <= threshold * threshold
  }

  /** For the distance `d` itself (the non-negative root of the squared
      distance), the comparison is `d <= threshold`. */
  lemma WithinDistanceIsRootCompare(c1: Coord, c2: Coord, threshold: real, d: real)
    requires d >= 0.0 && d * d == SquaredDistance(c1, c2)
    ensures WithinDistance(c1, c2, threshold) <==> d <= threshold
  {
    if threshold >= 0.0 && d > threshold {
      var e := d - threshold;
      assert d * d == threshold * threshold + e * (d + threshold);
      assert e * (d + threshold) > 0.0;
    }
    if threshold >= 0.0 && d <= threshold {
      assert d * d <= d * threshold <= threshold * threshold;
    }
  }

  /** Where and when a towing task took place: its flight's stand and its
      actual end time. */
  datatype Anchor = Anchor(stand: Coord, endTime: DateTime)

  /** The anchor of a task, None when the task is skipped: not a towing
      task, no flight with its FUUID, no stand, no coordinates for the
      stand, or no readable actual end time. */
  function TaskAnchor(t: Task, flights: seq<Flight>, coords: map<string, Coord>): (r: Option<Anchor>)
    ensures r.Some? ==> IsTowingTask(t) && ValidDateTime(r.value.endTime)
    ensures r.Some? <==>
      && IsTowingTask(t)
      && FlightByFuuid(flights, t.fuuid).Some?
      && Present(FlightByFuuid(flights, t.fuuid).value.standId)
      && FlightByFuuid(flights, t.fuuid).value.standId.value in coords
      && GetActualEndTime(t).Some?
    ensures r.Some? ==>
      && r.value.stand == coords[FlightByFuuid(flights, t.fuuid).value.standId.value]
      && GetActualEndTime(t) == Some(r.value.endTime)
  {
    if !IsTowingTask(t) then None
    else match FlightByFuuid(flights, t.fuuid)
      case None => None
      case Some(f) =>
        if !Present(f.standId) || f.standId.value !in coords then None
        else match GetActualEndTime(t)
          case None => None
          case Some(end) => Some(Anchor(coords[f.standId.value], end))
  }

  /** A fix joins an anchored task when it is from a towing vehicle, its
      time parses and lies at most 30 minutes either side of the task's
      end, and it lies within `threshold` of the stand. */
  predicate VehicleJoins(anchor: Anchor, v: V.VehicleGps, threshold: real) {
    && V.IsTowingVehicle(v)
    && V.GetTimestamp(v).Some?
    && ValidDateTime(anchor.endTime)
    && MinutesApart(V.GetTimestamp(v).value, anchor.endTime) <= TaskTimeWindow
    && WithinDistance(anchor.stand, V.GetPosition(v), threshold)
  }

  function VehicleRelation(flights: seq<Flight>, coords: map<string, Coord>, threshold: real): (Task, V.VehicleGps) -> bool {
    (t: Task, v: V.VehicleGps) =>
      match TaskAnchor(t, flights, coords)
      case Some(anchor) => VehicleJoins(anchor, v, threshold)
      case None => false
  }

  function TaskId(t: Task): Option<string> {
    t.id
  }

  /** The task-to-fixes map, keyed by task ID. */
  function TaskVehicleMap(tasks: seq<Task>, flights: seq<Flight>, coords: map<string, Coord>,
                          vehicles: seq<V.VehicleGps>, threshold: real): map<Option<string>, seq<V.VehicleGps>>
  {
    GroupPairs(JoinPairs(tasks, vehicles, TaskId, VehicleRelation(flights, coords, threshold)))
  }

  lemma SkippedTask(flights: seq<Flight>, coords: map<string, Coord>, threshold: real, t: Task,
                    vehicles: seq<V.VehicleGps>, done: seq<(Option<string>, V.VehicleGps)>)
    requires TaskAnchor(t, flights, coords).None?
    ensures done + Tagged(t.id, Matching(t, vehicles, VehicleRelation(flights, coords, threshold))) == done
  {
    JoinNothing(done, t.id, t, vehicles, VehicleRelation(flights, coords, threshold));
  }

  lemma AnchoredTask(flights: seq<Flight>, coords: map<string, Coord>, threshold: real, t: Task,
                     anchor: Anchor, v: V.VehicleGps)
    requires TaskAnchor(t, flights, coords) == Some(anchor)
    ensures VehicleRelation(flights, coords, threshold)(t, v) == VehicleJoins(anchor, v, threshold)
  {
  }

  /** A fix is listed under a task ID exactly when some task with that ID
      is anchored and the fix joins it. */
  lemma TaskVehicleMembership(tasks: seq<Task>, flights: seq<Flight>, coords: map<string, Coord>,
                              vehicles: seq<V.VehicleGps>, threshold: real, k: Option<string>, v: V.VehicleGps)
    ensures var m := TaskVehicleMap(tasks, flights, coords, vehicles, threshold);
      (k in m && v in m[k]) <==>
        (v in vehicles && exists i :: 0 <= i < |tasks| && tasks[i].id == k
                                      && TaskAnchor(tasks[i], flights, coords).Some?
                                      && VehicleJoins(TaskAnchor(tasks[i], flights, coords).value, v, threshold))
  {
    var rel := VehicleRelation(flights, coords, threshold);
    var ps := JoinPairs(tasks, vehicles, TaskId, rel);
    ValuesAtMember(ps, k, v);
    JoinPairsMember(tasks, vehicles, TaskId, rel, k, v);
    if (k, v) in ps {
      var j :| 0 <= j < |ps| && ps[j] == (k, v);
      assert ps[j].0 == k;
    }
  }

  /** A task that is not a towing task adds nothing, wherever it appears. */
  lemma NonTowingTaskAddsNothing(before: seq<Task>, t: Task, after: seq<Task>, flights: seq<Flight>,
                                 coords: map<string, Coord>, vehicles: seq<V.VehicleGps>, threshold: real)
    requires !IsTowingTask(t)
    ensures TaskVehicleMap(before + [t] + after, flights, coords, vehicles, threshold)
         == TaskVehicleMap(before + after, flights, coords, vehicles, threshold)
  {
    var rel := VehicleRelation(flights, coords, threshold);
    MatchingNone(t, vehicles, rel);
    JoinPairsSkip(before, t, after, vehicles, TaskId, rel);
  }

  /** The time window is inclusive and counts across midnight: for a task
      that ended at 00:20, a fix from 23:50 the day before joins, one from
      23:49 does not. */
  lemma TimeWindowIsInclusive(anchor: Anchor, v: V.VehicleGps, threshold: real, day: Date)
    requires ValidDate(day) && day != Date(9999, 12, 31)
    requires anchor.endTime == DateTime(NextDay(day), 0, 20)
    requires V.IsTowingVehicle(v) && WithinDistance(anchor.stand, V.GetPosition(v), threshold)
    ensures V.GetTimestamp(v) == Some(DateTime(day, 23, 50)) ==> VehicleJoins(anchor, v, threshold)
    ensures V.GetTimestamp(v) == Some(DateTime(day, 23, 49)) ==> !VehicleJoins(anchor, v, threshold)
  {
    MinutesAcrossMidnight(day);
  }

  /** The distance bound is inclusive: a fix exactly `threshold` away (in
      either coordinate alone) is within it. */
  lemma DistanceBoundIsInclusive(stand: Coord, threshold: real)
    requires threshold >= 0.0
    ensures WithinDistance(stand, (stand.0 + threshold, stand.1), threshold)
    ensures WithinDistance(stand, (stand.0, stand.1 - threshold), threshold)
    ensures !WithinDistance(stand, (stand.0 + threshold + 0.001, stand.1), threshold)
  {
    var d := threshold + 0.001;
    assert d * d > threshold * threshold by {
      assert d * d == threshold * threshold + 0.002 * threshold + 0.000001;
    }
  }

  // ---------------------------------------------------------------------
  // The matcher
  // ---------------------------------------------------------------------

  class DataMatcher {
    const loader: DataLoader
    var flightTaskMap: map<string, seq<Task>>
    var flightAdsbMap: map<string, seq<A.AircraftAdsb>>
    var taskVehicleMap: map<Option<string>, seq<V.VehicleGps>>

    constructor (loader: DataLoader)
      ensures this.loader == loader
      ensures flightTaskMap == map[] && flightAdsbMap == map[] && taskVehicleMap == map[]
    {
      this.loader := loader;
      flightTaskMap := map[];
      flightAdsbMap := map[];
      taskVehicleMap := map[];
    }

    /** Groups the tasks by FUUID; the result is also kept in `flightTaskMap`. */
    method MatchFlightTasks() returns (m: map<string, seq<Task>>)
      modifies this`flightTaskMap
      ensures m == flightTaskMap == FlightTaskMap(loader.tasks)
    {
      var tasks := loader.tasks;
      var taskDict: map<string, seq<Task>> := map[];
      for i := 0 to |tasks|
        invariant taskDict == GroupPairs(TaskPairs(tasks[..i]))
      {
        var t := tasks[i];
        assert TaskPairs(tasks[..i + 1]) == TaskPairs(tasks[..i]) + [(t.fuuid, t)];
        GroupPairsSnoc(TaskPairs(tasks[..i]), t.fuuid, t);
        taskDict := Append(taskDict, t.fuuid, t);
      }
      assert tasks[..|tasks|] == tasks;
      flightTaskMap := taskDict;
      m := flightTaskMap;
    }

    /** Collects each flight's ADS-B reports; the result is also kept in
        `flightAdsbMap`. `timeWindow` is only reported, never used, so the
        result does not depend on it. */
    method MatchFlightAdsb(timeWindow: int) returns (m: map<string, seq<A.AircraftAdsb>>)
      modifies this`flightAdsbMap
      ensures m == flightAdsbMap == FlightAdsbMap(loader.flights, loader.adsbData)
    {
      var flights, adsb := loader.flights, loader.adsbData;
      var adsbDict: map<string, seq<A.AircraftAdsb>> := map[];
      for i := 0 to |flights|
        invariant adsbDict == GroupPairs(JoinPairs(flights[..i], adsb, FlightKey, AdsbJoins))
      {
        var f := flights[i];
        ghost var done := JoinPairs(flights[..i], adsb, FlightKey, AdsbJoins);
        TakeOneMore(flights, i);
        JoinPairsSnoc(flights[..i], f, adsb, FlightKey, AdsbJoins);
        var flightNo := Strip(f.flightIdentity);
        var flightDate := ParseDate(f.scheduledDate);
        if f.scheduledDate == [] || flightDate.None? {
          EmptyDateDoesNotParse();
          JoinNothing(done, f.fuuid, f, adsb, AdsbJoins);
          continue;
        }
        JoinInnerStart(done, f.fuuid, f, adsb, AdsbJoins);
        for j := 0 to |adsb|
          invariant adsbDict == GroupPairs(done + Tagged(f.fuuid, Matching(f, adsb[..j], AdsbJoins)))
        {
          var a := adsb[j];
          TakeOneMore(adsb, j);
          JoinInnerStep(done, f.fuuid, f, adsb[..j], a, AdsbJoins);
          AdsbJoinsOnceDated(f, a, flightDate.value);
          if a.fn == flightNo || a.fn2 == Some(flightNo) {
            if Present(a.te) {
              var word := FirstWord(a.te.value);
              if word.Some? {
                var reportDate := ParseDate(word.value);
                if reportDate.Some? && reportDate.value == flightDate.value {
                  adsbDict := Append(adsbDict, f.fuuid, a);
                }
              }
            }
          }
        }
        assert adsb[..|adsb|] == adsb;
      }
      assert flights[..|flights|] == flights;
      flightAdsbMap := adsbDict;
      m := flightAdsbMap;
    }

    /** The first flight with FUUID `fuuid`, or None. */
    method GetFlightByFuuid(fuuid: string) returns (r: Option<Flight>)
      ensures r == FlightByFuuid(loader.flights, fuuid)
    {
      var flights := loader.flights;
      for i := 0 to |flights|
        invariant forall j :: 0 <= j < i ==> flights[j].fuuid != fuuid
      {
        if flights[i].fuuid == fuuid {
          FlightByFuuidFirst(flights, fuuid, i);
          return Some(flights[i]);
        }
      }
      return None;
    }

    /** Gives every distinct non-empty STANDID a coordinate near the
        airport centre, drawing two offsets from `rng` per new stand. */
    method EstimateStandCoordinates(rng: nat -> Jitter) returns (coords: map<string, Coord>)
      ensures coords == StandCoordinates(loader.flights, rng)
    {
      var flights := loader.flights;
      coords := map[];
      var draws: nat := 0;
      for i := 0 to |flights|
        invariant coords == StandCoordinates(flights[..i], rng)
        invariant draws == 2 * |DistinctStands(flights[..i])|
      {
        var f := flights[i];
        TakeOneMore(flights, i);
        StandCoordinatesSnoc(flights[..i], f, rng);
        if Present(f.standId) && f.standId.value !in coords {
          assert StandAt(|DistinctStands(flights[..i])|, rng) == (BaseLatitude + rng(draws), BaseLongitude + rng(draws + 1));
          var offsetLat := rng(draws);
          var offsetLon := rng(draws + 1);
          coords := coords[f.standId.value := (BaseLatitude + offsetLat, BaseLongitude + offsetLon)];
          draws := draws + 2;
        }
      }
      assert flights[..|flights|] == flights;
    }

    /** Collects the towing-vehicle fixes near each towing task in space and
        time, keyed by task ID; the result is also kept in `taskVehicleMap`.
        The stand coordinates come from `rng` as in
        `EstimateStandCoordinates`. */
    method MatchTaskVehicle(distanceThreshold: real, rng: nat -> Jitter) returns (m: map<Option<string>, seq<V.VehicleGps>>)
      modifies this`taskVehicleMap
      ensures m == taskVehicleMap
      ensures m == TaskVehicleMap(loader.tasks, loader.flights, StandCoordinates(loader.flights, rng),
                                  loader.vehicleGps, distanceThreshold)
    {
      var standCoords := EstimateStandCoordinates(rng);
      var tasks, vehicles := loader.tasks, loader.vehicleGps;
      ghost var rel := VehicleRelation(loader.flights, standCoords, distanceThreshold);
      var vehicleDict: map<Option<string>, seq<V.VehicleGps>> := map[];
      for i := 0 to |tasks|
        invariant vehicleDict == GroupPairs(JoinPairs(tasks[..i], vehicles, TaskId, rel))
      {
        var t := tasks[i];
        ghost var done := JoinPairs(tasks[..i], vehicles, TaskId, rel);
        TakeOneMore(tasks, i);
        JoinPairsSnoc(tasks[..i], t, vehicles, TaskId, rel);
        if !IsTowingTask(t) {
          SkippedTask(loader.flights, standCoords, distanceThreshold, t, vehicles, done);
          continue;
        }
        var flight := GetFlightByFuuid(t.fuuid);
        if flight.None? || !Present(flight.value.standId) {
          SkippedTask(loader.flights, standCoords, distanceThreshold, t, vehicles, done);
          continue;
        }
        if flight.value.standId.value !in standCoords {
          SkippedTask(loader.flights, standCoords, distanceThreshold, t, vehicles, done);
          continue;
        }
        var standCoord := standCoords[flight.value.standId.value];
        var taskTime := GetActualEndTime(t);
        if taskTime.None? {
          SkippedTask(loader.flights, standCoords, distanceThreshold, t, vehicles, done);
          continue;
        }
        ghost var anchor := Anchor(standCoord, taskTime.value);
        assert TaskAnchor(t, loader.flights, standCoords) == Some(anchor);
        JoinInnerStart(done, t.id, t, vehicles, rel);
        for j := 0 to |vehicles|
          invariant vehicleDict == GroupPairs(done + Tagged(t.id, Matching(t, vehicles[..j], rel)))
        {
          var v := vehicles[j];
          TakeOneMore(vehicles, j);
          JoinInnerStep(done, t.id, t, vehicles[..j], v, rel);
          AnchoredTask(loader.flights, standCoords, distanceThreshold, t, anchor, v);
          if !V.IsTowingVehicle(v) {
            continue;
          }
          var vehicleTime := V.GetTimestamp(v);
          if vehicleTime.None? {
            continue;
          }
          var timeDiff := MinutesApart(vehicleTime.value, taskTime.value);
          if timeDiff > TaskTimeWindow {
            continue;
          }
          var vehicleCoord := V.GetPosition(v);
          if WithinDistance(standCoord, vehicleCoord, distanceThreshold) {
            vehicleDict := Append(vehicleDict, t.id, v);
          }
        }
        assert vehicles[..|vehicles|] == vehicles;
      }
      assert tasks[..|tasks|] == tasks;
      taskVehicleMap := vehicleDict;
      m := taskVehicleMap;
    }

    /** Runs the three joins with their defaults: a 120-minute window for
        ADS-B and a 0.01-degree distance threshold for vehicles. */
    method MatchAll(rng: nat -> Jitter)
      modifies this`flightTaskMap, this`flightAdsbMap, this`taskVehicleMap
      ensures flightTaskMap == FlightTaskMap(loader.tasks)
      ensures flightAdsbMap == FlightAdsbMap(loader.flights, loader.adsbData)
      ensures taskVehicleMap == TaskVehicleMap(loader.tasks, loader.flights, StandCoordinates(loader.flights, rng),
                                               loader.vehicleGps, DefaultDistanceThreshold)
    {
      var _ := MatchFlightTasks();
      var _ := MatchFlightAdsb(DefaultAdsbTimeWindow);
      var _ := MatchTaskVehicle(DefaultDistanceThreshold, rng);
    }
  }
}
