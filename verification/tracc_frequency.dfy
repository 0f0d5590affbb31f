/**
 * `get_stop_frequency` of the rail (TRACC) stop-frequency counter: the distinct stop events at
 * which a train calls (is not passing) on a weekday with its public arrival or departure time
 * inside a closed window, counted per location (or per location and service), sorted by
 * frequency, optionally with the set of services calling at each location.
 */
module TraccFrequency {
  import opened Wrappers
  import opened Records
  import opened Tables
  import opened Frequency

  /**
   * A stop event: the row's values in the `drop_duplicates` subset, in order location,
   * unique_identifier, the weekday column, scheduled arrival and departure, public arrival and
   * departure, scheduled_pass.
   */
  function EventKey(row: Record, day: string): (k: seq<Value>)
    ensures |k| == 8
  {
    [Get(row, "location"), Get(row, "unique_identifier"), Get(row, day),
     Get(row, "scheduled_arrival_time"), Get(row, "scheduled_departure_time"),
     Get(row, "public_arrival_time"), Get(row, "public_departure_time"), Get(row, "scheduled_pass")]
  }

  function EventOf(day: string): Record -> seq<Value> {
    row => EventKey(row, day)
  }

  /** The train calls on `day` (no scheduled pass) with the public time `col` inside the window. */
  predicate CallsIn(row: Record, day: string, col: string, w: Window) {
    RunsOn(row, day) && Get(row, "scheduled_pass") == Null && InWindow(Get(row, col), w)
  }

  function ArrivalMask(day: string, w: Window): Record -> bool {
    row => CallsIn(row, day, "public_arrival_time", w)
  }

  function DepartureMask(day: string, w: Window): Record -> bool {
    row => CallsIn(row, day, "public_departure_time", w)
  }

  /** A row one of the two selections keeps. */
  predicate Qualifies(row: Record, day: string, w: Window) {
    CallsIn(row, day, "public_arrival_time", w) || CallsIn(row, day, "public_departure_time", w)
  }

  function QualifyMask(day: string, w: Window): Record -> bool {
    row => Qualifies(row, day, w)
  }

  /** `total`: the arrivals in the window, then the departures in the window, duplicate stop events dropped. */
  function Total(rows: seq<Record>, day: string, w: Window): (total: seq<Record>)
    ensures |total| <= 2 * |rows|
    ensures forall r :: r in total ==> r in rows && Qualifies(r, day, w)
  {
    SelectedRowsAll(rows, day, w);
    Dedup(Filter(rows, ArrivalMask(day, w)) + Filter(rows, DepartureMask(day, w)), EventOf(day))
  }

  /** Every row of the two selections is a qualifying row of the timetable. */
  lemma SelectedRowsAll(rows: seq<Record>, day: string, w: Window)
    ensures forall r :: r in Filter(rows, ArrivalMask(day, w)) + Filter(rows, DepartureMask(day, w)) ==>
      r in rows && Qualifies(r, day, w)
  {
    forall r | r in Filter(rows, ArrivalMask(day, w)) + Filter(rows, DepartureMask(day, w))
      ensures r in rows && Qualifies(r, day, w)
    {
      SelectedRows(rows, day, w, r);
    }
  }

  /** Whether a row qualifies depends on its stop event alone. */
  lemma QualifiesByEvent(r1: Record, r2: Record, day: string, w: Window)
    requires EventKey(r1, day) == EventKey(r2, day)
    ensures Qualifies(r1, day, w) == Qualifies(r2, day, w)
  {
    var k1, k2 := EventKey(r1, day), EventKey(r2, day);
    assert k1[2] == k2[2] && k1[5] == k2[5] && k1[6] == k2[6] && k1[7] == k2[7];
  }

  /** A row is in one of the two selections exactly when it is in the table and qualifies. */
  lemma SelectedRows(rows: seq<Record>, day: string, w: Window, r: Record)
    ensures r in Filter(rows, ArrivalMask(day, w)) + Filter(rows, DepartureMask(day, w)) <==> r in rows && Qualifies(r, day, w)
  {
    FilterMembers(rows, ArrivalMask(day, w), r);
    FilterMembers(rows, DepartureMask(day, w), r);
  }

  /** What `total` is to the timetable (see `TotalSpec`). */
  predicate IsTotal(total: seq<Record>, rows: seq<Record>, day: string, w: Window) {
    && DistinctKeys(total, EventOf(day))
    && (forall r :: r in total ==> r in rows && Qualifies(r, day, w))
    && (forall i :: 0 <= i < |rows| ==>
          (Qualifies(rows[i], day, w) <==> EventKey(rows[i], day) in KeysOf(total, EventOf(day))))
  }

  /**
   * `total` holds each stop event once, only qualifying rows of the timetable, and a row of the
   * timetable qualifies exactly when its stop event is in `total` (a call whose arrival and
   * departure are both in the window is counted once).
   */
  lemma TotalSpec(rows: seq<Record>, day: string, w: Window)
    ensures IsTotal(Total(rows, day, w), rows, day, w)
  {
    var both := Filter(rows, ArrivalMask(day, w)) + Filter(rows, DepartureMask(day, w));
    var total := Total(rows, day, w);
    DedupSpec(both, EventOf(day));
    forall r | r in total ensures r in rows && Qualifies(r, day, w) {
      SelectedRows(rows, day, w, r);
    }
    forall i | 0 <= i < |rows|
      ensures Qualifies(rows[i], day, w) <==> EventKey(rows[i], day) in KeysOf(total, EventOf(day))
    {
      if Qualifies(rows[i], day, w) {
        SelectedRows(rows, day, w, rows[i]);
        var j :| 0 <= j < |both| && both[j] == rows[i];
        assert EventOf(day)(both[j]) in KeysOf(both, EventOf(day));
      }
      if EventKey(rows[i], day) in KeysOf(total, EventOf(day)) {
        var j :| 0 <= j < |total| && EventOf(day)(total[j]) == EventKey(rows[i], day);
        assert total[j] in total;
        QualifiesByEvent(total[j], rows[i], day, w);
      }
    }
  }

  /** `group_by_cols`. */
  function GroupColumns(byRoutes: bool): seq<string> {
    if byRoutes then ["location", "unique_identifier"] else ["location"]
  }

  /** The group of a row depends on its stop event alone. */
  lemma GroupByEvent(r1: Record, r2: Record, day: string, byRoutes: bool)
    requires EventKey(r1, day) == EventKey(r2, day)
    ensures GroupKey(r1, GroupColumns(byRoutes)) == GroupKey(r2, GroupColumns(byRoutes))
  {
    var cols := GroupColumns(byRoutes);
    var k1, k2 := EventKey(r1, day), EventKey(r2, day);
    assert k1[0] == k2[0] && k1[1] == k2[1];
    assert forall i :: 0 <= i < |cols| ==> Get(r1, cols[i]) == Get(r2, cols[i]);
    if GroupKey(r1, cols).Some? {
      assert GroupKey(r1, cols).value == GroupKey(r2, cols).value;
    }
  }

  /** The distinct stop events of group `g` among the qualifying rows of the timetable. */
  function Events(rows: seq<Record>, day: string, w: Window, cols: seq<string>, g: seq<Value>): set<seq<Value>> {
    set i | 0 <= i < |rows| && Qualifies(rows[i], day, w) && GroupKey(rows[i], cols) == Some(g) :: EventKey(rows[i], day)
  }

  /** Each row of `total` in group `g` is a stop event of the group. */
  lemma MembersAreEvents(total: seq<Record>, rows: seq<Record>, day: string, w: Window, cols: seq<string>, g: seq<Value>)
    requires IsTotal(total, rows, day, w)
    ensures KeysOf(Filter(total, InGroup(cols, g)), EventOf(day)) <= Events(rows, day, w, cols, g)
  {
    var members := Filter(total, InGroup(cols, g));
    forall k | k in KeysOf(members, EventOf(day)) ensures k in Events(rows, day, w, cols, g) {
      var j :| 0 <= j < |members| && EventOf(day)(members[j]) == k;
      FilterMembers(total, InGroup(cols, g), members[j]);
      var i :| 0 <= i < |rows| && rows[i] == members[j];
    }
  }

  /** The row of `total` holding a qualifying row's stop event is in that row's group. */
  lemma EventIsMember(total: seq<Record>, rows: seq<Record>, day: string, w: Window, byRoutes: bool, i: nat)
    requires IsTotal(total, rows, day, w)
    requires i < |rows| && Qualifies(rows[i], day, w) && GroupKey(rows[i], GroupColumns(byRoutes)).Some?
    ensures var g := GroupKey(rows[i], GroupColumns(byRoutes)).value;
      EventKey(rows[i], day) in KeysOf(Filter(total, InGroup(GroupColumns(byRoutes), g)), EventOf(day))
  {
    var cols := GroupColumns(byRoutes);
    var g := GroupKey(rows[i], cols).value;
    var members := Filter(total, InGroup(cols, g));
    var j :| 0 <= j < |total| && EventOf(day)(total[j]) == EventKey(rows[i], day);
    GroupByEvent(total[j], rows[i], day, byRoutes);
    FilterMembers(total, InGroup(cols, g), total[j]);
    var m :| 0 <= m < |members| && members[m] == total[j];
    assert EventOf(day)(members[m]) in KeysOf(members, EventOf(day));
  }

  /** Each stop event of group `g` is a row of `total` in the group. */
  lemma EventsAreMembers(total: seq<Record>, rows: seq<Record>, day: string, w: Window, byRoutes: bool, g: seq<Value>)
    requires IsTotal(total, rows, day, w)
    ensures var cols := GroupColumns(byRoutes);
      Events(rows, day, w, cols, g) <= KeysOf(Filter(total, InGroup(cols, g)), EventOf(day))
  {
    var cols := GroupColumns(byRoutes);
    forall k | k in Events(rows, day, w, cols, g) ensures k in KeysOf(Filter(total, InGroup(cols, g)), EventOf(day)) {
      var i :| 0 <= i < |rows| && Qualifies(rows[i], day, w) && GroupKey(rows[i], cols) == Some(g)
                && EventKey(rows[i], day) == k;
      EventIsMember(total, rows, day, w, byRoutes, i);
    }
  }

  /** The rows of `total` in group `g` are the group's stop events, one row each. */
  lemma GroupRowsAreEvents(total: seq<Record>, rows: seq<Record>, day: string, w: Window, byRoutes: bool, g: seq<Value>)
    requires IsTotal(total, rows, day, w)
    ensures var cols := GroupColumns(byRoutes);
      var members := Filter(total, InGroup(cols, g));
      && DistinctKeys(members, EventOf(day))
      && KeysOf(members, EventOf(day)) == Events(rows, day, w, cols, g)
  {
    var cols := GroupColumns(byRoutes);
    FilterDistinct(total, InGroup(cols, g), EventOf(day));
    MembersAreEvents(total, rows, day, w, cols, g);
    EventsAreMembers(total, rows, day, w, byRoutes, g);
  }

  /** Every row of `total` qualifies, so selecting the qualifying rows keeps it whole. */
  lemma TotalQualifies(total: seq<Record>, day: string, w: Window)
    requires forall r :: r in total ==> Qualifies(r, day, w)
    ensures Filter(total, QualifyMask(day, w)) == total
    ensures forall i :: 0 <= i < |total| ==> QualifyMask(day, w)(total[i]) ==> RunsOn(total[i], day)
  {
    forall i | 0 <= i < |total| ensures QualifyMask(day, w)(total[i]) {
      assert total[i] in total;
    }
    FilterAll(total, QualifyMask(day, w));
  }

  /** The number of qualifying rows of `total` in group `g` is the number of the group's stop events. */
  lemma TallyIsEvents(total: seq<Record>, rows: seq<Record>, day: string, w: Window, byRoutes: bool, g: seq<Value>)
    requires IsTotal(total, rows, day, w)
    ensures Tally(total, QualifyMask(day, w), GroupColumns(byRoutes), g)
         == |Events(rows, day, w, GroupColumns(byRoutes), g)|
  {
    var cols := GroupColumns(byRoutes);
    TotalQualifies(total, day, w);
    TallyIsFilter(total, QualifyMask(day, w), cols, g);
    GroupRowsAreEvents(total, rows, day, w, byRoutes, g);
    KeysOfSize(Filter(total, InGroup(cols, g)), EventOf(day));
  }

  /**
   * `total.groupby(group_by_cols).sum()`: a row for each group with a stop event, once, whose
   * total is the number of the group's stop events.
   */
  lemma TotalFrequencySpec(total: seq<Record>, rows: seq<Record>, day: string, w: Window, byRoutes: bool)
    requires IsTotal(total, rows, day, w)
    ensures var cols := GroupColumns(byRoutes);
      var counts := GroupSum(total, cols, day);
      && DistinctKeys(counts, CountKey)
      && (forall g :: g in KeysOf(counts, CountKey) <==> Events(rows, day, w, cols, g) != {})
      && (forall i :: 0 <= i < |counts| ==> counts[i].total == |Events(rows, day, w, cols, counts[i].key)|)
  {
    var cols := GroupColumns(byRoutes);
    var q := QualifyMask(day, w);
    TotalQualifies(total, day, w);
    GroupSumKeys(total, q, cols, day);
    GroupSumTotals(total, q, cols, day);
    forall g ensures Tally(total, q, cols, g) == |Events(rows, day, w, cols, g)| {
      TallyIsEvents(total, rows, day, w, byRoutes, g);
    }
  }

  /** One row of `services`: a location and the set of services calling there. */
  datatype Service = Service(location: Value, routes: set<Value>)

  /** `total['location']`. */
  function LocationColumn(total: seq<Record>): (r: seq<Value>)
    ensures |r| == |total|
  {
    seq(|total|, i requires 0 <= i < |total| => Get(total[i], "location"))
  }

  /** `total['location'].unique()`: each location value once (an absent one included), in order of first appearance. */
  function Locations(total: seq<Record>): seq<Value> {
    Distinct(LocationColumn(total))
  }

  /**
   * `set(total[total['location'] == location]['unique_identifier'].unique())`: the services of the
   * rows at `location`; an absent location equals no row's location.
   */
  function RoutesAt(total: seq<Record>, location: Value): set<Value> {
    if location == Null then {}
    else set i | 0 <= i < |total| && Get(total[i], "location") == location :: Get(total[i], "unique_identifier")
  }

  /** The `services` table the loop builds. */
  function ServicesOf(total: seq<Record>): seq<Service> {
    var locations := Locations(total);
    seq(|locations|, i requires 0 <= i < |locations| => Service(locations[i], RoutesAt(total, locations[i])))
  }

  /** The loop over `locations` appending one row of `locations_and_routes` per location. */
  method CollectServices(total: seq<Record>) returns (services: seq<Service>)
    ensures services == ServicesOf(total)
  {
    var locations := Locations(total);
    services := [];
    var i := 0;
    while i < |locations|
      invariant 0 <= i <= |locations|
      invariant services == ServicesOf(total)[..i]
    {
      var routes := RoutesAt(total, locations[i]);
      services := services + [Service(locations[i], routes)];
      i := i + 1;
    }
  }

  /**
   * The services table has a row for each location value of `total` (an absent one included),
   * each once, holding the services of the rows at that location.
   */
  lemma ServicesSpec(total: seq<Record>)
    ensures var services := ServicesOf(total);
      && (forall i, j :: 0 <= i < j < |services| ==> services[i].location != services[j].location)
      && (forall i :: 0 <= i < |services| ==> services[i].location in LocationColumn(total))
      && (forall k :: 0 <= k < |total| ==>
            exists i :: 0 <= i < |services| && services[i].location == Get(total[k], "location"))
      && (forall i :: 0 <= i < |services| ==> services[i].routes == RoutesAt(total, services[i].location))
  {
    var services, column := ServicesOf(total), LocationColumn(total);
    DistinctSpec(column);
    forall i | 0 <= i < |services| ensures services[i].location in column {
      assert Locations(total)[i] in Locations(total);
    }
    forall k | 0 <= k < |total|
      ensures exists i :: 0 <= i < |services| && services[i].location == Get(total[k], "location")
    {
      assert column[k] in column;
      var i :| 0 <= i < |Locations(total)| && Locations(total)[i] == column[k];
      assert services[i].location == Get(total[k], "location");
    }
  }

  /** `merge(services, how='left', on='location')` for one location: the routes of its first match, if any. */
  function RoutesLookup(services: seq<Service>, location: Value): (r: Option<set<Value>>)
    ensures r.Some? <==> exists i :: 0 <= i < |services| && services[i].location == location
    ensures r.Some? ==> exists i :: 0 <= i < |services| && services[i] == Service(location, r.value)
    decreases |services|
  {
    if services == [] then None
    else if services[0].location == location then Some(services[0].routes)
    else
      assert forall i :: 1 <= i < |services| ==> services[i] == services[1..][i - 1];
      RoutesLookup(services[1..], location)
  }

  /** The services calling, on `day` in the window, at `location`. */
  function RoutesOf(rows: seq<Record>, day: string, w: Window, location: Value): set<Value> {
    set i | 0 <= i < |rows| && Qualifies(rows[i], day, w) && Get(rows[i], "location") == location
      :: Get(rows[i], "unique_identifier")
  }

  /** The routes of a present location of `total` are the services of the qualifying rows there. */
  lemma RoutesAtSpec(total: seq<Record>, rows: seq<Record>, day: string, w: Window, location: Value)
    requires IsTotal(total, rows, day, w) && location != Null
    ensures RoutesAt(total, location) == RoutesOf(rows, day, w, location)
  {
    var a, b := RoutesAt(total, location), RoutesOf(rows, day, w, location);
    forall u | u in a ensures u in b {
      var k :| 0 <= k < |total| && Get(total[k], "location") == location && Get(total[k], "unique_identifier") == u;
      assert total[k] in total;
      var i :| 0 <= i < |rows| && rows[i] == total[k];
    }
    forall u | u in b ensures u in a {
      var i :| 0 <= i < |rows| && Qualifies(rows[i], day, w) && Get(rows[i], "location") == location
                && Get(rows[i], "unique_identifier") == u;
      var k :| 0 <= k < |total| && EventOf(day)(total[k]) == EventKey(rows[i], day);
      var k1, k2 := EventKey(total[k], day), EventKey(rows[i], day);
      assert k1[0] == k2[0] && k1[1] == k2[1];
    }
  }

  /** The location of a group with a stop event is present, and some row of `total` is there. */
  lemma GroupLocation(total: seq<Record>, rows: seq<Record>, day: string, w: Window, byRoutes: bool, g: seq<Value>)
    requires IsTotal(total, rows, day, w)
    requires Events(rows, day, w, GroupColumns(byRoutes), g) != {}
    ensures KeyColumn(g, 0) != Null
    ensures exists k :: 0 <= k < |total| && Get(total[k], "location") == KeyColumn(g, 0)
  {
    var cols := GroupColumns(byRoutes);
    var e :| e in Events(rows, day, w, cols, g);
    var i :| 0 <= i < |rows| && Qualifies(rows[i], day, w) && GroupKey(rows[i], cols) == Some(g) && EventKey(rows[i], day) == e;
    assert cols[0] == "location" && Get(rows[i], cols[0]) != Null;
    assert KeyColumn(g, 0) == Get(rows[i], "location");
    var k :| 0 <= k < |total| && EventOf(day)(total[k]) == EventKey(rows[i], day);
    assert EventKey(total[k], day)[0] == EventKey(rows[i], day)[0];
  }

  /**
   * The left join of the services table for the location of a group with a stop event finds it,
   * with the services calling there.
   */
  lemma GroupServices(total: seq<Record>, rows: seq<Record>, day: string, w: Window, byRoutes: bool, g: seq<Value>)
    requires IsTotal(total, rows, day, w)
    requires Events(rows, day, w, GroupColumns(byRoutes), g) != {}
    ensures RoutesLookup(ServicesOf(total), KeyColumn(g, 0)) == Some(RoutesOf(rows, day, w, KeyColumn(g, 0)))
  {
    var location := KeyColumn(g, 0);
    GroupLocation(total, rows, day, w, byRoutes, g);
    ServicesSpec(total);
    var services := ServicesOf(total);
    var r := RoutesLookup(services, location);
    var j :| 0 <= j < |services| && services[j] == Service(location, r.value);
    RoutesAtSpec(total, rows, day, w, location);
  }

  function CountTotal(c: Count): int {
    c.total
  }

  /** `total_freq` renamed and sorted by `total_frequency`, descending. */
  function Ranked(total: seq<Record>, day: string, byRoutes: bool): seq<Count> {
    SortDesc(GroupSum(total, GroupColumns(byRoutes), day), CountTotal)
  }

  /** The `total_routes` column: absent without `get_services`, else the left-joined routes. */
  datatype ServicesColumn = NoServices | Services(routes: Option<set<Value>>)

  /** An output row: the prefixed location, the service when grouping by route, the count, the routes. */
  datatype StopFrequency =
    StopFrequency(location: string, route: Option<Value>, totalFrequency: int, services: ServicesColumn)

  function Output(c: Count, byRoutes: bool, services: Option<seq<Service>>): StopFrequency {
    StopFrequency(Prefixed("QLN9100", KeyColumn(c.key, 0)), if byRoutes then Some(KeyColumn(c.key, 1)) else None,
                  c.total,
                  match services
                  case None => NoServices
                  case Some(s) => Services(RoutesLookup(s, KeyColumn(c.key, 0))))
  }

  function Outputs(ranked: seq<Count>, byRoutes: bool, services: Option<seq<Service>>): (r: seq<StopFrequency>)
    ensures |r| == |ranked|
  {
    seq(|ranked|, i requires 0 <= i < |ranked| => Output(ranked[i], byRoutes, services))
  }

  /**
   * `get_stop_frequency(df, day, start_hour, end_hour, group_by_departure, group_by_routes,
   * get_services, start_minute, end_minute)` as a function of its arguments.
   */
  function StopFrequencyOf(rows: seq<Record>, day: string, startHour: int, endHour: int, byDeparture: bool,
                           byRoutes: bool, getServices: bool, startMinute: int, endMinute: int)
    : (r: Result<seq<StopFrequency>, Error>)
    ensures MakeWindow(startHour, startMinute, endHour, endMinute).Failure? ==>
      r == Failure(MakeWindow(startHour, startMinute, endHour, endMinute).error)
    ensures !getServices ==> (r.Success? <==> MakeWindow(startHour, startMinute, endHour, endMinute).Success?)
    ensures r.Failure? && MakeWindow(startHour, startMinute, endHour, endMinute).Success? ==>
      getServices && r.error == MissingField("location")
  {
    match MakeWindow(startHour, startMinute, endHour, endMinute)
    case Failure(e) => Failure(e)
    case Success(w) =>
      var d := DayColumn(day);
      var total := Total(rows, d, w);
      var services := if getServices then Some(ServicesOf(total)) else None;
      if services == Some([]) then Failure(MissingField("location"))
      else Success(Outputs(Ranked(total, d, byRoutes), byRoutes, services))
  }

  /** `get_stop_frequency`; `group_by_departure` is accepted and not used. */
  method GetStopFrequency(rows: seq<Record>, day: string, startHour: int, endHour: int, byDeparture: bool,
                          byRoutes: bool, getServices: bool, startMinute: int, endMinute: int)
      returns (r: Result<seq<StopFrequency>, Error>)
    ensures r == StopFrequencyOf(rows, day, startHour, endHour, byDeparture, byRoutes, getServices, startMinute, endMinute)
  {
    var window := MakeWindow(startHour, startMinute, endHour, endMinute);
    if window.Failure? {
      return Failure(window.error);
    }
    var d := DayColumn(day);
    var total := Total(rows, d, window.value);
    var services: Option<seq<Service>> := None;
    if getServices {
      var s := CollectServices(total);
      services := Some(s);
    }
    var ranked := Ranked(total, d, byRoutes);
    if services == Some([]) {
      // `pd.DataFrame([])` has no `location` column, so the left merge on it raises KeyError.
      return Failure(MissingField("location"));
    }
    r := Success(Outputs(ranked, byRoutes, services));
  }

  /** The services table is empty exactly when `total` is. */
  lemma ServicesEmpty(total: seq<Record>)
    ensures ServicesOf(total) == [] <==> total == []
  {
    if total != [] {
      var column := LocationColumn(total);
      DistinctSpec(column);
      assert column[0] in column;
      assert |Locations(total)| > 0;
    }
  }

  /** `total` is empty exactly when no row of the timetable qualifies. */
  lemma TotalEmpty(rows: seq<Record>, day: string, w: Window)
    ensures Total(rows, day, w) == [] <==> forall i :: 0 <= i < |rows| ==> !Qualifies(rows[i], day, w)
  {
    var total := Total(rows, day, w);
    TotalSpec(rows, day, w);
    if total != [] {
      assert total[0] in total;
      var i :| 0 <= i < |rows| && rows[i] == total[0];
      assert Qualifies(rows[i], day, w);
    } else {
      assert KeysOf(total, EventOf(day)) == {};
    }
  }

  /**
   * With a valid window, the counter returns a table unless `get_services` is set and no train
   * calls in the window on the day: then the services table is empty and the merge on `location`
   * raises KeyError.
   */
  lemma ServicesNeedACall(rows: seq<Record>, day: string, startHour: int, endHour: int, byDeparture: bool,
                          byRoutes: bool, getServices: bool, startMinute: int, endMinute: int)
    requires MakeWindow(startHour, startMinute, endHour, endMinute).Success?
    ensures var w := MakeWindow(startHour, startMinute, endHour, endMinute).value;
      var r := StopFrequencyOf(rows, day, startHour, endHour, byDeparture, byRoutes, getServices, startMinute, endMinute);
      && (r.Success? <==> !getServices || exists i :: 0 <= i < |rows| && Qualifies(rows[i], DayColumn(day), w))
      && (r.Failure? ==> r.error == MissingField("location"))
  {
    var w := MakeWindow(startHour, startMinute, endHour, endMinute).value;
    var d := DayColumn(day);
    ServicesEmpty(Total(rows, d, w));
    TotalEmpty(rows, d, w);
  }

  /** Sorting a table of counts keeps its groups, each once, and the number each carries. */
  lemma SortedCounts(counts: seq<Count>, events: seq<Value> -> set<seq<Value>>)
    requires DistinctKeys(counts, CountKey)
    requires forall g :: g in KeysOf(counts, CountKey) <==> events(g) != {}
    requires forall i :: 0 <= i < |counts| ==> counts[i].total == |events(counts[i].key)|
    ensures var ranked := SortDesc(counts, CountTotal);
      && NonIncreasing(ranked, CountTotal)
      && DistinctKeys(ranked, CountKey)
      && (forall g :: g in KeysOf(ranked, CountKey) <==> events(g) != {})
      && (forall c :: c in ranked ==> c.total == |events(c.key)|)
  {
    var ranked := SortDesc(counts, CountTotal);
    SortDescKeys(counts, CountTotal, CountKey);
    forall c | c in ranked ensures c.total == |events(c.key)| {
      var i :| 0 <= i < |counts| && counts[i] == c;
    }
  }

  /** The sorted table: each group with a stop event once, with its number of stop events. */
  lemma RankedSpec(total: seq<Record>, rows: seq<Record>, day: string, w: Window, byRoutes: bool)
    requires IsTotal(total, rows, day, w)
    ensures var cols, ranked := GroupColumns(byRoutes), Ranked(total, day, byRoutes);
      && NonIncreasing(ranked, CountTotal)
      && DistinctKeys(ranked, CountKey)
      && (forall g :: g in KeysOf(ranked, CountKey) <==> Events(rows, day, w, cols, g) != {})
      && (forall c :: c in ranked ==> c.total == |Events(rows, day, w, cols, c.key)|)
  {
    var cols := GroupColumns(byRoutes);
    TotalFrequencySpec(total, rows, day, w, byRoutes);
    SortedCounts(GroupSum(total, cols, day), g => Events(rows, day, w, cols, g));
  }

  /** The group keys of a table, in its row order. */
  function KeysInOrder(ranked: seq<Count>): (r: seq<seq<Value>>)
    ensures |r| == |ranked|
  {
    seq(|ranked|, i requires 0 <= i < |ranked| => CountKey(ranked[i]))
  }

  /**
   * The output rows of a sorted table of the groups with a stop event, each once, carrying their
   * numbers of stop events: row `i` is the group `KeysInOrder(ranked)[i]`.
   */
  lemma OutputsSpec(ranked: seq<Count>, total: seq<Record>, rows: seq<Record>, day: string, w: Window,
                    byRoutes: bool, getServices: bool)
    requires IsTotal(total, rows, day, w)
    requires NonIncreasing(ranked, CountTotal) && DistinctKeys(ranked, CountKey)
    requires forall g :: g in KeysOf(ranked, CountKey) <==> Events(rows, day, w, GroupColumns(byRoutes), g) != {}
    requires forall c :: c in ranked ==> c.total == |Events(rows, day, w, GroupColumns(byRoutes), c.key)|
    ensures var out := Outputs(ranked, byRoutes, if getServices then Some(ServicesOf(total)) else None);
      var groups, cols := KeysInOrder(ranked), GroupColumns(byRoutes);
      && (forall i, j :: 0 <= i < j < |groups| ==> groups[i] != groups[j])
      && (forall g :: g in groups <==> Events(rows, day, w, cols, g) != {})
      && (forall i, j :: 0 <= i < j < |out| ==> out[i].totalFrequency >= out[j].totalFrequency)
      && (forall i :: 0 <= i < |out| ==>
            && out[i].location == Prefixed("QLN9100", KeyColumn(groups[i], 0))
            && out[i].route == (if byRoutes then Some(KeyColumn(groups[i], 1)) else None)
            && out[i].totalFrequency == |Events(rows, day, w, cols, groups[i])|
            && out[i].services
               == (if getServices then Services(Some(RoutesOf(rows, day, w, KeyColumn(groups[i], 0)))) else NoServices))
  {
    var groups, cols := KeysInOrder(ranked), GroupColumns(byRoutes);
    forall g ensures g in groups <==> g in KeysOf(ranked, CountKey) {
      if g in groups {
        var i :| 0 <= i < |groups| && groups[i] == g;
      }
      if g in KeysOf(ranked, CountKey) {
        var i :| 0 <= i < |ranked| && CountKey(ranked[i]) == g;
        assert groups[i] == g;
      }
    }
    forall i | 0 <= i < |ranked|
      ensures ranked[i].total == |Events(rows, day, w, cols, groups[i])|
      ensures Events(rows, day, w, cols, groups[i]) != {}
    {
      assert ranked[i] in ranked;
      assert CountKey(ranked[i]) in KeysOf(ranked, CountKey);
    }
    if getServices {
      forall i | 0 <= i < |ranked|
        ensures RoutesLookup(ServicesOf(total), KeyColumn(groups[i], 0)) == Some(RoutesOf(rows, day, w, KeyColumn(groups[i], 0)))
      {
        GroupServices(total, rows, day, w, byRoutes, groups[i]);
      }
    }
  }

  /**
   * The output of `get_stop_frequency`, row `i` being the group `groups[i]`: a row for each group
   * with a stop event, each once, sorted by total frequency in non-increasing order. A row's
   * total frequency is the number of distinct stop events of its group; its location is
   * "QLN9100" followed by the trimmed location; with `get_services`, it carries the services
   * calling at its location.
   */
  lemma GetStopFrequencySpec(rows: seq<Record>, day: string, startHour: int, endHour: int, byDeparture: bool,
                             byRoutes: bool, getServices: bool, startMinute: int, endMinute: int)
      returns (w: Window, groups: seq<seq<Value>>)
    requires StopFrequencyOf(rows, day, startHour, endHour, byDeparture, byRoutes, getServices, startMinute, endMinute).Success?
    ensures MakeWindow(startHour, startMinute, endHour, endMinute) == Success(w)
    ensures var out := StopFrequencyOf(rows, day, startHour, endHour, byDeparture, byRoutes, getServices,
                                       startMinute, endMinute).value;
      var d, cols := DayColumn(day), GroupColumns(byRoutes);
      && |out| == |groups|
      && (forall i, j :: 0 <= i < j < |groups| ==> groups[i] != groups[j])
      && (forall g :: g in groups <==> Events(rows, d, w, cols, g) != {})
      && (forall i, j :: 0 <= i < j < |out| ==> out[i].totalFrequency >= out[j].totalFrequency)
      && (forall i :: 0 <= i < |out| ==>
            && out[i].location == Prefixed("QLN9100", KeyColumn(groups[i], 0))
            && out[i].route == (if byRoutes then Some(KeyColumn(groups[i], 1)) else None)
            && out[i].totalFrequency == |Events(rows, d, w, cols, groups[i])|
            && out[i].services
               == (if getServices then Services(Some(RoutesOf(rows, d, w, KeyColumn(groups[i], 0)))) else NoServices))
  {
    w := MakeWindow(startHour, startMinute, endHour, endMinute).value;
    var d := DayColumn(day);
    var total := Total(rows, d, w);
    var ranked := Ranked(total, d, byRoutes);
    groups := KeysInOrder(ranked);
    TotalSpec(rows, d, w);
    RankedSpec(total, rows, d, w, byRoutes);
    OutputsSpec(ranked, total, rows, d, w, byRoutes, getServices);
  }
}
