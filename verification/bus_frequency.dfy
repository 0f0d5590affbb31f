/**
 * `get_stop_frequency` of the bus/coach stop-frequency counter: how many stop rows run on a
 * weekday with their chosen time inside a closed window, per location (or per location and route
 * number), with the inbound and outbound counts left-joined on, sorted by frequency.
 */
module BusFrequency {
  import opened Wrappers
  import opened Records
  import opened Tables
  import opened Frequency

  /** The time column the window applies to. */
  function TimeColumn(byDeparture: bool): string {
    if byDeparture then "published_departure_time" else "published_arrival_time"
  }

  function GroupColumns(byRoutes: bool): seq<string> {
    if byRoutes then ["location", "route_number_(identifier)"] else ["location"]
  }

  /** The mask of the total table: the chosen time in the window and the weekday flag set. */
  predicate Selected(row: Record, day: string, col: string, w: Window) {
    InWindow(Get(row, col), w) && RunsOn(row, day)
  }

  /** The extra condition of the inbound ('I') and outbound ('O') tables. */
  predicate Heading(row: Record, direction: string) {
    Get(row, "route_direction") == Text(direction)
  }

  function TotalMask(day: string, col: string, w: Window): Record -> bool {
    row => Selected(row, day, col, w)
  }

  function DirectionMask(day: string, col: string, w: Window, direction: string): Record -> bool {
    row => Selected(row, day, col, w) && Heading(row, direction)
  }

  /** A row of the total table with both direction tables left-joined on its group key. */
  datatype Merged = Merged(key: seq<Value>, frequency: int, inbound: Option<int>, outbound: Option<int>)

  function Merge(total: seq<Count>, inbound: seq<Count>, outbound: seq<Count>): (r: seq<Merged>)
    ensures |r| == |total|
  {
    seq(|total|, i requires 0 <= i < |total| =>
      Merged(total[i].key, total[i].total, Lookup(inbound, total[i].key), Lookup(outbound, total[i].key)))
  }

  /** An output row: the prefixed location, the route number when grouping by route, and the counts. */
  datatype StopFrequency =
    StopFrequency(location: string, route: Option<Value>, frequency: int, inbound: Option<int>, outbound: Option<int>)

  function Output(m: Merged, byRoutes: bool): StopFrequency {
    StopFrequency(Prefixed("QLN", KeyColumn(m.key, 0)), if byRoutes then Some(KeyColumn(m.key, 1)) else None,
                  m.frequency, m.inbound, m.outbound)
  }

  /**
   * Inbound and outbound rows are selected rows heading one way or the other, so in every group
   * neither tally, nor the two together, exceeds the group's frequency.
   */
  lemma DirectionsBounded(rows: seq<Record>, day: string, col: string, w: Window, cols: seq<string>, g: seq<Value>)
    ensures var n := Tally(rows, TotalMask(day, col, w), cols, g);
      var nIn := Tally(rows, DirectionMask(day, col, w, "I"), cols, g);
      var nOut := Tally(rows, DirectionMask(day, col, w, "O"), cols, g);
      nIn <= n && nOut <= n && nIn + nOut <= n
  {
    var sel, inb, outb := TotalMask(day, col, w), DirectionMask(day, col, w, "I"), DirectionMask(day, col, w, "O");
    TallyWeaker(rows, inb, sel, cols, g);
    TallyWeaker(rows, outb, sel, cols, g);
    TallyDisjoint(rows, inb, outb, sel, cols, g);
  }

  function ByFrequency(m: Merged): int {
    m.frequency
  }

  function MergedKey(m: Merged): seq<Value> {
    m.key
  }

  /**
   * The merged table sorted by frequency (`sort_values(by='frequency', ascending=False)`), for
   * any total, inbound and outbound masks.
   */
  function RankedBy(rows: seq<Record>, sel: Record -> bool, inb: Record -> bool, outb: Record -> bool,
                    cols: seq<string>, day: string): seq<Merged> {
    SortDesc(Merge(GroupSum(Filter(rows, sel), cols, day),
                   GroupSum(Filter(rows, inb), cols, day),
                   GroupSum(Filter(rows, outb), cols, day)), ByFrequency)
  }

  function Ranked(rows: seq<Record>, day: string, w: Window, byRoutes: bool, byDeparture: bool): seq<Merged> {
    var col := TimeColumn(byDeparture);
    RankedBy(rows, TotalMask(day, col, w), DirectionMask(day, col, w, "I"), DirectionMask(day, col, w, "O"),
             GroupColumns(byRoutes), day)
  }

  /**
   * The merge of a grouped table with distinct keys: one row per key of the grouped table, each
   * carrying that key's total and the left-joined direction counts.
   */
  lemma MergeRows(total: seq<Count>, inbound: seq<Count>, outbound: seq<Count>)
    requires DistinctKeys(total, CountKey)
    ensures var merged := Merge(total, inbound, outbound);
      && DistinctKeys(merged, MergedKey)
      && KeysOf(merged, MergedKey) == KeysOf(total, CountKey)
      && forall m :: m in merged ==>
           && Count(m.key, m.frequency) in total
           && m.inbound == Lookup(inbound, m.key) && m.outbound == Lookup(outbound, m.key)
  {
    var merged := Merge(total, inbound, outbound);
    var a, c := KeysOf(merged, MergedKey), KeysOf(total, CountKey);
    forall g | g in a ensures g in c {
      var j :| 0 <= j < |merged| && MergedKey(merged[j]) == g;
      assert CountKey(total[j]) == g;
    }
    forall g | g in c ensures g in a {
      var j :| 0 <= j < |total| && CountKey(total[j]) == g;
      assert MergedKey(merged[j]) == g;
    }
    forall m | m in merged
      ensures Count(m.key, m.frequency) in total
    {
      var j :| 0 <= j < |merged| && merged[j] == m;
      assert total[j] == Count(m.key, m.frequency);
    }
  }

  /** The sorted merge: the same rows as the merge, so the same facts hold of each. */
  lemma SortedMerge(total: seq<Count>, inbound: seq<Count>, outbound: seq<Count>)
    requires DistinctKeys(total, CountKey)
    ensures var ranked := SortDesc(Merge(total, inbound, outbound), ByFrequency);
      && DistinctKeys(ranked, MergedKey)
      && KeysOf(ranked, MergedKey) == KeysOf(total, CountKey)
      && forall m :: m in ranked ==>
           && Count(m.key, m.frequency) in total
           && m.inbound == Lookup(inbound, m.key) && m.outbound == Lookup(outbound, m.key)
  {
    MergeRows(total, inbound, outbound);
    SortDescKeys(Merge(total, inbound, outbound), ByFrequency, MergedKey);
  }

  /**
   * A row of the sorted table, in terms of the stop rows of its group, when every row selected by
   * a mask runs on the day whose flags are summed.
   */
  lemma RankedByRow(rows: seq<Record>, sel: Record -> bool, inb: Record -> bool, outb: Record -> bool,
                    cols: seq<string>, day: string, m: Merged)
    requires forall i :: 0 <= i < |rows| ==> sel(rows[i]) ==> RunsOn(rows[i], day)
    requires forall i :: 0 <= i < |rows| ==> inb(rows[i]) ==> RunsOn(rows[i], day)
    requires forall i :: 0 <= i < |rows| ==> outb(rows[i]) ==> RunsOn(rows[i], day)
    requires m in RankedBy(rows, sel, inb, outb, cols, day)
    ensures m.frequency == Tally(rows, sel, cols, m.key)
    ensures m.inbound == Joined(Tally(rows, inb, cols, m.key))
    ensures m.outbound == Joined(Tally(rows, outb, cols, m.key))
  {
    var total := GroupSum(Filter(rows, sel), cols, day);
    GroupSumKeys(rows, sel, cols, day);
    SortedMerge(total, GroupSum(Filter(rows, inb), cols, day), GroupSum(Filter(rows, outb), cols, day));
    var j :| 0 <= j < |total| && total[j] == Count(m.key, m.frequency);
    GroupSumTotals(rows, sel, cols, day);
    JoinedTally(rows, inb, cols, day, m.key);
    JoinedTally(rows, outb, cols, day, m.key);
  }

  /** The sorted table has a row for each group with a selected stop row, each once. */
  lemma RankedByKeys(rows: seq<Record>, sel: Record -> bool, inb: Record -> bool, outb: Record -> bool,
                     cols: seq<string>, day: string)
    ensures var ranked := RankedBy(rows, sel, inb, outb, cols, day);
      && DistinctKeys(ranked, MergedKey)
      && (forall g :: g in KeysOf(ranked, MergedKey) <==> Tally(rows, sel, cols, g) > 0)
  {
    var total := GroupSum(Filter(rows, sel), cols, day);
    GroupSumKeys(rows, sel, cols, day);
    SortedMerge(total, GroupSum(Filter(rows, inb), cols, day), GroupSum(Filter(rows, outb), cols, day));
  }

  lemma RankedByRows(rows: seq<Record>, sel: Record -> bool, inb: Record -> bool, outb: Record -> bool,
                     cols: seq<string>, day: string)
    requires forall i :: 0 <= i < |rows| ==> sel(rows[i]) ==> RunsOn(rows[i], day)
    requires forall i :: 0 <= i < |rows| ==> inb(rows[i]) ==> RunsOn(rows[i], day)
    requires forall i :: 0 <= i < |rows| ==> outb(rows[i]) ==> RunsOn(rows[i], day)
    ensures var ranked := RankedBy(rows, sel, inb, outb, cols, day);
      && DistinctKeys(ranked, MergedKey)
      && (forall g :: g in KeysOf(ranked, MergedKey) <==> Tally(rows, sel, cols, g) > 0)
      && forall m :: m in ranked ==>
           && m.frequency == Tally(rows, sel, cols, m.key)
           && m.inbound == Joined(Tally(rows, inb, cols, m.key))
           && m.outbound == Joined(Tally(rows, outb, cols, m.key))
  {
    RankedByKeys(rows, sel, inb, outb, cols, day);
    forall m | m in RankedBy(rows, sel, inb, outb, cols, day)
      ensures m.frequency == Tally(rows, sel, cols, m.key)
      ensures m.inbound == Joined(Tally(rows, inb, cols, m.key))
      ensures m.outbound == Joined(Tally(rows, outb, cols, m.key))
    {
      RankedByRow(rows, sel, inb, outb, cols, day, m);
    }
  }

  /** The same, for the bus/coach masks, whose rows all run on the day. */
  lemma RankedRows(rows: seq<Record>, day: string, w: Window, byRoutes: bool, byDeparture: bool)
    ensures var col, cols := TimeColumn(byDeparture), GroupColumns(byRoutes);
      var ranked := Ranked(rows, day, w, byRoutes, byDeparture);
      && DistinctKeys(ranked, MergedKey)
      && (forall g :: g in KeysOf(ranked, MergedKey) <==> Tally(rows, TotalMask(day, col, w), cols, g) > 0)
      && forall m :: m in ranked ==>
           && m.frequency == Tally(rows, TotalMask(day, col, w), cols, m.key)
           && m.inbound == Joined(Tally(rows, DirectionMask(day, col, w, "I"), cols, m.key))
           && m.outbound == Joined(Tally(rows, DirectionMask(day, col, w, "O"), cols, m.key))
  {
    var col := TimeColumn(byDeparture);
    RankedByRows(rows, TotalMask(day, col, w), DirectionMask(day, col, w, "I"), DirectionMask(day, col, w, "O"),
                 GroupColumns(byRoutes), day);
  }

  /** The group keys of a table, in its row order. */
  function KeysInOrder(ranked: seq<Merged>): (r: seq<seq<Value>>)
    ensures |r| == |ranked|
  {
    seq(|ranked|, i requires 0 <= i < |ranked| => MergedKey(ranked[i]))
  }

  function Outputs(ranked: seq<Merged>, byRoutes: bool): (r: seq<StopFrequency>)
    ensures |r| == |ranked|
  {
    seq(|ranked|, i requires 0 <= i < |ranked| => Output(ranked[i], byRoutes))
  }

  /**
   * The output rows of a sorted table whose rows are the groups with a positive tally, each once,
   * carrying the tallies: row `i` is the group `KeysInOrder(ranked)[i]`.
   */
  lemma OutputsSpec(ranked: seq<Merged>, byRoutes: bool, rows: seq<Record>, sel: Record -> bool,
                    inb: Record -> bool, outb: Record -> bool, cols: seq<string>)
    requires NonIncreasing(ranked, ByFrequency) && DistinctKeys(ranked, MergedKey)
    requires forall g :: g in KeysOf(ranked, MergedKey) <==> Tally(rows, sel, cols, g) > 0
    requires forall m :: m in ranked ==>
      && m.frequency == Tally(rows, sel, cols, m.key)
      && m.inbound == Joined(Tally(rows, inb, cols, m.key))
      && m.outbound == Joined(Tally(rows, outb, cols, m.key))
    ensures var out, groups := Outputs(ranked, byRoutes), KeysInOrder(ranked);
      && (forall i, j :: 0 <= i < j < |groups| ==> groups[i] != groups[j])
      && (forall g :: g in groups <==> Tally(rows, sel, cols, g) > 0)
      && (forall i, j :: 0 <= i < j < |out| ==> out[i].frequency >= out[j].frequency)
      && (forall i :: 0 <= i < |out| ==>
            && out[i].location == Prefixed("QLN", KeyColumn(groups[i], 0))
            && out[i].route == (if byRoutes then Some(KeyColumn(groups[i], 1)) else None)
            && out[i].frequency == Tally(rows, sel, cols, groups[i])
            && out[i].inbound == Joined(Tally(rows, inb, cols, groups[i]))
            && out[i].outbound == Joined(Tally(rows, outb, cols, groups[i])))
  {
    var out, groups := Outputs(ranked, byRoutes), KeysInOrder(ranked);
    forall g ensures g in groups <==> g in KeysOf(ranked, MergedKey) {
      if g in groups {
        var i :| 0 <= i < |groups| && groups[i] == g;
      }
      if g in KeysOf(ranked, MergedKey) {
        var i :| 0 <= i < |ranked| && MergedKey(ranked[i]) == g;
        assert groups[i] == g;
      }
    }
    forall i | 0 <= i < |out|
      ensures out[i].frequency == Tally(rows, sel, cols, groups[i])
      ensures out[i].inbound == Joined(Tally(rows, inb, cols, groups[i]))
      ensures out[i].outbound == Joined(Tally(rows, outb, cols, groups[i]))
    {
      assert ranked[i] in ranked;
    }
  }

  /** `get_stop_frequency(df, day, start_hour, end_hour, group_by_routes, group_by_departure, start_minute, end_minute)`. */
  function GetStopFrequency(rows: seq<Record>, day: string, startHour: int, endHour: int, byRoutes: bool,
                            byDeparture: bool, startMinute: int, endMinute: int): (r: Result<seq<StopFrequency>, Error>)
    ensures r.Success? <==> MakeWindow(startHour, startMinute, endHour, endMinute).Success?
    ensures r.Failure? ==> r.error == MakeWindow(startHour, startMinute, endHour, endMinute).error
  {
    match MakeWindow(startHour, startMinute, endHour, endMinute)
    case Failure(e) => Failure(e)
    case Success(w) => Success(Outputs(Ranked(rows, DayColumn(day), w, byRoutes, byDeparture), byRoutes))
  }

  /**
   * The output of `get_stop_frequency`, row `i` being the group `groups[i]`: a row for each group
   * holding a selected stop row, each once, sorted by frequency in non-increasing order. A row's
   * frequency counts the selected stop rows of its group; its inbound and outbound counts count
   * those heading 'I' and 'O', absent when there are none, and neither they nor their sum exceed
   * the frequency; its location is "QLN" followed by the trimmed location.
   */
  lemma GetStopFrequencySpec(rows: seq<Record>, day: string, startHour: int, endHour: int, byRoutes: bool,
                             byDeparture: bool, startMinute: int, endMinute: int)
      returns (w: Window, groups: seq<seq<Value>>)
    requires GetStopFrequency(rows, day, startHour, endHour, byRoutes, byDeparture, startMinute, endMinute).Success?
    ensures MakeWindow(startHour, startMinute, endHour, endMinute) == Success(w)
    ensures var out := GetStopFrequency(rows, day, startHour, endHour, byRoutes, byDeparture, startMinute, endMinute).value;
      var d, col, cols := DayColumn(day), TimeColumn(byDeparture), GroupColumns(byRoutes);
      && |out| == |groups|
      && (forall i, j :: 0 <= i < j < |groups| ==> groups[i] != groups[j])
      && (forall g :: g in groups <==> Tally(rows, TotalMask(d, col, w), cols, g) > 0)
      && (forall i, j :: 0 <= i < j < |out| ==> out[i].frequency >= out[j].frequency)
      && (forall i :: 0 <= i < |out| ==>
            var nIn := Tally(rows, DirectionMask(d, col, w, "I"), cols, groups[i]);
            var nOut := Tally(rows, DirectionMask(d, col, w, "O"), cols, groups[i]);
            && out[i].location == Prefixed("QLN", KeyColumn(groups[i], 0))
            && out[i].route == (if byRoutes then Some(KeyColumn(groups[i], 1)) else None)
            && out[i].frequency == Tally(rows, TotalMask(d, col, w), cols, groups[i])
            && out[i].inbound == Joined(nIn) && out[i].outbound == Joined(nOut)
            && nIn + nOut <= out[i].frequency)
  {
    w := MakeWindow(startHour, startMinute, endHour, endMinute).value;
    var d, col, cols := DayColumn(day), TimeColumn(byDeparture), GroupColumns(byRoutes);
    var ranked := Ranked(rows, d, w, byRoutes, byDeparture);
    groups := KeysInOrder(ranked);
    RankedRows(rows, d, w, byRoutes, byDeparture);
    OutputsSpec(ranked, byRoutes, rows, TotalMask(d, col, w), DirectionMask(d, col, w, "I"),
                DirectionMask(d, col, w, "O"), cols);
    forall i | 0 <= i < |groups| {
      DirectionsBounded(rows, d, col, w, cols, groups[i]);
    }
  }
}
