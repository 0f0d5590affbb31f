/**
 * What the two stop-frequency counters share: the weekday column they read, the closed time
 * window, the groupby keys (rows with an absent key value belong to no group), the per-group sum
 * of a column, the left join of one grouped table onto another, and the location prefix.
 *
 * Rows are timetable rows as loaded back from the converters' CSV output: a weekday flag is the
 * integer 1 or 0, a time column holds a time of day or is absent (NaN), and an absent column
 * reads as absent too.
 */
module Frequency {
  import opened Wrappers
  import opened Text
  import opened Clock
  import opened Records
  import opened Tables

  /** The weekday flag column of a day name: "operates_on_" + day.lower() + "s". */
  function DayColumn(day: string): string {
    "operates_on_" + Lower(day) + "s"
  }

  /** The closed interval [start, end] of times of day. */
  datatype Window = Window(start: Minute, end: Minute)

  /** `datetime.time(start_hour, start_minute)`, then `datetime.time(end_hour, end_minute)`. */
  function MakeWindow(startHour: int, startMinute: int, endHour: int, endMinute: int): (r: Result<Window, Error>)
    ensures MakeTime(startHour, startMinute).None? ==> r == Failure(BadClock(startHour, startMinute))
    ensures MakeTime(startHour, startMinute).Some? && MakeTime(endHour, endMinute).None? ==>
      r == Failure(BadClock(endHour, endMinute))
    ensures r.Success? <==> MakeTime(startHour, startMinute).Some? && MakeTime(endHour, endMinute).Some?
    ensures r.Success? ==> r.value == Window(MakeTime(startHour, startMinute).value, MakeTime(endHour, endMinute).value)
  {
    match MakeTime(startHour, startMinute)
    case None => Failure(BadClock(startHour, startMinute))
    case Some(start) =>
      match MakeTime(endHour, endMinute)
      case None => Failure(BadClock(endHour, endMinute))
      case Some(end) => Success(Window(start, end))
  }

  /** `start <= v <= end` on a time column: an absent value satisfies neither comparison. */
  predicate InWindow(v: Value, w: Window) {
    v.Time? && w.start <= v.minute <= w.end
  }

  /** `df[day] == 1`. */
  predicate RunsOn(row: Record, day: string) {
    Get(row, day) == Int(1)
  }

  /** A row's groupby key over `cols`; a row with an absent key value belongs to no group (dropna). */
  function GroupKey(row: Record, cols: seq<string>): Option<seq<Value>> {
    if forall i :: 0 <= i < |cols| ==> Get(row, cols[i]) != Null
    then Some(seq(|cols|, i requires 0 <= i < |cols| => Get(row, cols[i])))
    else None
  }

  /** Column `i` of a group key. */
  function KeyColumn(key: seq<Value>, i: nat): Value {
    if i < |key| then key[i] else Null
  }

  function InGroup(cols: seq<string>, g: seq<Value>): Record -> bool {
    row => GroupKey(row, cols) == Some(g)
  }

  /** The group keys of the rows, one per row that has one, in row order. */
  function KeyList(rows: seq<Record>, cols: seq<string>): (ks: seq<seq<Value>>)
    ensures forall g :: g in ks <==> exists i :: 0 <= i < |rows| && GroupKey(rows[i], cols) == Some(g)
    decreases |rows|
  {
    if rows == [] then []
    else
      var rest := KeyList(rows[1..], cols);
      assert forall i :: 1 <= i < |rows| ==> rows[i] == rows[1..][i - 1];
      match GroupKey(rows[0], cols)
      case None => rest
      case Some(g) => [g] + rest
  }

  /** The groups of a groupby: each key that some row has, once. */
  function Groups(rows: seq<Record>, cols: seq<string>): seq<seq<Value>> {
    Distinct(KeyList(rows, cols))
  }

  lemma GroupsSpec(rows: seq<Record>, cols: seq<string>)
    ensures forall i, j :: 0 <= i < j < |Groups(rows, cols)| ==> Groups(rows, cols)[i] != Groups(rows, cols)[j]
    ensures forall g :: g in Groups(rows, cols) <==> exists i :: 0 <= i < |rows| && GroupKey(rows[i], cols) == Some(g)
  {
    DistinctSpec(KeyList(rows, cols));
  }

  /** A cell as a number for `sum()`: NaN adds nothing. */
  function Number(v: Value): int {
    if v.Int? then v.n else 0
  }

  /** `df[col].sum()`. */
  function ColumnSum(rows: seq<Record>, col: string): int
    decreases |rows|
  {
    if rows == [] then 0 else Number(Get(rows[0], col)) + ColumnSum(rows[1..], col)
  }

  /** Summing a weekday column whose every flag is 1 counts the rows. */
  lemma {:induction false} SumOfFlags(rows: seq<Record>, day: string)
    requires forall i :: 0 <= i < |rows| ==> RunsOn(rows[i], day)
    ensures ColumnSum(rows, day) == |rows|
    decreases |rows|
  {
    if rows != [] {
      SumOfFlags(rows[1..], day);
    }
  }

  /** The number of rows that satisfy `mask` and fall in group `g`. */
  function Tally(rows: seq<Record>, mask: Record -> bool, cols: seq<string>, g: seq<Value>): (n: nat)
    ensures n <= |rows|
    decreases |rows|
  {
    if rows == [] then 0
    else (if mask(rows[0]) && GroupKey(rows[0], cols) == Some(g) then 1 else 0) + Tally(rows[1..], mask, cols, g)
  }

  /** Selecting by `mask` and then by group counts the tally. */
  lemma {:induction false} TallyIsFilter(rows: seq<Record>, mask: Record -> bool, cols: seq<string>, g: seq<Value>)
    ensures Tally(rows, mask, cols, g) == |Filter(Filter(rows, mask), InGroup(cols, g))|
    decreases |rows|
  {
    if rows != [] {
      TallyIsFilter(rows[1..], mask, cols, g);
      if mask(rows[0]) {
        assert Filter(rows, mask) == [rows[0]] + Filter(rows[1..], mask);
        assert Filter(rows, mask)[1..] == Filter(rows[1..], mask);
      }
    }
  }

  /** A group has a positive tally exactly when some selected row falls in it. */
  lemma {:induction false} TallyPositive(rows: seq<Record>, mask: Record -> bool, cols: seq<string>, g: seq<Value>)
    ensures Tally(rows, mask, cols, g) > 0 <==>
      exists i :: 0 <= i < |rows| && mask(rows[i]) && GroupKey(rows[i], cols) == Some(g)
    decreases |rows|
  {
    if rows != [] {
      TallyPositive(rows[1..], mask, cols, g);
      if i :| 1 <= i < |rows| && mask(rows[i]) && GroupKey(rows[i], cols) == Some(g) {
        assert rows[1..][i - 1] == rows[i];
      }
      if i :| 0 <= i < |rows| - 1 && mask(rows[1..][i]) && GroupKey(rows[1..][i], cols) == Some(g) {
        assert rows[i + 1] == rows[1..][i];
      }
    }
  }

  /** A mask that implies another one tallies no more rows in any group. */
  lemma {:induction false} TallyWeaker(rows: seq<Record>, p: Record -> bool, q: Record -> bool, cols: seq<string>, g: seq<Value>)
    requires forall i :: 0 <= i < |rows| ==> p(rows[i]) ==> q(rows[i])
    ensures Tally(rows, p, cols, g) <= Tally(rows, q, cols, g)
    decreases |rows|
  {
    if rows != [] {
      TallyWeaker(rows[1..], p, q, cols, g);
    }
  }

  /** Two masks that never hold together, each implying a third, tally no more rows between them. */
  lemma {:induction false} TallyDisjoint(rows: seq<Record>, p: Record -> bool, q: Record -> bool, both: Record -> bool,
                                         cols: seq<string>, g: seq<Value>)
    requires forall i :: 0 <= i < |rows| ==> !(p(rows[i]) && q(rows[i]))
    requires forall i :: 0 <= i < |rows| ==> (p(rows[i]) || q(rows[i])) ==> both(rows[i])
    ensures Tally(rows, p, cols, g) + Tally(rows, q, cols, g) <= Tally(rows, both, cols, g)
    decreases |rows|
  {
    if rows != [] {
      TallyDisjoint(rows[1..], p, q, both, cols, g);
    }
  }

  /** One row of `groupby(cols).sum().reset_index()[cols + [col]]`. */
  datatype Count = Count(key: seq<Value>, total: int)

  function CountKey(c: Count): seq<Value> {
    c.key
  }

  /** `groupby(cols).sum()` of one column: a row per group, holding the column's sum over the group. */
  function GroupSum(rows: seq<Record>, cols: seq<string>, col: string): (r: seq<Count>)
    ensures |r| == |Groups(rows, cols)|
    ensures forall i, j :: 0 <= i < j < |r| ==> r[i].key != r[j].key
  {
    GroupsSpec(rows, cols);
    var groups := Groups(rows, cols);
    seq(|groups|, i requires 0 <= i < |groups| =>
      Count(groups[i], ColumnSum(Filter(rows, InGroup(cols, groups[i])), col)))
  }

  /** The grouped table of the rows a mask selects has a row for each group with a positive tally, once. */
  lemma GroupSumKeys(rows: seq<Record>, mask: Record -> bool, cols: seq<string>, col: string)
    ensures var counts := GroupSum(Filter(rows, mask), cols, col);
      && DistinctKeys(counts, CountKey)
      && (forall g :: g in KeysOf(counts, CountKey) <==> Tally(rows, mask, cols, g) > 0)
  {
    forall g ensures g in KeysOf(GroupSum(Filter(rows, mask), cols, col), CountKey) <==> Tally(rows, mask, cols, g) > 0 {
      GroupSumKey(rows, mask, cols, col, g);
    }
  }

  /** One group's part of `GroupSumKeys`. */
  lemma GroupSumKey(rows: seq<Record>, mask: Record -> bool, cols: seq<string>, col: string, g: seq<Value>)
    ensures g in KeysOf(GroupSum(Filter(rows, mask), cols, col), CountKey) <==> Tally(rows, mask, cols, g) > 0
  {
    var selected := Filter(rows, mask);
    GroupSumKeysAreGroups(selected, cols, col, g);
    GroupsSpec(selected, cols);
    SelectedGroup(rows, mask, cols, g);
    TallyPositive(rows, mask, cols, g);
  }

  /** The keys of the grouped table are the groups. */
  lemma GroupSumKeysAreGroups(rows: seq<Record>, cols: seq<string>, col: string, g: seq<Value>)
    ensures g in KeysOf(GroupSum(rows, cols, col), CountKey) <==> g in Groups(rows, cols)
  {
    var counts := GroupSum(rows, cols, col);
    var groups := Groups(rows, cols);
    assert forall i :: 0 <= i < |counts| ==> CountKey(counts[i]) == groups[i];
    if g in groups {
      var i :| 0 <= i < |groups| && groups[i] == g;
      assert CountKey(counts[i]) == g;
    }
  }

  /** A selected row falls in group `g` exactly when some row the mask keeps does. */
  lemma SelectedGroup(rows: seq<Record>, mask: Record -> bool, cols: seq<string>, g: seq<Value>)
    ensures (exists k :: 0 <= k < |Filter(rows, mask)| && GroupKey(Filter(rows, mask)[k], cols) == Some(g)) <==>
      exists i :: 0 <= i < |rows| && mask(rows[i]) && GroupKey(rows[i], cols) == Some(g)
  {
    var selected := Filter(rows, mask);
    if k :| 0 <= k < |selected| && GroupKey(selected[k], cols) == Some(g) {
      FilterMembers(rows, mask, selected[k]);
    }
    if i :| 0 <= i < |rows| && mask(rows[i]) && GroupKey(rows[i], cols) == Some(g) {
      FilterMembers(rows, mask, rows[i]);
      var k :| 0 <= k < |selected| && selected[k] == rows[i];
    }
  }

  /** Summing `day` over the selected rows of a group, all of which run on `day`, gives its tally. */
  lemma GroupSumTotals(rows: seq<Record>, mask: Record -> bool, cols: seq<string>, day: string)
    requires forall i :: 0 <= i < |rows| ==> mask(rows[i]) ==> RunsOn(rows[i], day)
    ensures var counts := GroupSum(Filter(rows, mask), cols, day);
      forall i :: 0 <= i < |counts| ==> counts[i].total == Tally(rows, mask, cols, counts[i].key)
  {
    var selected := Filter(rows, mask);
    var counts := GroupSum(selected, cols, day);
    var groups := Groups(selected, cols);
    forall i | 0 <= i < |counts| ensures counts[i].total == Tally(rows, mask, cols, counts[i].key) {
      var members := Filter(selected, InGroup(cols, groups[i]));
      forall m | 0 <= m < |members| ensures RunsOn(members[m], day) {
        FilterMembers(selected, InGroup(cols, groups[i]), members[m]);
        FilterMembers(rows, mask, members[m]);
      }
      SumOfFlags(members, day);
      TallyIsFilter(rows, mask, cols, groups[i]);
    }
  }

  /** A left-joined count: absent when the group has no rows on the right. */
  function Joined(n: nat): Option<int> {
    if n == 0 then None else Some(n)
  }

  /** The left join of a grouped table on its key: the total of the group `key`, if it has a row. */
  function Lookup(counts: seq<Count>, key: seq<Value>): (r: Option<int>)
    ensures r.Some? <==> key in KeysOf(counts, CountKey)
    ensures r.Some? ==> exists i :: 0 <= i < |counts| && counts[i] == Count(key, r.value)
    decreases |counts|
  {
    if counts == [] then None
    else if counts[0].key == key then
      assert CountKey(counts[0]) == key;
      Some(counts[0].total)
    else
      assert forall i :: 1 <= i < |counts| ==> counts[i] == counts[1..][i - 1];
      assert KeysOf(counts, CountKey) == KeysOf(counts[1..], CountKey) + {CountKey(counts[0])} by {
        assert counts == [counts[0]] + counts[1..];
        KeysOfAppend([counts[0]], counts[1..], CountKey);
        KeysOfSingle(counts[0], CountKey);
      }
      Lookup(counts[1..], key)
  }

  /**
   * Left-joining the grouped rows a mask selects (all running on `day`) gives each group its tally,
   * and nothing for a group with none.
   */
  lemma JoinedTally(rows: seq<Record>, mask: Record -> bool, cols: seq<string>, day: string, g: seq<Value>)
    requires forall i :: 0 <= i < |rows| ==> mask(rows[i]) ==> RunsOn(rows[i], day)
    ensures Lookup(GroupSum(Filter(rows, mask), cols, day), g) == Joined(Tally(rows, mask, cols, g))
  {
    var counts := GroupSum(Filter(rows, mask), cols, day);
    GroupSumKeys(rows, mask, cols, day);
    GroupSumTotals(rows, mask, cols, day);
    var r := Lookup(counts, g);
    if r.Some? {
      var i :| 0 <= i < |counts| && counts[i] == Count(g, r.value);
    }
  }

  /** `prefix + str(x).strip()`. */
  function Prefixed(prefix: string, v: Value): (r: string)
    ensures |prefix| <= |r| && r[..|prefix|] == prefix
  {
    prefix + Trim(Str(v))
  }
}
