/**
 * The rail converter's weekday columns: `operates_on_<day>s` is character k of `days_run`
 * (Monday first), and the name the frequency counters build from a day name is one of them
 * exactly when the lower-cased day name is that weekday.
 */
module Weekdays {
  import opened Wrappers
  import opened Text
  import opened Records
  import opened Frequency

  /** The days of `days_run`, Monday first. */
  const DayNames: seq<string> := ["monday", "tuesday", "wednesday", "thursday", "friday", "saturday", "sunday"]

  /** The flag column of weekday `k`. */
  function WeekdayColumn(k: nat): string
    requires k < 7
  {
    "operates_on_" + DayNames[k] + "s"
  }

  /** `df['days_run'].str[k]`: the one-character string at `k`, NaN for a missing, non-text or short value. */
  function DayFlag(daysRun: Value, k: nat): (r: Value)
    ensures r != Null <==> daysRun.Text? && k < |daysRun.s|
    ensures r != Null ==> r.Text? && |r.s| == 1
  {
    if daysRun.Text? && k < |daysRun.s| then Text([daysRun.s[k]]) else Null
  }

  /** A column named "operates_on_" + x + "s" names x. */
  lemma ColumnNameInjective(x: string, y: string)
    ensures "operates_on_" + x + "s" == "operates_on_" + y + "s" <==> x == y
  {
    var p := "operates_on_";
    if p + x + "s" == p + y + "s" {
      assert |x| == |y|;
      assert forall i :: 0 <= i < |x| ==> x[i] == (p + x + "s")[|p| + i];
      assert forall i :: 0 <= i < |y| ==> y[i] == (p + y + "s")[|p| + i];
    }
  }

  /** The seven weekday columns are seven different columns, none of them `days_run`. */
  lemma WeekdayColumnsDistinct(j: nat, k: nat)
    requires j < 7 && k < 7
    ensures WeekdayColumn(j) == WeekdayColumn(k) <==> j == k
    ensures WeekdayColumn(k) != "days_run"
  {
    ColumnNameInjective(DayNames[j], DayNames[k]);
    assert WeekdayColumn(k)[0] == 'o';
  }

  /**
   * The counters' day column is weekday `k`'s flag column exactly when the day name, lower-cased,
   * is that weekday's name.
   */
  lemma DayColumnIsWeekday(day: string, k: nat)
    requires k < 7
    ensures DayColumn(day) == WeekdayColumn(k) <==> Lower(day) == DayNames[k]
  {
    ColumnNameInjective(Lower(day), DayNames[k]);
  }

  /** The row after the first `n` of the seven assignments, Monday's first. */
  function SetFlags(row: Record, daysRun: Value, n: nat): (r: Record)
    requires n <= 7
    ensures forall k :: 0 <= k < n ==> WeekdayColumn(k) in r
  {
    if n == 0 then row
    else
      var r := SetFlags(row, daysRun, n - 1);
      r[WeekdayColumn(n - 1) := DayFlag(daysRun, n - 1)]
  }

  /** After the first `n` assignments, weekday `k < n` holds character `k`. */
  lemma {:induction false} SetFlagsAt(row: Record, daysRun: Value, n: nat, k: nat)
    requires k < n <= 7
    ensures SetFlags(row, daysRun, n)[WeekdayColumn(k)] == DayFlag(daysRun, k)
  {
    var before := SetFlags(row, daysRun, n - 1);
    assert SetFlags(row, daysRun, n) == before[WeekdayColumn(n - 1) := DayFlag(daysRun, n - 1)];
    if k < n - 1 {
      SetFlagsAt(row, daysRun, n - 1, k);
      WeekdayColumnsDistinct(k, n - 1);
    }
  }

  /** The first `n` assignments add the first `n` weekday columns and leave every other key alone. */
  lemma {:induction false} SetFlagsKeys(row: Record, daysRun: Value, n: nat)
    requires n <= 7
    ensures SetFlags(row, daysRun, n).Keys == row.Keys + (set k | 0 <= k < n :: WeekdayColumn(k))
    ensures forall key :: key in row && (forall k :: 0 <= k < n ==> key != WeekdayColumn(k)) ==>
      SetFlags(row, daysRun, n)[key] == row[key]
  {
    if n > 0 {
      SetFlagsKeys(row, daysRun, n - 1);
      assert (set k | 0 <= k < n :: WeekdayColumn(k)) == (set k | 0 <= k < n - 1 :: WeekdayColumn(k)) + {WeekdayColumn(n - 1)};
    }
  }

  /** The row with its seven weekday columns set, Monday's first, as the seven assignments do. */
  function ExpandDaysRun(row: Record): (r: Record)
    ensures forall k :: 0 <= k < 7 ==> WeekdayColumn(k) in r
  {
    SetFlags(row, Get(row, "days_run"), 7)
  }

  /** Expanding adds exactly the seven weekday columns, and every other column keeps its value. */
  lemma ExpandedKeys(row: Record)
    ensures ExpandDaysRun(row).Keys == row.Keys + (set k | 0 <= k < 7 :: WeekdayColumn(k))
    ensures forall key :: key in row && (forall k :: 0 <= k < 7 ==> key != WeekdayColumn(k)) ==>
      ExpandDaysRun(row)[key] == row[key]
  {
    SetFlagsKeys(row, Get(row, "days_run"), 7);
  }

  /** Weekday `k`'s column holds character `k` of the row's `days_run`, and `days_run` is kept. */
  lemma ExpandedFlag(row: Record, k: nat)
    requires k < 7
    ensures var r := ExpandDaysRun(row);
      && r[WeekdayColumn(k)] == DayFlag(Get(row, "days_run"), k)
      && Get(r, "days_run") == Get(row, "days_run")
  {
    SetFlagsAt(row, Get(row, "days_run"), 7, k);
    ExpandedKeys(row);
    forall j | 0 <= j < 7 ensures WeekdayColumn(j) != "days_run" {
      WeekdayColumnsDistinct(j, j);
    }
  }

  /** The texts of the first `n` weekday flags of a row, Monday first, concatenated. */
  function ReadFlags(r: Record, n: nat): string
    requires n <= 7
  {
    if n == 0 then ""
    else ReadFlags(r, n - 1) + (var v := Get(r, WeekdayColumn(n - 1)); if v.Text? then v.s else "")
  }

  /** Reading the first `n` flags back spells the first `n` characters of `days_run`. */
  lemma {:induction false} ReadFlagsPrefix(row: Record, n: nat)
    requires n <= 7 && Get(row, "days_run").Text? && |Get(row, "days_run").s| >= 7
    ensures ReadFlags(ExpandDaysRun(row), n) == Get(row, "days_run").s[..n]
  {
    if n > 0 {
      var s := Get(row, "days_run").s;
      ReadFlagsPrefix(row, n - 1);
      ExpandedFlag(row, n - 1);
      assert s[..n] == s[..n - 1] + [s[n - 1]];
    }
  }

  /** Reading the seven flags back, Monday first, spells the first seven characters of `days_run`. */
  lemma FlagsSpellDaysRun(row: Record)
    requires Get(row, "days_run").Text? && |Get(row, "days_run").s| >= 7
    ensures ReadFlags(ExpandDaysRun(row), 7) == Get(row, "days_run").s[..7]
  {
    ReadFlagsPrefix(row, 7);
  }

  /**
   * The weekday columns of every row of the rail timetable. The frame built from the rows has a
   * `days_run` column when some row has that key; without one, `df['days_run']` raises KeyError.
   */
  function ExpandTable(rows: seq<Record>): (r: Result<seq<Record>, Error>)
    ensures rows == [] ==> r == Failure(MissingField("days_run"))
    ensures r.Failure? ==> r.error == MissingField("days_run") && forall i :: 0 <= i < |rows| ==> "days_run" !in rows[i]
    ensures (exists i :: 0 <= i < |rows| && "days_run" in rows[i]) ==> r.Success?
    ensures r.Success? ==> |r.value| == |rows|
    ensures r.Success? ==> forall i, k :: 0 <= i < |r.value| && 0 <= k < 7 ==> WeekdayColumn(k) in r.value[i]
  {
    if forall i :: 0 <= i < |rows| ==> "days_run" !in rows[i] then Failure(MissingField("days_run"))
    else Success(seq(|rows|, i requires 0 <= i < |rows| => ExpandDaysRun(rows[i])))
  }

  /** A timetable of rows that all have `days_run` expands exactly when it has a row. */
  lemma ExpandTableNeedsARow(rows: seq<Record>)
    requires forall i :: 0 <= i < |rows| ==> "days_run" in rows[i]
    ensures ExpandTable(rows).Success? <==> rows != []
  {
    if rows != [] {
      assert "days_run" in rows[0];
    }
  }

  /**
   * In the expanded table, a row runs on weekday `k` (its flag reads "1") exactly when character
   * `k` of its `days_run` is '1'.
   */
  lemma ExpandTableFlags(rows: seq<Record>, i: nat, k: nat)
    requires i < |rows| && k < 7 && ExpandTable(rows).Success?
    ensures var d := Get(rows[i], "days_run");
      Get(ExpandTable(rows).value[i], WeekdayColumn(k)) == Text("1") <==> d.Text? && k < |d.s| && d.s[k] == '1'
  {
    ExpandedFlag(rows[i], k);
  }
}
